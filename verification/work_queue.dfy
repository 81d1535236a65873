/**
 * The sentiment work queue and its consumer mapping, as configured: a
 * redrive policy that moves a message to the dead-letter queue once it has
 * been received more than three times, and a consumer mapping that hands the
 * sentiment Lambda one message per invocation.
 *
 * Every receive of a message counts toward the redrive limit, including the
 * completion barrier's zero-visibility peeks.
 */
module WorkQueue {
  /** `visibility_timeout_seconds` of the sentiment queue. */
  const VisibilityTimeoutSeconds: nat := 300
  /** `receive_wait_time_seconds`: long polling. */
  const ReceiveWaitSeconds: nat := 20
  /** `maxReceiveCount` of the redrive policy. */
  const MaxReceiveCount: nat := 3
  /** `message_retention_seconds` of the dead-letter queue: 14 days. */
  const DeadLetterRetentionSeconds: nat := 1209600
  /** `batch_size` of the consumer mapping. */
  const BatchSize: nat := 1
  /** `maximum_batching_window_in_seconds` of the consumer mapping. */
  const BatchingWindowSeconds: nat := 0
  /** `maximum_concurrency` of the consumer mapping. */
  const MaxConcurrency: nat := 5

  /** One receive of a message: a peek that leaves it in the queue, or a delivery to the consumer that succeeds or fails. */
  datatype Receive = Peek | Delivery(succeeds: bool)

  /** Where a message ends up after a sequence of receive attempts. */
  datatype Fate = Waiting(received: nat) | Consumed(received: nat) | DeadLettered(received: nat)

  /**
   * Play the receive attempts against a message already received `received`
   * times. An attempt made once the count has reached MaxReceiveCount moves the
   * message to the dead-letter queue instead; a successful delivery deletes it.
   */
  function FateFrom(attempts: seq<Receive>, received: nat): (f: Fate)
    requires received <= MaxReceiveCount
    ensures f.received <= MaxReceiveCount
    ensures f.DeadLettered? ==> f.received == MaxReceiveCount
    decreases |attempts|
  {
    if |attempts| == 0 then Waiting(received)
    else if received == MaxReceiveCount then DeadLettered(received)
    else match attempts[0]
      case Delivery(true) => Consumed(received + 1)
      case _ => FateFrom(attempts[1..], received + 1)
  }

  function FateOf(attempts: seq<Receive>): Fate {
    FateFrom(attempts, 0)
  }

  /**
   * With the consumer the only reader, a message is dead-lettered exactly when
   * its first three deliveries all fail and it is tried again; it is otherwise
   * consumed by the first delivery that succeeds.
   */
  lemma DeadLetteredIffThreeFailures(attempts: seq<Receive>)
    requires forall i :: 0 <= i < |attempts| ==> attempts[i].Delivery?
    ensures FateOf(attempts).DeadLettered? <==>
      |attempts| > MaxReceiveCount && forall i :: 0 <= i < MaxReceiveCount ==> !attempts[i].succeeds
    ensures forall i :: (0 <= i < |attempts| && i < MaxReceiveCount && attempts[i].succeeds &&
                         forall j :: 0 <= j < i ==> !attempts[j].succeeds) ==> FateOf(attempts) == Consumed(i + 1)
  {
    DeliveriesOnly(attempts, 0);
  }

  lemma {:induction false} DeliveriesOnly(attempts: seq<Receive>, k: nat)
    requires k <= MaxReceiveCount && k <= |attempts|
    requires forall i :: 0 <= i < |attempts| ==> attempts[i].Delivery?
    requires forall i :: 0 <= i < k ==> !attempts[i].succeeds
    ensures FateFrom(attempts[k..], k).DeadLettered? <==>
      |attempts| > MaxReceiveCount && forall i :: k <= i < MaxReceiveCount ==> !attempts[i].succeeds
    ensures forall i :: (k <= i < |attempts| && i < MaxReceiveCount && attempts[i].succeeds &&
                         forall j :: k <= j < i ==> !attempts[j].succeeds) ==> FateFrom(attempts[k..], k) == Consumed(i + 1)
    decreases MaxReceiveCount - k
  {
    if k < |attempts| && k < MaxReceiveCount {
      assert attempts[k..][0] == attempts[k];
      assert attempts[k..][1..] == attempts[k + 1..];
      if !attempts[k].succeeds {
        DeliveriesOnly(attempts, k + 1);
      }
    }
  }

  /**
   * The barrier's peeks spend the redrive budget: a message peeked three times
   * before the consumer first receives it goes to the dead-letter queue
   * without ever being delivered.
   */
  lemma PeeksExhaustRedrive(rest: seq<Receive>)
    requires |rest| >= 1
    ensures FateOf([Peek, Peek, Peek] + rest) == DeadLettered(MaxReceiveCount)
  {
    var a := [Peek, Peek, Peek] + rest;
    assert a[0] == Peek && a[1..][0] == Peek && a[1..][1..][0] == Peek;
    assert a[1..][1..][1..] == rest;
    assert FateOf(a) == FateFrom(a[1..], 1);
    assert FateFrom(a[1..], 1) == FateFrom(a[1..][1..], 2);
    assert FateFrom(a[1..][1..], 2) == FateFrom(rest, 3);
  }

  /** The consumer mapping's batches: one message per invocation, whatever order the queue delivers in. */
  function Batches<T>(messages: seq<T>): (b: seq<seq<T>>)
    ensures |b| == |messages|
    ensures forall i :: 0 <= i < |b| ==> |b[i]| == BatchSize && b[i][0] == messages[i]
  {
    if |messages| == 0 then [] else [[messages[0]]] + Batches(messages[1..])
  }
}
