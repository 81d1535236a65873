/**
 * The Python `str` operations the handlers rely on, over `string` (a sequence of
 * Unicode characters): `split` and `join` on a one-character separator,
 * `replace(c, "")`, `zfill` and decimal rendering of integers.
 */
module Text {

  /** Does `c` occur in `s`? */
  predicate Contains(s: string, c: char) {
    exists i :: 0 <= i < |s| && s[i] == c
  }

  /** `Contains` agrees with the character's multiplicity. */
  lemma ContainsCount(s: string, c: char)
    ensures Contains(s, c) <==> multiset(s)[c] > 0
  {
    if multiset(s)[c] > 0 {
      assert c in s;
      var i :| 0 <= i < |s| && s[i] == c;
    }
    if Contains(s, c) {
      var i :| 0 <= i < |s| && s[i] == c;
      assert s[i] in multiset(s);
    }
  }

  /** `n` copies of character `c`. */
  function Repeat(c: char, n: nat): (r: string)
    ensures |r| == n
    ensures forall i :: 0 <= i < n ==> r[i] == c
  {
    if n == 0 then "" else [c] + Repeat(c, n - 1)
  }

  /** The decimal digit for `d`. */
  function Digit(d: nat): char
    requires d < 10
  {
    "0123456789"[d]
  }

  /** `str(n)` for a non-negative integer: its decimal digits, most significant first. */
  function NatToString(n: nat): (r: string)
    ensures |r| >= 1
    ensures forall i :: 0 <= i < |r| ==> '0' <= r[i] <= '9'
  {
    if n < 10 then [Digit(n)] else NatToString(n / 10) + [Digit(n % 10)]
  }

  // ---------------------------------------------------------------------------
  // str.split(sep) and sep.join(parts) for a one-character separator
  // ---------------------------------------------------------------------------

  /**
   * `s.split(c)`: the pieces of `s` between occurrences of `c`, empty pieces
   * included, so that a string without `c` splits into itself.
   */
  function Split(s: string, c: char): (r: seq<string>)
    ensures |r| >= 1
    decreases |s|
  {
    if |s| == 0 then [""]
    else
      var rest := Split(s[1..], c);
      if s[0] == c then [""] + rest
      else [[s[0]] + rest[0]] + rest[1..]
  }

  /** `c.join(parts)`: the parts with one `c` between each neighbouring pair. */
  function Join(parts: seq<string>, c: char): string
    decreases |parts|
  {
    if |parts| == 0 then ""
    else if |parts| == 1 then parts[0]
    else parts[0] + [c] + Join(parts[1..], c)
  }

  /** Joining two and three pieces spelled out. */
  lemma JoinTwo(a: string, b: string, c: char)
    ensures Join([a, b], c) == a + [c] + b
  {
    assert [a, b][1..] == [b];
  }

  lemma JoinThree(a: string, b: string, d: string, c: char)
    ensures Join([a, b, d], c) == a + [c] + b + [c] + d
  {
    assert [a, b, d][1..] == [b, d];
    JoinTwo(b, d, c);
  }

  /** No piece contains the separator. */
  predicate Separable(parts: seq<string>, c: char) {
    forall k :: 0 <= k < |parts| ==> !Contains(parts[k], c)
  }

  /** Splitting never produces a piece that contains the separator. */
  lemma {:induction false} SplitPiecesAreSeparable(s: string, c: char)
    ensures Separable(Split(s, c), c)
    decreases |s|
  {
    if |s| > 0 {
      SplitPiecesAreSeparable(s[1..], c);
      var rest := Split(s[1..], c);
      if s[0] != c {
        var head := [s[0]] + rest[0];
        assert !Contains(rest[0], c);
        assert forall i :: 0 < i < |head| ==> head[i] == rest[0][i - 1];
      }
    }
  }

  /** Joining the pieces of a split gives back the original string. */
  lemma {:induction false} JoinSplit(s: string, c: char)
    ensures Join(Split(s, c), c) == s
    decreases |s|
  {
    if |s| > 0 {
      JoinSplit(s[1..], c);
      var rest := Split(s[1..], c);
      if s[0] == c {
        assert Join([""] + rest, c) == "" + [c] + Join(rest, c);
      } else {
        var parts := [[s[0]] + rest[0]] + rest[1..];
        if |rest| == 1 {
          assert Join(parts, c) == [s[0]] + rest[0];
        } else {
          assert parts[1..] == rest[1..];
          assert Join(rest, c) == rest[0] + [c] + Join(rest[1..], c);
          assert Join(parts, c) == [s[0]] + rest[0] + [c] + Join(rest[1..], c);
        }
      }
    }
  }

  /** A string without the separator, followed by `t`, splits into that string glued to the first piece of `t`. */
  lemma {:induction false} SplitPrefix(p: string, t: string, c: char)
    requires !Contains(p, c)
    ensures Split(p + t, c) == [p + Split(t, c)[0]] + Split(t, c)[1..]
    decreases |p|
  {
    if |p| > 0 {
      assert (p + t)[1..] == p[1..] + t;
      assert !Contains(p[1..], c) by {
        forall i | 0 <= i < |p[1..]| ensures p[1..][i] != c {
          assert p[1..][i] == p[i + 1];
        }
      }
      SplitPrefix(p[1..], t, c);
      assert p[0] != c;
      assert [p[0]] + (p[1..] + Split(t, c)[0]) == p + Split(t, c)[0];
    } else {
      var st := Split(t, c);
      assert p + t == t;
      assert p + st[0] == st[0];
      assert [st[0]] + st[1..] == st;
    }
  }

  /** Splitting a join of separator-free pieces gives back the pieces. */
  lemma {:induction false} SplitJoin(parts: seq<string>, c: char)
    requires |parts| >= 1
    requires Separable(parts, c)
    ensures Split(Join(parts, c), c) == parts
    decreases |parts|
  {
    if |parts| == 1 {
      SplitPrefix(parts[0], "", c);
      assert parts[0] + "" == parts[0];
    } else {
      var tail := Join(parts[1..], c);
      SplitJoin(parts[1..], c);
      assert Split([c] + tail, c) == [""] + parts[1..] by {
        assert ([c] + tail)[1..] == tail;
      }
      assert Join(parts, c) == parts[0] + ([c] + tail);
      SplitPrefix(parts[0], [c] + tail, c);
      assert parts[0] + "" == parts[0];
      assert [parts[0]] + parts[1..] == parts;
    }
  }

  /** A string splits into one more piece than it has separators. */
  lemma {:induction false} SplitCount(s: string, c: char)
    ensures |Split(s, c)| == multiset(s)[c] + 1
    decreases |s|
  {
    if |s| > 0 {
      SplitCount(s[1..], c);
      assert s == [s[0]] + s[1..];
    }
  }

  /** Two positions holding `c` mean at least two occurrences of it. */
  lemma TwoOccurrences(s: string, c: char, i: nat, j: nat)
    requires i < j < |s| && s[i] == c && s[j] == c
    ensures multiset(s)[c] >= 2
  {
    assert s == s[..j] + s[j..];
    assert s[..j][i] == c;
    assert c in multiset(s[..j]);
    assert s[j..][0] == c;
    assert c in multiset(s[j..]);
  }

  // ---------------------------------------------------------------------------
  // str.replace(c, "")
  // ---------------------------------------------------------------------------

  /** `s.replace(c, "")`: `s` with every occurrence of `c` deleted and the rest in order. */
  function RemoveAll(s: string, c: char): (r: string)
    ensures !Contains(r, c)
    ensures forall x :: x != c ==> multiset(r)[x] == multiset(s)[x]
    ensures |r| == |s| - multiset(s)[c]
    decreases |s|
  {
    if |s| == 0 then ""
    else
      var rest := RemoveAll(s[1..], c);
      assert s == [s[0]] + s[1..];
      if s[0] == c then rest
      else
        assert forall i :: 1 <= i < |[s[0]] + rest| ==> ([s[0]] + rest)[i] == rest[i - 1];
        [s[0]] + rest
  }

  /**
   * Removal works piece by piece and keeps order: removing from `a + b` is
   * removing from `a`, then from `b`, and the results laid side by side.
   */
  lemma {:induction false} RemoveAllAppend(a: string, b: string, c: char)
    ensures RemoveAll(a + b, c) == RemoveAll(a, c) + RemoveAll(b, c)
    decreases |a|
  {
    if |a| > 0 {
      assert (a + b)[0] == a[0];
      assert (a + b)[1..] == a[1..] + b;
      RemoveAllAppend(a[1..], b, c);
    } else {
      assert a + b == b;
    }
  }

  /** A single character is deleted when it is `c` and kept otherwise. */
  lemma RemoveAllOne(x: char, c: char)
    ensures RemoveAll([x], c) == if x == c then "" else [x]
  {
    assert [x][1..] == "";
  }

  /** Removing a character that does not occur leaves the string as it was. */
  lemma {:induction false} RemoveAllAbsent(s: string, c: char)
    requires !Contains(s, c)
    ensures RemoveAll(s, c) == s
    decreases |s|
  {
    if |s| > 0 {
      assert !Contains(s[1..], c) by {
        forall i | 0 <= i < |s[1..]| ensures s[1..][i] != c {
          assert s[1..][i] == s[i + 1];
        }
      }
      RemoveAllAbsent(s[1..], c);
      assert s == [s[0]] + s[1..];
    }
  }

  // ---------------------------------------------------------------------------
  // str.zfill(width)
  // ---------------------------------------------------------------------------

  /** Does `s` start with a sign character that `zfill` keeps in front? */
  predicate Signed(s: string) {
    |s| > 0 && (s[0] == '+' || s[0] == '-')
  }

  /**
   * Python's `s.zfill(width)`: a string already `width` long is returned as it is;
   * otherwise `width - |s|` zeros are inserted at the front, after a leading sign
   * if there is one.
   */
  function Zfill(s: string, width: nat): (r: string)
    ensures |r| == if |s| >= width then |s| else width
    ensures !Signed(s) ==> r[|r| - |s|..] == s
    ensures !Signed(s) ==> forall i :: 0 <= i < |r| - |s| ==> r[i] == '0'
    ensures Signed(s) ==> r[0] == s[0] && r[|r| - |s| + 1..] == s[1..]
    ensures Signed(s) ==> forall i :: 1 <= i < |r| - |s| + 1 ==> r[i] == '0'
  {
    if |s| >= width then s
    else
      var pad := Repeat('0', width - |s|);
      if Signed(s) then [s[0]] + pad + s[1..] else pad + s
  }
}
