/**
 * The two text clean-ups filings-ingest applies to a fetched filing document:
 * `re.sub('<[^<]+?>', '', text)` (tag stripping) and
 * `re.sub(r'\s+', ' ', text).strip()` (whitespace collapsing).
 */
module Markup {
  import opened Wrappers
  import Text

  // ---------------------------------------------------------------------------
  // Tag stripping: re.sub('<[^<]+?>', '', s)
  // ---------------------------------------------------------------------------

  /**
   * The pattern `<[^<]+?>` matches `s[..k + 1]`: `s` opens with '<', `s[k]` is a
   * '>' at least two characters further on, and nothing in between is a '<'
   * (a '>' in between is allowed: `[^<]` accepts it).
   */
  predicate TagEndsAt(s: string, k: int) {
    && 2 <= k < |s|
    && s[0] == '<'
    && s[k] == '>'
    && forall m :: 1 <= m < k ==> s[m] != '<'
  }

  /**
   * Scanning from position `j`, the end of the tag that opens `s`: because the
   * repetition is lazy, the match ends at the FIRST qualifying '>'.
   */
  function FindClose(s: string, j: nat): (r: Option<nat>)
    requires 1 <= j
    ensures r.Some? ==> 2 <= r.value < |s|
    decreases |s| - j
  {
    if j >= |s| then None
    else if s[j] == '<' then None
    else if s[j] == '>' && j >= 2 then Some(j)
    else FindClose(s, j + 1)
  }

  /** The end of the tag opening `s`, if `s` opens with one. */
  function TagEnd(s: string): (r: Option<nat>)
    ensures r.Some? ==> 2 <= r.value < |s|
  {
    if |s| > 0 && s[0] == '<' then FindClose(s, 1) else None
  }

  lemma {:induction false} FindCloseFirst(s: string, j: nat)
    requires 1 <= j && |s| > 0 && s[0] == '<'
    requires forall m :: 1 <= m < j && m < |s| ==> s[m] != '<'
    requires forall m :: 2 <= m < j && m < |s| ==> s[m] != '>'
    ensures FindClose(s, j).Some? ==> TagEndsAt(s, FindClose(s, j).value)
    ensures FindClose(s, j).Some? ==> forall k :: 0 <= k < FindClose(s, j).value ==> !TagEndsAt(s, k)
    ensures FindClose(s, j).None? ==> forall k :: !TagEndsAt(s, k)
    decreases |s| - j
  {
    if j < |s| && s[j] != '<' && !(s[j] == '>' && j >= 2) {
      FindCloseFirst(s, j + 1);
    }
  }

  /**
   * A tag at the front of `s` ends at the first '>' at least two characters
   * on with no '<' before it; there is none when no such '>' exists.
   */
  lemma TagEndFirst(s: string)
    ensures TagEnd(s).Some? ==> TagEndsAt(s, TagEnd(s).value) && forall k :: 0 <= k < TagEnd(s).value ==> !TagEndsAt(s, k)
    ensures TagEnd(s).None? ==> forall k :: !TagEndsAt(s, k)
  {
    if |s| > 0 && s[0] == '<' {
      FindCloseFirst(s, 1);
    }
  }

  /**
   * `re.sub('<[^<]+?>', '', s)`: scanning left to right, a tag starting at the
   * current position is deleted and scanning resumes after it; any other
   * character (including a '<' that opens no tag) is kept.
   */
  function StripTags(s: string): (r: string)
    ensures |r| <= |s|
    decreases |s|
  {
    if |s| == 0 then ""
    else match TagEnd(s)
      case Some(k) =>
        var rest := StripTags(s[k + 1..]);
        assert s == s[..k + 1] + s[k + 1..];
        rest
      case None =>
        var rest := StripTags(s[1..]);
        assert s == [s[0]] + s[1..];
        [s[0]] + rest
  }

  /** Stripping only deletes characters: it never invents one or adds a copy. */
  lemma {:induction false} StripTagsOnlyDeletes(s: string)
    ensures multiset(StripTags(s)) <= multiset(s)
    decreases |s|
  {
    if |s| > 0 {
      match TagEnd(s)
      case Some(k) =>
        StripTagsOnlyDeletes(s[k + 1..]);
        assert s == s[..k + 1] + s[k + 1..];
      case None =>
        StripTagsOnlyDeletes(s[1..]);
        assert s == [s[0]] + s[1..];
    }
  }

  /** No '<' in `s`. */
  predicate NoOpenBracket(s: string) {
    forall i :: 0 <= i < |s| ==> s[i] != '<'
  }

  /** Text without any '<' passes through tag stripping unchanged. */
  lemma {:induction false} StripTagsKeepsPlainText(s: string)
    requires NoOpenBracket(s)
    ensures StripTags(s) == s
    decreases |s|
  {
    if |s| > 0 {
      assert TagEnd(s).None?;
      assert NoOpenBracket(s[1..]) by {
        forall i | 0 <= i < |s[1..]| ensures s[1..][i] != '<' {
          assert s[1..][i] == s[i + 1];
        }
      }
      StripTagsKeepsPlainText(s[1..]);
      assert s == [s[0]] + s[1..];
    }
  }

  /** Text without '<' in front of anything is kept verbatim as a prefix. */
  lemma {:induction false} StripTagsPlainPrefix(a: string, b: string)
    requires NoOpenBracket(a)
    ensures StripTags(a + b) == a + StripTags(b)
    decreases |a|
  {
    if |a| > 0 {
      var s := a + b;
      assert s[0] == a[0] && a[0] != '<';
      assert TagEnd(s).None?;
      assert s[1..] == a[1..] + b;
      assert NoOpenBracket(a[1..]) by {
        forall i | 0 <= i < |a[1..]| ensures a[1..][i] != '<' {
          assert a[1..][i] == a[i + 1];
        }
      }
      StripTagsPlainPrefix(a[1..], b);
      assert [a[0]] + (a[1..] + StripTags(b)) == a + StripTags(b);
    } else {
      assert a + b == b;
    }
  }

  /**
   * A well-formed tag — '<', a non-empty body with neither '<' nor '>', '>' —
   * is deleted entirely, whatever follows it.
   */
  lemma StripTagsDropsTag(body: string, b: string)
    requires |body| > 0
    requires forall i :: 0 <= i < |body| ==> body[i] != '<' && body[i] != '>'
    ensures StripTags("<" + body + ">" + b) == StripTags(b)
  {
    var s := "<" + body + ">" + b;
    var k := |body| + 1;
    TagEndFirst(s);
    assert s[k] == '>';
    assert forall m :: 1 <= m < k ==> s[m] == body[m - 1];
    assert TagEndsAt(s, k);
    assert forall m :: 0 <= m < k ==> !TagEndsAt(s, m);
    assert s[k + 1..] == b;
  }

  /**
   * A single pass can leave a tag behind: removing an inner tag may join two
   * fragments into a new one ("<x<y>>" becomes "<x>"), so stripping is not
   * idempotent.
   */
  lemma StripTagsNotIdempotent(x: char, y: char)
    requires x != '<' && x != '>' && y != '<' && y != '>'
    ensures StripTags(['<', x, '<', y, '>', '>']) == ['<', x, '>']
    ensures StripTags(['<', x, '>']) == []
  {
    var s := ['<', x, '<', y, '>', '>'];
    var inner := ['<', y, '>', '>'];
    OpenWithoutTag(s);
    assert s[1..] == [x] + inner;
    StripTagsPlainPrefix([x], inner);
    InnerTagDropped(y);
    assert ['<'] + ([x] + ['>']) == ['<', x, '>'];
    StripTagsDropsTag([x], []);
    assert ['<', x, '>'] == "<" + [x] + ">" + [];
  }

  /** A '<' followed by a second '<' before any '>' opens no tag and is kept. */
  lemma OpenWithoutTag(s: string)
    requires |s| >= 3 && s[0] == '<' && s[1] != '<' && s[1] != '>' && s[2] == '<'
    ensures StripTags(s) == [s[0]] + StripTags(s[1..])
  {
    assert FindClose(s, 2) == None;
    assert FindClose(s, 1) == None;
    assert TagEnd(s) == None;
  }

  /** "<y>>" strips to ">". */
  lemma InnerTagDropped(y: char)
    requires y != '<' && y != '>'
    ensures StripTags(['<', y, '>', '>']) == ['>']
  {
    StripTagsDropsTag([y], ['>']);
    assert ['<', y, '>', '>'] == "<" + [y] + ">" + ['>'];
    StripTagsKeepsPlainText(['>']);
  }

  /**
   * The scan `re.sub` performs, written as a loop over positions; it builds the
   * same text as the recursive definition.
   */
  method StripTagsScan(s: string) returns (r: string)
    ensures r == StripTags(s)
  {
    r := "";
    var rest := s;
    assert "" + StripTags(s) == StripTags(s);
    while |rest| > 0
      invariant Scanned(r, rest, s)
      decreases |rest|
    {
      var tag := TagEnd(rest);
      if tag.Some? {
        SkipTag(rest, tag.value, r, s);
        rest := rest[tag.value + 1..];
      } else {
        KeepChar(rest, r, s);
        r := r + [rest[0]];
        rest := rest[1..];
      }
    }
    ScanDone(r, rest, s);
  }

  /** The scan's invariant: the output so far, followed by the stripped remainder, is the stripped input. */
  predicate Scanned(r: string, rest: string, s: string) {
    r + StripTags(rest) == StripTags(s)
  }

  /** At a tag ending at `k`, the scan resumes after it. */
  lemma SkipTag(rest: string, k: nat, r: string, s: string)
    requires TagEnd(rest) == Some(k)
    requires Scanned(r, rest, s)
    ensures k + 1 <= |rest| && Scanned(r, rest[k + 1..], s)
  {
    assert StripTags(rest) == StripTags(rest[k + 1..]);
  }

  /** Where no tag opens, the first character is kept and the scan moves one on. */
  lemma KeepChar(rest: string, r: string, s: string)
    requires |rest| > 0 && TagEnd(rest).None?
    requires Scanned(r, rest, s)
    ensures Scanned(r + [rest[0]], rest[1..], s)
  {
    assert StripTags(rest) == [rest[0]] + StripTags(rest[1..]);
  }

  /** Nothing left to scan: the output is the stripped input. */
  lemma ScanDone(r: string, rest: string, s: string)
    requires Scanned(r, rest, s) && |rest| == 0
    ensures r == StripTags(s)
  {
    assert r + StripTags(rest) == r;
  }

  // ---------------------------------------------------------------------------
  // Whitespace collapsing: re.sub(r'\s+', ' ', s).strip()
  // ---------------------------------------------------------------------------

  /**
   * Python's notion of whitespace for `str` (`\s` in a str pattern and
   * `str.strip()` agree): ASCII space, tab, line feed, vertical tab, form feed,
   * carriage return, the four information separators, NEL, no-break space and
   * the Unicode space separators, line and paragraph separators.
   */
  predicate IsSpace(c: char) {
    || c == ' ' || c == '\t' || c == '\n' || c == '\r'
    || c == '\U{000B}' || c == '\U{000C}'
    || ('\U{001C}' <= c <= '\U{001F}')
    || c == '\U{0085}' || c == '\U{00A0}' || c == '\U{1680}'
    || ('\U{2000}' <= c <= '\U{200A}')
    || c == '\U{2028}' || c == '\U{2029}' || c == '\U{202F}' || c == '\U{205F}' || c == '\U{3000}'
  }

  /** The non-whitespace characters of `s`, in order. */
  function Visible(s: string): (r: string)
    ensures forall i :: 0 <= i < |r| ==> !IsSpace(r[i])
    decreases |s|
  {
    if |s| == 0 then ""
    else if IsSpace(s[0]) then Visible(s[1..])
    else [s[0]] + Visible(s[1..])
  }

  lemma {:induction false} VisibleAppend(a: string, b: string)
    ensures Visible(a + b) == Visible(a) + Visible(b)
    decreases |a|
  {
    if |a| > 0 {
      assert (a + b)[1..] == a[1..] + b;
      VisibleAppend(a[1..], b);
    } else {
      assert a + b == b;
    }
  }

  /** `s` with its leading whitespace removed. */
  function DropSpaces(s: string): (r: string)
    ensures |r| <= |s| && r == s[|s| - |r|..]
    ensures |r| > 0 ==> !IsSpace(r[0])
    ensures forall i :: 0 <= i < |s| - |r| ==> IsSpace(s[i])
    decreases |s|
  {
    if |s| > 0 && IsSpace(s[0]) then DropSpaces(s[1..]) else s
  }

  /** `s` with its trailing whitespace removed. */
  function DropTrailingSpaces(s: string): (r: string)
    ensures |r| <= |s| && r == s[..|r|]
    ensures |r| > 0 ==> !IsSpace(r[|r| - 1])
    ensures forall i :: |r| <= i < |s| ==> IsSpace(s[i])
    decreases |s|
  {
    if |s| > 0 && IsSpace(s[|s| - 1]) then DropTrailingSpaces(s[..|s| - 1]) else s
  }

  /** Text whose only whitespace is single ' ' characters between non-whitespace. */
  predicate Collapsed(s: string) {
    && (forall i :: 0 <= i < |s| && IsSpace(s[i]) ==> s[i] == ' ')
    && (forall i :: 0 <= i < |s| - 1 ==> !(IsSpace(s[i]) && IsSpace(s[i + 1])))
  }

  /** `re.sub(r'\s+', ' ', s)`: every maximal whitespace run becomes one ' '. */
  function Squeeze(s: string): string
    decreases |s|
  {
    if |s| == 0 then ""
    else if IsSpace(s[0]) then
      var rest := Squeeze(DropSpaces(s[1..]));
      " " + rest
    else
      var rest := Squeeze(s[1..]);
      [s[0]] + rest
  }

  /**
   * Squeezed text is collapsed, empty exactly when the input is, and starts
   * with whitespace exactly when the input does.
   */
  lemma {:induction false} SqueezeShape(s: string)
    ensures Collapsed(Squeeze(s))
    ensures |Squeeze(s)| > 0 <==> |s| > 0
    ensures |Squeeze(s)| > 0 ==> (IsSpace(Squeeze(s)[0]) <==> IsSpace(s[0]))
    decreases |s|
  {
    if |s| > 0 {
      if IsSpace(s[0]) {
        var u := DropSpaces(s[1..]);
        SqueezeShape(u);
        assert Squeeze(s) == [' '] + Squeeze(u);
        CollapsedCons(' ', Squeeze(u));
      } else {
        SqueezeShape(s[1..]);
        assert Squeeze(s) == [s[0]] + Squeeze(s[1..]);
        CollapsedCons(s[0], Squeeze(s[1..]));
      }
    }
  }

  /** A character in front of collapsed text, a space only before non-whitespace. */
  lemma CollapsedCons(c: char, r: string)
    requires Collapsed(r)
    requires IsSpace(c) ==> c == ' ' && (|r| == 0 || !IsSpace(r[0]))
    ensures Collapsed([c] + r)
  {
    var q := [c] + r;
    assert forall i :: 1 <= i < |q| ==> q[i] == r[i - 1];
  }

  /** Whitespace runs shrink to one space, so the visible text survives squeezing. */
  lemma {:induction false} SqueezeKeepsVisible(s: string)
    ensures Visible(Squeeze(s)) == Visible(s)
    decreases |s|
  {
    if |s| > 0 {
      if IsSpace(s[0]) {
        SqueezeKeepsVisible(DropSpaces(s[1..]));
        SqueezeSpaceRun(s);
      } else {
        SqueezeKeepsVisible(s[1..]);
        SqueezeVisibleChar(s);
      }
    }
  }

  /** A leading whitespace run contributes nothing visible before or after squeezing. */
  lemma SqueezeSpaceRun(s: string)
    requires |s| > 0 && IsSpace(s[0])
    requires Visible(Squeeze(DropSpaces(s[1..]))) == Visible(DropSpaces(s[1..]))
    ensures Visible(Squeeze(s)) == Visible(s)
  {
    var t := DropSpaces(s[1..]);
    DropSpacesKeepsVisible(s[1..]);
    assert Visible(s) == Visible(s[1..]);
    assert Squeeze(s) == " " + Squeeze(t);
    assert (" " + Squeeze(t))[1..] == Squeeze(t);
  }

  /** A leading visible character is kept by squeezing. */
  lemma SqueezeVisibleChar(s: string)
    requires |s| > 0 && !IsSpace(s[0])
    requires Visible(Squeeze(s[1..])) == Visible(s[1..])
    ensures Visible(Squeeze(s)) == Visible(s)
  {
    var r := Squeeze(s[1..]);
    assert Squeeze(s) == [s[0]] + r;
    assert ([s[0]] + r)[1..] == r;
  }

  lemma {:induction false} VisibleAllSpace(s: string)
    requires forall i :: 0 <= i < |s| ==> IsSpace(s[i])
    ensures Visible(s) == ""
    decreases |s|
  {
    if |s| > 0 {
      VisibleAllSpace(s[1..]);
    }
  }

  /**
   * `re.sub(r'\s+', ' ', s).strip()`: whitespace runs collapse to one space and
   * the ends are trimmed.
   */
  function CollapseWhitespace(s: string): (r: string)
  {
    DropTrailingSpaces(DropSpaces(Squeeze(s)))
  }

  /**
   * The cleaned text: no whitespace at either end, every whitespace character is
   * a plain ' ' with non-whitespace on both sides, and the non-whitespace text
   * is exactly that of the input.
   */
  lemma CollapseWhitespaceShape(s: string)
    ensures Collapsed(CollapseWhitespace(s))
    ensures var r := CollapseWhitespace(s); |r| > 0 ==> !IsSpace(r[0]) && !IsSpace(r[|r| - 1])
    ensures Visible(CollapseWhitespace(s)) == Visible(s)
  {
    var q := Squeeze(s);
    SqueezeShape(s);
    TrimCollapsed(q);
    CollapseKeepsVisible(s);
  }

  /** Trimming collapsed text keeps it collapsed and leaves no whitespace at its ends. */
  lemma TrimCollapsed(q: string)
    requires Collapsed(q)
    ensures var r := DropTrailingSpaces(DropSpaces(q));
      Collapsed(r) && (|r| > 0 ==> !IsSpace(r[0]) && !IsSpace(r[|r| - 1]))
  {
    var a := DropSpaces(q);
    var r := DropTrailingSpaces(a);
    CollapsedSlice(q, |q| - |a|, |q|);
    assert q[|q| - |a|..|q|] == a;
    CollapsedSlice(a, 0, |r|);
    assert a[0..|r|] == r;
    if |r| > 0 {
      assert r[0] == a[0];
    }
  }

  lemma CollapseKeepsVisible(s: string)
    ensures Visible(CollapseWhitespace(s)) == Visible(s)
  {
    var q := Squeeze(s);
    var a := DropSpaces(q);
    SqueezeKeepsVisible(s);
    DropSpacesKeepsVisible(q);
    DropTrailingSpacesKeepsVisible(a);
  }

  lemma DropSpacesKeepsVisible(q: string)
    ensures Visible(DropSpaces(q)) == Visible(q)
  {
    var a := DropSpaces(q);
    var n := |q| - |a|;
    var front := q[..n];
    assert a == q[n..];
    assert q == front + a;
    assert forall i :: 0 <= i < |front| ==> IsSpace(front[i]) by {
      forall i | 0 <= i < |front| ensures IsSpace(front[i]) {
        assert front[i] == q[i];
      }
    }
    VisibleAllSpace(front);
    VisibleAppend(front, a);
  }

  lemma DropTrailingSpacesKeepsVisible(a: string)
    ensures Visible(DropTrailingSpaces(a)) == Visible(a)
  {
    var r := DropTrailingSpaces(a);
    var back := a[|r|..];
    assert a == r + back;
    VisibleAllSpace(back);
    VisibleAppend(r, back);
  }

  lemma CollapsedSlice(q: string, lo: nat, hi: nat)
    requires lo <= hi <= |q|
    requires Collapsed(q)
    ensures Collapsed(q[lo..hi])
  {
    var t := q[lo..hi];
    assert forall i :: 0 <= i < |t| ==> t[i] == q[lo + i];
  }

  /** Already-collapsed text with no whitespace at either end is a fixed point. */
  lemma {:induction false} SqueezeCollapsed(s: string)
    requires Collapsed(s)
    requires |s| > 0 ==> !IsSpace(s[|s| - 1])
    ensures Squeeze(s) == s
    decreases |s|
  {
    if |s| > 0 {
      CollapsedTail(s);
      SqueezeCollapsed(s[1..]);
      SqueezeCollapsedStep(s);
    }
  }

  lemma CollapsedTail(s: string)
    requires |s| > 0 && Collapsed(s) && !IsSpace(s[|s| - 1])
    ensures Collapsed(s[1..]) && (|s[1..]| > 0 ==> !IsSpace(s[1..][|s[1..]| - 1]))
    ensures IsSpace(s[0]) ==> |s| > 1 && !IsSpace(s[1])
  {
    CollapsedSlice(s, 1, |s|);
  }

  /** One step of the fixed point: a collapsed head is squeezed to itself. */
  lemma SqueezeCollapsedStep(s: string)
    requires |s| > 0
    requires IsSpace(s[0]) ==> s[0] == ' ' && |s| > 1 && !IsSpace(s[1])
    requires Squeeze(s[1..]) == s[1..]
    ensures Squeeze(s) == s
  {
    var t := s[1..];
    if IsSpace(s[0]) {
      assert DropSpaces(t) == t;
      assert s == " " + t;
    } else {
      assert s == [s[0]] + t;
    }
  }

  /** Cleaning cleaned text changes nothing. */
  lemma CollapseWhitespaceIdempotent(s: string)
    ensures CollapseWhitespace(CollapseWhitespace(s)) == CollapseWhitespace(s)
  {
    var r := CollapseWhitespace(s);
    CollapseWhitespaceShape(s);
    SqueezeCollapsed(r);
  }

  // ---------------------------------------------------------------------------
  // The same clean-up through words: " ".join(s.split())
  // ---------------------------------------------------------------------------

  /** The longest prefix of `s` without whitespace. */
  function LeadingWord(s: string): (r: string)
    ensures |r| <= |s| && r == s[..|r|]
    ensures forall i :: 0 <= i < |r| ==> !IsSpace(r[i])
    ensures |r| < |s| ==> IsSpace(s[|r|])
    decreases |s|
  {
    if |s| == 0 || IsSpace(s[0]) then "" else [s[0]] + LeadingWord(s[1..])
  }

  /** `s.split()` with no separator: the maximal runs of non-whitespace characters, in order. */
  function Words(s: string): seq<string>
    decreases |s|
  {
    if |s| == 0 then []
    else if IsSpace(s[0]) then Words(s[1..])
    else
      var w := LeadingWord(s);
      [w] + Words(s[|w|..])
  }

  /**
   * Collapsing whitespace is joining the words of the text with single spaces:
   * each maximal whitespace run between two words becomes exactly one ' ', and
   * the runs at either end disappear.
   */
  lemma CollapseWhitespaceWords(s: string)
    ensures CollapseWhitespace(s) == Text.Join(Words(s), ' ')
  {
    DropSpacesSqueeze(s);
    WordsDropSpaces(s);
    TrimmedSqueezeWords(DropSpaces(s));
  }

  /** Squeezing and dropping leading whitespace commute. */
  lemma DropSpacesSqueeze(s: string)
    ensures DropSpaces(Squeeze(s)) == Squeeze(DropSpaces(s))
  {
    if |s| > 0 && IsSpace(s[0]) {
      var u := DropSpaces(s[1..]);
      assert DropSpaces(s) == u;
      SqueezeShape(u);
      assert Squeeze(s) == " " + Squeeze(u);
      assert (" " + Squeeze(u))[1..] == Squeeze(u);
    } else {
      SqueezeShape(s);
    }
  }

  /** Leading whitespace separates no word. */
  lemma {:induction false} WordsDropSpaces(s: string)
    ensures Words(DropSpaces(s)) == Words(s)
    decreases |s|
  {
    if |s| > 0 && IsSpace(s[0]) {
      WordsDropSpaces(s[1..]);
    }
  }

  /** A word in front passes through squeezing unchanged. */
  lemma {:induction false} SqueezeWord(w: string, rest: string)
    requires forall i :: 0 <= i < |w| ==> !IsSpace(w[i])
    ensures Squeeze(w + rest) == w + Squeeze(rest)
    decreases |w|
  {
    if |w| > 0 {
      assert (w + rest)[0] == w[0];
      assert (w + rest)[1..] == w[1..] + rest;
      assert Squeeze(w + rest) == [w[0]] + Squeeze(w[1..] + rest);
      SqueezeWord(w[1..], rest);
      assert w == [w[0]] + w[1..];
      assert [w[0]] + (w[1..] + Squeeze(rest)) == w + Squeeze(rest);
    } else {
      assert w + rest == rest;
    }
  }

  /** Trailing whitespace after a non-whitespace character belongs to the tail only. */
  lemma {:induction false} DropTrailingAfter(x: string, y: string)
    requires |y| > 0 && !IsSpace(y[0])
    ensures DropTrailingSpaces(x + y) == x + DropTrailingSpaces(y)
    decreases |y|
  {
    if IsSpace(y[|y| - 1]) {
      var y' := y[..|y| - 1];
      assert (x + y)[..|x + y| - 1] == x + y';
      assert y'[0] == y[0];
      DropTrailingAfter(x, y');
    }
  }

  /**
   * Text that does not start with whitespace, once squeezed and trimmed at
   * the end, is its words joined by single spaces.
   */
  lemma {:induction false} TrimmedSqueezeWords(t: string)
    requires |t| == 0 || !IsSpace(t[0])
    ensures DropTrailingSpaces(Squeeze(t)) == Text.Join(Words(t), ' ')
    decreases |t|
  {
    if |t| > 0 {
      var w := LeadingWord(t);
      var rest := t[|w|..];
      assert t == w + rest;
      SqueezeWord(w, rest);
      assert Words(t) == [w] + Words(rest);
      if |rest| == 0 {
        assert Squeeze(t) == w;
        assert Words(t) == [w];
        LastWord(w);
      } else {
        var u := DropSpaces(rest);
        SpaceRun(rest);
        WordsDropSpaces(rest);
        if |u| == 0 {
          assert Squeeze(t) == w + " ";
          assert Words(t) == [w];
          LastWord(w);
        } else {
          TrimmedSqueezeWords(u);
          WordThenWords(w, u);
        }
      }
    }
  }

  /** A run of whitespace in front squeezes to one space. */
  lemma SpaceRun(rest: string)
    requires |rest| > 0 && IsSpace(rest[0])
    ensures Squeeze(rest) == " " + Squeeze(DropSpaces(rest))
  {
    assert DropSpaces(rest) == DropSpaces(rest[1..]);
  }

  /** The last word, followed by nothing or by whitespace only. */
  lemma LastWord(w: string)
    requires |w| > 0 && !IsSpace(w[|w| - 1])
    ensures DropTrailingSpaces(w) == w
    ensures DropTrailingSpaces(w + " ") == w
    ensures Text.Join([w], ' ') == w
  {
    assert (w + " ")[..|w + " "| - 1] == w;
  }

  /** A word, one space, then the joined words of the rest. */
  lemma WordThenWords(w: string, u: string)
    requires |u| > 0 && !IsSpace(u[0])
    requires DropTrailingSpaces(Squeeze(u)) == Text.Join(Words(u), ' ')
    ensures DropTrailingSpaces(w + (" " + Squeeze(u))) == Text.Join([w] + Words(u), ' ')
  {
    var q := Squeeze(u);
    SqueezeShape(u);
    assert w + (" " + q) == (w + " ") + q;
    DropTrailingAfter(w + " ", q);
    WordsOfUnled(u);
    JoinFront(w, Words(u));
    assert " " == [' '];
  }

  /** A single ' ' when `s` ends in whitespace that follows a word, else nothing. */
  function EndSpace(s: string): string {
    if |Words(s)| > 0 && IsSpace(s[|s| - 1]) then " " else ""
  }

  /** A single ' ' when `s` starts with whitespace, else nothing. */
  function StartSpace(s: string): string {
    if |s| > 0 && IsSpace(s[0]) then " " else ""
  }

  /**
   * Squeezing keeps the words and puts exactly one ' ' between neighbours, one
   * ' ' in front when the text starts with whitespace, and one ' ' behind when
   * whitespace follows the last word.
   */
  lemma SqueezeWords(s: string)
    ensures Squeeze(s) == StartSpace(s) + Text.Join(Words(s), ' ') + EndSpace(s)
  {
    if |s| > 0 && IsSpace(s[0]) {
      SqueezeUnledWords(DropSpaces(s[1..]));
      SqueezeLedWords(s);
    } else {
      SqueezeUnledWords(s);
      assert StartSpace(s) + Text.Join(Words(s), ' ') == Text.Join(Words(s), ' ');
    }
  }

  /** SqueezeWords for text that starts with whitespace, from the text after that run. */
  lemma SqueezeLedWords(s: string)
    requires |s| > 0 && IsSpace(s[0])
    requires var u := DropSpaces(s[1..]); Squeeze(u) == Text.Join(Words(u), ' ') + EndSpace(u)
    ensures Squeeze(s) == StartSpace(s) + Text.Join(Words(s), ' ') + EndSpace(s)
  {
    var u := DropSpaces(s[1..]);
    assert DropSpaces(s) == u;
    WordsDropSpaces(s);
    EndSpaceDropSpaces(s);
    assert Squeeze(s) == " " + Squeeze(u);
    LeadSpace(Text.Join(Words(u), ' '), EndSpace(u));
  }

  lemma LeadSpace(j: string, e: string)
    ensures " " + (j + e) == " " + j + e
  {
  }

  /** Leading whitespace does not change whether whitespace follows the last word. */
  lemma EndSpaceDropSpaces(s: string)
    ensures EndSpace(DropSpaces(s)) == EndSpace(s)
  {
    var u := DropSpaces(s);
    WordsDropSpaces(s);
    if |u| > 0 {
      assert u[|u| - 1] == s[|s| - 1];
    }
  }

  /** SqueezeWords for text that does not start with whitespace. */
  lemma {:induction false} SqueezeUnledWords(t: string)
    requires |t| == 0 || !IsSpace(t[0])
    ensures Squeeze(t) == Text.Join(Words(t), ' ') + EndSpace(t)
    decreases |t|
  {
    if |t| > 0 {
      var w := LeadingWord(t);
      var rest := t[|w|..];
      if |rest| == 0 {
        SqueezeOneWord(t);
      } else {
        var u := DropSpaces(rest);
        if |u| == 0 {
          SqueezeWordThenSpace(t);
        } else {
          SqueezeUnledWords(u);
          SqueezeWordThenMore(t, u);
        }
      }
    }
  }

  /** Squeezing text that starts with its first word: the word, then the squeezed rest. */
  lemma WordSplit(t: string)
    requires |t| > 0 && !IsSpace(t[0])
    ensures var w := LeadingWord(t);
      && |w| > 0 && t == w + t[|w|..]
      && Words(t) == [w] + Words(t[|w|..])
      && Squeeze(t) == w + Squeeze(t[|w|..])
  {
    var w := LeadingWord(t);
    assert t == w + t[|w|..];
    SqueezeWord(w, t[|w|..]);
  }

  /** A single word squeezes to itself. */
  lemma SqueezeOneWord(t: string)
    requires |t| > 0 && !IsSpace(t[0]) && |LeadingWord(t)| == |t|
    ensures Squeeze(t) == Text.Join(Words(t), ' ') + EndSpace(t)
  {
    var w := LeadingWord(t);
    WordSplit(t);
    assert t[|w|..] == "";
    assert Words(t) == [w];
    assert Squeeze(t) == w;
    assert !IsSpace(t[|t| - 1]);
  }

  /** A single word followed by whitespace squeezes to the word and one ' '. */
  lemma SqueezeWordThenSpace(t: string)
    requires |t| > 0 && !IsSpace(t[0]) && |LeadingWord(t)| < |t|
    requires DropSpaces(t[|LeadingWord(t)|..]) == ""
    ensures Squeeze(t) == Text.Join(Words(t), ' ') + EndSpace(t)
  {
    OneWordWords(t);
    OneWordSqueeze(t);
    OneWordLast(t);
    OneWordThenSpace(t, LeadingWord(t));
  }

  /** The words of one word followed by whitespace. */
  lemma OneWordWords(t: string)
    requires |t| > 0 && !IsSpace(t[0]) && |LeadingWord(t)| < |t|
    requires DropSpaces(t[|LeadingWord(t)|..]) == ""
    ensures Words(t) == [LeadingWord(t)]
  {
    var rest := t[|LeadingWord(t)|..];
    WordSplit(t);
    WordsDropSpaces(rest);
  }

  /** One word followed by whitespace squeezes to the word and one space. */
  lemma OneWordSqueeze(t: string)
    requires |t| > 0 && !IsSpace(t[0]) && |LeadingWord(t)| < |t|
    requires DropSpaces(t[|LeadingWord(t)|..]) == ""
    ensures Squeeze(t) == LeadingWord(t) + " "
  {
    var rest := t[|LeadingWord(t)|..];
    WordSplit(t);
    SpaceRun(rest);
  }

  /** One word followed by whitespace ends in whitespace. */
  lemma OneWordLast(t: string)
    requires |t| > 0 && |LeadingWord(t)| < |t|
    requires DropSpaces(t[|LeadingWord(t)|..]) == ""
    ensures IsSpace(t[|t| - 1])
  {
    var n := |LeadingWord(t)|;
    AllSpaceLast(t[n..]);
    assert t[n..][|t[n..]| - 1] == t[|t| - 1];
  }

  lemma AllSpaceLast(rest: string)
    requires |rest| > 0 && DropSpaces(rest) == ""
    ensures IsSpace(rest[|rest| - 1])
  {
  }

  /** The joined words and end space of text whose one word is followed by whitespace. */
  lemma OneWordThenSpace(t: string, w: string)
    requires Words(t) == [w] && |t| > 0 && IsSpace(t[|t| - 1])
    ensures Text.Join(Words(t), ' ') + EndSpace(t) == w + " "
  {
  }

  /** A word, then whitespace, then more words. */
  lemma SqueezeWordThenMore(t: string, u: string)
    requires |t| > 0 && !IsSpace(t[0]) && |LeadingWord(t)| < |t|
    requires u == DropSpaces(t[|LeadingWord(t)|..]) && |u| > 0
    requires Squeeze(u) == Text.Join(Words(u), ' ') + EndSpace(u)
    ensures Squeeze(t) == Text.Join(Words(t), ' ') + EndSpace(t)
  {
    var w := LeadingWord(t);
    var rest := t[|w|..];
    WordSplit(t);
    SpaceRun(rest);
    WordsDropSpaces(rest);
    assert u[|u| - 1] == t[|t| - 1];
    EndSpaceSame(t, u);
    SqueezeWordThenWords(w, u);
  }

  /** Two texts with the same last character and words agree on EndSpace. */
  lemma EndSpaceSame(t: string, u: string)
    requires |t| > 0 && |u| > 0 && t[|t| - 1] == u[|u| - 1]
    requires |Words(u)| > 0 ==> |Words(t)| > 0
    requires |Words(t)| > 0 ==> |Words(u)| > 0
    ensures EndSpace(t) == EndSpace(u)
  {
  }

  /** A word, one space, then the squeezed rest. */
  lemma SqueezeWordThenWords(w: string, u: string)
    requires |u| > 0 && !IsSpace(u[0])
    requires Squeeze(u) == Text.Join(Words(u), ' ') + EndSpace(u)
    ensures w + (" " + Squeeze(u)) == Text.Join([w] + Words(u), ' ') + EndSpace(u)
  {
    var ws := Words(u);
    WordsOfUnled(u);
    var j := Text.Join(ws, ' ');
    var e := EndSpace(u);
    JoinFront(w, ws);
    SpaceBetween(w, j, e);
  }

  lemma SpaceBetween(w: string, j: string, e: string)
    ensures w + (" " + (j + e)) == (w + [' '] + j) + e
  {
    assert " " == [' '];
  }

  /** Text that starts with a non-whitespace character has a first word. */
  lemma WordsOfUnled(u: string)
    requires |u| > 0 && !IsSpace(u[0])
    ensures |Words(u)| > 0
  {
    assert Words(u) == [LeadingWord(u)] + Words(u[|LeadingWord(u)|..]);
  }

  /** Joining a word in front of at least one more. */
  lemma JoinFront(w: string, ws: seq<string>)
    requires |ws| > 0
    ensures Text.Join([w] + ws, ' ') == w + [' '] + Text.Join(ws, ' ')
  {
    assert ([w] + ws)[1..] == ws;
  }
}
