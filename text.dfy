/**
 * The few Python string operations the action relies on: str.split(sep) with
 * a one-character separator, str.strip() with no argument, and str.lower().
 */
module Text {

  /** The characters for which Python's str.isspace() holds; str.strip() removes exactly these. */
  predicate IsSpace(c: char) {
    || c == ' '
    || ('\t' <= c <= '\r')
    || ('\U{1C}' <= c <= '\U{1F}')
    || c == '\U{85}' || c == '\U{A0}' || c == '\U{1680}'
    || ('\U{2000}' <= c <= '\U{200A}')
    || c == '\U{2028}' || c == '\U{2029}' || c == '\U{202F}' || c == '\U{205F}' || c == '\U{3000}'
  }

  predicate AllSpace(s: string) {
    forall k :: 0 <= k < |s| ==> IsSpace(s[k])
  }

  /** Neither the first nor the last character is whitespace. */
  predicate Trimmed(s: string) {
    s == [] || (!IsSpace(s[0]) && !IsSpace(s[|s| - 1]))
  }

  /** Number of occurrences of c in s. */
  function Count(s: string, c: char): nat {
    if s == [] then 0 else (if s[0] == c then 1 else 0) + Count(s[1..], c)
  }

  /**
   * s.split(sep): the maximal separator-free segments of s, in order.
   * Like Python, the empty string splits into one empty segment.
   */
  function Split(s: string, sep: char): (pieces: seq<string>)
    ensures |pieces| == Count(s, sep) + 1
    ensures forall k :: 0 <= k < |pieces| ==> sep !in pieces[k]
  {
    if s == [] then [[]]
    else
      var rest := Split(s[1..], sep);
      if s[0] == sep then [[]] + rest else [[s[0]] + rest[0]] + rest[1..]
  }

  /** sep.join(pieces) */
  function Join(pieces: seq<string>, sep: char): string {
    if |pieces| == 0 then []
    else if |pieces| == 1 then pieces[0]
    else pieces[0] + [sep] + Join(pieces[1..], sep)
  }

  /** Joining the segments again gives back the original string. */
  lemma {:induction false} JoinSplit(s: string, sep: char)
    ensures Join(Split(s, sep), sep) == s
  {
    if s != [] {
      var rest := Split(s[1..], sep);
      JoinSplit(s[1..], sep);
      if s[0] == sep {
        assert Split(s, sep) == [[]] + rest;
        assert Join(Split(s, sep), sep) == [] + [sep] + Join(rest, sep);
      } else if |rest| == 1 {
        assert Split(s, sep) == [[s[0]] + rest[0]];
      } else {
        assert Split(s, sep) == [[s[0]] + rest[0]] + rest[1..];
        assert Join(rest, sep) == rest[0] + [sep] + Join(rest[1..], sep);
        assert ([[s[0]] + rest[0]] + rest[1..])[1..] == rest[1..];
      }
    }
  }

  /** Splitting a separator-free prefix followed by t extends the first segment of t. */
  lemma {:induction false} SplitPrefix(p: string, t: string, sep: char)
    requires sep !in p
    ensures Split(p + t, sep) == [p + Split(t, sep)[0]] + Split(t, sep)[1..]
  {
    if p != [] {
      assert (p + t)[1..] == p[1..] + t;
      assert (p + t)[0] == p[0];
      SplitPrefix(p[1..], t, sep);
      assert [p[0]] + (p[1..] + Split(t, sep)[0]) == p + Split(t, sep)[0];
    } else {
      var pieces := Split(t, sep);
      assert p + t == t;
      assert p + pieces[0] == pieces[0];
      assert [pieces[0]] + pieces[1..] == pieces;
    }
  }

  /** Splitting a join of separator-free segments gives back the segments. */
  lemma {:induction false} SplitJoin(pieces: seq<string>, sep: char)
    requires |pieces| >= 1
    requires forall k :: 0 <= k < |pieces| ==> sep !in pieces[k]
    ensures Split(Join(pieces, sep), sep) == pieces
  {
    if |pieces| == 1 {
      SplitPrefix(pieces[0], [], sep);
      assert pieces[0] + [] == pieces[0];
    } else {
      var t := [sep] + Join(pieces[1..], sep);
      assert Join(pieces, sep) == pieces[0] + t;
      SplitJoin(pieces[1..], sep);
      assert Split(t, sep) == [[]] + pieces[1..];
      SplitPrefix(pieces[0], t, sep);
      assert pieces[0] + [] == pieces[0];
    }
  }

  /** s.lstrip(): drops the leading whitespace, and only that. */
  function StripStart(s: string): (r: string)
    ensures |r| <= |s| && r == s[|s| - |r|..]
    ensures forall k :: 0 <= k < |s| - |r| ==> IsSpace(s[k])
    ensures r == [] || !IsSpace(r[0])
  {
    if s != [] && IsSpace(s[0]) then
      var r := StripStart(s[1..]);
      assert forall k :: 1 <= k < |s| - |r| ==> s[k] == s[1..][k - 1];
      r
    else s
  }

  /** s.rstrip(): drops the trailing whitespace, and only that. */
  function StripEnd(s: string): (r: string)
    ensures |r| <= |s| && r == s[..|r|]
    ensures forall k :: |r| <= k < |s| ==> IsSpace(s[k])
    ensures r == [] || !IsSpace(r[|r| - 1])
  {
    if s != [] && IsSpace(s[|s| - 1]) then
      var init := s[..|s| - 1];
      var r := StripEnd(init);
      assert forall k :: |r| <= k < |s| - 1 ==> s[k] == init[k];
      assert init[..|r|] == s[..|r|];
      r
    else s
  }

  /** s.strip() */
  function Strip(s: string): string {
    StripEnd(StripStart(s))
  }

  lemma {:induction false} StripStartSpaces(a: string, x: string)
    requires AllSpace(a)
    ensures StripStart(a + x) == StripStart(x)
  {
    if a != [] {
      assert (a + x)[0] == a[0];
      assert (a + x)[1..] == a[1..] + x;
      StripStartSpaces(a[1..], x);
    } else {
      assert a + x == x;
    }
  }

  lemma {:induction false} StripEndSpaces(x: string, b: string)
    requires AllSpace(b)
    ensures StripEnd(x + b) == StripEnd(x)
  {
    if b != [] {
      var n := |b| - 1;
      assert (x + b)[|x + b| - 1] == b[n];
      assert (x + b)[..|x + b| - 1] == x + b[..n];
      StripEndSpaces(x, b[..n]);
    } else {
      assert x + b == x;
    }
  }

  /**
   * strip() is characterised independently of how it scans: whenever s is
   * whitespace, then r, then whitespace, with r trimmed, strip() yields r.
   */
  lemma StripUnique(a: string, r: string, b: string)
    requires AllSpace(a) && AllSpace(b) && Trimmed(r)
    ensures Strip(a + r + b) == r
  {
    assert a + r + b == a + (r + b);
    StripStartSpaces(a, r + b);
    if r == [] {
      assert r + b == b;
      assert StripStart(b) == [];
      assert StripEnd([]) == [];
    } else {
      assert (r + b)[0] == r[0];
      assert StripStart(r + b) == r + b;
      StripEndSpaces(r, b);
      assert StripEnd(r) == r;
    }
  }

  /** How many leading whitespace characters strip() drops. */
  function LeadingSpace(s: string): nat {
    |s| - |StripStart(s)|
  }

  /** The result of strip() starts and ends with a non-whitespace character. */
  lemma StripTrimmed(s: string)
    ensures Trimmed(Strip(s))
  {
    var m := StripStart(s);
    var r := StripEnd(m);
    if r != [] {
      assert r[0] == m[0];
    }
  }

  /** The result of strip() is the input with a run of whitespace taken off each end. */
  lemma StripShape(s: string)
    ensures LeadingSpace(s) + |Strip(s)| <= |s|
    ensures s[LeadingSpace(s)..LeadingSpace(s) + |Strip(s)|] == Strip(s)
    ensures forall k :: 0 <= k < LeadingSpace(s) ==> IsSpace(s[k])
    ensures forall k :: LeadingSpace(s) + |Strip(s)| <= k < |s| ==> IsSpace(s[k])
  {
    var m := StripStart(s);
    var r := StripEnd(m);
    var i := |s| - |m|;
    assert LeadingSpace(s) == i && Strip(s) == r;
    StripShapeSlices(s, m, r);
  }

  lemma StripShapeSlices(s: string, m: string, r: string)
    requires |m| <= |s| && m == s[|s| - |m|..]
    requires |r| <= |m| && r == m[..|r|]
    requires forall k :: |r| <= k < |m| ==> IsSpace(m[k])
    ensures s[|s| - |m|..|s| - |m| + |r|] == r
    ensures forall k :: |s| - |m| + |r| <= k < |s| ==> IsSpace(s[k])
  {
    var i := |s| - |m|;
    forall k | i + |r| <= k < |s| ensures IsSpace(s[k]) {
      assert s[k] == m[k - i];
    }
  }

  lemma StripIdempotent(s: string)
    ensures Strip(Strip(s)) == Strip(s)
  {
    StripTrimmed(s);
    StripUnique([], Strip(s), []);
    assert [] + Strip(s) + [] == Strip(s);
  }

  function LowerChar(c: char): char {
    if 'A' <= c <= 'Z' then (c as int + 32) as char else c
  }

  /** s.lower(), for the ASCII letters. */
  function Lower(s: string): (r: string)
    ensures |r| == |s|
    ensures forall k :: 0 <= k < |s| ==> r[k] == LowerChar(s[k])
  {
    seq(|s|, k requires 0 <= k < |s| => LowerChar(s[k]))
  }
}
