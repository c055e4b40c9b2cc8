/**
 * The parts of Python's `str` that the game relies on: `lower()`, `strip()`,
 * `isspace()`, `join()` and `split()` on one separator character. Only ASCII
 * case folding and ASCII whitespace are modelled.
 */
module Strings {

  /** `str.isspace` on one ASCII character: tab, line feed, vertical tab, form
      feed, carriage return, the separators 0x1C-0x1F and the space. */
  predicate IsSpace(c: char) {
    9 <= c as int <= 13 || 28 <= c as int <= 32
  }

  predicate IsUpper(c: char) {
    'A' <= c <= 'Z'
  }

  /** `str.lower` on one character (ASCII letters only). */
  function LowerChar(c: char): (d: char)
    ensures !IsUpper(d)
    ensures IsSpace(d) <==> IsSpace(c)
    ensures !IsUpper(c) ==> d == c
  {
    if IsUpper(c) then (c as int + 32) as char else c
  }

  /** `str.lower`: every character folded, length kept. */
  function Lower(s: string): (r: string)
    ensures |r| == |s|
    ensures forall i :: 0 <= i < |s| ==> r[i] == LowerChar(s[i])
  {
    if s == [] then [] else [LowerChar(s[0])] + Lower(s[1..])
  }

  predicate IsLowerCase(s: string) {
    forall c :: c in s ==> !IsUpper(c)
  }

  /** A slice of lower-case text is lower case. */
  lemma SliceLowerCase(s: string, a: nat, b: nat)
    requires a <= b <= |s| && IsLowerCase(s)
    ensures IsLowerCase(s[a..b])
  {
    forall c | c in s[a..b] ensures !IsUpper(c) {
      var i :| 0 <= i < b - a && s[a..b][i] == c;
      assert s[a + i] == c;
    }
  }

  predicate AllSpace(s: string) {
    forall i :: 0 <= i < |s| ==> IsSpace(s[i])
  }

  predicate NoSpace(s: string) {
    forall i :: 0 <= i < |s| ==> !IsSpace(s[i])
  }

  /** A string with no whitespace at either end (what `strip` produces). */
  predicate Trimmed(s: string) {
    s == [] || (!IsSpace(s[0]) && !IsSpace(s[|s| - 1]))
  }

  /** Folding twice is folding once, and lower-case text is left alone. */
  lemma LowerFacts(s: string)
    ensures IsLowerCase(Lower(s))
    ensures Lower(Lower(s)) == Lower(s)
    ensures IsLowerCase(s) ==> Lower(s) == s
  {
  }

  /** `str.lstrip`: drops the leading whitespace run, nothing else. */
  function TrimStart(s: string): (r: string)
    ensures |r| <= |s| && r == s[|s| - |r|..]
    ensures AllSpace(s[..|s| - |r|])
    ensures r == [] || !IsSpace(r[0])
  {
    if s != [] && IsSpace(s[0]) then
      var r := TrimStart(s[1..]);
      assert s[1..][|s| - 1 - |r|..] == s[|s| - |r|..];
      forall i | 0 <= i < |s| - |r| ensures IsSpace(s[i]) {
        if i > 0 { assert s[i] == s[1..][..|s| - 1 - |r|][i - 1]; }
      }
      r
    else
      s
  }

  /** `str.rstrip`: drops the trailing whitespace run, nothing else. */
  function TrimEnd(s: string): (r: string)
    ensures |r| <= |s| && r == s[..|r|]
    ensures AllSpace(s[|r|..])
    ensures r == [] || !IsSpace(r[|r| - 1])
  {
    if s != [] && IsSpace(s[|s| - 1]) then TrimEnd(s[..|s| - 1]) else s
  }

  /** `str.strip`. */
  function Strip(s: string): (r: string)
    ensures Trimmed(r)
    ensures r == [] <==> AllSpace(s)
    ensures |r| <= |s|
    ensures forall c :: c in r ==> c in s
  {
    var t := TrimStart(s);
    var r := TrimEnd(t);
    assert r == [] ==> AllSpace(s) by {
      if r == [] {
        assert s == s[..|s| - |t|] + t;
      }
    }
    r
  }

  lemma {:induction false} TrimStartOfSpaces(w: string, t: string)
    requires AllSpace(w) && (t == [] || !IsSpace(t[0]))
    ensures TrimStart(w + t) == t
    decreases |w|
  {
    if w != [] {
      assert (w + t)[1..] == w[1..] + t;
      TrimStartOfSpaces(w[1..], t);
    } else {
      assert w + t == t;
    }
  }

  lemma {:induction false} TrimEndOfSpaces(t: string, w: string)
    requires AllSpace(w) && (t == [] || !IsSpace(t[|t| - 1]))
    ensures TrimEnd(t + w) == t
    decreases |w|
  {
    if w != [] {
      assert (t + w)[..|t + w| - 1] == t + w[..|w| - 1];
      TrimEndOfSpaces(t, w[..|w| - 1]);
    } else {
      assert t + w == t;
    }
  }

  /** `strip` removes exactly the surrounding whitespace: whatever trimmed text
      is padded with whitespace on both sides, stripping gives it back. */
  lemma StripPadded(w1: string, t: string, w2: string)
    requires AllSpace(w1) && AllSpace(w2) && Trimmed(t)
    ensures Strip(w1 + t + w2) == t
  {
    if t == [] {
      assert w1 + t + w2 == w1 + w2;
      assert AllSpace(w1 + w2);
    } else {
      assert w1 + t + w2 == w1 + (t + w2);
      TrimStartOfSpaces(w1, t + w2);
      TrimEndOfSpaces(t, w2);
    }
  }

  /** Stripped text strips to itself. */
  lemma StripTrimmed(t: string)
    requires Trimmed(t)
    ensures Strip(t) == t
  {
    assert "" + t + "" == t;
    StripPadded("", t, "");
  }

  /** `sep.join(parts)`. */
  function Join(parts: seq<string>, sep: string): string {
    if parts == [] then ""
    else if |parts| == 1 then parts[0]
    else parts[0] + sep + Join(parts[1..], sep)
  }

  /** Joining adds no character that neither a part nor the separator has. */
  lemma {:induction false} JoinFree(parts: seq<string>, sep: string, c: char)
    requires c !in sep
    requires forall k :: 0 <= k < |parts| ==> c !in parts[k]
    ensures c !in Join(parts, sep)
  {
    if |parts| > 1 {
      JoinFree(parts[1..], sep, c);
    }
  }

  /** Index of the first `c` in `s`, or `|s|` when there is none. */
  function IndexOfChar(s: string, c: char): (i: nat)
    ensures i <= |s|
    ensures c !in s[..i]
    ensures i < |s| ==> s[i] == c
  {
    if s == [] then 0
    else if s[0] == c then 0
    else
      var j := IndexOfChar(s[1..], c);
      assert s[..j + 1] == [s[0]] + s[1..][..j];
      1 + j
  }

  /** `s.split(c)`: the pieces between the separators, in order. */
  function Split(s: string, c: char): (parts: seq<string>)
    ensures |parts| >= 1
    ensures forall k :: 0 <= k < |parts| ==> c !in parts[k]
    decreases |s|
  {
    var i := IndexOfChar(s, c);
    if i == |s| then [s] else [s[..i]] + Split(s[i + 1..], c)
  }

  /** Splitting what was joined gives the parts back, as long as no part holds
      the separator. */
  lemma {:induction false} SplitJoin(parts: seq<string>, c: char)
    requires |parts| >= 1
    requires forall k :: 0 <= k < |parts| ==> c !in parts[k]
    ensures Split(Join(parts, [c]), c) == parts
  {
    if |parts| == 1 {
      var s := parts[0];
      assert s[..|s|] == s;
      assert IndexOfChar(s, c) == |s|;
    } else {
      var s := Join(parts, [c]);
      var rest := Join(parts[1..], [c]);
      assert s == parts[0] + [c] + rest;
      var i := IndexOfChar(s, c);
      assert s[|parts[0]|] == c;
      assert s[..|parts[0]|] == parts[0];
      assert i == |parts[0]|;
      assert s[i + 1..] == rest;
      SplitJoin(parts[1..], c);
    }
  }
}
