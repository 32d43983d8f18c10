/** String operations of the JavaScript runtime that the modelled code relies on:
    `trim`, `indexOf`-style searching, `includes`, `toLowerCase` (restricted to
    ASCII), `substring`, `join` and `split`. Strings are sequences of Unicode
    scalar values. */
module Strings {
  import opened Outcomes

  /** The characters JavaScript treats as white space in `trim` and in the
      regular-expression class `\s`: the WhiteSpace and LineTerminator
      productions of ECMAScript (including every space separator). */
  predicate IsSpace(c: char) {
    || c == '\t' || c == '\n' || c == '\U{B}' || c == '\U{C}' || c == '\r' || c == ' '
    || c == '\U{A0}' || c == '\U{1680}' || ('\U{2000}' <= c <= '\U{200A}')
    || c == '\U{2028}' || c == '\U{2029}' || c == '\U{202F}' || c == '\U{205F}'
    || c == '\U{3000}' || c == '\U{FEFF}'
  }

  predicate AllSpace(s: string) {
    forall i :: 0 <= i < |s| ==> IsSpace(s[i])
  }

  /** No white space at either end. */
  predicate Trimmed(s: string) {
    s == [] || (!IsSpace(s[0]) && !IsSpace(s[|s| - 1]))
  }

  /** Length of the white-space run that starts the string. */
  function LeadingSpace(s: string): (n: nat)
    ensures n <= |s| && AllSpace(s[..n])
    ensures n < |s| ==> !IsSpace(s[n])
  {
    if s == [] || !IsSpace(s[0]) then 0
    else
      var m := LeadingSpace(s[1..]);
      assert s[..m + 1] == [s[0]] + s[1..][..m];
      m + 1
  }

  /** Length of the white-space run that ends the string. */
  function TrailingSpace(s: string): (n: nat)
    ensures n <= |s| && AllSpace(s[|s| - n..])
    ensures n < |s| ==> !IsSpace(s[|s| - n - 1])
  {
    if s == [] || !IsSpace(s[|s| - 1]) then 0
    else
      var t := s[..|s| - 1];
      var m := TrailingSpace(t);
      assert s[|s| - (m + 1)..] == t[|t| - m..] + [s[|s| - 1]];
      m + 1
  }

  /** Where the trimmed part of `s` starts and ends. */
  function TrimBounds(s: string): (b: (nat, nat))
    ensures b.0 <= b.1 <= |s|
    ensures AllSpace(s[..b.0]) && AllSpace(s[b.1..])
    ensures Trimmed(s[b.0..b.1])
  {
    var a := LeadingSpace(s);
    if a == |s| then
      assert s[..0] == [] && s[0..] == s[..a];
      (0, 0)
    else
      var t := s[a..];
      var n := TrailingSpace(t);
      assert s[a..|s| - n] == t[..|t| - n];
      assert s[|s| - n..] == t[|t| - n..];
      (a, |s| - n)
  }

  /** `String.prototype.trim`: the string without the white space at its ends. */
  function Trim(s: string): (r: string)
    ensures Trimmed(r)
    ensures r == s[TrimBounds(s).0..TrimBounds(s).1]
  {
    s[TrimBounds(s).0..TrimBounds(s).1]
  }

  lemma {:induction false} LeadingSpaceAppend(p: string, t: string)
    requires AllSpace(p)
    ensures LeadingSpace(p + t) == |p| + LeadingSpace(t)
    decreases |p|
  {
    if p != [] {
      assert (p + t)[1..] == p[1..] + t;
      LeadingSpaceAppend(p[1..], t);
    } else {
      assert p + t == t;
    }
  }

  lemma {:induction false} TrailingSpaceAppend(t: string, q: string)
    requires AllSpace(q)
    ensures TrailingSpace(t + q) == TrailingSpace(t) + |q|
    decreases |q|
  {
    if q != [] {
      var q' := q[..|q| - 1];
      assert (t + q)[..|t + q| - 1] == t + q';
      TrailingSpaceAppend(t, q');
    } else {
      assert t + q == t;
    }
  }

  /** Trimming is determined by the content: whatever white space surrounds a
      trimmed string is removed again, and nothing else. */
  lemma TrimPadded(p: string, r: string, q: string)
    requires AllSpace(p) && AllSpace(q) && Trimmed(r)
    ensures Trim(p + r + q) == r
  {
    var s := p + r + q;
    assert s == p + (r + q);
    LeadingSpaceAppend(p, r + q);
    if r == [] {
      assert r + q == q + [];
      LeadingSpaceAppend(q, []);
    } else {
      assert LeadingSpace(r + q) == 0;
      var t := s[|p|..];
      assert t == r + q;
      TrailingSpaceAppend(r, q);
      assert s[|p|..|s| - |q|] == r;
    }
  }

  lemma AppendAssoc(a: string, b: string, c: string)
    ensures (a + b) + c == a + (b + c)
  {
  }

  /** Regrouping a four-part concatenation to the right. */
  lemma Regroup(a: string, b: string, c: string, d: string)
    ensures a + b + c + d == a + (b + (c + d))
  {
  }

  lemma SliceOfSlice(s: string, lo: nat, hi: nat, i: nat, j: nat)
    requires lo <= hi <= |s| && i <= j <= hi - lo
    ensures s[lo..hi][i..j] == s[lo + i..lo + j]
  {
    forall t | 0 <= t < j - i ensures s[lo..hi][i..j][t] == s[lo + i..lo + j][t] {
      assert s[lo..hi][i..j][t] == s[lo + i + t];
    }
  }

  /** The pattern occurs in `s` starting at index `k`. */
  predicate MatchAt(s: string, pat: string, k: nat) {
    k + |pat| <= |s| && s[k..k + |pat|] == pat
  }

  /** The first index at or after `from` where `pat` occurs, if any. */
  function IndexFrom(s: string, pat: string, from: nat): (r: Option<nat>)
    ensures r.Some? ==> from <= r.value && MatchAt(s, pat, r.value)
    ensures r.Some? ==> forall k :: from <= k < r.value ==> !MatchAt(s, pat, k)
    ensures r.None? ==> forall k :: from <= k ==> !MatchAt(s, pat, k)
    decreases |s| - from
  {
    if from + |pat| > |s| then None
    else if s[from..from + |pat|] == pat then Some(from)
    else IndexFrom(s, pat, from + 1)
  }

  /** `IndexFrom` finds an occurrence that nothing earlier precedes. */
  lemma FirstMatch(s: string, pat: string, from: nat, j: nat)
    requires from <= j && MatchAt(s, pat, j)
    requires forall k :: from <= k < j ==> !MatchAt(s, pat, k)
    ensures IndexFrom(s, pat, from) == Some(j)
  {
  }

  /** An optional string that is present and non-empty: what `if (x)`
      accepts. */
  predicate Present(s: Option<string>) {
    s.Some? && s.value != ""
  }

  /** `String.prototype.includes`. */
  function Includes(s: string, pat: string): (b: bool)
    ensures b <==> exists k: nat :: MatchAt(s, pat, k)
  {
    IndexFrom(s, pat, 0).Some?
  }

  /** Lower-casing of one character, restricted to the ASCII letters. */
  function LowerChar(c: char): char {
    if 'A' <= c <= 'Z' then (c as int + 32) as char else c
  }

  function ToLower(s: string): (r: string)
    ensures |r| == |s|
    ensures forall i :: 0 <= i < |s| ==> r[i] == LowerChar(s[i])
  {
    if s == [] then [] else [LowerChar(s[0])] + ToLower(s[1..])
  }

  /** `String.prototype.substring(start, end)` for `start <= end`: both
      bounds are clamped to the length of the string. */
  function Substring(s: string, start: nat, end: nat): (r: string)
    requires start <= end
    ensures |r| == (if end <= |s| then end - start else if start <= |s| then |s| - start else 0)
    ensures end <= |s| ==> r == s[start..end]
  {
    var a := if start <= |s| then start else |s|;
    var b := if end <= |s| then end else |s|;
    s[a..b]
  }

  /** `Array.prototype.join`: the parts with `sep` between neighbours. */
  function Join(parts: seq<string>, sep: string): string {
    if parts == [] then []
    else if |parts| == 1 then parts[0]
    else parts[0] + sep + Join(parts[1..], sep)
  }

  /** `String.prototype.split` on a single character: the maximal pieces
      between occurrences of `sep`, so there is always at least one piece. */
  function Split(s: string, sep: char): (r: seq<string>)
    ensures |r| >= 1
  {
    if s == [] then [[]]
    else
      var rest := Split(s[1..], sep);
      if s[0] == sep then [[]] + rest else [[s[0]] + rest[0]] + rest[1..]
  }

  lemma {:induction false} SplitPrefix(x: string, t: string, sep: char)
    requires sep !in x
    ensures Split(x + t, sep) == [x + Split(t, sep)[0]] + Split(t, sep)[1..]
    decreases |x|
  {
    if x != [] {
      assert (x + t)[1..] == x[1..] + t;
      SplitPrefix(x[1..], t, sep);
      assert [x[0]] + (x[1..] + Split(t, sep)[0]) == x + Split(t, sep)[0];
    } else {
      var st := Split(t, sep);
      assert x + t == t;
      assert x + st[0] == st[0];
      assert st == [st[0]] + st[1..];
    }
  }

  /** Splitting undoes joining when no part contains the separator. */
  lemma {:induction false} SplitJoin(parts: seq<string>, sep: char)
    requires |parts| >= 1
    requires forall i :: 0 <= i < |parts| ==> sep !in parts[i]
    ensures Split(Join(parts, [sep]), sep) == parts
    decreases |parts|
  {
    if |parts| == 1 {
      SplitPrefix(parts[0], [], sep);
      assert parts[0] + [] == parts[0];
    } else {
      var rest := Join(parts[1..], [sep]);
      SplitJoin(parts[1..], sep);
      assert Join(parts, [sep]) == parts[0] + ([sep] + rest);
      SplitPrefix(parts[0], [sep] + rest, sep);
      assert ([sep] + rest)[1..] == rest;
      assert Split([sep] + rest, sep) == [[]] + Split(rest, sep);
      assert parts[0] + [] == parts[0];
      assert parts == [parts[0]] + parts[1..];
    }
  }
}
