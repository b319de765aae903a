/** String and sequence helpers standing in for the Python built-ins the
    core relies on: `str.strip`, `str.lower`, `in` on strings,
    `startswith`/`endswith`, `str.join`, `str(int)` and counting. */
module Text {

  datatype Option<+T> = None | Some(value: T) {
    /** `dict.get(key, default)` once the lookup has produced an Option. */
    function GetOr(default: T): T {
      if Some? then value else default
    }
  }

  /** `c.isspace()`. */
  predicate IsSpace(c: char) {
    c == ' ' || c == '\t' || c == '\n' || c == '\r' || c == '\U{0B}' || c == '\U{0C}'
    || ('\U{1C}' <= c <= '\U{1F}') || c == '\U{85}' || c == '\U{A0}' || c == '\U{1680}'
    || ('\U{2000}' <= c <= '\U{200A}') || c == '\U{2028}' || c == '\U{2029}'
    || c == '\U{202F}' || c == '\U{205F}' || c == '\U{3000}'
  }

  /** The length of the run of characters satisfying `p` at the front. */
  function LeadingRun(s: string, p: char -> bool): (n: nat)
    ensures n <= |s|
    ensures forall i :: 0 <= i < n ==> p(s[i])
    ensures n < |s| ==> !p(s[n])
  {
    if s != [] && p(s[0]) then 1 + LeadingRun(s[1..], p) else 0
  }

  /** The length of the run of characters satisfying `p` at the back. */
  function TrailingRun(s: string, p: char -> bool): (n: nat)
    ensures n <= |s|
    ensures forall i :: |s| - n <= i < |s| ==> p(s[i])
    ensures n < |s| ==> !p(s[|s| - n - 1])
  {
    if s != [] && p(s[|s| - 1]) then 1 + TrailingRun(s[..|s| - 1], p) else 0
  }

  /** `s.strip()`: drops leading and trailing whitespace. */
  function Strip(s: string): (r: string)
    ensures r != "" ==> !IsSpace(r[0]) && !IsSpace(r[|r| - 1])
  {
    var rest := s[LeadingRun(s, IsSpace)..];
    rest[..|rest| - TrailingRun(rest, IsSpace)]
  }

  /** `Strip(raw)` is the slice of `raw` between its leading and its
      trailing whitespace. */
  lemma StripBounds(raw: string) returns (a: nat, b: nat)
    ensures a <= b <= |raw| && Strip(raw) == raw[a..b]
    ensures forall i :: 0 <= i < a ==> IsSpace(raw[i])
    ensures forall i :: b <= i < |raw| ==> IsSpace(raw[i])
  {
    a := LeadingRun(raw, IsSpace);
    var rest := raw[a..];
    var t := TrailingRun(rest, IsSpace);
    b := |raw| - t;
    assert rest[..|rest| - t] == raw[a..b];
    forall i | b <= i < |raw| ensures IsSpace(raw[i]) {
      assert raw[i] == rest[i - a];
    }
  }

  /** Upper-case ASCII letters map to lower case; everything else is kept. */
  function LowerChar(c: char): char {
    if 'A' <= c <= 'Z' then (c as int + 32) as char else c
  }

  /** `s.lower()` (ASCII letters only). */
  function Lower(s: string): (r: string)
    ensures |r| == |s|
    ensures forall i :: 0 <= i < |s| ==> r[i] == LowerChar(s[i])
  {
    seq(|s|, i requires 0 <= i < |s| => LowerChar(s[i]))
  }

  /** `s.startswith(p)`. */
  predicate StartsWith(s: string, p: string) {
    p <= s
  }

  /** `s.endswith(p)`. */
  predicate EndsWith(s: string, p: string) {
    |p| <= |s| && s[|s| - |p|..] == p
  }

  /** `sub in s`: `sub` occurs at some offset of `s`. */
  predicate Contains(s: string, sub: string) {
    sub <= s || (s != [] && Contains(s[1..], sub))
  }

  /** `sep.join(parts)`. */
  function Join(parts: seq<string>, sep: string): string {
    if |parts| == 0 then ""
    else if |parts| == 1 then parts[0]
    else parts[0] + sep + Join(parts[1..], sep)
  }

  function DigitChar(d: nat): char
    requires d < 10
  {
    "0123456789"[d]
  }

  /** `str(n)` for a natural number. */
  function NatToString(n: nat): (r: string)
    ensures |r| > 0
  {
    if n < 10 then [DigitChar(n)] else NatToString(n / 10) + [DigitChar(n % 10)]
  }

  /** The number of elements of `s` satisfying `p`. */
  function CountIf<T>(s: seq<T>, p: T -> bool): (n: nat)
    ensures n <= |s|
  {
    if |s| == 0 then 0 else CountIf(s[..|s| - 1], p) + (if p(s[|s| - 1]) then 1 else 0)
  }

  /** A witness-based reading of `Contains`. */
  lemma {:induction false} ContainsAt(s: string, sub: string, k: nat)
    requires k + |sub| <= |s| && s[k..k + |sub|] == sub
    ensures Contains(s, sub)
  {
    if k > 0 {
      assert s[1..][k - 1..k - 1 + |sub|] == sub;
      ContainsAt(s[1..], sub, k - 1);
    } else {
      assert sub <= s;
    }
  }

  /** Every occurrence found by `Contains` has an offset. */
  lemma {:induction false} ContainsWitness(s: string, sub: string) returns (k: nat)
    requires Contains(s, sub)
    ensures k + |sub| <= |s| && s[k..k + |sub|] == sub
  {
    if sub <= s {
      k := 0;
    } else {
      var k' := ContainsWitness(s[1..], sub);
      k := k' + 1;
      assert s[k..k + |sub|] == s[1..][k'..k' + |sub|];
    }
  }

  /** Counting `p` and counting its negation cover every element once. */
  lemma {:induction false} CountIfSplit<T>(s: seq<T>, p: T -> bool, q: T -> bool)
    requires forall x :: x in s ==> (p(x) <==> !q(x))
    ensures CountIf(s, p) + CountIf(s, q) == |s|
  {
    if |s| > 0 {
      assert forall x :: x in s[..|s| - 1] ==> x in s;
      CountIfSplit(s[..|s| - 1], p, q);
    }
  }

  /** `[f(x) for x in s]`. */
  function MapSeq<T, U>(s: seq<T>, f: T -> U): (r: seq<U>)
    ensures |r| == |s| && forall i :: 0 <= i < |s| ==> r[i] == f(s[i])
  {
    if |s| == 0 then [] else MapSeq(s[..|s| - 1], f) + [f(s[|s| - 1])]
  }

  /** After a head element, position `i + 1` holds `f(s[i])`. */
  lemma MapSeqAfterHead<T, U>(head: U, s: seq<T>, f: T -> U)
    ensures |[head] + MapSeq(s, f)| == |s| + 1 && ([head] + MapSeq(s, f))[0] == head
    ensures forall i :: 0 <= i < |s| ==> ([head] + MapSeq(s, f))[i + 1] == f(s[i])
  {
    var lines := MapSeq(s, f);
    forall i | 0 <= i < |s| ensures ([head] + lines)[i + 1] == f(s[i]) {
      assert ([head] + lines)[i + 1] == lines[i];
    }
  }

  /** The values `f` gives for the elements it accepts, in input order: a
      loop that appends `f(x)` for each `x` where `f` yields one. */
  function FilterMap<T, U>(s: seq<T>, f: T -> Option<U>): (r: seq<U>)
    ensures |r| <= |s|
  {
    if |s| == 0 then []
    else FilterMap(s[..|s| - 1], f) + (if f(s[|s| - 1]).Some? then [f(s[|s| - 1]).value] else [])
  }

  /** Filtering keeps order: the result for a concatenation is the result
      for the first part followed by that for the second. */
  lemma {:induction false} FilterMapConcat<T, U>(a: seq<T>, b: seq<T>, f: T -> Option<U>)
    ensures FilterMap(a + b, f) == FilterMap(a, f) + FilterMap(b, f)
  {
    if |b| > 0 {
      assert (a + b)[..|a + b| - 1] == a + b[..|b| - 1];
      FilterMapConcat(a, b[..|b| - 1], f);
    } else {
      assert a + b == a;
    }
  }

  /** A value is in the result exactly when `f` gives it for some element. */
  lemma {:induction false} FilterMapMembers<T, U>(s: seq<T>, f: T -> Option<U>)
    ensures forall y :: y in FilterMap(s, f) <==> exists x :: x in s && f(x) == Some(y)
  {
    if |s| > 0 {
      var init := s[..|s| - 1];
      FilterMapMembers(init, f);
      assert s == init + [s[|s| - 1]];
      assert forall x :: x in s <==> x in init || x == s[|s| - 1];
    }
  }

  /** There is one value per element that `p` accepts, when `p` is exactly
      where `f` yields a value. */
  lemma {:induction false} FilterMapCount<T, U>(s: seq<T>, f: T -> Option<U>, p: T -> bool)
    requires forall x :: x in s ==> (f(x).Some? <==> p(x))
    ensures |FilterMap(s, f)| == CountIf(s, p)
  {
    if |s| > 0 {
      assert forall x :: x in s[..|s| - 1] ==> x in s;
      FilterMapCount(s[..|s| - 1], f, p);
    }
  }

  /** Each part of a joined list, followed by the separator and the next
      part, appears in the joined text. */
  lemma {:induction false} JoinAdjacent(parts: seq<string>, sep: string, i: nat)
    requires i + 1 < |parts|
    ensures Contains(Join(parts, sep), parts[i] + sep + parts[i + 1])
  {
    var j := Join(parts, sep);
    if i == 0 {
      if |parts| == 2 {
        assert j == parts[0] + sep + parts[1];
      } else {
        assert j == parts[0] + sep + (parts[1] + sep + Join(parts[2..], sep));
      }
      var w := parts[0] + sep + parts[1];
      assert j[..|w|] == w;
      ContainsAt(j, w, 0);
    } else {
      JoinAdjacent(parts[1..], sep, i - 1);
      var k := ContainsWitness(Join(parts[1..], sep), parts[i] + sep + parts[i + 1]);
      var pre := parts[0] + sep;
      assert j == pre + Join(parts[1..], sep);
      var w := parts[i] + sep + parts[i + 1];
      assert j[|pre| + k..|pre| + k + |w|] == Join(parts[1..], sep)[k..k + |w|];
      ContainsAt(j, w, |pre| + k);
    }
  }

  /** A joined list starts with its first part. */
  lemma JoinStartsWithFirst(parts: seq<string>, sep: string)
    requires |parts| > 0
    ensures |parts[0]| <= |Join(parts, sep)| && Join(parts, sep)[..|parts[0]|] == parts[0]
  {
  }
}
