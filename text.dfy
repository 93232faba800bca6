/**
 * The JavaScript string operations the services rely on, over Dafny strings
 * (sequences of Unicode scalar values): the `\s` character class, `trim`,
 * `split` on one character and on a run of a character class, `join`,
 * `includes`, ASCII `toLowerCase`, decimal rendering and parsing of numbers.
 */
module Text {

  /** JavaScript's `\s`, which is also the set `String.prototype.trim` removes. */
  predicate IsSpace(c: char) {
    || c == ' ' || c == '\t' || c == '\n' || c == '\r' || c == '\U{000B}' || c == '\U{000C}'
    || c == '\U{00A0}' || c == '\U{1680}' || ('\U{2000}' <= c <= '\U{200A}')
    || c == '\U{2028}' || c == '\U{2029}' || c == '\U{202F}' || c == '\U{205F}'
    || c == '\U{3000}' || c == '\U{FEFF}'
  }

  predicate AllSpace(s: string) {
    forall i :: 0 <= i < |s| ==> IsSpace(s[i])
  }

  /** The index of the first non-whitespace character of `s` at or after `i`, or
      `|s|` when there is none. */
  function SpaceRunEnd(s: string, i: nat): (k: nat)
    requires i <= |s|
    ensures i <= k <= |s|
    ensures k < |s| ==> !IsSpace(s[k])
    decreases |s| - i
  {
    if i < |s| && IsSpace(s[i]) then SpaceRunEnd(s, i + 1) else i
  }

  /** The index just past the last non-whitespace character of `s[lo..j]`, or `lo`
      when there is none. */
  function SpaceRunStart(s: string, lo: nat, j: nat): (k: nat)
    requires lo <= j <= |s|
    ensures lo <= k <= j
    ensures lo < k ==> !IsSpace(s[k - 1])
    decreases j
  {
    if lo < j && IsSpace(s[j - 1]) then SpaceRunStart(s, lo, j - 1) else j
  }

  /** What `SpaceRunEnd` skips is whitespace. */
  lemma {:induction false} SpaceRunEndSpaces(s: string, i: nat)
    requires i <= |s|
    ensures forall j :: i <= j < SpaceRunEnd(s, i) ==> IsSpace(s[j])
    decreases |s| - i
  {
    if i < |s| && IsSpace(s[i]) {
      SpaceRunEndSpaces(s, i + 1);
    }
  }

  /** What `SpaceRunStart` skips is whitespace. */
  lemma {:induction false} SpaceRunStartSpaces(s: string, lo: nat, j: nat)
    requires lo <= j <= |s|
    ensures forall m :: SpaceRunStart(s, lo, j) <= m < j ==> IsSpace(s[m])
    decreases j
  {
    if lo < j && IsSpace(s[j - 1]) {
      SpaceRunStartSpaces(s, lo, j - 1);
    }
  }

  /** A whitespace run from `i` that stops at a non-whitespace character `n` ends at `n`. */
  lemma {:induction false} SpaceRunEndAt(s: string, i: nat, n: nat)
    requires i <= n < |s| && !IsSpace(s[n])
    requires forall j :: i <= j < n ==> IsSpace(s[j])
    ensures SpaceRunEnd(s, i) == n
    decreases n - i
  {
    if i < n {
      SpaceRunEndAt(s, i + 1, n);
    }
  }

  /** The number of characters `trim` removes from the front of `s`. */
  function TrimOffset(s: string): (k: nat)
    ensures k <= |s|
  {
    SpaceRunEnd(s, 0)
  }

  /** `String.prototype.trim`. */
  function Trim(s: string): string
  {
    s[TrimOffset(s)..SpaceRunStart(s, TrimOffset(s), |s|)]
  }

  /** No whitespace at either end: what `trim` leaves. */
  predicate Trimmed(s: string) {
    s == [] || (!IsSpace(s[0]) && !IsSpace(s[|s| - 1]))
  }

  /** What `trim` keeps: a slice of the input, with no whitespace at either end,
      empty exactly when the input is all whitespace. */
  lemma TrimShape(s: string)
    ensures TrimOffset(s) + |Trim(s)| <= |s|
    ensures Trim(s) == s[TrimOffset(s)..TrimOffset(s) + |Trim(s)|]
    ensures Trimmed(Trim(s))
    ensures Trim(s) == [] <==> AllSpace(s)
  {
    TrimEnds(s);
    TrimEmpty(s);
  }

  /** Everything `trim` removes is whitespace. */
  lemma TrimBounds(s: string)
    ensures TrimOffset(s) + |Trim(s)| <= |s|
    ensures forall i :: 0 <= i < TrimOffset(s) ==> IsSpace(s[i])
    ensures forall i :: TrimOffset(s) + |Trim(s)| <= i < |s| ==> IsSpace(s[i])
  {
    var k := TrimOffset(s);
    SpaceRunEndSpaces(s, 0);
    SpaceRunStartSpaces(s, k, |s|);
  }

  lemma TrimEnds(s: string)
    ensures Trimmed(Trim(s))
  {
    var k := TrimOffset(s);
    var e := SpaceRunStart(s, k, |s|);
    var r := Trim(s);
    if r != [] {
      assert r[0] == s[k];
      assert r[|r| - 1] == s[e - 1];
    }
  }

  lemma TrimEmpty(s: string)
    ensures Trim(s) == [] <==> AllSpace(s)
  {
    var k := TrimOffset(s);
    var e := SpaceRunStart(s, k, |s|);
    if e == k {
      TrimBounds(s);
    }
  }

  /** `trim` leaves a trimmed text alone. */
  lemma TrimTrimmed(s: string)
    requires Trimmed(s)
    ensures Trim(s) == s
  {
    if s != [] {
      assert TrimOffset(s) == 0;
      assert SpaceRunStart(s, 0, |s|) == |s|;
    }
  }

  lemma TrimIdempotent(s: string)
    ensures Trim(Trim(s)) == Trim(s)
  {
    TrimEnds(s);
    TrimTrimmed(Trim(s));
  }

  /** JavaScript `includes`: `p` occurs somewhere in `s`. */
  predicate StartsWith(s: string, p: string) {
    |p| <= |s| && s[..|p|] == p
  }

  predicate Contains(s: string, p: string)
    decreases |s|
  {
    StartsWith(s, p) || (s != [] && Contains(s[1..], p))
  }

  predicate EndsWith(s: string, p: string) {
    |p| <= |s| && s[|s| - |p|..] == p
  }

  lemma {:induction false} ContainsMiddle(a: string, b: string, c: string)
    ensures Contains(a + b + c, b)
    decreases |a|
  {
    if a == [] {
      assert (a + b + c)[..|b|] == b;
    } else {
      assert (a + b + c)[1..] == a[1..] + b + c;
      ContainsMiddle(a[1..], b, c);
    }
  }

  /** A text made of three parts starts with the first, ends with the last and
      contains the middle one. */
  lemma ThreeParts(a: string, b: string, c: string)
    ensures StartsWith(a + b + c, a) && EndsWith(a + b + c, c) && Contains(a + b + c, b)
  {
    assert (a + b + c)[..|a|] == a;
    assert (a + b + c)[|a + b|..] == c;
    ContainsMiddle(a, b, c);
  }

  lemma {:induction false} ContainsExtend(a: string, b: string, x: string)
    requires Contains(a, x)
    ensures Contains(a + b, x)
    decreases |a|
  {
    if StartsWith(a, x) {
      assert (a + b)[..|x|] == a[..|x|];
    } else {
      assert (a + b)[1..] == a[1..] + b;
      ContainsExtend(a[1..], b, x);
    }
  }

  lemma ContainsAtEnd(a: string, x: string)
    ensures Contains(a + x, x)
  {
    ContainsMiddle(a, x, []);
    assert a + x + [] == a + x;
  }

  /** The position of the first `c` in `s`. */
  function IndexOf(s: string, c: char): (k: nat)
    requires c in s
    ensures k < |s| && s[k] == c && forall j :: 0 <= j < k ==> s[j] != c
  {
    if s[0] == c then 0 else 1 + IndexOf(s[1..], c)
  }

  /** The first occurrence is the one with none before it. */
  lemma {:induction false} IndexOfFirst(s: string, c: char, k: nat)
    requires k < |s| && s[k] == c && forall j :: 0 <= j < k ==> s[j] != c
    ensures IndexOf(s, c) == k
    decreases k
  {
    if k > 0 {
      assert s[0] != c;
      IndexOfFirst(s[1..], c, k - 1);
    }
  }

  /** `s.split(sep)` for a one-character separator. */
  function SplitOn(s: string, sep: char): (r: seq<string>)
    ensures |r| >= 1
    decreases |s|
  {
    if sep !in s then [s]
    else
      var k := IndexOf(s, sep);
      [s[..k]] + SplitOn(s[k + 1..], sep)
  }

  /** No piece of a split holds the separator. */
  lemma {:induction false} SplitOnPieces(s: string, sep: char)
    ensures forall i :: 0 <= i < |SplitOn(s, sep)| ==> sep !in SplitOn(s, sep)[i]
    decreases |s|
  {
    if sep in s {
      var k := IndexOf(s, sep);
      var rest := SplitOn(s[k + 1..], sep);
      SplitOnPieces(s[k + 1..], sep);
      assert sep !in s[..k];
      assert SplitOn(s, sep) == [s[..k]] + rest;
    }
  }

  /** `s.split(sep).length` is one more than the number of separators in `s`. */
  lemma {:induction false} SplitOnCount(s: string, sep: char)
    ensures |SplitOn(s, sep)| == multiset(s)[sep] + 1
    decreases |s|
  {
    if sep in s {
      var k := IndexOf(s, sep);
      var before, after := s[..k], s[k + 1..];
      SplitOnCount(after, sep);
      SplitOnLength(s, sep);
      CountAround(s, k);
      assert multiset(before)[sep] == 0;
    }
  }

  /** A text holding the separator splits into the piece before its first
      occurrence followed by the pieces of the rest. */
  lemma SplitOnLength(s: string, sep: char)
    requires sep in s
    ensures |SplitOn(s, sep)| == 1 + |SplitOn(s[IndexOf(s, sep) + 1..], sep)|
  {
  }

  /** The occurrences of `s[k]` are those before `k`, the one at `k` and those after. */
  lemma CountAround(s: string, k: nat)
    requires k < |s|
    ensures multiset(s)[s[k]] == multiset(s[..k])[s[k]] + 1 + multiset(s[k + 1..])[s[k]]
  {
    assert s == s[..k] + [s[k]] + s[k + 1..];
  }

  /** `parts.join(sep)`. */
  function Join(parts: seq<string>, sep: string): string
  {
    if |parts| == 0 then ""
    else if |parts| == 1 then parts[0]
    else parts[0] + sep + Join(parts[1..], sep)
  }

  /** Joining the pieces of a split with the same separator gives back the text. */
  lemma {:induction false} JoinSplitOn(s: string, sep: char)
    ensures Join(SplitOn(s, sep), [sep]) == s
    decreases |s|
  {
    if sep in s {
      var k := IndexOf(s, sep);
      var rest := SplitOn(s[k + 1..], sep);
      JoinSplitOn(s[k + 1..], sep);
      JoinCons(s[..k], rest, [sep]);
      SplitAround(s, k);
    }
  }

  lemma JoinCons(a: string, rest: seq<string>, sep: string)
    requires |rest| >= 1
    ensures Join([a] + rest, sep) == a + sep + Join(rest, sep)
  {
    assert ([a] + rest)[1..] == rest;
  }

  lemma SplitAround(s: string, k: nat)
    requires k < |s|
    ensures s == s[..k] + [s[k]] + s[k + 1..]
  {
  }

  /** Splitting a join of separator-free pieces gives back the pieces. */
  lemma {:induction false} SplitOnJoin(parts: seq<string>, sep: char)
    requires |parts| >= 1
    requires forall i :: 0 <= i < |parts| ==> sep !in parts[i]
    ensures SplitOn(Join(parts, [sep]), sep) == parts
    decreases |parts|
  {
    if |parts| > 1 {
      var rest := Join(parts[1..], [sep]);
      assert Join(parts, [sep]) == parts[0] + [sep] + rest;
      SplitAtFirst(Join(parts, [sep]), parts[0], rest, sep);
      SplitOnJoin(parts[1..], sep);
      assert parts == [parts[0]] + parts[1..];
    }
  }

  /** Splitting at a first separator gives the text before it, then the split of the rest. */
  lemma SplitAtFirst(x: string, head: string, tail: string, sep: char)
    requires sep !in head && x == head + [sep] + tail
    ensures SplitOn(x, sep) == [head] + SplitOn(tail, sep)
  {
    var k := |head|;
    assert x[k] == sep;
    assert forall j :: 0 <= j < k ==> x[j] == head[j];
    assert x[..k] == head;
    assert x[k + 1..] == tail;
    IndexOfFirst(x, sep, k);
  }

  /** The separator classes of the two regular expressions the services split on:
      `/[.!?]+/` (sentence ends) and `/\s+/` (whitespace). */
  datatype CharClass = Terminators | Whitespace

  predicate InClass(c: char, k: CharClass) {
    match k
    case Terminators => c == '.' || c == '!' || c == '?'
    case Whitespace => IsSpace(c)
  }

  predicate FreeOf(s: string, k: CharClass) {
    forall i :: 0 <= i < |s| ==> !InClass(s[i], k)
  }

  /** The length of the longest prefix of `s` with no character of class `k`. */
  function SegmentEnd(s: string, k: CharClass): (n: nat)
    ensures n <= |s| && FreeOf(s[..n], k)
    ensures n < |s| ==> InClass(s[n], k)
  {
    if s == [] || InClass(s[0], k) then 0
    else
      var m := SegmentEnd(s[1..], k);
      assert s[..m + 1] == [s[0]] + s[1..][..m];
      m + 1
  }

  /** Drops the leading run of class-`k` characters. */
  function SkipRun(s: string, k: CharClass): (r: string)
    ensures |r| <= |s| && r == s[|s| - |r|..]
    ensures r == [] || !InClass(r[0], k)
  {
    if s != [] && InClass(s[0], k) then SkipRun(s[1..], k) else s
  }

  /** `s.split(/[.!?]+/)` or `s.split(/\s+/)`: the pieces between maximal runs of
      class-`k` characters, keeping the empty piece before a leading run and
      after a trailing one. */
  function SplitRuns(s: string, k: CharClass): (r: seq<string>)
    ensures |r| >= 1
    ensures forall i :: 0 <= i < |r| ==> FreeOf(r[i], k)
    decreases |s|
  {
    var n := SegmentEnd(s, k);
    if n == |s| then [s]
    else [s[..n]] + SplitRuns(SkipRun(s[n..], k), k)
  }

  /** A text that opens with a run of class `k` splits into an empty piece and the
      pieces after the run, so its join opens with the separator. */
  lemma SplitRunsJoinAtRun(s: string, k: CharClass, sep: string)
    requires s != [] && InClass(s[0], k)
    ensures Join(SplitRuns(s, k), sep) == sep + Join(SplitRuns(SkipRun(s, k), k), sep)
  {
    var rest := SplitRuns(SkipRun(s, k), k);
    var parts := SplitRuns(s, k);
    assert parts == [[]] + rest by {
      assert SegmentEnd(s, k) == 0;
      assert s[0..] == s;
    }
    JoinCons([], rest, sep);
    assert [] + sep == sep;
  }

  /** A text that opens outside class `k` joins to its first character followed
      by the join of the rest. */
  lemma SplitRunsJoinAtChar(s: string, k: CharClass, sep: string)
    requires s != [] && !InClass(s[0], k)
    ensures Join(SplitRuns(s, k), sep) == [s[0]] + Join(SplitRuns(s[1..], k), sep)
  {
    var t := s[1..];
    var m := SegmentEnd(t, k);
    SegmentEndCons(s, k);
    if m == |t| {
      assert SplitRuns(s, k) == [s] && SplitRuns(t, k) == [t];
    } else {
      var rest := SplitRuns(SkipRun(t[m..], k), k);
      assert s[m + 1..] == t[m..];
      ConsPrefix(s, m);
      assert SplitRuns(s, k) == [[s[0]] + t[..m]] + rest;
      assert SplitRuns(t, k) == [t[..m]] + rest;
      JoinHeadCons(s[0], t[..m], rest, sep);
    }
  }

  lemma SplitAt(s: string, n: nat)
    requires n <= |s|
    ensures s[..n] + s[n..] == s
  {
  }

  lemma ConsPrefix(s: string, m: nat)
    requires m < |s|
    ensures s[..m + 1] == [s[0]] + s[1..][..m]
  {
  }

  lemma SegmentEndCons(s: string, k: CharClass)
    requires s != [] && !InClass(s[0], k)
    ensures SegmentEnd(s, k) == SegmentEnd(s[1..], k) + 1
  {
  }

  /** A character in front of the first piece comes out in front of the join. */
  lemma JoinHeadCons(x: char, head: string, rest: seq<string>, sep: string)
    requires |rest| >= 1
    ensures Join([[x] + head] + rest, sep) == [x] + Join([head] + rest, sep)
  {
    JoinCons([x] + head, rest, sep);
    JoinCons(head, rest, sep);
    var j := Join(rest, sep);
    assert ([x] + head) + sep + j == [x] + (head + sep + j);
  }

  /** What `Strip` keeps of one character. */
  function KeptChar(c: char, k: CharClass): string {
    if InClass(c, k) then [] else [c]
  }

  /** `s` with every class-`k` character removed. */
  function Strip(s: string, k: CharClass): string
  {
    if s == [] then [] else KeptChar(s[0], k) + Strip(s[1..], k)
  }

  function Concat(parts: seq<string>): string
  {
    if parts == [] then [] else parts[0] + Concat(parts[1..])
  }

  lemma {:induction false} StripAppend(a: string, b: string, k: CharClass)
    ensures Strip(a + b, k) == Strip(a, k) + Strip(b, k)
    decreases |a|
  {
    if a != [] {
      StripAppend(a[1..], b, k);
      assert (a + b)[0] == a[0];
      assert (a + b)[1..] == a[1..] + b;
    } else {
      assert a + b == b;
    }
  }

  lemma {:induction false} StripFree(s: string, k: CharClass)
    requires FreeOf(s, k)
    ensures Strip(s, k) == s
    decreases |s|
  {
    if s != [] {
      StripFree(s[1..], k);
    }
  }

  lemma {:induction false} StripRun(s: string, k: CharClass)
    ensures Strip(s, k) == Strip(SkipRun(s, k), k)
    decreases |s|
  {
    if s != [] && InClass(s[0], k) {
      StripRun(s[1..], k);
    }
  }

  /** A character of one part is a character of the concatenation. */
  lemma {:induction false} ConcatMember(parts: seq<string>, i: nat, c: char)
    requires i < |parts| && c in parts[i]
    ensures c in Concat(parts)
    decreases |parts|
  {
    if i > 0 {
      ConcatMember(parts[1..], i - 1, c);
    }
  }

  /** `Strip` only removes characters. */
  lemma {:induction false} StripMember(s: string, k: CharClass, c: char)
    requires c in Strip(s, k)
    ensures c in s
    decreases |s|
  {
    if c != s[0] {
      StripMember(s[1..], k, c);
    }
  }

  /** Splitting on runs loses no character outside the separator class. */
  lemma {:induction false} SplitRunsKeepsText(s: string, k: CharClass)
    ensures Concat(SplitRuns(s, k)) == Strip(s, k)
    decreases |s|
  {
    var n := SegmentEnd(s, k);
    if n == |s| {
      assert s[..n] == s;
      StripFree(s, k);
      assert Concat([s]) == s + Concat([]);
    } else {
      var rest := SkipRun(s[n..], k);
      SplitRunsKeepsText(rest, k);
      StripAtSegment(s, k);
      var r := SplitRuns(s, k);
      assert r == [s[..n]] + SplitRuns(rest, k);
      assert r[1..] == SplitRuns(rest, k);
    }
  }

  /** Stripping a text keeps its first piece whole and drops the run after it. */
  lemma StripAtSegment(s: string, k: CharClass)
    requires SegmentEnd(s, k) < |s|
    ensures var n := SegmentEnd(s, k);
      Strip(s, k) == s[..n] + Strip(SkipRun(s[n..], k), k)
  {
    var n := SegmentEnd(s, k);
    SplitAt(s, n);
    StripAppend(s[..n], s[n..], k);
    StripFree(s[..n], k);
    StripRun(s[n..], k);
  }

  /** ASCII `toLowerCase`. */
  function LowerChar(c: char): char {
    if 'A' <= c <= 'Z' then (c as int + 32) as char else c
  }

  function ToLower(s: string): (r: string)
    ensures |r| == |s| && forall i :: 0 <= i < |s| ==> r[i] == LowerChar(s[i])
  {
    if s == [] then [] else [LowerChar(s[0])] + ToLower(s[1..])
  }

  predicate IsDigit(c: char) {
    '0' <= c <= '9'
  }

  predicate AllDigits(s: string) {
    forall i :: 0 <= i < |s| ==> IsDigit(s[i])
  }

  function DigitChar(d: nat): (c: char)
    requires d < 10
    ensures IsDigit(c)
  {
    (d + '0' as int) as char
  }

  /** The decimal rendering of `n`, as JavaScript's `${n}` writes a non-negative integer. */
  function NatToString(n: nat): (r: string)
    ensures |r| >= 1 && AllDigits(r)
    decreases n
  {
    if n < 10 then [DigitChar(n)] else NatToString(n / 10) + [DigitChar(n % 10)]
  }

  /** The value of a string of decimal digits. */
  function DigitsValue(s: string): nat
    requires AllDigits(s)
  {
    if s == [] then 0 else DigitsValue(s[..|s| - 1]) * 10 + (s[|s| - 1] as int - '0' as int)
  }

  lemma {:induction false} DigitsValueOfNatToString(n: nat)
    ensures DigitsValue(NatToString(n)) == n
    decreases n
  {
    if n >= 10 {
      var r := NatToString(n);
      assert r[..|r| - 1] == NatToString(n / 10);
      DigitsValueOfNatToString(n / 10);
    }
  }
}
