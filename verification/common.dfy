/** Shared vocabulary for the whole model: an optional value, the character
    classes the pages test with regular expressions, JavaScript's `trim`,
    `toLowerCase`, `includes` and `indexOf`, and order-preserving filtering. */
module Common {

  /** `null` / `undefined` versus a present value. */
  datatype Option<T> = None | Some(value: T)

  /** JavaScript truthiness of an optional string: present and non-empty. */
  predicate Truthy(p: Option<string>) {
    p.Some? && p.value != ""
  }

  /** `value || ''` on an optional string: null and the empty string both
      become the empty string. */
  function OrEmpty(s: Option<string>): string {
    if s.Some? then s.value else ""
  }

  // ---------------------------------------------------------------------------
  // Character classes
  // ---------------------------------------------------------------------------

  /** The JavaScript `\s` class, which is also the set `String.prototype.trim`
      strips: the ECMAScript WhiteSpace and LineTerminator code points. */
  predicate IsJsWhitespace(c: char) {
    var n := c as int;
    || n == 0x09 || n == 0x0A || n == 0x0B || n == 0x0C || n == 0x0D
    || n == 0x20 || n == 0xA0 || n == 0x1680
    || (0x2000 <= n <= 0x200A)
    || n == 0x2028 || n == 0x2029 || n == 0x202F || n == 0x205F
    || n == 0x3000 || n == 0xFEFF
  }

  /** `[A-Za-z]` */
  predicate IsAsciiLetter(c: char) {
    ('A' <= c <= 'Z') || ('a' <= c <= 'z')
  }

  /** `[A-Z]` */
  predicate IsUpper(c: char) {
    'A' <= c <= 'Z'
  }

  /** `[0-9]` */
  predicate IsDigit(c: char) {
    '0' <= c <= '9'
  }

  /** `s.length`: JavaScript counts UTF-16 code units, so a character outside
      the Basic Multilingual Plane counts twice. */
  function Utf16Length(s: string): (n: nat)
    ensures |s| <= n <= 2 * |s|
    ensures (forall i :: 0 <= i < |s| ==> (s[i] as int) < 0x10000) ==> n == |s|
  {
    if s == [] then 0 else (if (s[0] as int) < 0x10000 then 1 else 2) + Utf16Length(s[1..])
  }

  /** True when every character of `s` is whitespace (so `s.trim()` is empty). */
  predicate IsBlank(s: string) {
    forall i :: 0 <= i < |s| ==> IsJsWhitespace(s[i])
  }

  // ---------------------------------------------------------------------------
  // String.prototype.trim
  // ---------------------------------------------------------------------------

  /** The index of the first non-whitespace character at or after `from`,
      or `|s|` when there is none. */
  function FirstVisible(s: string, from: nat): (i: nat)
    requires from <= |s|
    ensures from <= i <= |s|
    ensures forall j :: from <= j < i ==> IsJsWhitespace(s[j])
    ensures i < |s| ==> !IsJsWhitespace(s[i])
    decreases |s| - from
  {
    if from == |s| || !IsJsWhitespace(s[from]) then from else FirstVisible(s, from + 1)
  }

  /** The end of the last non-whitespace character before `upto` and not
      before `lo`, or `lo` when there is none. */
  function EndVisible(s: string, lo: nat, upto: nat): (j: nat)
    requires lo <= upto <= |s|
    ensures lo <= j <= upto
    ensures forall m :: j <= m < upto ==> IsJsWhitespace(s[m])
    ensures j > lo ==> !IsJsWhitespace(s[j - 1])
    decreases upto
  {
    if upto == lo || !IsJsWhitespace(s[upto - 1]) then upto else EndVisible(s, lo, upto - 1)
  }

  /** Where `trim` starts: every character before is whitespace, and the one
      there, if any, is not. */
  function TrimLo(s: string): (lo: nat)
    ensures lo <= |s|
    ensures forall j :: 0 <= j < lo ==> IsJsWhitespace(s[j])
    ensures lo < |s| ==> !IsJsWhitespace(s[lo])
  {
    FirstVisible(s, 0)
  }

  /** Where `trim` ends: every character from there on is whitespace, and the
      kept part, if any, ends with one that is not. */
  function TrimHi(s: string): (hi: nat)
    ensures TrimLo(s) <= hi <= |s|
    ensures forall m :: hi <= m < |s| ==> IsJsWhitespace(s[m])
    ensures hi > TrimLo(s) ==> !IsJsWhitespace(s[hi - 1])
  {
    EndVisible(s, TrimLo(s), |s|)
  }

  /** `s.trim()`: `s` without its leading and its trailing whitespace. */
  function Trim(s: string): string {
    s[TrimLo(s)..TrimHi(s)]
  }

  /** `!s.trim()` holds exactly when `s` consists of whitespace only. */
  lemma TrimEmptyIffBlank(s: string)
    ensures Trim(s) == [] <==> IsBlank(s)
  {
    var lo, hi := TrimLo(s), TrimHi(s);
    assert |Trim(s)| == hi - lo;
    if lo < hi {
      assert !IsJsWhitespace(s[lo]);
    }
  }

  /** A string made of blanks, a part that starts and ends with a visible
      character, and blanks, trims to that part. */
  lemma TrimOfPadded(s: string, i: nat, j: nat)
    requires i < j <= |s|
    requires IsBlank(s[..i]) && IsBlank(s[j..])
    requires !IsJsWhitespace(s[i]) && !IsJsWhitespace(s[j - 1])
    ensures Trim(s) == s[i..j]
  {
    assert forall m :: 0 <= m < i ==> s[..i][m] == s[m];
    assert forall m :: j <= m < |s| ==> s[j..][m - j] == s[m];
    assert TrimLo(s) == i;
    assert TrimHi(s) == j;
  }

  /** What `trim` keeps lies between whitespace-only margins. */
  lemma TrimMargins(s: string)
    ensures IsBlank(s[..TrimLo(s)]) && IsBlank(s[TrimHi(s)..])
  {
    var lo, hi := TrimLo(s), TrimHi(s);
    assert forall m :: 0 <= m < lo ==> s[..lo][m] == s[m];
    assert forall m :: 0 <= m < |s| - hi ==> s[hi..][m] == s[hi + m];
  }

  // ---------------------------------------------------------------------------
  // Case mapping, substring and index search
  // ---------------------------------------------------------------------------

  /** `c.toLowerCase()` restricted to ASCII: only `A`..`Z` change. */
  function LowerChar(c: char): char {
    if 'A' <= c <= 'Z' then (c as int + 32) as char else c
  }

  /** `s.toLowerCase()` restricted to ASCII letters. */
  function ToLower(s: string): (r: string)
    ensures |r| == |s|
    ensures forall i :: 0 <= i < |s| ==> r[i] == LowerChar(s[i])
  {
    seq(|s|, i requires 0 <= i < |s| => LowerChar(s[i]))
  }

  /** `t` occurs in `s` starting at index `i`. */
  predicate OccursAt(s: string, t: string, i: int) {
    0 <= i && i + |t| <= |s| && s[i..i + |t|] == t
  }

  /** `s.includes(t)` */
  predicate Contains(s: string, t: string) {
    exists i :: 0 <= i <= |s| - |t| && OccursAt(s, t, i)
  }

  /** `s.indexOf(c)` for a one-character needle: the first index holding `c`,
      or -1 when there is none. */
  function IndexOfChar(s: string, c: char): (r: int)
    ensures -1 <= r < |s|
    ensures r == -1 <==> c !in s
    ensures r >= 0 ==> s[r] == c && c !in s[..r]
  {
    if |s| == 0 then -1
    else if s[0] == c then 0
    else
      var k := IndexOfChar(s[1..], c);
      assert s[1..] == s[..|s|][1..];
      if k == -1 then -1
      else
        assert s[..k + 1] == [s[0]] + s[1..][..k];
        k + 1
  }

  /** No element occurs twice; an insertion-ordered JavaScript `Set` is kept
      as such a list. */
  predicate Distinct<T(==)>(s: seq<T>) {
    forall i, j :: 0 <= i < j < |s| ==> s[i] != s[j]
  }

  // ---------------------------------------------------------------------------
  // Array.prototype.filter
  // ---------------------------------------------------------------------------

  /** `r` is obtained from `s` by deleting elements, keeping the rest in order. */
  ghost predicate Subsequence<T>(r: seq<T>, s: seq<T>)
    decreases |s|
  {
    if r == [] then true
    else if s == [] then false
    else (r[0] == s[0] && Subsequence(r[1..], s[1..])) || Subsequence(r, s[1..])
  }

  /** `s.filter(keep)`: the elements satisfying `keep`, in their original order. */
  function Filter<T>(s: seq<T>, keep: T -> bool): (r: seq<T>)
    ensures |r| <= |s|
    ensures forall i :: 0 <= i < |r| ==> r[i] in s && keep(r[i])
    ensures forall i :: 0 <= i < |s| && keep(s[i]) ==> s[i] in r
    ensures Subsequence(r, s)
  {
    if s == [] then []
    else
      var rest := Filter(s[1..], keep);
      if keep(s[0]) then [s[0]] + rest else rest
  }

  /** `filter` keeps each passing element as often as it occurs and drops
      every occurrence of the others. */
  lemma {:induction false} FilterCounts<T>(s: seq<T>, keep: T -> bool, x: T)
    ensures multiset(Filter(s, keep))[x] == if keep(x) then multiset(s)[x] else 0
    decreases |s|
  {
    if s != [] {
      FilterCounts(s[1..], keep, x);
      assert s == [s[0]] + s[1..];
      var rest := Filter(s[1..], keep);
      if keep(s[0]) {
        assert multiset([s[0]] + rest) == multiset{s[0]} + multiset(rest);
      }
    }
  }

  /** `FilterCounts` for every element at once. */
  lemma FilterCountsAll<T>(s: seq<T>, keep: T -> bool)
    ensures forall x :: multiset(Filter(s, keep))[x] == if keep(x) then multiset(s)[x] else 0
  {
    forall x ensures multiset(Filter(s, keep))[x] == if keep(x) then multiset(s)[x] else 0 {
      FilterCounts(s, keep, x);
    }
  }
}
