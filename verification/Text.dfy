/** The string operations the program takes from Go's standard library, with the facts about
    them the other modules need: substring search, replacement, decimal integers, sorting. */
module Text {
  datatype Option<+T> = None | Some(value: T)

  predicate OccursAt(s: string, sub: string, i: int) {
    0 <= i <= |s| - |sub| && s[i..i + |sub|] == sub
  }

  /** strings.Contains. */
  predicate Contains(s: string, sub: string) {
    exists i :: 0 <= i <= |s| - |sub| && OccursAt(s, sub, i)
  }

  lemma ContainsMiddle(pre: string, sub: string, post: string)
    ensures Contains(pre + sub + post, sub)
  {
    var s := pre + sub + post;
    assert OccursAt(s, sub, |pre|);
  }

  /** strings.Replace(s, old, replacement, 1). */
  function ReplaceFirst(s: string, old': string, replacement: string): string {
    if old' <= s then replacement + s[|old'|..]
    else if s == "" then s
    else [s[0]] + ReplaceFirst(s[1..], old', replacement)
  }

  /** strings.Replace(s, [from], [to], -1) for single characters. */
  function ReplaceAll(s: string, from: char, to: char): (r: string)
    ensures |r| == |s|
    ensures forall i :: 0 <= i < |s| ==> r[i] == if s[i] == from then to else s[i]
  {
    seq(|s|, i requires 0 <= i < |s| => if s[i] == from then to else s[i])
  }

  /** strings.TrimSuffix. */
  function TrimSuffix(s: string, suffix: string): string {
    if |suffix| <= |s| && s[|s| - |suffix|..] == suffix then s[..|s| - |suffix|] else s
  }

  /** strings.Split on a single-character separator: always at least one part. */
  function Split(s: string, sep: char): (parts: seq<string>)
    ensures |parts| >= 1
  {
    if s == "" then [""]
    else
      var rest := Split(s[1..], sep);
      if s[0] == sep then [""] + rest else [[s[0]] + rest[0]] + rest[1..]
  }

  predicate Free(s: string, c: char) {
    forall i :: 0 <= i < |s| ==> s[i] != c
  }

  lemma {:induction false} SplitHead(head: string, rest: string, sep: char)
    requires Free(head, sep)
    requires rest == "" || rest[0] == sep
    ensures Split(head + rest, sep) == [head] + Split(rest, sep)[1..]
  {
    if head == "" {
      assert head + rest == rest;
    } else {
      assert (head + rest)[1..] == head[1..] + rest;
      SplitHead(head[1..], rest, sep);
      assert [head[0]] + head[1..] == head;
    }
  }

  lemma SplitCons(head: string, rest: string, sep: char)
    requires Free(head, sep)
    ensures Split(head, sep) == [head]
    ensures Split(head + [sep] + rest, sep) == [head] + Split(rest, sep)
  {
    SplitHead(head, "", sep);
    assert head + "" == head;
    SplitHead(head, [sep] + rest, sep);
    assert head + ([sep] + rest) == head + [sep] + rest;
    assert ([sep] + rest)[1..] == rest;
  }

  /* ---- decimal integers ---- */

  const TWO_TO_63: int := 0x8000_0000_0000_0000
  const TWO_TO_64: int := 0x1_0000_0000_0000_0000

  predicate IsDigit(c: char) { '0' <= c <= '9' }

  function DigitValue(c: char): nat
    requires IsDigit(c)
  {
    assert '0' <= c;
    c as int - 48
  }

  function DigitsValue(s: string): (v: nat)
    requires forall i :: 0 <= i < |s| ==> IsDigit(s[i])
  {
    if s == "" then 0
    else 10 * DigitsValue(s[..|s| - 1]) + DigitValue(s[|s| - 1])
  }

  /** strconv.ParseInt(s, 10, 64): an optional sign, at least one digit, and the int64 range. */
  function ParseInt64(s: string): Option<int> {
    if s == "" then None
    else
      var signed := s[0] == '+' || s[0] == '-';
      var digits := if signed then s[1..] else s;
      if digits == "" || exists i :: 0 <= i < |digits| && !IsDigit(digits[i]) then None
      else
        var v := DigitsValue(digits);
        if s[0] == '-' then (if v > TWO_TO_63 then None else Some(0 - v as int))
        else if v >= TWO_TO_63 then None
        else Some(v)
  }

  /** strconv.FormatUint(n, 10). */
  function FormatUint(n: nat): (s: string)
    ensures s != "" && forall i :: 0 <= i < |s| ==> IsDigit(s[i])
  {
    var last := [(48 + n % 10) as char];
    if n < 10 then last else FormatUint(n / 10) + last
  }

  lemma {:induction false} FormatValue(n: nat)
    ensures DigitsValue(FormatUint(n)) == n
  {
    var s := FormatUint(n);
    if n >= 10 {
      FormatValue(n / 10);
      assert s[..|s| - 1] == FormatUint(n / 10);
    } else {
      assert s[..|s| - 1] == "";
    }
  }

  /** A version the tracker writes is read back by the snapshot, as long as it fits an int64. */
  lemma ParseFormat(n: nat)
    ensures ParseInt64(FormatUint(n)) == if n < TWO_TO_63 then Some(n) else None
  {
    FormatValue(n);
    assert IsDigit(FormatUint(n)[0]);
  }

  /** One sign is read, and the int64 range is checked. */
  lemma ParseSigned(digits: string)
    requires digits != "" && forall i :: 0 <= i < |digits| ==> IsDigit(digits[i])
    ensures var v: int := DigitsValue(digits);
            && ParseInt64(digits) == (if v <= 0x7fff_ffff_ffff_ffff then Some(v) else None)
            && ParseInt64("+" + digits) == ParseInt64(digits)
            && ParseInt64("-" + digits) == (if v <= 0x8000_0000_0000_0000 then Some(0 - v) else None)
  {
    assert ("+" + digits)[1..] == digits && ("-" + digits)[1..] == digits;
    assert IsDigit(digits[0]);
  }

  /* ---- byte-wise string order and sorting ---- */

  predicate LexLess(a: string, b: string) {
    b != "" && (a == "" || a[0] < b[0] || (a[0] == b[0] && LexLess(a[1..], b[1..])))
  }

  lemma {:induction false} LexTrichotomy(a: string, b: string)
    ensures LexLess(a, b) || a == b || LexLess(b, a)
    ensures !(LexLess(a, b) && LexLess(b, a))
    ensures !LexLess(a, a)
  {
    if a != "" { LexTrichotomy(a[1..], a[1..]); }
    if a != "" && b != "" && a[0] == b[0] {
      LexTrichotomy(a[1..], b[1..]);
      if a[1..] == b[1..] { assert a == [a[0]] + a[1..] == b; }
    }
  }

  lemma {:induction false} LexTransitive(a: string, b: string, c: string)
    requires LexLess(a, b) && LexLess(b, c)
    ensures LexLess(a, c)
  {
    if a != "" && a[0] == b[0] && b[0] == c[0] {
      LexTransitive(a[1..], b[1..], c[1..]);
    }
  }

  /** A proper prefix comes first. */
  lemma {:induction false} LexPrefix(a: string, b: string)
    requires a < b
    ensures LexLess(a, b)
  {
    if a != "" { LexPrefix(a[1..], b[1..]); }
  }

  /** Where two texts first differ the smaller character decides, or the shorter text ends there. */
  predicate LessAt(a: string, b: string, i: int) {
    && 0 <= i <= |a| && i < |b| && a[..i] == b[..i] && (i == |a| || a[i] < b[i])
  }

  lemma {:induction false} LexMeans(a: string, b: string)
    ensures LexLess(a, b) <==> exists i :: LessAt(a, b, i)
  {
    forall i | 0 < i <= |a| && i <= |b| && a[..i] == b[..i] ensures a[0] == b[0] {
      assert a[..i][0] == a[0] && b[..i][0] == b[0];
    }
    if a != "" && b != "" && a[0] == b[0] {
      LexMeans(a[1..], b[1..]);
      if i :| LessAt(a[1..], b[1..], i) {
        assert a[..i + 1] == [a[0]] + a[1..][..i] && b[..i + 1] == [b[0]] + b[1..][..i];
        assert LessAt(a, b, i + 1);
      }
      if i :| LessAt(a, b, i) {
        assert i > 0;
        assert a[1..][..i - 1] == a[..i][1..] && b[1..][..i - 1] == b[..i][1..];
        assert LessAt(a[1..], b[1..], i - 1);
      }
    } else {
      assert LexLess(a, b) ==> LessAt(a, b, 0);
    }
  }

  predicate Sorted(s: seq<string>) {
    forall i, j :: 0 <= i < j < |s| ==> !LexLess(s[j], s[i])
  }

  function Insert(s: seq<string>, x: string): (r: seq<string>)
    ensures multiset(r) == multiset(s) + multiset{x}
    ensures |r| == |s| + 1
  {
    if s == [] then [x]
    else if LexLess(s[0], x) then
      assert s == [s[0]] + s[1..];
      [s[0]] + Insert(s[1..], x)
    else [x] + s
  }

  /** sort.Strings. */
  function SortStrings(s: seq<string>): (r: seq<string>)
    ensures multiset(r) == multiset(s)
    ensures |r| == |s|
  {
    if s == [] then []
    else
      assert s == [s[0]] + s[1..];
      Insert(SortStrings(s[1..]), s[0])
  }

  lemma NotLessTransitive(a: string, b: string, c: string)
    requires !LexLess(b, a) && !LexLess(c, b)
    ensures !LexLess(c, a)
  {
    LexTrichotomy(a, b);
    LexTrichotomy(b, c);
    LexTrichotomy(a, c);
    if LexLess(a, b) && LexLess(b, c) { LexTransitive(a, b, c); }
  }

  lemma {:induction false} InsertSorted(s: seq<string>, x: string)
    requires Sorted(s)
    ensures Sorted(Insert(s, x))
  {
    if s != [] {
      if LexLess(s[0], x) {
        var r := Insert(s[1..], x);
        InsertSorted(s[1..], x);
        LexTrichotomy(s[0], x);
        forall j | 0 <= j < |r| ensures !LexLess(r[j], s[0]) {
          assert r[j] in multiset(r);
          assert r[j] == x || r[j] in s[1..];
        }
      } else {
        forall j | 0 <= j < |s| ensures !LexLess(s[j], x) {
          if j > 0 { NotLessTransitive(x, s[0], s[j]); }
        }
      }
    }
  }

  lemma {:induction false} SortSorted(s: seq<string>)
    ensures Sorted(SortStrings(s))
  {
    if s != [] {
      SortSorted(s[1..]);
      InsertSorted(SortStrings(s[1..]), s[0]);
    }
  }

  /** Two sorted sequences with the same elements are the same sequence. */
  lemma {:induction false} SortedUnique(a: seq<string>, b: seq<string>)
    requires Sorted(a) && Sorted(b) && multiset(a) == multiset(b)
    ensures a == b
  {
    if a == [] {
      assert |multiset(b)| == 0;
    } else {
      assert a[0] in multiset(b) && a[0] in b;
      assert b[0] in multiset(a) && b[0] in a;
      LexTrichotomy(a[0], b[0]);
      assert a == [a[0]] + a[1..] && b == [b[0]] + b[1..];
      assert multiset(a[1..]) == multiset(a) - multiset{a[0]};
      SortedUnique(a[1..], b[1..]);
    }
  }
}
