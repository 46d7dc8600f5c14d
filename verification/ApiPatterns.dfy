/** What the patterns of a preference mean (restore_pref.go:14-26): a pattern without a comma is a
    beginning of the path, one with a single comma a beginning and a part, any other fits nothing. */
module ApiPatterns {
  import opened Text
  import opened RestorePreference

  /** The pattern has one comma, at position i; the path begins with what is before it and contains
      what is after it. */
  predicate FitsAround(path: string, pattern: string, i: int)
    requires 0 <= i < |pattern|
  {
    && pattern[i] == ',' && Free(pattern[..i], ',') && Free(pattern[i + 1..], ',')
    && pattern[..i] <= path && Contains(path, pattern[i + 1..])
  }

  predicate FitsPattern(path: string, pattern: string) {
    || (Free(pattern, ',') && pattern <= path)
    || exists i :: 0 <= i < |pattern| && FitsAround(path, pattern, i)
  }

  predicate FitsAny(path: string, patterns: seq<string>) {
    exists p :: p in patterns && FitsPattern(path, p)
  }

  /** The path contains one of the words, directly after this text. */
  predicate Mentions(path: string, before: string, words: seq<string>) {
    exists w :: w in words && Contains(path, before + w)
  }

  /** A pattern without a comma. */
  lemma PrefixPattern(path: string, a: string)
    requires Free(a, ',')
    ensures ApiPathMatched(path, a) <==> a <= path
  {
    SplitCons(a, "", ',');
  }

  /** A pattern with one comma. */
  lemma PairPattern(path: string, a: string, b: string)
    requires Free(a, ',') && Free(b, ',')
    ensures ApiPathMatched(path, a + "," + b) <==> a <= path && Contains(path, b)
  {
    SplitCons(a, b, ',');
    SplitCons(b, "", ',');
  }

  /** A pattern with more commas. */
  lemma LongPattern(path: string, a: string, b: string, c: string)
    requires Free(a, ',') && Free(b, ',')
    ensures !ApiPathMatched(path, a + "," + (b + "," + c))
  {
    SplitCons(a, b + "," + c, ',');
    SplitCons(b, c, ',');
  }

  /** Where a text has its first comma, if it has one. */
  lemma {:induction false} FirstComma(s: string) returns (i: nat)
    ensures i <= |s| && Free(s[..i], ',') && (i < |s| ==> s[i] == ',')
  {
    if s == "" || s[0] == ',' {
      i := 0;
    } else {
      i := FirstComma(s[1..]);
      i := i + 1;
      assert forall k :: 0 < k < i ==> s[k] == s[1..][..i - 1][k - 1];
    }
  }

  lemma PatternMeans(path: string, pattern: string)
    ensures ApiPathMatched(path, pattern) <==> FitsPattern(path, pattern)
  {
    var i := FirstComma(pattern);
    var a := pattern[..i];
    if i == |pattern| {
      assert a == pattern;
      PrefixPattern(path, pattern);
    } else {
      var rest := pattern[i + 1..];
      assert pattern == a + "," + rest;
      var j := FirstComma(rest);
      if j == |rest| {
        assert rest[..j] == rest;
        PairPattern(path, a, rest);
        assert FitsAround(path, pattern, i) <==> a <= path && Contains(path, rest);
      } else {
        assert rest == rest[..j] + "," + rest[j + 1..];
        LongPattern(path, a, rest[..j], rest[j + 1..]);
        assert pattern[i + 1 + j] == ',';
      }
    }
    assert forall k :: 0 <= k < |pattern| && FitsAround(path, pattern, k) ==> k == i by { OneComma(pattern, i); }
  }

  lemma OneComma(pattern: string, i: nat)
    requires i <= |pattern| && Free(pattern[..i], ',') && (i < |pattern| ==> pattern[i] == ',')
    ensures forall k :: 0 <= k < |pattern| && pattern[k] == ',' && Free(pattern[..k], ',') ==> k == i
  {
    assert forall k :: 0 <= k < i ==> pattern[..i][k] == pattern[k];
    assert forall k :: i < k < |pattern| ==> pattern[..k][i] == pattern[i];
  }

  lemma AnyMeans(path: string, patterns: seq<string>)
    ensures MatchesAny(path, patterns) <==> FitsAny(path, patterns)
  {
    hide ApiPathMatched, FitsPattern;
    forall p ensures ApiPathMatched(path, p) <==> FitsPattern(path, p) { PatternMeans(path, p); }
  }

  lemma MentionMeans(path: string, before: string, words: seq<string>)
    ensures ContainsAny(path, before, words) <==> Mentions(path, before, words)
  {
    hide Contains;
  }
}
