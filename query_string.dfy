/**
 * `updateQueryStringParameter`: insert or replace one `key=value` pair in the
 * query component of a URI.  The source does this with the regular expression
 * `([?&])key=.*?(&|$)` under the `i` flag; this module spells out that regular
 * expression's leftmost-match semantics character by character.
 */
module QueryString {
  import opened Options

  type Text = seq<char>

  /** Case folding applied by the `i` flag (ASCII letters). */
  function Fold(c: char): char {
    if 'a' <= c <= 'z' then (c as int - 32) as char else c
  }

  /** `.` in a JavaScript regular expression matches every character except these. */
  predicate IsLineTerminator(c: char) {
    c == '\n' || c == '\r' || c == '\U{2028}' || c == '\U{2029}'
  }

  /** `s` holds `key`, up to case folding, from index `at` on. */
  predicate KeyAt(s: Text, key: Text, at: nat) {
    at + |key| <= |s| && forall k :: 0 <= k < |key| ==> Fold(s[at + k]) == Fold(key[k])
  }

  /**
   * Where the lazy `.*?(&|$)` that follows `key=` stops when started at `j`:
   * the first `&` or the end of the string, provided no line terminator comes
   * first (then the match attempt at this start position fails).
   */
  function ValueEnd(s: Text, j: nat): (r: Option<nat>)
    requires j <= |s|
    decreases |s| - j
    ensures r.Some? ==> j <= r.value <= |s| && (r.value == |s| || s[r.value] == '&')
  {
    if j == |s| then Some(j)
    else if s[j] == '&' then Some(j)
    else if IsLineTerminator(s[j]) then None
    else ValueEnd(s, j + 1)
  }

  /** The regular expression matches `s` starting at index `i`. */
  predicate MatchesAt(s: Text, key: Text, i: nat) {
    && i + |key| + 2 <= |s|
    && (s[i] == '?' || s[i] == '&')
    && KeyAt(s, key, i + 1)
    && s[i + 1 + |key|] == '='
    && ValueEnd(s, i + |key| + 2).Some?
  }

  /**
   * A match of the regular expression: the index of its leading delimiter and
   * the end of the lazily matched value (where the trailing `&` or the end of
   * the string is).
   */
  datatype Span = Span(start: nat, valueEnd: nat)

  /** The leftmost match starting at or after `from`. */
  function FirstMatch(s: Text, key: Text, from: nat): (r: Option<Span>)
    requires from <= |s|
    decreases |s| - from
    ensures r.Some? ==> from <= r.value.start && r.value.start + |key| + 2 <= r.value.valueEnd <= |s|
  {
    if from == |s| then None
    else if MatchesAt(s, key, from) then Some(Span(from, ValueEnd(s, from + |key| + 2).value))
    else FirstMatch(s, key, from + 1)
  }

  /**
   * The lazy scan stops at the first `&` or at the end of the string, with no
   * line terminator before; it fails exactly when a line terminator comes
   * before any `&`.
   */
  lemma {:induction false} ValueEndStops(s: Text, j: nat)
    requires j <= |s|
    ensures ValueEnd(s, j).Some? ==>
              forall k :: j <= k < ValueEnd(s, j).value ==> s[k] != '&' && !IsLineTerminator(s[k])
    ensures ValueEnd(s, j).None? ==>
              exists k :: j <= k < |s| && IsLineTerminator(s[k]) && forall k' :: j <= k' < k ==> s[k'] != '&'
    decreases |s| - j
  {
    if j < |s| && s[j] != '&' {
      if !IsLineTerminator(s[j]) {
        ValueEndStops(s, j + 1);
        if ValueEnd(s, j).None? {
          var k :| j + 1 <= k < |s| && IsLineTerminator(s[k]) && forall k' :: j + 1 <= k' < k ==> s[k'] != '&';
          assert forall k' :: j <= k' < k ==> s[k'] != '&';
        }
      }
    }
  }

  /** The match found is the leftmost one at or after `from`, and none means no position matches. */
  lemma {:induction false} FirstMatchLeftmost(s: Text, key: Text, from: nat)
    requires from <= |s|
    ensures FirstMatch(s, key, from).Some? ==>
              var m := FirstMatch(s, key, from).value;
              && MatchesAt(s, key, m.start)
              && m.valueEnd == ValueEnd(s, m.start + |key| + 2).value
              && forall j :: from <= j < m.start ==> !MatchesAt(s, key, j)
    ensures FirstMatch(s, key, from).None? ==> forall j :: from <= j < |s| ==> !MatchesAt(s, key, j)
    decreases |s| - from
  {
    if from < |s| && !MatchesAt(s, key, from) {
      FirstMatchLeftmost(s, key, from + 1);
    }
  }

  /** A match with no match before it is the first match. */
  lemma FirstMatchIs(s: Text, key: Text, m: nat)
    requires m < |s| && MatchesAt(s, key, m)
    requires forall j :: 0 <= j < m ==> !MatchesAt(s, key, j)
    ensures FirstMatch(s, key, 0) == Some(Span(m, ValueEnd(s, m + |key| + 2).value))
  {
    FirstMatchLeftmost(s, key, 0);
  }

  /** With no match anywhere there is no first match. */
  lemma FirstMatchNone(s: Text, key: Text)
    requires forall j :: 0 <= j < |s| ==> !MatchesAt(s, key, j)
    ensures FirstMatch(s, key, 0) == None
  {
    FirstMatchLeftmost(s, key, 0);
    if FirstMatch(s, key, 0).Some? {
      assert false;
    }
  }

  /** `'&'` when the URI already holds a `?`, otherwise `'?'`. */
  function Separator(uri: Text): char {
    if '?' in uri then '&' else '?'
  }

  /**
   * node.bittrex.api.js `updateQueryStringParameter`.  When the regular
   * expression matches, its leftmost match is rewritten to `$1key=value$2`:
   * the leading delimiter, the key as given, `=`, the new value and the
   * trailing `&` (or end) are kept, and nothing else of the URI changes.
   * Otherwise `key=value` is appended after the separator.
   */
  function UpdateQueryStringParameter(uri: Text, key: Text, value: Text): Text {
    match FirstMatch(uri, key, 0)
    case Some(m) => Rewrite(uri, key, value, m.start, m.valueEnd)
    case None =>
      Appended(uri, key, value)
  }

  /** `$1key=value$2`: the match from `i` up to `e` replaced, its delimiter and what follows `e` kept. */
  function Rewrite(uri: Text, key: Text, value: Text, i: nat, e: nat): Text
    requires i < e <= |uri|
  {
    uri[..i + 1] + key + "=" + value + uri[e..]
  }

  /** `key=value` appended after the separator. */
  function Appended(uri: Text, key: Text, value: Text): Text {
    uri + [Separator(uri)] + key + "=" + value
  }

  /**
   * The upsert follows the regular expression: the leftmost position where it
   * matches is rewritten; when it matches nowhere the pair is appended.
   */
  lemma UpdateFollowsRegex(uri: Text, key: Text, value: Text)
    ensures forall i: nat :: MatchesAt(uri, key, i) && (forall j :: 0 <= j < i ==> !MatchesAt(uri, key, j)) ==>
              UpdateQueryStringParameter(uri, key, value)
              == Rewrite(uri, key, value, i, ValueEnd(uri, i + |key| + 2).value)
    ensures (forall i :: 0 <= i < |uri| ==> !MatchesAt(uri, key, i)) ==>
              UpdateQueryStringParameter(uri, key, value) == Appended(uri, key, value)
  {
    forall i: nat | MatchesAt(uri, key, i) && (forall j :: 0 <= j < i ==> !MatchesAt(uri, key, j))
      ensures UpdateQueryStringParameter(uri, key, value)
              == Rewrite(uri, key, value, i, ValueEnd(uri, i + |key| + 2).value)
    {
      FirstMatchIs(uri, key, i);
    }
    if forall i :: 0 <= i < |uri| ==> !MatchesAt(uri, key, i) {
      FirstMatchNone(uri, key);
    }
  }

  /** The value the regular expression's leftmost match would capture for `key`. */
  function QueryValue(s: Text, key: Text): Option<Text> {
    match FirstMatch(s, key, 0)
    case Some(m) => Some(s[m.start + |key| + 2..m.valueEnd])
    case None => None
  }

  /** A key the upsert can find again: no delimiter and no line terminator in it. */
  predicate PlainKey(key: Text) {
    forall k :: 0 <= k < |key| ==> key[k] != '?' && key[k] != '&' && !IsLineTerminator(key[k])
  }

  /** A value the lazy `.*?(&|$)` reads back whole. */
  predicate PlainValue(value: Text) {
    forall k :: 0 <= k < |value| ==> value[k] != '&' && !IsLineTerminator(value[k])
  }

  // ---------------------------------------------------------------------------
  // Lemmas about the scan and the upsert
  // ---------------------------------------------------------------------------

  /** Folding changes only lower-case letters, so it never merges a non-letter with another character. */
  lemma FoldKeepsNonLetters(c: char, d: char)
    requires Fold(c) == Fold(d)
    requires !('a' <= c <= 'z') && !('A' <= c <= 'Z')
    ensures c == d
  {
  }

  /** Skipping over characters that are neither `&` nor line terminators does not change where the scan ends. */
  lemma {:induction false} ValueEndSkip(s: Text, p: nat, q: nat)
    requires p <= q <= |s|
    requires forall k :: p <= k < q ==> s[k] != '&' && !IsLineTerminator(s[k])
    ensures ValueEnd(s, p) == ValueEnd(s, q)
    decreases q - p
  {
    if p < q {
      ValueEndSkip(s, p + 1, q);
    }
  }

  /**
   * Two strings that agree up to case folding on `[p, L)` and whose scans both
   * succeed from `L` also agree on whether the scan from `p` succeeds.
   */
  lemma {:induction false} ScanAgrees(s: Text, t: Text, p: nat, L: nat)
    requires p <= L <= |s| && L <= |t|
    requires forall k :: p <= k < L ==> Fold(s[k]) == Fold(t[k])
    requires ValueEnd(s, L).Some? && ValueEnd(t, L).Some?
    ensures ValueEnd(s, p).Some? == ValueEnd(t, p).Some?
    decreases L - p
  {
    if p < L {
      if s[p] == '&' || IsLineTerminator(s[p]) {
        FoldKeepsNonLetters(s[p], t[p]);
      } else if t[p] == '&' || IsLineTerminator(t[p]) {
        FoldKeepsNonLetters(t[p], s[p]);
      } else {
        ScanAgrees(s, t, p + 1, L);
      }
    }
  }

  /**
   * A match of the regular expression at `j` only depends on the characters
   * before `L` (up to case folding), as long as the scan from `L` succeeds on both sides.
   */
  lemma MatchTransfers(s: Text, t: Text, key: Text, j: nat, L: nat)
    requires j + |key| + 2 <= L <= |s| && L <= |t|
    requires forall k :: j <= k < L ==> Fold(s[k]) == Fold(t[k])
    requires s[j] == t[j]
    requires ValueEnd(s, L).Some? && ValueEnd(t, L).Some?
    requires MatchesAt(s, key, j)
    ensures MatchesAt(t, key, j)
  {
    var e := j + 1 + |key|;
    forall k | 0 <= k < |key|
      ensures Fold(t[j + 1 + k]) == Fold(key[k])
    {
      assert Fold(s[j + 1 + k]) == Fold(t[j + 1 + k]);
    }
    FoldKeepsNonLetters(s[e], t[e]);
    ScanAgrees(s, t, j + |key| + 2, L);
  }

  /** The scan from the start of the appended value runs to the end. */
  lemma AppendedValueScan(r: Text, start: nat, value: Text)
    requires start + |value| == |r|
    requires r[start..] == value
    requires PlainValue(value)
    ensures ValueEnd(r, start) == Some(|r|)
  {
    forall k | start <= k < |r|
      ensures r[k] != '&' && !IsLineTerminator(r[k])
    {
      assert r[k] == value[k - start];
    }
    ValueEndSkip(r, start, |r|);
  }

  /** The pieces `Appended` lays out, kept apart for the lemmas below. */
  predicate AppendParts(r: Text, uri: Text, key: Text, value: Text) {
    && |r| == |uri| + |key| + 2 + |value|
    && r[..|uri|] == uri
    && r[|uri|] == Separator(uri)
    && r[|uri| + 1..|uri| + 1 + |key|] == key
    && r[|uri| + 1 + |key|] == '='
    && r[|uri| + |key| + 2..] == value
  }

  lemma AppendedHasParts(uri: Text, key: Text, value: Text)
    ensures AppendParts(Appended(uri, key, value), uri, key, value)
  {
    var r := Appended(uri, key, value);
    var m := |uri|;
    assert r[..m] == uri;
    assert r[m + 1..m + 1 + |key|] == key;
    assert r[m + |key| + 2..] == value;
  }

  /** The appended pair matches, and its value is scanned to the end of the string. */
  lemma AppendedMatch(r: Text, uri: Text, key: Text, value: Text)
    requires AppendParts(r, uri, key, value) && PlainValue(value)
    ensures MatchesAt(r, key, |uri|)
    ensures ValueEnd(r, |uri| + |key| + 2) == Some(|r|)
  {
    AppendedValueScan(r, |uri| + |key| + 2, value);
    SliceKeyAt(r, key, |uri| + 1);
    assert ValueEnd(r, |uri| + |key| + 2).Some?;
    assert r[|uri|] == '?' || r[|uri|] == '&';
  }

  /** A literal copy of the key is the key up to case folding. */
  lemma SliceKeyAt(r: Text, key: Text, at: nat)
    requires at + |key| <= |r| && r[at..at + |key|] == key
    ensures KeyAt(r, key, at)
  {
    forall k | 0 <= k < |key|
      ensures Fold(r[at + k]) == Fold(key[k])
    {
      assert r[at + k] == r[at..at + |key|][k];
    }
  }

  /** The scan that starts at the separator succeeds too. */
  lemma AppendedSeparatorScan(r: Text, uri: Text, key: Text, value: Text)
    requires AppendParts(r, uri, key, value) && PlainKey(key) && PlainValue(value)
    ensures ValueEnd(r, |uri|).Some?
  {
    var m := |uri|;
    if r[m] == '?' {
      forall k | m <= k < m + |key| + 2
        ensures r[k] != '&' && !IsLineTerminator(r[k])
      {
        if m < k < m + 1 + |key| {
          assert r[k] == r[m + 1..m + 1 + |key|][k - m - 1];
        }
      }
      ValueEndSkip(r, m, m + |key| + 2);
      AppendedMatch(r, uri, key, value);
    }
  }

  /** A plain key never spells the separator, so no key read from before the separator runs across it. */
  lemma SeparatorOutsideKey(r: Text, uri: Text, key: Text, value: Text, j: nat)
    requires AppendParts(r, uri, key, value) && PlainKey(key)
    requires j < |uri| < j + 1 + |key|
    ensures Fold(r[j + 1 + (|uri| - j - 1)]) != Fold(key[|uri| - j - 1])
  {
    var x := |uri| - j - 1;
    assert key[x] != '?' && key[x] != '&';
  }

  /** No position inside the original URI matches once the pair is appended. */
  lemma AppendedNoEarlierMatch(r: Text, uri: Text, key: Text, value: Text, j: nat)
    requires AppendParts(r, uri, key, value) && PlainKey(key)
    requires forall i :: 0 <= i < |uri| ==> !MatchesAt(uri, key, i)
    requires ValueEnd(r, |uri|).Some?
    requires j < |uri|
    ensures !MatchesAt(r, key, j)
  {
    var m := |uri|;
    if MatchesAt(r, key, j) {
      if j + |key| + 2 <= m {
        forall k | j <= k < m
          ensures Fold(r[k]) == Fold(uri[k])
        {
          assert r[k] == r[..m][k];
        }
        assert r[j] == r[..m][j];
        assert ValueEnd(uri, m) == Some(m);
        MatchTransfers(r, uri, key, j, m);
        assert false;
      } else if j + 1 + |key| == m {
        assert false;
      } else {
        SeparatorOutsideKey(r, uri, key, value, j);
        assert false;
      }
    }
  }

  /** Append case: no position of `uri` matches, so the first match of the result is the appended pair. */
  lemma AppendLocates(uri: Text, key: Text, value: Text)
    requires PlainKey(key) && PlainValue(value)
    requires forall i :: 0 <= i < |uri| ==> !MatchesAt(uri, key, i)
    ensures FirstMatch(Appended(uri, key, value), key, 0) == Some(Span(|uri|, |Appended(uri, key, value)|))
  {
    var r := Appended(uri, key, value);
    AppendedHasParts(uri, key, value);
    AppendedMatch(r, uri, key, value);
    AppendedSeparatorScan(r, uri, key, value);
    forall j | 0 <= j < |uri|
      ensures !MatchesAt(r, key, j)
    {
      AppendedNoEarlierMatch(r, uri, key, value, j);
    }
    FirstMatchIs(r, key, |uri|);
  }

  /** The string the replace branch builds, its parts kept apart for the lemmas below. */
  predicate IsReplacement(r: Text, uri: Text, key: Text, value: Text, i: nat, e: nat) {
    && i + |key| + 2 <= e <= |uri|
    && r == uri[..i + 1] + key + "=" + value + uri[e..]
  }

  /** In the replace branch the new value is scanned to its end, then the old tail takes over. */
  lemma ReplacedValueScan(r: Text, uri: Text, key: Text, value: Text, i: nat, e: nat)
    requires IsReplacement(r, uri, key, value, i, e)
    requires PlainValue(value)
    requires e == |uri| || uri[e] == '&'
    ensures ValueEnd(r, i + |key| + 2) == Some(i + |key| + 2 + |value|)
  {
    var L := i + |key| + 2;
    var vEnd := L + |value|;
    assert |r| == vEnd + |uri| - e;
    forall k | L <= k < vEnd
      ensures r[k] != '&' && !IsLineTerminator(r[k])
    {
      assert r[k] == value[k - L];
    }
    ValueEndSkip(r, L, vEnd);
    if e < |uri| {
      assert r[vEnd] == uri[e];
    }
  }

  /** The replace branch leaves the string before the old value equal up to case folding. */
  lemma ReplacedPrefixFolds(r: Text, uri: Text, key: Text, value: Text, i: nat, e: nat)
    requires IsReplacement(r, uri, key, value, i, e)
    requires KeyAt(uri, key, i + 1) && uri[i + 1 + |key|] == '='
    ensures forall k :: 0 <= k < i + |key| + 2 ==> Fold(r[k]) == Fold(uri[k])
    ensures r[..i + 1] == uri[..i + 1]
    ensures r[i + 1..i + 1 + |key|] == key && r[i + 1 + |key|] == '='
  {
    forall k | 0 <= k < i + |key| + 2
      ensures Fold(r[k]) == Fold(uri[k])
    {
      if k <= i {
        assert r[k] == uri[k];
      } else if k < i + 1 + |key| {
        assert r[k] == key[k - i - 1];
        assert uri[i + 1 + (k - i - 1)] == uri[k];
      } else {
        assert r[k] == '=';
      }
    }
    assert r[i + 1..i + 1 + |key|] == key;
  }

  /** Replace case: the rewritten pair sits where the old one was, and it is still the first match. */
  lemma ReplaceLocates(r: Text, uri: Text, key: Text, value: Text, i: nat, e: nat)
    requires PlainValue(value)
    requires MatchesAt(uri, key, i)
    requires forall j :: 0 <= j < i ==> !MatchesAt(uri, key, j)
    requires e == ValueEnd(uri, i + |key| + 2).value
    requires IsReplacement(r, uri, key, value, i, e)
    ensures FirstMatch(r, key, 0) == Some(Span(i, i + |key| + 2 + |value|))
  {
    var L := i + |key| + 2;
    ReplacedValueScan(r, uri, key, value, i, e);
    ReplacedPrefixFolds(r, uri, key, value, i, e);
    assert r[i] == uri[i];
    assert MatchesAt(r, key, i);
    forall j | 0 <= j < i
      ensures !MatchesAt(r, key, j)
    {
      if MatchesAt(r, key, j) {
        assert r[j] == uri[j];
        MatchTransfers(r, uri, key, j, L);
        assert false;
      }
    }
    FirstMatchIs(r, key, i);
  }

  /** Where the first match of `r` sits and what it holds. */
  predicate LocatedAt(r: Text, key: Text, value: Text, m: nat) {
    && FirstMatch(r, key, 0) == Some(Span(m, m + |key| + 2 + |value|))
    && r[m + 1..m + 1 + |key|] == key
    && r[m + 1 + |key|] == '='
    && r[m + |key| + 2..m + |key| + 2 + |value|] == value
  }

  lemma AppendShape(r: Text, uri: Text, key: Text, value: Text)
    requires PlainKey(key) && PlainValue(value)
    requires forall i :: 0 <= i < |uri| ==> !MatchesAt(uri, key, i)
    requires r == Appended(uri, key, value)
    ensures LocatedAt(r, key, value, |uri|)
  {
    AppendLocates(uri, key, value);
    AppendedHasParts(uri, key, value);
    var m := |uri|;
    assert r[m + |key| + 2..m + |key| + 2 + |value|] == r[m + |key| + 2..];
  }

  lemma ReplaceShape(r: Text, uri: Text, key: Text, value: Text, i: nat, e: nat)
    requires PlainValue(value)
    requires MatchesAt(uri, key, i)
    requires forall j :: 0 <= j < i ==> !MatchesAt(uri, key, j)
    requires e == ValueEnd(uri, i + |key| + 2).value
    requires IsReplacement(r, uri, key, value, i, e)
    ensures LocatedAt(r, key, value, i)
  {
    ReplaceLocates(r, uri, key, value, i, e);
    ReplacedPrefixFolds(r, uri, key, value, i, e);
    assert r[i + |key| + 2..i + |key| + 2 + |value|] == value;
  }

  /**
   * Whichever branch the upsert takes, the result holds `key=value` as its
   * first match: the key written as given, followed by exactly `value`.
   */
  lemma UpdateLocates(uri: Text, key: Text, value: Text) returns (m: nat)
    requires PlainKey(key) && PlainValue(value)
    ensures LocatedAt(UpdateQueryStringParameter(uri, key, value), key, value, m)
  {
    var r := UpdateQueryStringParameter(uri, key, value);
    FirstMatchLeftmost(uri, key, 0);
    match FirstMatch(uri, key, 0)
    case Some(f) =>
      m := f.start;
      assert IsReplacement(r, uri, key, value, m, f.valueEnd);
      ReplaceShape(r, uri, key, value, m, f.valueEnd);
    case None =>
      m := |uri|;
      AppendShape(r, uri, key, value);
  }

  /** Read-back: after the upsert, the regular expression finds `key` and captures exactly `value`. */
  lemma UpdateThenRead(uri: Text, key: Text, value: Text)
    requires PlainKey(key) && PlainValue(value)
    ensures QueryValue(UpdateQueryStringParameter(uri, key, value), key) == Some(value)
  {
    var m := UpdateLocates(uri, key, value);
  }

  /** Cutting a located pair out of a string and putting it back gives the string. */
  lemma Reassemble(r: Text, key: Text, value: Text, m: nat)
    requires m + |key| + 2 + |value| <= |r|
    requires r[m + 1..m + 1 + |key|] == key && r[m + 1 + |key|] == '='
    requires r[m + |key| + 2..m + |key| + 2 + |value|] == value
    ensures Rewrite(r, key, value, m, m + |key| + 2 + |value|) == r
  {
    var vEnd := m + |key| + 2 + |value|;
    assert r == r[..m + 1] + r[m + 1..m + 1 + |key|] + r[m + 1 + |key|..m + |key| + 2]
                + r[m + |key| + 2..vEnd] + r[vEnd..];
  }

  /** Upserting the same pair twice is the same as upserting it once: no second `key=` is added. */
  lemma UpdateIdempotent(uri: Text, key: Text, value: Text)
    requires PlainKey(key) && PlainValue(value)
    ensures var r := UpdateQueryStringParameter(uri, key, value);
      UpdateQueryStringParameter(r, key, value) == r
  {
    var r := UpdateQueryStringParameter(uri, key, value);
    var m := UpdateLocates(uri, key, value);
    Reassemble(r, key, value, m);
  }

  /** The upsert never yields the empty string (the `params || uri` test in the caller relies on this). */
  lemma UpdateNonEmpty(uri: Text, key: Text, value: Text)
    ensures |UpdateQueryStringParameter(uri, key, value)| >= |key| + 2
  {
    match FirstMatch(uri, key, 0)
    case Some(m) =>
    case None =>
  }
}
