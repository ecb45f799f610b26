/**
 * Removal of the assistant's citation markers from a reply, as app.py does with
 * `re.sub(r'【\d+:.*?†.*?】', '', text)`: markers are removed left to right without
 * overlap, everything else is kept in order, and nothing is trimmed.
 */
module Citations {
  import opened Common

  const Open: char := '【'
  const Dagger: char := '†'
  const Close: char := '】'

  /** `\d`, read as the ASCII digits. */
  predicate IsDigit(c: char)
  {
    '0' <= c <= '9'
  }

  /** First index at or after j that does not hold a digit (|s| if none): where `\d+` stops. */
  function DigitsEnd(s: string, j: nat): (k: nat)
    requires j <= |s|
    ensures j <= k <= |s|
    ensures forall t :: j <= t < k ==> IsDigit(s[t])
    ensures k < |s| ==> !IsDigit(s[k])
    decreases |s| - j
  {
    if j < |s| && IsDigit(s[j]) then DigitsEnd(s, j + 1) else j
  }

  /** First index at or after j holding `stop` or a newline (|s| if none): where a
      lazy `.*?` followed by `stop` can first succeed, since `.` excludes newline. */
  function ScanTo(s: string, j: nat, stop: char): (k: nat)
    requires j <= |s|
    ensures j <= k <= |s|
    ensures forall t :: j <= t < k ==> s[t] != stop && s[t] != '\n'
    ensures k < |s| ==> s[k] == stop || s[k] == '\n'
    decreases |s| - j
  {
    if j < |s| && s[j] != stop && s[j] != '\n' then ScanTo(s, j + 1, stop) else j
  }

  /** End (exclusive) of the marker the pattern matches at index i, if it matches there. */
  function MarkerEnd(s: string, i: nat): (r: Option<nat>)
    requires i <= |s|
    ensures r.Some? ==> i < r.value <= |s|
  {
    if i < |s| && s[i] == Open then MarkerEndAfterOpen(s, i) else None
  }

  /** The rest of the match once `【` is seen at i: `\d+`, then `:`, then `.*?†`, then `.*?】`. */
  function MarkerEndAfterOpen(s: string, i: nat): (r: Option<nat>)
    requires i < |s|
    ensures r.Some? ==> i < r.value <= |s|
  {
    var k := DigitsEnd(s, i + 1);
    if k == i + 1 || k == |s| || s[k] != ':' then None
    else
      var p := ScanTo(s, k + 1, Dagger);
      if p == |s| || s[p] != Dagger then None
      else
        var q := ScanTo(s, p + 1, Close);
        if q == |s| || s[q] != Close then None
        else Some(q + 1)
  }

  /** The pattern matches s[i..q + 1] with the digits s[i + 1..k], the colon at k, the
      dagger at p and the closing bracket at q: any such split with newline-free gaps. */
  ghost predicate PatternMatch(s: string, i: nat, k: nat, p: nat, q: nat)
  {
    i + 1 < k < p < q < |s| &&
    s[i] == Open && (forall t :: i < t < k ==> IsDigit(s[t])) && s[k] == ':' &&
    s[p] == Dagger && s[q] == Close &&
    (forall t :: k < t < q ==> s[t] != '\n')
  }

  /** The split the lazy quantifiers choose: the first dagger, then the first closing bracket. */
  ghost predicate LazyMatch(s: string, i: nat, k: nat, p: nat, q: nat)
  {
    PatternMatch(s, i, k, p, q) &&
    (forall t :: k < t < p ==> s[t] != Dagger) &&
    (forall t :: p < t < q ==> s[t] != Close)
  }

  /** What MarkerEnd finds is a marker, split as the lazy quantifiers split it. */
  lemma MarkerEndSound(s: string, i: nat)
    requires i <= |s|
    ensures MarkerEnd(s, i).Some? ==>
      exists k: nat, p: nat, q: nat :: LazyMatch(s, i, k, p, q) && MarkerEnd(s, i).value == q + 1
  {
    if MarkerEnd(s, i).Some? {
      var k := DigitsEnd(s, i + 1);
      var p := ScanTo(s, k + 1, Dagger);
      var q := ScanTo(s, p + 1, Close);
      assert LazyMatch(s, i, k, p, q);
    }
  }

  /** Wherever the pattern can match at i, MarkerEnd finds a marker there, and the one it
      finds ends no later than that match. */
  lemma MarkerEndComplete(s: string, i: nat, k: nat, p: nat, q: nat)
    requires PatternMatch(s, i, k, p, q)
    ensures MarkerEnd(s, i).Some? && MarkerEnd(s, i).value <= q + 1
  {
    var k0 := DigitsEnd(s, i + 1);
    assert k0 == k;
    var p0 := ScanTo(s, k + 1, Dagger);
    assert p0 <= p;
    assert s[p0] == Dagger;
    var q0 := ScanTo(s, p0 + 1, Close);
    assert q0 <= q;
    assert s[q0] == Close;
  }

  /** `re.sub(pattern, '', s[i..])`: at each position either a marker is dropped whole or
      one character is kept. */
  function StripFrom(s: string, i: nat): string
    requires i <= |s|
    decreases |s| - i
  {
    if i == |s| then []
    else
      match MarkerEnd(s, i)
      case Some(e) => StripFrom(s, e)
      case None => [s[i]] + StripFrom(s, i + 1)
  }

  /** The reply text with every citation marker removed. */
  function StripCitations(s: string): string
  {
    StripFrom(s, 0)
  }

  /** `a` is `b` with some characters left out and the rest kept in order. */
  predicate IsSubsequence(a: string, b: string)
    decreases |b|
  {
    if b == [] then a == []
    else (a != [] && a[0] == b[0] && IsSubsequence(a[1..], b[1..])) || IsSubsequence(a, b[1..])
  }

  lemma {:induction false} SubsequenceNoLonger(a: string, b: string)
    requires IsSubsequence(a, b)
    ensures |a| <= |b|
    decreases |b|
  {
    if b != [] {
      if a != [] && a[0] == b[0] && IsSubsequence(a[1..], b[1..]) {
        SubsequenceNoLonger(a[1..], b[1..]);
      } else {
        SubsequenceNoLonger(a, b[1..]);
      }
    }
  }

  lemma {:induction false} SubsequenceOfLonger(a: string, c: string, b: string)
    requires IsSubsequence(a, b)
    ensures IsSubsequence(a, c + b)
    decreases |c|
  {
    if c != [] {
      SubsequenceOfLonger(a, c[1..], b);
      assert (c + b)[1..] == c[1..] + b;
      assert IsSubsequence(a, (c + b)[1..]);
    } else {
      assert c + b == b;
    }
  }

  /** Stripping only leaves characters out: the result is a subsequence of the input
      and never longer. */
  lemma {:induction false} StripIsSubsequence(s: string, i: nat)
    requires i <= |s|
    ensures IsSubsequence(StripFrom(s, i), s[i..])
    ensures |StripFrom(s, i)| <= |s| - i
    decreases |s| - i
  {
    if i < |s| {
      match MarkerEnd(s, i)
      case Some(e) =>
        StripIsSubsequence(s, e);
        SubsequenceOfLonger(StripFrom(s, e), s[i..e], s[e..]);
        assert s[i..e] + s[e..] == s[i..];
      case None =>
        StripIsSubsequence(s, i + 1);
        assert s[i..][1..] == s[i + 1..];
    }
    SubsequenceNoLonger(StripFrom(s, i), s[i..]);
  }

  /** A reply without an opening bracket comes back unchanged. */
  lemma {:induction false} StripWithoutOpen(s: string, i: nat)
    requires i <= |s|
    requires forall t :: i <= t < |s| ==> s[t] != Open
    ensures StripFrom(s, i) == s[i..]
    decreases |s| - i
  {
    if i < |s| {
      StripWithoutOpen(s, i + 1);
      assert s[i..] == [s[i]] + s[i + 1..];
    }
  }

  /** A removed marker never holds a newline. */
  lemma MarkerHasNoNewline(s: string, i: nat)
    requires i <= |s| && MarkerEnd(s, i).Some?
    ensures '\n' !in s[i..MarkerEnd(s, i).value]
    ensures multiset(s[i..MarkerEnd(s, i).value])['\n'] == 0
  {
    MarkerEndSound(s, i);
  }

  /** Stripping never removes a newline: text on both sides of a line break is never
      taken as one marker, so the count of newlines is kept. */
  lemma {:induction false} StripKeepsNewlines(s: string, i: nat)
    requires i <= |s|
    ensures multiset(StripFrom(s, i))['\n'] == multiset(s[i..])['\n']
    decreases |s| - i
  {
    if i < |s| {
      var m := MarkerEnd(s, i);
      if m.Some? {
        StripKeepsNewlines(s, m.value);
        MarkerSliceNewlines(s, i);
      } else {
        StripKeepsNewlines(s, i + 1);
        assert s[i..] == [s[i]] + s[i + 1..];
      }
    }
  }

  /** Skipping a marker skips no newline. */
  lemma MarkerSliceNewlines(s: string, i: nat)
    requires i <= |s| && MarkerEnd(s, i).Some?
    ensures multiset(s[i..])['\n'] == multiset(s[MarkerEnd(s, i).value..])['\n']
  {
    var e := MarkerEnd(s, i).value;
    MarkerHasNoNewline(s, i);
    assert s[i..] == s[i..e] + s[e..];
  }

  /** Characters before the next opening bracket are kept as they are. */
  lemma {:induction false} StripKeepsPlainPrefix(s: string, i: nat, j: nat)
    requires i <= j <= |s|
    requires forall t :: i <= t < j ==> s[t] != Open
    ensures StripFrom(s, i) == s[i..j] + StripFrom(s, j)
    decreases j - i
  {
    if i < j {
      assert MarkerEnd(s, i) == None;
      assert StripFrom(s, i) == [s[i]] + StripFrom(s, i + 1);
      StripKeepsPlainPrefix(s, i + 1, j);
    }
  }

  /** The documented example: the marker and nothing else goes. */
  lemma StripExample(s: string)
    requires s == "Hola 【1:x†y】mundo"
    ensures StripCitations(s) == "Hola mundo"
  {
    assert |s| == 17 && s[..5] == "Hola " && s[12..] == "mundo";
    assert s[5] == Open && s[6] == '1' && s[7] == ':' && s[8] == 'x';
    assert s[9] == Dagger && s[10] == 'y' && s[11] == Close;
    StripKeepsPlainPrefix(s, 0, 5);
    assert DigitsEnd(s, 7) == 7;
    assert DigitsEnd(s, 6) == 7;
    assert ScanTo(s, 9, Dagger) == 9;
    assert ScanTo(s, 8, Dagger) == 9;
    assert ScanTo(s, 11, Close) == 11;
    assert ScanTo(s, 10, Close) == 11;
    assert MarkerEnd(s, 5) == Some(12);
    assert StripFrom(s, 5) == StripFrom(s, 12);
    StripWithoutOpen(s, 12);
    assert StripCitations(s) == s[0..5] + s[12..];
    assert s[0..5] + s[12..] == "Hola mundo";
  }

  /** A newline between the colon and the dagger keeps the candidate in the text. */
  lemma StripNewlineBeforeDagger()
    ensures StripCitations("【1:x\n†y】") == "【1:x\n†y】"
  {
    var s := "【1:x\n†y】";
    assert DigitsEnd(s, 2) == 2;
    assert DigitsEnd(s, 1) == 2;
    assert ScanTo(s, 4, Dagger) == 4;
    assert ScanTo(s, 3, Dagger) == 4;
    assert MarkerEnd(s, 0) == None;
    StripWithoutOpen(s, 1);
  }

  /** A newline between the dagger and the closing bracket keeps the candidate too. */
  lemma StripNewlineBeforeClose()
    ensures StripCitations("【1:x†y\n】") == "【1:x†y\n】"
  {
    var s := "【1:x†y\n】";
    assert DigitsEnd(s, 2) == 2;
    assert DigitsEnd(s, 1) == 2;
    assert ScanTo(s, 4, Dagger) == 4;
    assert ScanTo(s, 3, Dagger) == 4;
    assert ScanTo(s, 6, Close) == 6;
    assert ScanTo(s, 5, Close) == 6;
    assert MarkerEnd(s, 0) == None;
    StripWithoutOpen(s, 1);
  }
}
