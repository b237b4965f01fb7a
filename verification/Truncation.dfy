/** Cutting one string down to a byte limit (payload.go). */
module Truncation {
  import opened Decimals
  import opened Utf8

  const ELLIPSIS := "\U{00E2}\U{0080}\U{00A6}"

  function CutMarker(n: nat): string {
    "\n" + ELLIPSIS + "[truncated " + Decimal(n) + " bytes]" + ELLIPSIS + "\n"
  }

  // Where s[..k] ends once at most `tries` bytes are dropped to reach valid
  // UTF-8; zero when that does not suffice.
  function LastBoundary(s: string, k: nat, tries: nat): (j: nat)
    requires k <= |s|
    ensures j <= k
  {
    if Valid(s[..k]) then k
    else if tries == 0 then 0
    else LastBoundary(s, k - 1, tries - 1)
  }

  // The first index from k on that holds no continuation byte.
  function SkipContinuations(s: string, k: nat): (j: nat)
    requires k <= |s|
    ensures k <= j <= |s|
    decreases |s| - k
  {
    if Continuation(ByteAt(s, k)) then SkipContinuations(s, k + 1) else k
  }

  function HeadBudget(n: nat, limit: nat): (r: nat)
    requires |CutMarker(n)| <= limit
  {
    (limit - |CutMarker(n)|) * 6 / 10
  }

  function TailBudget(n: nat, limit: nat): (r: nat)
    requires |CutMarker(n)| <= limit
  {
    limit - |CutMarker(n)| - HeadBudget(n, limit)
  }

  function Truncated(s: string, limit: nat): string {
    if |s| <= limit then s
    else
      var n := |s| - limit;
      if |CutMarker(n)| > limit then s[..LastBoundary(s, limit, 3)]
      else
        s[..LastBoundary(s, HeadBudget(n, limit), 3)]
        + CutMarker(n)
        + s[SkipContinuations(s, |s| - TailBudget(n, limit))..]
  }

  method TrimTrailingPartial(s: string) returns (r: string)
    ensures r == s[..LastBoundary(s, |s|, 3)]
  {
    r := s;
    var tries := 0;
    while tries < 3 && |r| > 0
      invariant tries <= 3 && |r| <= |s| && r == s[..|r|]
      invariant LastBoundary(s, |s|, 3) == LastBoundary(s, |r|, 3 - tries)
    {
      if Valid(r) { return; }
      r := r[..|r| - 1];
      tries := tries + 1;
    }
    if Valid(r) { return; }
    r := "";
  }

  method TrimLeadingPartial(s: string) returns (r: string)
    ensures r == s[SkipContinuations(s, 0)..]
  {
    r := s;
    ghost var k := 0;
    while |r| > 0 && 0x80 <= r[0] as int < 0xC0
      invariant k <= |s| && r == s[k..]
      invariant SkipContinuations(s, 0) == SkipContinuations(s, k)
      decreases |r|
    {
      r := r[1..];
      k := k + 1;
    }
  }

  // truncateString: the second result says whether anything was cut.
  method TruncateString(s: string, limit: nat) returns (r: string, cut: bool)
    ensures r == Truncated(s, limit)
    ensures cut <==> |s| > limit
  {
    hide CutMarker, SkipContinuations, LastBoundary, RuneSize, Valid;
    if |s| <= limit {
      return s, false;
    }
    var marker := CutMarker(|s| - limit);
    if |marker| > limit {
      r := TrimTrailingPartial(s[..limit]);
      HeadOfPrefix(s, limit);
      return r, true;
    }
    var budget := limit - |marker|;
    var headLen := budget * 6 / 10;
    var tailLen := budget - headLen;
    var head := TrimTrailingPartial(s[..headLen]);
    HeadOfPrefix(s, headLen);
    var tail := TrimLeadingPartial(s[|s| - tailLen..]);
    TailOfSuffix(s, |s| - tailLen);
    return head + marker + tail, true;
  }

  lemma {:induction false} BoundaryOfPrefix(s: string, m: nat, k: nat, tries: nat)
    requires k <= m <= |s|
    ensures LastBoundary(s[..m], k, tries) == LastBoundary(s, k, tries)
  {
    assert s[..m][..k] == s[..k];
    hide Valid;
    if !Valid(s[..k]) && tries > 0 {
      assert k > 0 by { EmptyIsValid(); }
      BoundaryOfPrefix(s, m, k - 1, tries - 1);
    }
  }

  lemma EmptyIsValid()
    ensures forall s: string :: |s| == 0 ==> Valid(s)
  {
  }

  lemma {:induction false} SkipInSuffix(s: string, n: nat, k: nat)
    requires n <= k <= |s|
    ensures SkipContinuations(s[n..], k - n) == SkipContinuations(s, k) - n
    decreases |s| - k
  {
    assert ByteAt(s[n..], k - n) == ByteAt(s, k);
    if Continuation(ByteAt(s, k)) { SkipInSuffix(s, n, k + 1); }
  }

  lemma HeadOfPrefix(s: string, m: nat)
    requires m <= |s|
    ensures s[..m][..LastBoundary(s[..m], m, 3)] == s[..LastBoundary(s, m, 3)]
  {
    hide LastBoundary;
    BoundaryOfPrefix(s, m, m, 3);
  }

  lemma TailOfSuffix(s: string, n: nat)
    requires n <= |s|
    ensures s[n..][SkipContinuations(s[n..], 0)..] == s[SkipContinuations(s, n)..]
  {
    hide SkipContinuations;
    SkipInSuffix(s, n, n);
  }

  /// Bounds and character boundaries

  lemma TruncatedFits(s: string, limit: nat)
    ensures |Truncated(s, limit)| <= limit
  {
    hide CutMarker, LastBoundary, SkipContinuations;
  }

  lemma TruncatedTwice(s: string, limit: nat)
    ensures Truncated(Truncated(s, limit), limit) == Truncated(s, limit)
  {
    TruncatedFits(s, limit);
  }

  // Cutting valid text anywhere, the last boundary is at most three bytes back
  // and is the last one there is.
  lemma {:induction false} LastBoundaryOfValid(s: string, k: nat)
    requires Valid(s) && k <= |s|
    ensures var j := LastBoundary(s, k, 3);
      && Valid(s[..j]) && k - 3 <= j
      && (forall i :: j < i <= k ==> !Valid(s[..i]))
  {
    var j := FindBoundary(s, k);
    LastBoundaryReaches(s, k, j, 3);
  }

  lemma {:induction false} FindBoundary(s: string, k: nat) returns (j: nat)
    requires Valid(s) && k <= |s|
    ensures k - 3 <= j <= k && Valid(s[..j])
    ensures forall i :: j < i <= k ==> !Valid(s[..i])
  {
    var n := RuneSize(s);
    if k < n || k == 0 {
      j := 0;
      forall i | 0 < i <= k ensures !Valid(s[..i]) {
        RuneSizeOfPrefix(s, i);
      }
    } else {
      var t := s[n..];
      var j' := FindBoundary(t, k - n);
      j := n + j';
      forall i | n <= i <= k ensures Valid(s[..i]) <==> Valid(t[..i - n]) {
        RuneSizeOfPrefix(s, i);
        assert s[..i][n..] == t[..i - n];
      }
    }
  }

  lemma {:induction false} LastBoundaryReaches(s: string, k: nat, j: nat, tries: nat)
    requires j <= k <= |s| && k - j <= tries
    requires Valid(s[..j]) && forall i :: j < i <= k ==> !Valid(s[..i])
    ensures LastBoundary(s, k, tries) == j
  {
    hide Valid;
    if k > j {
      LastBoundaryReaches(s, k - 1, j, tries - 1);
    }
  }

  // Going forward, the first boundary is at most three bytes ahead.
  lemma {:induction false} SkipContinuationsOfValid(s: string, k: nat)
    requires Valid(s) && k <= |s|
    ensures var j := SkipContinuations(s, k);
      && Valid(s[j..]) && j <= k + 3
      && (forall i :: k <= i < j ==> !Valid(s[i..]))
  {
    hide RuneSize, Valid, SkipContinuations;
    var n := RuneSize(s);
    if k == |s| || k == 0 {
      EmptyIsValid();
      assert k == 0 ==> s[k..] == s;
      StopsAtBoundary(s, k);
    } else if k < n {
      ValidRest(s);
      SkipRune(s, k);
    } else {
      ValidRest(s);
      SkipContinuationsOfValid(s[n..], k - n);
      SkipInSuffix(s, n, k);
      var j := SkipContinuations(s, k);
      assert s[n..][j - n..] == s[j..];
      forall i | k <= i < j ensures !Valid(s[i..]) {
        assert s[n..][i - n..] == s[i..];
      }
    }
  }

  lemma StopsAtBoundary(s: string, k: nat)
    requires k <= |s| && Valid(s[k..])
    ensures SkipContinuations(s, k) == k
  {
    if k < |s| {
      ContinuationsInside(s[k..], 0);
      assert ByteAt(s[k..], 0) == ByteAt(s, k);
    }
  }

  lemma {:induction false} SkipRune(s: string, k: nat)
    requires Valid(s) && 0 < k <= RuneSize(s)
    ensures SkipContinuations(s, k) == RuneSize(s)
    ensures forall i :: k <= i < RuneSize(s) ==> !Valid(s[i..])
    decreases RuneSize(s) - k
  {
    var n := RuneSize(s);
    if k == n {
      ValidRest(s);
      StopsAtBoundary(s, n);
    } else {
      ContinuationsInside(s, k);
      assert ByteAt(s[k..], 0) == ByteAt(s, k);
      ContinuationStartsNothing(s[k..]);
      hide Valid, RuneSize;
      SkipRune(s, k + 1);
    }
  }

  ghost predicate HeadTailSplit(s: string, r: string, marker: string, h: nat, t: nat) {
    && h + t <= |s| && r == s[..h] + marker + s[|s| - t..]
    && Valid(s[..h]) && Valid(s[|s| - t..])
  }

  // On valid text the result is valid text: a prefix, the marker and a suffix
  // that do not overlap, each within three bytes of its share of the budget.
  lemma TruncatedKeepsCharacters(s: string, limit: nat) returns (h: nat, t: nat)
    requires Valid(s) && |s| > limit
    ensures Valid(Truncated(s, limit))
    ensures var n := |s| - limit;
      if |CutMarker(n)| > limit then
        h <= |s| && Truncated(s, limit) == s[..h] && limit - 3 <= h <= limit
      else
        && HeadTailSplit(s, Truncated(s, limit), CutMarker(n), h, t)
        && HeadBudget(n, limit) - 3 <= h <= HeadBudget(n, limit)
        && TailBudget(n, limit) - 3 <= t <= TailBudget(n, limit)
  {
    hide RuneSize, Valid, CutMarker, LastBoundary, SkipContinuations;
    var n := |s| - limit;
    if |CutMarker(n)| > limit {
      LastBoundaryOfValid(s, limit);
      h, t := LastBoundary(s, limit, 3), 0;
    } else {
      var head, tail := HeadBudget(n, limit), TailBudget(n, limit);
      LastBoundaryOfValid(s, head);
      SkipContinuationsOfValid(s, |s| - tail);
      h, t := LastBoundary(s, head, 3), |s| - SkipContinuations(s, |s| - tail);
      MarkerIsValid(n);
      ValidThree(s[..h], CutMarker(n), s[|s| - t..]);
    }
  }

  lemma ValidThree(a: string, b: string, c: string)
    requires Valid(a) && Valid(b) && Valid(c)
    ensures Valid(a + b + c)
  {
    ValidConcat(a, b);
    ValidConcat(a + b, c);
  }

  lemma MarkerIsValid(n: nat)
    ensures Valid(CutMarker(n))
  {
    hide RuneSize, Valid, Decimal;
    EllipsisIsValid();
    AsciiIsValid("\n");
    AsciiIsValid("[truncated ");
    AsciiIsValid(Decimal(n));
    AsciiIsValid(" bytes]");
    MarkerPieces("\n", ELLIPSIS, "[truncated ", Decimal(n), " bytes]");
  }

  lemma EllipsisIsValid()
    ensures Valid(ELLIPSIS)
  {
    assert ELLIPSIS[3..] == "";
  }

  lemma MarkerPieces(a: string, b: string, c: string, d: string, e: string)
    requires Valid(a) && Valid(b) && Valid(c) && Valid(d) && Valid(e)
    ensures Valid(a + b + c + d + e + b + a)
  {
    hide RuneSize, Valid;
    ValidThree(a, b, c);
    ValidThree(a + b + c, d, e);
    ValidThree(a + b + c + d + e, b, a);
  }
}
