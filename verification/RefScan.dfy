/**
  The scanner for a git ref advertisement: find "refs/heads/<branch>" and read the 40 hex digits
  before it. Strings are their UTF-8 bytes; taking a slice that would split a character panics.
 */
module RefScan {
  import opened Seqs

  type Byte = b: int | 0 <= b < 256

  /** "refs/heads/" */
  const REFS_HEADS: seq<Byte> := [114, 101, 102, 115, 47, 104, 101, 97, 100, 115, 47]

  datatype Verdict = Reject | Sha(digits: seq<Byte>) | Panic

  predicate IsPad(b: Byte) { b == 32 || b == 0 }

  predicate IsHex(b: Byte) { 48 <= b <= 57 || 65 <= b <= 70 || 97 <= b <= 102 }

  predicate AllHex(s: seq<Byte>) {
    forall k | 0 <= k < |s| :: IsHex(s[k])
  }

  predicate AllPad(s: seq<Byte>) {
    forall k | 0 <= k < |s| :: IsPad(s[k])
  }

  predicate Matches(s: seq<Byte>, pat: seq<Byte>, p: nat) {
    p + |pat| <= |s| && s[p..p + |pat|] == pat
  }

  /** The first match at or after `from`. */
  function Find(s: seq<Byte>, pat: seq<Byte>, from: nat): (r: Option<nat>)
    ensures r.Some? ==> from <= r.value && Matches(s, pat, r.value)
    ensures forall p :: from <= p && (r.Some? ==> p < r.value) ==> !Matches(s, pat, p)
    decreases |s| - from
  {
    if from + |pat| > |s| then None
    else if Matches(s, pat, from) then Some(from)
    else Find(s, pat, from + 1)
  }

  function TrimEnd(s: seq<Byte>): (r: seq<Byte>)
    ensures r <= s && AllPad(s[|r|..]) && (r != [] ==> !IsPad(r[|r| - 1]))
  {
    if s == [] || !IsPad(s[|s| - 1]) then s
    else
      var r := TrimEnd(s[..|s| - 1]);
      assert s[|r|..] == s[..|s| - 1][|r|..] + [s[|s| - 1]];
      r
  }

  predicate IsCharBoundary(s: seq<Byte>, k: nat)
    requires k <= |s|
  {
    k == 0 || k == |s| || !(0x80 <= s[k] < 0xC0)
  }

  /** The loop's body: what the scanner makes of a match at p. */
  function VerdictAt(resp: seq<Byte>, p: nat): Verdict {
    if p > |resp| then Reject
    else
      var before := TrimEnd(resp[..p]);
      if |before| < 40 then Reject
      else if !IsCharBoundary(before, |before| - 40) then Panic
      else if AllHex(before[|before| - 40..]) then Sha(before[|before| - 40..])
      else Reject
  }

  function Judge(resp: seq<Byte>): nat -> Verdict {
    (p: nat) => VerdictAt(resp, p)
  }

  /** The loop, for any way of judging a match: after a rejected match, continue behind the whole match. */
  function ScanWith(resp: seq<Byte>, target: seq<Byte>, judge: nat -> Verdict, from: nat): Verdict
    requires target != []
    decreases |resp| - from
  {
    match Find(resp, target, from)
    case None => Reject
    case Some(p) => if judge(p) != Reject then judge(p) else ScanWith(resp, target, judge, p + |target|)
  }

  function Scan(resp: seq<Byte>, target: seq<Byte>): Verdict
    requires target != []
  {
    ScanWith(resp, target, Judge(resp), 0)
  }

  method ParseRefSha(resp: seq<Byte>, branch: seq<Byte>) returns (verdict: Verdict)
    ensures verdict == Scan(resp, REFS_HEADS + branch)
  {
    verdict := ScanRefs(resp, REFS_HEADS + branch, Judge(resp));
  }

  method ScanRefs(resp: seq<Byte>, targetRef: seq<Byte>, judge: nat -> Verdict) returns (verdict: Verdict)
    requires targetRef != []
    ensures verdict == ScanWith(resp, targetRef, judge, 0)
  {
    var searchFrom := 0;
    while searchFrom <= |resp|
      invariant Undecided(resp, targetRef, judge, searchFrom)
    {
      var pos := Find(resp, targetRef, searchFrom);
      if pos.None? {
        break;
      }
      verdict := judge(pos.value);
      if verdict != Reject {
        return;
      }
      GoOn(resp, targetRef, judge, searchFrom, pos.value);
      searchFrom := pos.value + |targetRef|;
    }
    verdict := Reject;
  }

  /** What lies before `from` has not decided the scan. */
  ghost predicate Undecided(resp: seq<Byte>, target: seq<Byte>, judge: nat -> Verdict, from: nat)
    requires target != []
  {
    ScanWith(resp, target, judge, from) == ScanWith(resp, target, judge, 0)
  }

  lemma GoOn(resp: seq<Byte>, target: seq<Byte>, judge: nat -> Verdict, from: nat, p: nat)
    requires target != [] && Undecided(resp, target, judge, from)
    requires Find(resp, target, from) == Some(p) && judge(p) == Reject
    ensures Undecided(resp, target, judge, p + |target|)
  {
  }

  // ------------------------------------------------------------ what a match must look like

  /** A match at p qualifies: 40 hex digits end at some q, and only spaces or NULs lie between q and p. */
  ghost predicate ShaEndsAt(resp: seq<Byte>, p: nat, q: nat, digits: seq<Byte>) {
    40 <= q <= p <= |resp| && digits == resp[q - 40..q] && AllHex(digits) && AllPad(resp[q..p])
  }

  lemma VerdictIsSha(resp: seq<Byte>, p: nat, digits: seq<Byte>)
    requires p <= |resp|
    ensures VerdictAt(resp, p) == Sha(digits) <==> exists q: nat :: ShaEndsAt(resp, p, q, digits)
  {
    var before := TrimEnd(resp[..p]);
    assert resp[|before|..p] == resp[..p][|before|..];
    if VerdictAt(resp, p) == Sha(digits) {
      assert ShaEndsAt(resp, p, |before|, digits);
    }
    forall q: nat | ShaEndsAt(resp, p, q, digits)
      ensures VerdictAt(resp, p) == Sha(digits)
    {
      ShaDecides(resp, p, q, digits);
    }
  }

  lemma ShaDecides(resp: seq<Byte>, p: nat, q: nat, digits: seq<Byte>)
    requires ShaEndsAt(resp, p, q, digits)
    ensures VerdictAt(resp, p) == Sha(digits)
  {
    var before := TrimEnd(resp[..p]);
    assert digits[39] == resp[q - 1] == resp[..p][q - 1];
    assert resp[..p][q..] == resp[q..p];
    TrimStopsAt(resp[..p], q);
    assert before[|before| - 40..] == digits;
    assert IsHex(digits[0]) && digits[0] == before[|before| - 40];
  }

  /** Trimming stops behind the last byte that is not padding. */
  lemma TrimStopsAt(s: seq<Byte>, q: nat)
    requires 0 < q <= |s| && !IsPad(s[q - 1]) && AllPad(s[q..])
    ensures TrimEnd(s) == s[..q]
  {
    var r := TrimEnd(s);
    PadFrom(s, |r|);
    PadFrom(s, q);
    assert r != [] ==> r[|r| - 1] == s[|r| - 1];
  }

  lemma PadFrom(s: seq<Byte>, a: nat)
    requires a <= |s| && AllPad(s[a..])
    ensures forall k :: a <= k < |s| ==> IsPad(s[k])
  {
    forall k | a <= k < |s|
      ensures IsPad(s[k])
    {
      assert s[a..][k - a] == s[k];
    }
  }

  /** The 40 bytes before the padding in front of p start in the middle of a character. */
  ghost predicate SplitsCharacter(resp: seq<Byte>, p: nat, q: nat) {
    40 < q <= p <= |resp| && !IsPad(resp[q - 1]) && AllPad(resp[q..p]) && 0x80 <= resp[q - 40] < 0xC0
  }

  lemma VerdictIsPanic(resp: seq<Byte>, p: nat)
    requires p <= |resp|
    ensures VerdictAt(resp, p) == Panic <==> exists q: nat :: SplitsCharacter(resp, p, q)
  {
    var before := TrimEnd(resp[..p]);
    assert resp[|before|..p] == resp[..p][|before|..];
    if VerdictAt(resp, p) == Panic {
      assert SplitsCharacter(resp, p, |before|);
    }
    forall q: nat | SplitsCharacter(resp, p, q)
      ensures VerdictAt(resp, p) == Panic
    {
      assert resp[..p][q - 1] == resp[q - 1] && resp[..p][q..] == resp[q..p];
      TrimStopsAt(resp[..p], q);
    }
  }

  lemma AsciiVerdict(resp: seq<Byte>, p: nat)
    requires p <= |resp| && forall k :: 0 <= k < |resp| ==> resp[k] < 128
    ensures VerdictAt(resp, p) != Panic
  {
    assert TrimEnd(resp[..p]) <= resp;
  }

  /** The loop gets to the match at p: it is the first, or the first behind a rejected one that it gets to. */
  ghost predicate Visits(resp: seq<Byte>, target: seq<Byte>, judge: nat -> Verdict, from: nat, p: nat)
    requires target != []
    decreases |resp| - from
  {
    match Find(resp, target, from)
    case None => false
    case Some(q) => q == p || (judge(q) == Reject && Visits(resp, target, judge, q + |target|, p))
  }

  /** The scan ends with the verdict of the one match visited that is not rejected. */
  lemma {:induction false} ScanMeans(resp: seq<Byte>, target: seq<Byte>, judge: nat -> Verdict, from: nat, v: Verdict)
    requires target != [] && v != Reject
    ensures ScanWith(resp, target, judge, from) == v
       <==> exists p: nat :: Visits(resp, target, judge, from, p) && judge(p) == v
    decreases |resp| - from
  {
    match Find(resp, target, from)
    case None =>
    case Some(q) =>
      if judge(q) == Reject {
        ScanMeans(resp, target, judge, q + |target|, v);
        VisitsPassRejected(resp, target, judge, from, q, v);
      } else {
        assert Visits(resp, target, judge, from, q);
      }
  }

  lemma VisitsPassRejected(resp: seq<Byte>, target: seq<Byte>, judge: nat -> Verdict, from: nat, q: nat,
                           v: Verdict)
    requires target != [] && v != Reject && Find(resp, target, from) == Some(q) && judge(q) == Reject
    ensures (exists p: nat :: Visits(resp, target, judge, from, p) && judge(p) == v)
       <==> (exists p: nat :: Visits(resp, target, judge, q + |target|, p) && judge(p) == v)
  {
    assert forall p: nat :: Visits(resp, target, judge, from, p) <==>
      p == q || Visits(resp, target, judge, q + |target|, p);
  }

  /** On all responses: the slice panics if and only if the first match visited and not rejected splits a character. */
  lemma ScanPanicsIff(resp: seq<Byte>, target: seq<Byte>)
    requires target != []
    ensures Scan(resp, target) == Panic
       <==> exists p: nat, q: nat :: Visits(resp, target, Judge(resp), 0, p) && SplitsCharacter(resp, p, q)
  {
    ScanMeans(resp, target, Judge(resp), 0, Panic);
    forall p: nat | p <= |resp| ensures Judge(resp)(p) == Panic <==> exists q: nat :: SplitsCharacter(resp, p, q) {
      VerdictIsPanic(resp, p);
    }
  }

  lemma {:induction false} ScanCannotPanic(resp: seq<Byte>, target: seq<Byte>, judge: nat -> Verdict, from: nat)
    requires target != [] && forall p: nat :: judge(p) != Panic
    ensures ScanWith(resp, target, judge, from) != Panic
    decreases |resp| - from
  {
    match Find(resp, target, from)
    case None =>
    case Some(p) => ScanCannotPanic(resp, target, judge, p + |target|);
  }

  /** A response of ASCII bytes never makes the scanner panic. */
  lemma AsciiNeverPanics(resp: seq<Byte>, target: seq<Byte>)
    requires target != [] && forall k :: 0 <= k < |resp| ==> resp[k] < 128
    ensures Scan(resp, target) != Panic
  {
    forall p: nat ensures Judge(resp)(p) != Panic {
      if p <= |resp| {
        AsciiVerdict(resp, p);
      }
    }
    ScanCannotPanic(resp, target, Judge(resp), 0);
  }

  // ------------------------------------------------------------ every position against whole matches

  ghost predicate Qualifies(resp: seq<Byte>, target: seq<Byte>, judge: nat -> Verdict, p: nat) {
    Matches(resp, target, p) && judge(p).Sha?
  }

  /** The reference: try every position. */
  function EveryPosition(resp: seq<Byte>, target: seq<Byte>, judge: nat -> Verdict, p: nat): Verdict
    requires target != []
    decreases |resp| - p
  {
    if p + |target| > |resp| then Reject
    else if Matches(resp, target, p) && judge(p).Sha? then judge(p)
    else EveryPosition(resp, target, judge, p + 1)
  }

  /** The reference fails exactly if no position qualifies. */
  lemma {:induction false} EveryPositionFails(resp: seq<Byte>, target: seq<Byte>, judge: nat -> Verdict, p: nat)
    requires target != []
    ensures EveryPosition(resp, target, judge, p) == Reject
       <==> forall k: nat :: p <= k ==> !Qualifies(resp, target, judge, k)
    decreases |resp| - p
  {
    if p + |target| <= |resp| {
      EveryPositionFails(resp, target, judge, p + 1);
      assert EveryPosition(resp, target, judge, p) != Reject ==>
        Qualifies(resp, target, judge, p) || EveryPosition(resp, target, judge, p + 1) != Reject;
    }
  }

  /** Otherwise it returns the verdict at the first qualifying position. */
  lemma {:induction false} EveryPositionIsFirst(resp: seq<Byte>, target: seq<Byte>, judge: nat -> Verdict, p: nat)
    returns (k: nat)
    requires target != [] && EveryPosition(resp, target, judge, p) != Reject
    ensures p <= k && Qualifies(resp, target, judge, k) && EveryPosition(resp, target, judge, p) == judge(k)
    ensures forall j: nat :: p <= j < k ==> !Qualifies(resp, target, judge, j)
    decreases |resp| - p
  {
    if Qualifies(resp, target, judge, p) {
      k := p;
    } else {
      k := EveryPositionIsFirst(resp, target, judge, p + 1);
    }
  }

  lemma {:induction false} EveryPositionNeverPanics(resp: seq<Byte>, target: seq<Byte>, judge: nat -> Verdict, p: nat)
    requires target != []
    ensures EveryPosition(resp, target, judge, p) != Panic
    decreases |resp| - p
  {
    if p + |target| > |resp| {
    } else {
      EveryPositionNeverPanics(resp, target, judge, p + 1);
    }
  }

  lemma {:induction false} SkipPositions(resp: seq<Byte>, target: seq<Byte>, judge: nat -> Verdict, p: nat, q: nat)
    requires target != [] && p <= q && forall k: nat :: p <= k < q ==> !Qualifies(resp, target, judge, k)
    ensures EveryPosition(resp, target, judge, p) == EveryPosition(resp, target, judge, q)
    decreases q - p
  {
    if p < q {
      assert !Qualifies(resp, target, judge, p);
      SkipPositions(resp, target, judge, p + 1, q);
    }
  }

  /** No qualifying match starts inside a rejected one. */
  ghost predicate NothingHidden(resp: seq<Byte>, target: seq<Byte>, judge: nat -> Verdict) {
    forall p: nat, k: nat :: Matches(resp, target, p) && judge(p) == Reject && p <= k < p + |target|
      ==> !Qualifies(resp, target, judge, k)
  }

  /** If nothing is hidden, jumping past whole matches finds what trying every position finds, or panics. */
  lemma {:induction false} ScanIsEveryPosition(resp: seq<Byte>, target: seq<Byte>, judge: nat -> Verdict, from: nat)
    requires target != [] && NothingHidden(resp, target, judge)
    ensures ScanWith(resp, target, judge, from) == EveryPosition(resp, target, judge, from)
       <==> ScanWith(resp, target, judge, from) != Panic
    decreases |resp| - from
  {
    EveryPositionNeverPanics(resp, target, judge, from);
    match Find(resp, target, from)
    case None =>
      EveryPositionFails(resp, target, judge, from);
    case Some(p) =>
      SkipPositions(resp, target, judge, from, p);
      if judge(p) == Reject {
        ScanIsEveryPosition(resp, target, judge, p + |target|);
        RejectedMatch(resp, target, judge, p);
        ScanPassesRejected(resp, target, judge, from, p);
      }
  }

  lemma ScanPassesRejected(resp: seq<Byte>, target: seq<Byte>, judge: nat -> Verdict, from: nat, p: nat)
    requires target != [] && Find(resp, target, from) == Some(p) && judge(p) == Reject
    ensures ScanWith(resp, target, judge, from) == ScanWith(resp, target, judge, p + |target|)
  {
  }

  lemma RejectedMatch(resp: seq<Byte>, target: seq<Byte>, judge: nat -> Verdict, p: nat)
    requires target != [] && NothingHidden(resp, target, judge)
    requires Matches(resp, target, p) && judge(p) == Reject
    ensures EveryPosition(resp, target, judge, p) == EveryPosition(resp, target, judge, p + |target|)
  {
    SkipPositions(resp, target, judge, p, p + |target|);
  }

  // ------------------------------------------------------------ when a match hides inside another

  /** target overlaps itself at distance d, and what precedes the second copy inside the first ends in a sha. */
  ghost predicate HexOverlap(target: seq<Byte>, d: nat) {
    0 < d < |target| && target[d..] == target[..|target| - d] && VerdictAt(target, d).Sha?
  }

  ghost predicate HasHexOverlap(target: seq<Byte>) {
    exists d: nat :: HexOverlap(target, d)
  }

  lemma MatchBytes(s: seq<Byte>, pat: seq<Byte>, p: nat)
    requires Matches(s, pat, p)
    ensures forall k :: 0 <= k < |pat| ==> s[p + k] == pat[k]
  {
    assert forall k :: 0 <= k < |pat| ==> s[p..p + |pat|][k] == pat[k];
  }

  /** If the byte at r is neither hex nor padding, the 40 digits lie behind it. */
  lemma ShaLiesBehind(resp: seq<Byte>, p: nat, q: nat, digits: seq<Byte>, r: nat)
    requires ShaEndsAt(resp, p, q, digits) && r < p && !IsHex(resp[r]) && !IsPad(resp[r])
    ensures r < q - 40
  {
    assert forall k :: q <= k < p ==> resp[q..p][k - q] == resp[k];
    assert forall k :: q - 40 <= k < q ==> digits[k - (q - 40)] == resp[k];
  }

  /** A match that starts inside another one qualifies only if the target has a hex overlap. */
  lemma OverlappingMatch(resp: seq<Byte>, target: seq<Byte>, p: nat, d: nat, digits: seq<Byte>)
    requires target != [] && target[0] == 114 && 0 < d < |target|
    requires Matches(resp, target, p) && Matches(resp, target, p + d) && VerdictAt(resp, p + d) == Sha(digits)
    ensures HexOverlap(target, d)
  {
    VerdictIsSha(resp, p + d, digits);
    var q: nat :| ShaEndsAt(resp, p + d, q, digits);
    OverlappingSha(resp, target, p, d, q, digits);
    VerdictIsSha(target, d, digits);
    OverlapIsBorder(resp, target, p, d);
  }

  lemma OverlappingSha(resp: seq<Byte>, target: seq<Byte>, p: nat, d: nat, q: nat, digits: seq<Byte>)
    requires target != [] && target[0] == 114 && 0 < d < |target|
    requires Matches(resp, target, p) && ShaEndsAt(resp, p + d, q, digits)
    ensures p <= q && ShaEndsAt(target, d, q - p, digits)
  {
    FirstByte(resp, target, p);
    ShaLiesBehind(resp, p + d, q, digits, p);
    ShaMovesInside(resp, target, p, d, q, digits);
  }

  lemma FirstByte(resp: seq<Byte>, target: seq<Byte>, p: nat)
    requires target != [] && Matches(resp, target, p)
    ensures resp[p] == target[0]
  {
    assert resp[p..p + |target|][0] == resp[p];
  }

  lemma OverlapIsBorder(resp: seq<Byte>, target: seq<Byte>, p: nat, d: nat)
    requires 0 < d < |target| && Matches(resp, target, p) && Matches(resp, target, p + d)
    ensures target[d..] == target[..|target| - d]
  {
    MatchBytes(resp, target, p);
    MatchBytes(resp, target, p + d);
    forall k | 0 <= k < |target| - d
      ensures target[d + k] == target[k]
    {
      assert resp[p + (d + k)] == resp[(p + d) + k];
    }
  }

  lemma ShaMovesInside(resp: seq<Byte>, target: seq<Byte>, p: nat, d: nat, q: nat, digits: seq<Byte>)
    requires Matches(resp, target, p) && 0 < d < |target| && ShaEndsAt(resp, p + d, q, digits) && p < q - 40
    ensures p <= q && ShaEndsAt(target, d, q - p, digits)
  {
    MatchBytes(resp, target, p);
    assert target[q - 40 - p..q - p] == resp[q - 40..q];
    assert target[q - p..d] == resp[q..p + d];
  }

  /** Without a hex overlap, no match hides a qualifying one. */
  lemma NoOverlapHidesNothing(resp: seq<Byte>, target: seq<Byte>)
    requires target != [] && target[0] == 114 && !HasHexOverlap(target)
    ensures NothingHidden(resp, target, Judge(resp))
  {
    forall p: nat, k: nat | Matches(resp, target, p) && Judge(resp)(p) == Reject && p <= k < p + |target|
      ensures !Qualifies(resp, target, Judge(resp), k)
    {
      InsideMatch(resp, target, p, k);
    }
  }

  lemma InsideMatch(resp: seq<Byte>, target: seq<Byte>, p: nat, k: nat)
    requires target != [] && target[0] == 114 && !HasHexOverlap(target)
    requires Matches(resp, target, p) && Judge(resp)(p) == Reject && p <= k < p + |target|
    ensures !Qualifies(resp, target, Judge(resp), k)
  {
    if p < k && Qualifies(resp, target, Judge(resp), k) {
      OverlappingMatch(resp, target, p, k - p, VerdictAt(resp, k).digits);
    }
  }

  /** The jump gives no other answer than trying every position would; it may panic instead. */
  ghost predicate JumpAgrees(resp: seq<Byte>, target: seq<Byte>)
    requires target != []
  {
    Scan(resp, target) == Panic || Scan(resp, target) == EveryPosition(resp, target, Judge(resp), 0)
  }

  lemma ShiftedCopy(target: seq<Byte>, d: nat)
    requires 0 < d < |target| && target[d..] == target[..|target| - d]
    ensures (target[..d] + target)[..|target|] == target
  {
    assert target == target[..d] + target[d..];
    assert (target[..d] + target)[..|target|] == target[..d] + target[..|target| - d];
  }

  /** With a hex overlap there is a response on which the jump misses the only qualifying match. */
  lemma OverlapIsMissed(target: seq<Byte>, d: nat)
    requires HexOverlap(target, d)
    ensures !JumpAgrees(target[..d] + target, target)
  {
    var resp := target[..d] + target;
    var judge := Judge(resp);
    ShiftedCopy(target, d);
    assert resp[0..|target|] == resp[..|target|];
    assert judge(0) == Reject;
    assert resp[..d] == target[..d];
    assert judge(d).Sha?;
    assert Qualifies(resp, target, judge, d);
    HiddenMatchIsMissed(resp, target, judge, d);
  }

  lemma HiddenMatchIsMissed(resp: seq<Byte>, target: seq<Byte>, judge: nat -> Verdict, d: nat)
    requires target != [] && |resp| < 2 * |target| && Matches(resp, target, 0) && judge(0) == Reject
    requires Qualifies(resp, target, judge, d)
    ensures ScanWith(resp, target, judge, 0) == Reject && EveryPosition(resp, target, judge, 0) != Reject
  {
    EveryPositionFails(resp, target, judge, 0);
  }

  /** The exact condition on the branch name under which the jump gives no wrong answer on any response. */
  lemma JumpIsHarmlessIff(branch: seq<Byte>)
    ensures (forall resp :: JumpAgrees(resp, REFS_HEADS + branch)) <==> !HasHexOverlap(REFS_HEADS + branch)
  {
    var target := REFS_HEADS + branch;
    if HasHexOverlap(target) {
      var d: nat :| HexOverlap(target, d);
      OverlapIsMissed(target, d);
    } else {
      forall resp: seq<Byte> ensures JumpAgrees(resp, target) {
        NoOverlapJumpAgrees(resp, target);
      }
    }
  }

  lemma NoOverlapJumpAgrees(resp: seq<Byte>, target: seq<Byte>)
    requires target != [] && target[0] == 114 && !HasHexOverlap(target)
    ensures JumpAgrees(resp, target)
  {
    NoOverlapHidesNothing(resp, target);
    ScanIsEveryPosition(resp, target, Judge(resp), 0);
  }

  /** Branch names of up to 40 bytes have no hex overlap. */
  lemma ShortBranchHasNoOverlap(branch: seq<Byte>)
    requires |branch| <= 40
    ensures !HasHexOverlap(REFS_HEADS + branch)
  {
    var target := REFS_HEADS + branch;
    assert target[10] == 47;
    forall d: nat | HexOverlap(target, d)
      ensures false
    {
      var digits := VerdictAt(target, d).digits;
      VerdictIsSha(target, d, digits);
      var q: nat :| ShaEndsAt(target, d, q, digits);
      ShaLiesBehind(target, d, q, digits, 10);
    }
  }

  /** The bound is tight: a branch of 41 bytes, 40 zeros and an "r", has one. */
  lemma LongBranchOverlap() returns (branch: seq<Byte>)
    ensures |branch| == 41 && HexOverlap(REFS_HEADS + branch, 51)
  {
    var zeros: seq<Byte> := seq(40, _ => 48);
    branch := zeros + [114];
    var target := REFS_HEADS + branch;
    assert target[51..] == [114] && target[..1] == [114];
    assert target[11..51] == zeros;
    assert target[51..51] == [];
    assert ShaEndsAt(target, 51, 51, zeros);
    VerdictIsSha(target, 51, zeros);
  }

  // ------------------------------------------------------------ an advertised ref

  /** The bytes of an ASCII text. */
  function Ascii(s: string): (bytes: seq<Byte>)
    requires forall k :: 0 <= k < |s| ==> (s[k] as int) < 128
  {
    seq(|s|, k requires 0 <= k < |s| => (s[k] as int) as Byte)
  }

  /** The 40 bytes in front of q are hexadecimal digits. */
  ghost predicate HexBefore(resp: seq<Byte>, q: nat) {
    && 40 <= q <= |resp|
    && forall k :: q - 40 <= k < q ==>
         || ('0' as int) <= resp[k] <= ('9' as int)
         || ('a' as int) <= resp[k] <= ('f' as int)
         || ('A' as int) <= resp[k] <= ('F' as int)
  }

  ghost predicate OnlySpacesAndNuls(resp: seq<Byte>, q: nat, p: nat) {
    q <= p <= |resp| && forall k :: q <= k < p ==> resp[k] == (' ' as int) || resp[k] == 0
  }

  lemma TargetIsRefName(branch: seq<Byte>)
    ensures REFS_HEADS + branch == Ascii("refs/heads/") + branch
  {
    assert REFS_HEADS == Ascii("refs/heads/");
  }

  lemma ShaEndsAtIff(resp: seq<Byte>, p: nat, q: nat, digits: seq<Byte>)
    ensures ShaEndsAt(resp, p, q, digits)
       <==> HexBefore(resp, q) && OnlySpacesAndNuls(resp, q, p) && digits == resp[q - 40..q]
  {
    if 40 <= q <= p <= |resp| {
      var front, gap := resp[q - 40..q], resp[q..p];
      assert forall k :: q - 40 <= k < q ==> resp[k] == front[k - (q - 40)];
      assert forall k :: q <= k < p ==> resp[k] == gap[k - q];
    }
  }

  /** The first line that names the ref decides, if 40 hexadecimal digits stand before the name. */
  lemma AdvertisedRefIsRead(resp: seq<Byte>, branch: seq<Byte>, p: nat, q: nat)
    requires Matches(resp, Ascii("refs/heads/") + branch, p)
    requires forall k: nat :: k < p ==> !Matches(resp, Ascii("refs/heads/") + branch, k)
    requires HexBefore(resp, q) && OnlySpacesAndNuls(resp, q, p)
    ensures Scan(resp, REFS_HEADS + branch) == Sha(resp[q - 40..q])
  {
    var target := REFS_HEADS + branch;
    TargetIsRefName(branch);
    ShaEndsAtIff(resp, p, q, resp[q - 40..q]);
    VerdictIsSha(resp, p, resp[q - 40..q]);
    assert Find(resp, target, 0) == Some(p);
  }

  /** And whatever is returned stands in front of the ref's name like that. */
  lemma ReadShaIsAdvertised(resp: seq<Byte>, branch: seq<Byte>, digits: seq<Byte>) returns (p: nat, q: nat)
    requires Scan(resp, REFS_HEADS + branch) == Sha(digits)
    ensures Matches(resp, Ascii("refs/heads/") + branch, p)
    ensures HexBefore(resp, q) && OnlySpacesAndNuls(resp, q, p) && digits == resp[q - 40..q]
  {
    var target := REFS_HEADS + branch;
    TargetIsRefName(branch);
    ScanMeans(resp, target, Judge(resp), 0, Sha(digits));
    p :| Visits(resp, target, Judge(resp), 0, p) && Judge(resp)(p) == Sha(digits);
    VisitedMatches(resp, target, Judge(resp), 0, p);
    VerdictIsSha(resp, p, digits);
    q :| ShaEndsAt(resp, p, q, digits);
    ShaEndsAtIff(resp, p, q, digits);
  }

  lemma {:induction false} VisitedMatches(resp: seq<Byte>, target: seq<Byte>, judge: nat -> Verdict, from: nat, p: nat)
    requires target != [] && Visits(resp, target, judge, from, p)
    ensures Matches(resp, target, p)
    decreases |resp| - from
  {
    var q := Find(resp, target, from).value;
    if q != p {
      VisitedMatches(resp, target, judge, q + |target|, p);
    }
  }
}
