/**
  The jump of the ref scanner on all responses, panics included: when it does exactly what trying
  every position would do, and that valid UTF-8 can make it panic under every branch name.
 */
module RefJump {
  import opened Seqs
  import opened RefScan

  // ------------------------------------------------------------ UTF-8

  /** The length of the character that this byte starts; 0 if it starts none. */
  function CharLength(lead: Byte): nat {
    if lead < 0x80 then 1
    else if lead < 0xC2 then 0
    else if lead < 0xE0 then 2
    else if lead < 0xF0 then 3
    else if lead < 0xF5 then 4
    else 0
  }

  predicate IsContinuation(b: Byte) {
    0x80 <= b < 0xC0
  }

  /** The second byte rules out overlong forms, surrogates and numbers above U+10FFFF. */
  predicate SecondFits(lead: Byte, second: Byte) {
    && IsContinuation(second)
    && (lead == 0xE0 ==> second >= 0xA0) && (lead == 0xED ==> second < 0xA0)
    && (lead == 0xF0 ==> second >= 0x90) && (lead == 0xF4 ==> second < 0x90)
  }

  predicate StartsWithChar(s: seq<Byte>) {
    && s != [] && 0 < CharLength(s[0]) <= |s|
    && (CharLength(s[0]) > 1 ==> SecondFits(s[0], s[1]))
    && forall k | 1 <= k < CharLength(s[0]) :: IsContinuation(s[k])
  }

  predicate IsUtf8(s: seq<Byte>) {
    s == [] || (StartsWithChar(s) && IsUtf8(s[CharLength(s[0])..]))
  }

  lemma FirstCharStays(a: seq<Byte>, b: seq<Byte>)
    requires StartsWithChar(a)
    ensures StartsWithChar(a + b) && (a + b)[0] == a[0]
    ensures (a + b)[CharLength(a[0])..] == a[CharLength(a[0])..] + b
  {
    var n := CharLength(a[0]);
    assert (a + b)[..n] == a[..n];
    assert forall k :: 0 <= k < n ==> (a + b)[k] == a[k];
  }

  lemma {:induction false} Utf8Concat(a: seq<Byte>, b: seq<Byte>)
    requires IsUtf8(a) && IsUtf8(b)
    ensures IsUtf8(a + b)
    decreases |a|
  {
    if a == [] {
      assert a + b == b;
    } else {
      FirstCharStays(a, b);
      Utf8Concat(a[CharLength(a[0])..], b);
    }
  }

  lemma {:induction false} AsciiIsUtf8(s: seq<Byte>)
    requires forall k :: 0 <= k < |s| ==> s[k] < 0x80
    ensures IsUtf8(s)
  {
    if s == [] {
    } else {
      AsciiIsUtf8(s[1..]);
    }
  }

  /** A text can be cut in front of an ASCII byte. */
  lemma {:induction false} Utf8Prefix(s: seq<Byte>, d: nat)
    requires IsUtf8(s) && d < |s| && s[d] < 0x80
    ensures IsUtf8(s[..d])
    decreases |s|
  {
    if d == 0 {
    } else {
      var n := CharLength(s[0]);
      Utf8Prefix(s[n..], d - n);
      assert s[..d][n..] == s[n..][..d - n];
    }
  }

  lemma RefNameIsUtf8(branch: seq<Byte>)
    requires IsUtf8(branch)
    ensures IsUtf8(REFS_HEADS + branch)
  {
    AsciiIsUtf8(REFS_HEADS);
    Utf8Concat(REFS_HEADS, branch);
  }

  // ------------------------------------------------------------ every position, panics included

  /** The verdict at the first matching position that is not rejected, whatever it is. */
  function FirstVerdict(resp: seq<Byte>, target: seq<Byte>, judge: nat -> Verdict, p: nat): Verdict
    requires target != []
    decreases |resp| - p
  {
    if p + |target| > |resp| then Reject
    else if Matches(resp, target, p) && judge(p) != Reject then judge(p)
    else FirstVerdict(resp, target, judge, p + 1)
  }

  ghost predicate Decides(resp: seq<Byte>, target: seq<Byte>, judge: nat -> Verdict, p: nat) {
    Matches(resp, target, p) && judge(p) != Reject
  }

  lemma {:induction false} FirstVerdictRejects(resp: seq<Byte>, target: seq<Byte>, judge: nat -> Verdict, p: nat)
    requires target != []
    ensures FirstVerdict(resp, target, judge, p) == Reject
       <==> forall k: nat :: p <= k ==> !Decides(resp, target, judge, k)
    decreases |resp| - p
  {
    if p + |target| > |resp| {
    } else {
      FirstVerdictRejects(resp, target, judge, p + 1);
      assert FirstVerdict(resp, target, judge, p) != Reject ==>
        Decides(resp, target, judge, p) || FirstVerdict(resp, target, judge, p + 1) != Reject;
    }
  }

  lemma {:induction false} PassUndecided(resp: seq<Byte>, target: seq<Byte>, judge: nat -> Verdict, p: nat, q: nat)
    requires target != [] && p <= q && forall k: nat :: p <= k < q ==> !Decides(resp, target, judge, k)
    ensures FirstVerdict(resp, target, judge, p) == FirstVerdict(resp, target, judge, q)
    decreases q - p
  {
    if p == q {
    } else {
      assert !Decides(resp, target, judge, p);
      PassUndecided(resp, target, judge, p + 1, q);
    }
  }

  /** No match that decides starts inside a rejected one. */
  ghost predicate NoneInside(resp: seq<Byte>, target: seq<Byte>, judge: nat -> Verdict) {
    forall p: nat, k: nat :: Matches(resp, target, p) && judge(p) == Reject && p <= k < p + |target|
      ==> !Decides(resp, target, judge, k)
  }

  lemma {:induction false} ScanIsFirstVerdict(resp: seq<Byte>, target: seq<Byte>, judge: nat -> Verdict, from: nat)
    requires target != [] && NoneInside(resp, target, judge)
    ensures ScanWith(resp, target, judge, from) == FirstVerdict(resp, target, judge, from)
    decreases |resp| - from
  {
    match Find(resp, target, from)
    case None =>
      NoMatchAtAll(resp, target, judge, from);
    case Some(p) =>
      ToFirstMatch(resp, target, judge, from, p);
      if judge(p) == Reject {
        ScanIsFirstVerdict(resp, target, judge, p + |target|);
        PassRejected(resp, target, judge, p);
        ScanPassesRejected(resp, target, judge, from, p);
      }
  }

  lemma NoMatchAtAll(resp: seq<Byte>, target: seq<Byte>, judge: nat -> Verdict, from: nat)
    requires target != [] && Find(resp, target, from) == None
    ensures ScanWith(resp, target, judge, from) == Reject == FirstVerdict(resp, target, judge, from)
  {
    FirstVerdictRejects(resp, target, judge, from);
  }

  lemma ToFirstMatch(resp: seq<Byte>, target: seq<Byte>, judge: nat -> Verdict, from: nat, p: nat)
    requires target != [] && Find(resp, target, from) == Some(p)
    ensures FirstVerdict(resp, target, judge, from) == FirstVerdict(resp, target, judge, p)
    ensures judge(p) != Reject ==>
      ScanWith(resp, target, judge, from) == judge(p) == FirstVerdict(resp, target, judge, p)
  {
    PassUndecided(resp, target, judge, from, p);
  }

  lemma PassRejected(resp: seq<Byte>, target: seq<Byte>, judge: nat -> Verdict, p: nat)
    requires target != [] && NoneInside(resp, target, judge) && Matches(resp, target, p) && judge(p) == Reject
    ensures FirstVerdict(resp, target, judge, p) == FirstVerdict(resp, target, judge, p + |target|)
  {
    PassUndecided(resp, target, judge, p, p + |target|);
  }

  // ------------------------------------------------------------ what the ref name must be like

  /**
    The name overlaps itself at distance d, and what stands in front of the second copy leaves the
    verdict open: it is short enough that the 40 bytes reach into the text before, or it decides.
   */
  predicate Hides(target: seq<Byte>, d: nat) {
    && 0 < d < |target| && target[d..] == target[..|target| - d]
    && (|TrimEnd(target[..d])| < 40 || VerdictAt(target, d) != Reject)
  }

  ghost predicate HidesNothing(target: seq<Byte>) {
    forall d: nat :: !Hides(target, d)
  }

  /** Inside a rejected match the 40 bytes lie in the name, where they decide nothing. */
  lemma InsideIsRejected(resp: seq<Byte>, target: seq<Byte>, p: nat, d: nat)
    requires target != [] && target[0] == 114 && !Hides(target, d) && 0 < d < |target|
    requires Matches(resp, target, p) && Matches(resp, target, p + d)
    ensures VerdictAt(resp, p + d) == Reject
  {
    OverlapIsBorder(resp, target, p, d);
    var q := |TrimEnd(target[..d])|;
    TrimInside(resp, target, p, d, q);
    SameBytes(resp, target, p, q - 40, q);
    assert TrimEnd(target[..d]) == target[..q];
    SameJudgement(resp[..p + q], target[..q], p);
  }

  lemma SameBytes(resp: seq<Byte>, target: seq<Byte>, p: nat, i: nat, j: nat)
    requires Matches(resp, target, p) && i <= j <= |target|
    ensures resp[p + i..p + j] == target[i..j]
  {
    SliceOfSlice(resp, p, p + |target|, i, j);
  }

  lemma SliceOfSlice<T>(s: seq<T>, a: nat, b: nat, i: nat, j: nat)
    requires a <= b <= |s| && i <= j <= b - a
    ensures s[a..b][i..j] == s[a + i..a + j]
  {
    var inner := s[a..b];
    assert forall k :: 0 <= k < j - i ==> inner[i..j][k] == inner[i + k] == s[a + i..a + j][k];
  }

  /** Two texts with the same last 40 bytes, the shorter of which starts with an ASCII byte, judge alike. */
  lemma SameJudgement(a: seq<Byte>, b: seq<Byte>, p: nat)
    requires |a| == p + |b| && |b| >= 40 && b[0] < 0x80 && a[|a| - 40..] == b[|b| - 40..]
    ensures IsCharBoundary(a, |a| - 40) <==> IsCharBoundary(b, |b| - 40)
    ensures AllHex(a[|a| - 40..]) == AllHex(b[|b| - 40..])
  {
    assert a[|a| - 40] == a[|a| - 40..][0] == b[|b| - 40..][0] == b[|b| - 40];
  }

  lemma TrimInside(resp: seq<Byte>, target: seq<Byte>, p: nat, d: nat, q: nat)
    requires 0 < d < |target| && Matches(resp, target, p) && q == |TrimEnd(target[..d])| && q > 0
    ensures TrimEnd(resp[..p + d]) == resp[..p + q]
  {
    SameBytes(resp, target, p, q - 1, q);
    SameBytes(resp, target, p, q, d);
    assert resp[..p + d][p + q - 1] == resp[p + (q - 1)..p + q][0] == target[..d][q - 1];
    assert resp[..p + d][p + q..] == resp[p + q..p + d] == target[..d][q..];
    TrimStopsAt(resp[..p + d], p + q);
    assert resp[..p + d][..p + q] == resp[..p + q];
  }

  lemma HidesNothingNoneInside(resp: seq<Byte>, target: seq<Byte>)
    requires target != [] && target[0] == 114 && HidesNothing(target)
    ensures NoneInside(resp, target, Judge(resp))
  {
    forall p: nat, k: nat | Matches(resp, target, p) && Judge(resp)(p) == Reject && p <= k < p + |target|
      ensures !Decides(resp, target, Judge(resp), k)
    {
      if p < k && Matches(resp, target, k) {
        InsideIsRejected(resp, target, p, k - p);
      }
    }
  }

  // ------------------------------------------------------------ a response for every name that hides something

  /** The name once, and again at distance d, behind some text without an 'r'. */
  function Overlapped(x: seq<Byte>, target: seq<Byte>, d: nat): seq<Byte>
    requires d <= |target|
  {
    x + (target[..d] + target)
  }

  lemma MatchBehind(x: seq<Byte>, tail: seq<Byte>, target: seq<Byte>, i: nat)
    ensures Matches(x + tail, target, |x| + i) <==> Matches(tail, target, i)
  {
    if i + |target| <= |tail| {
      assert (x + tail)[|x| + i..|x| + i + |target|] == tail[i..i + |target|];
    }
  }

  lemma NoMatchInFront(x: seq<Byte>, tail: seq<Byte>, target: seq<Byte>)
    requires target != [] && target[0] !in x
    ensures forall i: nat :: i < |x| ==> !Matches(x + tail, target, i)
  {
    var resp := x + tail;
    forall i: nat | i < |x| ensures !Matches(resp, target, i) {
      assert resp[i] == x[i] && x[i] in x;
      if i + |target| <= |resp| {
        assert resp[i..i + |target|][0] == resp[i];
      }
    }
  }

  lemma FirstMatchIsFound(resp: seq<Byte>, target: seq<Byte>, p: nat)
    requires Matches(resp, target, p) && forall i: nat :: i < p ==> !Matches(resp, target, i)
    ensures Find(resp, target, 0) == Some(p)
  {
  }

  lemma FirstBehind(x: seq<Byte>, tail: seq<Byte>, target: seq<Byte>)
    requires target != [] && target[0] !in x && Matches(tail, target, 0)
    ensures Find(x + tail, target, 0) == Some(|x|)
  {
    MatchBehind(x, tail, target, 0);
    NoMatchInFront(x, tail, target);
    FirstMatchIsFound(x + tail, target, |x|);
  }

  lemma TailMatches(tail: seq<Byte>, target: seq<Byte>, d: nat)
    requires 0 < d < |target| && target[d..] == target[..|target| - d] && tail == target[..d] + target
    ensures Matches(tail, target, 0) && Matches(tail, target, d)
  {
    ShiftedCopy(target, d);
    assert tail[0..|target|] == tail[..|target|] && tail[d..d + |target|] == target;
  }

  lemma OverlappedMatches(resp: seq<Byte>, x: seq<Byte>, tail: seq<Byte>, target: seq<Byte>, d: nat)
    requires target != [] && target[0] !in x && resp == x + tail
    requires Matches(tail, target, 0) && Matches(tail, target, d)
    ensures Find(resp, target, 0) == Some(|x|) && Matches(resp, target, |x| + d)
  {
    FirstBehind(x, tail, target);
    MatchBehind(x, tail, target, d);
  }

  lemma InsideIsMissed(resp: seq<Byte>, target: seq<Byte>, judge: nat -> Verdict, p: nat, d: nat)
    requires target != [] && Find(resp, target, 0) == Some(p) && judge(p) == Reject && |resp| < p + 2 * |target|
    requires Decides(resp, target, judge, p + d)
    ensures ScanWith(resp, target, judge, 0) == Reject && FirstVerdict(resp, target, judge, 0) != Reject
  {
    FirstVerdictRejects(resp, target, judge, 0);
    assert Find(resp, target, p + |target|) == None;
  }

  lemma OverlapIsMissedAt(resp: seq<Byte>, x: seq<Byte>, target: seq<Byte>, d: nat, judge: nat -> Verdict)
    requires target != [] && target[0] !in x
    requires 0 < d < |target| && target[d..] == target[..|target| - d] && resp == Overlapped(x, target, d)
    requires judge(|x|) == Reject && judge(|x| + d) != Reject
    ensures ScanWith(resp, target, judge, 0) == Reject && FirstVerdict(resp, target, judge, 0) != Reject
  {
    var tail := target[..d] + target;
    TailMatches(tail, target, d);
    OverlappedMatches(resp, x, tail, target, d);
    InsideIsMissed(resp, target, judge, |x|, d);
  }

  /** An accented letter and some more, one byte short of 40 with what the name puts in front. */
  function Filler(n: nat): (x: seq<Byte>)
    ensures |x| == n + 2 && 114 !in x
  {
    [0xC3, 0xA9] + seq(n, _ => 97)
  }

  lemma FillerIsUtf8(n: nat)
    ensures IsUtf8(Filler(n))
  {
    var x := Filler(n);
    AsciiIsUtf8(x[2..]);
  }

  lemma ShortFrontPanics(resp: seq<Byte>, x: seq<Byte>, front: seq<Byte>, target: seq<Byte>, q: nat,
                         second: nat, judge: nat -> Verdict)
    requires judge == Judge(resp) && second == |x| + |front| && resp == x + (front + target)
    requires q == |TrimEnd(front)| && 2 <= q < 40 && x == Filler(39 - q)
    ensures judge(|x|) == Reject && judge(second) == Panic
  {
    FrontSplits(resp, x, front, target, q);
    RejectThenPanic(resp, |x|, |x| + |front|, 41);
  }

  lemma RejectThenPanic(resp: seq<Byte>, p: nat, r: nat, q: nat)
    requires p < 40 && SplitsCharacter(resp, r, q)
    ensures Judge(resp)(p) == Reject && Judge(resp)(r) == Panic
  {
    ShortIsRejected(resp, p);
    VerdictIsPanic(resp, r);
  }

  lemma ShortIsRejected(resp: seq<Byte>, p: nat)
    requires p < 40
    ensures Judge(resp)(p) == Reject
  {
    if p <= |resp| {
      assert |TrimEnd(resp[..p])| <= p;
    }
  }

  lemma FrontSplits(resp: seq<Byte>, x: seq<Byte>, front: seq<Byte>, target: seq<Byte>, q: nat)
    requires q == |TrimEnd(front)| && 2 <= q < 40 && x == Filler(39 - q) && resp == x + (front + target)
    ensures SplitsCharacter(resp, |x| + |front|, 41)
  {
    assert resp[40] == front[q - 1];
    assert resp[41..|x| + |front|] == front[q..];
    assert resp[1] == 0xA9;
  }

  /** The jump and trying every position agree on this response in everything, panics included. */
  ghost predicate JumpIsExact(resp: seq<Byte>, target: seq<Byte>)
    requires target != []
  {
    Scan(resp, target) == FirstVerdict(resp, target, Judge(resp), 0)
  }

  ghost predicate JumpIsInexact(resp: seq<Byte>, target: seq<Byte>)
    requires target != []
  {
    IsUtf8(resp) && !JumpIsExact(resp, target)
  }

  lemma OverlappedIsUtf8(x: seq<Byte>, target: seq<Byte>, d: nat)
    requires IsUtf8(x) && IsUtf8(target) && d < |target| && target[d] < 0x80
    ensures IsUtf8(Overlapped(x, target, d))
  {
    Utf8Prefix(target, d);
    Utf8Concat(target[..d], target);
    Utf8Concat(x, target[..d] + target);
  }

  /** It is enough that the first copy is rejected and the second one is not. */
  lemma OverlapIsInexact(resp: seq<Byte>, x: seq<Byte>, target: seq<Byte>, d: nat, judge: nat -> Verdict)
    requires IsUtf8(x) && IsUtf8(target) && target != [] && target[0] !in x && target[0] < 0x80
    requires 0 < d < |target| && target[d..] == target[..|target| - d] && resp == Overlapped(x, target, d)
    requires judge == Judge(resp) && judge(|x|) == Reject && judge(|x| + d) != Reject
    ensures JumpIsInexact(resp, target)
  {
    assert target[d] == target[d..][0] == target[0];
    OverlappedIsUtf8(x, target, d);
    OverlapIsMissedAt(resp, x, target, d, judge);
  }

  lemma ShortFrontIsMissed(target: seq<Byte>, d: nat, front: seq<Byte>, q: nat)
    requires IsUtf8(target) && 0 < d < |target| && target[d..] == target[..|target| - d] && target[0] == 114
    requires front == target[..d] && q == |TrimEnd(front)| && 2 <= q < 40
    ensures exists resp :: JumpIsInexact(resp, target)
  {
    var x := Filler(39 - q);
    var resp := x + (front + target);
    var judge := Judge(resp);
    FillerIsUtf8(39 - q);
    ShortFrontPanics(resp, x, front, target, q, |x| + d, judge);
    OverlapIsInexact(resp, x, target, d, judge);
  }

  lemma SameFront(resp: seq<Byte>, target: seq<Byte>, d: nat, judge: nat -> Verdict)
    requires d <= |resp| && d <= |target| && resp[..d] == target[..d] && judge == Judge(resp)
    ensures judge(d) == VerdictAt(target, d) && judge(0) == Reject
  {
  }

  lemma DecidingFrontIsMissed(target: seq<Byte>, d: nat)
    requires IsUtf8(target) && 0 < d < |target| && target[d..] == target[..|target| - d] && target[0] == 114
    requires VerdictAt(target, d) != Reject
    ensures exists resp :: JumpIsInexact(resp, target)
  {
    var resp := Overlapped([], target, d);
    assert resp[..d] == target[..d];
    var judge := Judge(resp);
    SameFront(resp, target, d, judge);
    OverlapIsInexact(resp, [], target, d, judge);
  }

  lemma HiddenIsMissed(target: seq<Byte>, d: nat)
    requires IsUtf8(target) && |target| >= 11 && target[..11] == REFS_HEADS && Hides(target, d)
    ensures exists resp :: JumpIsInexact(resp, target)
  {
    assert target[0] == target[..11][0] == 114;
    assert target[d] == target[d..][0] == target[0];
    FrontIsLong(target, d);
    if |TrimEnd(target[..d])| < 40 {
      ShortFrontIsMissed(target, d, target[..d], |TrimEnd(target[..d])|);
    } else {
      DecidingFrontIsMissed(target, d);
    }
  }

  lemma TrimKeeps(s: seq<Byte>, i: nat)
    requires i < |s| && !IsPad(s[i])
    ensures |TrimEnd(s)| > i
  {
    PadFrom(s, |TrimEnd(s)|);
  }

  /** A second copy starts with an 'r', so not before the slash that ends "refs/heads/". */
  lemma FrontIsLong(target: seq<Byte>, d: nat)
    requires |target| >= 11 && target[..11] == REFS_HEADS && 0 < d < |target| && target[d] == 114
    ensures |TrimEnd(target[..d])| >= 11
  {
    assert forall k :: 0 <= k < 11 ==> target[k] == target[..11][k];
    assert d >= 11;
    TrimKeeps(target[..d], 10);
  }

  /**
    On all valid responses the jump does exactly what trying every position would, panics included,
    if and only if the ref name hides nothing in an overlap with itself.
   */
  lemma JumpIsExactIff(branch: seq<Byte>)
    requires IsUtf8(branch)
    ensures (forall resp :: IsUtf8(resp) ==> JumpIsExact(resp, REFS_HEADS + branch))
       <==> HidesNothing(REFS_HEADS + branch)
  {
    var target := REFS_HEADS + branch;
    RefNameIsUtf8(branch);
    if HidesNothing(target) {
      forall resp | IsUtf8(resp) ensures JumpIsExact(resp, target) {
        HidesNothingNoneInside(resp, target);
        ScanIsFirstVerdict(resp, target, Judge(resp), 0);
      }
    } else {
      var d: nat :| Hides(target, d);
      HiddenIsMissed(target, d);
    }
  }

  /** "master" */
  const MASTER: seq<Byte> := [109, 97, 115, 116, 101, 114]

  /** A name need not be long to hide something: "refs/heads/master" starts and ends with an 'r'. */
  lemma MasterHidesSomething()
    ensures Hides(REFS_HEADS + MASTER, 16) && !HidesNothing(REFS_HEADS + MASTER)
    ensures exists resp :: JumpIsInexact(resp, REFS_HEADS + MASTER)
  {
    var target := REFS_HEADS + MASTER;
    EndsAreHidden(target);
    AsciiIsUtf8(target);
    HiddenIsMissed(target, 16);
  }

  lemma EndsAreHidden(target: seq<Byte>)
    requires |target| == 17 && target[0] == target[16]
    ensures Hides(target, 16)
  {
    assert target[16..] == [target[16]] == target[..1];
    assert |TrimEnd(target[..16])| <= 16;
  }

  // ------------------------------------------------------------ a panic under every name

  /** Under every branch name a valid response of 41 bytes and the ref makes the scanner panic. */
  lemma PanicIsReachable(branch: seq<Byte>)
    requires IsUtf8(branch)
    ensures var resp := Filler(39) + (REFS_HEADS + branch);
      IsUtf8(resp) && Scan(resp, REFS_HEADS + branch) == Panic
  {
    var target := REFS_HEADS + branch;
    var resp := Filler(39) + target;
    RefNameIsUtf8(branch);
    FillerIsUtf8(39);
    Utf8Concat(Filler(39), target);
    assert target[0..|target|] == target;
    FirstBehind(Filler(39), target, target);
    assert resp[41..41] == [] && resp[40] == 97 && resp[1] == 0xA9;
    assert SplitsCharacter(resp, 41, 41);
    VerdictIsPanic(resp, 41);
  }
}
