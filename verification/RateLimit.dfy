/**
  The per-namespace sliding-window limiter. Instants are nanoseconds since the clock's origin, and
  the clock reading is a parameter of every operation. `history` records every instant ever
  recorded; the theorems compare the pruned lists with it.
 */
module RateLimit {
  import opened Seqs

  /** One hour. */
  const WINDOW: nat := 3_600_000_000_000

  type U32 = x: int | 0 <= x < 0x1_0000_0000

  datatype QuotaSnapshot = QuotaSnapshot(limit: U32, used: U32, resetInSecs: Option<nat>) {
    predicate Exceeded() {
      used >= limit
    }
  }

  function AtLeastOne(limit: U32): (r: U32)
    ensures r >= 1
  {
    if limit == 0 then 1 else limit
  }

  /** An instant counts at `now` if it is less than a window old. Before the first full window all count. */
  predicate Live(t: nat, now: nat) {
    t + WINDOW > now
  }

  /** The list prune leaves: everything from the first live entry on. */
  function Pruned(entries: seq<nat>, now: nat): (r: seq<nat>)
    ensures |r| <= |entries|
  {
    if entries == [] || Live(entries[0], now) then entries else Pruned(entries[1..], now)
  }

  lemma {:induction false} PrunedIsSuffix(entries: seq<nat>, now: nat)
    ensures var r := Pruned(entries, now);
      && r == entries[|entries| - |r|..]
      && (forall k :: 0 <= k < |entries| - |r| ==> !Live(entries[k], now))
      && (r != [] ==> Live(r[0], now))
  {
    if entries != [] && !Live(entries[0], now) {
      PrunedIsSuffix(entries[1..], now);
    }
  }

  /** The entries of a list that are live at `now`. */
  function LiveOnly(entries: seq<nat>, now: nat): seq<nat> {
    if entries == [] then []
    else
      var last := |entries| - 1;
      LiveOnly(entries[..last], now) + if Live(entries[last], now) then [entries[last]] else []
  }

  /** The length as a 32-bit number. */
  function Cut32(n: nat): (r: U32)
    ensures n < 0x1_0000_0000 ==> r == n
  {
    n % 0x1_0000_0000
  }

  function Entries(perNs: map<string, seq<nat>>, ns: string): seq<nat> {
    if ns in perNs then perNs[ns] else []
  }

  function ResetInSecs(entries: seq<nat>, now: nat): Option<nat> {
    if entries == [] then None
    else
      var elapsed := if now >= entries[0] then now - entries[0] else 0;
      Some((if WINDOW >= elapsed then WINDOW - elapsed else 0) / 1_000_000_000)
  }

  /** The reported quota, with the length cut to 32 bits as the source does. */
  function SnapshotOf(limit: U32, entries: seq<nat>, now: nat): QuotaSnapshot {
    var kept := Pruned(entries, now);
    QuotaSnapshot(limit, Cut32(|kept|), ResetInSecs(kept, now))
  }

  method Prune(entries: seq<nat>, now: nat) returns (kept: seq<nat>)
    ensures kept == Pruned(entries, now)
  {
    if now < WINDOW {
      return entries;
    }
    var cutoff := now - WINDOW;
    var keepFrom := 0;
    while keepFrom < |entries| && entries[keepFrom] <= cutoff
      invariant 0 <= keepFrom <= |entries|
      invariant Pruned(entries, now) == Pruned(entries[keepFrom..], now)
    {
      assert entries[keepFrom..][1..] == entries[keepFrom + 1..];
      keepFrom := keepFrom + 1;
    }
    kept := entries[keepFrom..];
  }

  datatype Op = Look(ns: string, now: nat) | Note(ns: string, now: nat) | Limit(limit: U32)

  datatype State = State(perNs: map<string, seq<nat>>, limit: U32, history: map<string, seq<nat>>)

  /** The value of the object after one call: `Look` is snapshot or check, `Note` is record. */
  function Apply(s: State, op: Op): State {
    match op
    case Look(ns, now) =>
      if ns in s.perNs then s.(perNs := s.perNs[ns := Pruned(s.perNs[ns], now)]) else s
    case Note(ns, now) =>
      s.(perNs := s.perNs[ns := Pruned(Entries(s.perNs, ns), now) + [now]],
         history := s.history[ns := Entries(s.history, ns) + [now]])
    case Limit(limit) => s.(limit := AtLeastOne(limit))
  }

  class RateLimiter {
    var perNs: map<string, seq<nat>>
    var limit: U32
    /** Every instant recorded for a namespace, in the order it was recorded. */
    ghost var history: map<string, seq<nat>>

    constructor (limit: U32)
      ensures Now() == Init(limit)
    {
      this.limit := AtLeastOne(limit);
      perNs := map[];
      history := map[];
    }

    ghost function Now(): State
      reads this
    {
      State(perNs, limit, history)
    }

    /** Takes effect at once; recorded instants are kept. */
    method SetLimit(limit: U32)
      modifies `limit
      ensures Now() == Apply(old(Now()), Limit(limit))
    {
      this.limit := AtLeastOne(limit);
    }

    /** Prunes the list as a side effect, so `used` counts the window only. */
    method Snapshot(ns: string, now: nat) returns (s: QuotaSnapshot)
      modifies `perNs
      ensures s == SnapshotOf(limit, Entries(old(perNs), ns), now)
      ensures Now() == Apply(old(Now()), Look(ns, now))
    {
      if ns !in perNs {
        return QuotaSnapshot(limit, 0, None);
      }
      var v := Prune(perNs[ns], now);
      perNs := perNs[ns := v];
      s := QuotaSnapshot(limit, Cut32(|v|), ResetInSecs(v, now));
    }

    /** Whether the namespace may start another job; nothing is consumed. */
    method Check(ns: string, now: nat) returns (s: QuotaSnapshot)
      modifies `perNs
      ensures s == SnapshotOf(limit, Entries(old(perNs), ns), now)
      ensures Now() == Apply(old(Now()), Look(ns, now))
    {
      s := Snapshot(ns, now);
    }

    method Record(ns: string, now: nat)
      modifies `perNs, `history
      ensures Now() == Apply(old(Now()), Note(ns, now))
    {
      var entries := Entries(perNs, ns);
      var kept := Prune(entries, now);
      perNs := perNs[ns := kept + [now]];
      history := history[ns := Entries(history, ns) + [now]];
    }
  }

  // ------------------------------------------------------------ runs of the limiter

  function Run(s: State, ops: seq<Op>): State {
    if ops == [] then s else Apply(Run(s, ops[..|ops| - 1]), ops[|ops| - 1])
  }

  function Init(limit: U32): State {
    State(map[], AtLeastOne(limit), map[])
  }

  function TimeOf(op: Op, before: nat): nat {
    if op.Limit? then before else op.now
  }

  /** The clock reading of the last operation that has one. */
  function LastTime(ops: seq<Op>): nat {
    if ops == [] then 0 else TimeOf(ops[|ops| - 1], LastTime(ops[..|ops| - 1]))
  }

  ghost predicate Monotone(ops: seq<Op>) {
    ops == [] || (Monotone(ops[..|ops| - 1]) && LastTime(ops[..|ops| - 1]) <= LastTime(ops))
  }

  /** An operation on one namespace leaves every other namespace's list and history alone. */
  lemma NamespacesAreIndependent(s: State, op: Op, ns: string)
    requires op.Limit? || op.ns != ns
    ensures Entries(Apply(s, op).perNs, ns) == Entries(s.perNs, ns)
    ensures Entries(Apply(s, op).history, ns) == Entries(s.history, ns)
  {
    match op
    case Look(_, _) =>
    case Note(_, _) =>
    case Limit(_) =>
  }

  // ------------------------------------------------------------ the pruned list against the history

  ghost predicate Sorted(entries: seq<nat>) {
    forall i, j :: 0 <= i <= j < |entries| ==> entries[i] <= entries[j]
  }

  /** A list with no live entry filters to nothing. */
  lemma {:induction false} LiveOnlyOfDead(entries: seq<nat>, now: nat)
    requires forall k :: 0 <= k < |entries| ==> !Live(entries[k], now)
    ensures LiveOnly(entries, now) == []
  {
    if entries == [] {
    } else {
      LiveOnlyOfDead(entries[..|entries| - 1], now);
    }
  }

  lemma {:induction false} LiveOnlyOfLive(entries: seq<nat>, now: nat)
    requires forall k :: 0 <= k < |entries| ==> Live(entries[k], now)
    ensures LiveOnly(entries, now) == entries
  {
    if entries == [] {
    } else {
      LiveOnlyOfLive(entries[..|entries| - 1], now);
    }
  }

  lemma {:induction false} LiveOnlyConcat(a: seq<nat>, b: seq<nat>, now: nat)
    ensures LiveOnly(a + b, now) == LiveOnly(a, now) + LiveOnly(b, now)
    decreases |b|
  {
    if b == [] {
      assert a + b == a;
    } else {
      LiveOnlyConcat(a, b[..|b| - 1], now);
      assert (a + b)[..|a + b| - 1] == a + b[..|b| - 1];
    }
  }

  /** Pruning never drops a live entry, whatever the order of the instants. */
  lemma PruneKeepsLive(entries: seq<nat>, now: nat)
    ensures LiveOnly(Pruned(entries, now), now) == LiveOnly(entries, now)
  {
    var kept := Pruned(entries, now);
    PrunedIsSuffix(entries, now);
    var dropped := entries[..|entries| - |kept|];
    assert entries == dropped + kept;
    LiveOnlyConcat(dropped, kept, now);
    LiveOnlyOfDead(dropped, now);
  }

  /** On sorted instants it keeps nothing else. */
  lemma PruneSorted(entries: seq<nat>, now: nat)
    requires Sorted(entries)
    ensures Pruned(entries, now) == LiveOnly(entries, now)
  {
    var kept := Pruned(entries, now);
    PrunedIsSuffix(entries, now);
    assert forall k :: 0 <= k < |kept| ==> kept[k] == entries[|entries| - |kept| + k];
    PruneKeepsLive(entries, now);
    LiveOnlyOfLive(kept, now);
  }

  /** What is live later was live earlier. */
  lemma {:induction false} LiveOnlyTwice(entries: seq<nat>, earlier: nat, later: nat)
    requires earlier <= later
    ensures LiveOnly(LiveOnly(entries, earlier), later) == LiveOnly(entries, later)
  {
    if entries == [] {
    } else {
      var last := |entries| - 1;
      LiveOnlyTwice(entries[..last], earlier, later);
      LiveOnlyConcat(LiveOnly(entries[..last], earlier),
        if Live(entries[last], earlier) then [entries[last]] else [], later);
      assert LiveOnly([entries[last]], later) == if Live(entries[last], later) then [entries[last]] else [] by {
        assert [entries[last]][..0] == [];
      }
    }
  }

  ghost predicate ListIs(s: State, ns: string, asOf: nat) {
    Entries(s.perNs, ns) == LiveOnly(Entries(s.history, ns), asOf)
  }

  ghost predicate Upto(entries: seq<nat>, now: nat) {
    Sorted(entries) && forall k :: 0 <= k < |entries| ==> entries[k] <= now
  }

  /** The history is sorted up to `now`, and the list is what was live of it at some time since. */
  ghost predicate Tracks(s: State, ns: string, now: nat) {
    && Upto(Entries(s.history, ns), now)
    && exists since: nat :: since <= now && ListIs(s, ns, since)
  }

  lemma {:induction false} LiveOnlySorted(entries: seq<nat>, now: nat, upto: nat)
    requires Upto(entries, upto)
    ensures Upto(LiveOnly(entries, now), upto)
  {
    if entries == [] {
    } else {
      var last := |entries| - 1;
      LiveOnlySorted(entries[..last], now, entries[last]);
    }
  }

  /** Pruning the list at a later time gives the live part of the history at that time. */
  lemma PrunedIsLiveHistory(s: State, ns: string, before: nat, now: nat)
    requires Tracks(s, ns, before) && before <= now
    ensures Pruned(Entries(s.perNs, ns), now) == LiveOnly(Entries(s.history, ns), now)
  {
    var since: nat :| since <= before && ListIs(s, ns, since);
    var history := Entries(s.history, ns);
    LiveOnlySorted(history, since, before);
    PruneSorted(Entries(s.perNs, ns), now);
    LiveOnlyTwice(history, since, now);
  }

  lemma AppendUpto(entries: seq<nat>, before: nat, now: nat)
    requires Upto(entries, before) && before <= now
    ensures Upto(entries + [now], now)
  {
    var more := entries + [now];
    forall i, j | 0 <= i <= j < |more|
      ensures more[i] <= more[j]
    {
      assert j < |entries| ==> more[i] == entries[i] && more[j] == entries[j];
    }
  }

  lemma TracksSince(s: State, ns: string, since: nat, now: nat)
    requires Upto(Entries(s.history, ns), now) && since <= now && ListIs(s, ns, since)
    ensures Tracks(s, ns, now)
  {
  }

  lemma LookPrunes(s: State, ns: string, now: nat)
    ensures Entries(Apply(s, Look(ns, now)).perNs, ns) == Pruned(Entries(s.perNs, ns), now)
    ensures Apply(s, Look(ns, now)).history == s.history && Apply(s, Look(ns, now)).limit == s.limit
  {
  }

  lemma PrunedTracks(s: State, s': State, ns: string, before: nat, now: nat)
    requires Tracks(s, ns, before) && before <= now
    requires s'.history == s.history && Entries(s'.perNs, ns) == Pruned(Entries(s.perNs, ns), now)
    ensures ListIs(s', ns, now) && Tracks(s', ns, now)
  {
    PrunedIsLiveHistory(s, ns, before, now);
    TracksSince(s', ns, now, now);
  }

  lemma LookTracks(s: State, ns: string, before: nat, now: nat)
    requires Tracks(s, ns, before) && before <= now
    ensures ListIs(Apply(s, Look(ns, now)), ns, now) && Tracks(Apply(s, Look(ns, now)), ns, now)
  {
    LookPrunes(s, ns, now);
    PrunedTracks(s, Apply(s, Look(ns, now)), ns, before, now);
  }

  lemma NoteTracks(s: State, ns: string, before: nat, now: nat)
    requires Tracks(s, ns, before) && before <= now
    ensures ListIs(Apply(s, Note(ns, now)), ns, now) && Tracks(Apply(s, Note(ns, now)), ns, now)
  {
    var history := Entries(s.history, ns);
    PrunedIsLiveHistory(s, ns, before, now);
    LiveOnlyConcat(history, [now], now);
    LiveOnlyOfLive([now], now);
    AppendUpto(history, before, now);
    TracksSince(Apply(s, Note(ns, now)), ns, now, now);
  }

  lemma OtherTracks(s: State, s': State, ns: string, before: nat, now: nat)
    requires Tracks(s, ns, before) && before <= now
    requires Entries(s'.perNs, ns) == Entries(s.perNs, ns) && Entries(s'.history, ns) == Entries(s.history, ns)
    ensures Tracks(s', ns, now)
  {
    var since: nat :| since <= before && ListIs(s, ns, since);
    TracksSince(s', ns, since, now);
  }

  lemma StepTracks(s: State, op: Op, ns: string, before: nat)
    requires Tracks(s, ns, before) && before <= TimeOf(op, before)
    ensures Tracks(Apply(s, op), ns, TimeOf(op, before))
    ensures !op.Limit? && op.ns == ns ==> ListIs(Apply(s, op), ns, op.now)
  {
    if op.Limit? || op.ns != ns {
      NamespacesAreIndependent(s, op, ns);
      OtherTracks(s, Apply(s, op), ns, before, TimeOf(op, before));
    } else if op.Look? {
      LookTracks(s, ns, before, op.now);
    } else {
      NoteTracks(s, ns, before, op.now);
    }
  }

  /**
    Along every run with a clock that does not go back, a namespace's list after an operation on it
    is exactly its full history filtered to the last window.
   */
  lemma {:induction false} ListIsLiveHistory(limit: U32, ops: seq<Op>, ns: string)
    requires Monotone(ops)
    ensures Tracks(Run(Init(limit), ops), ns, LastTime(ops))
    ensures ops != [] && !ops[|ops| - 1].Limit? && ops[|ops| - 1].ns == ns ==>
      ListIs(Run(Init(limit), ops), ns, LastTime(ops))
    decreases |ops|
  {
    if ops == [] {
      assert ListIs(Init(limit), ns, 0);
    } else {
      var last := |ops| - 1;
      ListIsLiveHistory(limit, ops[..last], ns);
      StepTracks(Run(Init(limit), ops[..last]), ops[last], ns, LastTime(ops[..last]));
    }
  }

  // ------------------------------------------------------------ the reset hint

  /**
    The oldest entry is still live before `resetInSecs` seconds have passed, whatever the order of
    the instants, and gone after one more second unless its instant lies in the future.
   */
  lemma ResetBounds(entries: seq<nat>, now: nat, t: nat)
    requires Pruned(entries, now) != []
    ensures var kept, r := Pruned(entries, now), ResetInSecs(Pruned(entries, now), now).value;
      && (now <= t < now + r * 1_000_000_000 ==> Live(kept[0], t))
      && (kept[0] <= now && t >= now + (r + 1) * 1_000_000_000 ==> !Live(kept[0], t))
  {
  }

  /** A namespace that is exactly at its limit regains a slot within that second, and not before. */
  lemma ResetFreesSlot(limit: U32, entries: seq<nat>, now: nat, t: nat)
    requires Upto(entries, now) && now <= t
    requires Pruned(entries, now) != [] && |Pruned(entries, now)| == limit
    ensures SnapshotOf(limit, entries, now).Exceeded()
    ensures var r := ResetInSecs(Pruned(entries, now), now).value;
      && (t < now + r * 1_000_000_000 ==> SnapshotOf(limit, entries, t).Exceeded())
      && (t >= now + (r + 1) * 1_000_000_000 ==> !SnapshotOf(limit, entries, t).Exceeded())
  {
    var kept := Pruned(entries, now);
    PrunedIsSuffix(entries, now);
    assert kept[0] == entries[|entries| - |kept|];
    ResetBounds(entries, now, t);
    PruneTwice(entries, now, t);
    PrunedOrShorter(kept, t);
    ExceededMeans(limit, entries, now);
    ExceededMeans(limit, entries, t);
  }

  lemma ExceededMeans(limit: U32, entries: seq<nat>, now: nat)
    requires |Pruned(entries, now)| < 0x1_0000_0000
    ensures SnapshotOf(limit, entries, now).Exceeded() <==> |Pruned(entries, now)| >= limit
  {
  }

  lemma PrunedOrShorter(entries: seq<nat>, now: nat)
    requires entries != []
    ensures Live(entries[0], now) ==> Pruned(entries, now) == entries
    ensures !Live(entries[0], now) ==> |Pruned(entries, now)| < |entries|
  {
  }

  /** Pruning now and again later is pruning later. */
  lemma {:induction false} PruneTwice(entries: seq<nat>, now: nat, t: nat)
    requires now <= t
    ensures Pruned(Pruned(entries, now), t) == Pruned(entries, t)
  {
    if entries != [] && !Live(entries[0], now) {
      PruneTwice(entries[1..], now, t);
    }
  }

  // ------------------------------------------------------------ one caller

  /** A caller that checks and, if not over quota, records later; or the operator raising the limit. */
  datatype Turn = Attempt(check: nat, record: nat) | Raise(limit: U32)

  function Take(s: State, ns: string, turn: Turn): State {
    match turn
    case Raise(limit) => Apply(s, Limit(limit))
    case Attempt(check, record) =>
      var looked := Apply(s, Look(ns, check));
      if SnapshotOf(s.limit, Entries(s.perNs, ns), check).Exceeded() then looked else Apply(looked, Note(ns, record))
  }

  ghost predicate NextTurn(s: State, turn: Turn, before: nat) {
    match turn
    case Raise(limit) => s.limit <= limit
    case Attempt(check, record) => before <= check <= record
  }

  /** The records of the window (x, x + WINDOW]. */
  function InWindow(entries: seq<nat>, x: int): nat {
    if entries == [] then 0
    else
      var last := |entries| - 1;
      InWindow(entries[..last], x) + if x < entries[last] <= x + WINDOW then 1 else 0
  }

  ghost predicate WindowsBounded(s: State, ns: string) {
    forall x: int :: InWindow(Entries(s.history, ns), x) <= s.limit
  }

  /** Entries in a window that reaches up to `now` are live at `now`. */
  lemma {:induction false} InWindowIsLive(entries: seq<nat>, x: int, now: nat)
    requires now <= x + WINDOW
    ensures InWindow(entries, x) <= |LiveOnly(entries, now)|
  {
    if entries == [] {
    } else {
      InWindowIsLive(entries[..|entries| - 1], x, now);
    }
  }

  /** Entries live at `now` and not later than it lie in the window ending at `now`. */
  lemma {:induction false} LiveIsInWindow(entries: seq<nat>, now: nat)
    requires forall k :: 0 <= k < |entries| ==> entries[k] <= now
    ensures |LiveOnly(entries, now)| == InWindow(entries, now - WINDOW)
  {
    if entries == [] {
    } else {
      LiveIsInWindow(entries[..|entries| - 1], now);
    }
  }

  lemma RecordKeepsBound(history: seq<nat>, limit: nat, check: nat, record: nat)
    requires check <= record && |LiveOnly(history, check)| < limit
    requires forall x: int :: InWindow(history, x) <= limit
    ensures forall x: int :: InWindow(history + [record], x) <= limit
  {
    assert (history + [record])[..|history|] == history;
    forall x: int
      ensures InWindow(history + [record], x) <= limit
    {
      if x < record <= x + WINDOW {
        InWindowIsLive(history, x, check);
      }
    }
  }

  lemma TurnKeepsBound(s: State, ns: string, turn: Turn, before: nat)
    requires Tracks(s, ns, before) && WindowsBounded(s, ns) && NextTurn(s, turn, before)
    ensures WindowsBounded(Take(s, ns, turn), ns)
    ensures Tracks(Take(s, ns, turn), ns, if turn.Raise? then before else turn.record)
  {
    match turn
    case Raise(limit) =>
      StepTracks(s, Limit(limit), ns, before);
    case Attempt(check, record) =>
      AttemptKeepsBound(s, ns, check, record, before);
  }

  /** Under quota means: fewer live records than the limit. The length is not cut, being at most the limit. */
  lemma UnderQuota(s: State, ns: string, before: nat, check: nat)
    requires Tracks(s, ns, before) && WindowsBounded(s, ns) && before <= check
    requires !SnapshotOf(s.limit, Entries(s.perNs, ns), check).Exceeded()
    ensures |LiveOnly(Entries(s.history, ns), check)| < s.limit
  {
    PrunedIsLiveHistory(s, ns, before, check);
    LiveFitsLimit(Entries(s.history, ns), s.limit, check);
    ExceededMeans(s.limit, Entries(s.perNs, ns), check);
  }

  lemma LiveFitsLimit(history: seq<nat>, limit: U32, check: nat)
    requires Upto(history, check) && forall x: int :: InWindow(history, x) <= limit
    ensures |LiveOnly(history, check)| <= limit
  {
    assert forall k :: 0 <= k < |history| ==> history[k] <= check;
    LiveIsInWindow(history, check);
  }

  lemma NoteAppends(s: State, ns: string, now: nat)
    ensures Entries(Apply(s, Note(ns, now)).history, ns) == Entries(s.history, ns) + [now]
    ensures Apply(s, Note(ns, now)).limit == s.limit
  {
  }

  lemma AttemptKeepsBound(s: State, ns: string, check: nat, record: nat, before: nat)
    requires Tracks(s, ns, before) && WindowsBounded(s, ns) && before <= check <= record
    ensures WindowsBounded(Take(s, ns, Attempt(check, record)), ns)
    ensures Tracks(Take(s, ns, Attempt(check, record)), ns, record)
  {
    var looked := Apply(s, Look(ns, check));
    LookPrunes(s, ns, check);
    LookTracks(s, ns, before, check);
    if SnapshotOf(s.limit, Entries(s.perNs, ns), check).Exceeded() {
      LaterTracks(looked, ns, check, record);
    } else {
      UnderQuota(s, ns, before, check);
      RecordKeepsBound(Entries(s.history, ns), s.limit, check, record);
      NoteAppends(looked, ns, record);
      NoteTracks(looked, ns, check, record);
    }
  }

  lemma LaterTracks(s: State, ns: string, now: nat, later: nat)
    requires Tracks(s, ns, now) && now <= later
    ensures Tracks(s, ns, later)
  {
    OtherTracks(s, s, ns, now, later);
  }

  function TakeAll(s: State, ns: string, turns: seq<Turn>): State {
    if turns == [] then s else Take(TakeAll(s, ns, turns[..|turns| - 1]), ns, turns[|turns| - 1])
  }

  function TurnTime(turns: seq<Turn>): nat {
    if turns == [] then 0
    else
      var last := turns[|turns| - 1];
      if last.Raise? then TurnTime(turns[..|turns| - 1]) else last.record
  }

  ghost predicate SequentialTurns(s: State, ns: string, turns: seq<Turn>) {
    turns == []
    || (var before := turns[..|turns| - 1];
        && SequentialTurns(s, ns, before)
        && NextTurn(TakeAll(s, ns, before), turns[|turns| - 1], TurnTime(before)))
  }

  /** One sequential caller, limit never lowered: no window of an hour holds more records than the limit. */
  lemma {:induction false} WindowsStayBounded(limit: U32, ns: string, turns: seq<Turn>)
    requires SequentialTurns(Init(limit), ns, turns)
    ensures Tracks(TakeAll(Init(limit), ns, turns), ns, TurnTime(turns))
    ensures WindowsBounded(TakeAll(Init(limit), ns, turns), ns)
    decreases |turns|
  {
    if turns == [] {
      assert ListIs(Init(limit), ns, 0);
    } else {
      var before := turns[..|turns| - 1];
      WindowsStayBounded(limit, ns, before);
      TurnKeepsBound(TakeAll(Init(limit), ns, before), ns, turns[|turns| - 1], TurnTime(before));
    }
  }

  // ------------------------------------------------------------ several callers

  /** c callers share the limiter; an approved caller has checked but neither recorded nor given up. */
  datatype Shared = Shared(limiter: State, approved: set<nat>)

  datatype Event = Checks(caller: nat, now: nat) | Records(caller: nat, now: nat) | GivesUp(caller: nat)
    | RaisesLimit(limit: U32)

  function Happens(sh: Shared, ns: string, e: Event): Shared {
    match e
    case Checks(caller, now) =>
      var looked := Apply(sh.limiter, Look(ns, now));
      if SnapshotOf(sh.limiter.limit, Entries(sh.limiter.perNs, ns), now).Exceeded() then Shared(looked, sh.approved)
      else Shared(looked, sh.approved + {caller})
    case Records(caller, now) => Shared(Apply(sh.limiter, Note(ns, now)), sh.approved - {caller})
    case GivesUp(caller) => Shared(sh.limiter, sh.approved - {caller})
    case RaisesLimit(limit) => Shared(Apply(sh.limiter, Limit(limit)), sh.approved)
  }

  /** What a caller may do next: an idle one checks, an approved one records or gives up. */
  ghost predicate MayHappen(sh: Shared, c: nat, e: Event) {
    match e
    case Checks(caller, _) => caller < c && caller !in sh.approved
    case Records(caller, _) => caller in sh.approved
    case GivesUp(caller) => caller in sh.approved
    case RaisesLimit(limit) => sh.limiter.limit <= limit
  }

  function HappenAll(sh: Shared, ns: string, events: seq<Event>): Shared {
    if events == [] then sh else Happens(HappenAll(sh, ns, events[..|events| - 1]), ns, events[|events| - 1])
  }

  ghost predicate MayHappenAll(sh: Shared, ns: string, c: nat, events: seq<Event>) {
    events == []
    || (var before := events[..|events| - 1];
        MayHappenAll(sh, ns, c, before) && MayHappen(HappenAll(sh, ns, before), c, events[|events| - 1]))
  }

  ghost predicate SharedBound(sh: Shared, ns: string, c: nat) {
    && (forall caller :: caller in sh.approved ==> caller < c)
    && |Entries(sh.limiter.perNs, ns)| + |sh.approved| <= sh.limiter.limit + c - 1
    && sh.limiter.limit + c <= 0x1_0000_0000 && 1 <= sh.limiter.limit
  }

  lemma EventKeepsBound(sh: Shared, ns: string, c: nat, e: Event)
    requires SharedBound(sh, ns, c) && MayHappen(sh, c, e) && Happens(sh, ns, e).limiter.limit + c <= 0x1_0000_0000
    ensures SharedBound(Happens(sh, ns, e), ns, c)
  {
    match e
    case Checks(caller, now) => CheckKeepsBound(sh, ns, c, caller, now);
    case Records(caller, now) => RemoveOne(sh.approved, caller);
    case GivesUp(caller) => RemoveOne(sh.approved, caller);
    case RaisesLimit(limit) =>
  }

  lemma RemoveOne(s: set<nat>, x: nat)
    requires x in s
    ensures |s - {x}| == |s| - 1
  {
    assert s == (s - {x}) + {x};
  }

  lemma BelowRange(s: set<nat>, c: nat)
    requires forall x :: x in s ==> x < c
    ensures |s| <= c
  {
    assert Range(c) == s + (Range(c) - s);
  }

  lemma CheckKeepsBound(sh: Shared, ns: string, c: nat, caller: nat, now: nat)
    requires SharedBound(sh, ns, c) && caller < c && caller !in sh.approved
    ensures SharedBound(Happens(sh, ns, Checks(caller, now)), ns, c)
  {
    BelowRange(sh.approved + {caller}, c);
  }

  /** The history's live part is never longer than the list, at any time not before the clock readings used. */
  ghost predicate ListHoldsLive(s: State, ns: string, t: nat) {
    LiveOnly(Entries(s.history, ns), t) == LiveOnly(Entries(s.perNs, ns), t)
  }

  lemma PruneKeepsLater(entries: seq<nat>, now: nat, t: nat)
    requires now <= t
    ensures LiveOnly(Pruned(entries, now), t) == LiveOnly(entries, t)
  {
    PrunedIsSuffix(entries, now);
    DeadFrontCountsNot(entries, |entries| - |Pruned(entries, now)|, t);
  }

  lemma DeadFrontCountsNot(entries: seq<nat>, n: nat, t: nat)
    requires n <= |entries| && forall k :: 0 <= k < n ==> !Live(entries[k], t)
    ensures LiveOnly(entries[n..], t) == LiveOnly(entries, t)
  {
    assert entries == entries[..n] + entries[n..];
    LiveOnlyConcat(entries[..n], entries[n..], t);
    LiveOnlyOfDead(entries[..n], t);
  }

  lemma StepHoldsLive(s: State, op: Op, ns: string, t: nat)
    requires ListHoldsLive(s, ns, t) && (op.Limit? || (op.ns == ns && op.now <= t))
    ensures ListHoldsLive(Apply(s, op), ns, t)
  {
    if !op.Limit? {
      PruneKeepsLater(Entries(s.perNs, ns), op.now, t);
      LiveOnlyConcat(Entries(s.history, ns), [op.now], t);
      LiveOnlyConcat(Pruned(Entries(s.perNs, ns), op.now), [op.now], t);
    }
  }

  lemma {:induction false} LiveOnlyIsShorter(entries: seq<nat>, now: nat)
    ensures |LiveOnly(entries, now)| <= |entries|
  {
    if entries == [] {
    } else {
      LiveOnlyIsShorter(entries[..|entries| - 1], now);
    }
  }

  ghost predicate NotLaterThan(events: seq<Event>, t: nat) {
    forall k :: 0 <= k < |events| ==>
      (events[k].Checks? ==> events[k].now <= t) && (events[k].Records? ==> events[k].now <= t)
  }

  function Start(limit: U32): Shared {
    Shared(Init(limit), {})
  }

  /**
    c callers, each checking and then recording, limit never lowered, clock readings in any order:
    live records plus approved callers never exceed limit + c - 1, as long as that fits 32 bits.
   */
  lemma {:induction false} SharedLimitOvershoot(limit: U32, ns: string, c: nat, events: seq<Event>, t: nat)
    requires 1 <= c && MayHappenAll(Start(limit), ns, c, events) && NotLaterThan(events, t)
    requires HappenAll(Start(limit), ns, events).limiter.limit + c <= 0x1_0000_0000
    ensures var sh := HappenAll(Start(limit), ns, events);
      && SharedBound(sh, ns, c) && ListHoldsLive(sh.limiter, ns, t)
      && |LiveOnly(Entries(sh.limiter.history, ns), t)| + |sh.approved| <= sh.limiter.limit + c - 1
    decreases |events|
  {
    if events == [] {
    } else {
      var before, e := events[..|events| - 1], events[|events| - 1];
      var sh := HappenAll(Start(limit), ns, before);
      LimitIsPositive(limit, ns, before);
      if e.RaisesLimit? {
        assert sh.limiter.limit <= e.limit;
      }
      SharedLimitOvershoot(limit, ns, c, before, t);
      EventKeepsBound(sh, ns, c, e);
      match e
      case Checks(_, now) => StepHoldsLive(sh.limiter, Look(ns, now), ns, t);
      case Records(_, now) => StepHoldsLive(sh.limiter, Note(ns, now), ns, t);
      case GivesUp(_) =>
      case RaisesLimit(l) => StepHoldsLive(sh.limiter, Limit(l), ns, t);
    }
    LiveOnlyIsShorter(Entries(HappenAll(Start(limit), ns, events).limiter.perNs, ns), t);
  }

  lemma {:induction false} LimitIsPositive(limit: U32, ns: string, events: seq<Event>)
    ensures 1 <= HappenAll(Start(limit), ns, events).limiter.limit
    decreases |events|
  {
    if events == [] {
    } else {
      LimitIsPositive(limit, ns, events[..|events| - 1]);
    }
  }

  // ------------------------------------------------------------ runs that reach the bound, and pass it

  /** n readings of one instant. */
  function Nows(n: nat, now: nat): seq<nat> {
    seq(n, _ => now)
  }

  ghost predicate Holds(sh: Shared, limit: U32, ns: string, now: nat, n: nat, k: nat) {
    && sh.limiter.limit == limit && sh.approved == Range(k)
    && Entries(sh.limiter.perNs, ns) == Nows(n, now) && Entries(sh.limiter.history, ns) == Nows(n, now)
  }

  ghost predicate GetsThere(limit: U32, ns: string, c: nat, now: nat, n: nat, k: nat, events: seq<Event>) {
    && MayHappenAll(Start(limit), ns, c, events) && NotLaterThan(events, now)
    && Holds(HappenAll(Start(limit), ns, events), limit, ns, now, n, k)
  }

  /** Some run, all at one instant, ends with n records and the callers below k approved. */
  ghost predicate CanHold(limit: U32, ns: string, c: nat, now: nat, n: nat, k: nat) {
    exists events :: GetsThere(limit, ns, c, now, n, k, events)
  }

  lemma PrunedNows(n: nat, now: nat)
    ensures Pruned(Nows(n, now), now) == Nows(n, now) && LiveOnly(Nows(n, now), now) == Nows(n, now)
  {
    LiveOnlyOfLive(Nows(n, now), now);
  }

  lemma HappenOneMore(sh: Shared, ns: string, c: nat, events: seq<Event>, e: Event, t: nat)
    requires MayHappenAll(sh, ns, c, events) && NotLaterThan(events, t)
    requires MayHappen(HappenAll(sh, ns, events), c, e) && NotLaterThan([e], t)
    ensures MayHappenAll(sh, ns, c, events + [e]) && NotLaterThan(events + [e], t)
    ensures HappenAll(sh, ns, events + [e]) == Happens(HappenAll(sh, ns, events), ns, e)
  {
    var more := events + [e];
    assert more[..|events|] == events;
    assert [e][0] == e;
    forall k | 0 <= k < |more|
      ensures (more[k].Checks? ==> more[k].now <= t) && (more[k].Records? ==> more[k].now <= t)
    {
      assert more[k] == if k < |events| then events[k] else e;
    }
  }

  lemma HoldsAfterCheck(sh: Shared, limit: U32, ns: string, c: nat, now: nat, n: nat, k: nat)
    requires Holds(sh, limit, ns, now, n, k) && k < c && n % 0x1_0000_0000 < limit
    ensures MayHappen(sh, c, Checks(k, now)) && Holds(Happens(sh, ns, Checks(k, now)), limit, ns, now, n, k + 1)
  {
    PrunedNows(n, now);
  }

  lemma HoldsAfterRecord(sh: Shared, limit: U32, ns: string, c: nat, now: nat, n: nat, k: nat)
    requires Holds(sh, limit, ns, now, n, k + 1)
    ensures MayHappen(sh, c, Records(k, now)) && Holds(Happens(sh, ns, Records(k, now)), limit, ns, now, n + 1, k)
  {
    PrunedNows(n, now);
    assert Nows(n, now) + [now] == Nows(n + 1, now);
    assert Range(k + 1) - {k} == Range(k);
  }

  lemma CheckOne(limit: U32, ns: string, c: nat, now: nat, n: nat, k: nat)
    requires CanHold(limit, ns, c, now, n, k) && k < c && n % 0x1_0000_0000 < limit
    ensures CanHold(limit, ns, c, now, n, k + 1)
  {
    var events :| GetsThere(limit, ns, c, now, n, k, events);
    HoldsAfterCheck(HappenAll(Start(limit), ns, events), limit, ns, c, now, n, k);
    HappenOneMore(Start(limit), ns, c, events, Checks(k, now), now);
    assert GetsThere(limit, ns, c, now, n, k + 1, events + [Checks(k, now)]);
  }

  lemma RecordOne(limit: U32, ns: string, c: nat, now: nat, n: nat, k: nat)
    requires CanHold(limit, ns, c, now, n, k + 1)
    ensures CanHold(limit, ns, c, now, n + 1, k)
  {
    var events :| GetsThere(limit, ns, c, now, n, k + 1, events);
    HoldsAfterRecord(HappenAll(Start(limit), ns, events), limit, ns, c, now, n, k);
    HappenOneMore(Start(limit), ns, c, events, Records(k, now), now);
    assert GetsThere(limit, ns, c, now, n + 1, k, events + [Records(k, now)]);
  }

  // The runs above are only moved on by single checks and records. What can be reached in that way
  // is worked out for any set `can` of pairs (records, approved callers) that allows these moves.

  ghost predicate CheckMoves(can: (nat, nat) -> bool, limit: U32, c: nat, n: nat, k: nat) {
    can(n, k) && k < c && n % 0x1_0000_0000 < limit ==> can(n, k + 1)
  }

  ghost predicate RecordMoves(can: (nat, nat) -> bool, n: nat, k: nat) {
    can(n, k + 1) ==> can(n + 1, k)
  }

  ghost predicate Moves(can: (nat, nat) -> bool, limit: U32, c: nat) {
    && (forall n: nat, k: nat :: CheckMoves(can, limit, c, n, k))
    && (forall n: nat, k: nat :: RecordMoves(can, n, k))
  }

  /** The first m callers all check before any of them records. */
  lemma {:induction false} CheckMany(can: (nat, nat) -> bool, limit: U32, c: nat, n: nat, m: nat)
    requires Moves(can, limit, c) && can(n, 0) && m <= c && n % 0x1_0000_0000 < limit
    ensures can(n, m)
  {
    if m == 0 {
    } else {
      CheckMany(can, limit, c, n, m - 1);
      assert CheckMoves(can, limit, c, n, m - 1);
    }
  }

  lemma {:induction false} RecordMany(can: (nat, nat) -> bool, limit: U32, c: nat, n: nat, m: nat)
    requires Moves(can, limit, c) && can(n, m)
    ensures can(n + m, 0)
    decreases m
  {
    if m == 0 {
    } else {
      assert RecordMoves(can, n, m - 1);
      RecordMany(can, limit, c, n + 1, m - 1);
    }
  }

  lemma Burst(can: (nat, nat) -> bool, limit: U32, c: nat, n: nat, m: nat)
    requires Moves(can, limit, c) && can(n, 0) && m <= c && n % 0x1_0000_0000 < limit
    ensures can(n + m, 0)
  {
    CheckMany(can, limit, c, n, m);
    RecordMany(can, limit, c, n, m);
  }

  /** From where the count reads zero, a single caller gets as far as the limit. */
  lemma {:induction false} OneByOne(can: (nat, nat) -> bool, limit: U32, c: nat, n: nat, m: nat)
    requires Moves(can, limit, c) && can(n, 0) && 1 <= c && m <= limit
    requires n == 0 || n == 0x1_0000_0000
    ensures can(n + m, 0)
  {
    if m == 0 {
    } else {
      OneByOne(can, limit, c, n, m - 1);
      Burst(can, limit, c, n + (m - 1), 1);
    }
  }

  /** With limit - 1 records, all callers check at once, and then all record. */
  lemma AllAtOnce(can: (nat, nat) -> bool, limit: U32, c: nat)
    requires Moves(can, limit, c) && can(0, 0) && 1 <= limit && 1 <= c
    ensures can(limit - 1 + c, 0)
  {
    OneByOne(can, limit, c, 0, limit - 1);
    CheckMany(can, limit, c, limit - 1, c);
    RecordMany(can, limit, c, limit - 1, c);
  }

  /** As many callers as it takes reach 2^32 records; there the count reads zero, and it all happens again. */
  lemma OverAgain(can: (nat, nat) -> bool, limit: U32, c: nat)
    requires Moves(can, limit, c) && can(0, 0) && 1 <= limit && limit + c > 0x1_0000_0000
    ensures can(0x1_0000_0000 + (limit - 1) + c, 0)
  {
    OneByOne(can, limit, c, 0, limit - 1);
    Burst(can, limit, c, limit - 1, 0x1_0000_0000 - (limit - 1));
    OneByOne(can, limit, c, 0x1_0000_0000, limit - 1);
    Burst(can, limit, c, 0x1_0000_0000 + (limit - 1), c);
  }

  ghost function ReachedSet(limit: U32, ns: string, c: nat, now: nat): (nat, nat) -> bool {
    (n: nat, k: nat) => CanHold(limit, ns, c, now, n, k)
  }

  lemma ReachedMoves(limit: U32, ns: string, c: nat, now: nat)
    requires 1 <= limit
    ensures Moves(ReachedSet(limit, ns, c, now), limit, c) && ReachedSet(limit, ns, c, now)(0, 0)
  {
    var can := ReachedSet(limit, ns, c, now);
    forall n: nat, k: nat ensures CheckMoves(can, limit, c, n, k) {
      if can(n, k) && k < c && n % 0x1_0000_0000 < limit {
        CheckOne(limit, ns, c, now, n, k);
      }
    }
    forall n: nat, k: nat ensures RecordMoves(can, n, k) {
      if can(n, k + 1) {
        RecordOne(limit, ns, c, now, n, k);
      }
    }
    NothingYet(limit, ns, c, now);
  }

  lemma NothingYet(limit: U32, ns: string, c: nat, now: nat)
    requires 1 <= limit
    ensures CanHold(limit, ns, c, now, 0, 0)
  {
    assert HappenAll(Start(limit), ns, []) == Start(limit);
    assert GetsThere(limit, ns, c, now, 0, 0, []);
  }

  /** The bound is reached for every limit and every number of callers: with limit - 1 records, all check at once. */
  lemma OvershootIsReached(limit: U32, ns: string, c: nat, now: nat)
    requires 1 <= limit && 1 <= c
    ensures CanHold(limit, ns, c, now, limit - 1 + c, 0)
  {
    ReachedMoves(limit, ns, c, now);
    AllAtOnce(ReachedSet(limit, ns, c, now), limit, c);
  }

  /** Past 2^32 records the reported count starts again at zero, and the limit with it. */
  lemma CountStartsAgain(limit: U32, ns: string, c: nat, now: nat)
    requires 1 <= limit && limit + c > 0x1_0000_0000
    ensures CanHold(limit, ns, c, now, 0x1_0000_0000 + (limit - 1) + c, 0)
  {
    ReachedMoves(limit, ns, c, now);
    OverAgain(ReachedSet(limit, ns, c, now), limit, c);
  }

  /** On every run at this limit, live records plus approved callers are at most `bound`. */
  ghost predicate AlwaysWithin(limit: U32, ns: string, c: nat, bound: nat) {
    forall events, t :: EndsAt(limit, ns, c, events, t) ==>
      var sh := HappenAll(Start(limit), ns, events);
      |LiveOnly(Entries(sh.limiter.history, ns), t)| + |sh.approved| <= bound
  }

  ghost predicate EndsAt(limit: U32, ns: string, c: nat, events: seq<Event>, t: nat) {
    && MayHappenAll(Start(limit), ns, c, events) && NotLaterThan(events, t)
    && HappenAll(Start(limit), ns, events).limiter.limit == limit
  }

  lemma ReachedIsWithin(limit: U32, ns: string, c: nat, now: nat, n: nat, k: nat, bound: nat)
    requires CanHold(limit, ns, c, now, n, k) && AlwaysWithin(limit, ns, c, bound)
    ensures n + k <= bound
  {
    var events :| GetsThere(limit, ns, c, now, n, k, events);
    PrunedNows(n, now);
    assert EndsAt(limit, ns, c, events, now);
  }

  /** The bound limit + c - 1 holds of every run if and only if limit + c is at most 2^32; it is then the best one. */
  lemma OvershootIff(limit: U32, ns: string, c: nat, bound: nat)
    requires 1 <= limit && 1 <= c
    ensures AlwaysWithin(limit, ns, c, limit + c - 1) <==> limit + c <= 0x1_0000_0000
    ensures limit + c <= 0x1_0000_0000 ==> (AlwaysWithin(limit, ns, c, bound) <==> limit + c - 1 <= bound)
  {
    if limit + c <= 0x1_0000_0000 {
      forall events, t | EndsAt(limit, ns, c, events, t)
        ensures var sh := HappenAll(Start(limit), ns, events);
          |LiveOnly(Entries(sh.limiter.history, ns), t)| + |sh.approved| <= limit + c - 1
      {
        SharedLimitOvershoot(limit, ns, c, events, t);
      }
      OvershootIsReached(limit, ns, c, 0);
      if AlwaysWithin(limit, ns, c, bound) {
        ReachedIsWithin(limit, ns, c, 0, limit - 1 + c, 0, bound);
      }
    } else {
      CountStartsAgain(limit, ns, c, 0);
      if AlwaysWithin(limit, ns, c, limit + c - 1) {
        ReachedIsWithin(limit, ns, c, 0, 0x1_0000_0000 + (limit - 1) + c, 0, limit + c - 1);
      }
    }
  }

  /** So the limit itself is never passed if and only if there is a single caller. */
  lemma LimitHoldsIffOneCaller(limit: U32, ns: string, c: nat)
    requires 1 <= limit && 1 <= c
    ensures AlwaysWithin(limit, ns, c, limit) <==> c == 1
  {
    if c == 1 {
      OvershootIff(limit, ns, c, limit);
    } else {
      OvershootIsReached(limit, ns, c, 0);
      if AlwaysWithin(limit, ns, c, limit) {
        ReachedIsWithin(limit, ns, c, 0, limit - 1 + c, 0, limit);
      }
    }
  }

  // ------------------------------------------------------------ what a check answers

  /** How many of the calls recorded a job of the namespace less than an hour before `now`. */
  function RecordedInHour(ops: seq<Op>, ns: string, now: nat): nat {
    if ops == [] then 0
    else
      var last := ops[|ops| - 1];
      RecordedInHour(ops[..|ops| - 1], ns, now)
      + if last.Note? && last.ns == ns && now < last.now + 3_600_000_000_000 then 1 else 0
  }

  /** The limit set last. */
  function LimitSetLast(limit: U32, ops: seq<Op>): U32 {
    if ops == [] then limit
    else if ops[|ops| - 1].Limit? then ops[|ops| - 1].limit
    else LimitSetLast(limit, ops[..|ops| - 1])
  }

  lemma {:induction false} LiveHistoryIsCounted(limit: U32, ops: seq<Op>, ns: string, now: nat)
    ensures |LiveOnly(Entries(Run(Init(limit), ops).history, ns), now)| == RecordedInHour(ops, ns, now)
  {
    if ops == [] {
    } else {
      var last := |ops| - 1;
      var s := Run(Init(limit), ops[..last]);
      LiveHistoryIsCounted(limit, ops[..last], ns, now);
      HistoryAfter(s, ops[last], ns, now);
    }
  }

  lemma HistoryAfter(s: State, op: Op, ns: string, now: nat)
    ensures |LiveOnly(Entries(Apply(s, op).history, ns), now)|
         == |LiveOnly(Entries(s.history, ns), now)| + if op.Note? && op.ns == ns && Live(op.now, now) then 1 else 0
  {
    if op.Note? && op.ns == ns {
      var before := Entries(s.history, ns);
      assert Entries(Apply(s, op).history, ns) == before + [op.now];
      assert (before + [op.now])[..|before|] == before;
    } else {
      assert Entries(Apply(s, op).history, ns) == Entries(s.history, ns);
    }
  }

  lemma {:induction false} LimitAfter(limit: U32, ops: seq<Op>)
    ensures var set_ := LimitSetLast(limit, ops);
      Run(Init(limit), ops).limit == if set_ == 0 then 1 else set_
  {
    if ops == [] {
    } else {
      LimitAfter(limit, ops[..|ops| - 1]);
    }
  }

  /**
    What every check answers along a run with a clock that does not go back, in terms of the calls
    made before: the jobs recorded for the namespace in the last hour, against the limit set last,
    where zero counts as one. The 32-bit count is exact as long as the number fits.
   */
  lemma CheckCountsTheLastHour(limit: U32, ops: seq<Op>, ns: string, now: nat)
    requires Monotone(ops) && LastTime(ops) <= now && RecordedInHour(ops, ns, now) < 0x1_0000_0000
    ensures var s, set_ := Run(Init(limit), ops), LimitSetLast(limit, ops);
      var answer := SnapshotOf(s.limit, Entries(s.perNs, ns), now);
      && answer.used == RecordedInHour(ops, ns, now)
      && answer.limit == (if set_ == 0 then 1 else set_)
      && (answer.Exceeded() <==> RecordedInHour(ops, ns, now) >= set_ && RecordedInHour(ops, ns, now) >= 1)
      && (answer.resetInSecs.None? <==> RecordedInHour(ops, ns, now) == 0)
  {
    var s := Run(Init(limit), ops);
    ListIsLiveHistory(limit, ops, ns);
    PrunedIsLiveHistory(s, ns, LastTime(ops), now);
    LiveHistoryIsCounted(limit, ops, ns, now);
    LimitAfter(limit, ops);
  }
}
