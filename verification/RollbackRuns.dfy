/**
  What holds over every run of the auto-rollback automaton: a rollback has a full grace period of
  unhealthy ticks behind it, and two rollbacks are a grace period apart.
 */
module RollbackRuns {
  import opened Seqs
  import opened AutoRollback

  const GRACE_NANOS := 300_000_000_000

  /** Entry k put the marker there, at time t. */
  ghost predicate StampedAt(log: seq<Entry>, k: nat, t: int) {
    && k < |log| && log[k].Evaluated?
    && log[k].action == Stamp && log[k].landed && log[k].now == t && log[k].listing.unhealthy
  }

  /**
    The entry left the marker At(t) standing. An evaluation of a healthy deployment tries to clear
    it, so it is here only if its write did not take effect. With `strict`, skipped ticks are not
    allowed either.
   */
  ghost predicate LeftStanding(e: Entry, t: int, strict: bool) {
    match e
    case Skipped => !strict
    case Evaluated(_, l, action, landed) =>
      l.marker == At(t) && (landed ==> action == Idle) && (!l.unhealthy ==> action == Clear && !landed)
  }

  ghost predicate StandsSince(log: seq<Entry>, k: nat, t: int, strict: bool) {
    StampedAt(log, k, t) && forall j :: k < j < |log| ==> LeftStanding(log[j], t, strict)
  }

  ghost predicate Justified(log: seq<Entry>, t: int, strict: bool) {
    exists k: nat :: StandsSince(log, k, t, strict)
  }

  predicate IsFire(e: Entry) {
    e.Evaluated? && e.action.Fire?
  }

  /** The rollback at position f: an unhealthy deployment whose marker has stood for the grace period. */
  ghost predicate FireIsDue(log: seq<Entry>, f: nat, strict: bool)
    requires f < |log| && IsFire(log[f])
  {
    var l := log[f].listing;
    && l.unhealthy && l.marker.At? && log[f].now - l.marker.time >= GRACE_NANOS
    && Justified(log[..f], l.marker.time, strict)
  }

  ghost predicate Invariant(s: State, strict: bool) {
    && (s.marker.At? ==> Justified(s.log, s.marker.time, strict))
    && (s.pending.Some? && s.pending.value.marker.At? ==> Justified(s.log, s.pending.value.marker.time, strict))
    && (s.pending.Some? ==> s.marker == s.pending.value.marker || s.marker == EmptyMarker)
    && (strict ==> (s.marker.At? || AboutToStamp(s) ==> s.optedIn))
    && forall f :: 0 <= f < |s.log| && IsFire(s.log[f]) ==> FireIsDue(s.log, f, strict)
  }

  /** A tick is under way that found the deployment unhealthy and not yet stamped. */
  predicate AboutToStamp(s: State) {
    s.pending.Some? && s.pending.value.unhealthy && !s.pending.value.marker.At?
  }

  /** No opt-out takes effect inside a tick that is about to stamp. Inside any other tick it may. */
  ghost predicate RaceFree(steps: seq<Step>) {
    steps == []
    || (var last := |steps| - 1;
        && RaceFree(steps[..last])
        && (steps[last] == Toggle(false, true) ==> !AboutToStamp(Run(Init(), steps[..last]))))
  }

  /** What a decision to fire rests on: the grace period, and the greatest templated revision below the current one. */
  lemma FireMeans(l: Listing, now: int, calls: Calls)
    requires Evaluate(l, now, calls).Fire?
    ensures l.unhealthy && l.marker.At? && now - l.marker.time >= GRACE_NANOS
    ensures l.current > 1 && calls.select.Some?
    ensures IsTarget(calls.select.value, l.current, Evaluate(l, now, calls).target)
    ensures calls.patch.Some? && RollbackSource(Evaluate(l, now, calls).target, calls.patch.value).Some?
  {
  }

  lemma AppendKeepsFires(log: seq<Entry>, e: Entry, strict: bool)
    requires forall f :: 0 <= f < |log| && IsFire(log[f]) ==> FireIsDue(log, f, strict)
    requires IsFire(e) ==>
      e.listing.unhealthy && e.listing.marker.At? && e.now - e.listing.marker.time >= GRACE_NANOS
      && Justified(log, e.listing.marker.time, strict)
    ensures forall f :: 0 <= f < |log + [e]| && IsFire((log + [e])[f]) ==> FireIsDue(log + [e], f, strict)
  {
    var more := log + [e];
    forall f | 0 <= f < |more| && IsFire(more[f])
      ensures FireIsDue(more, f, strict)
    {
      if f < |log| {
        assert FireIsDue(log, f, strict);
        assert more[..f] == log[..f];
      } else {
        assert more[..f] == log;
      }
    }
  }

  lemma AppendKeepsJustified(log: seq<Entry>, e: Entry, t: int, strict: bool)
    requires Justified(log, t, strict) && LeftStanding(e, t, strict)
    ensures Justified(log + [e], t, strict)
  {
    var k: nat :| StandsSince(log, k, t, strict);
    assert StandsSince(log + [e], k, t, strict);
  }

  lemma StampJustifies(log: seq<Entry>, e: Entry, strict: bool)
    requires e.Evaluated? && e.action == Stamp && e.landed && e.listing.unhealthy
    ensures Justified(log + [e], e.now, strict)
  {
    assert StandsSince(log + [e], |log|, e.now, strict);
  }

  lemma ActKeepsInvariant(s: State, now: int, calls: Calls, landed: bool, strict: bool)
    requires Invariant(s, strict) && s.pending.Some?
    ensures Invariant(ActStep(s, now, calls, landed), strict)
  {
    var l := s.pending.value;
    var action := Evaluate(l, now, calls);
    var e := Evaluated(now, l, action, landed);
    if action.Fire? {
      FireMeans(l, now, calls);
    }
    AppendKeepsFires(s.log, e, strict);
    if landed && action == Stamp {
      StampJustifies(s.log, e, strict);
    } else if s.marker.At? && (landed ==> action == Idle) {
      AppendKeepsJustified(s.log, e, s.marker.time, strict);
    }
  }

  lemma ListKeepsInvariant(s: State, dep: Deployment, current: int, strict: bool)
    requires Invariant(s, strict)
    ensures Invariant(ListStep(s, dep, current), strict)
  {
    if s.pending.None? && !s.optedIn {
      AppendKeepsFires(s.log, Skipped, strict);
      if s.marker.At? {
        AppendKeepsJustified(s.log, Skipped, s.marker.time, strict);
      }
    }
  }

  lemma {:induction false} RunIsJustified(steps: seq<Step>, strict: bool)
    requires strict ==> RaceFree(steps)
    ensures Invariant(Run(Init(), steps), strict)
    decreases |steps|
  {
    if steps == [] {
    } else {
      var last := |steps| - 1;
      RunIsJustified(steps[..last], strict);
      var s := Run(Init(), steps[..last]);
      match steps[last]
      case List(dep, current) => ListKeepsInvariant(s, dep, current, strict);
      case Act(now, calls, landed) =>
        if s.pending.Some? {
          ActKeepsInvariant(s, now, calls, landed, strict);
        }
      case Toggle(_, _) =>
    }
  }

  /**
    Every rollback, in every run, whatever opt-outs happen and whichever writes fail: an earlier
    evaluation stamped the marker at least 300 seconds before, and no evaluation since saw a healthy
    deployment without failing to clear the marker.
   */
  lemma FireHasGracePeriod(steps: seq<Step>, f: nat) returns (k: nat)
    requires var log := Run(Init(), steps).log; f < |log| && IsFire(log[f])
    ensures var log := Run(Init(), steps).log;
      && k < f && log[k].Evaluated? && StampedAt(log, k, log[k].now) && log[f].now - log[k].now >= GRACE_NANOS
      && log[f].listing.unhealthy
      && forall j :: k < j < f && log[j].Evaluated? ==>
           log[j].listing.unhealthy || (log[j].action == Clear && !log[j].landed)
  {
    var log := Run(Init(), steps).log;
    RunIsJustified(steps, false);
    assert FireIsDue(log, f, false);
    var t := log[f].listing.marker.time;
    k :| StandsSince(log[..f], k, t, false);
    assert forall j :: k < j < f ==> LeftStanding(log[..f][j], t, false);
    assert forall j :: 0 <= j < f ==> log[..f][j] == log[j];
  }

  /** If moreover no opt-out falls inside a tick about to stamp, no tick from the stamp to the rollback was skipped. */
  lemma NoTickIsSkipped(steps: seq<Step>, f: nat) returns (k: nat)
    requires RaceFree(steps)
    requires var log := Run(Init(), steps).log; f < |log| && IsFire(log[f])
    ensures var log := Run(Init(), steps).log;
      && k < f && log[k].Evaluated? && StampedAt(log, k, log[k].now) && log[f].now - log[k].now >= GRACE_NANOS
      && forall j :: k < j < f ==>
           log[j].Evaluated? && (log[j].listing.unhealthy || (log[j].action == Clear && !log[j].landed))
  {
    var log := Run(Init(), steps).log;
    RunIsJustified(steps, true);
    assert FireIsDue(log, f, true);
    var t := log[f].listing.marker.time;
    k :| StandsSince(log[..f], k, t, true);
    assert forall j :: k < j < f ==> LeftStanding(log[..f][j], t, true);
    assert forall j :: 0 <= j < f ==> log[..f][j] == log[j];
  }

  ghost predicate ClockNeverGoesBack(log: seq<Entry>) {
    forall i, j :: 0 <= i < j < |log| && log[i].Evaluated? && log[j].Evaluated? ==> log[i].now <= log[j].now
  }

  /** Two rollbacks of one deployment, the first of which took effect, are at least 300 seconds apart. */
  lemma FiresAreApart(steps: seq<Step>, f: nat, g: nat)
    requires var log := Run(Init(), steps).log;
      f < g < |log| && IsFire(log[f]) && log[f].landed && IsFire(log[g]) && ClockNeverGoesBack(log)
    ensures var log := Run(Init(), steps).log; log[g].now - log[f].now >= GRACE_NANOS
  {
    var log := Run(Init(), steps).log;
    RunIsJustified(steps, false);
    assert FireIsDue(log, g, false);
    var t := log[g].listing.marker.time;
    var k: nat :| StandsSince(log[..g], k, t, false);
    assert !LeftStanding(log[f], t, false) && log[..g][f] == log[f];
    assert log[..g][k] == log[k];
    assert f < k;
  }

  // ------------------------------------------------------------ an opt-out inside a tick

  /**
    An opt-out that takes effect inside a tick is undone by that tick, as far as the marker goes, if
    and only if the tick had found the deployment unhealthy and without a timestamp.
   */
  lemma OptOutInsideTick(s: State, now: int, calls: Calls)
    requires s.pending.Some?
    ensures var after := ActStep(ToggleStep(s, false, true), now, calls, true);
      !after.optedIn && (after.marker.At? <==> AboutToStamp(s))
  {
  }

  function Broken(): Deployment {
    Deployment(None, None)
  }

  /** Opting out between the listing and the stamp leaves the stamp. */
  lemma StampAfterOptOut(calls: Calls) returns (steps: seq<Step>)
    ensures Run(Init(), steps) == State(false, At(0), None, [Evaluated(0, Listing(true, NoMarker, 2), Stamp, true)])
    ensures !RaceFree(steps)
  {
    var unhealthy := Listing(true, NoMarker, 2);
    steps := RunOn([], Toggle(true, true));
    steps := RunOn(steps, List(Broken(), 2));
    assert Run(Init(), steps) == State(true, NoMarker, Some(unhealthy), []);
    steps := RunOn(steps, Toggle(false, true));
    assert Run(Init(), steps) == State(false, EmptyMarker, Some(unhealthy), []);
    steps := RunOn(steps, Act(0, calls, true));
  }

  /** So re-enabling can resume a countdown from before the opt-out: here across a skipped tick. */
  lemma StaleCountdown() returns (steps: seq<Step>)
    ensures var log := Run(Init(), steps).log;
      |log| == 3 && StampedAt(log, 0, 0) && log[1] == Skipped && IsFire(log[2]) && log[2].now == GRACE_NANOS
    ensures !RaceFree(steps)
  {
    var sets := [ReplicaSet(Some(1), Some(1))];
    var calls := Calls(Some(sets), Some(sets));
    assert sets[..0] == [];
    assert PreviousRevision(2, sets) == Some(1) && IsFirstOf(sets, 1, 0);
    steps := StampAfterOptOut(calls);
    var first := Evaluated(0, Listing(true, NoMarker, 2), Stamp, true);
    steps := RunOn(steps, List(Broken(), 2));
    steps := RunOn(steps, Toggle(true, true));
    assert Run(Init(), steps) == State(true, At(0), None, [first, Skipped]);
    steps := RunOn(steps, List(Broken(), 2));
    steps := RunOn(steps, Act(GRACE_NANOS, calls, true));
  }

  lemma RunOn(steps: seq<Step>, step: Step) returns (more: seq<Step>)
    ensures more == steps + [step] && Run(Init(), more) == Apply(Run(Init(), steps), step)
    ensures !RaceFree(steps) ==> !RaceFree(more)
    ensures step == Toggle(false, true) && AboutToStamp(Run(Init(), steps)) ==> !RaceFree(more)
  {
    more := steps + [step];
    assert more[..|steps|] == steps;
  }
}
