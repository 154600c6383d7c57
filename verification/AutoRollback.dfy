/**
  Auto-rollback of one deployment. All state is in its annotations: the opt-in flag and the
  "unhealthy since" marker. A tick first lists the deployment and later acts on that listing, so the
  opt-in toggle, which is an HTTP request, can fall between the two. Every write says whether it
  took effect. Times are nanoseconds.
 */
module AutoRollback {
  import opened Seqs

  const GRACE_SECS := 300

  // ------------------------------------------------------------ deployment health

  datatype Condition = Condition(type_: string, status: string, reason: Option<string>)

  datatype DeploymentStatus = DeploymentStatus(
    availableReplicas: Option<int>, updatedReplicas: Option<int>, conditions: seq<Condition>)

  datatype Deployment = Deployment(replicas: Option<int>, status: Option<DeploymentStatus>)

  datatype Phase = Available | Progressing | Degraded | Failed | ScaledToZero

  function Or(x: Option<int>, default: int): int {
    if x.Some? then x.value else default
  }

  predicate SaysFailed(c: Condition) {
    || (c.type_ == "ReplicaFailure" && c.status == "True")
    || (c.type_ == "Available" && c.status == "False")
  }

  predicate SaysProgressing(c: Condition) {
    c.type_ == "Progressing" && c.status == "True" && c.reason.Some?
  }

  /** The first condition that reports progress with a reason. */
  function ProgressReason(conditions: seq<Condition>): (r: Option<string>)
    ensures r.None? <==> forall k :: 0 <= k < |conditions| ==> !SaysProgressing(conditions[k])
  {
    if conditions == [] then None
    else if SaysProgressing(conditions[0]) then conditions[0].reason
    else ProgressReason(conditions[1..])
  }

  function DeploymentPhase(dep: Deployment): Phase {
    if dep.status.None? then Progressing
    else
      var status := dep.status.value;
      var desired := Or(dep.replicas, 1);
      var available, updated := Or(status.availableReplicas, 0), Or(status.updatedReplicas, 0);
      var reason := ProgressReason(status.conditions);
      if exists k | 0 <= k < |status.conditions| :: SaysFailed(status.conditions[k]) then Failed
      else if reason.Some? then
        if reason.value == "NewReplicaSetAvailable" && available >= desired && updated >= desired then Available
        else Progressing
      else if desired == 0 then ScaledToZero
      else if available >= desired then Available
      else if available > 0 then Degraded
      else Progressing
  }

  predicate IsUnhealthy(phase: Phase) {
    phase == Progressing || phase == Failed || phase == Degraded
  }

  /** Nothing counts as healthy with fewer replicas available than desired, or with a failure condition. */
  lemma HealthyMeans(dep: Deployment)
    requires !IsUnhealthy(DeploymentPhase(dep))
    ensures dep.status.Some?
    ensures Or(dep.replicas, 1) == 0 || Or(dep.status.value.availableReplicas, 0) >= Or(dep.replicas, 1)
    ensures forall c :: c in dep.status.value.conditions ==> !SaysFailed(c)
    ensures forall r :: ProgressReason(dep.status.value.conditions) == Some(r) ==> r == "NewReplicaSetAvailable"
  {
  }

  /** A condition that reports a replica failure, or that the deployment is not available. */
  ghost predicate ReportsFailure(c: Condition) {
    (c.type_ == "ReplicaFailure" && c.status == "True") || (c.type_ == "Available" && c.status == "False")
  }

  /** The first condition that reports progress with a reason gives this one. */
  ghost predicate FirstProgress(conditions: seq<Condition>, k: nat, reason: string) {
    && k < |conditions| && conditions[k] == Condition("Progressing", "True", Some(reason))
    && forall j :: 0 <= j < k ==> conditions[j].type_ != "Progressing" || conditions[j].status != "True"
                                  || conditions[j].reason.None?
  }

  lemma {:induction false} ProgressReasonIsFirst(conditions: seq<Condition>, reason: string)
    ensures ProgressReason(conditions) == Some(reason) <==> exists k: nat :: FirstProgress(conditions, k, reason)
  {
    if conditions == [] {
    } else {
      var rest := conditions[1..];
      ProgressReasonIsFirst(rest, reason);
      forall k: nat | FirstProgress(rest, k, reason) && !SaysProgressing(conditions[0])
        ensures FirstProgress(conditions, k + 1, reason)
      {
        assert forall j :: 0 < j <= k ==> conditions[j] == rest[j - 1];
      }
      forall k: nat | k > 0 && FirstProgress(conditions, k, reason) ensures FirstProgress(rest, k - 1, reason) {
        assert forall j :: 0 <= j < k ==> rest[j] == conditions[j + 1];
      }
      assert SaysProgressing(conditions[0]) && conditions[0].reason == Some(reason) ==>
        FirstProgress(conditions, 0, reason);
    }
  }

  /**
    Exactly when a deployment is left alone: its status is there, no condition reports a failure, and
    either the rollout is reported as finished with all replicas available and updated, or no
    progress is reported and none is desired or all desired ones are available.
   */
  lemma HealthyIff(dep: Deployment)
    ensures !IsUnhealthy(DeploymentPhase(dep))
       <==> && dep.status.Some?
            && var status := dep.status.value;
               var desired := if dep.replicas.Some? then dep.replicas.value else 1;
               var available := if status.availableReplicas.Some? then status.availableReplicas.value else 0;
               var updated := if status.updatedReplicas.Some? then status.updatedReplicas.value else 0;
               && (forall c :: c in status.conditions ==> !ReportsFailure(c))
               && (if exists reason, k: nat :: FirstProgress(status.conditions, k, reason)
                   then (exists k: nat :: FirstProgress(status.conditions, k, "NewReplicaSetAvailable"))
                        && available >= desired && updated >= desired
                   else desired == 0 || available >= desired)
  {
    if dep.status.Some? {
      var conditions := dep.status.value.conditions;
      var reason := ProgressReason(conditions);
      forall r ensures reason == Some(r) <==> exists k: nat :: FirstProgress(conditions, k, r) {
        ProgressReasonIsFirst(conditions, r);
      }
      assert forall c :: ReportsFailure(c) == SaysFailed(c);
      assert (exists k | 0 <= k < |conditions| :: SaysFailed(conditions[k])) <==>
             (exists c :: c in conditions && ReportsFailure(c));
      assert reason.Some? <==> exists r, k: nat :: FirstProgress(conditions, k, r);
    }
  }

  // ------------------------------------------------------------ choosing the target revision

  /** `containers` is None if the ReplicaSet has no pod template. */
  datatype ReplicaSet = ReplicaSet(revision: Option<int>, containers: Option<nat>)

  predicate IsCandidate(rs: ReplicaSet, current: int) {
    rs.revision.Some? && rs.revision.value < current && rs.containers.Some? && rs.containers.value > 0
  }

  ghost predicate IsTarget(sets: seq<ReplicaSet>, current: int, target: int) {
    && (exists k :: 0 <= k < |sets| && IsCandidate(sets[k], current) && sets[k].revision.value == target)
    && forall k :: 0 <= k < |sets| && IsCandidate(sets[k], current) ==> sets[k].revision.value <= target
  }

  /** The greatest templated revision strictly below the current one; nothing is below revision 1. */
  function PreviousRevision(current: int, sets: seq<ReplicaSet>): (r: Option<int>)
    ensures r.Some? ==> current > 1 && IsTarget(sets, current, r.value)
    ensures r.None? ==> current <= 1 || forall k :: 0 <= k < |sets| ==> !IsCandidate(sets[k], current)
  {
    if current <= 1 || sets == [] then None
    else
      var last := |sets| - 1;
      var best := PreviousRevision(current, sets[..last]);
      if IsCandidate(sets[last], current) && (best.None? || best.value < sets[last].revision.value)
      then sets[last].revision else best
  }

  ghost predicate SortedInts(v: seq<int>) {
    forall p, q :: 0 <= p < q < |v| ==> v[p] <= v[q]
  }

  /** Stands for the library's in-place sort. */
  method SortUnstable(v: seq<int>) returns (r: seq<int>)
    ensures SortedInts(r) && |r| == |v| && forall x :: x in r <==> x in v
  {
    r := [];
    for i := 0 to |v|
      invariant SortedInts(r) && |r| == i && forall x :: x in r <==> x in v[..i]
    {
      r := Insert(r, v[i]);
      assert v[..i + 1] == v[..i] + [v[i]];
    }
    assert v[..|v|] == v;
  }

  function Insert(s: seq<int>, x: int): (r: seq<int>)
    requires SortedInts(s)
    ensures SortedInts(r) && |r| == |s| + 1 && forall y :: y in r <==> y in s || y == x
  {
    if s == [] || s[|s| - 1] <= x then s + [x]
    else
      var r := Insert(s[..|s| - 1], x);
      assert s == s[..|s| - 1] + [s[|s| - 1]];
      assert forall k :: 0 <= k < |r| ==> r[k] in r;
      r + [s[|s| - 1]]
  }

  method FindPreviousRevision(current: int, sets: seq<ReplicaSet>) returns (r: Option<int>)
    ensures r == PreviousRevision(current, sets)
  {
    if current <= 1 {
      return None;
    }
    var candidates: seq<int> := [];
    for i := 0 to |sets|
      invariant forall x :: x in candidates <==>
        exists k :: 0 <= k < i && IsCandidate(sets[k], current) && sets[k].revision.value == x
    {
      if IsCandidate(sets[i], current) {
        candidates := candidates + [sets[i].revision.value];
      }
    }
    var sorted := SortUnstable(candidates);
    if sorted == [] {
      r := None;
      assert forall k :: 0 <= k < |sets| && IsCandidate(sets[k], current) ==> sets[k].revision.value in candidates;
    } else {
      r := Some(sorted[|sorted| - 1]);
      assert sorted[|sorted| - 1] in sorted && r.value in candidates;
      forall k | 0 <= k < |sets| && IsCandidate(sets[k], current)
        ensures sets[k].revision.value <= r.value
      {
        assert sets[k].revision.value in candidates;
        assert sets[k].revision.value in sorted;
      }
      assert IsTarget(sets, current, r.value);
    }
  }

  /** The ReplicaSet at k is the first listed with that revision. */
  ghost predicate IsFirstOf(sets: seq<ReplicaSet>, target: int, k: nat) {
    k < |sets| && sets[k].revision == Some(target) && forall j :: 0 <= j < k ==> sets[j].revision != Some(target)
  }

  /**
    The patch takes the pod template of the first ReplicaSet listed with the target revision. If
    that one has none the rollback fails, even if a later one of the same revision has one.
   */
  function RollbackSource(target: int, sets: seq<ReplicaSet>): (r: Option<ReplicaSet>)
    ensures forall k: nat :: IsFirstOf(sets, target, k) ==>
      r == if sets[k].containers.Some? then Some(sets[k]) else None
    ensures r.Some? ==> exists k: nat :: IsFirstOf(sets, target, k)
  {
    if sets == [] then None
    else if sets[0].revision == Some(target) then
      assert IsFirstOf(sets, target, 0);
      if sets[0].containers.Some? then Some(sets[0]) else None
    else
      var rest := RollbackSource(target, sets[1..]);
      assert forall k: nat :: IsFirstOf(sets, target, k) ==> k > 0 && IsFirstOf(sets[1..], target, k - 1);
      assert forall k: nat :: IsFirstOf(sets[1..], target, k) ==> IsFirstOf(sets, target, k + 1);
      rest
  }

  // ------------------------------------------------------------ ticks, toggles and the annotations

  /** The "unhealthy since" annotation: absent, empty, not a timestamp, or a timestamp. */
  datatype Marker = NoMarker | EmptyMarker | Garbled | At(time: int)

  predicate HasText(m: Marker) {
    m.Garbled? || m.At?
  }

  /** What a tick knows when it acts: the deployment as it was listed. */
  datatype Listing = Listing(unhealthy: bool, marker: Marker, current: int)

  /** The two ReplicaSet listings made when a rollback fires; None if the call fails. */
  datatype Calls = Calls(select: Option<seq<ReplicaSet>>, patch: Option<seq<ReplicaSet>>)

  datatype Action = Idle | Stamp | Clear | Fire(target: int)

  /** Whole seconds of a duration, truncated towards zero. */
  function Seconds(nanos: int): int {
    if nanos >= 0 then nanos / 1_000_000_000 else -((-nanos) / 1_000_000_000)
  }

  /** The four cases of an evaluation. A failing call ends it without a write. */
  function Evaluate(l: Listing, now: int, calls: Calls): Action {
    if !l.unhealthy then if HasText(l.marker) then Clear else Idle
    else if !l.marker.At? then Stamp
    else if Seconds(now - l.marker.time) < GRACE_SECS then Idle
    else if l.current <= 1 then Clear
    else if calls.select.None? then Idle
    else
      var target := PreviousRevision(l.current, calls.select.value);
      if target.None? then Clear
      else if calls.patch.None? || RollbackSource(target.value, calls.patch.value).None? then Idle
      else Fire(target.value)
  }

  /** The greatest revision below the current one among the ReplicaSets that have containers. */
  ghost predicate IsPrevious(sets: seq<ReplicaSet>, current: int, target: int) {
    && target < current
    && (exists k :: 0 <= k < |sets| && sets[k].revision == Some(target) && HasContainers(sets[k]))
    && forall k :: 0 <= k < |sets| && sets[k].revision.Some? && target < sets[k].revision.value < current ==>
         !HasContainers(sets[k])
  }

  ghost predicate HasContainers(rs: ReplicaSet) {
    rs.containers.Some? && rs.containers.value > 0
  }

  /** The first ReplicaSet of that revision has a pod template. */
  ghost predicate HasTemplate(sets: seq<ReplicaSet>, target: int) {
    exists k :: 0 <= k < |sets| && sets[k].revision == Some(target) && sets[k].containers.Some?
                && forall j :: 0 <= j < k ==> sets[j].revision != Some(target)
  }

  lemma PreviousIff(sets: seq<ReplicaSet>, current: int, target: int)
    ensures PreviousRevision(current, sets) == Some(target) <==> current > 1 && IsPrevious(sets, current, target)
  {
    var best := PreviousRevision(current, sets);
    if best.Some? {
      var k :| 0 <= k < |sets| && IsCandidate(sets[k], current) && sets[k].revision.value == best.value;
      assert HasContainers(sets[k]);
    }
    if current > 1 && IsPrevious(sets, current, target) {
      var k :| 0 <= k < |sets| && sets[k].revision == Some(target) && HasContainers(sets[k]);
      assert IsCandidate(sets[k], current);
    }
  }

  lemma TemplateIff(sets: seq<ReplicaSet>, target: int)
    ensures RollbackSource(target, sets).Some? <==> HasTemplate(sets, target)
  {
    if HasTemplate(sets, target) {
      var k :| 0 <= k < |sets| && sets[k].revision == Some(target) && sets[k].containers.Some?
               && forall j :: 0 <= j < k ==> sets[j].revision != Some(target);
      assert IsFirstOf(sets, target, k);
    }
    if RollbackSource(target, sets).Some? {
      var k: nat :| IsFirstOf(sets, target, k);
    }
  }

  /** An unhealthy deployment whose marker is at least 300 seconds old. */
  ghost predicate IsOverdue(l: Listing, now: int) {
    l.unhealthy && l.marker.At? && now - l.marker.time >= 300 * 1_000_000_000
  }

  /**
    Exactly when each action is taken. A rollback fires if the grace period is over, there is a
    revision to go back to and its template can be read; the marker is set on the first unhealthy
    evaluation; it is cleared on recovery, or when there is nothing to go back to.
   */
  lemma ActionIff(l: Listing, now: int, calls: Calls)
    ensures forall target :: Evaluate(l, now, calls) == Fire(target) <==>
      && IsOverdue(l, now) && l.current > 1
      && calls.select.Some? && IsPrevious(calls.select.value, l.current, target)
      && calls.patch.Some? && HasTemplate(calls.patch.value, target)
    ensures Evaluate(l, now, calls) == Stamp <==> l.unhealthy && !l.marker.At?
    ensures Evaluate(l, now, calls) == Clear <==>
      || (!l.unhealthy && (l.marker.At? || l.marker.Garbled?))
      || (IsOverdue(l, now)
          && (l.current <= 1
              || (calls.select.Some? && forall target :: !IsPrevious(calls.select.value, l.current, target))))
  {
    if calls.select.Some? {
      var best := PreviousRevision(l.current, calls.select.value);
      forall target {
        PreviousIff(calls.select.value, l.current, target);
      }
      if best.Some? && calls.patch.Some? {
        TemplateIff(calls.patch.value, best.value);
      }
    }
  }

  /** The marker after an action whose write took effect. Clearing and firing write the empty string. */
  function Written(marker: Marker, action: Action, now: int): Marker {
    match action
    case Idle => marker
    case Stamp => At(now)
    case Clear => EmptyMarker
    case Fire(_) => EmptyMarker
  }

  /** A log entry: a tick that passed over an opted-out deployment, or an evaluation and its write. */
  datatype Entry = Skipped | Evaluated(now: int, listing: Listing, action: Action, landed: bool)

  datatype State = State(optedIn: bool, marker: Marker, pending: Option<Listing>, log: seq<Entry>)

  datatype Step =
    | List(dep: Deployment, current: int)
    | Act(now: int, calls: Calls, landed: bool)
    | Toggle(enabled: bool, landed: bool)

  function ListStep(s: State, dep: Deployment, current: int): State {
    if s.pending.Some? then s
    else if !s.optedIn then s.(log := s.log + [Skipped])
    else s.(pending := Some(Listing(IsUnhealthy(DeploymentPhase(dep)), s.marker, current)))
  }

  function ActStep(s: State, now: int, calls: Calls, landed: bool): State {
    if s.pending.None? then s
    else
      var action := Evaluate(s.pending.value, now, calls);
      s.(marker := if landed then Written(s.marker, action, now) else s.marker, pending := None,
         log := s.log + [Evaluated(now, s.pending.value, action, landed)])
  }

  /** Opting out also empties the marker; opting in leaves it. */
  function ToggleStep(s: State, enabled: bool, landed: bool): State {
    if !landed then s
    else if enabled then s.(optedIn := true)
    else s.(optedIn := false, marker := EmptyMarker)
  }

  function Apply(s: State, step: Step): State {
    match step
    case List(dep, current) => ListStep(s, dep, current)
    case Act(now, calls, landed) => ActStep(s, now, calls, landed)
    case Toggle(enabled, landed) => ToggleStep(s, enabled, landed)
  }

  function Run(s: State, steps: seq<Step>): State {
    if steps == [] then s else Apply(Run(s, steps[..|steps| - 1]), steps[|steps| - 1])
  }

  function Init(): State {
    State(false, NoMarker, None, [])
  }

  class AnnotatedDeployment {
    var optedIn: bool
    var marker: Marker
    var pending: Option<Listing>
    ghost var log: seq<Entry>

    constructor ()
      ensures Now() == Init()
    {
      optedIn, marker, pending, log := false, NoMarker, None, [];
    }

    ghost function Now(): State
      reads this
    {
      State(optedIn, marker, pending, log)
    }

    /** The first half of a tick. */
    method ListDeployment(dep: Deployment, current: int)
      modifies this
      ensures Now() == ListStep(old(Now()), dep, current)
    {
      if pending.Some? {
        return;
      }
      if !optedIn {
        log := log + [Skipped];
        return;
      }
      pending := Some(Listing(IsUnhealthy(DeploymentPhase(dep)), marker, current));
    }

    /** The second half: at most one annotation write or rollback patch. */
    method EvaluateDeployment(now: int, calls: Calls, landed: bool)
      modifies this
      ensures Now() == ActStep(old(Now()), now, calls, landed)
    {
      if pending.None? {
        return;
      }
      var l := pending.value;
      var action := Decide(l, now, calls);
      pending := None;
      log := log + [Evaluated(now, l, action, landed)];
      if landed {
        match action {
          case Idle =>
          case Stamp => marker := At(now);
          case Clear => marker := EmptyMarker;
          case Fire(_) => marker := EmptyMarker;
        }
      }
    }

    method Decide(l: Listing, now: int, calls: Calls) returns (action: Action)
      ensures action == Evaluate(l, now, calls)
    {
      if !l.unhealthy {
        return if HasText(l.marker) then Clear else Idle;
      }
      if !l.marker.At? {
        return Stamp;
      }
      if Seconds(now - l.marker.time) < GRACE_SECS {
        return Idle;
      }
      var target := None;
      if l.current > 1 {
        if calls.select.None? {
          return Idle;
        }
        target := FindPreviousRevision(l.current, calls.select.value);
      }
      if target.None? {
        return Clear;
      }
      if calls.patch.None? || RollbackSource(target.value, calls.patch.value).None? {
        return Idle;
      }
      action := Fire(target.value);
    }

    method SetAutoRollback(enabled: bool, landed: bool)
      modifies this
      ensures Now() == ToggleStep(old(Now()), enabled, landed)
    {
      if landed {
        optedIn := enabled;
        if !enabled {
          marker := EmptyMarker;
        }
      }
    }
  }
}
