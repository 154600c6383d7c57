/**
  Runs of the build protocol: the watcher as an object with its two periodic methods, the step
  relation they implement, and what holds over every run.
 */
module BuildRuns {
  import opened Seqs
  import opened BuildProtocol

  /** One recorded build: its commit, its Job group, and the first serial its Jobs can have. */
  datatype Build = Build(sha: string, group: string, firstSerial: nat)

  /** A rollout that was attempted, with the cluster's Jobs and the recorded build at that moment. */
  datatype Rollout = Rollout(image: string, jobs: map<JobName, Job>, build: Build)

  /** A commit the poller wrote to the row, either with a build or skipped by the path filters. */
  datatype Handled = Handled(sha: string, built: bool)

  datatype State = State(
    row: BuildRow, jobs: map<JobName, Job>, nextSerial: nat,
    builds: seq<Build>, rollouts: seq<Rollout>, handled: seq<Handled>)

  /** What a create call leaves under the Job's name; a failing call can do any of the three. */
  datatype CreateEffect = Untouched | Removed | Landed

  datatype Trigger = DeploymentMissing | CreateFails(at: nat, how: CreateEffect) | AllCreated(written: bool)

  /** `remote` is None when the remote cannot be read; `irrelevant` is the path filters' verdict. */
  datatype PollOutcome = PollOutcome(remote: Option<string>, irrelevant: bool, skipWritten: bool, trigger: Trigger)

  /** `manifest` is None when the manifest Job is created; `cleaned` are the Jobs the cleanup managed to delete. */
  datatype MonitorOutcome = MonitorOutcome(
    listed: bool, available: bool, manifest: Option<CreateEffect>, written: bool, cleaned: set<JobName>)

  datatype Step =
    | Poll(poll: PollOutcome)
    | Monitor(monitor: MonitorOutcome)
    | PodEnds(name: JobName, ok: bool)   // one pod of the Job ends; after a failed pod a Job may retry
    | Reap(name: JobName)                // a Job outside the active group is removed, e.g. by its TTL

  function Manifest(group: string): JobName {
    JobName(group, "manifest")
  }

  function NewJob(phase: Phase, image: string, serial: nat): (j: Job)
    ensures ProgressOf(j) == Unfinished
  {
    Job(phase, image, 0, 0, serial)
  }

  function LastSha(row: BuildRow): string {
    if row.commit.Some? then row.commit.value else ""
  }

  /** The Jobs after the first k architecture Jobs have been replaced by new ones. */
  function CreateArches(cfg: Config, jobs: map<JobName, Job>, sha: string, serial: nat, k: nat): map<JobName, Job>
    requires k <= |cfg.arches|
  {
    if k == 0 then jobs
    else
      var before := CreateArches(cfg, jobs, sha, serial, k - 1);
      AfterCreate(before, ArchName(cfg, sha, k - 1), ArchJob(cfg, sha, serial, k - 1), Landed)
  }

  function ArchName(cfg: Config, sha: string, at: nat): JobName
    requires at < |cfg.arches|
  {
    JobName(GroupName(cfg, sha), cfg.arches[at])
  }

  function ArchJob(cfg: Config, sha: string, serial: nat, at: nat): Job
    requires at < |cfg.arches|
  {
    NewJob(ArchPhase, ArchImage(cfg, sha, cfg.arches[at]), serial + at)
  }

  function AfterCreate(jobs: map<JobName, Job>, name: JobName, job: Job, how: CreateEffect): map<JobName, Job> {
    match how
    case Untouched => jobs
    case Removed => jobs - {name}
    case Landed => jobs[name := job]
  }

  /** The Jobs after creating the one at position `at` has failed. */
  function StoppedAt(cfg: Config, jobs: map<JobName, Job>, sha: string, serial: nat, at: nat, how: CreateEffect)
    : map<JobName, Job>
    requires at < |cfg.arches|
  {
    AfterCreate(CreateArches(cfg, jobs, sha, serial, at), ArchName(cfg, sha, at), ArchJob(cfg, sha, serial, at), how)
  }

  function TriggerStep(cfg: Config, s: State, sha: string, trigger: Trigger): State {
    match trigger
    case DeploymentMissing => s
    case CreateFails(at, how) =>
      if at < |cfg.arches| then
        s.(jobs := StoppedAt(cfg, s.jobs, sha, s.nextSerial, at, how), nextSerial := s.nextSerial + at + 1)
      else s
    case AllCreated(written) =>
      var s' := s.(jobs := CreateArches(cfg, s.jobs, sha, s.nextSerial, |cfg.arches|),
                   nextSerial := s.nextSerial + |cfg.arches|);
      if written then
        s'.(row := BuildRow(Some(sha), Building, Some(GroupName(cfg, sha))),
            builds := s.builds + [Build(sha, GroupName(cfg, sha), s.nextSerial)],
            handled := s.handled + [Handled(sha, true)])
      else s'
  }

  function PollStep(cfg: Config, s: State, o: PollOutcome): State {
    if s.row.status == Building || o.remote.None? || o.remote.value == LastSha(s.row) then s
    else if LastSha(s.row) != "" && o.irrelevant then
      if o.skipWritten then
        s.(row := s.row.(commit := o.remote), handled := s.handled + [Handled(o.remote.value, false)])
      else s
    else TriggerStep(cfg, s, o.remote.value, o.trigger)
  }

  ghost function JobsOf(jobs: map<JobName, Job>, group: string): set<Job> {
    set n | n in jobs && n.group == group :: jobs[n]
  }

  function CleanUp(jobs: map<JobName, Job>, group: string, cleaned: set<JobName>): map<JobName, Job> {
    jobs - set n | n in cleaned && n.group == group
  }

  function CloseBuild(s: State, group: string, status: Status, o: MonitorOutcome): State {
    if o.written then s.(row := s.row.(status := status), jobs := CleanUp(s.jobs, group, o.cleaned)) else s
  }

  function LastBuild(builds: seq<Build>): Build {
    if builds == [] then Build("", "", 0) else builds[|builds| - 1]
  }

  function RolloutStep(cfg: Config, s: State, group: string, o: MonitorOutcome): State {
    if !o.available then s
    else
      var rollout := Rollout(Image(cfg, LastSha(s.row)), s.jobs, LastBuild(s.builds));
      CloseBuild(s.(rollouts := s.rollouts + [rollout]), group, Success, o)
  }

  function ManifestStep(cfg: Config, s: State, group: string, o: MonitorOutcome): State {
    var name, job := Manifest(group), NewJob(ManifestPhase, Image(cfg, LastSha(s.row)), s.nextSerial);
    match o.manifest
    case None => s.(jobs := s.jobs[name := job], nextSerial := s.nextSerial + 1)
    case Some(how) =>
      CloseBuild(s.(jobs := AfterCreate(s.jobs, name, job, how), nextSerial := s.nextSerial + 1), group, Failed, o)
  }

  function ActOn(cfg: Config, s: State, group: string, status: GroupStatus, o: MonitorOutcome): State {
    match status
    case InProgress => s
    case ManifestInProgress => s
    case ArchesComplete => if |cfg.arches| == 1 then RolloutStep(cfg, s, group, o) else ManifestStep(cfg, s, group, o)
    case ManifestComplete => RolloutStep(cfg, s, group, o)
    case GroupFailed(_) => CloseBuild(s, group, Failed, o)
  }

  ghost function MonitorStep(cfg: Config, s: State, o: MonitorOutcome): State {
    if s.row.status != Building || s.row.job.None? || s.row.job.value == "" || !o.listed then s
    else ActOn(cfg, s, s.row.job.value, StatusOf(JobsOf(s.jobs, s.row.job.value)), o)
  }

  function PodEnd(jobs: map<JobName, Job>, name: JobName, ok: bool): map<JobName, Job> {
    if name in jobs && jobs[name].succeeded == 0 then
      var j := jobs[name];
      jobs[name := if ok then j.(succeeded := 1) else j.(failed := j.failed + 1)]
    else jobs
  }

  ghost function Apply(cfg: Config, s: State, step: Step): State {
    match step
    case Poll(o) => PollStep(cfg, s, o)
    case Monitor(o) => MonitorStep(cfg, s, o)
    case PodEnds(name, ok) => s.(jobs := PodEnd(s.jobs, name, ok))
    case Reap(name) =>
      if s.row.status == Building && s.row.job == Some(name.group) then s else s.(jobs := s.jobs - {name})
  }

  ghost function Run(cfg: Config, s: State, steps: seq<Step>): State
    decreases |steps|
  {
    if steps == [] then s
    else Apply(cfg, Run(cfg, s, steps[..|steps| - 1]), steps[|steps| - 1])
  }

  function Init(): State {
    State(BuildRow(None, NeverBuilt, None), map[], 0, [], [], [])
  }

  // ------------------------------------------------------------ creating one Job

  /** The call of attempt `at` ends in an error other than a conflict; `applied` says whether it got through. */
  datatype Fault = Fault(at: nat, applied: bool)

  /** How the cluster answers: when the old Job of that name is gone, if ever, and which call fails, if any. */
  datatype CreateCalls = CreateCalls(goneBy: Option<nat>, fault: Option<Fault>)

  const MAX_RETRIES: nat := 5

  predicate StillThere(c: CreateCalls, existed: bool, k: nat) {
    existed && (c.goneBy.None? || k < c.goneBy.value)
  }

  predicate Errs(c: CreateCalls, k: nat) {
    c.fault.Some? && c.fault.value.at == k
  }

  /** The attempt, from k on, that ends the retries: answered by no conflict, or the last allowed. */
  function LastFrom(c: CreateCalls, existed: bool, k: nat): nat
    decreases MAX_RETRIES - k
  {
    if k >= MAX_RETRIES || Errs(c, k) || !StillThere(c, existed, k) then k else LastFrom(c, existed, k + 1)
  }

  predicate Succeeds(c: CreateCalls, existed: bool) {
    var k := LastFrom(c, existed, 0);
    !Errs(c, k) && !StillThere(c, existed, k)
  }

  function EffectOf(c: CreateCalls, existed: bool): (how: CreateEffect)
    ensures Succeeds(c, existed) ==> how == Landed
  {
    var k := LastFrom(c, existed, 0);
    if StillThere(c, existed, k) then Untouched
    else if Errs(c, k) && !c.fault.value.applied then Removed
    else Landed
  }

  lemma {:induction false} LastFromMeans(c: CreateCalls, existed: bool, k: nat)
    requires k <= MAX_RETRIES
    ensures k <= LastFrom(c, existed, k) <= MAX_RETRIES
    ensures forall j :: k <= j < LastFrom(c, existed, k) ==> !Errs(c, j) && StillThere(c, existed, j)
    decreases MAX_RETRIES - k
  {
    if k >= MAX_RETRIES || Errs(c, k) || !StillThere(c, existed, k) {
    } else {
      LastFromMeans(c, existed, k + 1);
    }
  }

  /** The old Job is out of the way by attempt k, and no call up to that one fails. */
  predicate ClearPath(c: CreateCalls, existed: bool, k: nat) {
    (!existed || (c.goneBy.Some? && c.goneBy.value <= k)) && (c.fault.Some? ==> k < c.fault.value.at)
  }

  /** A Job is created if and only if the path is clear by one of the six attempts. */
  lemma SucceedsIff(c: CreateCalls, existed: bool)
    ensures Succeeds(c, existed) <==> exists k: nat :: k <= 5 && ClearPath(c, existed, k)
  {
    var last := LastFrom(c, existed, 0);
    LastFromMeans(c, existed, 0);
    if Succeeds(c, existed) {
      assert c.fault.Some? && c.fault.value.at < last ==> !Errs(c, c.fault.value.at);
      assert ClearPath(c, existed, last);
    }
  }

  /**
    What a failing creation leaves: nothing new as long as the old Job is still there at the last
    call, and otherwise the new Job only if the call that failed had got through.
   */
  lemma FailureLeaves(c: CreateCalls, existed: bool)
    requires !Succeeds(c, existed)
    ensures var last := if c.fault.Some? && c.fault.value.at <= 5 then c.fault.value.at else 5;
      EffectOf(c, existed) ==
        if existed && (c.goneBy.None? || last < c.goneBy.value) then Untouched
        else if c.fault.Some? && c.fault.value.applied then Landed
        else Removed
  {
    LastFromMeans(c, existed, 0);
    SucceedsIff(c, existed);
    var last := LastFrom(c, existed, 0);
    if last < MAX_RETRIES {
      LastFromStops(c, existed, 0);
    }
  }

  /** It ends early only at an error or without a conflict. */
  lemma {:induction false} LastFromStops(c: CreateCalls, existed: bool, k: nat)
    requires k <= MAX_RETRIES
    ensures var last := LastFrom(c, existed, k);
      last >= MAX_RETRIES || Errs(c, last) || !StillThere(c, existed, last)
    decreases MAX_RETRIES - k
  {
    if k >= MAX_RETRIES || Errs(c, k) || !StillThere(c, existed, k) {
    } else {
      LastFromStops(c, existed, k + 1);
    }
  }

  /** Whatever a failing creation is said to leave behind, some cluster answers that way. */
  lemma EveryFailureHappens(jobs: map<JobName, Job>, name: JobName, job: Job, how: CreateEffect)
    returns (c: CreateCalls)
    ensures !Succeeds(c, name in jobs)
    ensures AfterCreate(jobs, name, job, EffectOf(c, name in jobs)) == AfterCreate(jobs, name, job, how)
  {
    c := match how
      case Untouched => CreateCalls(None, Some(Fault(0, false)))
      case Removed => CreateCalls(Some(0), Some(Fault(0, false)))
      case Landed => CreateCalls(Some(0), Some(Fault(0, true)));
    assert LastFrom(c, name in jobs, 0) == 0;
    assert name !in jobs ==> jobs - {name} == jobs;
  }

  // ------------------------------------------------------------ the watcher itself

  class Watcher {
    const cfg: Config
    var row: BuildRow
    var jobs: map<JobName, Job>
    var nextSerial: nat
    ghost var builds: seq<Build>
    ghost var rollouts: seq<Rollout>
    ghost var handled: seq<Handled>

    constructor (cfg: Config)
      ensures this.cfg == cfg && Now() == Init()
    {
      this.cfg := cfg;
      row, jobs, nextSerial := BuildRow(None, NeverBuilt, None), map[], 0;
      builds, rollouts, handled := [], [], [];
    }

    ghost function Now(): State
      reads this
    {
      State(row, jobs, nextSerial, builds, rollouts, handled)
    }

    /** `calls` are the cluster's answers, one for each architecture; `o` is the outcome they amount to. */
    method PollCycle(remote: Option<string>, irrelevant: bool, skipWritten: bool,
                     found: bool, calls: nat -> CreateCalls, written: bool)
      returns (ghost o: PollOutcome)
      modifies this
      ensures o.remote == remote && o.irrelevant == irrelevant && o.skipWritten == skipWritten
      ensures Now() == PollStep(cfg, old(Now()), o)
    {
      o := PollOutcome(remote, irrelevant, skipWritten, DeploymentMissing);
      if row.status == Building {
        return;
      }
      if remote.None? {
        return;
      }
      var remoteSha, lastSha := remote.value, LastSha(row);
      if remoteSha == lastSha {
        return;
      }
      if lastSha != "" && irrelevant {
        if skipWritten {
          row := row.(commit := Some(remoteSha));
          handled := handled + [Handled(remoteSha, false)];
        }
        return;
      }
      ghost var trigger := TriggerBuild(remoteSha, found, calls, written);
      o := PollOutcome(remote, irrelevant, skipWritten, trigger);
    }

    /** Creates one Job per architecture, then records the build in the row. */
    method TriggerBuild(sha: string, found: bool, calls: nat -> CreateCalls, written: bool)
      returns (ghost trigger: Trigger)
      modifies this
      ensures trigger.DeploymentMissing? <==> !found
      ensures trigger.AllCreated? ==> trigger.written == written
      ensures Now() == TriggerStep(cfg, old(Now()), sha, trigger)
    {
      trigger := DeploymentMissing;
      if !found {
        return;
      }
      var group, first := GroupName(cfg, sha), nextSerial;
      var created;
      ghost var at, how;
      created, at, how := CreateArchJobs(sha, calls);
      trigger := if created then AllCreated(written) else CreateFails(at, how);
      if created && written {
        row := BuildRow(Some(sha), Building, Some(group));
        builds := builds + [Build(sha, group, first)];
        handled := handled + [Handled(sha, true)];
      }
    }

    /** Deletes the Job of that name, then tries to create the new one until the old one is gone, six times at most. */
    method CreateJobWithCleanup(name: JobName, job: Job, calls: CreateCalls) returns (ok: bool)
      modifies `jobs, `nextSerial
      ensures ok <==> Succeeds(calls, name in old(jobs))
      ensures jobs == AfterCreate(old(jobs), name, job, EffectOf(calls, name in old(jobs)))
      ensures nextSerial == old(nextSerial) + 1
    {
      ghost var existed := name in jobs;
      nextSerial := nextSerial + 1;
      var attempts := 0;
      while true
        invariant attempts <= MAX_RETRIES && jobs == old(jobs) && nextSerial == old(nextSerial) + 1
        invariant LastFrom(calls, existed, attempts) == LastFrom(calls, existed, 0)
        decreases MAX_RETRIES - attempts
      {
        if calls.goneBy.Some? && calls.goneBy.value <= attempts {
          jobs := jobs - {name};
        }
        var conflict := name in jobs;
        assert conflict == StillThere(calls, existed, attempts);
        if Errs(calls, attempts) {
          if calls.fault.value.applied && !conflict {
            jobs := jobs[name := job];
          }
          return false;
        }
        if !conflict {
          jobs := jobs[name := job];
          return true;
        }
        if attempts >= MAX_RETRIES {
          return false;
        }
        attempts := attempts + 1;
      }
    }

    /** The loop's body; `start` are the Jobs there were before the loop. */
    method CreateArchJob(ghost start: map<JobName, Job>, sha: string, ghost first: nat, k: nat, calls: CreateCalls)
      returns (ok: bool, ghost how: CreateEffect)
      requires k < |cfg.arches| && jobs == CreateArches(cfg, start, sha, first, k) && nextSerial == first + k
      modifies `jobs, `nextSerial
      ensures jobs == StoppedAt(cfg, start, sha, first, k, how) && nextSerial == first + k + 1
      ensures ok ==> jobs == CreateArches(cfg, start, sha, first, k + 1)
    {
      var name, job := ArchName(cfg, sha, k), ArchJob(cfg, sha, nextSerial - k, k);
      how := EffectOf(calls, name in jobs);
      ok := CreateJobWithCleanup(name, job, calls);
    }

    /** Stops at the first Job that cannot be created. */
    method CreateArchJobs(sha: string, calls: nat -> CreateCalls)
      returns (created: bool, ghost at: nat, ghost how: CreateEffect)
      modifies `jobs, `nextSerial
      ensures created ==>
        jobs == CreateArches(cfg, old(jobs), sha, old(nextSerial), |cfg.arches|)
        && nextSerial == old(nextSerial) + |cfg.arches|
      ensures !created ==>
        at < |cfg.arches| && jobs == StoppedAt(cfg, old(jobs), sha, old(nextSerial), at, how)
        && nextSerial == old(nextSerial) + at + 1
    {
      ghost var start, first := jobs, nextSerial;
      var k := 0;
      created, at, how := true, 0, Landed;
      while k < |cfg.arches| && created
        invariant k <= |cfg.arches| && nextSerial == first + k
        invariant created ==> jobs == CreateArches(cfg, start, sha, first, k)
        invariant !created ==> at + 1 == k && jobs == StoppedAt(cfg, start, sha, first, at, how)
      {
        at := k;
        created, how := CreateArchJob(start, sha, first, k, calls(k));
        k := k + 1;
      }
    }

    /** `listing` is what the API server returns for the group's label selector; `o` is the outcome. */
    method MonitorBuilds(listing: seq<Job>, listed: bool, available: bool, calls: CreateCalls,
                         written: bool, cleaned: set<JobName>)
      returns (ghost o: MonitorOutcome)
      requires row.job.Some? ==> (set j | j in listing) == JobsOf(jobs, row.job.value)
      modifies this
      ensures o == MonitorOutcome(listed, available, o.manifest, written, cleaned)
      ensures Now() == MonitorStep(cfg, old(Now()), o)
    {
      o := MonitorOutcome(listed, available, None, written, cleaned);
      if row.status != Building || row.job.None? || row.job.value == "" || !listed {
        return;
      }
      var group := row.job.value;
      var status := CheckBuildGroupStatus(listing);
      match status {
        case InProgress =>
        case ManifestInProgress =>
        case ArchesComplete =>
          if |cfg.arches| == 1 {
            RollOut(group, o, available, written, cleaned);
          } else {
            o := CreateManifestJob(group, o, calls, written, cleaned);
          }
        case ManifestComplete =>
          RollOut(group, o, available, written, cleaned);
        case GroupFailed(_) =>
          Close(group, Failed, o, written, cleaned);
      }
    }

    method RollOut(group: string, ghost o: MonitorOutcome, available: bool, written: bool, cleaned: set<JobName>)
      requires o.available == available && o.written == written && o.cleaned == cleaned
      modifies this
      ensures Now() == RolloutStep(cfg, old(Now()), group, o)
    {
      if available {
        rollouts := rollouts + [Rollout(Image(cfg, LastSha(row)), jobs, LastBuild(builds))];
        Close(group, Success, o, written, cleaned);
      }
    }

    method CreateManifestJob(group: string, ghost o: MonitorOutcome, calls: CreateCalls,
                             written: bool, cleaned: set<JobName>)
      returns (ghost o': MonitorOutcome)
      requires o.written == written && o.cleaned == cleaned
      modifies this
      ensures o' == o.(manifest := o'.manifest)
      ensures Now() == ManifestStep(cfg, old(Now()), group, o')
    {
      var name, job := Manifest(group), NewJob(ManifestPhase, Image(cfg, LastSha(row)), nextSerial);
      ghost var how := EffectOf(calls, name in jobs);
      var ok := CreateJobWithCleanup(name, job, calls);
      o' := o.(manifest := if ok then None else Some(how));
      if !ok {
        Close(group, Failed, o', written, cleaned);
      }
    }

    method Close(group: string, status: Status, ghost o: MonitorOutcome, written: bool, cleaned: set<JobName>)
      requires o.written == written && o.cleaned == cleaned
      modifies this
      ensures Now() == CloseBuild(old(Now()), group, status, o)
    {
      if written {
        row := row.(status := status);
        jobs := CleanUp(jobs, group, cleaned);
      }
    }
  }

  // ------------------------------------------------------------ moves of the row

  /**
    The row moves from not-building to building by polling only, and from building to success or
    failed by monitoring only; while it is building its commit and Job group are frozen.
   */
  lemma RowMoves(cfg: Config, s: State, step: Step)
    ensures var s' := Apply(cfg, s, step);
      && (s.row.status != Building && s'.row.status != s.row.status ==> step.Poll? && s'.row.status == Building)
      && (s.row.status == Building && s'.row.status != Building ==>
            step.Monitor? && (s'.row.status == Success || s'.row.status == Failed))
      && (s.row.status == Building ==> s'.row.commit == s.row.commit && s'.row.job == s.row.job)
      && (s'.row.commit != s.row.commit ==> step.Poll?)
  {
  }

  /** A finished build is not retried while the remote still stands at the row's commit, even if it failed. */
  lemma SameHeadStartsNothing(cfg: Config, s: State, o: PollOutcome)
    requires o.remote == Some(LastSha(s.row))
    ensures PollStep(cfg, s, o) == s
  {
  }

  /** Neighbours in the log of handled commits differ, and the row holds the last of them. */
  ghost predicate HandledOnce(s: State) {
    && (forall p :: 0 < p < |s.handled| ==> s.handled[p - 1].sha != s.handled[p].sha)
    && LastSha(s.row) == (if s.handled == [] then "" else s.handled[|s.handled| - 1].sha)
    && |s.builds| == CountBuilt(s.handled)
  }

  function CountBuilt(handled: seq<Handled>): nat {
    if handled == [] then 0
    else CountBuilt(handled[..|handled| - 1]) + if handled[|handled| - 1].built then 1 else 0
  }

  lemma StepHandlesOnce(cfg: Config, s: State, step: Step)
    requires HandledOnce(s)
    ensures HandledOnce(Apply(cfg, s, step))
    ensures s.handled <= Apply(cfg, s, step).handled
  {
    match step
    case Poll(o) =>
      PollLogsAtMostOne(cfg, s, o);
      var s' := PollStep(cfg, s, o);
      if !SameLog(s, s') {
        LoggingKeepsHandledOnce(s, s', o.remote.value, Logs(s, s', o.remote.value, true));
      }
    case Monitor(o) => MonitorLogsNothing(cfg, s, o);
    case PodEnds(_, _) =>
    case Reap(_) =>
  }

  ghost predicate SameLog(s: State, s': State) {
    s'.handled == s.handled && s'.builds == s.builds && s'.row.commit == s.row.commit
  }

  ghost predicate Logs(s: State, s': State, sha: string, built: bool) {
    && sha != LastSha(s.row) && s'.row.commit == Some(sha)
    && s'.handled == s.handled + [Handled(sha, built)]
    && |s'.builds| == |s.builds| + if built then 1 else 0
  }

  lemma PollLogsAtMostOne(cfg: Config, s: State, o: PollOutcome)
    ensures var s' := PollStep(cfg, s, o);
      || SameLog(s, s')
      || (o.remote.Some? && (Logs(s, s', o.remote.value, true) || Logs(s, s', o.remote.value, false)))
  {
  }

  lemma LoggingKeepsHandledOnce(s: State, s': State, sha: string, built: bool)
    requires HandledOnce(s) && Logs(s, s', sha, built)
    ensures HandledOnce(s')
  {
    assert s'.handled[..|s.handled|] == s.handled;
  }

  lemma MonitorLogsNothing(cfg: Config, s: State, o: MonitorOutcome)
    ensures var s' := MonitorStep(cfg, s, o);
      s'.handled == s.handled && s'.builds == s.builds && s'.row.commit == s.row.commit && s'.row.job == s.row.job
  {
  }

  lemma {:induction false} RunHandlesOnce(cfg: Config, steps: seq<Step>)
    ensures HandledOnce(Run(cfg, Init(), steps))
    decreases |steps|
  {
    if steps == [] {
    } else {
      RunHandlesOnce(cfg, steps[..|steps| - 1]);
      StepHandlesOnce(cfg, Run(cfg, Init(), steps[..|steps| - 1]), steps[|steps| - 1]);
    }
  }

  /**
    Two recorded builds of one commit, with no other build between them, have a commit between them
    that the path filters skipped.
   */
  lemma RebuildNeedsSkip(cfg: Config, steps: seq<Step>, p: nat, q: nat)
    requires var handled := Run(cfg, Init(), steps).handled;
      && p < q < |handled| && handled[p].built && handled[q].built && handled[p].sha == handled[q].sha
      && forall k :: p < k < q ==> !handled[k].built
    ensures p + 1 < q
  {
    RunHandlesOnce(cfg, steps);
  }

  /** Polling with this outcome records a build of `sha`. */
  ghost predicate RecordsBuild(cfg: Config, s: State, o: PollOutcome, sha: string) {
    var s' := PollStep(cfg, s, o);
    |s'.builds| == |s.builds| + 1 && LastBuild(s'.builds).sha == sha
  }

  /**
    Exactly when the commit built last can be built again: between builds, if and only if the row
    names another commit, one that was skipped since.
   */
  lemma RebuildIff(cfg: Config, steps: seq<Step>)
    requires var s := Run(cfg, Init(), steps); s.builds != [] && s.row.status != Building
    ensures var s := Run(cfg, Init(), steps);
      (exists o :: RecordsBuild(cfg, s, o, LastBuild(s.builds).sha)) <==> LastSha(s.row) != LastBuild(s.builds).sha
  {
    var s := Run(cfg, Init(), steps);
    var sha := LastBuild(s.builds).sha;
    if LastSha(s.row) != sha {
      assert RecordsBuild(cfg, s, PollOutcome(Some(sha), false, true, AllCreated(true)), sha);
    }
  }

  function Head(sha: string, irrelevant: bool): Step {
    Poll(PollOutcome(Some(sha), irrelevant, true, AllCreated(true)))
  }

  /** So without the filters' skips consecutive builds differ, but with them a commit can be built twice in a row. */
  lemma SkipAllowsRebuild(a: string, b: string) returns (cfg: Config, steps: seq<Step>)
    requires a != b && a != "" && b != ""
    ensures ValidConfig(cfg)
    ensures Run(cfg, Init(), steps).handled == [Handled(a, true), Handled(b, false), Handled(a, true)]
  {
    cfg := Config("app", "repo", ["amd64"]);
    var arch := JobName(GroupName(cfg, a), "amd64");
    var close := Monitor(MonitorOutcome(true, true, None, true, {}));
    var s1 := Apply(cfg, Init(), Head(a, false));
    var s2 := Apply(cfg, s1, PodEnds(arch, false));
    assert SomeJob(JobsOf(s2.jobs, GroupName(cfg, a)), ArchPhase, Dead) by {
      assert s2.jobs[arch] in JobsOf(s2.jobs, GroupName(cfg, a));
    }
    var s3 := Apply(cfg, s2, close);
    assert s3.row.status == Failed && s3.row.commit == Some(a);
    var s4 := Apply(cfg, s3, Head(b, true));
    steps := [];
    steps := RunOn(cfg, steps, Head(a, false));
    steps := RunOn(cfg, steps, PodEnds(arch, false));
    steps := RunOn(cfg, steps, close);
    steps := RunOn(cfg, steps, Head(b, true));
    steps := RunOn(cfg, steps, Head(a, false));
  }

  lemma RunOn(cfg: Config, steps: seq<Step>, step: Step) returns (more: seq<Step>)
    ensures more == steps + [step]
    ensures Run(cfg, Init(), more) == Apply(cfg, Run(cfg, Init(), steps), step)
  {
    more := steps + [step];
    assert more[..|steps|] == steps;
  }
}
