/**
  When a rollout may be attempted: only after every architecture Job of the current build has
  succeeded and, with more than one architecture, its manifest Job too. The one way to break this is
  a manifest Job left over from an earlier build of the same group.
 */
module BuildSafety {
  import opened Seqs
  import opened BuildProtocol
  import opened BuildRuns

  /** Jobs carry the names and phases the watcher gives them, and serials already handed out. */
  ghost predicate WellNamed(cfg: Config, jobs: map<JobName, Job>, nextSerial: nat) {
    forall n :: n in jobs ==>
      && jobs[n].serial < nextSerial
      && (n.suffix in cfg.arches || n.suffix == "manifest")
      && jobs[n].phase == if n.suffix == "manifest" then ManifestPhase else ArchPhase
  }

  /** The Job of one architecture belongs to build b and pushes the tag b needs. */
  ghost predicate ArchFresh(cfg: Config, jobs: map<JobName, Job>, b: Build, arch: string) {
    var n := JobName(b.group, arch);
    n in jobs && jobs[n].serial >= b.firstSerial && jobs[n].image == ArchImage(cfg, b.sha, arch)
  }

  ghost predicate ArchDone(cfg: Config, jobs: map<JobName, Job>, b: Build, arch: string) {
    ArchFresh(cfg, jobs, b, arch) && ProgressOf(jobs[JobName(b.group, arch)]) == Done
  }

  ghost predicate AllArchesFresh(cfg: Config, jobs: map<JobName, Job>, b: Build) {
    forall arch :: arch in cfg.arches ==> ArchFresh(cfg, jobs, b, arch)
  }

  ghost predicate AllArchesDone(cfg: Config, jobs: map<JobName, Job>, b: Build) {
    forall arch :: arch in cfg.arches ==> ArchDone(cfg, jobs, b, arch)
  }

  /** A manifest Job of the group, if there is one, is b's own and was made after b's architectures were done. */
  ghost predicate ManifestFresh(cfg: Config, jobs: map<JobName, Job>, b: Build) {
    var m := Manifest(b.group);
    m in jobs ==>
      && |cfg.arches| != 1 && jobs[m].serial >= b.firstSerial && jobs[m].image == Image(cfg, b.sha)
      && AllArchesDone(cfg, jobs, b)
  }

  ghost predicate ActiveBuild(cfg: Config, s: State) {
    && s.builds != []
    && var b := LastBuild(s.builds);
    && s.row.commit == Some(b.sha) && s.row.job == Some(b.group) && b.group == GroupName(cfg, b.sha)
    && b.firstSerial <= s.nextSerial && AllArchesFresh(cfg, s.jobs, b) && ManifestFresh(cfg, s.jobs, b)
  }

  /** The rollout came after its build was complete, and the image is the one that build pushed. */
  ghost predicate SafeRollout(cfg: Config, r: Rollout) {
    && AllArchesDone(cfg, r.jobs, r.build)
    && r.image == Image(cfg, r.build.sha)
    && if |cfg.arches| == 1 then r.image == ArchImage(cfg, r.build.sha, cfg.arches[0])
       else
         var m := Manifest(r.build.group);
         m in r.jobs && ProgressOf(r.jobs[m]) == Done
         && r.jobs[m].serial >= r.build.firstSerial && r.jobs[m].image == r.image
  }

  ghost predicate Invariant(cfg: Config, s: State) {
    && WellNamed(cfg, s.jobs, s.nextSerial)
    && (s.row.status == Building ==> ActiveBuild(cfg, s))
  }

  /** A build starts with no manifest Job of its group left in the cluster. */
  ghost predicate StartsClean(cfg: Config, s: State, step: Step) {
    var s' := Apply(cfg, s, step);
    s'.builds != s.builds ==> Manifest(LastBuild(s'.builds).group) !in s.jobs
  }

  ghost predicate CleanRun(cfg: Config, s: State, steps: seq<Step>)
    decreases |steps|
  {
    steps == []
    || (var last := |steps| - 1;
        && CleanRun(cfg, s, steps[..last])
        && StartsClean(cfg, Run(cfg, s, steps[..last]), steps[last]))
  }

  ghost predicate AllSafe(cfg: Config, rollouts: seq<Rollout>, from: nat) {
    forall k :: from <= k < |rollouts| ==> SafeRollout(cfg, rollouts[k])
  }

  // ------------------------------------------------------------ starting a build

  lemma CreatedAreWellNamed(cfg: Config, jobs: map<JobName, Job>, sha: string, serial: nat, k: nat)
    requires ValidConfig(cfg) && k <= |cfg.arches| && WellNamed(cfg, jobs, serial)
    ensures WellNamed(cfg, CreateArches(cfg, jobs, sha, serial, k), serial + k)
  {
    for i := 0 to k
      invariant WellNamed(cfg, CreateArches(cfg, jobs, sha, serial, i), serial + i)
    {
      PutArch(cfg, jobs, sha, serial, i + 1);
    }
  }

  lemma PutArch(cfg: Config, jobs: map<JobName, Job>, sha: string, serial: nat, k: nat)
    requires ValidConfig(cfg) && 0 < k <= |cfg.arches|
    requires WellNamed(cfg, CreateArches(cfg, jobs, sha, serial, k - 1), serial + (k - 1))
    ensures WellNamed(cfg, CreateArches(cfg, jobs, sha, serial, k), serial + k)
  {
    PutKeepsNames(cfg, CreateArches(cfg, jobs, sha, serial, k - 1), serial + (k - 1),
                  ArchName(cfg, sha, k - 1), ArchJob(cfg, sha, serial, k - 1), Landed);
  }

  lemma PutKeepsNames(cfg: Config, jobs: map<JobName, Job>, serial: nat, name: JobName, job: Job, how: CreateEffect)
    requires ValidConfig(cfg) && WellNamed(cfg, jobs, serial) && job.serial == serial
    requires name.suffix in cfg.arches && job.phase == ArchPhase
    ensures WellNamed(cfg, AfterCreate(jobs, name, job, how), serial + 1)
  {
  }

  ghost predicate HasNewJob(cfg: Config, jobs: map<JobName, Job>, sha: string, serial: nat, p: nat)
    requires p < |cfg.arches|
  {
    var n := ArchName(cfg, sha, p);
    && n in jobs && jobs[n].serial >= serial
    && jobs[n].image == ArchImage(cfg, sha, cfg.arches[p]) && ProgressOf(jobs[n]) == Unfinished
  }

  lemma CreateNext(cfg: Config, before: map<JobName, Job>, sha: string, serial: nat, k: nat, p: nat)
    requires p <= k < |cfg.arches| && (p < k ==> HasNewJob(cfg, before, sha, serial, p))
    ensures HasNewJob(cfg, AfterCreate(before, ArchName(cfg, sha, k), ArchJob(cfg, sha, serial, k), Landed),
                      sha, serial, p)
  {
    assert ArchName(cfg, sha, p) == ArchName(cfg, sha, k) ==> cfg.arches[p] == cfg.arches[k];
  }

  /** Creating the Job at `at` makes `ok` true if it is the one at p, and otherwise keeps it. */
  ghost predicate KeptByCreate(cfg: Config, sha: string, serial: nat, p: nat, ok: map<JobName, Job> -> bool,
                               before: map<JobName, Job>, at: nat)
    requires at < |cfg.arches|
  {
    (p < at ==> ok(before)) ==>
      ok(AfterCreate(before, ArchName(cfg, sha, at), ArchJob(cfg, sha, serial, at), Landed))
  }

  lemma {:induction false} CreatesKeep(cfg: Config, jobs: map<JobName, Job>, sha: string, serial: nat, k: nat, p: nat,
                                       ok: map<JobName, Job> -> bool)
    requires p < k <= |cfg.arches|
    requires forall before: map<JobName, Job>, at: nat :: p <= at < |cfg.arches| ==>
      KeptByCreate(cfg, sha, serial, p, ok, before, at)
    ensures ok(CreateArches(cfg, jobs, sha, serial, k))
  {
    if p < k - 1 {
      CreatesKeep(cfg, jobs, sha, serial, k - 1, p, ok);
    }
    var before := CreateArches(cfg, jobs, sha, serial, k - 1);
    assert KeptByCreate(cfg, sha, serial, p, ok, before, k - 1) && (p < k - 1 ==> ok(before));
  }

  /** The Job stored for an architecture after k creations, if its position is below k. */
  lemma CreatedJob(cfg: Config, jobs: map<JobName, Job>, sha: string, serial: nat, k: nat, p: nat)
    requires p < k <= |cfg.arches|
    ensures HasNewJob(cfg, CreateArches(cfg, jobs, sha, serial, k), sha, serial, p)
  {
    var ok := (created: map<JobName, Job>) => HasNewJob(cfg, created, sha, serial, p);
    forall before: map<JobName, Job>, at: nat | p <= at < |cfg.arches|
      ensures KeptByCreate(cfg, sha, serial, p, ok, before, at)
    {
      if p < at ==> ok(before) {
        CreateNext(cfg, before, sha, serial, at, p);
      }
    }
    CreatesKeep(cfg, jobs, sha, serial, k, p, ok);
  }

  /** Everything a successful trigger establishes, except freedom from a left-over manifest Job. */
  lemma StartedBuild(cfg: Config, s: State, sha: string)
    requires ValidConfig(cfg) && WellNamed(cfg, s.jobs, s.nextSerial)
    ensures var s' := TriggerStep(cfg, s, sha, AllCreated(true));
      && WellNamed(cfg, s'.jobs, s'.nextSerial)
      && LastBuild(s'.builds) == Build(sha, GroupName(cfg, sha), s.nextSerial)
      && AllArchesFresh(cfg, s'.jobs, LastBuild(s'.builds))
      && (forall arch :: arch in cfg.arches ==>
            ProgressOf(s'.jobs[JobName(GroupName(cfg, sha), arch)]) == Unfinished)
      && (forall n: JobName :: n.suffix == "manifest" ==> (n in s'.jobs <==> n in s.jobs))
      && (Manifest(GroupName(cfg, sha)) in s.jobs ==>
            s'.jobs[Manifest(GroupName(cfg, sha))] == s.jobs[Manifest(GroupName(cfg, sha))])
  {
    var k := |cfg.arches|;
    CreatedAreWellNamed(cfg, s.jobs, sha, s.nextSerial, k);
    CreateKeepsManifest(cfg, s.jobs, sha, s.nextSerial, k);
    forall arch | arch in cfg.arches
      ensures var n, after := JobName(GroupName(cfg, sha), arch), CreateArches(cfg, s.jobs, sha, s.nextSerial, k);
        && n in after && after[n].serial >= s.nextSerial
        && after[n].image == ArchImage(cfg, sha, arch) && ProgressOf(after[n]) == Unfinished
    {
      var p :| 0 <= p < k && cfg.arches[p] == arch;
      CreatedJob(cfg, s.jobs, sha, s.nextSerial, k, p);
    }
  }

  lemma {:induction false} CreateKeepsManifest(cfg: Config, jobs: map<JobName, Job>, sha: string, serial: nat, k: nat)
    requires ValidConfig(cfg) && k <= |cfg.arches|
    ensures var after := CreateArches(cfg, jobs, sha, serial, k);
      forall n: JobName :: n.suffix == "manifest" ==>
        (n in after <==> n in jobs) && (n in jobs ==> after[n] == jobs[n])
  {
    if k == 0 {
    } else {
      CreateKeepsManifest(cfg, jobs, sha, serial, k - 1);
      assert cfg.arches[k - 1] in cfg.arches;
    }
  }

  lemma UnrecordedTrigger(cfg: Config, s: State, sha: string, trigger: Trigger)
    requires ValidConfig(cfg) && WellNamed(cfg, s.jobs, s.nextSerial) && trigger != AllCreated(true)
    ensures var s' := TriggerStep(cfg, s, sha, trigger);
      WellNamed(cfg, s'.jobs, s'.nextSerial) && s'.row == s.row && s'.builds == s.builds && s'.rollouts == s.rollouts
  {
    match trigger
    case DeploymentMissing =>
    case CreateFails(at, how) =>
      if at < |cfg.arches| {
        CreatedAreWellNamed(cfg, s.jobs, sha, s.nextSerial, at);
        var before := CreateArches(cfg, s.jobs, sha, s.nextSerial, at);
        PutKeepsNames(cfg, before, s.nextSerial + at, ArchName(cfg, sha, at), ArchJob(cfg, sha, s.nextSerial, at), how);
      }
    case AllCreated(_) =>
      CreatedAreWellNamed(cfg, s.jobs, sha, s.nextSerial, |cfg.arches|);
  }

  lemma PollKeepsInvariant(cfg: Config, s: State, o: PollOutcome)
    requires ValidConfig(cfg) && Invariant(cfg, s) && StartsClean(cfg, s, Poll(o))
    ensures Invariant(cfg, PollStep(cfg, s, o)) && PollStep(cfg, s, o).rollouts == s.rollouts
  {
    if s.row.status != Building && o.remote.Some? {
      if o.trigger == AllCreated(true) {
        StartedBuild(cfg, s, o.remote.value);
      } else {
        UnrecordedTrigger(cfg, s, o.remote.value, o.trigger);
      }
    }
  }

  // ------------------------------------------------------------ monitoring

  /** What the group's status says about the Jobs of the active build. */
  lemma StatusMeans(cfg: Config, jobs: map<JobName, Job>, b: Build, nextSerial: nat)
    requires ValidConfig(cfg) && WellNamed(cfg, jobs, nextSerial)
    requires AllArchesFresh(cfg, jobs, b) && ManifestFresh(cfg, jobs, b)
    ensures StatusOf(JobsOf(jobs, b.group)) == ArchesComplete ==> AllArchesDone(cfg, jobs, b)
    ensures StatusOf(JobsOf(jobs, b.group)) == ManifestComplete ==>
      var m := Manifest(b.group);
      m in jobs && ProgressOf(jobs[m]) == Done && AllArchesDone(cfg, jobs, b)
  {
    var listed := JobsOf(jobs, b.group);
    if StatusOf(listed) == ArchesComplete {
      forall arch | arch in cfg.arches
        ensures ArchDone(cfg, jobs, b, arch)
      {
        var n := JobName(b.group, arch);
        assert ArchFresh(cfg, jobs, b, arch);
        assert jobs[n] in listed && jobs[n].phase == ArchPhase;
        assert !SomeJob(listed, ArchPhase, Dead) && !SomeJob(listed, ArchPhase, Unfinished);
      }
    }
    if StatusOf(listed) == ManifestComplete {
      var j :| j in listed && j.phase == ManifestPhase && ProgressOf(j) == Done;
      var n :| n in jobs && n.group == b.group && jobs[n] == j;
      assert n == Manifest(b.group);
    }
  }

  lemma CloseKeepsNames(cfg: Config, s: State, group: string, status: Status, o: MonitorOutcome)
    requires WellNamed(cfg, s.jobs, s.nextSerial) && status != Building
    requires !o.written ==> Invariant(cfg, s)
    ensures Invariant(cfg, CloseBuild(s, group, status, o))
  {
  }

  lemma RolloutIsSafe(cfg: Config, s: State, o: MonitorOutcome)
    requires ValidConfig(cfg) && Invariant(cfg, s) && s.row.status == Building
    requires var status := StatusOf(JobsOf(s.jobs, s.row.job.value));
      (status == ArchesComplete && |cfg.arches| == 1) || status == ManifestComplete
    ensures var s' := RolloutStep(cfg, s, s.row.job.value, o);
      Invariant(cfg, s') && s.rollouts <= s'.rollouts && AllSafe(cfg, s'.rollouts, |s.rollouts|)
  {
    var b := LastBuild(s.builds);
    StatusMeans(cfg, s.jobs, b, s.nextSerial);
    var r := Rollout(Image(cfg, LastSha(s.row)), s.jobs, b);
    assert SafeRollout(cfg, r);
    var s1 := s.(rollouts := s.rollouts + [r]);
    assert Invariant(cfg, s1);
    CloseKeepsNames(cfg, s1, b.group, Success, o);
  }

  lemma ManifestStepKeepsInvariant(cfg: Config, s: State, o: MonitorOutcome)
    requires ValidConfig(cfg) && Invariant(cfg, s) && s.row.status == Building && |cfg.arches| != 1
    requires StatusOf(JobsOf(s.jobs, s.row.job.value)) == ArchesComplete
    ensures var s' := ManifestStep(cfg, s, s.row.job.value, o);
      Invariant(cfg, s') && s'.rollouts == s.rollouts
  {
    var b := LastBuild(s.builds);
    StatusMeans(cfg, s.jobs, b, s.nextSerial);
    var m, job := Manifest(b.group), NewJob(ManifestPhase, Image(cfg, b.sha), s.nextSerial);
    forall how
      ensures Invariant(cfg, s.(jobs := AfterCreate(s.jobs, m, job, how), nextSerial := s.nextSerial + 1))
    {
      PutManifest(cfg, s, how);
    }
    if o.manifest.Some? {
      var s1 := s.(jobs := AfterCreate(s.jobs, m, job, o.manifest.value), nextSerial := s.nextSerial + 1);
      CloseKeepsNames(cfg, s1, b.group, Failed, o);
    } else {
      assert AfterCreate(s.jobs, m, job, Landed) == s.jobs[m := job];
    }
  }

  lemma PutManifest(cfg: Config, s: State, how: CreateEffect)
    requires ValidConfig(cfg) && Invariant(cfg, s) && s.row.status == Building && |cfg.arches| != 1
    requires AllArchesDone(cfg, s.jobs, LastBuild(s.builds))
    requires s.nextSerial >= LastBuild(s.builds).firstSerial
    ensures var b := LastBuild(s.builds);
      var job := NewJob(ManifestPhase, Image(cfg, b.sha), s.nextSerial);
      Invariant(cfg, s.(jobs := AfterCreate(s.jobs, Manifest(b.group), job, how), nextSerial := s.nextSerial + 1))
  {
    var b := LastBuild(s.builds);
    var jobs := AfterCreate(s.jobs, Manifest(b.group), NewJob(ManifestPhase, Image(cfg, b.sha), s.nextSerial), how);
    forall arch | arch in cfg.arches
      ensures ArchDone(cfg, jobs, b, arch)
    {
      assert ArchDone(cfg, s.jobs, b, arch);
    }
  }

  lemma MonitorKeepsInvariant(cfg: Config, s: State, o: MonitorOutcome)
    requires ValidConfig(cfg) && Invariant(cfg, s)
    ensures var s' := MonitorStep(cfg, s, o);
      Invariant(cfg, s') && s.rollouts <= s'.rollouts && AllSafe(cfg, s'.rollouts, |s.rollouts|)
  {
    if s.row.status == Building && s.row.job.Some? {
      var group := s.row.job.value;
      match StatusOf(JobsOf(s.jobs, group))
      case InProgress =>
      case ManifestInProgress =>
      case ArchesComplete =>
        if |cfg.arches| == 1 {
          RolloutIsSafe(cfg, s, o);
        } else {
          ManifestStepKeepsInvariant(cfg, s, o);
        }
      case ManifestComplete =>
        RolloutIsSafe(cfg, s, o);
      case GroupFailed(_) =>
        CloseKeepsNames(cfg, s, group, Failed, o);
    }
  }

  // ------------------------------------------------------------ the environment

  lemma PodEndKeepsInvariant(cfg: Config, s: State, name: JobName, ok: bool)
    requires ValidConfig(cfg) && Invariant(cfg, s)
    ensures Invariant(cfg, s.(jobs := PodEnd(s.jobs, name, ok)))
  {
    var jobs := PodEnd(s.jobs, name, ok);
    if s.row.status == Building {
      var b := LastBuild(s.builds);
      forall arch | arch in cfg.arches
        ensures ArchFresh(cfg, jobs, b, arch)
        ensures ArchDone(cfg, s.jobs, b, arch) ==> ArchDone(cfg, jobs, b, arch)
      {
        assert ArchFresh(cfg, s.jobs, b, arch);
      }
      assert ManifestFresh(cfg, s.jobs, b);
    }
  }

  lemma ReapKeepsInvariant(cfg: Config, s: State, name: JobName)
    requires ValidConfig(cfg) && Invariant(cfg, s)
    ensures Invariant(cfg, Apply(cfg, s, Reap(name)))
  {
    var s' := Apply(cfg, s, Reap(name));
    if s.row.status == Building && s' != s {
      var b := LastBuild(s.builds);
      forall arch | arch in cfg.arches
        ensures ArchFresh(cfg, s'.jobs, b, arch)
        ensures ArchDone(cfg, s.jobs, b, arch) ==> ArchDone(cfg, s'.jobs, b, arch)
      {
        assert ArchFresh(cfg, s.jobs, b, arch);
      }
      assert ManifestFresh(cfg, s.jobs, b);
    }
  }

  // ------------------------------------------------------------ every run

  lemma StepKeepsInvariant(cfg: Config, s: State, step: Step)
    requires ValidConfig(cfg) && Invariant(cfg, s) && StartsClean(cfg, s, step)
    ensures var s' := Apply(cfg, s, step);
      Invariant(cfg, s') && s.rollouts <= s'.rollouts && AllSafe(cfg, s'.rollouts, |s.rollouts|)
  {
    match step
    case Poll(o) => PollKeepsInvariant(cfg, s, o);
    case Monitor(o) => MonitorKeepsInvariant(cfg, s, o);
    case PodEnds(name, ok) => PodEndKeepsInvariant(cfg, s, name, ok);
    case Reap(name) => ReapKeepsInvariant(cfg, s, name);
  }

  lemma {:induction false} CleanRunIsSafe(cfg: Config, s: State, steps: seq<Step>)
    requires ValidConfig(cfg) && Invariant(cfg, s) && CleanRun(cfg, s, steps)
    ensures var s' := Run(cfg, s, steps);
      Invariant(cfg, s') && s.rollouts <= s'.rollouts && AllSafe(cfg, s'.rollouts, |s.rollouts|)
    decreases |steps|
  {
    if steps == [] {
    } else {
      var last := |steps| - 1;
      CleanRunIsSafe(cfg, s, steps[..last]);
      StepKeepsInvariant(cfg, Run(cfg, s, steps[..last]), steps[last]);
    }
  }

  /**
    In every run from the empty state in which no build starts over a left-over manifest Job, every
    rollout attempted is of a complete build, and of the image that build pushed.
   */
  lemma RolloutsAreSafe(cfg: Config, steps: seq<Step>)
    requires ValidConfig(cfg) && CleanRun(cfg, Init(), steps)
    ensures AllSafe(cfg, Run(cfg, Init(), steps).rollouts, 0)
  {
    CleanRunIsSafe(cfg, Init(), steps);
  }

  /** With one architecture no manifest Job is ever made. */
  ghost predicate NoManifest(s: State) {
    forall n :: n in s.jobs ==> n.suffix != "manifest"
  }

  lemma OneArchStep(cfg: Config, s: State, step: Step)
    requires ValidConfig(cfg) && |cfg.arches| == 1 && Invariant(cfg, s) && NoManifest(s)
    ensures StartsClean(cfg, s, step) && NoManifest(Apply(cfg, s, step))
  {
    match step
    case Poll(o) => OneArchPoll(cfg, s, o);
    case Monitor(o) => MonitorLogsNothing(cfg, s, o);
    case PodEnds(_, _) =>
    case Reap(_) =>
  }

  lemma OneArchPoll(cfg: Config, s: State, o: PollOutcome)
    requires ValidConfig(cfg) && |cfg.arches| == 1 && NoManifest(s)
    ensures NoManifest(PollStep(cfg, s, o))
  {
    assert cfg.arches[0] in cfg.arches;
    if o.remote.Some? {
      assert CreateArches(cfg, s.jobs, o.remote.value, s.nextSerial, 0) == s.jobs;
    }
  }

  lemma {:induction false} OneArchRunIsClean(cfg: Config, steps: seq<Step>)
    requires ValidConfig(cfg) && |cfg.arches| == 1
    ensures CleanRun(cfg, Init(), steps) && NoManifest(Run(cfg, Init(), steps))
    decreases |steps|
  {
    if steps == [] {
    } else {
      var last := |steps| - 1;
      OneArchRunIsClean(cfg, steps[..last]);
      CleanRunIsSafe(cfg, Init(), steps[..last]);
      OneArchStep(cfg, Run(cfg, Init(), steps[..last]), steps[last]);
    }
  }

  /** With one architecture every rollout of every run is safe, without any condition on the run. */
  lemma OneArchRolloutsAreSafe(cfg: Config, steps: seq<Step>)
    requires ValidConfig(cfg) && |cfg.arches| == 1
    ensures AllSafe(cfg, Run(cfg, Init(), steps).rollouts, 0)
  {
    OneArchRunIsClean(cfg, steps);
    RolloutsAreSafe(cfg, steps);
  }

  // ------------------------------------------------------------ progress of one build

  /** An architecture Job ends at most once: with a single pod there is no retry. The manifest Job may retry. */
  ghost predicate NoArchRetry(s: State, step: Step) {
    step.PodEnds? && step.name in s.jobs && s.jobs[step.name].phase == ArchPhase ==>
      ProgressOf(s.jobs[step.name]) == Unfinished
  }

  /** How far the recorded build has come, as the monitor sees it. */
  ghost function Reached(s: State): nat
    requires s.row.job.Some?
  {
    Rank(StatusOf(JobsOf(s.jobs, s.row.job.value)))
  }

  /**
    Every Job of the group is still there and no less finished; a new one is a manifest Job, made
    once the architectures were complete.
   */
  ghost predicate Advances(before: map<JobName, Job>, after: map<JobName, Job>, group: string) {
    && (forall n :: n in before && n.group == group ==>
          && n in after && after[n].phase == before[n].phase
          && (ProgressOf(before[n]) != Unfinished ==> ProgressOf(after[n]) != Unfinished)
          && (ProgressOf(before[n]) != Unfinished && before[n].phase == ArchPhase ==>
                ProgressOf(after[n]) == ProgressOf(before[n])))
    && (forall n :: n in after && n.group == group && n !in before ==>
          && after[n].phase == ManifestPhase && ProgressOf(after[n]) == Unfinished
          && StatusOf(JobsOf(before, group)) == ArchesComplete)
  }

  lemma AdvancesFinished(before: map<JobName, Job>, after: map<JobName, Job>, group: string, phase: Phase, p: Progress)
    requires Advances(before, after, group) && p != Unfinished && SomeJob(JobsOf(before, group), phase, p)
    ensures SomeJob(JobsOf(after, group), phase, p)
         || (phase == ManifestPhase && SomeJob(JobsOf(after, group), phase, if p == Done then Dead else Done))
  {
    var j :| j in JobsOf(before, group) && j.phase == phase && ProgressOf(j) == p;
    var n :| n in before && n.group == group && before[n] == j;
    assert after[n] in JobsOf(after, group);
  }

  lemma AdvancesUnfinishedArch(before: map<JobName, Job>, after: map<JobName, Job>, group: string)
    requires Advances(before, after, group) && SomeJob(JobsOf(after, group), ArchPhase, Unfinished)
    ensures SomeJob(JobsOf(before, group), ArchPhase, Unfinished)
  {
    var j :| j in JobsOf(after, group) && j.phase == ArchPhase && ProgressOf(j) == Unfinished;
    var n :| n in after && n.group == group && after[n] == j;
    assert before[n] in JobsOf(before, group);
  }

  lemma AdvancesManifest(before: map<JobName, Job>, after: map<JobName, Job>, group: string)
    requires Advances(before, after, group) && SomeJob(JobsOf(before, group), ManifestPhase, Unfinished)
    ensures exists p :: SomeJob(JobsOf(after, group), ManifestPhase, p)
  {
    var j :| j in JobsOf(before, group) && j.phase == ManifestPhase && ProgressOf(j) == Unfinished;
    var n :| n in before && n.group == group && before[n] == j;
    assert after[n] in JobsOf(after, group);
    assert SomeJob(JobsOf(after, group), ManifestPhase, ProgressOf(after[n]));
  }

  lemma AdvancingRank(before: map<JobName, Job>, after: map<JobName, Job>, group: string)
    requires Advances(before, after, group)
    ensures Rank(StatusOf(JobsOf(before, group))) <= Rank(StatusOf(JobsOf(after, group)))
  {
    forall phase, p | p != Unfinished && SomeJob(JobsOf(before, group), phase, p)
      ensures SomeJob(JobsOf(after, group), phase, p)
           || (phase == ManifestPhase && SomeJob(JobsOf(after, group), phase, if p == Done then Dead else Done))
    {
      AdvancesFinished(before, after, group, phase, p);
    }
    if SomeJob(JobsOf(after, group), ArchPhase, Unfinished) {
      AdvancesUnfinishedArch(before, after, group);
    }
    if SomeJob(JobsOf(before, group), ManifestPhase, Unfinished) {
      AdvancesManifest(before, after, group);
      var p :| SomeJob(JobsOf(after, group), ManifestPhase, p);
    }
  }

  lemma StepAdvances(cfg: Config, s: State, step: Step)
    requires WellNamed(cfg, s.jobs, s.nextSerial) && ValidConfig(cfg) && NoArchRetry(s, step)
    requires s.row.status == Building && s.row.job.Some? && Apply(cfg, s, step).row.status == Building
    ensures Apply(cfg, s, step).row.job == s.row.job
    ensures WellNamed(cfg, Apply(cfg, s, step).jobs, Apply(cfg, s, step).nextSerial)
    ensures Advances(s.jobs, Apply(cfg, s, step).jobs, s.row.job.value)
  {
    RowMoves(cfg, s, step);
    if step.Monitor? {
      MonitorAdvances(cfg, s, step.monitor);
    }
  }

  lemma MonitorAdvances(cfg: Config, s: State, o: MonitorOutcome)
    requires WellNamed(cfg, s.jobs, s.nextSerial) && ValidConfig(cfg)
    requires s.row.status == Building && s.row.job.Some? && MonitorStep(cfg, s, o).row.status == Building
    ensures WellNamed(cfg, MonitorStep(cfg, s, o).jobs, MonitorStep(cfg, s, o).nextSerial)
    ensures Advances(s.jobs, MonitorStep(cfg, s, o).jobs, s.row.job.value)
  {
    var group := s.row.job.value;
    if StatusOf(JobsOf(s.jobs, group)) == ArchesComplete {
      if Manifest(group) in s.jobs {
        assert s.jobs[Manifest(group)] in JobsOf(s.jobs, group);
        assert SomeJob(JobsOf(s.jobs, group), ManifestPhase, ProgressOf(s.jobs[Manifest(group)]));
      }
    }
  }

  /** The build stays open over these steps, and no architecture Job retries. */
  ghost predicate StaysOpen(cfg: Config, s: State, steps: seq<Step>)
    decreases |steps|
  {
    s.row.status == Building
    && (steps == []
        || (var last := |steps| - 1;
            && StaysOpen(cfg, s, steps[..last])
            && NoArchRetry(Run(cfg, s, steps[..last]), steps[last])
            && Run(cfg, s, steps).row.status == Building))
  }

  /** As long as a build is open, the status the monitor sees never moves backwards, over any run. */
  lemma {:induction false} BuildNeverMovesBack(cfg: Config, s: State, steps: seq<Step>)
    requires ValidConfig(cfg) && WellNamed(cfg, s.jobs, s.nextSerial) && s.row.job.Some?
    requires StaysOpen(cfg, s, steps)
    ensures var s' := Run(cfg, s, steps);
      WellNamed(cfg, s'.jobs, s'.nextSerial) && s'.row.job == s.row.job && Reached(s) <= Reached(s')
    decreases |steps|
  {
    if steps == [] {
    } else {
      var last := |steps| - 1;
      var before := Run(cfg, s, steps[..last]);
      BuildNeverMovesBack(cfg, s, steps[..last]);
      StepAdvances(cfg, before, steps[last]);
      AdvancingRank(before.jobs, Run(cfg, s, steps).jobs, s.row.job.value);
    }
  }

  // ------------------------------------------------------------ exactly when it fails

  /** Some continuation of s attempts an unsafe rollout before any further build is recorded. */
  ghost predicate CanRollOutEarly(cfg: Config, s: State) {
    exists steps :: EarlyRollout(cfg, s, Run(cfg, s, steps))
  }

  ghost predicate EarlyRollout(cfg: Config, s: State, s': State) {
    && s'.builds == s.builds && s.rollouts <= s'.rollouts
    && !AllSafe(cfg, s'.rollouts, |s.rollouts|)
  }

  lemma {:induction false} BuildsOnlyGrow(cfg: Config, s: State, steps: seq<Step>)
    ensures s.builds <= Run(cfg, s, steps).builds
    decreases |steps|
  {
    if steps == [] {
    } else {
      var before := Run(cfg, s, steps[..|steps| - 1]);
      BuildsOnlyGrow(cfg, s, steps[..|steps| - 1]);
      StepAddsBuilds(cfg, before, steps[|steps| - 1]);
    }
  }

  lemma StepAddsBuilds(cfg: Config, s: State, step: Step)
    ensures s.builds <= Apply(cfg, s, step).builds
  {
    if step.Monitor? {
      MonitorLogsNothing(cfg, s, step.monitor);
    }
  }

  /** A run that records no build starts none over left-overs. */
  lemma {:induction false} NoNewBuildIsClean(cfg: Config, s: State, steps: seq<Step>)
    requires Run(cfg, s, steps).builds == s.builds
    ensures CleanRun(cfg, s, steps)
    decreases |steps|
  {
    if steps == [] {
    } else {
      var last := |steps| - 1;
      BuildsOnlyGrow(cfg, s, steps[..last]);
      StepAddsBuilds(cfg, Run(cfg, s, steps[..last]), steps[last]);
      NoNewBuildIsClean(cfg, s, steps[..last]);
    }
  }

  /** A manifest Job left over at the start: one successful pod and one monitor pass later the rollout is attempted. */
  lemma LeftoverRollsOutEarly(cfg: Config, s: State, sha: string)
    requires ValidConfig(cfg) && WellNamed(cfg, s.jobs, s.nextSerial)
    requires Manifest(GroupName(cfg, sha)) in s.jobs
    ensures CanRollOutEarly(cfg, TriggerStep(cfg, s, sha, AllCreated(true)))
  {
    var s1 := TriggerStep(cfg, s, sha, AllCreated(true));
    var group := GroupName(cfg, sha);
    StartedBuild(cfg, s, sha);
    assert |group| >= 7;
    assert cfg.arches[0] in cfg.arches;
    OnePodAndOneLook(cfg, s1, group, cfg.arches[0]);
  }

  lemma OnePodAndOneLook(cfg: Config, s: State, group: string, arch: string)
    requires ValidConfig(cfg) && WellNamed(cfg, s.jobs, s.nextSerial) && group != "" && arch in cfg.arches
    requires s.row.status == Building && s.row.job == Some(group) && LastBuild(s.builds).group == group
    requires Manifest(group) in s.jobs && JobName(group, arch) in s.jobs
    requires forall n :: n in s.jobs && n.group == group && n.suffix != "manifest" ==>
      ProgressOf(s.jobs[n]) == Unfinished
    ensures CanRollOutEarly(cfg, s)
  {
    var pod, look := PodEnds(Manifest(group), true), Monitor(MonitorOutcome(true, true, None, false, {}));
    var s2 := Apply(cfg, s, pod);
    assert ProgressOf(s2.jobs[JobName(group, arch)]) == Unfinished;
    LeftoverLooksComplete(cfg, s2.jobs, s2.nextSerial, group);
    var s3 := Apply(cfg, s2, look);
    RunOfTwo(cfg, s, pod, look);
    var r := Rollout(Image(cfg, LastSha(s.row)), s2.jobs, LastBuild(s.builds));
    assert s3.rollouts == s.rollouts + [r];
    assert !ArchDone(cfg, r.jobs, r.build, arch);
    assert s3.rollouts[|s.rollouts|] == r;
    assert EarlyRollout(cfg, s, Run(cfg, s, [pod, look]));
  }

  lemma RunOfTwo(cfg: Config, s: State, a: Step, b: Step)
    ensures Run(cfg, s, [a, b]) == Apply(cfg, Apply(cfg, s, a), b)
  {
    assert [a, b][..1] == [a] && [a][..0] == [];
    assert Run(cfg, s, [a]) == Apply(cfg, s, a);
  }

  lemma LeftoverLooksComplete(cfg: Config, jobs: map<JobName, Job>, nextSerial: nat, group: string)
    requires ValidConfig(cfg) && WellNamed(cfg, jobs, nextSerial)
    requires Manifest(group) in jobs && ProgressOf(jobs[Manifest(group)]) == Done
    requires forall n :: n in jobs && n.group == group && n.suffix != "manifest" ==> ProgressOf(jobs[n]) == Unfinished
    ensures StatusOf(JobsOf(jobs, group)) == ManifestComplete
  {
    var listed := JobsOf(jobs, group);
    assert jobs[Manifest(group)] in listed;
    forall j | j in listed
      ensures j.phase == ArchPhase ==> ProgressOf(j) == Unfinished
      ensures j.phase == ManifestPhase ==> ProgressOf(j) == Done
    {
      var n :| n in jobs && n.group == group && jobs[n] == j;
      assert n.suffix == "manifest" ==> n == Manifest(group);
    }
  }

  /**
    The exact condition, on the cluster before the build starts: the new build can be rolled out too
    early if and only if a manifest Job of its group is still there.
   */
  lemma EarlyRolloutIffLeftover(cfg: Config, s: State, sha: string)
    requires ValidConfig(cfg) && Invariant(cfg, s)
    ensures CanRollOutEarly(cfg, TriggerStep(cfg, s, sha, AllCreated(true)))
       <==> Manifest(GroupName(cfg, sha)) in s.jobs
  {
    var s1 := TriggerStep(cfg, s, sha, AllCreated(true));
    StartedBuild(cfg, s, sha);
    if Manifest(GroupName(cfg, sha)) in s.jobs {
      LeftoverRollsOutEarly(cfg, s, sha);
    } else {
      assert Invariant(cfg, s1);
      forall steps
        ensures !EarlyRollout(cfg, s1, Run(cfg, s1, steps))
      {
        if Run(cfg, s1, steps).builds == s1.builds {
          NoNewBuildIsClean(cfg, s1, steps);
          CleanRunIsSafe(cfg, s1, steps);
        }
      }
    }
  }

  /**
    The condition does fail in practice: a two-architecture build of `a` succeeds but its cleanup
    does not, the head moves to `b`, which the path filters skip, and back to `a`.
   */
  lemma LeftoverIsReachable(a: string, b: string) returns (cfg: Config, steps: seq<Step>)
    requires a != b && a != "" && b != ""
    ensures ValidConfig(cfg)
    ensures CanRollOutEarly(cfg, Run(cfg, Init(), steps))
  {
    cfg := Config("app", "repo", ["amd64", "arm64"]);
    var s;
    s, steps := ManifestBuildWithoutCleanup(cfg, a);
    s, steps := Advance(cfg, s, steps, Head(b, true));
    LeftoverRollsOutEarly(cfg, s, a);
    s, steps := Advance(cfg, s, steps, Head(a, false));
  }

  lemma Advance(cfg: Config, s: State, steps: seq<Step>, step: Step) returns (s': State, more: seq<Step>)
    requires s == Run(cfg, Init(), steps)
    ensures s' == Apply(cfg, s, step) && s' == Run(cfg, Init(), more)
  {
    s', more := Apply(cfg, s, step), steps + [step];
    assert more[..|steps|] == steps;
  }

  lemma ManifestBuildWithoutCleanup(cfg: Config, a: string) returns (s: State, steps: seq<Step>)
    requires cfg == Config("app", "repo", ["amd64", "arm64"]) && a != ""
    ensures ValidConfig(cfg) && s == Run(cfg, Init(), steps)
    ensures s.row == BuildRow(Some(a), Success, Some(GroupName(cfg, a)))
    ensures WellNamed(cfg, s.jobs, s.nextSerial) && Manifest(GroupName(cfg, a)) in s.jobs
  {
    var amd, arm, m := ArchName(cfg, a, 0), ArchName(cfg, a, 1), Manifest(GroupName(cfg, a));
    assert |"amd64"| == 5 && "arm64" != "manifest" && |"manifest"| == 8;
    s, steps := ManifestCreated(cfg, a);
    s, steps := Advance(cfg, s, steps, PodEnds(m, true));
    ManifestIsComplete(s.jobs, amd, arm, m);
    s, steps := Advance(cfg, s, steps, Monitor(MonitorOutcome(true, true, None, true, {})));
    assert cfg.arches[0] in cfg.arches && cfg.arches[1] in cfg.arches;
  }

  lemma ManifestCreated(cfg: Config, a: string) returns (s: State, steps: seq<Step>)
    requires cfg == Config("app", "repo", ["amd64", "arm64"]) && a != ""
    ensures s == Run(cfg, Init(), steps) && s.row == BuildRow(Some(a), Building, Some(GroupName(cfg, a)))
    ensures var m := Manifest(GroupName(cfg, a));
      && s.row.job.value != "" && s.jobs.Keys == {ArchName(cfg, a, 0), ArchName(cfg, a, 1), m}
      && ProgressOf(s.jobs[m]) == Unfinished
      && forall n :: n in s.jobs ==>
           && s.jobs[n].serial < s.nextSerial && (s.jobs[n].phase == ManifestPhase <==> n == m)
           && (n != m ==> ProgressOf(s.jobs[n]) == Done)
  {
    assert |"amd64"| == 5 && |"arm64"| == 5 && |"manifest"| == 8;
    s, steps := TwoArchesBuilt(cfg, a);
    TwoArchesComplete(s.jobs, ArchName(cfg, a, 0), ArchName(cfg, a, 1));
    s, steps := Advance(cfg, s, steps, Monitor(MonitorOutcome(true, true, None, true, {})));
  }

  lemma TwoArchesBuilt(cfg: Config, a: string) returns (s: State, steps: seq<Step>)
    requires cfg == Config("app", "repo", ["amd64", "arm64"]) && a != ""
    ensures s == Run(cfg, Init(), steps) && s.row == BuildRow(Some(a), Building, Some(GroupName(cfg, a)))
    ensures s.row.job.value != "" && s.jobs.Keys == {ArchName(cfg, a, 0), ArchName(cfg, a, 1)}
    ensures forall n :: n in s.jobs ==>
      s.jobs[n].phase == ArchPhase && ProgressOf(s.jobs[n]) == Done && s.jobs[n].serial < s.nextSerial
  {
    var amd, arm := ArchName(cfg, a, 0), ArchName(cfg, a, 1);
    assert "amd64"[1] == 'm' && "arm64"[1] == 'r' && |GroupName(cfg, a)| >= 7;
    s, steps := Init(), [];
    s, steps := Advance(cfg, s, steps, Head(a, false));
    TwoArchesCreated(cfg, a);
    s, steps := Advance(cfg, s, steps, PodEnds(amd, true));
    s, steps := Advance(cfg, s, steps, PodEnds(arm, true));
  }

  lemma TwoArchesCreated(cfg: Config, a: string)
    requires cfg == Config("app", "repo", ["amd64", "arm64"])
    ensures CreateArches(cfg, map[], a, 0, 2)
         == map[ArchName(cfg, a, 0) := ArchJob(cfg, a, 0, 0), ArchName(cfg, a, 1) := ArchJob(cfg, a, 0, 1)]
  {
    assert CreateArches(cfg, map[], a, 0, 1) == map[ArchName(cfg, a, 0) := ArchJob(cfg, a, 0, 0)];
  }

  lemma TwoArchesComplete(jobs: map<JobName, Job>, amd: JobName, arm: JobName)
    requires jobs.Keys == {amd, arm} && amd.group == arm.group
    requires forall n :: n in jobs ==> jobs[n].phase == ArchPhase && ProgressOf(jobs[n]) == Done
    ensures StatusOf(JobsOf(jobs, amd.group)) == ArchesComplete
  {
    assert jobs[amd] in JobsOf(jobs, amd.group);
    assert forall j :: j in JobsOf(jobs, amd.group) ==> j.phase == ArchPhase && ProgressOf(j) == Done;
  }

  lemma ManifestIsComplete(jobs: map<JobName, Job>, amd: JobName, arm: JobName, m: JobName)
    requires jobs.Keys == {amd, arm, m} && m.group == amd.group == arm.group && m != amd && m != arm
    requires forall n :: n in jobs ==> ProgressOf(jobs[n]) == Done && (jobs[n].phase == ManifestPhase <==> n == m)
    ensures StatusOf(JobsOf(jobs, m.group)) == ManifestComplete
  {
    assert jobs[m] in JobsOf(jobs, m.group);
    assert forall j :: j in JobsOf(jobs, m.group) ==> ProgressOf(j) == Done;
  }
}
