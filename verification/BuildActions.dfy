/**
  What one poll and one monitor pass do, in terms of the row's fields, the counters of the Jobs and
  the texts of names and tags. The claims are about `Apply` only.
 */
module BuildActions {
  import opened Seqs
  import opened BuildProtocol
  import opened BuildRuns

  /** The tag of a commit: the first seven characters of its hash. */
  ghost predicate IsTag(cfg: Config, sha: string, image: string) {
    exists short :: IsShort(sha, short) && image == cfg.repository + ":" + short
  }

  ghost predicate IsShort(sha: string, short: string) {
    short <= sha && |short| == if |sha| < 7 then |sha| else 7
  }

  ghost predicate IsGroupOf(cfg: Config, sha: string, group: string) {
    exists short :: IsShort(sha, short) && group == cfg.deployment + "-build-" + short
  }

  lemma ShortIsShort(sha: string)
    ensures IsShort(sha, Short(sha))
  {
  }

  lemma NamesOfCommit(cfg: Config, sha: string)
    ensures IsTag(cfg, sha, Image(cfg, sha)) && IsGroupOf(cfg, sha, GroupName(cfg, sha))
  {
    ShortIsShort(sha);
  }

  // ------------------------------------------------------------ the Jobs of a build group

  ghost predicate InGroup(s: State, n: JobName) {
    s.row.job.Some? && n in s.jobs && n.group == s.row.job.value
  }

  /** A Job whose pods all failed. */
  ghost predicate SomeDead(s: State) {
    exists n :: InGroup(s, n) && s.jobs[n].succeeded == 0 && s.jobs[n].failed > 0
  }

  ghost predicate ManifestDone(s: State) {
    exists n :: InGroup(s, n) && s.jobs[n].phase == ManifestPhase && s.jobs[n].succeeded > 0
  }

  /** There is an architecture Job, every one has succeeded, and there is no manifest Job yet. */
  ghost predicate OnlyArchesAndDone(s: State) {
    && (exists n :: InGroup(s, n))
    && forall n :: InGroup(s, n) ==> s.jobs[n].phase == ArchPhase && s.jobs[n].succeeded > 0
  }

  /** The pass gets to look at a build: one is running, its group is named, and its Jobs could be listed. */
  ghost predicate Looks(s: State, o: MonitorOutcome) {
    s.row.status == Building && s.row.job.Some? && s.row.job.value != "" && o.listed
  }

  /** The build is complete as the listing shows it. */
  ghost predicate Complete(cfg: Config, s: State) {
    !SomeDead(s) && (ManifestDone(s) || (OnlyArchesAndDone(s) && |cfg.arches| == 1))
  }

  ghost predicate NeedsManifest(cfg: Config, s: State) {
    !SomeDead(s) && OnlyArchesAndDone(s) && |cfg.arches| != 1
  }

  lemma SomeJobIff(s: State, phase: Phase, progress: Progress)
    requires s.row.job.Some?
    ensures SomeJob(JobsOf(s.jobs, s.row.job.value), phase, progress)
       <==> exists n :: InGroup(s, n) && s.jobs[n].phase == phase && ProgressOf(s.jobs[n]) == progress
  {
    var jobs := JobsOf(s.jobs, s.row.job.value);
    if SomeJob(jobs, phase, progress) {
      var j :| j in jobs && j.phase == phase && ProgressOf(j) == progress;
      var n :| n in s.jobs && n.group == s.row.job.value && s.jobs[n] == j;
      assert InGroup(s, n);
    }
    if n :| InGroup(s, n) && s.jobs[n].phase == phase && ProgressOf(s.jobs[n]) == progress {
      assert s.jobs[n] in jobs;
    }
  }

  lemma GroupStatusIff(s: State)
    requires s.row.job.Some?
    ensures var status := StatusOf(JobsOf(s.jobs, s.row.job.value));
      && (status.GroupFailed? <==> SomeDead(s))
      && (status == ManifestComplete <==> !SomeDead(s) && ManifestDone(s))
      && (status == ArchesComplete <==> !SomeDead(s) && OnlyArchesAndDone(s))
  {
    SomeJobIff(s, ArchPhase, Dead);
    SomeJobIff(s, ArchPhase, Done);
    SomeJobIff(s, ArchPhase, Unfinished);
    SomeJobIff(s, ManifestPhase, Dead);
    SomeJobIff(s, ManifestPhase, Done);
    SomeJobIff(s, ManifestPhase, Unfinished);
  }

  // ------------------------------------------------------------ one monitor pass

  /** The tag the rollout and the manifest Job use: that of the commit in the row. */
  ghost predicate IsRowTag(cfg: Config, s: State, image: string) {
    IsTag(cfg, if s.row.commit.Some? then s.row.commit.value else "", image)
  }

  /** A rollout is attempted if and only if the build is complete and the image there; then it is of the row's tag. */
  lemma RolloutIff(cfg: Config, s: State, o: MonitorOutcome)
    ensures var s' := Apply(cfg, s, Monitor(o));
      && s.rollouts <= s'.rollouts && |s'.rollouts| <= |s.rollouts| + 1
      && (|s'.rollouts| == |s.rollouts| + 1 <==> Looks(s, o) && Complete(cfg, s) && o.available)
      && (|s'.rollouts| == |s.rollouts| + 1 ==>
            IsRowTag(cfg, s, s'.rollouts[|s.rollouts|].image) && s'.rollouts[|s.rollouts|].jobs == s.jobs)
  {
    if Looks(s, o) {
      GroupStatusIff(s);
      NamesOfCommit(cfg, LastSha(s.row));
    }
  }

  /**
    From a running build, the row becomes "success" if and only if this pass attempted a rollout, and
    "failed" if and only if a Job of the group has failed or creating the manifest Job did; either
    way only if the row could be written.
   */
  lemma StatusWrittenIff(cfg: Config, s: State, o: MonitorOutcome)
    requires s.row.status == Building
    ensures var s' := Apply(cfg, s, Monitor(o));
      && (s'.row.status == Success <==> o.written && |s'.rollouts| == |s.rollouts| + 1)
      && (s'.row.status == Status.Failed <==>
            o.written && Looks(s, o) && (SomeDead(s) || (NeedsManifest(cfg, s) && o.manifest.Some?)))
      && (s'.row.status == Building || s'.row.status == Success || s'.row.status == Status.Failed)
      && s'.row == s.row.(status := s'.row.status)
  {
    if Looks(s, o) {
      GroupStatusIff(s);
    }
  }

  /** The Jobs after a pass. A closed build's Jobs are deleted as far as the cleanup gets, and no others. */
  lemma JobsAfterMonitor(cfg: Config, s: State, o: MonitorOutcome)
    ensures var s' := Apply(cfg, s, Monitor(o));
      forall n: JobName :: n.suffix != "manifest" || !(Looks(s, o) && NeedsManifest(cfg, s)) ==>
        && (n in s'.jobs <==> n in s.jobs && !(s'.row.status != s.row.status && InGroup(s, n) && n in o.cleaned))
        && (n in s'.jobs ==> s'.jobs[n] == s.jobs[n])
  {
    if Looks(s, o) {
      GroupStatusIff(s);
    }
  }

  /** With more than one architecture, complete architectures get a fresh manifest Job for the row's tag. */
  lemma ManifestIsCreated(cfg: Config, s: State, o: MonitorOutcome)
    requires Looks(s, o) && NeedsManifest(cfg, s) && o.manifest.None?
    ensures var s', m := Apply(cfg, s, Monitor(o)), JobName(s.row.job.value, "manifest");
      && m in s'.jobs && s'.jobs == s.jobs[m := s'.jobs[m]]
      && s'.jobs[m] == Job(ManifestPhase, s'.jobs[m].image, 0, 0, s.nextSerial) && IsRowTag(cfg, s, s'.jobs[m].image)
      && s' == s.(jobs := s'.jobs, nextSerial := s.nextSerial + 1)
  {
    GroupStatusIff(s);
    NamesOfCommit(cfg, LastSha(s.row));
  }

  /** While nothing has failed and something is still running, or the image is not there yet, a pass changes nothing. */
  lemma MonitorWaits(cfg: Config, s: State, o: MonitorOutcome)
    requires !Looks(s, o) || !(SomeDead(s) || NeedsManifest(cfg, s) || (Complete(cfg, s) && o.available))
    ensures Apply(cfg, s, Monitor(o)) == s
  {
    if Looks(s, o) {
      GroupStatusIff(s);
    }
  }

  // ------------------------------------------------------------ one poll

  /** The remote could be read, stands at another commit than the row, and no build is running. */
  ghost predicate SeesNewCommit(s: State, o: PollOutcome) {
    && s.row.status != Building && o.remote.Some?
    && o.remote.value != (if s.row.commit.Some? then s.row.commit.value else "")
  }

  /** The path filters are asked only if the row names a commit to compare with. */
  ghost predicate FiltersApply(s: State, o: PollOutcome) {
    s.row.commit.Some? && s.row.commit.value != "" && o.irrelevant
  }

  /** A new commit that the filters let pass is built; any other poll builds nothing, and moves at most the commit. */
  lemma PollBuildsIff(cfg: Config, s: State, o: PollOutcome)
    ensures var s' := Apply(cfg, s, Poll(o));
      && (s'.builds != s.builds <==> SeesNewCommit(s, o) && !FiltersApply(s, o) && o.trigger == AllCreated(true))
      && (!SeesNewCommit(s, o) ==> s' == s)
      && (SeesNewCommit(s, o) && FiltersApply(s, o) ==>
            s' == if o.skipWritten
                  then s.(row := s.row.(commit := o.remote), handled := s.handled + [Handled(o.remote.value, false)])
                  else s)
      && (SeesNewCommit(s, o) && !FiltersApply(s, o) && s'.builds == s.builds ==>
            s' == s.(jobs := s'.jobs, nextSerial := s'.nextSerial))
  {
    assert forall b: Build :: s.builds + [b] != s.builds;
  }

  /** What a recorded build looks like: the row, the log, and one new Job per architecture with the tag it pushes. */
  lemma BuildStarts(cfg: Config, s: State, o: PollOutcome)
    requires SeesNewCommit(s, o) && !FiltersApply(s, o) && o.trigger == AllCreated(true)
    ensures var s', sha := Apply(cfg, s, Poll(o)), o.remote.value;
      && s'.row.commit == Some(sha) && s'.row.status == Building
      && s'.row.job.Some? && IsGroupOf(cfg, sha, s'.row.job.value)
      && s'.builds == s.builds + [Build(sha, s'.row.job.value, s.nextSerial)]
      && s'.handled == s.handled + [Handled(sha, true)] && s'.rollouts == s.rollouts
      && (forall k: nat :: IsLastOf(cfg.arches, k) ==>
            IsArchJob(cfg, s'.jobs, s'.row.job.value, sha, cfg.arches[k], s.nextSerial + k))
      && (forall n: JobName :: n.group != s'.row.job.value || n.suffix !in cfg.arches ==>
            (n in s'.jobs <==> n in s.jobs) && (n in s.jobs ==> s'.jobs[n] == s.jobs[n]))
  {
    var sha := o.remote.value;
    NamesOfCommit(cfg, sha);
    forall n: JobName | n.group != GroupName(cfg, sha) || n.suffix !in cfg.arches {
      CreatedOnlyForArches(cfg, s.jobs, sha, s.nextSerial, |cfg.arches|, n);
    }
    forall k: nat | IsLastOf(cfg.arches, k)
      ensures IsArchJob(cfg, CreateArches(cfg, s.jobs, sha, s.nextSerial, |cfg.arches|), GroupName(cfg, sha), sha,
                        cfg.arches[k], s.nextSerial + k)
    {
      ArchJobStands(cfg, s.jobs, sha, s.nextSerial, |cfg.arches|, k);
      NamesOfCommit(cfg, sha);
    }
  }

  /** Position k is the last one of its architecture. Settings name each architecture once, but nothing checks it. */
  ghost predicate IsLastOf(arches: seq<string>, k: nat) {
    k < |arches| && forall m :: k < m < |arches| ==> arches[m] != arches[k]
  }

  /** With one architecture the Job pushes the commit's tag, otherwise that tag, a dash and the architecture. */
  ghost predicate IsArchJob(cfg: Config, jobs: map<JobName, Job>, group: string, sha: string, arch: string,
                            serial: nat)
  {
    var n := JobName(group, arch);
    && n in jobs && jobs[n] == Job(ArchPhase, jobs[n].image, 0, 0, serial)
    && exists tag :: IsTag(cfg, sha, tag)
         && jobs[n].image == if |cfg.arches| == 1 then tag else tag + "-" + arch
  }

  lemma {:induction false} ArchJobStands(cfg: Config, jobs: map<JobName, Job>, sha: string, serial: nat, m: nat, k: nat)
    requires k < m <= |cfg.arches| && forall j :: k < j < m ==> cfg.arches[j] != cfg.arches[k]
    ensures var created := CreateArches(cfg, jobs, sha, serial, m);
      ArchName(cfg, sha, k) in created && created[ArchName(cfg, sha, k)] == ArchJob(cfg, sha, serial, k)
  {
    if k < m - 1 {
      ArchJobStands(cfg, jobs, sha, serial, m - 1, k);
    }
  }

  /** The two clusters agree on the Job of that name. */
  ghost predicate SameAt(a: map<JobName, Job>, b: map<JobName, Job>, n: JobName) {
    (n in b <==> n in a) && (n in a ==> b[n] == a[n])
  }

  lemma CreatedOnlyForArches(cfg: Config, jobs: map<JobName, Job>, sha: string, serial: nat, m: nat, n: JobName)
    requires m <= |cfg.arches| && (n.group != GroupName(cfg, sha) || n.suffix !in cfg.arches)
    ensures SameAt(jobs, CreateArches(cfg, jobs, sha, serial, m), n)
  {
    for i := 0 to m
      invariant SameAt(jobs, CreateArches(cfg, jobs, sha, serial, i), n)
    {
      LandedElsewhere(jobs, CreateArches(cfg, jobs, sha, serial, i), ArchName(cfg, sha, i),
                      ArchJob(cfg, sha, serial, i), n);
    }
  }

  lemma LandedElsewhere(start: map<JobName, Job>, jobs: map<JobName, Job>, name: JobName, job: Job, n: JobName)
    requires n != name && SameAt(start, jobs, n)
    ensures SameAt(start, AfterCreate(jobs, name, job, Landed), n)
  {
  }
}
