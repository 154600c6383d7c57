/**
  The GitOps build protocol of the watcher, for one application: poll, per-architecture Jobs,
  manifest Job, rollout. The state is the database row plus the cluster's Jobs. `Step` lists what
  can happen, with the outcome of every external call as part of the step, so a run is a sequence
  of steps and `Run` replays it.

  Job names are modelled by their two parts: the build group (`{deployment}-build-{short sha}`) and
  what follows it (an architecture, or "manifest").
 */
module BuildProtocol {
  import opened Seqs

  datatype Config = Config(deployment: string, repository: string, arches: seq<string>)

  /** At least one architecture (the settings fall back to defaults), none of them called "manifest". */
  predicate ValidConfig(cfg: Config) {
    cfg.arches != [] && "manifest" !in cfg.arches
  }

  datatype Status = NeverBuilt | Building | Success | Failed

  datatype BuildRow = BuildRow(commit: Option<string>, status: Status, job: Option<string>)

  datatype JobName = JobName(group: string, suffix: string)
  datatype Phase = ArchPhase | ManifestPhase

  /** `serial` tells Jobs created under the same name apart, as a Job's uid does. */
  datatype Job = Job(phase: Phase, image: string, succeeded: nat, failed: nat, serial: nat)

  datatype Progress = Unfinished | Done | Dead

  /** A succeeded pod outweighs failed ones. */
  function ProgressOf(j: Job): Progress {
    if j.succeeded > 0 then Done else if j.failed > 0 then Dead else Unfinished
  }

  function Short(sha: string): string {
    if |sha| <= 7 then sha else sha[..7]
  }

  function GroupName(cfg: Config, sha: string): string {
    cfg.deployment + "-build-" + Short(sha)
  }

  function Image(cfg: Config, sha: string): string {
    cfg.repository + ":" + Short(sha)
  }

  /** With one architecture the Job pushes the canonical tag, otherwise a tag of its own. */
  function ArchImage(cfg: Config, sha: string, arch: string): string {
    if |cfg.arches| == 1 then Image(cfg, sha) else Image(cfg, sha) + "-" + arch
  }

  // ------------------------------------------------------------ status of a build group

  datatype GroupStatus = InProgress | ArchesComplete | ManifestInProgress | ManifestComplete | GroupFailed(arch: bool)

  ghost predicate SomeJob(jobs: set<Job>, phase: Phase, progress: Progress) {
    exists j :: j in jobs && j.phase == phase && ProgressOf(j) == progress
  }

  /** The aggregate status, as a property of the set of Jobs: order and repetition play no part. */
  ghost function StatusOf(jobs: set<Job>): GroupStatus {
    if SomeJob(jobs, ArchPhase, Dead) then GroupFailed(true)
    else if SomeJob(jobs, ManifestPhase, Dead) then GroupFailed(false)
    else if SomeJob(jobs, ManifestPhase, Done) then ManifestComplete
    else if SomeJob(jobs, ManifestPhase, Unfinished) then ManifestInProgress
    else if SomeJob(jobs, ArchPhase, Done) && !SomeJob(jobs, ArchPhase, Unfinished) then ArchesComplete
    else InProgress
  }

  method CheckBuildGroupStatus(jobs: seq<Job>) returns (status: GroupStatus)
    ensures status == StatusOf(set j | j in jobs)
  {
    var archTotal, archSucceeded, archFailed := 0, 0, 0;
    var manifestExists, manifestSucceeded, manifestFailed := false, false, false;
    for i := 0 to |jobs|
      invariant 0 <= archSucceeded <= archTotal && 0 <= archFailed
      invariant archTotal > 0 <==> exists k :: 0 <= k < i && jobs[k].phase == ArchPhase
      invariant archSucceeded == archTotal <==>
        forall k :: 0 <= k < i && jobs[k].phase == ArchPhase ==> ProgressOf(jobs[k]) == Done
      invariant archFailed > 0 <==> exists k :: 0 <= k < i && jobs[k].phase == ArchPhase && ProgressOf(jobs[k]) == Dead
      invariant manifestExists <==> exists k :: 0 <= k < i && jobs[k].phase == ManifestPhase
      invariant manifestSucceeded <==>
        exists k :: 0 <= k < i && jobs[k].phase == ManifestPhase && ProgressOf(jobs[k]) == Done
      invariant manifestFailed <==>
        exists k :: 0 <= k < i && jobs[k].phase == ManifestPhase && ProgressOf(jobs[k]) == Dead
    {
      var job := jobs[i];
      if job.phase == ManifestPhase {
        manifestExists := true;
        if job.succeeded > 0 {
          manifestSucceeded := true;
        } else if job.failed > 0 {
          manifestFailed := true;
        }
      } else {
        archTotal := archTotal + 1;
        if job.succeeded > 0 {
          archSucceeded := archSucceeded + 1;
        } else if job.failed > 0 {
          archFailed := archFailed + 1;
        }
      }
    }
    if archFailed > 0 {
      status := GroupFailed(true);
    } else if manifestFailed {
      status := GroupFailed(false);
    } else if manifestSucceeded {
      status := ManifestComplete;
    } else if manifestExists {
      status := ManifestInProgress;
    } else if archTotal > 0 && archSucceeded == archTotal {
      status := ArchesComplete;
    } else {
      status := InProgress;
    }
    ghost var all := set j | j in jobs;
    assert forall k :: 0 <= k < |jobs| ==> jobs[k] in all;
    assert forall j :: j in all ==> exists k :: 0 <= k < |jobs| && jobs[k] == j;
  }

  function Rank(status: GroupStatus): nat {
    match status
    case InProgress => 0
    case ArchesComplete => 1
    case ManifestInProgress => 2
    case ManifestComplete => 3
    case GroupFailed(_) => 3
  }

  /** When a Job's only pod finishes, the status never moves backwards. */
  lemma FinishNeverMovesBack(jobs: set<Job>, j: Job, j': Job)
    requires j in jobs && ProgressOf(j) == Unfinished && j'.phase == j.phase && ProgressOf(j') != Unfinished
    ensures Rank(StatusOf(jobs)) <= Rank(StatusOf(jobs - {j} + {j'}))
  {
    var after := jobs - {j} + {j'};
    forall phase, progress | SomeJob(jobs, phase, progress) && progress != Unfinished
      ensures SomeJob(after, phase, progress)
    {
      var k :| k in jobs && k.phase == phase && ProgressOf(k) == progress;
      assert k in after;
    }
    forall phase | SomeJob(after, phase, Unfinished)
      ensures SomeJob(jobs, phase, Unfinished)
    {
      var k :| k in after && k.phase == phase && ProgressOf(k) == Unfinished;
      assert k in jobs;
    }
    assert SomeJob(after, j'.phase, ProgressOf(j')) by {
      assert j' in after;
    }
    forall k | k in jobs && k != j
      ensures SomeJob(after, k.phase, ProgressOf(k))
    {
      assert k in after;
    }
  }

  /** Nor when the manifest Job is created once the architectures are complete. */
  lemma ManifestNeverMovesBack(jobs: set<Job>, m: Job)
    requires StatusOf(jobs) == ArchesComplete && m.phase == ManifestPhase && ProgressOf(m) == Unfinished
    ensures StatusOf(jobs + {m}) == ManifestInProgress
  {
    assert m in jobs + {m};
  }

  /**
    A Job that failed and then succeeds on a retry moves the status back if and only if it is an
    architecture Job, no other architecture Job has failed, and no manifest Job has ended.
   */
  lemma RetryMovesBackIff(jobs: set<Job>, j: Job, j': Job)
    requires j in jobs && ProgressOf(j) == Dead && j'.phase == j.phase && ProgressOf(j') == Done
    ensures Rank(StatusOf(jobs - {j} + {j'})) < Rank(StatusOf(jobs))
       <==> && j.phase == ArchPhase && !SomeJob(jobs - {j}, ArchPhase, Dead)
            && !SomeJob(jobs, ManifestPhase, Dead) && !SomeJob(jobs, ManifestPhase, Done)
  {
    var after := jobs - {j} + {j'};
    assert SomeJob(jobs, j.phase, Dead) && SomeJob(after, j.phase, Done) by {
      assert j in jobs && j' in after;
    }
  }

  /** It does happen: the only architecture Job of a build fails, is read as failed, and then succeeds. */
  lemma RetryMovesBack(j: Job)
    requires j.phase == ArchPhase && ProgressOf(j) == Dead
    ensures var j' := j.(succeeded := 1);
      && StatusOf({j}) == GroupFailed(true) && StatusOf({j'}) == ArchesComplete
      && Rank(StatusOf({j'})) < Rank(StatusOf({j}))
  {
    var j' := j.(succeeded := 1);
    assert j in {j} && j' in {j'};
    assert {j} - {j} + {j'} == {j'};
    RetryMovesBackIff({j}, j, j');
  }
}
