/**
  The fingerprint cache of the plugin reconciler: a patch is skipped when the fingerprint of the
  last accepted one is the same. The claim is that the API server cannot tell the difference from a
  reconciler that always patches. Fingerprints are 64 bits, so they cannot be injective on all
  patches; the claim is stated under the condition that the two patches compared do not collide.
 */
module PatchCache {
  import opened Seqs

  type U64 = x: int | 0 <= x < 0x1_0000_0000_0000_0000
  type Patch = string
  type Fingerprint = Patch -> U64

  datatype Kind = Deployment | CronJob
  datatype Workload = Workload(kind: Kind, namespace_: string, name: string)

  /** Accepted and Rejected are as reported; Lost is applied by the server but reported as a failure. */
  datatype Outcome = Accepted | Rejected | Lost

  /** `Edited` is a write from outside: someone else changes what was patched, or deletes the workload. */
  datatype Step = Reconcile(w: Workload, patch: Patch, outcome: Outcome) | Edited(w: Workload, held: Option<Patch>)
    | ClearCache

  /** The cache, and the last patch the server accepted for each workload. */
  datatype State = State(fingerprints: map<string, U64>, server: map<Workload, Patch>)

  function Key(w: Workload): string {
    if w.kind == Deployment then w.namespace_ + "/" + w.name else "cj:" + w.namespace_ + "/" + w.name
  }

  /** Kubernetes namespaces are DNS labels: neither ':' nor '/' occurs in them. */
  predicate ValidWorkload(w: Workload) {
    ':' !in w.namespace_ && '/' !in w.namespace_
  }

  function Skips(fp: Fingerprint, s: State, w: Workload, patch: Patch): bool {
    Key(w) in s.fingerprints && s.fingerprints[Key(w)] == fp(patch)
  }

  function ServerAfter(server: map<Workload, Patch>, w: Workload, patch: Patch, outcome: Outcome)
    : map<Workload, Patch>
  {
    if outcome == Rejected then server else server[w := patch]
  }

  function ServerEdited(server: map<Workload, Patch>, w: Workload, held: Option<Patch>): map<Workload, Patch> {
    if held.Some? then server[w := held.value] else server - {w}
  }

  function Apply(fp: Fingerprint, s: State, step: Step): State {
    match step
    case ClearCache => s.(fingerprints := map[])
    case Edited(w, held) => s.(server := ServerEdited(s.server, w, held))
    case Reconcile(w, patch, outcome) =>
      if Skips(fp, s, w, patch) then s
      else
        State(if outcome == Accepted then s.fingerprints[Key(w) := fp(patch)] else s.fingerprints,
              ServerAfter(s.server, w, patch, outcome))
  }

  /** The reference: a reconciler without a cache. */
  function ApplyAlways(server: map<Workload, Patch>, step: Step): map<Workload, Patch> {
    match step
    case ClearCache => server
    case Edited(w, held) => ServerEdited(server, w, held)
    case Reconcile(w, patch, outcome) => ServerAfter(server, w, patch, outcome)
  }

  function Run(fp: Fingerprint, s: State, steps: seq<Step>): State {
    if steps == [] then s else Apply(fp, Run(fp, s, steps[..|steps| - 1]), steps[|steps| - 1])
  }

  function RunAlways(server: map<Workload, Patch>, steps: seq<Step>): map<Workload, Patch> {
    if steps == [] then server else ApplyAlways(RunAlways(server, steps[..|steps| - 1]), steps[|steps| - 1])
  }

  function Init(): State {
    State(map[], map[])
  }

  class Reconciler {
    const fp: Fingerprint
    var fingerprints: map<string, U64>
    ghost var server: map<Workload, Patch>

    constructor (fp: Fingerprint)
      ensures this.fp == fp && Now() == Init()
    {
      this.fp := fp;
      fingerprints, server := map[], map[];
    }

    ghost function Now(): State
      reads this
    {
      State(fingerprints, server)
    }

    /** One workload of one reconcile cycle; `outcome` is how the call ends if it is made. */
    method ReconcileOne(w: Workload, patch: Patch, outcome: Outcome) returns (called: bool)
      modifies this
      ensures called == !Skips(fp, old(Now()), w, patch)
      ensures Now() == Apply(fp, old(Now()), Reconcile(w, patch, outcome))
    {
      var fpKey, newFp := Key(w), fp(patch);
      var skip := fpKey in fingerprints && fingerprints[fpKey] == newFp;
      if skip {
        return false;
      }
      server := ServerAfter(server, w, patch, outcome);
      if outcome == Accepted {
        fingerprints := fingerprints[fpKey := newFp];
      }
      called := true;
    }

    /** Done whenever the plugin list is refreshed. */
    method Clear()
      modifies this
      ensures Now() == Apply(fp, old(Now()), ClearCache)
    {
      fingerprints := map[];
    }
  }

  // ------------------------------------------------------------ keys

  /** Two workloads never share a cache key, whether they are of one kind or of two. */
  lemma KeysAreDistinct(a: Workload, b: Workload)
    requires ValidWorkload(a) && ValidWorkload(b) && Key(a) == Key(b)
    ensures a == b
  {
    var ka, kb := KeyNamespace(a), KeyNamespace(b);
    FirstSlash(ka, a.name, kb, b.name);
    assert a.kind == CronJob ==> ka[2] == ':';
    assert b.kind == CronJob ==> kb[2] == ':';
    assert a.kind == CronJob ==> a.namespace_ == ka[3..];
    assert b.kind == CronJob ==> b.namespace_ == kb[3..];
  }

  /** The part of the key before its first slash. */
  function KeyNamespace(w: Workload): (s: string)
    requires ValidWorkload(w)
    ensures '/' !in s && Key(w) == s + "/" + w.name
  {
    if w.kind == Deployment then w.namespace_ else "cj:" + w.namespace_
  }

  lemma FirstSlash(a: string, x: string, b: string, y: string)
    requires '/' !in a && '/' !in b && a + "/" + x == b + "/" + y
    ensures a == b && x == y
  {
    var s := a + "/" + x;
    assert s[|a|] == '/' && s[|b|] == '/';
    assert forall k :: 0 <= k < |a| ==> s[k] == a[k];
    assert forall k :: 0 <= k < |b| ==> s[k] == b[k];
    assert |a| == |b|;
    assert a == s[..|a|] && b == s[..|b|];
    assert x == s[|a| + 1..] && y == s[|b| + 1..];
  }

  // ------------------------------------------------------------ agreement with always patching

  /** Every cached fingerprint is that of the patch the server holds. */
  ghost predicate Coherent(fp: Fingerprint, s: State) {
    && (forall w :: w in s.server ==> ValidWorkload(w))
    && (forall k :: k in s.fingerprints ==>
          exists w :: w in s.server && Key(w) == k && s.fingerprints[k] == fp(s.server[w]))
  }

  predicate ValidStep(step: Step) {
    !step.ClearCache? ==> ValidWorkload(step.w)
  }

  /**
    The events that spoil the cache, both over a cached fingerprint: a lost response, and a write from
    outside after which the server holds nothing with that fingerprint.
   */
  predicate SpoilsCache(fp: Fingerprint, s: State, step: Step) {
    match step
    case ClearCache => false
    case Reconcile(w, patch, outcome) => outcome == Lost && Key(w) in s.fingerprints && !Skips(fp, s, w, patch)
    case Edited(w, held) => Key(w) in s.fingerprints && !(held.Some? && Skips(fp, s, w, held.value))
  }

  lemma CachedIsServer(fp: Fingerprint, s: State, w: Workload)
    requires Coherent(fp, s) && ValidWorkload(w) && Key(w) in s.fingerprints
    ensures w in s.server && s.fingerprints[Key(w)] == fp(s.server[w])
  {
    var v :| v in s.server && Key(v) == Key(w) && s.fingerprints[Key(w)] == fp(s.server[v]);
    KeysAreDistinct(v, w);
  }

  /** A step keeps the cache coherent if and only if it is not one of those. */
  lemma StepKeepsCoherentIff(fp: Fingerprint, s: State, step: Step)
    requires Coherent(fp, s) && ValidStep(step)
    ensures Coherent(fp, Apply(fp, s, step)) <==> !SpoilsCache(fp, s, step)
  {
    if SpoilsCache(fp, s, step) {
      SpoiledIsIncoherent(fp, s, step);
    } else if step.Reconcile? && !Skips(fp, s, step.w, step.patch) {
      CallKeepsCoherent(fp, s, step);
    } else if step.Edited? {
      EditKeepsCoherent(fp, s, step);
    }
  }

  lemma SpoiledIsIncoherent(fp: Fingerprint, s: State, step: Step)
    requires Coherent(fp, s) && ValidStep(step) && SpoilsCache(fp, s, step)
    ensures !Coherent(fp, Apply(fp, s, step))
  {
    var k, after := Key(step.w), Apply(fp, s, step);
    forall v | v in after.server && ValidWorkload(v) && Key(v) == k
      ensures after.fingerprints[k] != fp(after.server[v])
    {
      KeysAreDistinct(v, step.w);
    }
  }

  lemma CallKeepsCoherent(fp: Fingerprint, s: State, step: Step)
    requires Coherent(fp, s) && step.Reconcile? && ValidStep(step)
    requires !SpoilsCache(fp, s, step) && !Skips(fp, s, step.w, step.patch)
    ensures Coherent(fp, Apply(fp, s, step))
  {
    var w, s' := step.w, Apply(fp, s, step);
    forall k | k in s'.fingerprints
      ensures exists v :: v in s'.server && Key(v) == k && s'.fingerprints[k] == fp(s'.server[v])
    {
      if k == Key(w) && step.outcome == Accepted {
        assert w in s'.server;
      } else {
        var v :| v in s.server && Key(v) == k && s.fingerprints[k] == fp(s.server[v]);
        assert v in s'.server && s'.server[v] == s.server[v];
      }
    }
  }

  lemma EditKeepsCoherent(fp: Fingerprint, s: State, step: Step)
    requires Coherent(fp, s) && step.Edited? && ValidStep(step) && !SpoilsCache(fp, s, step)
    ensures Coherent(fp, Apply(fp, s, step))
  {
    var w, s' := step.w, Apply(fp, s, step);
    forall k | k in s'.fingerprints
      ensures exists v :: v in s'.server && Key(v) == k && s'.fingerprints[k] == fp(s'.server[v])
    {
      var v :| v in s.server && Key(v) == k && s.fingerprints[k] == fp(s.server[v]);
      assert v in s'.server && s'.fingerprints[k] == fp(s'.server[v]);
    }
  }

  /** The patch the server holds for this workload is not a different one with the same fingerprint. */
  predicate NoCollision(fp: Fingerprint, s: State, step: Step) {
    step.Reconcile? && step.w in s.server && fp(s.server[step.w]) == fp(step.patch) ==> s.server[step.w] == step.patch
  }

  /** A patch is skipped only if the last one the server accepted for that workload is the desired one. */
  lemma SkipsOnlyWhenEqual(fp: Fingerprint, s: State, w: Workload, patch: Patch, outcome: Outcome)
    requires Coherent(fp, s) && ValidWorkload(w) && NoCollision(fp, s, Reconcile(w, patch, outcome))
    requires Skips(fp, s, w, patch)
    ensures w in s.server && s.server[w] == patch
  {
    CachedIsServer(fp, s, w);
  }

  ghost predicate Undisturbed(fp: Fingerprint, s: State, steps: seq<Step>)
    decreases |steps|
  {
    steps == []
    || (var last := |steps| - 1;
        var before := Run(fp, s, steps[..last]);
        && Undisturbed(fp, s, steps[..last])
        && ValidStep(steps[last])
        && NoCollision(fp, before, steps[last]) && !SpoilsCache(fp, before, steps[last]))
  }

  /** A step that does not spoil the cache does to the server what always patching would do. */
  lemma StepAgrees(fp: Fingerprint, s: State, step: Step)
    requires Coherent(fp, s) && ValidStep(step) && NoCollision(fp, s, step)
    ensures Apply(fp, s, step).server == ApplyAlways(s.server, step)
  {
    if step.Reconcile? && Skips(fp, s, step.w, step.patch) {
      SkipsOnlyWhenEqual(fp, s, step.w, step.patch, step.outcome);
      assert s.server[step.w := step.patch] == s.server;
    }
  }

  lemma {:induction false} CoherentRunAgrees(fp: Fingerprint, s: State, steps: seq<Step>)
    requires Coherent(fp, s) && Undisturbed(fp, s, steps)
    ensures Run(fp, s, steps).server == RunAlways(s.server, steps)
    ensures Coherent(fp, Run(fp, s, steps))
    decreases |steps|
  {
    if steps == [] {
    } else {
      var last := |steps| - 1;
      CoherentRunAgrees(fp, s, steps[..last]);
      var before := Run(fp, s, steps[..last]);
      StepKeepsCoherentIff(fp, before, steps[last]);
      StepAgrees(fp, before, steps[last]);
    }
  }

  /**
    Over any run of reconciles, failures, cache clears and outside writes none of which spoils the
    cache, the server ends up exactly as if every patch had been sent.
   */
  lemma CacheIsInvisible(fp: Fingerprint, steps: seq<Step>)
    requires Undisturbed(fp, Init(), steps)
    ensures Run(fp, Init(), steps).server == RunAlways(map[], steps)
    ensures Coherent(fp, Run(fp, Init(), steps))
  {
    assert Coherent(fp, Init());
    CoherentRunAgrees(fp, Init(), steps);
  }

  /** An undisturbed continuation after which the server differs from an always-patching one. */
  ghost predicate Diverges(fp: Fingerprint, s: State, rest: seq<Step>) {
    Undisturbed(fp, s, rest) && Run(fp, s, rest).server != RunAlways(s.server, rest)
  }

  /**
    The spoiling events are the ones that can be seen on the server: from a coherent state, a step can
    be followed by a divergence if and only if it is such an event.
   */
  lemma DivergesIffSpoiled(fp: Fingerprint, s: State, step: Step)
    requires Coherent(fp, s) && ValidStep(step) && NoCollision(fp, s, step)
    ensures Apply(fp, s, step).server == ApplyAlways(s.server, step)
    ensures (exists rest :: Diverges(fp, Apply(fp, s, step), rest)) <==> SpoilsCache(fp, s, step)
  {
    var after := Apply(fp, s, step);
    StepAgrees(fp, s, step);
    if SpoilsCache(fp, s, step) {
      OldPatchIsHidden(fp, s, step);
    } else {
      StepKeepsCoherentIff(fp, s, step);
      forall rest ensures !Diverges(fp, after, rest) {
        if Undisturbed(fp, after, rest) {
          CoherentRunAgrees(fp, after, rest);
        }
      }
    }
  }

  /** Wanting the patch of before the event again shows the difference. */
  lemma OldPatchIsHidden(fp: Fingerprint, s: State, step: Step)
    requires Coherent(fp, s) && ValidStep(step) && SpoilsCache(fp, s, step)
    ensures exists rest :: Diverges(fp, Apply(fp, s, step), rest)
  {
    var w, after := step.w, Apply(fp, s, step);
    CachedIsServer(fp, s, w);
    SkippedWrongly(fp, after, Reconcile(w, s.server[w], Accepted));
  }

  lemma SkippedWrongly(fp: Fingerprint, s: State, again: Step)
    requires again.Reconcile? && ValidWorkload(again.w) && again.outcome == Accepted
    requires Skips(fp, s, again.w, again.patch)
    requires again.w in s.server ==> fp(s.server[again.w]) != fp(again.patch)
    ensures Diverges(fp, s, [again])
  {
    assert [again][..0] == [];
    assert Run(fp, s, []) == s && RunAlways(s.server, []) == s.server && Undisturbed(fp, s, []);
    assert RunAlways(s.server, [again])[again.w] == again.patch;
  }

  /** Two accepted patches for one workload leave the server right if and only if they do not collide. */
  lemma TwoPatchesAgreeIff(fp: Fingerprint, w: Workload, p: Patch, q: Patch)
    ensures var steps := [Reconcile(w, p, Accepted), Reconcile(w, q, Accepted)];
      Run(fp, Init(), steps).server == RunAlways(map[], steps) <==> (fp(p) == fp(q) ==> p == q)
  {
    var first, second := Reconcile(w, p, Accepted), Reconcile(w, q, Accepted);
    var steps := [first, second];
    assert steps[..1] == [first] && [first][..0] == [];
    assert Run(fp, Init(), [first]) == State(map[Key(w) := fp(p)], map[w := p]);
    assert RunAlways(map[], [first]) == map[w := p];
    assert RunAlways(map[], steps)[w] == q;
  }

  /** What a lost response does: the server keeps q although p is wanted, and the cache hides it. */
  lemma LostResponseDiverges(fp: Fingerprint, w: Workload, p: Patch, q: Patch)
    requires p != q && fp(p) != fp(q)
    ensures var steps := [Reconcile(w, p, Accepted), Reconcile(w, q, Lost), Reconcile(w, p, Accepted)];
      Run(fp, Init(), steps).server == map[w := q] && RunAlways(map[], steps) == map[w := p]
  {
    var a, b, c := Reconcile(w, p, Accepted), Reconcile(w, q, Lost), Reconcile(w, p, Accepted);
    assert [a, b, c][..2] == [a, b] && [a, b][..1] == [a] && [a][..0] == [];
    assert Run(fp, Init(), [a]) == State(map[Key(w) := fp(p)], map[w := p]);
    assert Run(fp, Init(), [a, b]) == State(map[Key(w) := fp(p)], map[w := q]);
    assert RunAlways(map[], [a]) == map[w := p];
    assert RunAlways(map[], [a, b]) == map[w := q];
  }

  // ------------------------------------------------------------ when a patch is skipped

  /** The patch of the last reconcile of w that was not rejected or lost, since the cache was last cleared. */
  function LastAccepted(steps: seq<Step>, w: Workload): Option<Patch> {
    if steps == [] then None
    else
      var before := LastAccepted(steps[..|steps| - 1], w);
      match steps[|steps| - 1]
      case ClearCache => None
      case Edited(_, _) => before
      case Reconcile(v, patch, outcome) => if v == w && outcome == Accepted then Some(patch) else before
  }

  lemma {:induction false} CacheHoldsLastAccepted(fp: Fingerprint, steps: seq<Step>, w: Workload)
    requires ValidWorkload(w) && forall k :: 0 <= k < |steps| ==> ValidStep(steps[k])
    ensures var s, last := Run(fp, Init(), steps), LastAccepted(steps, w);
      && (Key(w) in s.fingerprints <==> last.Some?)
      && (last.Some? ==> s.fingerprints[Key(w)] == fp(last.value))
  {
    if steps == [] {
    } else {
      var step := steps[|steps| - 1];
      CacheHoldsLastAccepted(fp, steps[..|steps| - 1], w);
      if step.Reconcile? && Key(step.w) == Key(w) {
        KeysAreDistinct(step.w, w);
      }
    }
  }

  /**
    Exactly when a patch is skipped, over every run: the last one accepted for the workload since the
    cache was cleared has the same fingerprint. So an unchanged patch is sent once.
   */
  lemma SkippedIff(fp: Fingerprint, steps: seq<Step>, w: Workload, patch: Patch)
    requires ValidWorkload(w) && forall k :: 0 <= k < |steps| ==> ValidStep(steps[k])
    ensures Skips(fp, Run(fp, Init(), steps), w, patch)
       <==> LastAccepted(steps, w).Some? && fp(LastAccepted(steps, w).value) == fp(patch)
  {
    CacheHoldsLastAccepted(fp, steps, w);
  }
}
