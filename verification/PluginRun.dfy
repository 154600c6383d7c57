/**
  One run of the plugins: in scheduler order, each plugin is handed the outputs of those that ran
  before it, and its result is merged into the pod.

  What a plugin computes is not modelled. It is a parameter `run`: given the plugin's index and the
  outputs it is handed, it either fails (None) or returns a result. No plugin is called twice in a
  run, so this allows any behaviour.
 */
module PluginRun {
  import opened Seqs
  import opened PluginOrder
  import opened PodMerge

  type Outputs = map<string, map<string, string>>
  type Runner = (nat, Outputs) -> Option<PluginResult>

  /** A record of one plugin call: who was called, what it was handed, and how it ended. */
  datatype Call = Call(index: nat, given: Outputs, result: Option<PluginResult>)

  predicate Emits(c: Call) {
    c.result.Some? && c.result.value.outputs != map[]
  }

  ghost predicate ValidCalls(plugins: seq<LoadedPlugin>, calls: seq<Call>) {
    forall k :: 0 <= k < |calls| ==> calls[k].index < |plugins|
  }

  function AccumulatedOutputs(plugins: seq<LoadedPlugin>, calls: seq<Call>): Outputs
    requires ValidCalls(plugins, calls)
  {
    if calls == [] then map[]
    else
      var last := |calls| - 1;
      var before := AccumulatedOutputs(plugins, calls[..last]);
      if Emits(calls[last]) then before[plugins[calls[last].index].name := calls[last].result.value.outputs]
      else before
  }

  /** The calls made when the plugins run in the given order. */
  function Calls(plugins: seq<LoadedPlugin>, run: Runner, order: seq<nat>): (calls: seq<Call>)
    requires Below(order, |plugins|)
    ensures |calls| == |order| && ValidCalls(plugins, calls)
    ensures forall k :: 0 <= k < |order| ==> calls[k].index == order[k]
  {
    if order == [] then []
    else
      var last := |order| - 1;
      var before := Calls(plugins, run, order[..last]);
      var given := AccumulatedOutputs(plugins, before);
      before + [Call(order[last], given, run(order[last], given))]
  }

  /** The results that get merged: those of the calls that did not fail, in call order. */
  function Results(plugins: seq<LoadedPlugin>, calls: seq<Call>): seq<NamedResult>
    requires ValidCalls(plugins, calls)
  {
    if calls == [] then []
    else
      var last := |calls| - 1;
      Results(plugins, calls[..last])
      + if calls[last].result.None? then []
        else [NamedResult(plugins[calls[last].index].name, calls[last].result.value)]
  }

  function AllResources(rs: seq<NamedResult>): seq<string> {
    if rs == [] then [] else AllResources(rs[..|rs| - 1]) + rs[|rs| - 1].result.kubernetesResources
  }

  function AllWanted(rs: seq<NamedResult>): seq<WantsServiceAccount> {
    if rs == [] then []
    else
      var wants := rs[|rs| - 1].result.wantsServiceAccount;
      AllWanted(rs[..|rs| - 1]) + if wants.Some? then [wants.value] else []
  }

  /** What a run that has made these calls amounts to. */
  datatype Totals = Totals(outputs: Outputs, pod: Pod, resources: seq<string>, wanted: seq<WantsServiceAccount>)

  function TotalsOf(plugins: seq<LoadedPlugin>, pod: Pod, calls: seq<Call>): Totals
    requires ValidCalls(plugins, calls)
  {
    var results := Results(plugins, calls);
    Totals(AccumulatedOutputs(plugins, calls), MergeAll(pod, results), AllResources(results), AllWanted(results))
  }

  /** `totals` is what the calls to the plugins in `called`, in that order, amount to. */
  ghost predicate HasRun(plugins: seq<LoadedPlugin>, run: Runner, start: Pod, called: seq<nat>, totals: Totals) {
    Below(called, |plugins|) && totals == TotalsOf(plugins, start, Calls(plugins, run, called))
  }

  method ApplyPlugins(plugins: seq<LoadedPlugin>, run: Runner, pod: PodTarget)
    returns (resources: seq<string>, wanted: seq<WantsServiceAccount>, ghost order: seq<nat>)
    modifies pod
    ensures IsRunOrder(plugins, order) && Below(order, |plugins|)
    ensures var totals := TotalsOf(plugins, old(pod.State()), Calls(plugins, run, order));
      pod.State() == totals.pod && resources == totals.resources && wanted == totals.wanted
  {
    var sorted := SortByDependencies(plugins);
    RunOrderIsBelow(plugins, sorted);
    order := sorted;
    resources, wanted := RunAll(plugins, run, pod, sorted);
  }

  /** The loop: the plugins are called in the order given, each with what the ones before it put out. */
  method RunAll(plugins: seq<LoadedPlugin>, run: Runner, pod: PodTarget, sorted: seq<nat>)
    returns (resources: seq<string>, wanted: seq<WantsServiceAccount>)
    requires Below(sorted, |plugins|)
    modifies pod
    ensures var totals := TotalsOf(plugins, old(pod.State()), Calls(plugins, run, sorted));
      pod.State() == totals.pod && resources == totals.resources && wanted == totals.wanted
  {
    ghost var start := pod.State();
    resources, wanted := [], [];
    var accumulated: Outputs := map[];
    assert sorted[..0] == [];
    for k := 0 to |sorted|
      invariant HasRun(plugins, run, start, sorted[..k], Totals(accumulated, pod.State(), resources, wanted))
    {
      assert sorted[..k + 1] == sorted[..k] + [sorted[k]];
      accumulated, resources, wanted :=
        RunPlugin(plugins, run, sorted[k], pod, accumulated, resources, wanted, start, sorted[..k]);
    }
    assert sorted[..|sorted|] == sorted;
  }

  /** The loop's body: call the plugin with the outputs so far, and apply what it returns. */
  method RunPlugin(plugins: seq<LoadedPlugin>, run: Runner, i: nat, pod: PodTarget,
                   before: Outputs, resources: seq<string>, wanted: seq<WantsServiceAccount>,
                   ghost start: Pod, ghost called: seq<nat>)
    returns (accumulated: Outputs, resources': seq<string>, wanted': seq<WantsServiceAccount>)
    requires i < |plugins| && HasRun(plugins, run, start, called, Totals(before, pod.State(), resources, wanted))
    modifies pod
    ensures HasRun(plugins, run, start, called + [i], Totals(accumulated, pod.State(), resources', wanted'))
  {
    NextCall(plugins, run, called, i, start);
    accumulated, resources', wanted' := ApplyPlugin(plugins[i].name, run(i, before), pod, before, resources, wanted);
  }

  /** A failed call is skipped; a result is merged, and its outputs are kept if there are any. */
  method ApplyPlugin(name: string, result: Option<PluginResult>, pod: PodTarget,
                     before: Outputs, resources: seq<string>, wanted: seq<WantsServiceAccount>)
    returns (accumulated: Outputs, resources': seq<string>, wanted': seq<WantsServiceAccount>)
    modifies pod
    ensures Totals(accumulated, pod.State(), resources', wanted')
         == AddToTotals(Totals(before, old(pod.State()), resources, wanted), name, result)
  {
    accumulated, resources', wanted' := before, resources, wanted;
    match result {
      case Some(r) =>
        pod.ApplyResult(name, r);
        resources' := resources + r.kubernetesResources;
        if r.wantsServiceAccount.Some? {
          wanted' := wanted + [r.wantsServiceAccount.value];
        }
        if r.outputs != map[] {
          accumulated := accumulated[name := r.outputs];
        }
      case None =>
    }
  }

  /** What one more call adds to the totals. */
  function AddToTotals(t: Totals, name: string, result: Option<PluginResult>): Totals {
    match result
    case None => t
    case Some(r) =>
      Totals(
        if r.outputs != map[] then t.outputs[name := r.outputs] else t.outputs,
        MergeResult(t.pod, name, r),
        t.resources + r.kubernetesResources,
        if r.wantsServiceAccount.Some? then t.wanted + [r.wantsServiceAccount.value] else t.wanted)
  }

  lemma CallsOfNext(plugins: seq<LoadedPlugin>, run: Runner, before: seq<nat>, i: nat)
    requires Below(before, |plugins|) && i < |plugins|
    ensures Below(before + [i], |plugins|)
    ensures var given := AccumulatedOutputs(plugins, Calls(plugins, run, before));
      Calls(plugins, run, before + [i]) == Calls(plugins, run, before) + [Call(i, given, run(i, given))]
  {
    assert (before + [i])[..|before|] == before;
  }

  lemma NextCall(plugins: seq<LoadedPlugin>, run: Runner, called: seq<nat>, i: nat, pod: Pod)
    requires Below(called, |plugins|) && i < |plugins|
    ensures Below(called + [i], |plugins|)
    ensures var before := TotalsOf(plugins, pod, Calls(plugins, run, called));
      TotalsOf(plugins, pod, Calls(plugins, run, called + [i]))
      == AddToTotals(before, plugins[i].name, run(i, before.outputs))
  {
    var before := Calls(plugins, run, called);
    var given := AccumulatedOutputs(plugins, before);
    CallsOfNext(plugins, run, called, i);
    AddCallToTotals(plugins, before, Call(i, given, run(i, given)), pod);
  }

  lemma AddCallToTotals(plugins: seq<LoadedPlugin>, before: seq<Call>, call: Call, pod: Pod)
    requires ValidCalls(plugins, before) && call.index < |plugins|
    ensures ValidCalls(plugins, before + [call])
    ensures TotalsOf(plugins, pod, before + [call])
         == AddToTotals(TotalsOf(plugins, pod, before), plugins[call.index].name, call.result)
  {
    AddCall(plugins, before, call);
    match call.result
    case Some(r) =>
      AddResult(Results(plugins, before), NamedResult(plugins[call.index].name, r), pod);
    case None =>
      assert Results(plugins, before) + [] == Results(plugins, before);
  }

  lemma AddCall(plugins: seq<LoadedPlugin>, before: seq<Call>, call: Call)
    requires ValidCalls(plugins, before) && call.index < |plugins|
    ensures ValidCalls(plugins, before + [call])
    ensures AccumulatedOutputs(plugins, before + [call])
         == if Emits(call)
            then AccumulatedOutputs(plugins, before)[plugins[call.index].name := call.result.value.outputs]
            else AccumulatedOutputs(plugins, before)
    ensures Results(plugins, before + [call])
         == Results(plugins, before)
            + if call.result.Some? then [NamedResult(plugins[call.index].name, call.result.value)] else []
  {
    assert (before + [call])[..|before|] == before;
  }

  lemma AddResult(rs: seq<NamedResult>, r: NamedResult, pod: Pod)
    ensures AllResources(rs + [r]) == AllResources(rs) + r.result.kubernetesResources
    ensures AllWanted(rs + [r])
         == AllWanted(rs)
            + if r.result.wantsServiceAccount.Some? then [r.result.wantsServiceAccount.value] else []
    ensures MergeAll(pod, rs + [r]) == MergeResult(MergeAll(pod, rs), r.plugin, r.result)
  {
    assert (rs + [r])[..|rs|] == rs;
  }

  lemma RunOrderIsBelow(plugins: seq<LoadedPlugin>, order: seq<nat>)
    requires IsRunOrder(plugins, order)
    ensures Below(order, |plugins|) && Distinct(order)
  {
    if |plugins| >= 2 {
      var full, ready :| IsSchedule(Graph(plugins), full, ready) && order == Kept(plugins, full);
      ScheduleIsPermutation(Graph(plugins), full, ready);
      assert forall p :: 0 <= p < |full| ==> full[p] in full;
      KeptIsBelowAndDistinct(plugins, full);
    }
  }

  lemma KeptIsBelowAndDistinct(plugins: seq<LoadedPlugin>, full: seq<nat>)
    requires Distinct(full) && Below(full, |plugins|)
    ensures Distinct(Kept(plugins, full)) && Below(Kept(plugins, full), |plugins|)
  {
    var at := KeptIsSubsequence(plugins, full);
    var kept := Kept(plugins, full);
    forall p, q | 0 <= p < q < |kept|
      ensures kept[p] != kept[q]
    {
      assert kept[p] == full[at[p]] && kept[q] == full[at[q]];
    }
  }

  // ------------------------------------------------------------ what a plugin is handed

  ghost predicate UniquePluginNames(plugins: seq<LoadedPlugin>) {
    forall i, j :: 0 <= i < j < |plugins| ==> plugins[i].name != plugins[j].name
  }

  lemma {:induction false} CallsOfPrefix(plugins: seq<LoadedPlugin>, run: Runner, order: seq<nat>, k: nat)
    requires Below(order, |plugins|) && k <= |order|
    ensures Below(order[..k], |plugins|) && Calls(plugins, run, order[..k]) == Calls(plugins, run, order)[..k]
    decreases |order|
  {
    if k < |order| {
      var last := |order| - 1;
      CallsOfPrefix(plugins, run, order[..last], k);
      assert order[..last][..k] == order[..k];
      assert Calls(plugins, run, order)[..last] == Calls(plugins, run, order[..last]);
      assert Calls(plugins, run, order)[..last][..k] == Calls(plugins, run, order)[..k];
    } else {
      assert order[..k] == order;
    }
  }

  /** Each call is handed what the calls before it accumulated. */
  lemma CallIsHandedEarlierOutputs(plugins: seq<LoadedPlugin>, run: Runner, order: seq<nat>, k: nat)
    requires Below(order, |plugins|) && k < |order|
    ensures var calls := Calls(plugins, run, order);
      && calls[k].given == AccumulatedOutputs(plugins, calls[..k])
      && calls[k].result == run(order[k], calls[k].given)
  {
    CallsOfPrefix(plugins, run, order, k);
    CallsOfPrefix(plugins, run, order, k + 1);
    assert order[..k + 1][..k] == order[..k];
  }

  lemma {:induction false} AccumulatedFromEmitters(plugins: seq<LoadedPlugin>, calls: seq<Call>)
    requires ValidCalls(plugins, calls) && UniquePluginNames(plugins)
    requires forall p, q :: 0 <= p < q < |calls| ==> calls[p].index != calls[q].index
    ensures forall k :: 0 <= k < |calls| && Emits(calls[k]) ==>
      && plugins[calls[k].index].name in AccumulatedOutputs(plugins, calls)
      && AccumulatedOutputs(plugins, calls)[plugins[calls[k].index].name] == calls[k].result.value.outputs
    ensures forall name :: name in AccumulatedOutputs(plugins, calls) ==>
      exists k :: 0 <= k < |calls| && Emits(calls[k]) && plugins[calls[k].index].name == name
  {
    if calls == [] {
    } else {
      var last := |calls| - 1;
      var before := calls[..last];
      AccumulatedFromEmitters(plugins, before);
      forall k | 0 <= k < last
        ensures plugins[calls[k].index].name != plugins[calls[last].index].name && before[k] == calls[k]
      {
        assert calls[k].index != calls[last].index;
      }
      forall name | name in AccumulatedOutputs(plugins, calls)
        ensures exists k :: 0 <= k < |calls| && Emits(calls[k]) && plugins[calls[k].index].name == name
      {
        if name in AccumulatedOutputs(plugins, before) {
          var k :| 0 <= k < last && Emits(before[k]) && plugins[before[k].index].name == name;
          assert Emits(calls[k]) && plugins[calls[k].index].name == name;
        }
      }
    }
  }

  /** With unique names the accumulated outputs are exactly the non-empty outputs of the calls that succeeded. */
  lemma {:induction false} AccumulatedExactly(plugins: seq<LoadedPlugin>, calls: seq<Call>)
    requires ValidCalls(plugins, calls) && UniquePluginNames(plugins)
    requires forall p, q :: 0 <= p < q < |calls| ==> calls[p].index != calls[q].index
    ensures forall k :: 0 <= k < |calls| && calls[k].result.Some? && calls[k].result.value.outputs != map[] ==>
      && plugins[calls[k].index].name in AccumulatedOutputs(plugins, calls)
      && AccumulatedOutputs(plugins, calls)[plugins[calls[k].index].name] == calls[k].result.value.outputs
    ensures forall name :: name in AccumulatedOutputs(plugins, calls) ==>
      exists k :: 0 <= k < |calls| && calls[k].result.Some? && calls[k].result.value.outputs != map[]
                  && plugins[calls[k].index].name == name
  {
    AccumulatedFromEmitters(plugins, calls);
    forall name | name in AccumulatedOutputs(plugins, calls)
      ensures exists k :: 0 <= k < |calls| && calls[k].result.Some? && calls[k].result.value.outputs != map[]
                          && plugins[calls[k].index].name == name
    {
      var k :| 0 <= k < |calls| && Emits(calls[k]) && plugins[calls[k].index].name == name;
    }
  }

  /** The list with one element per call that succeeded, in call order. */
  function OfSuccesses<T>(calls: seq<Call>, of: (nat, PluginResult) -> seq<T>): seq<T> {
    Flatten(seq(|calls|, k requires 0 <= k < |calls| =>
      if calls[k].result.Some? then of(calls[k].index, calls[k].result.value) else []))
  }

  lemma OfSuccessesSnoc<T>(calls: seq<Call>, call: Call, of: (nat, PluginResult) -> seq<T>)
    ensures OfSuccesses(calls + [call], of)
         == OfSuccesses(calls, of) + if call.result.Some? then of(call.index, call.result.value) else []
  {
    var more := calls + [call];
    var parts := seq(|calls|, k requires 0 <= k < |calls| =>
      if calls[k].result.Some? then of(calls[k].index, calls[k].result.value) else []);
    var last := if call.result.Some? then of(call.index, call.result.value) else [];
    assert seq(|more|, k requires 0 <= k < |more| =>
      if more[k].result.Some? then of(more[k].index, more[k].result.value) else []) == parts + [last];
    FlattenSnoc(parts, last);
  }

  /**
    What a run leaves behind, part by part: a failed call leaves nothing, and every successful one its
    resources, the service account it wants, and its result merged under its own plugin's name.
   */
  lemma TotalsAre(plugins: seq<LoadedPlugin>, pod: Pod, calls: seq<Call>)
    requires ValidCalls(plugins, calls)
    ensures var totals := TotalsOf(plugins, pod, calls);
      && totals.resources == OfSuccesses(calls, (i, r: PluginResult) => r.kubernetesResources)
      && totals.wanted == OfSuccesses(calls, (i, r: PluginResult) =>
           if r.wantsServiceAccount.Some? then [r.wantsServiceAccount.value] else [])
      && totals.pod == MergeAll(pod, OfSuccesses(calls, (i: nat, r) =>
           [NamedResult(if i < |plugins| then plugins[i].name else "", r)]))
  {
    var resources := (i: nat, r: PluginResult) => r.kubernetesResources;
    var wanted := (i: nat, r: PluginResult) =>
      if r.wantsServiceAccount.Some? then [r.wantsServiceAccount.value] else [];
    var named := (i: nat, r: PluginResult) => [NamedResult(if i < |plugins| then plugins[i].name else "", r)];
    ResourcesAre(plugins, calls, resources);
    WantedAre(plugins, calls, wanted);
    ResultsAre(plugins, calls, named);
  }

  lemma {:induction false} ResourcesAre(plugins: seq<LoadedPlugin>, calls: seq<Call>,
      resources: (nat, PluginResult) -> seq<string>)
    requires ValidCalls(plugins, calls)
    requires forall i: nat, r :: resources(i, r) == r.kubernetesResources
    ensures AllResources(Results(plugins, calls)) == OfSuccesses(calls, resources)
  {
    if calls == [] {
    } else {
      var before, call := calls[..|calls| - 1], calls[|calls| - 1];
      ResourcesAre(plugins, before, resources);
      assert calls == before + [call];
      AddCall(plugins, before, call);
      OfSuccessesSnoc(before, call, resources);
      OneMoreSuccess(plugins, Results(plugins, before), call);
    }
  }

  lemma {:induction false} WantedAre(plugins: seq<LoadedPlugin>, calls: seq<Call>,
      wanted: (nat, PluginResult) -> seq<WantsServiceAccount>)
    requires ValidCalls(plugins, calls)
    requires forall i: nat, r ::
      wanted(i, r) == if r.wantsServiceAccount.Some? then [r.wantsServiceAccount.value] else []
    ensures AllWanted(Results(plugins, calls)) == OfSuccesses(calls, wanted)
  {
    if calls == [] {
    } else {
      var before, call := calls[..|calls| - 1], calls[|calls| - 1];
      WantedAre(plugins, before, wanted);
      assert calls == before + [call];
      AddCall(plugins, before, call);
      OfSuccessesSnoc(before, call, wanted);
      OneMoreSuccess(plugins, Results(plugins, before), call);
    }
  }

  lemma {:induction false} ResultsAre(plugins: seq<LoadedPlugin>, calls: seq<Call>,
      named: (nat, PluginResult) -> seq<NamedResult>)
    requires ValidCalls(plugins, calls)
    requires forall i: nat, r :: i < |plugins| ==> named(i, r) == [NamedResult(plugins[i].name, r)]
    ensures Results(plugins, calls) == OfSuccesses(calls, named)
  {
    if calls == [] {
    } else {
      var before, call := calls[..|calls| - 1], calls[|calls| - 1];
      ResultsAre(plugins, before, named);
      assert calls == before + [call];
      AddCall(plugins, before, call);
      OfSuccessesSnoc(before, call, named);
    }
  }

  lemma OneMoreSuccess(plugins: seq<LoadedPlugin>, rs: seq<NamedResult>, call: Call)
    requires call.index < |plugins|
    ensures var more :=
        if call.result.Some? then rs + [NamedResult(plugins[call.index].name, call.result.value)] else rs + [];
      && AllResources(more)
         == AllResources(rs) + (if call.result.Some? then call.result.value.kubernetesResources else [])
      && AllWanted(more)
         == AllWanted(rs)
            + (if call.result.Some? && call.result.value.wantsServiceAccount.Some?
               then [call.result.value.wantsServiceAccount.value] else [])
  {
    if call.result.Some? {
      AddResult(rs, NamedResult(plugins[call.index].name, call.result.value), Pod([], None, None, None, map[]));
    } else {
      assert rs + [] == rs;
    }
  }

  /** Two kept plugins keep the order they have in the schedule. */
  lemma KeptKeepsOrder(plugins: seq<LoadedPlugin>, full: seq<nat>, p: nat, q: nat) returns (a: nat, b: nat)
    requires p < q < |full| && Met(plugins, full[p]) && Met(plugins, full[q])
    ensures a < b < |Kept(plugins, full)|
    ensures Kept(plugins, full)[a] == full[p] && Kept(plugins, full)[b] == full[q]
  {
    var at := KeptIsSubsequence(plugins, full);
    assert p in at && q in at;
    a :| 0 <= a < |at| && at[a] == p;
    b :| 0 <= b < |at| && at[b] == q;
  }

  /**
    A consumer sees its provider's outputs: if both survive the filter, the consumer is not in the
    stuck set (in particular, whenever the graph is acyclic) and the provider succeeds with
    non-empty outputs, then the consumer is called later and is handed exactly those outputs.
   */
  lemma ConsumerSeesProvider(plugins: seq<LoadedPlugin>, run: Runner, full: seq<nat>, ready: nat, p: nat, q: nat)
    returns (a: nat, b: nat)
    requires |plugins| >= 2 && UniquePluginNames(plugins) && IsSchedule(Graph(plugins), full, ready)
    requires p < |full| && q < ready && Edge(plugins, full[p], full[q])
    requires Met(plugins, full[p]) && Met(plugins, full[q])
    ensures var order := Kept(plugins, full);
      && IsRunOrder(plugins, order) && Below(order, |plugins|)
      && a < b < |order| && order[a] == full[p] && order[b] == full[q]
    ensures var calls := Calls(plugins, run, Kept(plugins, full));
      calls[a].result.Some? && calls[a].result.value.outputs != map[] ==>
        && plugins[full[p]].name in calls[b].given
        && calls[b].given[plugins[full[p]].name] == calls[a].result.value.outputs
  {
    var order := Kept(plugins, full);
    ProviderPrecedesConsumer(plugins, full, ready, p, q);
    assert IsRunOrder(plugins, order);
    RunOrderIsBelow(plugins, order);
    a, b := KeptKeepsOrder(plugins, full, p, q);
    var calls := Calls(plugins, run, order);
    CallIsHandedEarlierOutputs(plugins, run, order, b);
    AccumulatedExactly(plugins, calls[..b]);
    assert calls[..b][a] == calls[a];
  }
}
