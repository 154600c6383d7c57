/**
  The plugin scheduler: Kahn's algorithm over the capability graph.

  A reference into the slice of loaded plugins is modelled as the plugin's index.
  `IsSchedule` states, without mentioning the algorithm, which order the loop produces; it
  determines that order completely (`ScheduleIsUnique`).
 */
module PluginOrder {
  import opened Seqs

  datatype PluginMetadata = PluginMetadata(
    capabilities: seq<string>, dependsOn: seq<string>, optionalDependsOn: seq<string>)

  datatype LoadedPlugin = LoadedPlugin(name: string, metadata: PluginMetadata)

  // ------------------------------------------------------------ capability graph

  /** The plugin an edge for `cap` starts from: the last one that provides it. */
  function ProviderOf(plugins: seq<LoadedPlugin>, cap: string): (r: Option<nat>)
    ensures r.None? <==> forall k :: 0 <= k < |plugins| ==> cap !in plugins[k].metadata.capabilities
    ensures r.Some? ==> r.value < |plugins| && cap in plugins[r.value].metadata.capabilities
    ensures r.Some? ==> forall k :: r.value < k < |plugins| ==> cap !in plugins[k].metadata.capabilities
  {
    if plugins == [] then None
    else
      var last := |plugins| - 1;
      if cap in plugins[last].metadata.capabilities then Some(last) else ProviderOf(plugins[..last], cap)
  }

  function AllDeps(p: LoadedPlugin): seq<string> {
    p.metadata.dependsOn + p.metadata.optionalDependsOn
  }

  /** j must run after i: one of j's dependencies has i as its provider. Self-dependencies make no edge. */
  ghost predicate Edge(plugins: seq<LoadedPlugin>, i: nat, j: nat) {
    && i < |plugins| && j < |plugins| && i != j
    && exists k :: 0 <= k < |AllDeps(plugins[j])| && ProviderOf(plugins, AllDeps(plugins[j])[k]) == Some(i)
  }

  /** Plugin i provides the capability, and no plugin after it does. */
  ghost predicate IsLastProvider(plugins: seq<LoadedPlugin>, i: nat, cap: string) {
    && i < |plugins| && cap in plugins[i].metadata.capabilities
    && forall k :: i < k < |plugins| ==> cap !in plugins[k].metadata.capabilities
  }

  /** Hard and optional dependencies alike make an edge, from the last provider of the capability. */
  lemma EdgeIff(plugins: seq<LoadedPlugin>, i: nat, j: nat)
    ensures Edge(plugins, i, j)
       <==> && i < |plugins| && j < |plugins| && i != j
            && exists cap :: IsLastProvider(plugins, i, cap)
                 && (cap in plugins[j].metadata.dependsOn || cap in plugins[j].metadata.optionalDependsOn)
  {
    if i < |plugins| && j < |plugins| {
      var deps := AllDeps(plugins[j]);
      forall cap ensures ProviderOf(plugins, cap) == Some(i) <==> IsLastProvider(plugins, i, cap) {
        ProviderIsLast(plugins, i, cap);
      }
      assert forall cap :: cap in deps <==> cap in plugins[j].metadata.dependsOn
                                            || cap in plugins[j].metadata.optionalDependsOn;
      if cap :| IsLastProvider(plugins, i, cap) && cap in deps {
        var k :| 0 <= k < |deps| && deps[k] == cap;
        assert ProviderOf(plugins, deps[k]) == Some(i);
      }
    }
  }

  lemma ProviderIsLast(plugins: seq<LoadedPlugin>, i: nat, cap: string)
    ensures ProviderOf(plugins, cap) == Some(i) <==> IsLastProvider(plugins, i, cap)
  {
  }

  /** How many of the capabilities `caps` have i as their provider. */
  function EdgeCount(plugins: seq<LoadedPlugin>, caps: seq<string>, i: nat): nat {
    if caps == [] then 0
    else
      var last := |caps| - 1;
      EdgeCount(plugins, caps[..last], i) + if ProviderOf(plugins, caps[last]) == Some(i) then 1 else 0
  }

  function Copies(j: nat, count: nat): seq<nat> {
    seq(count, _ => j)
  }

  function EdgesTo(plugins: seq<LoadedPlugin>, caps: seq<string>, i: nat, j: nat): seq<nat> {
    if i == j then [] else Copies(j, EdgeCount(plugins, caps, i))
  }

  /** The adjacency list of plugin i, restricted to the first m consumers. */
  function Successors(plugins: seq<LoadedPlugin>, i: nat, m: nat): seq<nat>
    requires m <= |plugins|
  {
    if m == 0 then []
    else Successors(plugins, i, m - 1) + EdgesTo(plugins, AllDeps(plugins[m - 1]), i, m - 1)
  }

  function Graph(plugins: seq<LoadedPlugin>): seq<seq<nat>> {
    seq(|plugins|, i requires 0 <= i => Successors(plugins, i, |plugins|))
  }

  /** Adjacency lists name existing other nodes, in non-decreasing order. */
  ghost predicate ValidGraph(g: seq<seq<nat>>) {
    forall i :: 0 <= i < |g| ==> ValidRow(g[i], i, |g|)
  }

  ghost predicate ValidRow(row: seq<nat>, i: nat, n: nat) {
    && Below(row, n) && i !in row
    && forall p, q :: 0 <= p <= q < |row| ==> row[p] <= row[q]
  }

  lemma {:induction false} EdgeCountPositive(plugins: seq<LoadedPlugin>, caps: seq<string>, i: nat)
    ensures EdgeCount(plugins, caps, i) > 0
       <==> exists k :: 0 <= k < |caps| && ProviderOf(plugins, caps[k]) == Some(i)
  {
    if caps == [] {
    } else {
      var last := |caps| - 1;
      EdgeCountPositive(plugins, caps[..last], i);
      if EdgeCount(plugins, caps[..last], i) > 0 {
        var k :| 0 <= k < last && ProviderOf(plugins, caps[..last][k]) == Some(i);
        assert ProviderOf(plugins, caps[k]) == Some(i);
      } else {
        assert forall k :: 0 <= k < last ==> caps[k] == caps[..last][k];
      }
    }
  }

  lemma EdgesToIffEdge(plugins: seq<LoadedPlugin>, i: nat, j: nat)
    requires i < |plugins| && j < |plugins|
    ensures var e := EdgesTo(plugins, AllDeps(plugins[j]), i, j);
      && (e != [] <==> Edge(plugins, i, j))
      && forall p :: 0 <= p < |e| ==> e[p] == j
  {
    EdgeCountPositive(plugins, AllDeps(plugins[j]), i);
  }

  lemma RowAppend(row: seq<nat>, added: seq<nat>, i: nat, m: nat)
    requires ValidRow(row, i, m)
    requires forall p :: 0 <= p < |added| ==> added[p] == m && m != i
    ensures ValidRow(row + added, i, m + 1)
  {
    var all := row + added;
    forall p, q | 0 <= p <= q < |all|
      ensures all[p] <= all[q] < m + 1
    {
      assert all[q] == if q < |row| then row[q] else added[q - |row|];
      assert all[p] == if p < |row| then row[p] else added[p - |row|];
    }
  }

  lemma RowMembers(row: seq<nat>, added: seq<nat>, m: nat, edge: nat -> bool)
    requires forall j: nat :: j in row <==> j < m && edge(j)
    requires (added != [] <==> edge(m)) && forall p :: 0 <= p < |added| ==> added[p] == m
    ensures forall j: nat :: j in row + added <==> j < m + 1 && edge(j)
  {
    assert added != [] ==> added[0] in added;
    assert forall j: nat :: j in row + added <==> j in row || j in added;
  }

  /** The edges added for consumer j are copies of j, and there are some exactly if `edge` says so. */
  ghost predicate AddsEdge(plugins: seq<LoadedPlugin>, i: nat, edge: nat -> bool, j: nat)
    requires j < |plugins|
  {
    var e := EdgesTo(plugins, AllDeps(plugins[j]), i, j);
    (e != [] <==> edge(j)) && forall p :: 0 <= p < |e| ==> e[p] == j
  }

  /** A valid row of plugin i that names, of the first m consumers, those `edge` names. */
  ghost predicate RowOf(row: seq<nat>, i: nat, m: nat, edge: nat -> bool) {
    ValidRow(row, i, m) && forall j: nat :: j in row <==> j < m && edge(j)
  }

  /** One more consumer keeps what is `ok` of a row. */
  ghost predicate KeptByConsumer(plugins: seq<LoadedPlugin>, i: nat, ok: (seq<nat>, nat) -> bool, row: seq<nat>, k: nat)
    requires k < |plugins|
  {
    ok(row, k) ==> ok(row + EdgesTo(plugins, AllDeps(plugins[k]), i, k), k + 1)
  }

  lemma {:induction false} SuccessorsAre(plugins: seq<LoadedPlugin>, i: nat, m: nat, ok: (seq<nat>, nat) -> bool)
    requires m <= |plugins| && ok([], 0)
    requires forall row: seq<nat>, k: nat :: k < |plugins| ==> KeptByConsumer(plugins, i, ok, row, k)
    ensures ok(Successors(plugins, i, m), m)
  {
    if m == 0 {
    } else {
      SuccessorsAre(plugins, i, m - 1, ok);
      assert KeptByConsumer(plugins, i, ok, Successors(plugins, i, m - 1), m - 1);
    }
  }

  lemma OneMoreConsumer(plugins: seq<LoadedPlugin>, i: nat, m: nat, edge: nat -> bool, row: seq<nat>)
    requires m < |plugins| && !edge(i) && AddsEdge(plugins, i, edge, m)
    requires RowOf(row, i, m, edge)
    ensures RowOf(row + EdgesTo(plugins, AllDeps(plugins[m]), i, m), i, m + 1, edge)
  {
    var added := EdgesTo(plugins, AllDeps(plugins[m]), i, m);
    RowAppend(row, added, i, m);
    RowMembers(row, added, m, edge);
  }

  lemma SuccessorsOf(plugins: seq<LoadedPlugin>, i: nat, m: nat, edge: nat -> bool)
    requires m <= |plugins| && !edge(i) && forall j: nat :: j < |plugins| ==> AddsEdge(plugins, i, edge, j)
    ensures RowOf(Successors(plugins, i, m), i, m, edge)
  {
    var ok := (row: seq<nat>, k: nat) => RowOf(row, i, k, edge);
    forall row: seq<nat>, k: nat | k < |plugins| ensures KeptByConsumer(plugins, i, ok, row, k) {
      if ok(row, k) {
        OneMoreConsumer(plugins, i, k, edge, row);
      }
    }
    SuccessorsAre(plugins, i, m, ok);
  }

  lemma SuccessorsRow(plugins: seq<LoadedPlugin>, i: nat, m: nat)
    requires m <= |plugins| && i < |plugins|
    ensures ValidRow(Successors(plugins, i, m), i, m)
    ensures forall j: nat :: j in Successors(plugins, i, m) <==> j < m && Edge(plugins, i, j)
  {
    var edge := (j: nat) => Edge(plugins, i, j);
    forall j: nat | j < |plugins| ensures AddsEdge(plugins, i, edge, j) {
      EdgesToIffEdge(plugins, i, j);
    }
    SuccessorsOf(plugins, i, m, edge);
    assert forall j: nat :: edge(j) == Edge(plugins, i, j);
  }

  /** The graph Kahn's loop runs on has exactly the edges the metadata declares, and is well formed. */
  lemma GraphIsEdges(plugins: seq<LoadedPlugin>)
    ensures |Graph(plugins)| == |plugins| && ValidGraph(Graph(plugins))
    ensures forall i, j: nat :: 0 <= i < |plugins| ==> (j in Graph(plugins)[i] <==> Edge(plugins, i, j))
  {
    forall i | 0 <= i < |plugins|
      ensures ValidRow(Graph(plugins)[i], i, |plugins|)
      ensures forall j: nat :: j in Graph(plugins)[i] <==> Edge(plugins, i, j)
    {
      SuccessorsRow(plugins, i, |plugins|);
    }
  }

  // ------------------------------------------------------------ what the order is

  /** One past the position in `order` of the last plugin that has an edge to j; 0 if none has. */
  function Release(g: seq<seq<nat>>, order: seq<nat>, j: nat): (r: nat)
    requires Below(order, |g|)
    ensures r <= |order|
    ensures r > 0 ==> j in g[order[r - 1]]
    ensures forall p :: r <= p < |order| ==> j !in g[order[p]]
  {
    if order == [] then 0
    else
      var last := |order| - 1;
      if j in g[order[last]] then |order| else Release(g, order[..last], j)
  }

  /** First released, first run; plugins released together run in load order. */
  ghost predicate RunsBefore(g: seq<seq<nat>>, order: seq<nat>, a: nat, b: nat)
    requires Below(order, |g|)
  {
    || Release(g, order, a) < Release(g, order, b)
    || (Release(g, order, a) == Release(g, order, b) && a < b)
  }

  ghost predicate Fifo(g: seq<seq<nat>>, order: seq<nat>, all: seq<nat>)
    requires Below(order, |g|)
  {
    forall p, q :: 0 <= p < q < |all| ==> RunsBefore(g, order, all[p], all[q])
  }

  /** Everything with an edge to an entry of `order` stands before that entry. */
  ghost predicate ProvidersFirst(g: seq<seq<nat>>, order: seq<nat>) {
    forall p, i :: 0 <= p < |order| && 0 <= i < |g| && order[p] in g[i] ==> i in order[..p]
  }

  ghost predicate Feeds(g: seq<seq<nat>>, i: nat, j: nat) {
    i < |g| && j in g[i]
  }

  /** Every member of s has a provider in s. */
  ghost predicate SelfSupporting(g: seq<seq<nat>>, s: set<nat>) {
    && (forall j :: j in s ==> j < |g|)
    && forall j {:trigger FedFrom(g, s, j)} :: j in s ==> FedFrom(g, s, j)
  }

  ghost predicate FedFrom(g: seq<seq<nat>>, s: set<nat>, j: nat) {
    exists i :: i in s && Feeds(g, i, j)
  }

  ghost predicate IsReadyOrder(g: seq<seq<nat>>, ready: seq<nat>) {
    && Distinct(ready) && Below(ready, |g|)
    && ProvidersFirst(g, ready) && Fifo(g, ready, ready)
    && SelfSupporting(g, Stuck(g, ready))
  }

  ghost function Stuck(g: seq<seq<nat>>, ready: seq<nat>): set<nat> {
    set j: nat | j < |g| && j !in ready
  }

  /** The order before filtering: the ready plugins, then the stuck ones in load order. */
  ghost predicate IsSchedule(g: seq<seq<nat>>, full: seq<nat>, ready: nat) {
    && ready <= |full| && IsReadyOrder(g, full[..ready])
    && Ascending(full[ready..])
    && forall j: nat :: j in full[ready..] <==> j in Stuck(g, full[..ready])
  }

  // ------------------------------------------------------------ in-degree accounting

  /** Edges into j, with multiplicity, from the first m plugins that are not in `popped`. */
  function Incoming(g: seq<seq<nat>>, j: nat, popped: seq<nat>, m: nat): nat
    requires m <= |g|
  {
    if m == 0 then 0
    else
      Incoming(g, j, popped, m - 1) + if m - 1 in popped then 0 else multiset(g[m - 1])[j]
  }

  lemma {:induction false} IncomingPop(g: seq<seq<nat>>, j: nat, popped: seq<nat>, v: nat, m: nat)
    requires m <= |g| && v < |g| && v !in popped
    ensures Incoming(g, j, popped, m) == Incoming(g, j, popped + [v], m) + if v < m then multiset(g[v])[j] else 0
  {
    if m == 0 {
    } else {
      IncomingPop(g, j, popped, v, m - 1);
    }
  }

  lemma {:induction false} IncomingZero(g: seq<seq<nat>>, j: nat, popped: seq<nat>, m: nat)
    requires m <= |g|
    ensures Incoming(g, j, popped, m) == 0 <==> forall i :: 0 <= i < m && i !in popped ==> j !in g[i]
  {
    if m == 0 {
    } else {
      IncomingZero(g, j, popped, m - 1);
    }
  }

  // ------------------------------------------------------------ the algorithm

  method BuildProviders(plugins: seq<LoadedPlugin>) returns (providers: map<string, nat>)
    ensures forall cap :: cap in providers <==> ProviderOf(plugins, cap).Some?
    ensures forall cap :: cap in providers ==> ProviderOf(plugins, cap) == Some(providers[cap])
  {
    providers := map[];
    for i := 0 to |plugins|
      invariant forall cap :: ProviderOf(plugins[..i], cap) == Lookup(providers, cap)
    {
      var caps := plugins[i].metadata.capabilities;
      ghost var before := providers;
      for k := 0 to |caps|
        invariant forall cap :: Lookup(providers, cap) == if cap in caps[..k] then Some(i) else Lookup(before, cap)
      {
        assert caps[..k + 1] == caps[..k] + [caps[k]];
        providers := providers[caps[k] := i];
      }
      assert caps[..|caps|] == caps;
      assert plugins[..i + 1][..i] == plugins[..i];
    }
    assert plugins[..|plugins|] == plugins;
  }

  function Lookup(providers: map<string, nat>, cap: string): Option<nat> {
    if cap in providers then Some(providers[cap]) else None
  }

  method BuildGraph(plugins: seq<LoadedPlugin>, providers: map<string, nat>)
    returns (adj: array<seq<nat>>, inDegree: array<nat>)
    requires forall cap :: cap in providers <==> ProviderOf(plugins, cap).Some?
    requires forall cap :: cap in providers ==> ProviderOf(plugins, cap) == Some(providers[cap])
    ensures fresh(adj) && fresh(inDegree)
    ensures adj[..] == Graph(plugins)
    ensures inDegree.Length == |plugins|
    ensures forall j :: 0 <= j < |plugins| ==> inDegree[j] == Incoming(Graph(plugins), j, [], |plugins|)
  {
    var n := |plugins|;
    inDegree := new nat[n](_ => 0);
    adj := new seq<nat>[n](_ => []);
    EmptyGraph(adj[..]);
    for i := 0 to n
      invariant forall p :: 0 <= p < n ==> adj[p] == Successors(plugins, p, i)
      invariant forall j :: 0 <= j < n ==> inDegree[j] == Incoming(adj[..], j, [], n)
    {
      AddConsumer(plugins, providers, i, adj, inDegree);
    }
    assert adj[..] == Graph(plugins);
  }

  lemma EmptyGraph(g: seq<seq<nat>>)
    requires forall i :: 0 <= i < |g| ==> g[i] == []
    ensures forall j: nat :: Incoming(g, j, [], |g|) == 0
  {
    forall j: nat ensures Incoming(g, j, [], |g|) == 0 {
      IncomingZero(g, j, [], |g|);
    }
  }

  /** Adds one edge into plugin i for each of its dependencies that some other plugin provides. */
  method AddConsumer(plugins: seq<LoadedPlugin>, providers: map<string, nat>, i: nat,
                     adj: array<seq<nat>>, inDegree: array<nat>)
    requires forall cap :: cap in providers <==> ProviderOf(plugins, cap).Some?
    requires forall cap :: cap in providers ==> ProviderOf(plugins, cap) == Some(providers[cap])
    requires i < |plugins| == adj.Length == inDegree.Length
    requires forall p :: 0 <= p < |plugins| ==> adj[p] == Successors(plugins, p, i)
    requires forall j :: 0 <= j < |plugins| ==> inDegree[j] == Incoming(adj[..], j, [], |plugins|)
    modifies adj, inDegree
    ensures forall p :: 0 <= p < |plugins| ==> adj[p] == Successors(plugins, p, i + 1)
    ensures forall j :: 0 <= j < |plugins| ==> inDegree[j] == Incoming(adj[..], j, [], |plugins|)
  {
    var n, allDeps := |plugins|, AllDeps(plugins[i]);
    for k := 0 to |allDeps|
      invariant forall p :: 0 <= p < n ==>
        adj[p] == Successors(plugins, p, i) + EdgesTo(plugins, allDeps[..k], p, i)
      invariant forall j :: 0 <= j < n ==> inDegree[j] == Incoming(adj[..], j, [], n)
    {
      var cap := allDeps[k];
      forall p | 0 <= p < n {
        EdgesToStep(plugins, Successors(plugins, p, i), allDeps, k, p, i);
      }
      if cap in providers && providers[cap] != i {
        AddEdge(providers[cap], i, adj, inDegree);
      }
    }
    assert allDeps[..|allDeps|] == allDeps;
  }

  lemma EdgesToStep(plugins: seq<LoadedPlugin>, row: seq<nat>, caps: seq<string>, k: nat, p: nat, j: nat)
    requires k < |caps|
    ensures row + EdgesTo(plugins, caps[..k + 1], p, j)
         == row + EdgesTo(plugins, caps[..k], p, j)
            + if p != j && ProviderOf(plugins, caps[k]) == Some(p) then [j] else []
  {
    assert caps[..k + 1][..k] == caps[..k];
  }

  method AddEdge(provider: nat, i: nat, adj: array<seq<nat>>, inDegree: array<nat>)
    requires provider < adj.Length && i < inDegree.Length == adj.Length
    requires forall j :: 0 <= j < adj.Length ==> inDegree[j] == Incoming(adj[..], j, [], adj.Length)
    modifies adj, inDegree
    ensures forall p :: 0 <= p < adj.Length ==> adj[p] == if p == provider then old(adj[p]) + [i] else old(adj[p])
    ensures forall j :: 0 <= j < adj.Length ==> inDegree[j] == Incoming(adj[..], j, [], adj.Length)
  {
    ghost var before := adj[..];
    adj[provider] := adj[provider] + [i];
    inDegree[i] := inDegree[i] + 1;
    assert adj[..] == before[provider := before[provider] + [i]];
    forall j | 0 <= j < adj.Length {
      IncomingPush(before, j, provider, i, adj.Length);
    }
  }

  lemma {:induction false} IncomingPush(g: seq<seq<nat>>, j: nat, provider: nat, i: nat, m: nat)
    requires m <= |g| && provider < |g|
    ensures Incoming(g[provider := g[provider] + [i]], j, [], m)
         == Incoming(g, j, [], m) + if j == i && provider < m then 1 else 0
  {
    if m == 0 {
    } else {
      IncomingPush(g, j, provider, i, m - 1);
    }
  }

  /**
    The loop's state: `sorted` has been popped, the rest of `all` is queued, `d` are the in-degree
    counters, and of the last popped plugin's edges the list `pending` is still to be taken off.
   */
  ghost predicate Counted(g: seq<seq<nat>>, d: seq<nat>, sorted: seq<nat>, pending: seq<nat>) {
    && |d| == |g|
    && forall j :: 0 <= j < |g| ==> d[j] == Incoming(g, j, sorted, |g|) + multiset(pending)[j]
  }

  ghost predicate QueuedAtZero(d: seq<nat>, all: seq<nat>) {
    && Distinct(all)
    && forall j: nat :: j in all <==> j < |d| && d[j] == 0
  }

  ghost predicate Looping(g: seq<seq<nat>>, d: seq<nat>, sorted: seq<nat>, queue: seq<nat>) {
    && Counted(g, d, sorted, []) && QueuedAtZero(d, sorted + queue)
    && Below(sorted, |g|) && ProvidersFirst(g, sorted) && Fifo(g, sorted, sorted + queue)
  }

  ghost predicate Relaxing(g: seq<seq<nat>>, d: seq<nat>, sorted: seq<nat>, all: seq<nat>, k: nat) {
    && sorted != [] && Below(sorted, |g|)
    && var row := g[sorted[|sorted| - 1]];
    && k <= |row|
    && Counted(g, d, sorted, row[k..]) && QueuedAtZero(d, all)
    && ProvidersFirst(g, sorted) && Fifo(g, sorted, all)
    && forall j: nat :: j in all && j in row ==> j in row[..k]
  }

  /** The loop. Every counter equals the edges from plugins not yet popped, so no decrement underflows. */
  method Kahn(adj: array<seq<nat>>, inDegree: array<nat>) returns (sorted: seq<nat>)
    requires adj.Length == inDegree.Length && ValidGraph(adj[..])
    requires forall j :: 0 <= j < adj.Length ==> inDegree[j] == Incoming(adj[..], j, [], adj.Length)
    modifies inDegree
    ensures adj[..] == old(adj[..])
    ensures IsReadyOrder(adj[..], sorted)
  {
    var n := adj.Length;
    ghost var g := adj[..];
    var queue: seq<nat> := [];
    for i := 0 to n
      invariant Ascending(queue) && Below(queue, i)
      invariant forall j: nat :: j in queue <==> j < i && inDegree[j] == 0
    {
      if inDegree[i] == 0 {
        queue := queue + [i];
      }
    }
    sorted := [];
    LoopStarts(g, inDegree[..], queue);
    while queue != []
      invariant adj[..] == g
      invariant Looping(g, inDegree[..], sorted, queue)
      decreases n - |sorted|
    {
      var node := queue[0];
      PopStep(g, inDegree[..], sorted, queue);
      MoveHead(sorted, queue);
      sorted, queue := sorted + [node], queue[1..];
      queue := RelaxEdges(adj, inDegree, sorted, queue);
    }
    LoopEnds(g, inDegree[..], sorted);
  }

  /** Takes the edges of the plugin popped last off their targets' counters. */
  method RelaxEdges(adj: array<seq<nat>>, inDegree: array<nat>, sorted: seq<nat>, waiting: seq<nat>)
    returns (queue: seq<nat>)
    requires ValidGraph(adj[..])
    requires Relaxing(adj[..], inDegree[..], sorted, sorted + waiting, 0)
    modifies inDegree
    ensures Looping(adj[..], inDegree[..], sorted, queue)
  {
    var node := sorted[|sorted| - 1];
    ghost var g := adj[..];
    queue := waiting;
    for k := 0 to |adj[node]|
      invariant Relaxing(g, inDegree[..], sorted, sorted + queue, k)
    {
      var next := adj[node][k];
      ghost var before := inDegree[..];
      RelaxStep(g, before, sorted, sorted + queue, k);
      inDegree[next] := inDegree[next] - 1;
      assert inDegree[..] == before[next := before[next] - 1];
      if inDegree[next] == 0 {
        AppendAssoc(sorted, queue, [next]);
        queue := queue + [next];
      }
    }
    assert g[node][|g[node]|..] == [];
  }

  lemma LoopStarts(g: seq<seq<nat>>, d: seq<nat>, queue: seq<nat>)
    requires |d| == |g| && Ascending(queue)
    requires forall j :: 0 <= j < |g| ==> d[j] == Incoming(g, j, [], |g|)
    requires forall j: nat :: j in queue <==> j < |g| && d[j] == 0
    ensures Looping(g, d, [], queue)
  {
    assert [] + queue == queue;
  }

  lemma LoopEnds(g: seq<seq<nat>>, d: seq<nat>, sorted: seq<nat>)
    requires Looping(g, d, sorted, [])
    ensures IsReadyOrder(g, sorted)
  {
    assert sorted + [] == sorted;
    forall j | j in Stuck(g, sorted)
      ensures FedFrom(g, Stuck(g, sorted), j)
    {
      IncomingZero(g, j, sorted, |g|);
      var i :| 0 <= i < |g| && i !in sorted && j in g[i];
      assert i in Stuck(g, sorted) && Feeds(g, i, j);
    }
  }

  lemma RelaxCounts(g: seq<seq<nat>>, d: seq<nat>, sorted: seq<nat>, row: seq<nat>, k: nat)
    requires k < |row| && row[k] < |g| && Counted(g, d, sorted, row[k..])
    ensures d[row[k]] > 0
    ensures Counted(g, d[row[k] := d[row[k]] - 1], sorted, row[k + 1..])
  {
    assert row[k..] == [row[k]] + row[k + 1..];
  }

  lemma RelaxQueue(d: seq<nat>, all: seq<nat>, next: nat)
    requires QueuedAtZero(d, all) && next < |d| && d[next] > 0
    ensures QueuedAtZero(d[next := d[next] - 1], if d[next] == 1 then all + [next] else all)
  {
  }

  lemma RelaxRow(all: seq<nat>, row: seq<nat>, k: nat, all': seq<nat>)
    requires k < |row| && (all' == all || all' == all + [row[k]])
    requires forall j: nat :: j in all && j in row ==> j in row[..k]
    ensures forall j: nat :: j in all' && j in row ==> j in row[..k + 1]
  {
    assert row[..k + 1] == row[..k] + [row[k]];
  }

  /** One edge of the popped plugin: its counter is positive, and a counter reaching zero joins the queue. */
  lemma RelaxStep(g: seq<seq<nat>>, d: seq<nat>, sorted: seq<nat>, all: seq<nat>, k: nat)
    requires ValidGraph(g) && Relaxing(g, d, sorted, all, k) && k < |g[sorted[|sorted| - 1]]|
    ensures var next := g[sorted[|sorted| - 1]][k];
      && next < |g| && d[next] > 0
      && Relaxing(g, d[next := d[next] - 1], sorted, if d[next] == 1 then all + [next] else all, k + 1)
  {
    var row := g[sorted[|sorted| - 1]];
    var next := row[k];
    assert ValidRow(row, sorted[|sorted| - 1], |g|);
    RelaxCounts(g, d, sorted, row, k);
    RelaxQueue(d, all, next);
    if d[next] == 1 {
      PushStep(g, sorted, all, k);
      RelaxRow(all, row, k, all + [next]);
    } else {
      RelaxRow(all, row, k, all);
    }
  }

  /** Everything with an edge to j is in `order`. */
  ghost predicate Settled(g: seq<seq<nat>>, order: seq<nat>, j: nat) {
    forall i :: 0 <= i < |g| && j in g[i] ==> i in order
  }

  /** Popping the head of the queue: its providers have all run, and nothing ready depends on it. */
  lemma PopStep(g: seq<seq<nat>>, d: seq<nat>, sorted: seq<nat>, queue: seq<nat>)
    requires queue != [] && Looping(g, d, sorted, queue)
    ensures |sorted| < |g|
    ensures Relaxing(g, d, sorted + [queue[0]], sorted + queue, 0)
  {
    var node, all := queue[0], sorted + queue;
    assert node in all by {
      assert all[|sorted|] == node;
    }
    HeadIsNew(sorted, queue, |g|);
    forall j | 0 <= j < |g|
      ensures Incoming(g, j, sorted, |g|) == Incoming(g, j, sorted + [node], |g|) + multiset(g[node])[j]
    {
      IncomingPop(g, j, sorted, node, |g|);
    }
    forall j: nat | j in all
      ensures Settled(g, sorted, j)
    {
      IncomingZero(g, j, sorted, |g|);
    }
    AppendKeepsProvidersFirst(g, sorted, node);
    AppendKeepsFifo(g, sorted, node, all);
    assert g[node][0..] == g[node];
  }

  lemma HeadIsNew(sorted: seq<nat>, queue: seq<nat>, n: nat)
    requires queue != [] && queue[0] < n && Distinct(sorted + queue) && Below(sorted, n)
    ensures queue[0] !in sorted && |sorted| < n
  {
    var all := sorted + queue;
    assert all[|sorted|] == queue[0];
    assert forall p :: 0 <= p < |sorted| ==> all[p] == sorted[p];
    DistinctBound(sorted + [queue[0]], n);
  }

  lemma AppendKeepsProvidersFirst(g: seq<seq<nat>>, sorted: seq<nat>, node: nat)
    requires ProvidersFirst(g, sorted) && Settled(g, sorted, node)
    ensures ProvidersFirst(g, sorted + [node])
  {
    forall p, i | 0 <= p < |sorted| + 1 && 0 <= i < |g| && (sorted + [node])[p] in g[i]
      ensures i in (sorted + [node])[..p]
    {
      if p < |sorted| {
        assert (sorted + [node])[..p] == sorted[..p];
      } else {
        assert (sorted + [node])[..p] == sorted;
      }
    }
  }

  lemma AppendKeepsFifo(g: seq<seq<nat>>, sorted: seq<nat>, node: nat, all: seq<nat>)
    requires node < |g| && Below(sorted, |g|) && Fifo(g, sorted, all)
    requires forall j: nat :: j in all ==> j !in g[node]
    ensures Fifo(g, sorted + [node], all)
  {
    assert (sorted + [node])[..|sorted|] == sorted;
    forall p, q | 0 <= p < q < |all|
      ensures RunsBefore(g, sorted + [node], all[p], all[q])
    {
      assert RunsBefore(g, sorted, all[p], all[q]);
    }
  }

  /** A plugin whose counter just reached zero goes behind everything already queued. */
  lemma PushStep(g: seq<seq<nat>>, sorted: seq<nat>, all: seq<nat>, k: nat)
    requires sorted != [] && Below(sorted, |g|) && ValidGraph(g) && Fifo(g, sorted, all) && Distinct(all)
    requires k < |g[sorted[|sorted| - 1]]| && g[sorted[|sorted| - 1]][k] !in all
    requires forall j :: j in all && j in g[sorted[|sorted| - 1]] ==> j in g[sorted[|sorted| - 1]][..k]
    ensures Fifo(g, sorted, all + [g[sorted[|sorted| - 1]][k]])
    ensures Distinct(all + [g[sorted[|sorted| - 1]][k]])
  {
    var row := g[sorted[|sorted| - 1]];
    assert ValidRow(row, sorted[|sorted| - 1], |g|);
    var next := row[k];
    assert Release(g, sorted, next) == |sorted|;
    forall e | e in all
      ensures RunsBefore(g, sorted, e, next)
    {
      if Release(g, sorted, e) == |sorted| {
        assert e in row[..k];
        assert e <= next;
      }
    }
  }

  /** The plugins that no ready order reaches, in load order. */
  method AppendRemaining(sorted: seq<nat>, n: nat) returns (full: seq<nat>)
    requires Distinct(sorted) && Below(sorted, n)
    ensures sorted <= full && Ascending(full[|sorted|..])
    ensures forall j: nat :: j in full[|sorted|..] <==> j < n && j !in sorted
  {
    full := sorted;
    if |sorted| < n {
      var remaining: seq<nat> := [];
      for i := 0 to n
        invariant Ascending(remaining) && Below(remaining, i)
        invariant forall j: nat :: j in remaining <==> j < i && j !in sorted
      {
        if i !in sorted {
          remaining := remaining + [i];
        }
      }
      full := sorted + remaining;
      assert full[|sorted|..] == remaining;
    } else {
      DistinctBound(sorted, n);
      forall j | 0 <= j < n
        ensures j in sorted
      {
        DistinctCovers(sorted, n, j);
      }
    }
  }

  function AllProvided(plugins: seq<LoadedPlugin>): set<string> {
    set i, k | 0 <= i < |plugins| && 0 <= k < |plugins[i].metadata.capabilities|
      :: plugins[i].metadata.capabilities[k]
  }

  lemma ProvidedIffProvider(plugins: seq<LoadedPlugin>, cap: string)
    ensures cap in AllProvided(plugins) <==> ProviderOf(plugins, cap).Some?
  {
  }

  /** No hard dependency of plugin i is without a provider among all loaded plugins. */
  predicate Met(plugins: seq<LoadedPlugin>, i: nat) {
    i < |plugins| && forall cap | cap in plugins[i].metadata.dependsOn :: cap in AllProvided(plugins)
  }

  function Kept(plugins: seq<LoadedPlugin>, full: seq<nat>): seq<nat> {
    if full == [] then []
    else
      var last := |full| - 1;
      Kept(plugins, full[..last]) + if Met(plugins, full[last]) then [full[last]] else []
  }

  /** What a run of the scheduler returns. A single plugin is returned even with unmet dependencies. */
  ghost predicate IsRunOrder(plugins: seq<LoadedPlugin>, order: seq<nat>) {
    if |plugins| <= 1 then order == Iota(|plugins|)
    else exists full, ready :: IsSchedule(Graph(plugins), full, ready) && order == Kept(plugins, full)
  }

  method SortByDependencies(plugins: seq<LoadedPlugin>) returns (order: seq<nat>)
    ensures IsRunOrder(plugins, order)
  {
    if |plugins| <= 1 {
      return Iota(|plugins|);
    }
    GraphIsEdges(plugins);
    var providers := BuildProviders(plugins);
    var adj, inDegree := BuildGraph(plugins, providers);
    var sorted := Kahn(adj, inDegree);
    var full := AppendRemaining(sorted, |plugins|);
    assert full[..|sorted|] == sorted;
    assert IsSchedule(Graph(plugins), full, |sorted|);
    order := Kept(plugins, full);
  }

  // ------------------------------------------------------------ consequences

  /** The order before filtering lists every plugin once. */
  lemma ScheduleIsPermutation(g: seq<seq<nat>>, full: seq<nat>, ready: nat)
    requires IsSchedule(g, full, ready)
    ensures Distinct(full) && |full| == |g|
    ensures forall j: nat :: j in full <==> j < |g|
  {
    var order, stuck := full[..ready], full[ready..];
    assert full == order + stuck;
    DistinctConcat(order, stuck);
    forall j: nat
      ensures j in order + stuck <==> j < |g|
    {
      if j in order {
        var p :| 0 <= p < |order| && order[p] == j;
      }
    }
    DistinctCount(full, |g|);
  }

  /** Every provider precedes its consumer, unless both are stuck. */
  lemma ProviderPrecedesConsumer(plugins: seq<LoadedPlugin>, full: seq<nat>, ready: nat, p: nat, q: nat)
    requires IsSchedule(Graph(plugins), full, ready)
    requires p < |full| && q < |full| && Edge(plugins, full[p], full[q])
    ensures p < q || (ready <= p && ready <= q)
  {
    GraphIsEdges(plugins);
    ScheduleIsPermutation(Graph(plugins), full, ready);
    var order := full[..ready];
    if q < ready {
      assert order[q] in Graph(plugins)[full[p]];
      var p' :| 0 <= p' < q && order[..q][p'] == full[p];
      assert full[p'] == full[p];
    }
  }

  /** The stuck plugins are the largest set in which every member has a provider inside the set. */
  lemma StuckIsLargest(g: seq<seq<nat>>, full: seq<nat>, ready: nat, s: set<nat>)
    requires IsSchedule(g, full, ready) && SelfSupporting(g, s)
    ensures SelfSupporting(g, Stuck(g, full[..ready]))
    ensures s <= Stuck(g, full[..ready])
  {
    forall p | 0 <= p < ready
      ensures full[..ready][p] !in s
    {
      SelfSupportingNeverRuns(g, full[..ready], s, p);
    }
  }

  /** No set of plugins waits for itself. */
  ghost predicate Acyclic(g: seq<seq<nat>>) {
    forall s :: SelfSupporting(g, s) ==> s == {}
  }

  /** Every edge runs forward in this order. */
  ghost predicate EdgesForward(plugins: seq<LoadedPlugin>, order: seq<nat>) {
    forall p, q :: 0 <= p < |order| && 0 <= q < |order| && Edge(plugins, order[p], order[q]) ==> p < q
  }

  /** Providers run before their consumers, for every edge, if and only if the capability graph has no cycle. */
  lemma AllEdgesForwardIff(plugins: seq<LoadedPlugin>, full: seq<nat>, ready: nat)
    requires IsSchedule(Graph(plugins), full, ready)
    ensures EdgesForward(plugins, full) <==> Acyclic(Graph(plugins))
  {
    var g := Graph(plugins);
    if EdgesForward(plugins, full) {
      ForwardMeansUnstuck(plugins, full, ready);
      forall s | SelfSupporting(g, s) ensures s == {} {
        StuckIsLargest(g, full, ready, s);
      }
    }
    if Acyclic(g) {
      StuckIsLargest(g, full, ready, {});
      UnstuckIsReady(g, full, ready);
      forall p, q | 0 <= p < |full| && 0 <= q < |full| && Edge(plugins, full[p], full[q]) ensures p < q {
        ProviderPrecedesConsumer(plugins, full, ready, p, q);
      }
    }
  }

  lemma UnstuckIsReady(g: seq<seq<nat>>, full: seq<nat>, ready: nat)
    requires IsSchedule(g, full, ready) && Stuck(g, full[..ready]) == {}
    ensures ready == |full|
  {
    ScheduleIsPermutation(g, full, ready);
    var order := full[..ready];
    forall j: nat ensures j in order <==> j < |g| {
      assert j < |g| ==> (j in order <==> j !in Stuck(g, order));
    }
    DistinctCount(order, |g|);
  }

  lemma ForwardMeansUnstuck(plugins: seq<LoadedPlugin>, full: seq<nat>, ready: nat)
    requires IsSchedule(Graph(plugins), full, ready) && EdgesForward(plugins, full)
    ensures Stuck(Graph(plugins), full[..ready]) == {}
  {
    if ready < |full| {
      FirstStuckWaits(plugins, full, ready);
    } else {
      ScheduleIsPermutation(Graph(plugins), full, ready);
      assert full[..ready] == full;
    }
  }

  /** The first stuck plugin waits for a later one. */
  lemma FirstStuckWaits(plugins: seq<LoadedPlugin>, full: seq<nat>, ready: nat)
    requires IsSchedule(Graph(plugins), full, ready) && ready < |full|
    ensures !EdgesForward(plugins, full)
  {
    var g := Graph(plugins);
    var order, stuck := full[..ready], Stuck(g, full[..ready]);
    GraphIsEdges(plugins);
    assert full[ready] == full[ready..][0];
    assert FedFrom(g, stuck, full[ready]);
    var i :| i in stuck && Feeds(g, i, full[ready]);
    var k :| 0 <= k < |full[ready..]| && full[ready..][k] == i;
    assert full[ready + k] == i && Edge(plugins, full[ready + k], full[ready]);
  }

  /** Plugin i provides a capability that plugin j asks for. */
  predicate Supplies(plugins: seq<LoadedPlugin>, i: nat, j: nat, cap: string) {
    && i < |plugins| && j < |plugins| && i != j
    && cap in plugins[i].metadata.capabilities
    && (cap in plugins[j].metadata.dependsOn || cap in plugins[j].metadata.optionalDependsOn)
  }

  /** No needed capability has two providers. */
  ghost predicate OneProviderEach(plugins: seq<LoadedPlugin>) {
    forall i: nat, k: nat, j: nat, cap ::
      Supplies(plugins, i, j, cap) && k < |plugins| && cap in plugins[k].metadata.capabilities
      ==> k == i
  }

  /**
    So the documented order, every provider before its consumers, holds of the whole list if the
    graph has no cycle and no needed capability has two providers.
   */
  lemma EveryProviderPrecedes(plugins: seq<LoadedPlugin>, full: seq<nat>, ready: nat)
    requires IsSchedule(Graph(plugins), full, ready) && Acyclic(Graph(plugins)) && OneProviderEach(plugins)
    ensures forall p, q, cap :: 0 <= p < |full| && 0 <= q < |full| && Supplies(plugins, full[p], full[q], cap) ==> p < q
  {
    AllEdgesForwardIff(plugins, full, ready);
    forall p, q, cap | 0 <= p < |full| && 0 <= q < |full| && Supplies(plugins, full[p], full[q], cap) ensures p < q {
      OnlyProviderIsEdge(plugins, full[p], full[q], cap);
    }
  }

  lemma OnlyProviderIsEdge(plugins: seq<LoadedPlugin>, i: nat, j: nat, cap: string)
    requires OneProviderEach(plugins) && Supplies(plugins, i, j, cap)
    ensures Edge(plugins, i, j)
  {
    assert IsLastProvider(plugins, i, cap);
    EdgeIff(plugins, i, j);
  }

  lemma {:induction false} SelfSupportingNeverRuns(g: seq<seq<nat>>, order: seq<nat>, s: set<nat>, p: nat)
    requires ProvidersFirst(g, order) && SelfSupporting(g, s) && p < |order|
    ensures order[p] !in s
  {
    forall q | 0 <= q < p
      ensures order[q] !in s
    {
      SelfSupportingNeverRuns(g, order, s, q);
    }
    assert order[p] in s ==> FedFrom(g, s, order[p]);
  }

  lemma {:induction false} ReleaseOfPrefix(g: seq<seq<nat>>, order: seq<nat>, m: nat, j: nat)
    requires Below(order, |g|) && m <= |order|
    requires forall p :: m <= p < |order| ==> j !in g[order[p]]
    ensures Below(order[..m], |g|) && Release(g, order, j) == Release(g, order[..m], j)
  {
    if m < |order| {
      var last := |order| - 1;
      assert order[..last][..m] == order[..m];
      ReleaseOfPrefix(g, order[..last], m, j);
    } else {
      assert order[..m] == order;
    }
  }

  /** Two ready orders of the same plugins that agree on their first m entries agree on the next one. */
  lemma NextIsDetermined(g: seq<seq<nat>>, a: seq<nat>, b: seq<nat>, m: nat, x: nat, y: nat)
    requires IsReadyOrder(g, a) && IsReadyOrder(g, b) && m < |a| && m < |b| && a[..m] == b[..m]
    requires x == a[m] && y == b[m] && x in b && y in a
    ensures x == y
  {
    ProvidersInFront(g, a, m);
    ProvidersInFront(g, b, m);
    SameRelease(g, a, b, m, x);
    SameRelease(g, a, b, m, y);
    PositionFrom(a, b, m, y);
    PositionFrom(b, a, m, x);
    var py :| m <= py < |a| && a[py] == y;
    var px :| m <= px < |b| && b[px] == x;
    FifoPositions(g, a, m, py);
    FifoPositions(g, b, m, px);
  }

  lemma FifoPositions(g: seq<seq<nat>>, order: seq<nat>, p: nat, q: nat)
    requires Below(order, |g|) && Fifo(g, order, order) && p < |order| && q < |order|
    ensures p < q ==> RunsBefore(g, order, order[p], order[q])
  {
  }

  lemma ProvidersInFront(g: seq<seq<nat>>, order: seq<nat>, m: nat)
    requires ProvidersFirst(g, order) && m < |order|
    ensures forall i :: 0 <= i < |g| && order[m] in g[i] ==> i in order[..m]
  {
  }

  lemma SameRelease(g: seq<seq<nat>>, a: seq<nat>, b: seq<nat>, m: nat, x: nat)
    requires IsReadyOrder(g, a) && IsReadyOrder(g, b) && m <= |a| && m <= |b| && a[..m] == b[..m]
    requires forall i :: 0 <= i < |g| && x in g[i] ==> i in a[..m]
    ensures Release(g, a, x) == Release(g, b, x)
  {
    SettledEarly(g, a, m, x);
    SettledEarly(g, b, m, x);
  }

  lemma PositionFrom(a: seq<nat>, b: seq<nat>, m: nat, y: nat)
    requires Distinct(b) && m < |a| && m < |b| && a[..m] == b[..m] && y == b[m] && y in a
    ensures exists p :: m <= p < |a| && a[p] == y
  {
    DistinctSplit(b, m, m);
    var p :| 0 <= p < |a| && a[p] == y;
    assert forall k :: 0 <= k < m ==> a[k] == a[..m][k];
  }

  lemma SettledEarly(g: seq<seq<nat>>, order: seq<nat>, m: nat, x: nat)
    requires IsReadyOrder(g, order) && m <= |order|
    requires forall i :: 0 <= i < |g| && x in g[i] ==> i in order[..m]
    ensures Below(order[..m], |g|) && Release(g, order, x) == Release(g, order[..m], x)
  {
    forall p | m <= p < |order|
      ensures x !in g[order[p]]
    {
      DistinctSplit(order, m, p);
    }
    ReleaseOfPrefix(g, order, m, x);
  }

  lemma {:induction false} ReadyOrdersAgree(g: seq<seq<nat>>, a: seq<nat>, b: seq<nat>, m: nat)
    requires IsReadyOrder(g, a) && IsReadyOrder(g, b) && m <= |a| == |b|
    requires forall j: nat :: j in a <==> j in b
    ensures a[..m] == b[..m]
  {
    if m == 0 {
    } else {
      ReadyOrdersAgree(g, a, b, m - 1);
      assert a[m - 1] in a && b[m - 1] in b;
      NextIsDetermined(g, a, b, m - 1, a[m - 1], b[m - 1]);
      assert a[..m] == a[..m - 1] + [a[m - 1]];
      assert b[..m] == b[..m - 1] + [b[m - 1]];
    }
  }

  lemma {:induction false} AscendingAgree(a: seq<nat>, b: seq<nat>, m: nat)
    requires Ascending(a) && Ascending(b) && m <= |a| == |b|
    requires forall j: nat :: j in a <==> j in b
    ensures a[..m] == b[..m]
  {
    if m == 0 {
    } else {
      var x, y := a[m - 1], b[m - 1];
      AscendingAgree(a, b, m - 1);
      assert forall k :: 0 <= k < m - 1 ==> a[k] == a[..m - 1][k] && b[k] == b[..m - 1][k];
      assert x in b && y in a;
      var py :| 0 <= py < |a| && a[py] == y;
      var px :| 0 <= px < |b| && b[px] == x;
      assert m - 1 <= py && m - 1 <= px;
      assert a[..m] == a[..m - 1] + [x];
      assert b[..m] == b[..m - 1] + [y];
    }
  }

  /** The specification leaves no choice: two schedules of the same graph are equal. */
  lemma ScheduleIsUnique(g: seq<seq<nat>>, a: seq<nat>, ra: nat, b: seq<nat>, rb: nat)
    requires IsSchedule(g, a, ra) && IsSchedule(g, b, rb)
    ensures a == b && ra == rb
  {
    StuckIsLargest(g, a, ra, Stuck(g, b[..rb]));
    StuckIsLargest(g, b, rb, Stuck(g, a[..ra]));
    SameStuckSameReady(g, a[..ra], b[..rb]);
    SameReady(g, a[..ra], b[..rb]);
    SameRemainder(a[ra..], b[rb..]);
    assert a == a[..ra] + a[ra..] && b == b[..rb] + b[rb..];
  }

  lemma SameReady(g: seq<seq<nat>>, a: seq<nat>, b: seq<nat>)
    requires IsReadyOrder(g, a) && IsReadyOrder(g, b)
    requires forall j: nat :: j in a <==> j in b
    ensures a == b
  {
    SameElementsSameLength(a, b);
    ReadyOrdersAgree(g, a, b, |a|);
    assert a[..|a|] == a && b[..|b|] == b;
  }

  lemma SameRemainder(a: seq<nat>, b: seq<nat>)
    requires Ascending(a) && Ascending(b)
    requires forall j: nat :: j in a <==> j in b
    ensures a == b
  {
    SameElementsSameLength(a, b);
    AscendingAgree(a, b, |a|);
    assert a[..|a|] == a && b[..|b|] == b;
  }

  lemma SameStuckSameReady(g: seq<seq<nat>>, a: seq<nat>, b: seq<nat>)
    requires Below(a, |g|) && Below(b, |g|) && Stuck(g, a) == Stuck(g, b)
    ensures forall j: nat :: j in a <==> j in b
  {
    forall j: nat | j < |g|
      ensures j in a <==> j in b
    {
      assert j in a <==> j !in Stuck(g, a);
      assert j in b <==> j !in Stuck(g, b);
    }
  }

  /** With no edges at all, the plugins run in load order. */
  lemma NoEdgesKeepsLoadOrder(g: seq<seq<nat>>, full: seq<nat>, ready: nat)
    requires IsSchedule(g, full, ready) && forall i :: 0 <= i < |g| ==> g[i] == []
    ensures full == Iota(|g|)
  {
    var order := Iota(|g|);
    assert order[..|g|] == order;
    forall j | 0 <= j < |g|
      ensures Release(g, order, j) == 0 && j in order
    {
      assert order[j] == j;
    }
    assert Stuck(g, order) == {};
    assert IsSchedule(g, order, |g|);
    ScheduleIsUnique(g, full, ready, order, |g|);
  }

  /** Two plugins without a provider of their own keep their relative load order. */
  lemma UndependentKeepLoadOrder(g: seq<seq<nat>>, full: seq<nat>, ready: nat, p: nat, q: nat)
    requires IsSchedule(g, full, ready) && p < |full| && q < |full| && full[p] < full[q]
    requires forall i :: 0 <= i < |g| ==> full[p] !in g[i] && full[q] !in g[i]
    ensures p < q
  {
    var order := full[..ready];
    ReadyIfUndependent(g, full, ready, p);
    ReadyIfUndependent(g, full, ready, q);
    FifoPositions(g, order, q, p);
  }

  lemma ReadyIfUndependent(g: seq<seq<nat>>, full: seq<nat>, ready: nat, p: nat)
    requires IsSchedule(g, full, ready) && p < |full|
    requires forall i :: 0 <= i < |g| ==> full[p] !in g[i]
    ensures p < ready && Release(g, full[..ready], full[p]) == 0
  {
    var order, stuck := full[..ready], full[ready..];
    assert !FedFrom(g, Stuck(g, order), full[p]);
    assert full[p] !in Stuck(g, order);
    assert forall k :: ready <= k < |full| ==> full[k] == stuck[k - ready] && stuck[k - ready] in stuck;
  }

  /** `at` lists, in order, the positions of the kept entries, and `kept` is what stands there. */
  ghost predicate KeepsAt(keep: nat -> bool, full: seq<nat>, kept: seq<nat>, at: seq<nat>) {
    && Ascending(at) && Below(at, |full|) && |at| == |kept|
    && (forall k :: 0 <= k < |at| && at[k] < |full| ==> kept[k] == full[at[k]])
    && forall p: nat :: p in at <==> p < |full| && keep(full[p])
  }

  lemma KeepsAtStep(keep: nat -> bool, full: seq<nat>, kept: seq<nat>, at: seq<nat>)
    requires full != [] && KeepsAt(keep, full[..|full| - 1], kept, at)
    ensures var last := |full| - 1;
            if keep(full[last]) then KeepsAt(keep, full, kept + [full[last]], at + [last])
            else KeepsAt(keep, full, kept, at)
  {
    var last := |full| - 1;
    var more := at + [last];
    assert forall p: nat :: p in more <==> p in at || p == last;
  }

  /** The filter keeps exactly the entries whose hard dependencies are met, in their order. */
  lemma {:induction false} KeptIsSubsequence(plugins: seq<LoadedPlugin>, full: seq<nat>) returns (at: seq<nat>)
    ensures KeepsAt((j: nat) => Met(plugins, j), full, Kept(plugins, full), at)
  {
    var keep := (j: nat) => Met(plugins, j);
    if full == [] {
      at := [];
    } else {
      var last := |full| - 1;
      at := KeptIsSubsequence(plugins, full[..last]);
      KeepsAtStep(keep, full, Kept(plugins, full[..last]), at);
      if keep(full[last]) {
        at := at + [last];
      }
    }
  }

  /**
    Every plugin handed to the runner has its hard dependencies provided, except for one case: the
    shortcut for a single plugin returns it unchecked.
   */
  lemma RunOrderIsMet(plugins: seq<LoadedPlugin>, order: seq<nat>)
    requires IsRunOrder(plugins, order)
    ensures (forall k :: 0 <= k < |order| ==> Met(plugins, order[k])) <==> (|plugins| == 1 ==> Met(plugins, 0))
    ensures |plugins| >= 2 ==> forall j: nat :: j in order <==> j < |plugins| && Met(plugins, j)
  {
    if |plugins| <= 1 {
      assert |order| == |plugins| && (|plugins| == 1 ==> order[0] == 0);
    } else {
      var full, ready :| IsSchedule(Graph(plugins), full, ready) && order == Kept(plugins, full);
      ScheduleIsPermutation(Graph(plugins), full, ready);
      KeptMembers(plugins, full);
    }
  }

  /** The same in the metadata's own terms: with two or more plugins, exactly those are returned that lack nothing. */
  lemma ReturnedIff(plugins: seq<LoadedPlugin>, order: seq<nat>)
    requires |plugins| >= 2 && IsRunOrder(plugins, order)
    ensures forall j: nat :: j in order <==>
      && j < |plugins|
      && forall cap :: cap in plugins[j].metadata.dependsOn ==>
           exists i :: 0 <= i < |plugins| && cap in plugins[i].metadata.capabilities
  {
    RunOrderIsMet(plugins, order);
    forall cap
      ensures cap in AllProvided(plugins) <==> exists i :: 0 <= i < |plugins| && cap in plugins[i].metadata.capabilities
    {
      ProvidedIffProvider(plugins, cap);
    }
  }

  /**
    What the runner relies on: without a cycle, whatever plugin asks for a capability, as a hard or
    an optional dependency, runs after the capability's last provider, if both are returned.
   */
  lemma ReturnedProviderRunsFirst(plugins: seq<LoadedPlugin>, order: seq<nat>, p: nat, q: nat, cap: string)
    requires IsRunOrder(plugins, order) && Acyclic(Graph(plugins))
    requires p < |order| && q < |order| && order[p] < |plugins| && order[q] < |plugins| && p != q
    requires IsLastProvider(plugins, order[p], cap)
    requires cap in plugins[order[q]].metadata.dependsOn || cap in plugins[order[q]].metadata.optionalDependsOn
    ensures p < q
  {
    if |plugins| >= 2 {
      var full, ready :| IsSchedule(Graph(plugins), full, ready) && order == Kept(plugins, full);
      var at := KeptIsSubsequence(plugins, full);
      ScheduleIsPermutation(Graph(plugins), full, ready);
      AllEdgesForwardIff(plugins, full, ready);
      assert full[at[p]] == order[p] && full[at[q]] == order[q] && at[p] != at[q];
      assert order[p] != order[q];
      EdgeIff(plugins, order[p], order[q]);
    }
  }

  lemma KeptMembers(plugins: seq<LoadedPlugin>, full: seq<nat>)
    ensures forall j: nat :: j in Kept(plugins, full) <==> j in full && Met(plugins, j)
  {
    var at := KeptIsSubsequence(plugins, full);
    var kept := Kept(plugins, full);
    forall j: nat | j in full && Met(plugins, j)
      ensures j in kept
    {
      var p :| 0 <= p < |full| && full[p] == j;
      assert p in at;
      var k :| 0 <= k < |at| && at[k] == p;
      assert kept[k] == j;
    }
    forall k | 0 <= k < |kept|
      ensures kept[k] in full && Met(plugins, kept[k])
    {
      assert at[k] in at;
    }
  }

  /** Some plugin among `from` provides the capability. */
  ghost predicate ProvidedFrom(plugins: seq<LoadedPlugin>, from: set<nat>, cap: string) {
    exists i :: i in from && i < |plugins| && cap in plugins[i].metadata.capabilities
  }

  /** Every hard dependency of a plugin in `from` is provided from there. */
  ghost predicate Closed(plugins: seq<LoadedPlugin>, from: set<nat>) {
    forall j, cap :: j in from && j < |plugins| && cap in plugins[j].metadata.dependsOn
      ==> ProvidedFrom(plugins, from, cap)
  }

  /** The plugins that the filter looks at alone: those whose dependencies some loaded plugin provides. */
  ghost function MetSet(plugins: seq<LoadedPlugin>): set<nat> {
    set j: nat | j < |plugins| && Met(plugins, j)
  }

  ghost function Members(order: seq<nat>): set<nat> {
    set j: nat | j in order
  }

  /**
    The filter is a single pass over the loaded plugins: with two or more, the plugins it returns
    provide for each other's hard dependencies if and only if every dependency of a plugin that
    passes has a provider that passes too.
   */
  lemma ReturnedAreClosedIff(plugins: seq<LoadedPlugin>, order: seq<nat>)
    requires |plugins| >= 2 && IsRunOrder(plugins, order)
    ensures Closed(plugins, Members(order)) <==> Closed(plugins, MetSet(plugins))
  {
    RunOrderIsMet(plugins, order);
    assert Members(order) == MetSet(plugins);
  }

  function Plugin(name: string, capabilities: seq<string>, dependsOn: seq<string>): LoadedPlugin {
    LoadedPlugin(name, PluginMetadata(capabilities, dependsOn, []))
  }

  /** The edges into a plugin with exactly one dependency, or with none. */
  lemma OneDependency(plugins: seq<LoadedPlugin>, j: nat)
    requires j < |plugins| && |AllDeps(plugins[j])| <= 1
    ensures forall i: nat :: Edge(plugins, i, j) <==>
      (AllDeps(plugins[j]) != [] && i != j && ProviderOf(plugins, AllDeps(plugins[j])[0]) == Some(i))
  {
  }

  /**
    "Providers run before their consumers" holds for the last provider of a capability only. Here
    plugin 1 also provides "x" and yet runs after plugin 0, which needs "x".
   */
  lemma EarlierProviderMayRunLater() returns (plugins: seq<LoadedPlugin>)
    ensures |plugins| == 3 && "x" in plugins[1].metadata.capabilities && "x" in plugins[0].metadata.dependsOn
    ensures IsSchedule(Graph(plugins), [2, 0, 1], 3) && IsRunOrder(plugins, [2, 0, 1])
  {
    plugins := [Plugin("user", [], ["x"]), Plugin("old", ["x"], ["y"]), Plugin("new", ["x", "y"], [])];
    var caps := plugins[2].metadata.capabilities;
    assert caps[0] == "x" && caps[1] == "y";
    assert plugins[1].metadata.capabilities[0] == "x" && plugins[0].metadata.dependsOn[0] == "x";
    LastProviderFirst(plugins, "x", "y");
    AllAreMet(plugins, "x", "y");
    KeptAll(plugins, [2, 0, 1]);
  }

  lemma AllAreMet(plugins: seq<LoadedPlugin>, x: string, y: string)
    requires |plugins| == 3 && x in plugins[2].metadata.capabilities && y in plugins[2].metadata.capabilities
    requires AllDeps(plugins[0]) == [x] && AllDeps(plugins[1]) == [y] && AllDeps(plugins[2]) == []
    ensures forall j: nat :: j < 3 ==> Met(plugins, j)
  {
    ProvidedIffProvider(plugins, x);
    ProvidedIffProvider(plugins, y);
    forall j: nat, cap | j < 3 && cap in plugins[j].metadata.dependsOn ensures cap == x || cap == y {
      assert cap in AllDeps(plugins[j]);
    }
  }

  lemma {:induction false} KeptAll(plugins: seq<LoadedPlugin>, full: seq<nat>)
    requires forall j :: j in full ==> Met(plugins, j)
    ensures Kept(plugins, full) == full
  {
    if full == [] {
    } else {
      var last := |full| - 1;
      KeptAll(plugins, full[..last]);
      assert full == full[..last] + [full[last]];
    }
  }

  /** Plugin 2 provides all that plugins 0 and 1 need, and needs nothing. */
  lemma LastProviderFirst(plugins: seq<LoadedPlugin>, x: string, y: string)
    requires |plugins| == 3 && x in plugins[2].metadata.capabilities && y in plugins[2].metadata.capabilities
    requires AllDeps(plugins[0]) == [x] && AllDeps(plugins[1]) == [y] && AllDeps(plugins[2]) == []
    ensures IsSchedule(Graph(plugins), [2, 0, 1], 3)
  {
    assert ProviderOf(plugins, x) == Some(2) && ProviderOf(plugins, y) == Some(2);
    OneDependency(plugins, 0);
    OneDependency(plugins, 1);
    OneDependency(plugins, 2);
    GraphIsEdges(plugins);
    ThreePluginSchedule(Graph(plugins));
  }

  lemma ThreePluginSchedule(g: seq<seq<nat>>)
    requires |g| == 3 && forall i, j: nat :: 0 <= i < 3 ==> (j in g[i] <==> i == 2 && j < 2)
    ensures IsSchedule(g, [2, 0, 1], 3)
  {
    var order := [2, 0, 1];
    assert order[..3] == order && order[3..] == [];
    assert ProvidersFirst(g, order) by {
      assert order[..2][0] == 2 && order[..1][0] == 2;
    }
    ThreePluginRelease(g, order);
    assert Stuck(g, order) == {};
  }

  lemma ThreePluginRelease(g: seq<seq<nat>>, order: seq<nat>)
    requires |g| == 3 && forall i, j: nat :: 0 <= i < 3 ==> (j in g[i] <==> i == 2 && j < 2)
    requires order == [2, 0, 1]
    ensures Release(g, order, 2) == 0 && Release(g, order, 0) == 1 && Release(g, order, 1) == 1
  {
    assert 0 in g[order[0]] && 1 in g[order[0]];
  }

  /** The filter is a single pass: plugin 1 stays although its only provider, plugin 0, is dropped. */
  lemma FilterDoesNotCascade() returns (plugins: seq<LoadedPlugin>)
    ensures |plugins| == 2 && plugins[1].metadata.dependsOn == ["a"] && ProviderOf(plugins, "a") == Some(0)
    ensures IsRunOrder(plugins, [1])
  {
    var base, user := Plugin("base", ["a"], ["missing"]), Plugin("user", [], ["a"]);
    plugins := [base, user];
    assert base.metadata.capabilities[0] == "a" && |"missing"| == 7;
    assert AllDeps(base) == ["missing"] && AllDeps(user) == ["a"];
    ProvidedIffProvider(plugins, "a");
    ProvidedIffProvider(plugins, "missing");
    OneDependency(plugins, 0);
    OneDependency(plugins, 1);
    GraphIsEdges(plugins);
    TwoPluginSchedule(Graph(plugins));
    assert base.metadata.dependsOn[0] == "missing";
    KeptOfTwo(plugins);
  }

  lemma KeptOfTwo(plugins: seq<LoadedPlugin>)
    requires !Met(plugins, 0) && Met(plugins, 1)
    ensures Kept(plugins, [0, 1]) == [1]
  {
    assert [0, 1][..1] == [0] && [0][..0] == [];
    assert Kept(plugins, [0]) == [];
  }

  lemma TwoPluginSchedule(g: seq<seq<nat>>)
    requires |g| == 2 && forall i, j: nat :: 0 <= i < 2 ==> (j in g[i] <==> i == 0 && j == 1)
    ensures IsSchedule(g, [0, 1], 2)
  {
    var order := [0, 1];
    assert order[..2] == order && order[2..] == [] && order[..1] == [0];
    assert Release(g, order, 0) == 0 && Release(g, order, 1) == 1;
    assert Stuck(g, order) == {};
  }
}
