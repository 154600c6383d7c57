/**
  Merging plugin results into a pod spec.

  `PodTarget` is the pod spec and the deployment's annotations, updated in place by one method per
  `apply_*` function; each method is tied to a function on the value `Pod`. The theorems about whole
  runs are about that function.
 */
module PodMerge {
  import opened Seqs
  import opened KeyedMerge

  // ------------------------------------------------------------ plugin output and pod objects

  datatype KeyRef = KeyRef(name: string, key: string)
  datatype EnvSourceSpec = EnvSourceSpec(secretKeyRef: Option<KeyRef>, configMapKeyRef: Option<KeyRef>)
  datatype EnvVarSpec = EnvVarSpec(name: string, value: string, valueFrom: Option<EnvSourceSpec>)

  datatype EnvSource = FromSecret(ref: KeyRef, optional: bool) | FromConfigMap(ref: KeyRef, optional: bool)
  datatype EnvVar = EnvVar(name: string, value: Option<string>, valueFrom: Option<EnvSource>)

  datatype VolumeMountSpec = VolumeMountSpec(name: string, mountPath: string, readOnly: bool, subPath: Option<string>)
  datatype VolumeMount = VolumeMount(
    name: string, mountPath: string, readOnly: Option<bool>, subPath: Option<string>)

  datatype VolumeSpec = VolumeSpec(
    name: string, volumeType: string, sourceName: Option<string>, sizeLimit: Option<string>)
  datatype VolumeSource = NoSource | EmptyDir(sizeLimit: Option<string>) | Secret(secretName: Option<string>)
    | ConfigMap(configMapName: string)
  datatype Volume = Volume(name: string, source: VolumeSource)

  datatype SidecarSpec = SidecarSpec(
    name: string, image: string, env: seq<EnvVarSpec>, port: Option<int>,
    cpuRequest: Option<string>, cpuLimit: Option<string>,
    memoryRequest: Option<string>, memoryLimit: Option<string>,
    cpu: Option<string>, memory: Option<string>,
    volumes: seq<VolumeSpec>, volumeMounts: seq<VolumeMountSpec>, primaryVolumeMounts: seq<VolumeMountSpec>)

  datatype Resources = Resources(
    cpuRequest: Option<string>, cpuLimit: Option<string>, memoryRequest: Option<string>, memoryLimit: Option<string>)
  datatype Container = Container(
    name: string, image: Option<string>, env: Option<seq<EnvVar>>, ports: Option<seq<int>>,
    resources: Option<Resources>, volumeMounts: Option<seq<VolumeMount>>)

  datatype WantsServiceAccount = WantsServiceAccount(name: string, irsaRoleArn: string)

  datatype PluginResult = PluginResult(
    envVars: seq<EnvVarSpec>, sidecars: seq<SidecarSpec>, initContainers: seq<SidecarSpec>,
    kubernetesResources: seq<string>, serviceAccountName: Option<string>,
    wantsServiceAccount: Option<WantsServiceAccount>, outputs: map<string, string>)

  datatype Pod = Pod(
    containers: seq<Container>, initContainers: Option<seq<Container>>, volumes: Option<seq<Volume>>,
    serviceAccountName: Option<string>, annotations: map<string, string>)

  function EnvName(e: EnvVar): string { e.name }
  function VolumeName(v: Volume): string { v.name }
  function ContainerName(c: Container): string { c.name }
  function MountKey(m: VolumeMount): (string, string) { (m.name, m.mountPath) }

  function OrEmpty<T>(xs: Option<seq<T>>): seq<T> {
    if xs.Some? then xs.value else []
  }

  function NonEmpty<T>(xs: seq<T>): Option<seq<T>> {
    if xs == [] then None else Some(xs)
  }

  // ------------------------------------------------------------ converters

  function BuildKubeEnvVar(spec: EnvVarSpec): (e: EnvVar)
    ensures e.name == spec.name
  {
    if spec.valueFrom.Some? && spec.valueFrom.value.secretKeyRef.Some? then
      EnvVar(spec.name, None, Some(FromSecret(spec.valueFrom.value.secretKeyRef.value, false)))
    else if spec.valueFrom.Some? && spec.valueFrom.value.configMapKeyRef.Some? then
      EnvVar(spec.name, None, Some(FromConfigMap(spec.valueFrom.value.configMapKeyRef.value, false)))
    else
      EnvVar(spec.name, if spec.value == "" then None else Some(spec.value), None)
  }

  function VolumeMountToKube(m: VolumeMountSpec): VolumeMount {
    VolumeMount(m.name, m.mountPath, if m.readOnly then Some(true) else None, m.subPath)
  }

  function VolumeToKube(v: VolumeSpec): Volume {
    Volume(v.name,
      if v.volumeType == "emptyDir" then EmptyDir(v.sizeLimit)
      else if v.volumeType == "secret" then Secret(v.sourceName)
      else if v.volumeType == "configMap" then ConfigMap(if v.sourceName.Some? then v.sourceName.value else "")
      else NoSource)
  }

  function Or(a: Option<string>, b: Option<string>): Option<string> {
    if a.Some? then a else b
  }

  function BuildResources(r: Resources): Option<Resources> {
    if r == Resources(None, None, None, None) then None else Some(r)
  }

  function SidecarToContainer(s: SidecarSpec): (c: Container)
    ensures c.name == s.name
  {
    Container(s.name, Some(s.image), NonEmpty(KubeEnv(s.env)),
      if s.port.Some? then Some([s.port.value]) else None,
      BuildResources(Resources(
        Or(s.cpuRequest, s.cpu), Or(s.cpuLimit, s.cpu), Or(s.memoryRequest, s.memory), Or(s.memoryLimit, s.memory))),
      NonEmpty(KubeMounts(s.volumeMounts)))
  }

  function KubeEnv(specs: seq<EnvVarSpec>): seq<EnvVar> {
    seq(|specs|, i requires 0 <= i < |specs| => BuildKubeEnvVar(specs[i]))
  }

  function KubeMounts(specs: seq<VolumeMountSpec>): seq<VolumeMount> {
    seq(|specs|, i requires 0 <= i < |specs| => VolumeMountToKube(specs[i]))
  }

  function KubeVolumes(specs: seq<VolumeSpec>): seq<Volume> {
    seq(|specs|, i requires 0 <= i < |specs| => VolumeToKube(specs[i]))
  }

  function KubeContainers(specs: seq<SidecarSpec>): seq<Container> {
    seq(|specs|, i requires 0 <= i < |specs| => SidecarToContainer(specs[i]))
  }

  function PrimaryMounts(sidecars: seq<SidecarSpec>): seq<VolumeMount> {
    Flatten(seq(|sidecars|, i requires 0 <= i < |sidecars| => KubeMounts(sidecars[i].primaryVolumeMounts)))
  }

  function AllVolumes(sidecars: seq<SidecarSpec>): seq<Volume> {
    Flatten(seq(|sidecars|, i requires 0 <= i < |sidecars| => KubeVolumes(sidecars[i].volumes)))
  }

  // ------------------------------------------------------------ annotations

  function JoinComma(names: seq<string>): string {
    if names == [] then ""
    else if |names| == 1 then names[0]
    else names[0] + "," + JoinComma(names[1..])
  }

  function EnvAnnotation(plugin: string): string { "deckwatch.plugin-env/" + plugin }
  function SidecarAnnotation(plugin: string): string { "deckwatch.plugin-sidecar/" + plugin }
  function AccountAnnotation(plugin: string): string { "deckwatch.plugin-sa/" + plugin }

  function Names<T>(xs: seq<T>, key: T -> string): seq<string> {
    seq(|xs|, i requires 0 <= i < |xs| => key(xs[i]))
  }

  function Annotate(annotations: map<string, string>, key: string, injected: seq<string>): map<string, string> {
    if injected == [] then annotations else annotations[key := JoinComma(injected)]
  }

  /** The service-account annotations are not touched when env vars or sidecars are recorded. */
  lemma AnnotationKeysDiffer(p: string, q: string)
    ensures EnvAnnotation(p) != AccountAnnotation(q) && SidecarAnnotation(p) != AccountAnnotation(q)
  {
    assert EnvAnnotation(p)[17] == 'e' && AccountAnnotation(q)[17] == 's';
    assert SidecarAnnotation(p)[18] == 'i' && AccountAnnotation(q)[18] == 'a';
  }

  // ------------------------------------------------------------ what each step does to the pod

  function MergeEnv(pod: Pod, plugin: string, specs: seq<EnvVarSpec>): Pod {
    if specs == [] || pod.containers == [] then pod
    else
      var primary := pod.containers[0];
      var merged := MergeByKey(OrEmpty(primary.env), KubeEnv(specs), EnvName);
      pod.(containers := pod.containers[0 := primary.(env := Some(merged))],
           annotations := Annotate(pod.annotations, EnvAnnotation(plugin),
             Names(NewEntries(OrEmpty(primary.env), merged), EnvName)))
  }

  function NewEntries<T>(before: seq<T>, after: seq<T>): seq<T> {
    if |before| <= |after| then after[|before|..] else []
  }

  function MergeMounts(pod: Pod, mounts: seq<VolumeMount>): Pod {
    if mounts == [] || pod.containers == [] then pod
    else
      var primary := pod.containers[0];
      var merged := MergeByKey(OrEmpty(primary.volumeMounts), mounts, MountKey);
      pod.(containers := pod.containers[0 := primary.(volumeMounts := Some(merged))])
  }

  function MergeVolumes(pod: Pod, volumes: seq<Volume>): Pod {
    pod.(volumes := Some(MergeByKey(OrEmpty(pod.volumes), volumes, VolumeName)))
  }

  function MergeContainers(pod: Pod, plugin: string, containers: seq<Container>): Pod {
    var merged := MergeByKey(pod.containers, containers, ContainerName);
    pod.(containers := merged,
         annotations := Annotate(pod.annotations, SidecarAnnotation(plugin),
           Names(NewEntries(pod.containers, merged), ContainerName)))
  }

  function MergeSidecars(pod: Pod, plugin: string, sidecars: seq<SidecarSpec>): Pod {
    MergeContainers(
      MergeVolumes(MergeMounts(pod, PrimaryMounts(sidecars)), AllVolumes(sidecars)),
      plugin, KubeContainers(sidecars))
  }

  function MergeInit(pod: Pod, sidecars: seq<SidecarSpec>): Pod {
    pod.(initContainers := Some(MergeByKey(OrEmpty(pod.initContainers), KubeContainers(sidecars), ContainerName)))
  }

  /** An unset service account counts as "default". */
  predicate HasOwnAccount(account: Option<string>) {
    account.Some? && account.value != "default"
  }

  function MergeAccount(pod: Pod, plugin: string, account: string): Pod {
    if HasOwnAccount(pod.serviceAccountName) then pod
    else
      pod.(serviceAccountName := Some(account),
           annotations := pod.annotations[AccountAnnotation(plugin) := account])
  }

  /** The accounts one result asks for, in the order they are applied. */
  function Requests(r: PluginResult): seq<string> {
    (if r.serviceAccountName.Some? then [r.serviceAccountName.value] else [])
    + if r.wantsServiceAccount.Some? then [r.wantsServiceAccount.value.name] else []
  }

  function MergeAccounts(pod: Pod, plugin: string, requests: seq<string>): Pod {
    if requests == [] then pod
    else
      var last := |requests| - 1;
      MergeAccount(MergeAccounts(pod, plugin, requests[..last]), plugin, requests[last])
  }

  function MergeResult(pod: Pod, plugin: string, r: PluginResult): Pod {
    MergeAccounts(
      MergeInit(MergeSidecars(MergeEnv(pod, plugin, r.envVars), plugin, r.sidecars), r.initContainers),
      plugin, Requests(r))
  }

  datatype NamedResult = NamedResult(plugin: string, result: PluginResult)

  function MergeAll(pod: Pod, rs: seq<NamedResult>): Pod {
    if rs == [] then pod
    else
      var last := |rs| - 1;
      MergeResult(MergeAll(pod, rs[..last]), rs[last].plugin, rs[last].result)
  }

  // ------------------------------------------------------------ the pod spec, updated in place

  class PodTarget {
    var containers: seq<Container>
    var initContainers: Option<seq<Container>>
    var volumes: Option<seq<Volume>>
    var serviceAccountName: Option<string>
    var annotations: map<string, string>

    constructor (pod: Pod)
      ensures State() == pod
    {
      containers, initContainers, volumes := pod.containers, pod.initContainers, pod.volumes;
      serviceAccountName, annotations := pod.serviceAccountName, pod.annotations;
    }

    function State(): Pod
      reads this
    {
      Pod(containers, initContainers, volumes, serviceAccountName, annotations)
    }

    method ApplyEnvVars(plugin: string, envVars: seq<EnvVarSpec>)
      modifies this
      ensures State() == MergeEnv(old(State()), plugin, envVars)
    {
      if envVars == [] || containers == [] {
        return;
      }
      var primary := containers[0];
      var envVec, added := PushMissing(OrEmpty(primary.env), KubeEnv(envVars), EnvName);
      containers := containers[0 := primary.(env := Some(envVec))];
      var injected := Names(added, EnvName);
      if injected != [] {
        annotations := annotations[EnvAnnotation(plugin) := JoinComma(injected)];
      }
      assert NewEntries(OrEmpty(primary.env), envVec) == added;
    }

    method ApplySidecars(plugin: string, sidecars: seq<SidecarSpec>)
      modifies this
      ensures State() == MergeSidecars(old(State()), plugin, sidecars)
    {
      var allPrimaryMounts := PrimaryMounts(sidecars);
      if allPrimaryMounts != [] && containers != [] {
        var primary := containers[0];
        var mounts, _ := PushMissing(OrEmpty(primary.volumeMounts), allPrimaryMounts, MountKey);
        containers := containers[0 := primary.(volumeMounts := Some(mounts))];
      }
      var podVolumes, _ := PushMissing(OrEmpty(volumes), AllVolumes(sidecars), VolumeName);
      volumes := Some(podVolumes);
      var merged, added := PushMissing(containers, KubeContainers(sidecars), ContainerName);
      assert NewEntries(containers, merged) == added;
      containers := merged;
      var injected := Names(added, ContainerName);
      if injected != [] {
        annotations := annotations[SidecarAnnotation(plugin) := JoinComma(injected)];
      }
    }

    method ApplyInitContainers(sidecars: seq<SidecarSpec>)
      modifies this
      ensures State() == MergeInit(old(State()), sidecars)
    {
      var merged, _ := PushMissing(OrEmpty(initContainers), KubeContainers(sidecars), ContainerName);
      initContainers := Some(merged);
    }

    method ApplyServiceAccount(plugin: string, account: string)
      modifies this
      ensures State() == MergeAccount(old(State()), plugin, account)
    {
      var current := if serviceAccountName.Some? then serviceAccountName.value else "default";
      if current != "default" {
        return;
      }
      serviceAccountName := Some(account);
      annotations := annotations[AccountAnnotation(plugin) := account];
    }

    /** Everything one successful plugin call does to the pod. */
    method ApplyResult(plugin: string, r: PluginResult)
      modifies this
      ensures State() == MergeResult(old(State()), plugin, r)
    {
      ApplyEnvVars(plugin, r.envVars);
      ApplySidecars(plugin, r.sidecars);
      ApplyInitContainers(r.initContainers);
      ghost var before := State();
      if r.serviceAccountName.Some? {
        ApplyServiceAccount(plugin, r.serviceAccountName.value);
      }
      if r.wantsServiceAccount.Some? {
        ApplyServiceAccount(plugin, r.wantsServiceAccount.value.name);
      }
      AccountsOfResult(before, plugin, r);
    }
  }

  lemma AccountsOfResult(pod: Pod, plugin: string, r: PluginResult)
    ensures var first :=
        if r.serviceAccountName.Some? then MergeAccount(pod, plugin, r.serviceAccountName.value) else pod;
      MergeAccounts(pod, plugin, Requests(r))
      == if r.wantsServiceAccount.Some? then MergeAccount(first, plugin, r.wantsServiceAccount.value.name) else first
  {
    var requests := Requests(r);
    if requests != [] {
      assert requests[..1] == [requests[0]] && requests[..1][..0] == [];
      assert MergeAccounts(pod, plugin, requests[..1]) == MergeAccount(pod, plugin, requests[0]);
      assert |requests| == 1 ==> requests[..1] == requests;
    }
  }

  // ------------------------------------------------------------ closed form of a whole run

  /** The five lists of a pod, and the five lists a result adds to them. */
  datatype Contents = Contents(
    env: seq<EnvVar>, mounts: seq<VolumeMount>, volumes: seq<Volume>,
    inits: seq<Container>, containers: seq<Container>)

  /** The primary container without the two lists that are merged into it. */
  function Bare(containers: seq<Container>): seq<Container> {
    if containers == [] then [] else containers[0 := containers[0].(env := None, volumeMounts := None)]
  }

  function ContentsOf(pod: Pod): Contents {
    Contents(
      if pod.containers == [] then [] else OrEmpty(pod.containers[0].env),
      if pod.containers == [] then [] else OrEmpty(pod.containers[0].volumeMounts),
      OrEmpty(pod.volumes), OrEmpty(pod.initContainers), Bare(pod.containers))
  }

  function Additions(r: PluginResult): Contents {
    Contents(KubeEnv(r.envVars), PrimaryMounts(r.sidecars), AllVolumes(r.sidecars),
             KubeContainers(r.initContainers), KubeContainers(r.sidecars))
  }

  function Append(a: Contents, b: Contents): Contents {
    Contents(a.env + b.env, a.mounts + b.mounts, a.volumes + b.volumes, a.inits + b.inits, a.containers + b.containers)
  }

  function AllAdditions(rs: seq<NamedResult>): Contents {
    if rs == [] then Contents([], [], [], [], [])
    else Append(AllAdditions(rs[..|rs| - 1]), Additions(rs[|rs| - 1].result))
  }

  function Merge(c: Contents, adds: Contents): Contents {
    Contents(MergeByKey(c.env, adds.env, EnvName), MergeByKey(c.mounts, adds.mounts, MountKey),
             MergeByKey(c.volumes, adds.volumes, VolumeName), MergeByKey(c.inits, adds.inits, ContainerName),
             MergeByKey(c.containers, adds.containers, ContainerName))
  }

  /** The first request that is not "default"; "default" if all are; nothing without requests. */
  function FirstOwn(requests: seq<string>): Option<string> {
    if requests == [] then None
    else if requests[0] != "default" then Some(requests[0])
    else
      var rest := FirstOwn(requests[1..]);
      if rest.Some? then rest else Some("default")
  }

  function AllRequests(rs: seq<NamedResult>): seq<string> {
    if rs == [] then [] else AllRequests(rs[..|rs| - 1]) + Requests(rs[|rs| - 1].result)
  }

  /** A pod that has its own account keeps it; otherwise the first plugin to name one decides. */
  function ChooseAccount(current: Option<string>, requests: seq<string>): Option<string> {
    if HasOwnAccount(current) || requests == [] then current else FirstOwn(requests)
  }

  lemma {:induction false} MergeReplaceHead(xs: seq<Container>, head: Container, adds: seq<Container>)
    requires xs != [] && head.name == xs[0].name
    ensures var merged := MergeByKey(xs, adds, ContainerName);
      merged != [] && merged[0] == xs[0] && MergeByKey(xs[0 := head], adds, ContainerName) == merged[0 := head]
    decreases |adds|
  {
    if adds == [] {
    } else {
      var last := |adds| - 1;
      MergeReplaceHead(xs, head, adds[..last]);
      var merged := MergeByKey(xs, adds[..last], ContainerName);
      ReplaceHeadKeepsKeys(merged, head, adds[last].name);
    }
  }

  lemma ReplaceHeadKeepsKeys(xs: seq<Container>, head: Container, k: string)
    requires xs != []
    requires head.name == xs[0].name
    ensures HasKey(xs[0 := head], k, ContainerName) <==> HasKey(xs, k, ContainerName)
  {
    var ys := xs[0 := head];
    assert forall i :: 0 <= i < |xs| ==> ContainerName(ys[i]) == ContainerName(xs[i]);
  }

  lemma BareMerge(xs: seq<Container>, adds: seq<Container>)
    requires xs != []
    ensures MergeByKey(xs, adds, ContainerName) != []
    ensures MergeByKey(xs, adds, ContainerName)[0] == xs[0]
    ensures Bare(MergeByKey(xs, adds, ContainerName)) == MergeByKey(Bare(xs), adds, ContainerName)
  {
    MergeReplaceHead(xs, xs[0].(env := None, volumeMounts := None), adds);
  }

  lemma ContentsAfterEnv(pod: Pod, plugin: string, specs: seq<EnvVarSpec>)
    requires pod.containers != []
    ensures var after := MergeEnv(pod, plugin, specs);
      && after.containers != []
      && ContentsOf(after) == ContentsOf(pod).(env := MergeByKey(ContentsOf(pod).env, KubeEnv(specs), EnvName))
  {
    assert KubeEnv([]) == [];
    var after := MergeEnv(pod, plugin, specs);
    assert Bare(after.containers) == Bare(pod.containers);
  }

  lemma ContentsAfterMounts(pod: Pod, mounts: seq<VolumeMount>)
    requires pod.containers != []
    ensures var after := MergeMounts(pod, mounts);
      && after.containers != []
      && ContentsOf(after) == ContentsOf(pod).(mounts := MergeByKey(ContentsOf(pod).mounts, mounts, MountKey))
  {
    var after := MergeMounts(pod, mounts);
    assert Bare(after.containers) == Bare(pod.containers);
  }

  lemma ContentsAfterContainers(pod: Pod, plugin: string, adds: seq<Container>)
    requires pod.containers != []
    ensures var after := MergeContainers(pod, plugin, adds);
      && after.containers != []
      && ContentsOf(after)
         == ContentsOf(pod).(containers := MergeByKey(ContentsOf(pod).containers, adds, ContainerName))
  {
    BareMerge(pod.containers, adds);
  }

  lemma {:induction false} AccountsTouchNoList(pod: Pod, plugin: string, requests: seq<string>)
    ensures var after := MergeAccounts(pod, plugin, requests);
      && after.containers == pod.containers && after.volumes == pod.volumes
      && after.initContainers == pod.initContainers
  {
    if requests == [] {
    } else {
      AccountsTouchNoList(pod, plugin, requests[..|requests| - 1]);
    }
  }

  /** One result, list by list. */
  lemma ContentsAfterResult(pod: Pod, plugin: string, r: PluginResult)
    requires pod.containers != []
    ensures var after := MergeResult(pod, plugin, r);
      && after.containers != [] && after.volumes.Some? && after.initContainers.Some?
      && ContentsOf(after) == Merge(ContentsOf(pod), Additions(r))
  {
    var p1 := MergeEnv(pod, plugin, r.envVars);
    ContentsAfterEnv(pod, plugin, r.envVars);
    var p2 := MergeMounts(p1, PrimaryMounts(r.sidecars));
    ContentsAfterMounts(p1, PrimaryMounts(r.sidecars));
    var p3 := MergeVolumes(p2, AllVolumes(r.sidecars));
    ContentsAfterContainers(p3, plugin, KubeContainers(r.sidecars));
    var p4 := MergeInit(MergeSidecars(p1, plugin, r.sidecars), r.initContainers);
    AccountsTouchNoList(p4, plugin, Requests(r));
  }

  lemma MergeAppend(c: Contents, a: Contents, b: Contents)
    ensures Merge(Merge(c, a), b) == Merge(c, Append(a, b))
  {
    MergeConcat(c.env, a.env, b.env, EnvName);
    MergeConcat(c.mounts, a.mounts, b.mounts, MountKey);
    MergeConcat(c.volumes, a.volumes, b.volumes, VolumeName);
    MergeConcat(c.inits, a.inits, b.inits, ContainerName);
    MergeConcat(c.containers, a.containers, b.containers, ContainerName);
  }

  /**
    Every list of the pod after a whole run is the user's list merged once with everything the
    plugins added, in run order.
   */
  lemma {:induction false} RunMergesConcatenation(pod: Pod, rs: seq<NamedResult>)
    requires pod.containers != []
    ensures MergeAll(pod, rs).containers != []
    ensures rs != [] ==> MergeAll(pod, rs).volumes.Some? && MergeAll(pod, rs).initContainers.Some?
    ensures ContentsOf(MergeAll(pod, rs)) == Merge(ContentsOf(pod), AllAdditions(rs))
    decreases |rs|
  {
    if rs == [] {
    } else {
      var last := |rs| - 1;
      RunMergesConcatenation(pod, rs[..last]);
      ContentsAfterResult(MergeAll(pod, rs[..last]), rs[last].plugin, rs[last].result);
      MergeAppend(ContentsOf(pod), AllAdditions(rs[..last]), Additions(rs[last].result));
    }
  }

  /** What the user declared stays in front, unchanged, with the primary container first. */
  lemma UserEntriesStayInFront(pod: Pod, rs: seq<NamedResult>)
    requires pod.containers != []
    ensures var user, after := ContentsOf(pod), ContentsOf(MergeAll(pod, rs));
      && user.env <= after.env && user.mounts <= after.mounts && user.volumes <= after.volumes
      && user.inits <= after.inits && user.containers <= after.containers
    ensures MergeAll(pod, rs).containers != []
    ensures MergeAll(pod, rs).containers[0].name == pod.containers[0].name
    ensures pod.containers[1..] <= MergeAll(pod, rs).containers[1..]
  {
    var user, adds := ContentsOf(pod), AllAdditions(rs);
    RunMergesConcatenation(pod, rs);
    MergeKeepsPrefix(user.env, adds.env, EnvName);
    MergeKeepsPrefix(user.mounts, adds.mounts, MountKey);
    MergeKeepsPrefix(user.volumes, adds.volumes, VolumeName);
    MergeKeepsPrefix(user.inits, adds.inits, ContainerName);
    MergeKeepsPrefix(user.containers, adds.containers, ContainerName);
    BarePrefix(pod.containers, MergeAll(pod, rs).containers);
  }

  lemma BarePrefix(a: seq<Container>, b: seq<Container>)
    requires a != [] && b != [] && Bare(a) <= Bare(b)
    ensures a[0].name == b[0].name && a[1..] <= b[1..]
  {
    assert Bare(a)[0] == Bare(b)[0];
    assert Bare(a)[1..] == a[1..] && Bare(b)[1..] == b[1..];
  }

  ghost predicate UniqueNames(c: Contents) {
    && UniqueKeys(c.env, EnvName) && UniqueKeys(c.mounts, MountKey) && UniqueKeys(c.volumes, VolumeName)
    && UniqueKeys(c.inits, ContainerName) && UniqueKeys(c.containers, ContainerName)
  }

  /** A run never introduces a duplicate name, whatever the plugins emit. */
  lemma NamesStayUnique(pod: Pod, rs: seq<NamedResult>)
    requires pod.containers != [] && UniqueNames(ContentsOf(pod))
    ensures UniqueNames(ContentsOf(MergeAll(pod, rs)))
  {
    var user, adds := ContentsOf(pod), AllAdditions(rs);
    RunMergesConcatenation(pod, rs);
    MergeKeepsUnique(user.env, adds.env, EnvName);
    MergeKeepsUnique(user.mounts, adds.mounts, MountKey);
    MergeKeepsUnique(user.volumes, adds.volumes, VolumeName);
    MergeKeepsUnique(user.inits, adds.inits, ContainerName);
    MergeKeepsUnique(user.containers, adds.containers, ContainerName);
  }

  /** Under each env-var name stands the user's entry or else the first one any plugin emitted. */
  lemma FirstEnvWriterWins(pod: Pod, rs: seq<NamedResult>, name: string)
    requires pod.containers != []
    requires HasKey(ContentsOf(pod).env + AllAdditions(rs).env, name, EnvName)
    ensures HasKey(ContentsOf(MergeAll(pod, rs)).env, name, EnvName)
    ensures Find(ContentsOf(MergeAll(pod, rs)).env, name, EnvName)
         == Find(ContentsOf(pod).env + AllAdditions(rs).env, name, EnvName)
  {
    RunMergesConcatenation(pod, rs);
    FirstWriterWins(ContentsOf(pod).env, AllAdditions(rs).env, EnvName, name);
  }

  /** The same for containers: a sidecar never replaces a container of the same name. */
  lemma FirstContainerWriterWins(pod: Pod, rs: seq<NamedResult>, name: string)
    requires pod.containers != []
    requires HasKey(ContentsOf(pod).containers + AllAdditions(rs).containers, name, ContainerName)
    ensures HasKey(ContentsOf(MergeAll(pod, rs)).containers, name, ContainerName)
    ensures Find(ContentsOf(MergeAll(pod, rs)).containers, name, ContainerName)
         == Find(ContentsOf(pod).containers + AllAdditions(rs).containers, name, ContainerName)
  {
    RunMergesConcatenation(pod, rs);
    FirstWriterWins(ContentsOf(pod).containers, AllAdditions(rs).containers, ContainerName, name);
  }

  // ------------------------------------------------------------ service account

  lemma {:induction false} FirstOwnAppend(a: seq<string>, b: seq<string>)
    ensures FirstOwn(a + b)
         == if HasOwnAccount(FirstOwn(a)) || b == [] then FirstOwn(a) else FirstOwn(b)
  {
    if a == [] {
      assert a + b == b;
    } else {
      assert (a + b)[1..] == a[1..] + b;
      FirstOwnAppend(a[1..], b);
      FirstOwnOfNothing(b);
    }
  }

  lemma FirstOwnOfNothing(b: seq<string>)
    ensures FirstOwn(b).None? <==> b == []
  {
  }

  lemma ChooseAppend(current: Option<string>, a: seq<string>, b: seq<string>)
    ensures ChooseAccount(ChooseAccount(current, a), b) == ChooseAccount(current, a + b)
  {
    FirstOwnAppend(a, b);
    assert a == [] ==> a + b == b;
    assert b == [] ==> a + b == a;
  }

  lemma {:induction false} AccountAfterRequests(pod: Pod, plugin: string, requests: seq<string>)
    ensures MergeAccounts(pod, plugin, requests).serviceAccountName
         == ChooseAccount(pod.serviceAccountName, requests)
  {
    if requests == [] {
    } else {
      var last := |requests| - 1;
      AccountAfterRequests(pod, plugin, requests[..last]);
      ChooseAppend(pod.serviceAccountName, requests[..last], [requests[last]]);
      assert requests == requests[..last] + [requests[last]];
      assert FirstOwn([requests[last]]) == Some(requests[last]);
    }
  }

  /** The account after a whole run: the pod's own if it has one, else the first non-default request. */
  lemma {:induction false} RunChoosesAccount(pod: Pod, rs: seq<NamedResult>)
    ensures MergeAll(pod, rs).serviceAccountName == ChooseAccount(pod.serviceAccountName, AllRequests(rs))
    decreases |rs|
  {
    if rs == [] {
    } else {
      var last := |rs| - 1;
      RunChoosesAccount(pod, rs[..last]);
      var before, r := MergeAll(pod, rs[..last]), rs[last];
      AccountAfterRequests(
        MergeInit(MergeSidecars(MergeEnv(before, r.plugin, r.result.envVars), r.plugin, r.result.sidecars),
                  r.result.initContainers),
        r.plugin, Requests(r.result));
      ChooseAppend(pod.serviceAccountName, AllRequests(rs[..last]), Requests(r.result));
    }
  }

  // ------------------------------------------------------------ idempotence

  ghost predicate AllKeysIn<T, K>(adds: seq<T>, xs: seq<T>, key: T -> K) {
    forall i :: 0 <= i < |adds| ==> HasKey(xs, key(adds[i]), key)
  }

  /** Everything in `adds` has its key in `c` already. */
  ghost predicate Covers(c: Contents, adds: Contents) {
    && AllKeysIn(adds.env, c.env, EnvName) && AllKeysIn(adds.mounts, c.mounts, MountKey)
    && AllKeysIn(adds.volumes, c.volumes, VolumeName) && AllKeysIn(adds.inits, c.inits, ContainerName)
    && AllKeysIn(adds.containers, c.containers, ContainerName)
  }

  lemma MergedKeysIn<T, K>(base: seq<T>, adds: seq<T>, key: T -> K)
    ensures AllKeysIn(adds, MergeByKey(base, adds, key), key)
  {
    forall i | 0 <= i < |adds|
      ensures HasKey(MergeByKey(base, adds, key), key(adds[i]), key)
    {
      MergeKeys(base, adds, key, key(adds[i]));
    }
  }

  lemma KeysStayIn<T, K>(adds: seq<T>, base: seq<T>, more: seq<T>, key: T -> K)
    requires AllKeysIn(adds, base, key)
    ensures AllKeysIn(adds, MergeByKey(base, more, key), key)
  {
    forall i | 0 <= i < |adds|
      ensures HasKey(MergeByKey(base, more, key), key(adds[i]), key)
    {
      MergeKeys(base, more, key, key(adds[i]));
    }
  }

  lemma MergeCovers(c: Contents, adds: Contents)
    ensures Covers(Merge(c, adds), adds)
  {
    MergedKeysIn(c.env, adds.env, EnvName);
    MergedKeysIn(c.mounts, adds.mounts, MountKey);
    MergedKeysIn(c.volumes, adds.volumes, VolumeName);
    MergedKeysIn(c.inits, adds.inits, ContainerName);
    MergedKeysIn(c.containers, adds.containers, ContainerName);
  }

  lemma MergeStillCovers(c: Contents, adds: Contents, more: Contents)
    requires Covers(c, adds)
    ensures Covers(Merge(c, more), adds)
  {
    KeysStayIn(adds.env, c.env, more.env, EnvName);
    KeysStayIn(adds.mounts, c.mounts, more.mounts, MountKey);
    KeysStayIn(adds.volumes, c.volumes, more.volumes, VolumeName);
    KeysStayIn(adds.inits, c.inits, more.inits, ContainerName);
    KeysStayIn(adds.containers, c.containers, more.containers, ContainerName);
  }

  /** Every account request of `plugin` would leave the pod as it is. */
  ghost predicate AccountsSettled(pod: Pod, plugin: string, requests: seq<string>) {
    || requests == [] || HasOwnAccount(pod.serviceAccountName)
    || (&& pod.serviceAccountName == Some("default")
        && AccountAnnotation(plugin) in pod.annotations && pod.annotations[AccountAnnotation(plugin)] == "default"
        && forall k :: 0 <= k < |requests| ==> requests[k] == "default")
  }

  lemma {:induction false} SettledAccountsChangeNothing(pod: Pod, plugin: string, requests: seq<string>)
    requires AccountsSettled(pod, plugin, requests)
    ensures MergeAccounts(pod, plugin, requests) == pod
  {
    if requests == [] {
    } else {
      SettledAccountsChangeNothing(pod, plugin, requests[..|requests| - 1]);
    }
  }

  lemma {:induction false} AccountsBecomeSettled(pod: Pod, plugin: string, requests: seq<string>)
    ensures AccountsSettled(MergeAccounts(pod, plugin, requests), plugin, requests)
  {
    if requests == [] {
    } else {
      AccountsBecomeSettled(pod, plugin, requests[..|requests| - 1]);
    }
  }

  /** Settled accounts stay settled under later requests of any plugin. */
  lemma {:induction false} AccountsStaySettled(pod: Pod, plugin: string, requests: seq<string>,
                                               other: string, later: seq<string>)
    requires AccountsSettled(pod, plugin, requests)
    ensures AccountsSettled(MergeAccounts(pod, other, later), plugin, requests)
  {
    if later == [] {
    } else {
      AccountsStaySettled(pod, plugin, requests, other, later[..|later| - 1]);
    }
  }

  /** Neither the account nor `plugin`'s record of it differs between the two pods. */
  ghost predicate SameAccount(before: Pod, after: Pod, plugin: string) {
    && after.serviceAccountName == before.serviceAccountName
    && (AccountAnnotation(plugin) in before.annotations ==>
          AccountAnnotation(plugin) in after.annotations
          && after.annotations[AccountAnnotation(plugin)] == before.annotations[AccountAnnotation(plugin)])
  }

  lemma AnnotateKeepsOthers(annotations: map<string, string>, key: string, injected: seq<string>, other: string)
    requires key != other && other in annotations
    ensures other in Annotate(annotations, key, injected)
    ensures Annotate(annotations, key, injected)[other] == annotations[other]
  {
  }

  lemma EnvKeepsAccount(pod: Pod, plugin: string, specs: seq<EnvVarSpec>, other: string)
    ensures SameAccount(pod, MergeEnv(pod, plugin, specs), other)
  {
    AnnotationKeysDiffer(plugin, other);
  }

  lemma SidecarsKeepAccount(pod: Pod, plugin: string, sidecars: seq<SidecarSpec>, other: string)
    ensures SameAccount(pod, MergeSidecars(pod, plugin, sidecars), other)
  {
    AnnotationKeysDiffer(plugin, other);
    var filled := MergeVolumes(MergeMounts(pod, PrimaryMounts(sidecars)), AllVolumes(sidecars));
    assert filled.annotations == pod.annotations && filled.serviceAccountName == pod.serviceAccountName;
    ContainersKeepAccount(filled, plugin, KubeContainers(sidecars), other);
  }

  lemma ContainersKeepAccount(pod: Pod, plugin: string, containers: seq<Container>, other: string)
    ensures SameAccount(pod, MergeContainers(pod, plugin, containers), other)
  {
    AnnotationKeysDiffer(plugin, other);
    if AccountAnnotation(other) in pod.annotations {
      var merged := MergeByKey(pod.containers, containers, ContainerName);
      AnnotateKeepsOthers(pod.annotations, SidecarAnnotation(plugin),
                          Names(NewEntries(pod.containers, merged), ContainerName), AccountAnnotation(other));
    }
  }

  lemma ListsKeepAccounts(pod: Pod, plugin: string, r: PluginResult, other: string)
    ensures SameAccount(pod, MergeInit(MergeSidecars(MergeEnv(pod, plugin, r.envVars), plugin, r.sidecars),
                                       r.initContainers), other)
  {
    var first := MergeEnv(pod, plugin, r.envVars);
    EnvKeepsAccount(pod, plugin, r.envVars, other);
    SidecarsKeepAccount(first, plugin, r.sidecars, other);
    assert MergeInit(MergeSidecars(first, plugin, r.sidecars), r.initContainers).annotations
        == MergeSidecars(first, plugin, r.sidecars).annotations;
  }

  /** A result whose entries are all there already changes neither pod spec nor annotations. */
  lemma CoveredResultChangesNothing(pod: Pod, plugin: string, r: PluginResult)
    requires pod.containers != [] && pod.volumes.Some? && pod.initContainers.Some?
    requires Settles(pod, plugin, r)
    ensures MergeResult(pod, plugin, r) == pod
  {
    CoveredEnv(pod, plugin, r.envVars);
    CoveredMounts(pod, PrimaryMounts(r.sidecars));
    MergeAbsorbs(OrEmpty(pod.volumes), AllVolumes(r.sidecars), VolumeName);
    CoveredContainers(pod, plugin, KubeContainers(r.sidecars));
    MergeAbsorbs(OrEmpty(pod.initContainers), KubeContainers(r.initContainers), ContainerName);
    SettledAccountsChangeNothing(pod, plugin, Requests(r));
  }

  lemma CoveredEnv(pod: Pod, plugin: string, specs: seq<EnvVarSpec>)
    requires pod.containers != [] && AllKeysIn(KubeEnv(specs), ContentsOf(pod).env, EnvName)
    ensures MergeEnv(pod, plugin, specs) == pod
  {
    if specs != [] {
      var env := OrEmpty(pod.containers[0].env);
      MergeAbsorbs(env, KubeEnv(specs), EnvName);
      assert HasKey(env, EnvName(KubeEnv(specs)[0]), EnvName);
      assert NewEntries(env, env) == [];
    }
  }

  lemma CoveredMounts(pod: Pod, mounts: seq<VolumeMount>)
    requires pod.containers != [] && AllKeysIn(mounts, ContentsOf(pod).mounts, MountKey)
    ensures MergeMounts(pod, mounts) == pod
  {
    if mounts != [] {
      var there := OrEmpty(pod.containers[0].volumeMounts);
      MergeAbsorbs(there, mounts, MountKey);
      assert HasKey(there, MountKey(mounts[0]), MountKey);
    }
  }

  lemma CoveredContainers(pod: Pod, plugin: string, adds: seq<Container>)
    requires pod.containers != [] && AllKeysIn(adds, ContentsOf(pod).containers, ContainerName)
    ensures MergeContainers(pod, plugin, adds) == pod
  {
    var head := pod.containers[0].(env := None, volumeMounts := None);
    forall i | 0 <= i < |adds|
      ensures HasKey(pod.containers, ContainerName(adds[i]), ContainerName)
    {
      ReplaceHeadKeepsKeys(pod.containers, head, adds[i].name);
    }
    MergeAbsorbs(pod.containers, adds, ContainerName);
    assert NewEntries(pod.containers, pod.containers) == [];
  }

  /** Applying the result once more would change nothing: its entries are there and its account requests settled. */
  ghost predicate Settles(pod: Pod, plugin: string, r: PluginResult) {
    Covers(ContentsOf(pod), Additions(r)) && AccountsSettled(pod, plugin, Requests(r))
  }

  lemma ResultSettlesItself(pod: Pod, plugin: string, r: PluginResult)
    requires pod.containers != []
    ensures Settles(MergeResult(pod, plugin, r), plugin, r)
  {
    var lists := MergeInit(MergeSidecars(MergeEnv(pod, plugin, r.envVars), plugin, r.sidecars), r.initContainers);
    ContentsAfterResult(pod, plugin, r);
    MergeCovers(ContentsOf(pod), Additions(r));
    AccountsBecomeSettled(lists, plugin, Requests(r));
  }

  lemma LaterResultKeepsSettled(pod: Pod, plugin: string, r: PluginResult, later: NamedResult)
    requires pod.containers != [] && Settles(pod, plugin, r)
    ensures Settles(MergeResult(pod, later.plugin, later.result), plugin, r)
  {
    var lists := MergeInit(MergeSidecars(MergeEnv(pod, later.plugin, later.result.envVars), later.plugin,
                                         later.result.sidecars), later.result.initContainers);
    ContentsAfterResult(pod, later.plugin, later.result);
    MergeStillCovers(ContentsOf(pod), Additions(r), Additions(later.result));
    ListsKeepAccounts(pod, later.plugin, later.result, plugin);
    AccountsStaySettled(lists, plugin, Requests(r), later.plugin, Requests(later.result));
  }

  /** After a run, every result of that run is settled. */
  lemma {:induction false} RunSettlesItsResults(pod: Pod, rs: seq<NamedResult>, i: nat)
    requires pod.containers != [] && i < |rs|
    ensures Settles(MergeAll(pod, rs), rs[i].plugin, rs[i].result)
    decreases |rs|
  {
    var last := |rs| - 1;
    var before := MergeAll(pod, rs[..last]);
    RunMergesConcatenation(pod, rs[..last]);
    if i == last {
      ResultSettlesItself(before, rs[last].plugin, rs[last].result);
    } else {
      RunSettlesItsResults(pod, rs[..last], i);
      LaterResultKeepsSettled(before, rs[i].plugin, rs[i].result, rs[last]);
    }
  }

  lemma {:induction false} CoveredRunChangesNothing(pod: Pod, rs: seq<NamedResult>)
    requires pod.containers != [] && (rs != [] ==> pod.volumes.Some? && pod.initContainers.Some?)
    requires forall i :: 0 <= i < |rs| ==> Settles(pod, rs[i].plugin, rs[i].result)
    ensures MergeAll(pod, rs) == pod
    decreases |rs|
  {
    if rs == [] {
    } else {
      var last := |rs| - 1;
      CoveredRunChangesNothing(pod, rs[..last]);
      CoveredResultChangesNothing(pod, rs[last].plugin, rs[last].result);
    }
  }

  ghost predicate Idempotent(pod: Pod, rs: seq<NamedResult>) {
    MergeAll(MergeAll(pod, rs), rs) == MergeAll(pod, rs)
  }

  /** A result that adds the env var "K" and the sidecar "s". */
  function EnvAndSidecar(): NamedResult {
    NamedResult("p", PluginResult(
      [EnvVarSpec("K", "v", None)],
      [SidecarSpec("s", "image", [], None, None, None, None, None, None, None, [], [], [])],
      [], [], None, None, map[]))
  }

  lemma SingleRun(pod: Pod, r: NamedResult)
    ensures MergeAll(pod, [r]) == MergeResult(pod, r.plugin, r.result)
  {
    assert [r][..0] == [];
  }

  lemma SidecarsOfEmptyPod(pod: Pod, plugin: string, r: PluginResult)
    requires pod.containers == [] && |r.sidecars| == 1
    ensures MergeResult(pod, plugin, r).containers == KubeContainers(r.sidecars)
  {
    var adds := KubeContainers(r.sidecars);
    assert adds[..0] == [];
    assert MergeByKey([], adds[..0], ContainerName) == [];
    assert MergeByKey([], adds, ContainerName) == adds;
    var lists := MergeInit(MergeSidecars(MergeEnv(pod, plugin, r.envVars), plugin, r.sidecars), r.initContainers);
    assert lists.containers == adds;
    AccountsTouchNoList(lists, plugin, Requests(r));
  }

  /** In a pod without containers the sidecar becomes the primary container and gets the env var the second time. */
  lemma NotIdempotentWithoutContainers(pod: Pod)
    requires pod.containers == []
    ensures !Idempotent(pod, [EnvAndSidecar()])
  {
    var r := EnvAndSidecar().result;
    var once := MergeResult(pod, "p", r);
    SingleRun(pod, EnvAndSidecar());
    SingleRun(once, EnvAndSidecar());
    SidecarsOfEmptyPod(pod, "p", r);
    ContentsAfterResult(once, "p", r);
    MergedKeysIn(ContentsOf(once).env, KubeEnv(r.envVars), EnvName);
    assert ContentsOf(once).env == [];
    assert HasKey(ContentsOf(MergeResult(once, "p", r)).env, EnvName(KubeEnv(r.envVars)[0]), EnvName);
  }

  /** Applying the same results again changes nothing, for all results, exactly when the pod has a container. */
  lemma IdempotentIffContainer(pod: Pod)
    ensures (forall rs :: Idempotent(pod, rs)) <==> pod.containers != []
  {
    if pod.containers == [] {
      NotIdempotentWithoutContainers(pod);
    } else {
      forall rs
        ensures Idempotent(pod, rs)
      {
        RunMergesConcatenation(pod, rs);
        forall i | 0 <= i < |rs| {
          RunSettlesItsResults(pod, rs, i);
        }
        CoveredRunChangesNothing(MergeAll(pod, rs), rs);
      }
    }
  }
}
