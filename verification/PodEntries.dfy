/**
  What ends up in the pod, in terms of what the plugins emitted and of the pod's own fields: the
  entry that each spec stands for, where the entries go, what the annotations record and which
  service account is chosen. Neither the converters nor the merge loops are mentioned in the claims.
 */
module PodEntries {
  import opened Seqs
  import opened KeyedMerge
  import opened PodMerge

  // ------------------------------------------------------------ what an entry must say

  /** A secret reference wins over a config-map reference, and either over a literal; none is optional. */
  ghost predicate SaysEnv(e: EnvVar, spec: EnvVarSpec) {
    var secret := if spec.valueFrom.Some? then spec.valueFrom.value.secretKeyRef else None;
    var config := if spec.valueFrom.Some? then spec.valueFrom.value.configMapKeyRef else None;
    && e.name == spec.name
    && (secret.Some? ==> e.value.None? && e.valueFrom == Some(FromSecret(secret.value, false)))
    && (secret.None? && config.Some? ==> e.value.None? && e.valueFrom == Some(FromConfigMap(config.value, false)))
    && (secret.None? && config.None? ==>
          e.valueFrom.None? && (e.value.None? <==> spec.value == "") && (e.value.Some? ==> e.value.value == spec.value))
  }

  ghost predicate SaysMount(m: VolumeMount, spec: VolumeMountSpec) {
    && m.name == spec.name && m.mountPath == spec.mountPath && m.subPath == spec.subPath
    && (m.readOnly.Some? <==> spec.readOnly) && m.readOnly != Some(false)
  }

  ghost predicate SaysVolume(v: Volume, spec: VolumeSpec) {
    && v.name == spec.name
    && (spec.volumeType == "emptyDir" ==> v.source == EmptyDir(spec.sizeLimit))
    && (spec.volumeType == "secret" ==> v.source == Secret(spec.sourceName))
    && (spec.volumeType == "configMap" && spec.sourceName.Some? ==> v.source == ConfigMap(spec.sourceName.value))
    && (spec.volumeType == "configMap" && spec.sourceName.None? ==> v.source == ConfigMap(""))
    && (spec.volumeType !in {"emptyDir", "secret", "configMap"} ==> v.source == NoSource)
  }

  /** The specific amount if there is one, else the one for request and limit alike. */
  ghost predicate SaysAmount(amount: Option<string>, specific: Option<string>, shared: Option<string>) {
    && (specific.Some? ==> amount == specific)
    && (specific.None? ==> amount == shared)
  }

  ghost predicate SaysResources(r: Option<Resources>, s: SidecarSpec) {
    && (r.None? <==>
          && s.cpuRequest.None? && s.cpuLimit.None? && s.cpu.None?
          && s.memoryRequest.None? && s.memoryLimit.None? && s.memory.None?)
    && (r.Some? ==>
          && SaysAmount(r.value.cpuRequest, s.cpuRequest, s.cpu) && SaysAmount(r.value.cpuLimit, s.cpuLimit, s.cpu)
          && SaysAmount(r.value.memoryRequest, s.memoryRequest, s.memory)
          && SaysAmount(r.value.memoryLimit, s.memoryLimit, s.memory))
  }

  /** An optional list: absent for no specs, else one entry for each of them, in order. */
  ghost predicate SaysEach<T(!new), S>(xs: Option<seq<T>>, specs: seq<S>, says: (T, S) -> bool) {
    && (xs.None? <==> specs == [])
    && (xs.Some? ==> |xs.value| == |specs| && forall i :: 0 <= i < |specs| ==> says(xs.value[i], specs[i]))
  }

  ghost predicate SaysContainer(c: Container, s: SidecarSpec) {
    && c.name == s.name && c.image == Some(s.image)
    && SaysEach(c.env, s.env, (e, spec) => SaysEnv(e, spec))
    && SaysEach(c.volumeMounts, s.volumeMounts, (m, spec) => SaysMount(m, spec))
    && (c.ports.None? <==> s.port.None?) && (s.port.Some? ==> c.ports == Some([s.port.value]))
    && SaysResources(c.resources, s)
  }

  // ------------------------------------------------------------ what a merged list must hold

  /** No spec before the i-th has its key. */
  ghost predicate IsFirst<S, K>(specs: seq<S>, i: nat, key: S -> K) {
    i < |specs| && forall j :: 0 <= j < i ==> key(specs[j]) != key(specs[i])
  }

  /**
    `after` is `before` with new entries behind it: each stands for the first spec of its key, no key
    is pushed twice or pushed if it was there, and every spec's key is there in the end.
   */
  ghost predicate Extends<T(!new), S(!new), K(!new)>(
    before: seq<T>, after: seq<T>, specs: seq<S>, says: (T, S) -> bool, key: T -> K, specKey: S -> K)
  {
    && before <= after
    && (forall p, q :: 0 <= p < q < |after| && |before| <= q ==> key(after[p]) != key(after[q]))
    && (forall p :: |before| <= p < |after| ==> StandsForFirst(after[p], specs, says, specKey))
    && (forall i :: 0 <= i < |specs| ==> HasKey(after, specKey(specs[i]), key))
  }

  ghost predicate StandsForFirst<T(!new), S(!new), K(!new)>(
    x: T, specs: seq<S>, says: (T, S) -> bool, specKey: S -> K)
  {
    exists i: nat :: IsFirst(specs, i, specKey) && says(x, specs[i])
  }

  /** The i-th addition stands for the i-th spec. */
  ghost predicate Realises<T(!new), S(!new), K(!new)>(
    adds: seq<T>, specs: seq<S>, says: (T, S) -> bool, key: T -> K, specKey: S -> K)
  {
    && |adds| == |specs|
    && forall i :: 0 <= i < |adds| ==> says(adds[i], specs[i]) && key(adds[i]) == specKey(specs[i])
  }

  lemma {:induction false} NewKeysAreNew<T, K>(base: seq<T>, adds: seq<T>, key: T -> K)
    ensures var merged := MergeByKey(base, adds, key);
      && base <= merged
      && forall p, q :: 0 <= p < q < |merged| && |base| <= q ==> key(merged[p]) != key(merged[q])
    decreases |adds|
  {
    if adds == [] {
    } else {
      NewKeysAreNew(base, adds[..|adds| - 1], key);
    }
  }

  lemma {:induction false} NewEntriesAreFirst<T, K>(base: seq<T>, adds: seq<T>, key: T -> K, p: nat)
    requires |base| <= p < |MergeByKey(base, adds, key)|
    ensures exists i: nat :: IsFirst(adds, i, key) && MergeByKey(base, adds, key)[p] == adds[i]
    decreases |adds|
  {
    MergeKeepsPrefix(base, adds, key);
    if adds == [] {
    } else {
      var last := |adds| - 1;
      var merged := MergeByKey(base, adds[..last], key);
      if p < |merged| {
        NewEntriesAreFirst(base, adds[..last], key, p);
        var i: nat :| IsFirst(adds[..last], i, key) && merged[p] == adds[..last][i];
        assert forall j :: 0 <= j <= i ==> adds[..last][j] == adds[j];
        assert IsFirst(adds, i, key);
      } else {
        forall j | 0 <= j < last ensures key(adds[j]) != key(adds[last]) {
          assert adds[..last][j] == adds[j];
          MergeKeys(base, adds[..last], key, key(adds[j]));
        }
        assert IsFirst(adds, last, key);
      }
    }
  }

  /** Merging additions that stand for specs extends the list by those specs. */
  lemma MergeExtends<T(!new), S(!new), K(!new)>(
    base: seq<T>, adds: seq<T>, specs: seq<S>, says: (T, S) -> bool, key: T -> K, specKey: S -> K)
    requires Realises(adds, specs, says, key, specKey)
    ensures Extends(base, MergeByKey(base, adds, key), specs, says, key, specKey)
  {
    var merged := MergeByKey(base, adds, key);
    NewKeysAreNew(base, adds, key);
    forall p | |base| <= p < |merged| ensures StandsForFirst(merged[p], specs, says, specKey) {
      NewEntriesAreFirst(base, adds, key, p);
      var i: nat :| IsFirst(adds, i, key) && merged[p] == adds[i];
      assert IsFirst(specs, i, specKey);
    }
    forall i | 0 <= i < |specs| ensures HasKey(merged, specKey(specs[i]), key) {
      MergeKeys(base, adds, key, key(adds[i]));
      assert HasKey(adds, key(adds[i]), key);
    }
  }

  /** The key may be read off in another way. */
  lemma SameKeyExtends<T(!new), S(!new), K(!new)>(
    before: seq<T>, after: seq<T>, specs: seq<S>, says: (T, S) -> bool, key: T -> K, key': T -> K, specKey: S -> K)
    requires Extends(before, after, specs, says, key, specKey)
    requires forall x :: key'(x) == key(x)
    ensures Extends(before, after, specs, says, key', specKey)
  {
    forall i | 0 <= i < |specs| ensures HasKey(after, specKey(specs[i]), key') {
      var p :| 0 <= p < |after| && key(after[p]) == specKey(specs[i]);
      assert key'(after[p]) == specKey(specs[i]);
    }
  }

  /** What that means for one spec whose key is free and which is the first with it: exactly one entry, and its own. */
  lemma FreeSpecLands<T(!new), S(!new), K(!new)>(
    before: seq<T>, after: seq<T>, specs: seq<S>, says: (T, S) -> bool, key: T -> K, specKey: S -> K, i: nat)
    returns (p: nat)
    requires Extends(before, after, specs, says, key, specKey)
    requires forall x, s :: says(x, s) ==> key(x) == specKey(s)
    requires IsFirst(specs, i, specKey) && forall x :: x in before ==> key(x) != specKey(specs[i])
    ensures |before| <= p < |after| && says(after[p], specs[i])
    ensures forall q :: 0 <= q < |after| ==> (key(after[q]) == specKey(specs[i]) <==> q == p)
  {
    assert forall k :: 0 <= k < |before| ==> before[k] in before && before[k] == after[k];
    p :| 0 <= p < |after| && key(after[p]) == specKey(specs[i]);
    var j: nat :| IsFirst(specs, j, specKey) && says(after[p], specs[j]);
    assert i == j;
  }

  // ------------------------------------------------------------ what the converters emit

  lemma EnvRealises(specs: seq<EnvVarSpec>)
    ensures Realises(KubeEnv(specs), specs, (e, s) => SaysEnv(e, s), EnvName, (s: EnvVarSpec) => s.name)
  {
  }

  lemma MountsRealise(specs: seq<VolumeMountSpec>)
    ensures Realises(KubeMounts(specs), specs, (m, s) => SaysMount(m, s), MountKey,
                     (s: VolumeMountSpec) => (s.name, s.mountPath))
  {
  }

  lemma VolumesRealise(specs: seq<VolumeSpec>)
    ensures Realises(KubeVolumes(specs), specs, (v, s) => SaysVolume(v, s), VolumeName, (s: VolumeSpec) => s.name)
  {
  }

  lemma ContainersRealise(specs: seq<SidecarSpec>)
    ensures Realises(KubeContainers(specs), specs, (c, s) => SaysContainer(c, s), ContainerName,
                     (s: SidecarSpec) => s.name)
  {
    forall i | 0 <= i < |specs| ensures SaysContainer(KubeContainers(specs)[i], specs[i]) {
      SidecarIsSaid(specs[i]);
    }
  }

  lemma SidecarIsSaid(s: SidecarSpec)
    ensures SaysContainer(SidecarToContainer(s), s)
  {
    EnvRealises(s.env);
    MountsRealise(s.volumeMounts);
  }

  lemma RealisesConcat<T(!new), S(!new), K(!new)>(
    a: seq<T>, b: seq<T>, specsA: seq<S>, specsB: seq<S>, says: (T, S) -> bool, key: T -> K, specKey: S -> K)
    requires Realises(a, specsA, says, key, specKey) && Realises(b, specsB, says, key, specKey)
    ensures Realises(a + b, specsA + specsB, says, key, specKey)
  {
  }

  /** One list of specs out of each of several owners. */
  function Collect<O, S>(owners: seq<O>, of: O -> seq<S>): seq<S> {
    Flatten(seq(|owners|, i requires 0 <= i < |owners| => of(owners[i])))
  }

  lemma CollectSnoc<O, S>(owners: seq<O>, last: O, of: O -> seq<S>)
    ensures Collect(owners + [last], of) == Collect(owners, of) + of(last)
  {
    var parts := seq(|owners|, i requires 0 <= i < |owners| => of(owners[i]));
    var more := owners + [last];
    assert seq(|more|, i requires 0 <= i < |more| => of(more[i])) == parts + [of(last)];
    FlattenSnoc(parts, of(last));
  }

  lemma CollectIs<O, S>(owners: seq<O>, of: O -> seq<S>, parts: seq<seq<S>>)
    requires |parts| == |owners| && forall i :: 0 <= i < |owners| ==> parts[i] == of(owners[i])
    ensures Collect(owners, of) == Flatten(parts)
  {
    assert seq(|owners|, i requires 0 <= i < |owners| => of(owners[i])) == parts;
  }

  /** If each owner's additions stand for its specs, then all of them do. */
  lemma {:induction false} CollectRealises<O, T(!new), S(!new), K(!new)>(
    owners: seq<O>, adds: O -> seq<T>, specs: O -> seq<S>, says: (T, S) -> bool, key: T -> K, specKey: S -> K)
    requires forall i :: 0 <= i < |owners| ==> Realises(adds(owners[i]), specs(owners[i]), says, key, specKey)
    ensures Realises(Collect(owners, adds), Collect(owners, specs), says, key, specKey)
  {
    if owners == [] {
    } else {
      var front, last := owners[..|owners| - 1], owners[|owners| - 1];
      CollectRealises(front, adds, specs, says, key, specKey);
      assert owners == front + [last] && last == owners[|owners| - 1];
      CollectSnoc(front, last, adds);
      CollectSnoc(front, last, specs);
      RealisesConcat(Collect(front, adds), adds(last), Collect(front, specs), specs(last), says, key, specKey);
    }
  }

  // ------------------------------------------------------------ one call of apply_env_vars

  /** The primary container's environment after one merge; without a container nothing happens. */
  lemma EnvIsExtended(pod: Pod, plugin: string, specs: seq<EnvVarSpec>)
    ensures pod.containers == [] ==> MergeEnv(pod, plugin, specs) == pod
    ensures pod.containers != [] ==>
      && MergeEnv(pod, plugin, specs).containers != []
      && Extends(OrEmpty(pod.containers[0].env), OrEmpty(MergeEnv(pod, plugin, specs).containers[0].env), specs,
                 (e, s) => SaysEnv(e, s), (e: EnvVar) => e.name, (s: EnvVarSpec) => s.name)
  {
    if pod.containers != [] {
      ContentsAfterEnv(pod, plugin, specs);
      EnvListExtends(OrEmpty(pod.containers[0].env), KubeEnv(specs), specs);
    }
  }

  lemma EnvListExtends(base: seq<EnvVar>, adds: seq<EnvVar>, specs: seq<EnvVarSpec>)
    requires adds == KubeEnv(specs)
    ensures Extends(base, MergeByKey(base, adds, EnvName), specs,
                    (e, s) => SaysEnv(e, s), (e: EnvVar) => e.name, (s: EnvVarSpec) => s.name)
  {
    EnvRealises(specs);
    MergeExtends(base, adds, specs, (e, s) => SaysEnv(e, s), EnvName, (s: EnvVarSpec) => s.name);
    SameKeyExtends(base, MergeByKey(base, adds, EnvName), specs,
                   (e, s) => SaysEnv(e, s), EnvName, (e: EnvVar) => e.name, (s: EnvVarSpec) => s.name);
  }

  /** So a spec whose name is free, and first in the list, has exactly one entry, and that says what it asks for. */
  lemma EnvSpecLands(pod: Pod, plugin: string, specs: seq<EnvVarSpec>, i: nat) returns (p: nat)
    requires pod.containers != [] && i < |specs|
    requires forall e :: e in OrEmpty(pod.containers[0].env) ==> e.name != specs[i].name
    requires forall j :: 0 <= j < i ==> specs[j].name != specs[i].name
    ensures MergeEnv(pod, plugin, specs).containers != []
    ensures var env := OrEmpty(MergeEnv(pod, plugin, specs).containers[0].env);
      && p < |env| && SaysEnv(env[p], specs[i])
      && forall q :: 0 <= q < |env| ==> (env[q].name == specs[i].name <==> q == p)
  {
    EnvIsExtended(pod, plugin, specs);
    p := FreeSpecLands(OrEmpty(pod.containers[0].env), OrEmpty(MergeEnv(pod, plugin, specs).containers[0].env), specs,
                       (e, s) => SaysEnv(e, s), (e: EnvVar) => e.name, (s: EnvVarSpec) => s.name, i);
  }

  // ------------------------------------------------------------ a whole run, list by list

  lemma {:induction false} AdditionsCollect<T>(rs: seq<NamedResult>, pick: Contents -> seq<T>)
    requires pick(Contents([], [], [], [], [])) == []
    requires forall a, b :: pick(Append(a, b)) == pick(a) + pick(b)
    ensures pick(AllAdditions(rs)) == Collect(rs, (r: NamedResult) => pick(Additions(r.result)))
  {
    var of := (r: NamedResult) => pick(Additions(r.result));
    if rs == [] {
    } else {
      var front, last := rs[..|rs| - 1], rs[|rs| - 1];
      AdditionsCollect(front, pick);
      assert rs == front + [last];
      CollectSnoc(front, last, of);
    }
  }

  /** One list of the pod: if each result's additions to it stand for specs, the run extends it by all specs. */
  lemma RunExtends<T(!new), S(!new), K(!new)>(
    user: seq<T>, rs: seq<NamedResult>, pick: Contents -> seq<T>, specs: NamedResult -> seq<S>,
    says: (T, S) -> bool, key: T -> K, specKey: S -> K)
    requires pick(Contents([], [], [], [], [])) == []
    requires forall a, b :: pick(Append(a, b)) == pick(a) + pick(b)
    requires forall i :: 0 <= i < |rs| ==>
      Realises(pick(Additions(rs[i].result)), specs(rs[i]), says, key, specKey)
    ensures Extends(user, MergeByKey(user, pick(AllAdditions(rs)), key), Collect(rs, specs), says, key, specKey)
  {
    var adds := (r: NamedResult) => pick(Additions(r.result));
    AdditionsCollect(rs, pick);
    CollectRealises(rs, adds, specs, says, key, specKey);
    MergeExtends(user, Collect(rs, adds), Collect(rs, specs), says, key, specKey);
  }

  /** The primary container's environment after a run: the user's, and the plugins' specs in run order. */
  lemma EnvAfterRun(pod: Pod, rs: seq<NamedResult>)
    requires pod.containers != []
    ensures MergeAll(pod, rs).containers != []
    ensures Extends(OrEmpty(pod.containers[0].env), OrEmpty(MergeAll(pod, rs).containers[0].env),
                    Collect(rs, (r: NamedResult) => r.result.envVars),
                    (e, s) => SaysEnv(e, s), (e: EnvVar) => e.name, (s: EnvVarSpec) => s.name)
  {
    var says, specs := (e, s) => SaysEnv(e, s), (r: NamedResult) => r.result.envVars;
    RunMergesConcatenation(pod, rs);
    var user := OrEmpty(pod.containers[0].env);
    var after := OrEmpty(MergeAll(pod, rs).containers[0].env);
    forall i | 0 <= i < |rs| { EnvRealises(rs[i].result.envVars); }
    RunExtends(user, rs, (c: Contents) => c.env, specs, says, EnvName, (s: EnvVarSpec) => s.name);
    SameKeyExtends(user, after, Collect(rs, specs), says, EnvName, (e: EnvVar) => e.name, (s: EnvVarSpec) => s.name);
  }

  /** Its volume mounts: what the sidecars ask to mount into the primary container, once per name and path. */
  lemma MountsAfterRun(pod: Pod, rs: seq<NamedResult>)
    requires pod.containers != []
    ensures MergeAll(pod, rs).containers != []
    ensures Extends(OrEmpty(pod.containers[0].volumeMounts), OrEmpty(MergeAll(pod, rs).containers[0].volumeMounts),
                    Collect(rs, (r: NamedResult) =>
                      Collect(r.result.sidecars, (s: SidecarSpec) => s.primaryVolumeMounts)),
                    (m, s) => SaysMount(m, s), (m: VolumeMount) => (m.name, m.mountPath),
                    (s: VolumeMountSpec) => (s.name, s.mountPath))
  {
    var says, specKey := (m, s) => SaysMount(m, s), (s: VolumeMountSpec) => (s.name, s.mountPath);
    var of := (s: SidecarSpec) => s.primaryVolumeMounts;
    var specs := (r: NamedResult) => Collect(r.result.sidecars, of);
    RunMergesConcatenation(pod, rs);
    var user := OrEmpty(pod.containers[0].volumeMounts);
    var after := OrEmpty(MergeAll(pod, rs).containers[0].volumeMounts);
    forall i | 0 <= i < |rs| { PrimaryMountsRealise(rs[i].result.sidecars, of); }
    RunExtends(user, rs, (c: Contents) => c.mounts, specs, says, MountKey, specKey);
    SameKeyExtends(user, after, Collect(rs, specs), says, MountKey, (m: VolumeMount) => (m.name, m.mountPath), specKey);
  }

  lemma PrimaryMountsRealise(sidecars: seq<SidecarSpec>, of: SidecarSpec -> seq<VolumeMountSpec>)
    requires forall s: SidecarSpec :: of(s) == s.primaryVolumeMounts
    ensures Realises(PrimaryMounts(sidecars), Collect(sidecars, of), (m, s) => SaysMount(m, s), MountKey,
                     (s: VolumeMountSpec) => (s.name, s.mountPath))
  {
    var adds := (s: SidecarSpec) => KubeMounts(s.primaryVolumeMounts);
    forall i | 0 <= i < |sidecars| { MountsRealise(sidecars[i].primaryVolumeMounts); }
    CollectRealises(sidecars, adds, of, (m, s) => SaysMount(m, s), MountKey,
                    (s: VolumeMountSpec) => (s.name, s.mountPath));
    CollectIs(sidecars, adds,
      seq(|sidecars|, i requires 0 <= i < |sidecars| => KubeMounts(sidecars[i].primaryVolumeMounts)));
  }

  /** The pod's volumes: what the sidecars declare, once per name. */
  lemma VolumesAfterRun(pod: Pod, rs: seq<NamedResult>)
    requires pod.containers != []
    ensures Extends(OrEmpty(pod.volumes), OrEmpty(MergeAll(pod, rs).volumes),
                    Collect(rs, (r: NamedResult) => Collect(r.result.sidecars, (s: SidecarSpec) => s.volumes)),
                    (v, s) => SaysVolume(v, s), (v: Volume) => v.name, (s: VolumeSpec) => s.name)
  {
    var user, after := OrEmpty(pod.volumes), OrEmpty(MergeAll(pod, rs).volumes);
    var says, specKey := (v, s) => SaysVolume(v, s), (s: VolumeSpec) => s.name;
    var of := (s: SidecarSpec) => s.volumes;
    var specs := (r: NamedResult) => Collect(r.result.sidecars, of);
    RunMergesConcatenation(pod, rs);
    forall i | 0 <= i < |rs| { SidecarVolumesRealise(rs[i].result.sidecars, of); }
    RunExtends(user, rs, (c: Contents) => c.volumes, specs, says, VolumeName, specKey);
    SameKeyExtends(user, after, Collect(rs, specs), says, VolumeName, (v: Volume) => v.name, specKey);
  }

  lemma SidecarVolumesRealise(sidecars: seq<SidecarSpec>, of: SidecarSpec -> seq<VolumeSpec>)
    requires forall s: SidecarSpec :: of(s) == s.volumes
    ensures Realises(AllVolumes(sidecars), Collect(sidecars, of), (v, s) => SaysVolume(v, s), VolumeName,
                     (s: VolumeSpec) => s.name)
  {
    var adds := (s: SidecarSpec) => KubeVolumes(s.volumes);
    forall i | 0 <= i < |sidecars| { VolumesRealise(sidecars[i].volumes); }
    CollectRealises(sidecars, adds, of, (v, s) => SaysVolume(v, s), VolumeName, (s: VolumeSpec) => s.name);
    CollectIs(sidecars, adds, seq(|sidecars|, i requires 0 <= i < |sidecars| => KubeVolumes(sidecars[i].volumes)));
  }

  /** The init containers, once per name. */
  lemma InitContainersAfterRun(pod: Pod, rs: seq<NamedResult>)
    requires pod.containers != []
    ensures Extends(OrEmpty(pod.initContainers), OrEmpty(MergeAll(pod, rs).initContainers),
                    Collect(rs, (r: NamedResult) => r.result.initContainers),
                    (c, s) => SaysContainer(c, s), (c: Container) => c.name, (s: SidecarSpec) => s.name)
  {
    var user, after := OrEmpty(pod.initContainers), OrEmpty(MergeAll(pod, rs).initContainers);
    var says, specs := (c, s) => SaysContainer(c, s), (r: NamedResult) => r.result.initContainers;
    var specKey := (s: SidecarSpec) => s.name;
    RunMergesConcatenation(pod, rs);
    forall i | 0 <= i < |rs| { ContainersRealise(rs[i].result.initContainers); }
    RunExtends(user, rs, (c: Contents) => c.inits, specs, says, ContainerName, specKey);
    SameKeyExtends(user, after, Collect(rs, specs), says, ContainerName, (c: Container) => c.name, specKey);
  }

  /** The containers, the primary one aside, whose environment and mounts are extended as above. */
  lemma ContainersAfterRun(pod: Pod, rs: seq<NamedResult>)
    requires pod.containers != []
    ensures MergeAll(pod, rs).containers != []
    ensures var head, head' := pod.containers[0], MergeAll(pod, rs).containers[0];
      && head' == head.(env := head'.env, volumeMounts := head'.volumeMounts)
      && Extends(pod.containers, [head] + MergeAll(pod, rs).containers[1..],
                 Collect(rs, (r: NamedResult) => r.result.sidecars),
                 (c, s) => SaysContainer(c, s), (c: Container) => c.name, (s: SidecarSpec) => s.name)
  {
    var user, after := pod.containers, MergeAll(pod, rs).containers;
    var says, specs := (c, s) => SaysContainer(c, s), (r: NamedResult) => r.result.sidecars;
    var specKey, name := (s: SidecarSpec) => s.name, (c: Container) => c.name;
    var adds := AllAdditions(rs).containers;
    RunMergesConcatenation(pod, rs);
    MergeReplaceHead(user, user[0].(env := None, volumeMounts := None), adds);
    HeadAside(user, MergeByKey(user, adds, ContainerName), after);
    forall i | 0 <= i < |rs| { ContainersRealise(rs[i].result.sidecars); }
    RunExtends(user, rs, (c: Contents) => c.containers, specs, says, ContainerName, specKey);
    SameKeyExtends(user, MergeByKey(user, adds, ContainerName), Collect(rs, specs), says, ContainerName, name, specKey);
  }

  lemma HeadAside(user: seq<Container>, merged: seq<Container>, after: seq<Container>)
    requires user != [] && merged != [] && merged[0] == user[0] && after != []
    requires Bare(after) == merged[0 := user[0].(env := None, volumeMounts := None)]
    ensures [user[0]] + after[1..] == merged
    ensures after[0] == user[0].(env := after[0].env, volumeMounts := after[0].volumeMounts)
  {
    assert Bare(after)[0] == after[0].(env := None, volumeMounts := None);
    assert Bare(after)[1..] == after[1..] == merged[1..];
  }

  // ------------------------------------------------------------ what the annotations record

  /** A record is written only if there is something to record. */
  function Record(annotations: map<string, string>, key: string, names: seq<string>): map<string, string> {
    if names == [] then annotations else annotations[key := JoinComma(names)]
  }

  /** Joining with commas: one name is itself, and two lists are joined by one comma. */
  lemma {:induction false} JoinCommaLaws(a: seq<string>, b: seq<string>)
    ensures |a| == 1 ==> JoinComma(a) == a[0]
    ensures a != [] && b != [] ==> JoinComma(a + b) == JoinComma(a) + "," + JoinComma(b)
  {
    if |a| >= 1 && b != [] {
      assert (a + b)[1..] == a[1..] + b;
      JoinCommaLaws(a[1..], b);
      if |a| == 1 {
        assert a[1..] + b == b;
      } else {
        var head := a[0] + ",";
        AppendAssoc(head, JoinComma(a[1..]) + ",", JoinComma(b));
        AppendAssoc(head, JoinComma(a[1..]), ",");
      }
    }
  }

  /**
    The annotations after one result: under the plugin's own keys, the names of the env vars and of
    the containers it added, if any, and the service account if it set one.
   */
  lemma ResultIsRecorded(pod: Pod, plugin: string, r: PluginResult)
    requires pod.containers != []
    ensures var after := MergeResult(pod, plugin, r);
      && after.containers != [] && |OrEmpty(pod.containers[0].env)| <= |OrEmpty(after.containers[0].env)|
      && |pod.containers| <= |after.containers|
    ensures var after := MergeResult(pod, plugin, r);
      var newEnv := OrEmpty(after.containers[0].env)[|OrEmpty(pod.containers[0].env)|..];
      var newContainers := after.containers[|pod.containers|..];
      var recorded := Record(
        Record(pod.annotations, "deckwatch.plugin-env/" + plugin, EnvNames(newEnv)),
        "deckwatch.plugin-sidecar/" + plugin, ContainerNames(newContainers));
      after.annotations ==
        if (pod.serviceAccountName.None? || pod.serviceAccountName == Some("default"))
           && (r.serviceAccountName.Some? || r.wantsServiceAccount.Some?) && after.serviceAccountName.Some?
        then recorded["deckwatch.plugin-sa/" + plugin := after.serviceAccountName.value]
        else recorded
  {
    var p1 := MergeEnv(pod, plugin, r.envVars);
    var p2 := MergeSidecars(p1, plugin, r.sidecars);
    EnvIsRecorded(pod, plugin, r.envVars);
    SidecarsAreRecorded(p1, plugin, r.sidecars);
    AccountIsRecorded(MergeInit(p2, r.initContainers), plugin, r);
  }

  function EnvNames(env: seq<EnvVar>): seq<string> {
    seq(|env|, k requires 0 <= k < |env| => env[k].name)
  }

  function ContainerNames(containers: seq<Container>): seq<string> {
    seq(|containers|, k requires 0 <= k < |containers| => containers[k].name)
  }

  lemma EnvIsRecorded(pod: Pod, plugin: string, specs: seq<EnvVarSpec>)
    requires pod.containers != []
    ensures var after := MergeEnv(pod, plugin, specs);
      && |after.containers| == |pod.containers| && after.serviceAccountName == pod.serviceAccountName
      && |OrEmpty(pod.containers[0].env)| <= |OrEmpty(after.containers[0].env)|
      && after.annotations == Record(pod.annotations, "deckwatch.plugin-env/" + plugin,
           EnvNames(OrEmpty(after.containers[0].env)[|OrEmpty(pod.containers[0].env)|..]))
  {
    var before := OrEmpty(pod.containers[0].env);
    if specs != [] {
      var merged := MergeByKey(before, KubeEnv(specs), EnvName);
      MergeKeepsPrefix(before, KubeEnv(specs), EnvName);
      assert Names(NewEntries(before, merged), EnvName) == EnvNames(merged[|before|..]);
    }
  }

  lemma SidecarsAreRecorded(pod: Pod, plugin: string, sidecars: seq<SidecarSpec>)
    requires pod.containers != []
    ensures var after := MergeSidecars(pod, plugin, sidecars);
      && |pod.containers| <= |after.containers| && after.containers[0].env == pod.containers[0].env
      && after.serviceAccountName == pod.serviceAccountName
      && after.annotations == Record(pod.annotations, "deckwatch.plugin-sidecar/" + plugin,
           ContainerNames(after.containers[|pod.containers|..]))
  {
    var filled := MergeVolumes(MergeMounts(pod, PrimaryMounts(sidecars)), AllVolumes(sidecars));
    var adds := KubeContainers(sidecars);
    var merged := MergeByKey(filled.containers, adds, ContainerName);
    MergeKeepsPrefix(filled.containers, adds, ContainerName);
    assert Names(NewEntries(filled.containers, merged), ContainerName)
        == ContainerNames(merged[|filled.containers|..]);
  }

  lemma AccountIsRecorded(pod: Pod, plugin: string, r: PluginResult)
    ensures var after := MergeAccounts(pod, plugin, Requests(r));
      && after == pod.(serviceAccountName := after.serviceAccountName, annotations := after.annotations)
      && after.annotations ==
           if (pod.serviceAccountName.None? || pod.serviceAccountName == Some("default"))
              && (r.serviceAccountName.Some? || r.wantsServiceAccount.Some?) && after.serviceAccountName.Some?
           then pod.annotations["deckwatch.plugin-sa/" + plugin := after.serviceAccountName.value]
           else pod.annotations
  {
    AccountsOfResult(pod, plugin, r);
  }

  /**
    The service account after one result: the pod's own if it has one other than "default"; else what
    the result names, unless that is "default" and the result also wants an account created.
   */
  lemma AccountAfterResult(pod: Pod, plugin: string, r: PluginResult)
    ensures var after := MergeResult(pod, plugin, r).serviceAccountName;
      after ==
        if pod.serviceAccountName.Some? && pod.serviceAccountName.value != "default" then pod.serviceAccountName
        else if r.serviceAccountName.Some? && (r.serviceAccountName.value != "default" || r.wantsServiceAccount.None?)
        then r.serviceAccountName
        else if r.wantsServiceAccount.Some? then Some(r.wantsServiceAccount.value.name)
        else pod.serviceAccountName
  {
    var lists := MergeInit(MergeSidecars(MergeEnv(pod, plugin, r.envVars), plugin, r.sidecars), r.initContainers);
    AccountsOfResult(lists, plugin, r);
  }
}
