/** The read-only PV/PVC pair that mirrors a repository's storage for one engine: created step
    by step, torn down step by step, with any API call able to fail. */
module StoragePair {
  import opened Common
  import opened Backend
  import Names

  const FINALIZER := "llmengine.aitrigram.cliver-project.github.io/storage-protection"
  const DEFAULT_MOUNT := "/data/models"

  // ---------------------------------------------------------------- cluster objects

  datatype Meta = Meta(engine: string, repo: string, finalizers: set<string>, deleting: bool)

  datatype Volume = Volume(meta: Meta, spec: VolumeSpec)

  datatype Phase = Pending | Bound | Lost

  datatype Claim = Claim(meta: Meta, volumeName: string, modes: seq<AccessMode>, capacity: nat, phase: Phase)

  type Key = (string, string)

  datatype Store = Store(pvs: map<string, Volume>, pvcs: map<Key, Claim>)

  // Deleting an object, or updating one, takes effect at once when no finalizer is left.
  function Finalized(m: Meta): bool { m.deleting && m.finalizers == {} }

  function WithoutFinalizer(m: Meta): Meta { m.(finalizers := m.finalizers - {FINALIZER}) }

  /** The cluster, as seen through the client. */
  class Cluster {
    var pvs: map<string, Volume>
    var pvcs: map<Key, Claim>
    /** Finalizers the API server itself adds to new objects. */
    const protection: set<string>

    constructor (s: Store, protection: set<string>)
      ensures State() == s && this.protection == protection
    {
      pvs, pvcs, this.protection := s.pvs, s.pvcs, protection;
    }

    function State(): Store
      reads this
    {
      Store(pvs, pvcs)
    }

    method CreateVolume(name: string, v: Volume)
      requires name !in pvs
      modifies `pvs
      ensures pvs == old(pvs)[name := Admitted(v, protection)]
    {
      pvs := pvs[name := v.(meta := v.meta.(finalizers := v.meta.finalizers + protection))];
    }

    method CreateClaim(key: Key, c: Claim)
      requires key !in pvcs
      modifies `pvcs
      ensures pvcs == old(pvcs)[key := ClaimAdmitted(c, protection)]
    {
      pvcs := pvcs[key := c.(meta := c.meta.(finalizers := c.meta.finalizers + protection))];
    }

    /** Write back a claim; the server drops it if that was its last finalizer. */
    method UpdateClaim(key: Key, c: Claim)
      requires key in pvcs
      modifies `pvcs
      ensures pvcs == if Finalized(c.meta) then old(pvcs) - {key} else old(pvcs)[key := c]
    {
      pvcs := if Finalized(c.meta) then pvcs - {key} else pvcs[key := c];
    }

    method UpdateVolume(name: string, v: Volume)
      requires name in pvs
      modifies `pvs
      ensures pvs == if Finalized(v.meta) then old(pvs) - {name} else old(pvs)[name := v]
    {
      pvs := if Finalized(v.meta) then pvs - {name} else pvs[name := v];
    }

    /** Delete; an absent object is reported as not found, which callers ignore. */
    method DeleteClaim(key: Key)
      modifies `pvcs
      ensures pvcs == DeletedClaim(old(pvcs), key)
    {
      if key in pvcs {
        var c := pvcs[key];
        UpdateClaim(key, c.(meta := c.meta.(deleting := true)));
      }
    }

    method DeleteVolume(name: string)
      modifies `pvs
      ensures pvs == DeletedVolume(old(pvs), name)
    {
      if name in pvs {
        var v := pvs[name];
        UpdateVolume(name, v.(meta := v.meta.(deleting := true)));
      }
    }
  }

  function Admitted(v: Volume, protection: set<string>): Volume {
    v.(meta := v.meta.(finalizers := v.meta.finalizers + protection))
  }

  function DeletedClaim(pvcs: map<Key, Claim>, key: Key): map<Key, Claim> {
    if key !in pvcs then pvcs
    else if pvcs[key].meta.finalizers == {} then pvcs - {key}
    else pvcs[key := pvcs[key].(meta := pvcs[key].meta.(deleting := true))]
  }

  function DeletedVolume(pvs: map<string, Volume>, name: string): map<string, Volume> {
    if name !in pvs then pvs
    else if pvs[name].meta.finalizers == {} then pvs - {name}
    else pvs[name := pvs[name].(meta := pvs[name].meta.(deleting := true))]
  }

  /** The binder: a claim becomes bound once the volume it names is reserved for it. */
  function AfterBinding(s: Store, key: Key): Store {
    if key in s.pvcs && s.pvcs[key].volumeName in s.pvs
       && s.pvs[s.pvcs[key].volumeName].spec.claim == Some(key)
    then s.(pvcs := s.pvcs[key := s.pvcs[key].(phase := Bound)])
    else s
  }

  // ---------------------------------------------------------------- the request

  /** One engine and one repository, with the repository's recorded storage. */
  datatype Request = Request(
    h: Names.Hash, parse: ParseQuantity,
    engine: string, namespace: string, repo: string, mountPath: string,
    storage: Option<StorageStatus>)
  {
    predicate Valid() { Names.Nameable(h, 63, "le", engine, repo) }

    function PVName(): string requires Valid() { Names.NameOf(h, 63, "le", engine, repo) }

    function PVCKey(): Key requires Valid() { (namespace, Names.NameOf(h, 63, "le", engine, repo)) }

    function Spec(): Outcome<VolumeSpec> {
      if storage.None? || storage.value.backend.None? then Err
      else MirrorSpec(parse, storage.value.backend.value, storage.value)
    }

    function NewMeta(): Meta { Meta(engine, repo, {FINALIZER}, false) }

    function NewVolume(): Volume
      requires Valid() && Spec().Ok?
    {
      Volume(NewMeta(), Spec().value.(claim := Some(PVCKey()), reclaim := Retain))
    }

    function NewClaim(): Claim
      requires Valid() && storage.Some? && parse(storage.value.capacity).Some?
    {
      Claim(NewMeta(), PVName(), [ReadOnlyMany], parse(storage.value.capacity).value, Pending)
    }
  }

  datatype Mounted = Mounted(pvcName: string, mountPath: string)

  datatype EnsureCall = GetPV | CreatePV | GetPVC | CreatePVC

  function ClaimAdmitted(c: Claim, protection: set<string>): Claim {
    c.(meta := c.meta.(finalizers := c.meta.finalizers + protection))
  }

  /** EnsureLLMEngineStorage on values; fails is the set of client calls that return an error. */
  function Ensured(q: Request, s: Store, protection: set<string>, fails: set<EnsureCall>): (Outcome<Mounted>, Store)
    requires q.Valid()
  {
    if !q.Spec().Ok? then (if q.Spec().Panic? then Panic else Err, s)
    else if GetPV in fails || (q.PVName() !in s.pvs && CreatePV in fails) then (Err, s)
    else
      var s1 := if q.PVName() in s.pvs then s
                else s.(pvs := s.pvs[q.PVName() := Admitted(q.NewVolume(), protection)]);
      if q.parse(q.storage.value.capacity).None? then (Panic, s1)
      else if GetPVC in fails || (q.PVCKey() !in s.pvcs && CreatePVC in fails) then (Err, s1)
      else if q.PVCKey() !in s.pvcs then
        (Err, s1.(pvcs := s1.pvcs[q.PVCKey() := ClaimAdmitted(q.NewClaim(), protection)]))
      else if s.pvcs[q.PVCKey()].phase != Bound then (Err, s1)
      else (Ok(Mounted(q.PVCKey().1, if q.mountPath == "" then DEFAULT_MOUNT else q.mountPath)), s1)
  }

  method EnsureLLMEngineStorage(c: Cluster, q: Request, fails: set<EnsureCall>) returns (r: Outcome<Mounted>)
    requires q.Valid()
    modifies c
    ensures (r, c.State()) == Ensured(q, old(c.State()), c.protection, fails)
  {
    if q.storage.None? || q.storage.value.backend.None? {
      return Err;
    }
    var st := q.storage.value;
    var name := Names.TruncatedName(q.h, 63, "le", q.engine, q.repo);
    var mount := if q.mountPath == "" then DEFAULT_MOUNT else q.mountPath;
    var built := BuildReadOnlyPVSpec(q.parse, st.backend.value, st);
    if built.Panic? {
      return Panic;
    } else if built.Err? {
      return Err;
    }
    var key := (q.namespace, name);
    var spec := built.value.(claim := Some(key));
    spec := spec.(reclaim := Retain);
    var meta := Meta(q.engine, q.repo, {FINALIZER}, false);
    if GetPV in fails {
      return Err;
    }
    if name !in c.pvs {
      if CreatePV in fails {
        return Err;
      }
      c.CreateVolume(name, Volume(meta, spec));
    }
    var capacity := q.parse(st.capacity);
    if capacity.None? {
      return Panic;
    }
    if GetPVC in fails {
      return Err;
    }
    if key !in c.pvcs {
      if CreatePVC in fails {
        return Err;
      }
      c.CreateClaim(key, Claim(meta, name, [ReadOnlyMany], capacity.value, Pending));
      return Err;
    }
    if c.pvcs[key].phase != Bound {
      return Err;
    }
    return Ok(Mounted(name, mount));
  }

  // ---------------------------------------------------------------- what creation guarantees

  /** Under any faults: success means the volume exists and the claim is bound. */
  lemma SuccessMeansBound(q: Request, s: Store, protection: set<string>, fails: set<EnsureCall>)
    requires q.Valid()
    ensures var (r, t) := Ensured(q, s, protection, fails);
            r.Ok? ==> q.PVName() in t.pvs && q.PVCKey() in t.pvcs && t.pvcs[q.PVCKey()].phase == Bound
                      && r.value.pvcName == q.PVCKey().1
                      && r.value.mountPath == if q.mountPath == "" then "/data/models" else q.mountPath
  {
  }

  /** Volume and claim of a pair have one name, made of engine and repository; the claim is in the
      engine's namespace. */
  lemma PairNames(q: Request)
    requires q.Valid()
    ensures q.PVCKey() == (q.namespace, q.PVName())
    ensures q.PVName() == Names.NameOf(q.h, 63, "le", q.engine, q.repo)
    ensures |q.engine| + |q.repo| <= 59 ==> q.PVName() == "le-" + q.engine + "-" + q.repo
  {
  }

  /** Under any faults: nothing that exists is changed, and nothing but the pair is added. */
  lemma EnsureOnlyAdds(q: Request, s: Store, protection: set<string>, fails: set<EnsureCall>)
    requires q.Valid()
    ensures var t := Ensured(q, s, protection, fails).1;
            && (forall n | n in s.pvs :: n in t.pvs && t.pvs[n] == s.pvs[n])
            && (forall k | k in s.pvcs :: k in t.pvcs && t.pvcs[k] == s.pvcs[k])
            && t.pvs.Keys <= s.pvs.Keys + {q.PVName()} && t.pvcs.Keys <= s.pvcs.Keys + {q.PVCKey()}
  {
    hide MirrorSpec, Names.NameOf, Names.Nameable;
  }

  /** A volume the call creates is read-only, kept when released, reserved for its own claim,
      protected, labelled with engine and repository, and as large as the record says, or 10Gi. */
  lemma CreatedVolume(q: Request, s: Store, protection: set<string>, fails: set<EnsureCall>)
    requires q.Valid() && q.storage.Some? && q.storage.value.backend.Some?
    ensures var t := Ensured(q, s, protection, fails).1;
            q.PVName() in t.pvs && q.PVName() !in s.pvs ==>
              var v := t.pvs[q.PVName()];
              && v.spec.accessModes == [ReadOnlyMany] && v.spec.reclaim == Retain
              && v.spec.claim == Some(q.PVCKey()) && !v.meta.deleting
              && v.meta.finalizers == protection + {"llmengine.aitrigram.cliver-project.github.io/storage-protection"}
              && v.meta.engine == q.engine && v.meta.repo == q.repo
              && Some(v.spec.source) == SourceFrom(q.storage.value.backend.value)
              && Some(v.spec.capacity) == q.parse(if q.storage.value.capacity == "" then "10Gi" else q.storage.value.capacity)
              && v.spec.nodeTerms ==
                 if v.spec.source.hostPath.Some? && q.storage.value.boundNode != ""
                 then [[Requirement("kubernetes.io/hostname", In, [q.storage.value.boundNode])]] else []
  {
    hide Names.NameOf, Names.Nameable;
  }

  /** A claim the call creates asks read-only for the volume of the pair and for the recorded
      capacity; it is protected, labelled with engine and repository, and not bound yet.  If the
      volume is one the pair's calls create, it fits it. */
  lemma CreatedClaim(q: Request, s: Store, protection: set<string>, fails: set<EnsureCall>)
    requires q.Valid() && q.storage.Some?
    ensures var t := Ensured(q, s, protection, fails).1;
            q.PVCKey() in t.pvcs && q.PVCKey() !in s.pvcs ==>
              var c := t.pvcs[q.PVCKey()];
              && c.volumeName == q.PVName() && q.PVName() in t.pvs
              && c.modes == [ReadOnlyMany] && c.phase == Pending && !c.meta.deleting
              && c.meta.finalizers == protection + {"llmengine.aitrigram.cliver-project.github.io/storage-protection"}
              && c.meta.engine == q.engine && c.meta.repo == q.repo
              && Some(c.capacity) == q.parse(q.storage.value.capacity)
              && (q.PVName() !in s.pvs && q.storage.value.capacity != "" ==> Fits(c, t.pvs[q.PVName()]))
  {
    hide Names.NameOf, Names.Nameable;
  }

  /** The volume offers what the claim asks for. */
  predicate Fits(c: Claim, v: Volume) {
    (forall m | m in c.modes :: m in v.spec.accessModes) && c.capacity <= v.spec.capacity
  }

  /** If the record is that of some volume, the created volume is that volume's mirror. */
  lemma CreatedVolumeMirrors(q: Request, s: Store, protection: set<string>, fails: set<EnsureCall>, source: Source, o: Owner)
    requires q.Valid() && q.storage.Some? && q.storage.value.backend.Some?
    requires q.storage.value.backend == Extracted(source, o)
    ensures var t := Ensured(q, s, protection, fails).1;
            q.PVName() in t.pvs && q.PVName() !in s.pvs ==>
              Some(t.pvs[q.PVName()].spec.source) == MirrorOf(source)
  {
    var b := q.storage.value.backend.value;
    assert SourceFrom(b) == MirrorOf(source) by {
      BackendRoundTrip(source, o);
    }
    CreatedVolume(q, s, protection, fails);
  }

  /** What one error-free call needs to succeed: usable storage details, and a bound claim. */
  predicate Mountable(q: Request, s: Store)
    requires q.Valid()
  {
    && q.Spec().Ok? && q.parse(q.storage.value.capacity).Some?
    && q.PVCKey() in s.pvcs && s.pvcs[q.PVCKey()].phase == Bound
  }

  /** A capacity that does not parse: the defaulted one, or later the recorded one. */
  predicate Panics(q: Request) {
    q.Spec().Panic? || (q.Spec().Ok? && q.parse(q.storage.value.capacity).None?)
  }

  lemma SucceedsExactly(q: Request, s: Store, protection: set<string>)
    requires q.Valid()
    ensures var (r, t) := Ensured(q, s, protection, {});
            (r.Ok? <==> Mountable(q, s)) && (r.Panic? <==> Panics(q)) && (r.Ok? ==> t.pvcs == s.pvcs)
  {
    hide MirrorSpec, Names.NameOf, Names.Nameable;
  }

  /** The claim can become bound: what is already there is reserved for it. */
  predicate Bindable(q: Request, s: Store)
    requires q.Valid()
  {
    if q.PVCKey() !in s.pvcs then FreeFor(s, q.PVName(), q.PVCKey())
    else
      var p := s.pvcs[q.PVCKey()];
      || p.phase == Bound
      || (FreeFor(s, p.volumeName, q.PVCKey()) && (p.volumeName == q.PVName() || p.volumeName in s.pvs))
  }

  /** No volume of this name is reserved for another claim. */
  predicate FreeFor(s: Store, name: string, key: Key) { name !in s.pvs || s.pvs[name].spec.claim == Some(key) }

  /** From any state whatever, so from any crash point: two error-free calls with a binding step
      between them succeed exactly if the claim could be bound at all. */
  lemma TwoCallsSucceed(q: Request, s: Store, protection: set<string>)
    requires q.Valid() && q.Spec().Ok? && q.parse(q.storage.value.capacity).Some?
    ensures var s1 := AfterBinding(Ensured(q, s, protection, {}).1, q.PVCKey());
            var (r, s2) := Ensured(q, s1, protection, {});
            (r.Ok? <==> Bindable(q, s)) && s2 == s1
  {
    var s1 := Ensured(q, s, protection, {}).1;
    assert q.PVName() in s1.pvs && q.PVCKey() in s1.pvcs;
  }

  /** Faults and crashes do not lose bindability: it survives every partial call, for this pair or
      another one in its namespace, and the binding of any claim. */
  lemma BindableIsKept(q: Request, s: Store, protection: set<string>, made: Request, fails: set<EnsureCall>, other: Key)
    requires q.Valid() && made.Valid() && made.namespace == q.namespace && Bindable(q, s)
    ensures Bindable(q, Ensured(made, s, protection, fails).1)
    ensures Bindable(q, AfterBinding(s, other))
  {
    BindingKeepsBindable(q, s, other);
    EnsureOnlyAdds(made, s, protection, fails);
    CallAdds(made, s, protection, fails);
    hide Ensured, AfterBinding, MirrorSpec, Names.NameOf, Names.Nameable;
  }

  // What a call adds is the pair, reserved for each other.
  lemma CallAdds(q: Request, s: Store, protection: set<string>, fails: set<EnsureCall>)
    requires q.Valid()
    ensures var t := Ensured(q, s, protection, fails).1;
            && q.PVCKey() == (q.namespace, q.PVName())
            && (q.PVName() !in s.pvs ==> FreeFor(t, q.PVName(), q.PVCKey()))
            && (q.PVCKey() in t.pvcs && q.PVCKey() !in s.pvcs ==> t.pvcs[q.PVCKey()].volumeName == q.PVName())
  {
    hide MirrorSpec, Names.NameOf, Names.Nameable;
  }

  lemma BindingKeepsBindable(q: Request, s: Store, other: Key)
    requires q.Valid() && Bindable(q, s)
    ensures Bindable(q, AfterBinding(s, other))
  {
    hide Names.NameOf, Names.Nameable;
  }

  /** The call panics exactly when a capacity does not parse: the defaulted one while building the
      volume, or the recorded one afterwards. */
  lemma PanicsExactly(q: Request, s: Store, protection: set<string>)
    requires q.Valid() && q.storage.Some? && q.storage.value.backend.Some?
    ensures var st := q.storage.value;
            var (r, t) := Ensured(q, s, protection, {});
            r.Panic? <==>
              || q.parse(if st.capacity == "" then DEFAULT_CAPACITY else st.capacity).None?
              || (SourceFrom(st.backend.value).Some? && q.parse(st.capacity).None?)
  {
  }

  /** An empty recorded capacity is defaulted for the volume but not for the claim: the call
      panics with the volume already created. */
  lemma EmptyCapacityPanics(q: Request, s: Store, protection: set<string>)
    requires q.Valid() && q.Spec().Ok? && q.storage.value.capacity == "" && q.parse("") == None
    ensures var (r, t) := Ensured(q, s, protection, {});
            r.Panic? && q.PVName() in t.pvs && t.pvcs == s.pvcs
  {
  }

  // ---------------------------------------------------------------- teardown

  datatype CleanupCall = ReadPVC | UpdatePVC | DeletePVC | ReadPV | UpdatePV | DeletePV

  function ClaimCleaned(s: Store, key: Key, fails: set<CleanupCall>): (bool, Store) {
    if ReadPVC in fails || key !in s.pvcs then (true, s)
    else if UpdatePVC in fails then (false, s)
    else
      var c := s.pvcs[key].(meta := WithoutFinalizer(s.pvcs[key].meta));
      var s1 := s.(pvcs := if Finalized(c.meta) then s.pvcs - {key} else s.pvcs[key := c]);
      if DeletePVC in fails then (false, s1) else (true, s1.(pvcs := DeletedClaim(s1.pvcs, key)))
  }

  function VolumeCleaned(s: Store, name: string, fails: set<CleanupCall>): (bool, Store) {
    if ReadPV in fails || name !in s.pvs then (true, s)
    else if UpdatePV in fails then (false, s)
    else
      var v := s.pvs[name].(meta := WithoutFinalizer(s.pvs[name].meta));
      var s1 := s.(pvs := if Finalized(v.meta) then s.pvs - {name} else s.pvs[name := v]);
      if DeletePV in fails then (false, s1) else (true, s1.(pvs := DeletedVolume(s1.pvs, name)))
  }

  /** CleanupLLMEngineStorage on values: claim first, volume only if that went well.  A failed
      read is taken for an absent object. */
  function Cleaned(key: Key, name: string, s: Store, fails: set<CleanupCall>): (bool, Store) {
    var (ok, s1) := ClaimCleaned(s, key, fails);
    if ok then VolumeCleaned(s1, name, fails) else (false, s1)
  }

  method CleanupLLMEngineStorage(c: Cluster, q: Request, fails: set<CleanupCall>) returns (ok: bool)
    requires q.Valid()
    modifies c
    ensures (ok, c.State()) == Cleaned(q.PVCKey(), q.PVName(), old(c.State()), fails)
  {
    var name := Names.TruncatedName(q.h, 63, "le", q.engine, q.repo);
    var key := (q.namespace, name);
    if ReadPVC !in fails && key in c.pvcs {
      if UpdatePVC in fails {
        return false;
      }
      c.UpdateClaim(key, c.pvcs[key].(meta := WithoutFinalizer(c.pvcs[key].meta)));
      if DeletePVC in fails {
        return false;
      }
      c.DeleteClaim(key);
    }
    if ReadPV !in fails && name in c.pvs {
      if UpdatePV in fails {
        return false;
      }
      c.UpdateVolume(name, c.pvs[name].(meta := WithoutFinalizer(c.pvs[name].meta)));
      if DeletePV in fails {
        return false;
      }
      c.DeleteVolume(name);
    }
    return true;
  }

  /** The operator no longer holds the object: it is gone, or on its way out. */
  predicate Released(m: Meta) { m.deleting && FINALIZER !in m.finalizers }

  /** Nothing of the pair is held by the operator. */
  predicate PairReleased(s: Store, key: Key, name: string) {
    (key in s.pvcs ==> Released(s.pvcs[key].meta)) && (name in s.pvs ==> Released(s.pvs[name].meta))
  }

  /** If no read fails and the call reports success, both objects of the pair are released. */
  lemma CleanupReleases(key: Key, name: string, s: Store, fails: set<CleanupCall>)
    requires ReadPVC !in fails && ReadPV !in fails
    ensures var (ok, t) := Cleaned(key, name, s, fails);
            && (ok ==> PairReleased(t, key, name))
            && (fails == {} ==> ok)
  {
  }

  /** Under any faults no other object is touched. */
  lemma CleanupFrame(key: Key, name: string, s: Store, fails: set<CleanupCall>)
    ensures var t := Cleaned(key, name, s, fails).1;
            t.pvs - {name} == s.pvs - {name} && t.pvcs - {key} == s.pvcs - {key}
  {
  }

  /** And what is left of the pair itself is as it was but for the operator's finalizer and the mark
      of deletion. */
  lemma CleanupKeepsRest(key: Key, name: string, s: Store, fails: set<CleanupCall>)
    ensures var t, own := Cleaned(key, name, s, fails).1, {"llmengine.aitrigram.cliver-project.github.io/storage-protection"};
            && (key in t.pvcs ==>
                  && key in s.pvcs && t.pvcs[key] == s.pvcs[key].(meta := t.pvcs[key].meta)
                  && KeepsRest(s.pvcs[key].meta, t.pvcs[key].meta, own))
            && (name in t.pvs ==>
                  && name in s.pvs && t.pvs[name] == s.pvs[name].(meta := t.pvs[name].meta)
                  && KeepsRest(s.pvs[name].meta, t.pvs[name].meta, own))
  {
    hide KeepsRest, ClaimCleaned, VolumeCleaned;
    ClaimKeepsRest(s, key, fails);
    VolumeKeepsRest(s, name, fails);
    VolumeKeepsRest(ClaimCleaned(s, key, fails).1, name, fails);
    KeepsItself(s, name);
  }

  lemma KeepsItself(s: Store, name: string)
    ensures name in s.pvs ==>
              KeepsRest(s.pvs[name].meta, s.pvs[name].meta, {FINALIZER}) && s.pvs[name] == s.pvs[name].(meta := s.pvs[name].meta)
    ensures FINALIZER == "llmengine.aitrigram.cliver-project.github.io/storage-protection"
  {
  }

  lemma ClaimKeepsRest(s: Store, key: Key, fails: set<CleanupCall>)
    ensures var t := ClaimCleaned(s, key, fails).1;
            && t.pvs == s.pvs
            && (key in t.pvcs ==>
                  && key in s.pvcs && t.pvcs[key] == s.pvcs[key].(meta := t.pvcs[key].meta)
                  && KeepsRest(s.pvcs[key].meta, t.pvcs[key].meta, {FINALIZER}))
  {
  }

  lemma VolumeKeepsRest(s: Store, name: string, fails: set<CleanupCall>)
    ensures var t := VolumeCleaned(s, name, fails).1;
            && t.pvcs == s.pvcs
            && (name in t.pvs ==>
                  && name in s.pvs && t.pvs[name] == s.pvs[name].(meta := t.pvs[name].meta)
                  && KeepsRest(s.pvs[name].meta, t.pvs[name].meta, {FINALIZER}))
  {
  }

  predicate KeepsRest(before: Meta, after: Meta, own: set<string>) {
    && after.engine == before.engine && after.repo == before.repo
    && (before.deleting ==> after.deleting) && after.finalizers <= before.finalizers <= after.finalizers + own
  }

  lemma CleanupLeavesOthers(key: Key, name: string, s: Store, fails: set<CleanupCall>, k: Key, n: string)
    requires k != key && n != name
    ensures var t := Cleaned(key, name, s, fails).1;
            && (k in t.pvcs <==> k in s.pvcs) && (k in s.pvcs ==> t.pvcs[k] == s.pvcs[k])
            && (n in t.pvs <==> n in s.pvs) && (n in s.pvs ==> t.pvs[n] == s.pvs[n])
  {
  }

  /** What is released stays released, whatever is cleaned up next. */
  lemma ReleaseIsKept(key: Key, name: string, s: Store, fails: set<CleanupCall>, k: Key, n: string)
    requires PairReleased(s, k, n)
    ensures PairReleased(Cleaned(key, name, s, fails).1, k, n)
  {
  }

  /** Under any faults: exactly when the pair ends up released.  The claim needs its read and
      update, and its deletion unless it was being deleted already; the volume needs the same,
      and that the claim's part went through or was passed over. */
  lemma ReleasedExactly(key: Key, name: string, s: Store, fails: set<CleanupCall>)
    ensures var t := Cleaned(key, name, s, fails).1;
            var claimPasses := ReadPVC in fails || key !in s.pvcs || (UpdatePVC !in fails && DeletePVC !in fails);
            && ((key in t.pvcs ==> Released(t.pvcs[key].meta)) <==>
                  || key !in s.pvcs || Released(s.pvcs[key].meta)
                  || (ReadPVC !in fails && UpdatePVC !in fails && (DeletePVC !in fails || s.pvcs[key].meta.deleting)))
            && ((name in t.pvs ==> Released(t.pvs[name].meta)) <==>
                  || name !in s.pvs || Released(s.pvs[name].meta)
                  || (claimPasses && ReadPV !in fails && UpdatePV !in fails
                      && (DeletePV !in fails || s.pvs[name].meta.deleting)))
  {
  }

  lemma CleanupIsIdempotent(key: Key, name: string, s: Store)
    ensures var t := Cleaned(key, name, s, {}).1;
            Cleaned(key, name, t, {}) == (true, t)
  {
    var s1 := ClaimCleaned(s, key, {}).1;
    var t := VolumeCleaned(s1, name, {}).1;
    if key in t.pvcs {
      assert t.pvcs[key].meta == WithoutFinalizer(t.pvcs[key].meta).(deleting := true);
      assert t.pvcs[key := t.pvcs[key]] == t.pvcs;
    }
    if name in t.pvs {
      assert t.pvs[name].meta == WithoutFinalizer(t.pvs[name].meta).(deleting := true);
      assert t.pvs[name := t.pvs[name]] == t.pvs;
    }
  }

  /** A failed read is swallowed: the call reports success and leaves everything behind. */
  lemma FailedReadsLeak(key: Key, name: string, s: Store)
    ensures Cleaned(key, name, s, {ReadPVC, ReadPV}) == (true, s)
  {
  }

  /** Creation and teardown undo each other: where the pair did not exist and the server adds no
      finalizers of its own, create, bind and clean up give back the original store. */
  lemma CleanupUndoesEnsure(q: Request, s: Store)
    requires q.Valid() && q.Spec().Ok? && q.parse(q.storage.value.capacity).Some?
    requires q.PVName() !in s.pvs && q.PVCKey() !in s.pvcs
    ensures var created := AfterBinding(Ensured(q, s, {}, {}).1, q.PVCKey());
            Cleaned(q.PVCKey(), q.PVName(), created, {}) == (true, s)
  {
    var key, name := q.PVCKey(), q.PVName();
    var created := AfterBinding(Ensured(q, s, {}, {}).1, key);
    assert {FINALIZER} - {FINALIZER} == {};
    assert created.pvcs[key].meta == q.NewMeta() && created.pvs[name].meta == q.NewMeta();
    var s1 := ClaimCleaned(created, key, {}).1;
    assert s1.pvcs == s.pvcs;
    var s2 := VolumeCleaned(s1, name, {}).1;
    assert s2.pvs == s.pvs;
  }

  // ---------------------------------------------------------------- two namespaces, one volume

  /** What may happen to the pairs: any engine's calls and teardowns, cut short anywhere, and bindings. */
  datatype Step =
    | Ensuring(q: Request, ensureFails: set<EnsureCall>)
    | Binding(key: Key)
    | Cleaning(cleanedKey: Key, name: string, cleanupFails: set<CleanupCall>)

  function Taken(s: Store, protection: set<string>, step: Step): Store {
    match step
    case Ensuring(q, fails) => if q.Valid() then Ensured(q, s, protection, fails).1 else s
    case Binding(key) => AfterBinding(s, key)
    case Cleaning(key, name, fails) => Cleaned(key, name, s, fails).1
  }

  function Ran(s: Store, protection: set<string>, steps: seq<Step>): Store {
    if steps == [] then s else Taken(Ran(s, protection, steps[..|steps| - 1]), protection, steps[|steps| - 1])
  }

  /** The volume is reserved for one claim, and the other claim, if it exists, waits for that volume. */
  predicate Blocked(name: string, first: Key, other: Key, s: Store) {
    && name in s.pvs && s.pvs[name].spec.claim == Some(first)
    && (other in s.pvcs ==> s.pvcs[other].phase != Bound && s.pvcs[other].volumeName == name)
  }

  lemma BlockedIsKept(name: string, first: Key, other: Key, s: Store, protection: set<string>, step: Step)
    requires Blocked(name, first, other, s) && first != other && other.1 == name
    ensures name in Taken(s, protection, step).pvs ==> Blocked(name, first, other, Taken(s, protection, step))
  {
    hide MirrorSpec, Names.NameOf, Names.Nameable;
    if step.Ensuring? && step.q.Valid() {
      EnsureOnlyAdds(step.q, s, protection, step.ensureFails);
    }
  }

  lemma {:induction false} StaysBlocked(name: string, first: Key, other: Key, s: Store, protection: set<string>, steps: seq<Step>)
    requires Blocked(name, first, other, s) && first != other && other.1 == name
    requires forall i | 0 <= i <= |steps| :: name in Ran(s, protection, steps[..i]).pvs
    ensures Blocked(name, first, other, Ran(s, protection, steps))
    decreases |steps|
  {
    hide Blocked, Taken;
    if steps != [] {
      var before := steps[..|steps| - 1];
      forall i | 0 <= i <= |before| ensures name in Ran(s, protection, before[..i]).pvs {
        assert before[..i] == steps[..i];
      }
      StaysBlocked(name, first, other, s, protection, before);
      assert steps[..|steps|] == steps;
      BlockedIsKept(name, first, other, Ran(s, protection, before), protection, steps[|steps| - 1]);
    }
  }

  lemma BlockedNeverMounts(q: Request, first: Key, s: Store, protection: set<string>, fails: set<EnsureCall>)
    requires q.Valid() && first != q.PVCKey() && Blocked(q.PVName(), first, q.PVCKey(), s)
    ensures !Bindable(q, s) && !Ensured(q, s, protection, fails).0.Ok?
  {
    hide MirrorSpec, Names.NameOf, Names.Nameable;
  }

  /** Two engines of the same name in different namespaces need the same cluster-wide volume.  As
      long as it stands, reserved for the first, the second never gets storage, whatever calls,
      faults, bindings and teardowns follow. */
  lemma NamespacesShareVolume(q: Request, namespace: string, s: Store, protection: set<string>, steps: seq<Step>, fails: set<EnsureCall>)
    requires q.Valid() && namespace != q.namespace
    requires q.PVName() in s.pvs && s.pvs[q.PVName()].spec.claim == Some(q.PVCKey())
    requires q.(namespace := namespace).PVCKey() !in s.pvcs
    requires forall i | 0 <= i <= |steps| :: q.PVName() in Ran(s, protection, steps[..i]).pvs
    ensures var other, t := q.(namespace := namespace), Ran(s, protection, steps);
            other.PVName() == q.PVName() && !Bindable(other, t) && !Ensured(other, t, protection, fails).0.Ok?
  {
    hide Ran, Ensured, Bindable, Names.NameOf, Names.Nameable;
    var other := q.(namespace := namespace);
    StaysBlocked(q.PVName(), q.PVCKey(), other.PVCKey(), s, protection, steps);
    BlockedNeverMounts(other, q.PVCKey(), Ran(s, protection, steps), protection, fails);
  }
}
