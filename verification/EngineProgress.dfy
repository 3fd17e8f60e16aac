/** What stands between an engine and its deployments, and how a pass after the other gets there. */
module EngineProgress {
  import opened Common
  import opened Status
  import opened EngineWorld
  import EngineGpu
  import Names
  import SP = StoragePair

  predicate AllThere(sc: Scene, refs: seq<string>) { forall r | r in refs :: r in sc.repos }

  predicate AllReady(sc: Scene, refs: seq<string>) { AllThere(sc, refs) && forall r | r in refs :: sc.repos[r].phase == ReadyPhase }

  /** The pair for the reference can be mounted as things are. */
  predicate Mounts(cfg: Config, sc: Scene, r: string)
    requires r in sc.repos
  {
    SP.Mountable(RequestFor(cfg, sc, r, sc.repos[r]), sc.store)
  }

  predicate HasGpu(sc: Scene, spec: Spec)
    requires AllThere(sc, spec.refs)
  {
    spec.gpu.Some? ==> EngineGpu.GpuAvailable(spec.gpu.value, StatusesOf(sc, spec.refs), sc.nodes)
  }

  /** Reference i is the first whose repository has another phase than Ready. */
  predicate FirstToWaitFor(sc: Scene, refs: seq<string>, i: nat)
    requires AllThere(sc, refs)
  {
    i < |refs| && sc.repos[refs[i]].phase != ReadyPhase && forall j | 0 <= j < i :: sc.repos[refs[j]].phase == ReadyPhase
  }

  /** Reference i is the first whose pair cannot be mounted. */
  predicate FirstToMount(cfg: Config, sc: Scene, refs: seq<string>, i: nat)
    requires AllThere(sc, refs)
  {
    i < |refs| && !Mounts(cfg, sc, refs[i]) && forall j | 0 <= j < i :: Mounts(cfg, sc, refs[j])
  }

  /** Some replica of the deployment looked up for the model is ready. */
  predicate LookedUpReady(cfg: Config, sc: Scene, model: string) {
    var name := cfg.name + "-" + model;
    name in sc.deployments && sc.deployments[name] > 0
  }

  /** The obstacles that the repositories are, in the order in which they count. */
  lemma EarlyObstacles(cfg: Config, sc: Scene)
    requires sc.engine.Some?
    ensures var refs, v := sc.engine.value.spec.refs, EngineVerdict(cfg, sc);
            if !AllThere(sc, refs) then
              v == Some(NotReady(ModelRepositoryFetchFailed, "ModelRepository could not be fetched"))
            else if refs == [] then v == Some(NotReady(NoModelsFound, "No ModelRepository resources found"))
            else !AllReady(sc, refs) ==>
              exists i: nat | FirstToWaitFor(sc, refs, i) :: v == Some(WaitForModels("Waiting for ModelRepository " + refs[i]))
  {
    hide SP.Mountable, SP.Panics, EngineGpu.GpuAvailable, RequestFor;
    var refs := sc.engine.value.spec.refs;
    if AllThere(sc, refs) && refs != [] && !AllReady(sc, refs) {
      var copies := StatusesOf(sc, refs);
      assert forall i | 0 <= i < |refs| :: copies[i] == sc.repos[refs[i]];
      assert FirstToWaitFor(sc, refs, FirstUnreadyAt(copies));
    }
  }

  /** And those that come up once every repository is ready. */
  lemma LateObstacles(cfg: Config, sc: Scene)
    requires sc.engine.Some? && sc.engine.value.spec.refs != [] && AllReady(sc, sc.engine.value.spec.refs)
    ensures var spec, v := sc.engine.value.spec, EngineVerdict(cfg, sc);
            if !HasGpu(sc, spec) then v == Some(NotReady(GPUNotAvailable, "GPU validation failed"))
            else if exists r | r in spec.refs :: !Mounts(cfg, sc, r) then
              exists i: nat | FirstToMount(cfg, sc, spec.refs, i) ::
                v == if SP.Panics(RequestFor(cfg, sc, spec.refs[i], sc.repos[spec.refs[i]])) then None
                     else Some(NotReady(StoragePending, "Preparing storage for model " + spec.refs[i]))
            else
              && v.Some? && v.value.Deployed? && v.value.models == spec.refs
              && (v.value.allReady <==> forall r | r in spec.refs :: LookedUpReady(cfg, sc, r))
  {
    hide SP.Mountable, SP.Panics, EngineGpu.GpuAvailable, RequestFor;
    var refs := sc.engine.value.spec.refs;
    var copies := StatusesOf(sc, refs);
    assert forall i | 0 <= i < |refs| :: refs[i] in refs && copies[i] == sc.repos[refs[i]];
    var unbound := FirstUnmountable(cfg, sc, refs, copies);
    if unbound < |refs| {
      assert FirstToMount(cfg, sc, refs, unbound);
    } else {
      LookedUp(cfg, sc, refs);
    }
  }

  lemma LookedUp(cfg: Config, sc: Scene, refs: seq<string>)
    ensures AllFoundReady(cfg, sc, refs) <==> forall r | r in refs :: LookedUpReady(cfg, sc, r)
  {
    forall i | 0 <= i < |refs|
      ensures HasReady(sc.deployments, Names.LookupName(cfg.name, refs[i])) <==> LookedUpReady(cfg, sc, refs[i])
    {
    }
    hide HasReady, LookedUpReady, Names.LookupName;
  }

  /** Not ready, for this reason. */
  predicate Lacks(s: EngineStatus, phase: EnginePhase, reason: Reason) {
    s.phase == phase && Find(s.conditions, Ready).Some?
    && var c := Find(s.conditions, Ready).value;
       !c.status && c.reason == reason
  }

  // The status that a write leaves.
  lemma VerdictShows(s: EngineStatus, m: EngineMutation)
    ensures var t := ApplyEngine(m, s);
            && Find(t.conditions, Ready).Some? && Find(t.conditions, Ready).value.status == (m.Deployed? && m.allReady)
            && (m.NotReady? ==> Lacks(t, t.phase, m.reason))
            && (m.NotReady? && m.reason in {NoModelsFound, GPUNotAvailable, StoragePending} ==> t.phase == Pending)
            && (m.NotReady? && m.reason == ModelRepositoryFetchFailed ==> t.phase == Errored)
            && (m.WaitForModels? ==> Lacks(t, Pending, WaitingForModels))
            && (m.Deployed? ==> t.modelRepositories == m.models)
            && (m.Deployed? && m.allReady ==> t.phase == Running)
            && (m.Deployed? && !m.allReady ==> Lacks(t, Starting, DeploymentsCreated))
  {
    hide ApplyEngine;
    PhaseAfter(m, s);
    ShownAfter(m, s);
  }

  // ---------------------------------------------------------------- the pairs, one pass after the other

  /** Repositories and GPUs are in order, so that a pass gets as far as preparing storage. */
  predicate ReachesStorage(sc: Scene) {
    && sc.engine.Some? && sc.engine.value.spec.refs != []
    && AllReady(sc, sc.engine.value.spec.refs) && HasGpu(sc, sc.engine.value.spec)
  }

  /** What is recorded of the repository's storage is usable, and what exists of the pair is reserved
      for it. */
  predicate CanMount(cfg: Config, sc: Scene, r: string)
    requires r in sc.repos
  {
    var q := RequestFor(cfg, sc, r, sc.repos[r]);
    q.Spec().Ok? && cfg.parse(q.storage.value.capacity).Some? && SP.Bindable(q, sc.store)
  }

  /** How many pairs can be mounted before the first that cannot. */
  function MountedPairs(cfg: Config, sc: Scene): (n: nat)
    requires sc.engine.Some? && AllThere(sc, sc.engine.value.spec.refs)
  {
    FirstUnmountable(cfg, sc, sc.engine.value.spec.refs, StatusesOf(sc, sc.engine.value.spec.refs))
  }

  /** An undisturbed pass, and then the binding of the claim that the pass is waiting for. */
  function AfterRound(cfg: Config, protection: set<string>, sc: Scene): Scene
    requires sc.engine.Some? && AllThere(sc, sc.engine.value.spec.refs)
  {
    var refs, n, store := sc.engine.value.spec.refs, MountedPairs(cfg, sc), EngineStore(cfg, protection, sc);
    sc.(store := if n < |refs| then SP.AfterBinding(store, ClaimKey(cfg, refs[n])) else store)
  }

  function AfterRounds(cfg: Config, protection: set<string>, sc: Scene, n: nat): (t: Scene)
    requires sc.engine.Some? && AllThere(sc, sc.engine.value.spec.refs)
    ensures t == sc.(store := t.store)
    decreases n
  {
    if n == 0 then sc else AfterRound(cfg, protection, AfterRounds(cfg, protection, sc, n - 1))
  }

  /** Every pair that was not mountable can still become so after any of the calls of a pass. */
  lemma CanMountAfterCall(cfg: Config, protection: set<string>, a: Scene, made: string, r: string, s: SP.Store)
    requires made in a.repos && r in a.repos && CanMount(cfg, a.(store := s), r)
    ensures var t := SP.Ensured(RequestFor(cfg, a, made, a.repos[made]), s, protection, {}).1;
            CanMount(cfg, a.(store := t), r)
    ensures CanMount(cfg, a.(store := SP.AfterBinding(s, ClaimKey(cfg, made))), r)
  {
    hide SP.Bindable, SP.Ensured, SP.AfterBinding, Names.NameOf;
    var q := RequestFor(cfg, a, r, a.repos[r]);
    assert q == RequestFor(cfg, a.(store := s), r, a.repos[r]);
    SP.BindableIsKept(q, s, protection, RequestFor(cfg, a, made, a.repos[made]), {}, ClaimKey(cfg, made));
  }

  /** The calls for the first n pairs lose no pair, and change no claim as long as all could be mounted. */
  lemma {:induction false} MirroredKeeps(cfg: Config, protection: set<string>, sc: Scene, refs: seq<string>, n: nat, r: string)
    requires AllThere(sc, refs) && n <= |refs| && r in sc.repos && CanMount(cfg, sc, r)
    ensures var t := Mirrored(cfg, protection, sc, refs, StatusesOf(sc, refs), n);
            && CanMount(cfg, sc.(store := t), r)
            && ((forall j | 0 <= j < n :: Mounts(cfg, sc, refs[j])) ==> t.pvcs == sc.store.pvcs)
    decreases n
  {
    hide *;
    NoCall(cfg, protection, sc, refs);
    if n > 0 {
      MirroredKeeps(cfg, protection, sc, refs, n - 1, r);
      var s := Mirrored(cfg, protection, sc, refs, StatusesOf(sc, refs), n - 1);
      OneMoreCall(cfg, protection, sc, refs, n);
      CanMountAfterCall(cfg, protection, sc, refs[n - 1], r, s);
      MountedCall(cfg, protection, sc, refs[n - 1], s);
    }
  }

  lemma NoCall(cfg: Config, protection: set<string>, sc: Scene, refs: seq<string>)
    requires AllThere(sc, refs)
    ensures (forall r | r in refs :: r in sc.repos) && |StatusesOf(sc, refs)| == |refs|
    ensures Mirrored(cfg, protection, sc, refs, StatusesOf(sc, refs), 0) == sc.store && sc.(store := sc.store) == sc
  {
  }

  lemma OneMoreCall(cfg: Config, protection: set<string>, sc: Scene, refs: seq<string>, n: nat)
    requires AllThere(sc, refs) && 0 < n <= |refs|
    ensures refs[n - 1] in sc.repos
    ensures Mirrored(cfg, protection, sc, refs, StatusesOf(sc, refs), n) ==
            SP.Ensured(RequestFor(cfg, sc, refs[n - 1], sc.repos[refs[n - 1]]),
                       Mirrored(cfg, protection, sc, refs, StatusesOf(sc, refs), n - 1), protection, {}).1
  {
    hide SP.Ensured, RequestFor;
    assert refs[n - 1] in refs;
  }

  lemma MountedCall(cfg: Config, protection: set<string>, sc: Scene, r: string, s: SP.Store)
    requires r in sc.repos
    ensures Mounts(cfg, sc, r) && s.pvcs == sc.store.pvcs ==>
              SP.Ensured(RequestFor(cfg, sc, r, sc.repos[r]), s, protection, {}).1.pvcs == s.pvcs
  {
    hide SP.Ensured, Names.NameOf;
    SP.SucceedsExactly(RequestFor(cfg, sc, r, sc.repos[r]), s, protection);
  }

  // Reading the same repositories and nodes, only the store differs.
  lemma SameButStore(cfg: Config, sc: Scene, store: SP.Store)
    requires sc.engine.Some?
    ensures var t, refs := sc.(store := store), sc.engine.value.spec.refs;
            && (ReachesStorage(sc) ==> ReachesStorage(t))
            && (AllThere(sc, refs) ==> StatusesOf(t, refs) == StatusesOf(sc, refs))
  {
    var t, refs := sc.(store := store), sc.engine.value.spec.refs;
    if AllThere(sc, refs) {
      assert StatusesOf(t, refs) == StatusesOf(sc, refs);
    }
  }

  // Where the calls of a pass that reaches storage stop.
  lemma StoreReached(cfg: Config, protection: set<string>, sc: Scene)
    requires ReachesStorage(sc)
    ensures var refs, n := sc.engine.value.spec.refs, MountedPairs(cfg, sc);
            EngineStore(cfg, protection, sc) ==
            Mirrored(cfg, protection, sc, refs, StatusesOf(sc, refs), if n < |refs| then n + 1 else |refs|)
  {
    hide SP.Mountable, RequestFor, Mirrored, EngineGpu.GpuAvailable, FirstUnmountable;
    var refs := sc.engine.value.spec.refs;
    var copies := StatusesOf(sc, refs);
    forall i | 0 <= i < |refs| ensures copies[i].phase == ReadyPhase {
      assert copies[i] == sc.repos[refs[i]];
    }
  }

  lemma FirstIs(cfg: Config, sc: Scene, n: nat)
    requires sc.engine.Some? && AllThere(sc, sc.engine.value.spec.refs)
    ensures var refs, m := sc.engine.value.spec.refs, MountedPairs(cfg, sc);
            && m <= |refs| && (m < |refs| ==> !Mounts(cfg, sc, refs[m]))
            && (forall j | 0 <= j < m :: Mounts(cfg, sc, refs[j]))
            && (n <= |refs| && (forall j | 0 <= j < n :: Mounts(cfg, sc, refs[j])) ==> n <= m)
  {
    hide SP.Mountable, RequestFor;
  }

  /** A mountable pair stays so as long as its claim is left alone, or only bound. */
  lemma StaysMounted(cfg: Config, sc: Scene, r: string, s: SP.Store, key: SP.Key)
    requires r in sc.repos && Mounts(cfg, sc, r)
    requires forall k | k in sc.store.pvcs :: k in s.pvcs && s.pvcs[k] == sc.store.pvcs[k]
    ensures Mounts(cfg, sc.(store := s), r) && Mounts(cfg, sc.(store := SP.AfterBinding(s, key)), r)
  {
    hide Names.NameOf;
    assert RequestFor(cfg, sc.(store := s), r, sc.repos[r]) == RequestFor(cfg, sc, r, sc.repos[r]);
    assert RequestFor(cfg, sc.(store := SP.AfterBinding(s, key)), r, sc.repos[r]) == RequestFor(cfg, sc, r, sc.repos[r]);
  }

  /** Once its claim was made and bound, the pair can be mounted. */
  lemma MountsOnceBound(cfg: Config, protection: set<string>, sc: Scene, r: string, s: SP.Store)
    requires r in sc.repos && CanMount(cfg, sc.(store := s), r)
    ensures var t := SP.Ensured(RequestFor(cfg, sc, r, sc.repos[r]), s, protection, {}).1;
            Mounts(cfg, sc.(store := SP.AfterBinding(t, ClaimKey(cfg, r))), r)
  {
    hide SP.Ensured, SP.Bindable, SP.Mountable, SP.AfterBinding, Names.NameOf;
    var q := RequestFor(cfg, sc, r, sc.repos[r]);
    var t := SP.AfterBinding(SP.Ensured(q, s, protection, {}).1, ClaimKey(cfg, r));
    assert RequestFor(cfg, sc.(store := s), r, sc.repos[r]) == q && RequestFor(cfg, sc.(store := t), r, sc.repos[r]) == q;
    SP.TwoCallsSucceed(q, s, protection);
    SP.SucceedsExactly(q, t, protection);
  }

  /** Repositories and GPUs are in order, and every pair can be mounted sooner or later. */
  predicate Settling(cfg: Config, sc: Scene) {
    ReachesStorage(sc) && forall r | r in sc.engine.value.spec.refs :: CanMount(cfg, sc, r)
  }

  lemma SettlingMeans(cfg: Config, sc: Scene)
    ensures Settling(cfg, sc) <==> ReachesStorage(sc) && forall r | r in sc.engine.value.spec.refs :: CanMount(cfg, sc, r)
    ensures ReachesStorage(sc) ==> sc.engine.Some? && AllThere(sc, sc.engine.value.spec.refs)
  {
  }

  // A round whose pass made no claim: every pair was mountable, and is.
  lemma RoundKeeps(cfg: Config, protection: set<string>, sc: Scene)
    requires Settling(cfg, sc) && MountedPairs(cfg, sc) == |sc.engine.value.spec.refs|
    ensures var t := AfterRound(cfg, protection, sc);
            Settling(cfg, t) && MountedPairs(cfg, t) == |sc.engine.value.spec.refs|
  {
    hide CanMount, Mounts, Mirrored, SP.Ensured, SP.AfterBinding, FirstUnmountable, EngineStore, ReachesStorage, StatusesOf;
    SettlingMeans(cfg, sc);
    var refs, t := sc.engine.value.spec.refs, AfterRound(cfg, protection, sc);
    StoreReached(cfg, protection, sc);
    FirstIs(cfg, sc, 0);
    SameButStore(cfg, sc, t.store);
    forall r | r in refs ensures CanMount(cfg, t, r) && Mounts(cfg, t, r) {
      MirroredKeeps(cfg, protection, sc, refs, |refs|, r);
      StaysMounted(cfg, sc, r, t.store, ClaimKey(cfg, r));
    }
    FirstIs(cfg, t, |refs|);
  }

  lemma RoundIs(cfg: Config, protection: set<string>, sc: Scene)
    requires ReachesStorage(sc) && MountedPairs(cfg, sc) < |sc.engine.value.spec.refs|
    ensures var refs, n := sc.engine.value.spec.refs, MountedPairs(cfg, sc);
            var copies := StatusesOf(sc, refs);
            var s, made := Mirrored(cfg, protection, sc, refs, copies, n), Mirrored(cfg, protection, sc, refs, copies, n + 1);
            && AfterRound(cfg, protection, sc) == sc.(store := SP.AfterBinding(made, ClaimKey(cfg, refs[n])))
            && made == SP.Ensured(RequestFor(cfg, sc, refs[n], sc.repos[refs[n]]), s, protection, {}).1
            && forall k | k in s.pvcs :: k in made.pvcs && made.pvcs[k] == s.pvcs[k]
  {
    hide SP.Ensured, SP.AfterBinding, EngineStore, Names.NameOf, FirstUnmountable;
    var refs, n := sc.engine.value.spec.refs, MountedPairs(cfg, sc);
    StoreReached(cfg, protection, sc);
    SP.EnsureOnlyAdds(RequestFor(cfg, sc, refs[n], sc.repos[refs[n]]),
                      Mirrored(cfg, protection, sc, refs, StatusesOf(sc, refs), n), protection, {});
  }

  // One whose pass made or waited for the claim of the first pair that could not be mounted.
  lemma RoundAdvances(cfg: Config, protection: set<string>, sc: Scene)
    requires Settling(cfg, sc)
    ensures MountedPairs(cfg, sc) < |sc.engine.value.spec.refs| ==>
              var t := AfterRound(cfg, protection, sc);
              Settling(cfg, t) && MountedPairs(cfg, t) > MountedPairs(cfg, sc)
  {
    hide *;
    SettlingMeans(cfg, sc);
    FirstIs(cfg, sc, 0);
    if MountedPairs(cfg, sc) >= |sc.engine.value.spec.refs| {
      return;
    }
    var refs, n, t := sc.engine.value.spec.refs, MountedPairs(cfg, sc), AfterRound(cfg, protection, sc);
    var s := Mirrored(cfg, protection, sc, refs, StatusesOf(sc, refs), n);
    var made := Mirrored(cfg, protection, sc, refs, StatusesOf(sc, refs), n + 1);
    RoundIs(cfg, protection, sc);
    SameButStore(cfg, sc, t.store);
    SettlingMeans(cfg, t);
    forall r | r in refs ensures CanMount(cfg, sc.(store := s), r) && CanMount(cfg, t, r) && s.pvcs == sc.store.pvcs {
      MirroredKeeps(cfg, protection, sc, refs, n, r);
      MirroredKeeps(cfg, protection, sc, refs, n + 1, r);
      CanMountAfterCall(cfg, protection, sc, refs[n], r, made);
    }
    MountsOnceBound(cfg, protection, sc, refs[n], s);
    forall j | 0 <= j < n ensures Mounts(cfg, t, refs[j]) {
      StaysMounted(cfg, sc, refs[j], made, ClaimKey(cfg, refs[n]));
    }
    FirstIs(cfg, t, n + 1);
  }

  /** Each round of a pass and a binding makes one more pair mountable, until all are: after as many
      rounds as there are references every pair is, and a pass deploys the models. */
  lemma {:induction false} StorageSettles(cfg: Config, protection: set<string>, sc: Scene, n: nat)
    requires Settling(cfg, sc)
    ensures var t, refs := AfterRounds(cfg, protection, sc, n), sc.engine.value.spec.refs;
            && Settling(cfg, t) && (MountedPairs(cfg, t) >= n || MountedPairs(cfg, t) == |refs|)
            && (n >= |refs| ==>
                  && (forall r | r in refs :: Mounts(cfg, t, r))
                  && EngineVerdict(cfg, t).Some? && EngineVerdict(cfg, t).value.Deployed?)
    decreases n
  {
    hide *;
    SettlingMeans(cfg, sc);
    RoundsNext(cfg, protection, sc, n);
    var t := AfterRounds(cfg, protection, sc, n);
    if n > 0 {
      var before := AfterRounds(cfg, protection, sc, n - 1);
      StorageSettles(cfg, protection, sc, n - 1);
      RoundsNext(cfg, protection, sc, n - 1);
      FirstIs(cfg, before, 0);
      if MountedPairs(cfg, before) == |sc.engine.value.spec.refs| {
        RoundKeeps(cfg, protection, before);
      } else {
        RoundAdvances(cfg, protection, before);
      }
    }
    SettlingMeans(cfg, t);
    FirstIs(cfg, t, 0);
    if n >= |sc.engine.value.spec.refs| {
      ThenDeploys(cfg, t);
    }
  }

  lemma RoundsNext(cfg: Config, protection: set<string>, sc: Scene, n: nat)
    requires sc.engine.Some? && AllThere(sc, sc.engine.value.spec.refs)
    ensures var t := AfterRounds(cfg, protection, sc, n);
            && t.engine == sc.engine && AllThere(t, sc.engine.value.spec.refs)
            && t == if n == 0 then sc else AfterRound(cfg, protection, AfterRounds(cfg, protection, sc, n - 1))
  {
    hide AfterRound;
  }

  lemma ThenDeploys(cfg: Config, sc: Scene)
    requires ReachesStorage(sc) && MountedPairs(cfg, sc) >= |sc.engine.value.spec.refs|
    ensures forall r | r in sc.engine.value.spec.refs :: Mounts(cfg, sc, r)
    ensures EngineVerdict(cfg, sc).Some? && EngineVerdict(cfg, sc).value.Deployed?
  {
    hide Mounts, MountedPairs;
    FirstIs(cfg, sc, 0);
    LateObstacles(cfg, sc);
  }
}
