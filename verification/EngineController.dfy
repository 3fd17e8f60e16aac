/** The engine controller: the checks that gate deployment, the readiness summary, and deletion. */
module EngineController {
  import opened Common
  import opened Status
  import opened EngineWorld
  import EngineGpu
  import opened EngineProgress
  import opened EngineTeardown
  import Index = ReferenceIndex
  import Names
  import SP = StoragePair

  const RETRY_STEPS := 5

  /** As many attempts as the client library's default. */
  lemma Attempts()
    ensures RETRY_STEPS == 5
  {
  }

  datatype Control = Continue | Requeue | Error | Panicked

  // ---------------------------------------------------------------- status

  lemma NowEngine(w: World)
    ensures w.Now().engine == w.engine
  {
  }

  lemma QuietIsStill(w: World)
    requires w.Valid()
    ensures w.quiet ==> w.still
  {
  }

  lemma StoredIsSet(sc: Scene, m: EngineMutation)
    requires sc.engine.Some?
    ensures var status := ApplyEngine(m, sc.engine.value.status);
            if status == sc.engine.value.status then StatusSet(sc, sc, m) else StatusSet(sc, StatusStored(sc, status), m)
  {
  }

  /** Fetch a fresh copy, mutate it, write it if it changed; up to five times on conflict. */
  method SyncStatus(w: World, p: Pass, m: EngineMutation) returns (ok: bool)
    requires w.Valid() && SafeEvent(w.cfg, w.log, StatusWritten(p, m))
    modifies w, w.cluster, w.repos
    ensures w.Valid() && old(w.log) <= w.log && CurrentPass(w.log) == CurrentPass(old(w.log))
    ensures w.quiet && old(w.Now()).engine.Some? ==> StatusSet(old(w.Now()), w.Now(), m)
  {
    var attempt := 0;
    while attempt < RETRY_STEPS
      invariant w.Valid() && w.log == old(w.log)
      invariant w.quiet ==> attempt == 0 && w.Now() == old(w.Now())
    {
      hide *;
      QuietIsStill(w);
      NowEngine(w);
      var r := w.GetEngine();
      if !r.Found? {
        return false;
      }
      var copy := r.value;
      NowEngine(w);
      StoredIsSet(w.Now(), m);
      if ApplyEngine(m, copy.status) == copy.status {
        return true;
      }
      var written := w.UpdateStatus(copy, m, p);
      if !written.Conflict? {
        return written.Done?;
      }
      attempt := attempt + 1;
    }
    return false;
  }

  method SetNotReady(w: World, p: Pass, reason: Reason, message: string)
    requires w.Valid() && SafeEvent(w.cfg, w.log, StatusWritten(p, NotReady(reason, message)))
    modifies w, w.cluster, w.repos
    ensures w.Valid() && old(w.log) <= w.log
    ensures w.quiet && old(w.Now()).engine.Some? ==> StatusSet(old(w.Now()), w.Now(), NotReady(reason, message))
  {
    var _ := SyncStatus(w, p, NotReady(reason, message));
  }

  // ---------------------------------------------------------------- the gate

  predicate ReadAs(log: History, since: nat, refs: seq<string>, copies: seq<RepoStatus>) {
    |copies| <= |refs| && forall i | 0 <= i < |copies| :: Saw(log, since, RepoRead(refs[i], copies[i]))
  }

  lemma ReadNext(log: History, since: nat, refs: seq<string>, copies: seq<RepoStatus>, c: RepoStatus)
    requires ReadAs(log, since, refs, copies) && |copies| < |refs| && since <= |log|
    ensures ReadAs(log + [RepoRead(refs[|copies|], c)], since, refs, copies + [c])
  {
    var e := RepoRead(refs[|copies|], c);
    forall i | 0 <= i < |copies| ensures Saw(log + [e], since, RepoRead(refs[i], copies[i])) {
      SawKept(log, log + [e], since, RepoRead(refs[i], copies[i]));
    }
    SawLast(log, since, e);
  }

  lemma NowRepos(w: World)
    ensures w.Now().repos == w.repos.status
  {
  }

  /** Read every referenced repository; None if one is missing or cannot be read. */
  method FetchModelRepositories(w: World, refs: seq<string>, since: nat) returns (r: Option<seq<RepoStatus>>)
    requires w.Valid() && since <= |w.log|
    modifies w, w.cluster, w.repos
    ensures w.Valid() && old(w.log) <= w.log && CurrentPass(w.log) == CurrentPass(old(w.log))
    ensures r.Some? ==> |r.value| == |refs| && ReadAs(w.log, since, refs, r.value)
    ensures r.None? ==> refs != []
    ensures w.quiet ==> w.Now() == old(w.Now()) && (r.Some? <==> forall x | x in refs :: x in w.Now().repos)
    ensures w.quiet && r.Some? ==> r.value == StatusesOf(w.Now(), refs)
  {
    var copies := [];
    for i := 0 to |refs|
      invariant w.Valid() && old(w.log) <= w.log && CurrentPass(w.log) == CurrentPass(old(w.log))
      invariant |copies| == i && ReadAs(w.log, since, refs, copies)
      invariant w.quiet ==> w.Now() == old(w.Now())
      invariant w.quiet ==> forall j | 0 <= j < i :: refs[j] in w.Now().repos && copies[j] == w.Now().repos[refs[j]]
    {
      hide *;
      ghost var before := w.log;
      var got := w.GetRepo(refs[i]);
      NowRepos(w);
      if !got.Found? {
        return None;
      }
      ReadNext(before, since, refs, copies, got.value);
      copies := copies + [got.value];
    }
    return Some(copies);
  }

  /** The first repository that is not ready, if any. */
  method FirstUnready(copies: seq<RepoStatus>) returns (at: nat)
    ensures at == FirstUnreadyAt(copies)
  {
    at := 0;
    while at < |copies| && copies[at].phase == ReadyPhase
      invariant at <= |copies| && forall i | 0 <= i < at :: copies[i].phase == ReadyPhase
    {
      at := at + 1;
    }
  }

  lemma GateOpens(cfg: Config, read: History, checked: History, log: History, p: Pass)
    requires ReadAs(read, p.since, p.refs, p.copies) && |p.copies| == |p.refs| && read <= checked <= log
    requires forall i | 0 <= i < |p.copies| :: p.copies[i].phase == ReadyPhase
    requires GpuOk(checked, p) && ClaimsBound(cfg, log, p, |p.refs|) && Began(log, p)
    ensures Gate(cfg, log, p)
  {
  }

  lemma SawSince(log: History, since: nat, later: nat, e: Event)
    requires since <= later && Saw(log, later, e)
    ensures Saw(log, since, e)
  {
  }

  /** The GPU check, if the engine asks for GPUs. */
  method PassGpu(w: World, p: Pass) returns (ok: bool)
    requires w.Valid() && p.since <= |w.log|
    modifies w, w.cluster, w.repos
    ensures w.Valid() && old(w.log) <= w.log && CurrentPass(w.log) == CurrentPass(old(w.log))
    ensures if ok then GpuOk(w.log, p) else p.gpu.Some?
    ensures w.quiet ==> w.Now() == old(w.Now())
                        && (ok <==> (p.gpu.Some? ==> EngineGpu.GpuAvailable(p.gpu.value, p.copies, w.Now().nodes)))
  {
    if p.gpu.None? {
      return true;
    }
    ok := w.CheckGpu(p.gpu.value, p.copies);
    if ok {
      assert GpuOk(w.log, p) by {
        var k :| |old(w.log)| <= k < |w.log| && w.log[k].GpuPassed? && w.log[k].gpu == p.gpu.value
                 && EngineGpu.NodeDemanded(p.copies, w.log[k].node.name);
        assert p.since <= k;
      }
    }
  }

  lemma ClaimsBoundNext(cfg: Config, log: History, longer: History, p: Pass, n: nat)
    requires n < |p.refs| && ClaimsBound(cfg, log, p, n) && log <= longer && p.since <= |log|
    requires Saw(longer, |log|, ClaimSeenBound(ClaimKey(cfg, p.refs[n])))
    ensures ClaimsBound(cfg, longer, p, n + 1)
  {
    ClaimsBoundKept(cfg, log, longer, p, n);
    SawSince(longer, p.since, |log|, ClaimSeenBound(ClaimKey(cfg, p.refs[n])));
  }

  /** Without interference: only the store has changed, by the calls for the first n pairs, no
      claim in it, and those pairs were mountable. */
  predicate PreparedTo(cfg: Config, protection: set<string>, a: Scene, b: Scene, p: Pass, n: nat) {
    && n <= |p.refs| == |p.copies|
    && b == a.(store := Mirrored(cfg, protection, a, p.refs, p.copies, n)) && b.store.pvcs == a.store.pvcs
    && forall j | 0 <= j < n :: SP.Mountable(RequestFor(cfg, a, p.refs[j], p.copies[j]), a.store)
  }

  /** The first pair that cannot be mounted, and whether it panics. */
  predicate StopsAt(cfg: Config, sc: Scene, p: Pass, n: nat, panics: bool) {
    && n < |p.refs| == |p.copies|
    && (forall j | 0 <= j < n :: SP.Mountable(RequestFor(cfg, sc, p.refs[j], p.copies[j]), sc.store))
    && !SP.Mountable(RequestFor(cfg, sc, p.refs[n], p.copies[n]), sc.store)
    && (panics <==> SP.Panics(RequestFor(cfg, sc, p.refs[n], p.copies[n])))
  }

  lemma PreparedNext(cfg: Config, protection: set<string>, a: Scene, b: Scene, c: Scene, p: Pass, n: nat, r: Outcome<SP.Mounted>)
    requires n < |p.refs| && PreparedTo(cfg, protection, a, b, p, n) && c == b.(store := c.store)
    ensures c == a.(store := c.store)
    ensures (r, c.store) == SP.Ensured(RequestFor(cfg, b, p.refs[n], p.copies[n]), b.store, protection, {}) ==>
              && c.store == Mirrored(cfg, protection, a, p.refs, p.copies, n + 1)
              && if r.Ok? then PreparedTo(cfg, protection, a, c, p, n + 1) else StopsAt(cfg, a, p, n, r.Panic?)
  {
    hide SP.Ensured, SP.Mountable, SP.Panics, Names.NameOf;
    SP.SucceedsExactly(RequestFor(cfg, b, p.refs[n], p.copies[n]), b.store, protection);
    SameRequest(cfg, a, b, p.refs[n], p.copies[n]);
  }

  lemma SameRequest(cfg: Config, a: Scene, b: Scene, repo: string, st: RepoStatus)
    requires b == a.(store := b.store) && b.store.pvcs == a.store.pvcs
    ensures RequestFor(cfg, a, repo, st) == RequestFor(cfg, b, repo, st)
    ensures SP.Mountable(RequestFor(cfg, a, repo, st), a.store) <==> SP.Mountable(RequestFor(cfg, b, repo, st), b.store)
  {
  }

  /** Each repository's claim, in the order of the references. */
  predicate ClaimsFor(cfg: Config, refs: seq<string>, claims: seq<string>) {
    |claims| <= |refs| && forall i | 0 <= i < |claims| :: claims[i] == ClaimKey(cfg, refs[i]).1
  }

  lemma ClaimsForNext(cfg: Config, refs: seq<string>, claims: seq<string>)
    requires ClaimsFor(cfg, refs, claims) && |claims| < |refs|
    ensures ClaimsFor(cfg, refs, claims + [ClaimKey(cfg, refs[|claims|]).1])
  {
    hide Names.NameOf, ClaimKey;
  }

  /** Prepare the storage of one reference, the earlier ones being prepared. */
  method PrepareOne(w: World, p: Pass, ghost begun: Scene, at: nat) returns (r: Outcome<SP.Mounted>)
    requires w.Valid() && p.since <= |w.log| && at < |p.refs| == |p.copies| && ClaimsBound(w.cfg, w.log, p, at)
    requires w.quiet ==> PreparedTo(w.cfg, w.cluster.protection, begun, w.Now(), p, at)
    modifies w, w.cluster, w.repos
    ensures w.Valid() && old(w.log) <= w.log && CurrentPass(w.log) == CurrentPass(old(w.log))
    ensures r.Ok? ==> ClaimsBound(w.cfg, w.log, p, at + 1) && r.value.pvcName == ClaimKey(w.cfg, p.refs[at]).1
    ensures w.quiet && r.Ok? ==> PreparedTo(w.cfg, w.cluster.protection, begun, w.Now(), p, at + 1)
    ensures w.quiet && !r.Ok? ==>
              && StopsAt(w.cfg, begun, p, at, r.Panic?) && w.Now() == begun.(store := w.Now().store)
              && w.Now().store == Mirrored(w.cfg, w.cluster.protection, begun, p.refs, p.copies, at + 1)
  {
    hide *;
    ghost var before, b := w.log, w.Now();
    r := w.EnsureStorage(p.refs[at], p.copies[at]);
    if w.quiet {
      PreparedNext(w.cfg, w.cluster.protection, begun, b, w.Now(), p, at, r);
    }
    if r.Ok? {
      ClaimsBoundNext(w.cfg, before, w.log, p, at);
    }
  }

  lemma NothingPrepared(cfg: Config, protection: set<string>, log: History, sc: Scene, p: Pass)
    requires |p.refs| == |p.copies|
    ensures PreparedTo(cfg, protection, sc, sc, p, 0) && ClaimsBound(cfg, log, p, 0) && ClaimsFor(cfg, p.refs, [])
    ensures forall t :: PreparedTo(cfg, protection, sc, t, p, |p.refs|) ==> t == sc.(store := t.store)
  {
  }

  /** Prepare every repository's storage, stopping at the first that is not bound. */
  method PrepareStorage(w: World, p: Pass) returns (r: Outcome<seq<string>>, at: nat)
    requires w.Valid() && p.since <= |w.log| && |p.copies| == |p.refs|
    modifies w, w.cluster, w.repos
    ensures w.Valid() && old(w.log) <= w.log && CurrentPass(w.log) == CurrentPass(old(w.log))
    ensures r.Ok? ==> |r.value| == |p.refs| && ClaimsBound(w.cfg, w.log, p, |p.refs|) && ClaimsFor(w.cfg, p.refs, r.value)
    ensures !r.Ok? ==> at < |p.refs|
    ensures w.quiet ==> w.Now() == old(w.Now()).(store := w.Now().store)
    ensures w.quiet && r.Ok? ==> PreparedTo(w.cfg, w.cluster.protection, old(w.Now()), w.Now(), p, |p.refs|)
    ensures w.quiet && !r.Ok? ==>
              && StopsAt(w.cfg, old(w.Now()), p, at, r.Panic?)
              && w.Now().store == Mirrored(w.cfg, w.cluster.protection, old(w.Now()), p.refs, p.copies, at + 1)
  {
    hide *;
    var claims := [];
    at := 0;
    NothingPrepared(w.cfg, w.cluster.protection, w.log, w.Now(), p);
    while at < |p.refs|
      invariant at <= |p.refs| && w.Valid() && old(w.log) <= w.log && CurrentPass(w.log) == CurrentPass(old(w.log))
      invariant |claims| == at && ClaimsFor(w.cfg, p.refs, claims) && ClaimsBound(w.cfg, w.log, p, at)
      invariant w.quiet ==> PreparedTo(w.cfg, w.cluster.protection, old(w.Now()), w.Now(), p, at)
    {
      var one := PrepareOne(w, p, old(w.Now()), at);
      if !one.Ok? {
        return if one.Panic? then Panic else Err, at;
      }
      ClaimsForNext(w.cfg, p.refs, claims);
      claims := claims + [one.value.pvcName];
      at := at + 1;
    }
    return Ok(claims), at;
  }

  // ---------------------------------------------------------------- deployments

  lemma FoundReadyNext(cfg: Config, log: History, applied: History, seen: History, p: Pass, n: nat)
    requires n < |p.refs| && FoundReady(cfg, log, p, n) && log <= applied <= seen && p.since <= |applied|
    requires Saw(applied, p.since, AppliedEvent(cfg, p, p.refs[n]))
    requires Saw(seen, |applied|, DeploymentReady(Names.LookupName(cfg.name, p.refs[n])))
    ensures FoundReady(cfg, seen, p, n + 1)
  {
    FoundReadyKept(cfg, log, seen, p, n);
    SawKept(applied, seen, p.since, AppliedEvent(cfg, p, p.refs[n]));
    SawSince(seen, p.since, |applied|, DeploymentReady(Names.LookupName(cfg.name, p.refs[n])));
  }

  /** Every model's deployment created, unless it exists. */
  function RolledOut(cfg: Config, refs: seq<string>, deployments: map<string, nat>): map<string, nat> {
    if refs == [] then deployments
    else
      var last := |refs| - 1;
      WithDeployment(RolledOut(cfg, refs[..last], deployments), Names.ComponentName(cfg.h, cfg.name, refs[last]))
  }

  /** A roll-out adds exactly the models' deployments that are missing, none of them ready. */
  lemma {:induction false} RollOutAdds(cfg: Config, refs: seq<string>, deployments: map<string, nat>, name: string)
    ensures var t := RolledOut(cfg, refs, deployments);
            && (name in t <==> name in deployments || exists r | r in refs :: name == Names.ComponentName(cfg.h, cfg.name, r))
            && (name in deployments ==> name in t && t[name] == deployments[name])
            && (name in t && name !in deployments ==> t[name] == 0)
    decreases |refs|
  {
    hide Names.ComponentName;
    if refs != [] {
      var last := |refs| - 1;
      RollOutAdds(cfg, refs[..last], deployments, name);
      assert refs == refs[..last] + [refs[last]];
    }
  }

  /** How many of the models have a ready deployment under their lookup name. */
  function ReadyCount(cfg: Config, refs: seq<string>, deployments: map<string, nat>): (count: nat)
    ensures count <= |refs|
    ensures count == |refs| <==> forall r | r in refs :: HasReady(deployments, Names.LookupName(cfg.name, r))
  {
    if refs == [] then 0
    else
      var last := |refs| - 1;
      assert refs == refs[..last] + [refs[last]];
      ReadyCount(cfg, refs[..last], deployments) + if HasReady(deployments, Names.LookupName(cfg.name, refs[last])) then 1 else 0
  }

  /** Without interference: the first n models are rolled out, and count of them were found ready. */
  predicate DeployedTo(cfg: Config, a: Scene, b: Scene, refs: seq<string>, n: nat, count: nat) {
    && n <= |refs| && b == a.(deployments := RolledOut(cfg, refs[..n], a.deployments))
    && count == ReadyCount(cfg, refs[..n], a.deployments)
  }

  lemma DeployedNext(cfg: Config, a: Scene, b: Scene, c: Scene, refs: seq<string>, n: nat, count: nat, ready: bool)
    requires n < |refs|
    requires c == b.(deployments := WithDeployment(b.deployments, Names.ComponentName(cfg.h, cfg.name, refs[n])))
    ensures DeployedTo(cfg, a, b, refs, n, count) && (ready <==> HasReady(c.deployments, Names.LookupName(cfg.name, refs[n]))) ==>
              DeployedTo(cfg, a, c, refs, n + 1, if ready then count + 1 else count)
  {
    hide Names.ComponentName, Names.LookupName, WithDeployment;
    assert refs[..n + 1][..n] == refs[..n];
    RollOutAdds(cfg, refs[..n + 1], a.deployments, Names.LookupName(cfg.name, refs[n]));
  }

  lemma NothingDeployed(cfg: Config, log: History, sc: Scene, p: Pass)
    ensures FoundReady(cfg, log, p, 0) && DeployedTo(cfg, sc, sc, p.refs, 0, 0)
  {
  }

  lemma ClaimAt(cfg: Config, refs: seq<string>, claims: seq<string>, i: nat)
    requires ClaimsFor(cfg, refs, claims) && i < |claims|
    ensures claims[i] == ClaimKey(cfg, refs[i]).1
  {
  }

  /** Apply one model and look its deployment up. */
  method DeployOne(w: World, p: Pass, claims: seq<string>, i: nat) returns (ok: bool, ready: bool)
    requires w.Valid() && p.since <= |w.log| && Gate(w.cfg, w.log, p)
    requires i < |p.refs| == |claims| && claims[i] == ClaimKey(w.cfg, p.refs[i]).1
    modifies w, w.cluster, w.repos
    ensures w.Valid() && old(w.log) <= w.log && Gate(w.cfg, w.log, p)
    ensures ok && ready && FoundReady(w.cfg, old(w.log), p, i) ==> FoundReady(w.cfg, w.log, p, i + 1)
    ensures w.quiet ==>
              && ok
              && w.Now() == old(w.Now()).(
                   deployments := WithDeployment(old(w.Now()).deployments, Names.ComponentName(w.cfg.h, w.cfg.name, p.refs[i])))
              && (ready <==> HasReady(w.Now().deployments, Names.LookupName(w.cfg.name, p.refs[i])))
  {
    hide *;
    ok := w.Apply(p, p.refs[i], claims[i]);
    ready := false;
    if ok {
      ghost var applied := w.log;
      ready := w.IsDeploymentReady(Names.LookupName(w.cfg.name, p.refs[i]));
      NowDeployments(w);
      if ready && FoundReady(w.cfg, old(w.log), p, i) {
        FoundReadyNext(w.cfg, old(w.log), applied, w.log, p, i);
      }
    }
    GateKept(w.cfg, old(w.log), w.log, p);
  }

  lemma NowDeployments(w: World)
    ensures w.Now().deployments == w.deployments
  {
  }

  /** Apply every model and count those whose deployment is found ready; stop at the first that
      cannot be applied. */
  method DeployAll(w: World, p: Pass, claims: seq<string>) returns (r: Option<nat>, at: nat)
    requires w.Valid() && p.since <= |w.log| && Gate(w.cfg, w.log, p)
    requires |claims| == |p.refs| && ClaimsFor(w.cfg, p.refs, claims)
    modifies w, w.cluster, w.repos
    ensures w.Valid() && old(w.log) <= w.log
    ensures Gate(w.cfg, w.log, p)
    ensures r.Some? ==> r.value <= |p.refs| && (r.value == |p.refs| ==> FoundReady(w.cfg, w.log, p, |p.refs|))
    ensures r.None? ==> at < |p.refs|
    ensures w.quiet ==> r.Some? && DeployedTo(w.cfg, old(w.Now()), w.Now(), p.refs, |p.refs|, r.value)
  {
    hide *;
    var totalReady: nat := 0;
    at := 0;
    NothingDeployed(w.cfg, w.log, w.Now(), p);
    while at < |p.refs|
      invariant at <= |p.refs| && w.Valid() && old(w.log) <= w.log && Gate(w.cfg, w.log, p)
      invariant totalReady <= at && (totalReady == at ==> FoundReady(w.cfg, w.log, p, at))
      invariant w.quiet ==> DeployedTo(w.cfg, old(w.Now()), w.Now(), p.refs, at, totalReady)
    {
      ghost var b := w.Now();
      ClaimAt(w.cfg, p.refs, claims, at);
      var ok, ready := DeployOne(w, p, claims, at);
      if w.quiet {
        DeployedNext(w.cfg, old(w.Now()), b, w.Now(), p.refs, at, totalReady, ready);
      }
      if !ok {
        return None, at;
      }
      totalReady := if ready then totalReady + 1 else totalReady;
      at := at + 1;
    }
    return Some(totalReady), at;
  }

  // ---------------------------------------------------------------- one pass

  /** The engine holds the mutated status and is otherwise as it was. */
  predicate StatusIs(before: Scene, after: Scene, m: EngineMutation) {
    && before.engine.Some?
    && after.engine == Some(Restatused(before.engine.value, ApplyEngine(m, before.engine.value.status)))
  }

  lemma SetOver(before: Scene, now: Scene, after: Scene, m: EngineMutation)
    requires now.engine == before.engine
    ensures StatusSet(now, after, m) ==> StatusIs(before, after, m)
    ensures StatusSet(now, after, m) && Unrolled(before, now) ==> Unrolled(before, after)
  {
  }

  /** Every model is rolled out, and every referenced repository has its index. */
  ghost predicate Rolled(cfg: Config, before: Scene, after: Scene, refs: seq<string>) {
    && after.deployments == RolledOut(cfg, refs, before.deployments)
    && Index.Indexed(before.repos, after.repos, before.engines, refs)
  }

  /** Nothing is deployed and no index written. */
  predicate Unrolled(before: Scene, after: Scene) { after.deployments == before.deployments && after.repos == before.repos }

  /** What a pass with this verdict answers. */
  function ControlOf(verdict: Option<EngineMutation>): Control {
    match verdict
    case None => Panicked
    case Some(m) => if m.Deployed? || m == FETCH_FAILED then Continue else Requeue
  }

  /** What an undisturbed pass leaves behind: the verdict in the status, the store as its calls make
      it, and a roll-out exactly if that is the verdict. */
  ghost predicate EndsAs(cfg: Config, before: Scene, after: Scene, refs: seq<string>,
                         verdict: Option<EngineMutation>, store: SP.Store, ctl: Control)
  {
    && ctl == ControlOf(verdict) && before.engine.Some? && after.store == store
    && (match verdict
        case None => after.engine == before.engine
        case Some(m) => StatusIs(before, after, m))
    && if verdict.Some? && verdict.value.Deployed? then Rolled(cfg, before, after, refs) else Unrolled(before, after)
  }

  // The verdict, case by case, as the pass finds out.
  lemma WaitsForModels(cfg: Config, protection: set<string>, sc: Scene, after: Scene, p: Pass, at: nat)
    requires |p.refs| == |p.copies| && at == FirstUnreadyAt(p.copies) < |p.copies|
    ensures StatusSet(sc, after, Waiting(p.refs[at])) ==>
              EndsAs(cfg, sc, after, p.refs, DeployVerdict(cfg, sc, p.refs, p.gpu, p.copies),
                     DeployStore(cfg, protection, sc, p.refs, p.gpu, p.copies), Requeue)
  {
    hide ApplyEngine;
  }

  lemma LacksGpu(cfg: Config, protection: set<string>, sc: Scene, after: Scene, p: Pass)
    requires |p.refs| == |p.copies| == FirstUnreadyAt(p.copies)
    ensures StatusSet(sc, after, GPU_FAILED) && p.gpu.Some? && !EngineGpu.GpuAvailable(p.gpu.value, p.copies, sc.nodes) ==>
              EndsAs(cfg, sc, after, p.refs, DeployVerdict(cfg, sc, p.refs, p.gpu, p.copies),
                     DeployStore(cfg, protection, sc, p.refs, p.gpu, p.copies), Requeue)
  {
    hide ApplyEngine;
  }

  lemma LacksStorage(cfg: Config, protection: set<string>, sc: Scene, after: Scene, p: Pass, at: nat, panics: bool)
    requires |p.refs| == |p.copies| == FirstUnreadyAt(p.copies) && StopsAt(cfg, sc, p, at, panics)
    requires p.gpu.Some? ==> EngineGpu.GpuAvailable(p.gpu.value, p.copies, sc.nodes)
    ensures after.store == Mirrored(cfg, protection, sc, p.refs, p.copies, at + 1)
            && !panics && StatusIs(sc, after, Unbound(p.refs[at])) && Unrolled(sc, after) ==>
              EndsAs(cfg, sc, after, p.refs, DeployVerdict(cfg, sc, p.refs, p.gpu, p.copies),
                     DeployStore(cfg, protection, sc, p.refs, p.gpu, p.copies), Requeue)
    ensures after.store == Mirrored(cfg, protection, sc, p.refs, p.copies, at + 1)
            && panics && sc.engine.Some? && after.engine == sc.engine && Unrolled(sc, after) ==>
              EndsAs(cfg, sc, after, p.refs, DeployVerdict(cfg, sc, p.refs, p.gpu, p.copies),
                     DeployStore(cfg, protection, sc, p.refs, p.gpu, p.copies), Panicked)
  {
    hide SP.Mountable, SP.Panics, RequestFor, ApplyEngine, Mirrored;
    assert FirstUnmountable(cfg, sc, p.refs, p.copies) == at;
  }

  lemma RollsOut(cfg: Config, protection: set<string>, sc: Scene, prepared: Scene, deployed: Scene, after: Scene, p: Pass, count: nat)
    requires |p.refs| == |p.copies| == FirstUnreadyAt(p.copies)
    ensures (p.gpu.Some? ==> EngineGpu.GpuAvailable(p.gpu.value, p.copies, sc.nodes))
            && PreparedTo(cfg, protection, sc, prepared, p, |p.refs|) && DeployedTo(cfg, prepared, deployed, p.refs, |p.refs|, count)
            && StatusIs(sc, after, DeployedMutation(p.refs, count == |p.refs|)) && after.deployments == deployed.deployments
            && after.store == prepared.store && Index.Indexed(sc.repos, after.repos, sc.engines, p.refs) ==>
              EndsAs(cfg, sc, after, p.refs, DeployVerdict(cfg, sc, p.refs, p.gpu, p.copies),
                     DeployStore(cfg, protection, sc, p.refs, p.gpu, p.copies), Continue)
  {
    hide SP.Mountable, SP.Panics, RequestFor, Index.Indexed, EngineGpu.GpuAvailable, ApplyEngine, Names.LookupName, RolledOut, Mirrored;
    if PreparedTo(cfg, protection, sc, prepared, p, |p.refs|) && DeployedTo(cfg, prepared, deployed, p.refs, |p.refs|, count) {
      assert FirstUnmountable(cfg, sc, p.refs, p.copies) == |p.refs|;
      assert p.refs[..|p.refs|] == p.refs;
      assert count == |p.refs| <==> AllFoundReady(cfg, sc, p.refs);
    }
  }

  lemma SceneParts(cfg: Config, protection: set<string>, sc: Scene, prepared: Scene, deployed: Scene, p: Pass, count: nat)
    ensures PreparedTo(cfg, protection, sc, prepared, p, |p.refs|) && DeployedTo(cfg, prepared, deployed, p.refs, |p.refs|, count) ==>
              && deployed.engine == sc.engine && deployed.repos == sc.repos && deployed.engines == sc.engines
              && deployed.store == prepared.store
  {
  }

  lemma SetParts(now: Scene, after: Scene, m: EngineMutation)
    ensures StatusSet(now, after, m) ==> after.deployments == now.deployments && after.repos == now.repos && after.store == now.store
  {
  }

  /** A pass over an engine that is not being deleted, from the fetched repositories on. */
  method Deploy(w: World, p: Pass) returns (ctl: Control)
    requires w.Valid() && p.since <= |w.log| && p.refs != [] && Began(w.log, p)
    requires |p.copies| == |p.refs| && ReadAs(w.log, p.since, p.refs, p.copies)
    modifies w, w.cluster, w.repos
    ensures w.Valid() && old(w.log) <= w.log
    ensures w.quiet && old(w.Now()).engine.Some? ==>
              EndsAs(w.cfg, old(w.Now()), w.Now(), p.refs, DeployVerdict(w.cfg, old(w.Now()), p.refs, p.gpu, p.copies),
                     DeployStore(w.cfg, w.cluster.protection, old(w.Now()), p.refs, p.gpu, p.copies), ctl)
  {
    hide *;
    ghost var sc := w.Now();
    var at := FirstUnready(p.copies);
    if at < |p.copies| {
      WaitingIsSafe(w.cfg, w.log, p, at);
      var _ := SyncStatus(w, p, Waiting(p.refs[at]));
      WaitsForModels(w.cfg, w.cluster.protection, sc, w.Now(), p, at);
      return Requeue;
    }
    ghost var read := w.log;
    var gpuOk := PassGpu(w, p);
    BeganKept(read, w.log, p);
    AllReadyAt(p.copies);
    AllReadIn(read, w.log, p);
    if !gpuOk {
      ObstacleIsSafe(w.cfg, w.log, w.log, p, "");
      var _ := SyncStatus(w, p, GPU_FAILED);
      LacksGpu(w.cfg, w.cluster.protection, sc, w.Now(), p);
      return Requeue;
    }
    ghost var checked := w.log;
    var storage, unbound := PrepareStorage(w, p);
    ghost var prepared := w.Now();
    BeganKept(checked, w.log, p);
    if w.quiet {
      StoreOnly(sc, prepared);
    }
    if !storage.Ok? {
      if storage.Panic? {
        if w.quiet {
          LacksStorage(w.cfg, w.cluster.protection, sc, w.Now(), p, unbound, true);
        }
        return Panicked;
      }
      AllReadIn(read, w.log, p);
      ObstacleIsSafe(w.cfg, checked, w.log, p, p.refs[unbound]);
      var _ := SyncStatus(w, p, Unbound(p.refs[unbound]));
      if w.quiet {
        SetOver(sc, prepared, w.Now(), Unbound(p.refs[unbound]));
        SetParts(prepared, w.Now(), Unbound(p.refs[unbound]));
        LacksStorage(w.cfg, w.cluster.protection, sc, w.Now(), p, unbound, false);
      }
      return Requeue;
    }
    GateOpens(w.cfg, read, checked, w.log, p);
    var ready, failed := DeployAll(w, p, storage.value);
    if ready.None? {
      DeployedIsSafe(w.cfg, w.log, p, false, "Failed to reconcile model " + p.refs[failed]);
      SetNotReady(w, p, ReconcileFailed, "Failed to reconcile model " + p.refs[failed]);
      return Continue;
    }
    ghost var deployed := w.Now();
    w.UpdateIndex(p.refs);
    NowRepos(w);
    ghost var indexed := w.Now();
    var m := DeployedMutation(p.refs, ready.value == |p.refs|);
    DeployedIsSafe(w.cfg, w.log, p, ready.value == |p.refs|, "");
    var _ := SyncStatus(w, p, m);
    if w.quiet {
      SceneParts(w.cfg, w.cluster.protection, sc, prepared, deployed, p, ready.value);
      SetParts(indexed, w.Now(), m);
      SetOver(sc, indexed, w.Now(), m);
      RollsOut(w.cfg, w.cluster.protection, sc, prepared, deployed, w.Now(), p, ready.value);
    }
    return Continue;
  }

  lemma BeganKept(log: History, later: History, p: Pass)
    requires CurrentPass(later) == CurrentPass(log)
    ensures Began(later, p) <==> Began(log, p)
  {
  }

  lemma StoreOnly(a: Scene, b: Scene)
    requires b == a.(store := b.store)
    ensures Unrolled(a, b) && b.engine == a.engine
  {
  }

  lemma AllReadyAt(copies: seq<RepoStatus>)
    requires FirstUnreadyAt(copies) >= |copies|
    ensures forall i | 0 <= i < |copies| :: copies[i].phase == ReadyPhase
  {
  }

  // Each write is justified by what the pass found.
  lemma EarlyIsSafe(cfg: Config, log: History, p: Pass)
    requires Began(log, p)
    ensures p.refs == [] ==> SafeEvent(cfg, log, StatusWritten(p, NO_MODELS))
    ensures p.refs != [] ==> SafeEvent(cfg, log, StatusWritten(p, FETCH_FAILED))
    ensures FETCH_FAILED == NotReady(ModelRepositoryFetchFailed, "ModelRepository could not be fetched")
    ensures NO_MODELS == NotReady(NoModelsFound, "No ModelRepository resources found")
  {
  }

  lemma WaitingIsSafe(cfg: Config, log: History, p: Pass, at: nat)
    requires Began(log, p) && ReadAs(log, p.since, p.refs, p.copies) && at == FirstUnreadyAt(p.copies) < |p.copies|
    ensures SafeEvent(cfg, log, StatusWritten(p, Waiting(p.refs[at])))
  {
    assert Unready(log, p, at);
  }

  lemma AllReadIn(read: History, log: History, p: Pass)
    requires ReadAs(read, p.since, p.refs, p.copies) && |p.copies| == |p.refs| && read <= log
    requires forall i | 0 <= i < |p.copies| :: p.copies[i].phase == ReadyPhase
    ensures AllRead(log, p)
  {
  }

  lemma ObstacleIsSafe(cfg: Config, checked: History, log: History, p: Pass, repo: string)
    requires Began(log, p) && AllRead(log, p) && checked <= log && p.refs != []
    ensures p.gpu.Some? ==> SafeEvent(cfg, log, StatusWritten(p, GPU_FAILED))
    ensures GpuOk(checked, p) ==> SafeEvent(cfg, log, StatusWritten(p, Unbound(repo)))
  {
  }

  lemma DeployedIsSafe(cfg: Config, log: History, p: Pass, allReady: bool, message: string)
    requires Gate(cfg, log, p) && p.refs != [] && (allReady ==> FoundReady(cfg, log, p, |p.refs|))
    ensures SafeEvent(cfg, log, StatusWritten(p, DeployedMutation(p.refs, allReady)))
    ensures SafeEvent(cfg, log, StatusWritten(p, NotReady(ReconcileFailed, message)))
  {
  }

  lemma {:induction false} SameUnmountable(cfg: Config, a: Scene, b: Scene, refs: seq<string>, copies: seq<RepoStatus>)
    requires b == a.(engine := b.engine) && |refs| == |copies|
    ensures FirstUnmountable(cfg, b, refs, copies) == FirstUnmountable(cfg, a, refs, copies)
    decreases |refs|
  {
    hide SP.Mountable, Names.NameOf;
    if refs != [] {
      assert RequestFor(cfg, b, refs[0], copies[0]) == RequestFor(cfg, a, refs[0], copies[0]);
      SameUnmountable(cfg, a, b, refs[1..], copies[1..]);
    }
  }

  lemma {:induction false} SameStatuses(a: Scene, b: Scene, refs: seq<string>)
    requires b.repos == a.repos && forall r | r in refs :: r in a.repos
    ensures StatusesOf(b, refs) == StatusesOf(a, refs)
  {
  }

  lemma {:induction false} SameMirrored(cfg: Config, protection: set<string>, a: Scene, b: Scene,
                                        refs: seq<string>, copies: seq<RepoStatus>, n: nat)
    requires b == a.(engine := b.engine) && n <= |refs| == |copies|
    ensures Mirrored(cfg, protection, b, refs, copies, n) == Mirrored(cfg, protection, a, refs, copies, n)
  {
    hide SP.Ensured, Names.NameOf;
    if n > 0 {
      assert RequestFor(cfg, b, refs[n - 1], copies[n - 1]) == RequestFor(cfg, a, refs[n - 1], copies[n - 1]);
      SameMirrored(cfg, protection, a, b, refs, copies, n - 1);
    }
  }

  lemma StoreAfterReading(cfg: Config, protection: set<string>, sc: Scene, read: Scene, p: Pass)
    requires sc.engine.Some? && read == sc.(engine := read.engine)
    requires p.refs == sc.engine.value.spec.refs != [] && p.gpu == sc.engine.value.spec.gpu
    requires (forall r | r in p.refs :: r in read.repos) && p.copies == StatusesOf(read, p.refs)
    ensures EngineStore(cfg, protection, sc) == DeployStore(cfg, protection, read, p.refs, p.gpu, p.copies)
  {
    hide EngineGpu.GpuAvailable, FirstUnreadyAt, FirstUnmountable, StatusesOf, Mirrored;
    SameStatuses(sc, read, p.refs);
    SameUnmountable(cfg, sc, read, p.refs, p.copies);
    var unbound := FirstUnmountable(cfg, sc, p.refs, p.copies);
    SameMirrored(cfg, protection, sc, read, p.refs, p.copies, if unbound < |p.refs| then unbound + 1 else |p.refs|);
  }

  lemma VerdictAfterReading(cfg: Config, sc: Scene, read: Scene, p: Pass)
    requires sc.engine.Some? && read == sc.(engine := read.engine)
    requires p.refs == sc.engine.value.spec.refs != [] && p.gpu == sc.engine.value.spec.gpu
    requires (forall r | r in p.refs :: r in read.repos) && p.copies == StatusesOf(read, p.refs)
    ensures EngineVerdict(cfg, sc) == DeployVerdict(cfg, read, p.refs, p.gpu, p.copies)
  {
    hide SP.Mountable, SP.Panics, EngineGpu.GpuAvailable, Names.LookupName, Names.NameOf, FirstUnreadyAt, FirstUnmountable, StatusesOf;
    SameStatuses(sc, read, p.refs);
    SameUnmountable(cfg, sc, read, p.refs, p.copies);
  }

  lemma EarlyVerdict(cfg: Config, protection: set<string>, sc: Scene)
    requires sc.engine.Some?
    ensures var refs := sc.engine.value.spec.refs;
            && (!(forall r | r in refs :: r in sc.repos) ==> EngineVerdict(cfg, sc) == Some(FETCH_FAILED))
            && (refs == [] ==> EngineVerdict(cfg, sc) == Some(NO_MODELS))
            && (refs == [] || !(forall r | r in refs :: r in sc.repos) ==> EngineStore(cfg, protection, sc) == sc.store)
    ensures FETCH_FAILED == NotReady(ModelRepositoryFetchFailed, "ModelRepository could not be fetched")
    ensures NO_MODELS == NotReady(NoModelsFound, "No ModelRepository resources found")
  {
  }

  lemma EndsEarly(cfg: Config, read: Scene, after: Scene, refs: seq<string>, m: EngineMutation)
    requires m == FETCH_FAILED || m == NO_MODELS
    ensures StatusSet(read, after, m) ==>
              EndsAs(cfg, read, after, refs, Some(m), read.store, if m == FETCH_FAILED then Continue else Requeue)
  {
    hide ApplyEngine;
  }

  /** The engine once its pass has begun: it has the operator's finalizer, added if it was missing. */
  function Protected(e: EngineObject): EngineObject {
    if FINALIZER in e.finalizers then e else e.(version := e.version + 1, finalizers := e.finalizers + {FINALIZER})
  }

  function Begun(sc: Scene): Scene {
    if sc.engine.Some? then sc.(engine := Some(Protected(sc.engine.value))) else sc
  }

  lemma BegunIs(sc: Scene)
    requires sc.engine.Some?
    ensures Begun(sc) == sc.(engine := Begun(sc).engine) && Begun(sc).engine.Some?
  {
  }

  lemma BeginsHere(log: History, p: Pass, spec: Spec)
    requires CurrentPass(log) == Some(Reading(p.since, spec, false)) && p.refs == spec.refs && p.gpu == spec.gpu
    ensures Began(log, p)
  {
  }

  method EnsureFinalizer(w: World, e: EngineObject) returns (ok: bool)
    requires w.Valid() && w.engine == Some(e) && !e.deleting
    modifies w, w.cluster, w.repos
    ensures w.Valid() && old(w.log) <= w.log && CurrentPass(w.log) == CurrentPass(old(w.log))
    ensures w.quiet ==> ok && w.Now() == Begun(old(w.Now()))
  {
    if FINALIZER in e.finalizers {
      return true;
    }
    var added := w.UpdateFinalizers(e.version, e.finalizers + {FINALIZER});
    return added.Done?;
  }

  /** The pass over an engine that is not being deleted, from its reading at since on. */
  method Advance(w: World, e: EngineObject, since: nat) returns (ctl: Control)
    requires w.Valid() && w.engine == Some(e) && !e.deleting && since <= |w.log|
    requires CurrentPass(w.log) == Some(Reading(since, e.spec, false))
    modifies w, w.cluster, w.repos
    ensures w.Valid() && old(w.log) <= w.log
    ensures w.quiet ==>
              EndsAs(w.cfg, Begun(old(w.Now())), w.Now(), e.spec.refs, EngineVerdict(w.cfg, old(w.Now())),
                     EngineStore(w.cfg, w.cluster.protection, old(w.Now())), ctl)
  {
    hide *;
    NowEngine(w);
    ghost var sc := w.Now();
    EarlyVerdict(w.cfg, w.cluster.protection, sc);
    BegunIs(sc);
    var ready := EnsureFinalizer(w, e);
    if !ready {
      return Error;
    }
    var copies := FetchModelRepositories(w, e.spec.refs, since);
    ghost var read := w.Now();
    var p := Pass(since, e.spec.refs, e.spec.gpu, if copies.Some? then copies.value else []);
    BeginsHere(w.log, p, e.spec);
    EarlyIsSafe(w.cfg, w.log, p);
    if copies.None? {
      SetNotReady(w, p, ModelRepositoryFetchFailed, "ModelRepository could not be fetched");
      EndsEarly(w.cfg, read, w.Now(), p.refs, FETCH_FAILED);
      return Continue;
    }
    if |p.refs| == 0 {
      SetNotReady(w, p, NoModelsFound, "No ModelRepository resources found");
      EndsEarly(w.cfg, read, w.Now(), p.refs, NO_MODELS);
      return Requeue;
    }
    ctl := Deploy(w, p);
    if w.quiet {
      VerdictAfterReading(w.cfg, sc, read, p);
      StoreAfterReading(w.cfg, w.cluster.protection, sc, read, p);
    }
  }

  /** One pass.  Left undisturbed, it stores exactly the verdict's mutation, or panics where there
      is none and leaves the status as it was; and it rolls out exactly if that is the verdict. */
  method Reconcile(w: World) returns (ctl: Control)
    requires w.Valid()
    modifies w, w.cluster, w.repos
    ensures w.Valid() && old(w.log) <= w.log
    ensures w.quiet && old(w.engine).None? ==> ctl == Continue && w.Now() == old(w.Now())
    ensures w.quiet && old(w.engine).Some? && !old(w.engine).value.deleting ==>
              EndsAs(w.cfg, Begun(old(w.Now())), w.Now(), old(w.engine).value.spec.refs, EngineVerdict(w.cfg, old(w.Now())),
                     EngineStore(w.cfg, w.cluster.protection, old(w.Now())), ctl)
    ensures w.quiet && old(w.engine).Some? && old(w.engine).value.deleting ==>
              var names := VolumeNames(w.cfg, old(w.engine).value.spec.refs);
              && ctl == Continue && w.engine == Unfinalized(old(w.engine).value)
              && Index.Indexed(old(w.Now()).repos, w.Now().repos, old(w.Now()).engines, old(w.engine).value.spec.refs)
              && w.Now().store == CleanedWith(w.cfg.namespace, names, NoFaults(|names|), old(w.Now()).store)
  {
    hide *;
    NowEngine(w);
    QuietIsStill(w);
    var since := |w.log|;
    var r := w.BeginPass();
    NowEngine(w);
    if !r.Found? {
      return if r.NotFound? then Continue else Error;
    }
    var e := r.value;
    if e.deleting {
      DeletesHere(w.log, e);
      var ok, _ := HandleDeletion(w, e.spec.refs);
      return if ok then Continue else Error;
    }
    ctl := Advance(w, e, since);
  }

  // ---------------------------------------------------------------- what an undisturbed pass shows

  /** An undisturbed pass changes nothing of the engine but its status, and that it has the
      operator's finalizer. */
  lemma PassKeepsEngine(cfg: Config, sc: Scene, after: Scene, verdict: Option<EngineMutation>, store: SP.Store, ctl: Control)
    requires sc.engine.Some?
    requires EndsAs(cfg, Begun(sc), after, sc.engine.value.spec.refs, verdict, store, ctl)
    ensures after.engine.Some?
    ensures var e, t := sc.engine.value, after.engine.value;
            && t.spec == e.spec && t.deleting == e.deleting && (t.version == e.version ==> t == e)
            && t.finalizers == e.finalizers + {"llmengine.aitrigram.cliver-project.github.io/finalizer"}
            && t.status == if verdict.Some? then ApplyEngine(verdict.value, e.status) else e.status
    ensures match verdict
            case None => ctl == Panicked
            case Some(Deployed(_, _, _)) => ctl == Continue
            case Some(WaitForModels(_)) => ctl == Requeue
            case Some(NotReady(reason, message)) =>
              ctl == if reason == ModelRepositoryFetchFailed && message == "ModelRepository could not be fetched"
                     then Continue else Requeue
  {
    hide ApplyEngine, Rolled;
    var e := sc.engine.value;
    assert FINALIZER in e.finalizers ==> e.finalizers + {FINALIZER} == e.finalizers;
  }

  /** For each obstacle the phase, the reason and the answer that an undisturbed pass ends with;
      without any, the models, and Running or Starting. */
  lemma PassShows(cfg: Config, protection: set<string>, sc: Scene, after: Scene, ctl: Control)
    requires sc.engine.Some?
    requires EndsAs(cfg, Begun(sc), after, sc.engine.value.spec.refs, EngineVerdict(cfg, sc), EngineStore(cfg, protection, sc), ctl)
    ensures after.engine.Some?
    ensures var e, s := sc.engine.value, after.engine.value.status;
            if !AllThere(sc, e.spec.refs) then ctl == Continue && Lacks(s, Errored, ModelRepositoryFetchFailed)
            else if e.spec.refs == [] then ctl == Requeue && Lacks(s, Pending, NoModelsFound)
            else if !AllReady(sc, e.spec.refs) then ctl == Requeue && Lacks(s, Pending, WaitingForModels)
            else if !HasGpu(sc, e.spec) then ctl == Requeue && Lacks(s, Pending, GPUNotAvailable)
            else if exists r | r in e.spec.refs :: !Mounts(cfg, sc, r) then
              if ctl == Panicked then s == e.status else ctl == Requeue && Lacks(s, Pending, StoragePending)
            else
              && ctl == Continue && s.modelRepositories == e.spec.refs
              && if forall r | r in e.spec.refs :: LookedUpReady(cfg, sc, r)
                 then s.phase == Running && Find(s.conditions, Ready).Some? && Find(s.conditions, Ready).value.status
                 else Lacks(s, Starting, DeploymentsCreated)
  {
    hide *;
    var e, v := sc.engine.value, EngineVerdict(cfg, sc);
    PassKeepsEngine(cfg, sc, after, v, EngineStore(cfg, protection, sc), ctl);
    if v.Some? {
      VerdictShows(e.status, v.value);
    }
    EarlyObstacles(cfg, sc);
    if AllThere(sc, e.spec.refs) && e.spec.refs != [] && AllReady(sc, e.spec.refs) {
      LateObstacles(cfg, sc);
    }
  }

  lemma DeletesHere(log: History, e: EngineObject)
    ensures CurrentPass(log).Some? && CurrentPass(log).value.spec == e.spec && CurrentPass(log).value.deleting ==>
              Deleting(log, e.spec.refs)
  {
  }

  // ---------------------------------------------------------------- deletion

  /** The names of the referenced pairs. */
  function VolumeNames(cfg: Config, refs: seq<string>): (names: seq<string>)
    ensures |names| == |refs|
  {
    seq(|refs|, i requires 0 <= i < |refs| => VolumeName(cfg, refs[i]))
  }

  /** The engine without the operator's finalizer; gone if it was the last one of a deleted engine. */
  function Unfinalized(e: EngineObject): Option<EngineObject> {
    var left := e.finalizers - {FINALIZER};
    if e.deleting && left == {} then None else Some(e.(version := e.version + 1, finalizers := left))
  }

  lemma OnePairMore(cfg: Config, refs: seq<string>, i: nat, faults: Faults, fails: set<SP.CleanupCall>, s: SP.Store)
    requires i < |refs| && |faults| == i
    ensures var names := VolumeNames(cfg, refs);
            CleanedWith(cfg.namespace, names[..i + 1], faults + [fails], s) ==
            SP.Cleaned(ClaimKey(cfg, refs[i]), VolumeName(cfg, refs[i]), CleanedWith(cfg.namespace, names[..i], faults, s), fails).1
    ensures fails == {} && faults == NoFaults(i) ==> faults + [fails] == NoFaults(i + 1)
  {
    hide SP.Cleaned;
    var names := VolumeNames(cfg, refs);
    assert names[..i + 1][..i] == names[..i] && (faults + [fails])[..i] == faults;
  }

  lemma NowStore(w: World)
    ensures w.Now().store == w.cluster.State() && w.Now().engine == w.engine && w.Now().engines == w.engines
    ensures w.Now().repos == w.repos.status
  {
  }

  lemma MayTearDown(begun: History, now: History, refs: seq<string>)
    requires Deleting(begun, refs) && CurrentPass(now) == CurrentPass(begun)
    ensures InDeletion(now) && CurrentPass(now).value.spec.refs == refs
  {
  }

  /** Tear down every referenced pair, whatever fails on the way. */
  method CleanupAll(w: World, refs: seq<string>) returns (ghost faults: Faults)
    requires w.Valid() && Deleting(w.log, refs)
    modifies w, w.cluster, w.repos
    ensures w.Valid() && old(w.log) <= w.log && CurrentPass(w.log) == CurrentPass(old(w.log)) && |faults| == |refs|
    ensures w.still ==> w.Now() == old(w.Now()).(store := w.Now().store)
                        && w.Now().store == CleanedWith(w.cfg.namespace, VolumeNames(w.cfg, refs), faults, old(w.Now()).store)
    ensures w.quiet ==> faults == NoFaults(|refs|)
  {
    faults := [];
    for i := 0 to |refs|
      invariant w.Valid() && old(w.log) <= w.log && CurrentPass(w.log) == CurrentPass(old(w.log)) && |faults| == i
      invariant w.still ==> w.Now() == old(w.Now()).(store := w.Now().store)
                            && w.Now().store == CleanedWith(w.cfg.namespace, VolumeNames(w.cfg, refs)[..i], faults, old(w.Now()).store)
      invariant w.quiet ==> faults == NoFaults(i)
    {
      hide *;
      NowStore(w);
      MayTearDown(old(w.log), w.log, refs);
      var _, fails := w.CleanupStorage(refs[i]);
      NowStore(w);
      OnePairMore(w.cfg, refs, i, faults, fails, old(w.Now()).store);
      faults := faults + [fails];
    }
    assert VolumeNames(w.cfg, refs)[..|refs|] == VolumeNames(w.cfg, refs);
  }

  /** The finalizer that comes off is the operator's own; an engine being deleted goes with its last one. */
  lemma UnfinalizedIs(e: EngineObject)
    ensures var own := {"llmengine.aitrigram.cliver-project.github.io/finalizer"};
            && FINALIZER !in e.finalizers - own && own == {FINALIZER} && (e.finalizers <= own <==> e.finalizers - own == {})
            && (e.deleting && e.finalizers <= own ==> Unfinalized(e) == None)
            && (!(e.deleting && e.finalizers <= own) ==>
                  Unfinalized(e) == Some(e.(version := e.version + 1, finalizers := e.finalizers - own)))
  {
  }

  /** Tear down all storage, refresh the index, drop the finalizer.  Success means that this call
      took the finalizer off, whatever became of the storage: that is what the teardown under its
      faults leaves, and without faults every pair is released. */
  method HandleDeletion(w: World, refs: seq<string>) returns (ok: bool, ghost faults: Faults)
    requires w.Valid() && Deleting(w.log, refs)
    modifies w, w.cluster, w.repos
    ensures w.Valid() && old(w.log) <= w.log && |faults| == |refs|
    ensures ok ==> FinalizerRemoved in w.log[|old(w.log)|..] && (w.engine.Some? ==> FINALIZER !in w.engine.value.finalizers)
    ensures w.still ==> w.Now().store == CleanedWith(w.cfg.namespace, VolumeNames(w.cfg, refs), faults, old(w.Now()).store)
    ensures w.quiet ==> faults == NoFaults(|refs|)
    ensures w.quiet && old(w.engine).Some? ==> ok && w.engine == Unfinalized(old(w.engine).value)
    ensures w.quiet ==> Index.Indexed(old(w.Now()).repos, w.Now().repos, old(w.Now()).engines, refs)
  {
    assert RETRY_STEPS > 0;
    hide *;
    QuietIsStill(w);
    NowStore(w);
    faults := CleanupAll(w, refs);
    NowStore(w);
    ghost var cleaned, begun := w.Now(), w.log;
    w.UpdateIndex(refs);
    NowStore(w);
    ghost var indexed := w.Now();
    MayTearDown(old(w.log), w.log, refs);
    var attempt := 0;
    while attempt < RETRY_STEPS
      invariant w.Valid() && w.log == begun
      invariant w.still ==> w.Now().store == cleaned.store
      invariant w.quiet ==> attempt == 0 && w.Now() == indexed
    {
      NowStore(w);
      var r := w.GetEngine();
      NowStore(w);
      if !r.Found? {
        return false, faults;
      }
      UnfinalizedIs(r.value);
      var written := w.UpdateFinalizers(r.value.version, r.value.finalizers - {FINALIZER});
      NowStore(w);
      if !written.Conflict? {
        return written.Done?, faults;
      }
      attempt := attempt + 1;
    }
    return false, faults;
  }

  // ---------------------------------------------------------------- runs

  /** Any number of passes, each under interference and faults, starting with a new engine: the
      history is safe throughout and the stored phase is the derived one. */
  method Operate(w: World)
    requires w.Valid()
    modifies w, w.cluster, w.repos
    ensures old(w.log) <= w.log && Safe(w.cfg, w.log)
    ensures w.engine.Some? ==> EnginePhaseOk(w.engine.value.status)
  {
    var n: nat := *;
    while n > 0
      invariant w.Valid() && old(w.log) <= w.log
    {
      w.Yield();
      var ctl := Reconcile(w);
      n := n - 1;
    }
  }
}
