/** The reconcile pass of the model repository controller, and whole runs of passes. */
module RepoReconcile {
  import opened Common
  import opened Backend
  import opened Status
  import opened RepoWorld
  import opened RepoServer
  import opened LocalCopy
  import opened RepoPass
  import opened RepoSpec
  import opened RepoController
  import Text

  // ---------------------------------------------------------------- storage

  /** Discovery, as the provider factory does it. */
  method CreateProvider(s: Server, spec: Spec) returns (info: Option<ClassInfo>)
    requires s.Valid()
    modifies s
    ensures s.Valid() && Follows(old(s.w), s.w)
    ensures info.None? ==> ViewOf(s.w.log) == ViewOf(old(s.w).log)
    ensures info.Some? ==> |s.w.log| > 0 && ViewOf(s.w.log) == ViewAfter(ViewOf(old(s.w).log), |s.w.log| - 1, Discovered(info.value))
    ensures s.quiet ==> && info == (if spec.size == "" then None else old(s.w).classes)
                        && s.w == if info.Some? then Logged(old(s.w), Discovered(info.value)) else old(s.w)
  {
    if spec.size == "" {
      return None;
    }
    info := s.Discover();
  }

  method CreateStorage(s: Server) returns (ok: bool)
    requires s.Valid()
    modifies s
    ensures s.Valid() && Follows(old(s.w), s.w) && ViewOf(s.w.log) == ViewOf(old(s.w).log)
    ensures s.quiet ==> ok && s.w == WithClaimCreated(old(s.w))
  {
    var found := s.GetClaim();
    RelyParts(old(s.w), s.w);
    match found {
      case ClaimFound(_) => ok := true;
      case ClaimReadFailed => ok := false;
      case ClaimNotFound =>
        ghost var mid := s.w;
        ok := s.CreateClaim({CLAIM_FINALIZER});
        FollowsTrans(old(s.w), mid, s.w);
    }
  }

  /** Storage status from the bound claim; with node-bound storage it carries the volume's node. */
  method GetStorageStatus(s: Server, info: ClassInfo) returns (r: Option<StorageStatus>)
    requires s.Valid() && ViewOf(s.w.log).spec.Some?
    modifies s
    ensures s.Valid() && Follows(old(s.w), s.w) && SameButNodes(ViewOf(old(s.w).log), ViewOf(s.w.log))
    ensures r.Some? && info.mode == ReadWriteOnce ==> r.value.boundNode in ViewOf(s.w.log).nodes
    ensures s.quiet ==> r == StorageRead(s.cfg, old(s.w), info) && s.w == Observed(old(s.w))
  {
    hide WorldOk;
    hide Extracted;
    hide Follows;
    hide Rely;
    var found := s.GetClaim();
    RelyParts(old(s.w), s.w);
    if !found.ClaimFound? {
      return None;
    }
    var c := found.claim;
    if !c.bound || c.volume == "" {
      return None;
    }
    ghost var mid := s.w;
    var v := s.GetBoundVolume(c);
    FollowsTrans(old(s.w), mid, s.w);
    if v.None? {
      return None;
    }
    var node := if info.mode == ReadWriteOnce then NodeName(v.value.nodeTerms) else "";
    var b := ExtractBackend(v.value.source, OwnerOf(s.cfg));
    if b.None? {
      return None;
    }
    return Some(StorageStatus(info.name, info.mode, b, node, c.capacity));
  }

  /** The same view, but for nodes of the claim that were seen meanwhile. */
  predicate SameButNodes(v: View, w: View) { v.nodes <= w.nodes && w == v.(nodes := w.nodes) }

  /** The stored storage status is st, and its node is one that was seen in this pass. */
  ghost predicate Stored(w: World, st: StorageStatus, mode: AccessMode) {
    && (w.obj.Some? ==> w.obj.value.status.storage == Some(st))
    && (mode == ReadWriteOnce ==> st.boundNode in ViewOf(w.log).nodes)
  }

  method UpdateStorageStatus(s: Server, info: ClassInfo) returns (ok: bool, ghost st: Option<StorageStatus>)
    requires s.Valid() && ViewOf(s.w.log).spec.Some?
    modifies s
    ensures s.Valid() && old(s.w).log <= s.w.log && SameButNodes(ViewOf(old(s.w).log), ViewOf(s.w.log))
    ensures s.w.obj.Some? ==> old(s.w).obj.Some? && s.w.obj.value.status.revisions == old(s.w).obj.value.status.revisions
    ensures ok ==> st.Some? && Stored(s.w, st.value, info.mode)
    ensures s.quiet && old(s.w).obj.Some? ==>
              (ok <==> StorageRead(s.cfg, old(s.w), info).Some?) && s.w == StorageWritten(s.cfg, old(s.w), info)
  {
    hide WorldOk;
    hide ViewOf;
    var r := GetStorageStatus(s, info);
    st := r;
    if r.None? {
      if s.w.obj.Some? {
        assert Own(s.w.obj.value.status).revisions == Own(old(s.w).obj.value.status).revisions;
      }
      return false, st;
    }
    ghost var mid := s.w;
    ok := SyncStatus(s, PutStorage(r.value));
    if s.w.obj.Some? {
      assert Own(s.w.obj.value.status).revisions == Own(mid.obj.value.status).revisions;
      assert Own(mid.obj.value.status).revisions == Own(old(s.w).obj.value.status).revisions;
      if ok {
        assert Own(s.w.obj.value.status).storage == Some(r.value);
      }
    }
  }

  /** The local copy shows exactly what the server holds. */
  ghost predicate InStep(l: Local, w: World)
    reads l, l.entries
  {
    && w.obj.Some? && l.Revisions() == w.obj.value.status.revisions && l.spec == w.obj.value.spec
    && l.storage == w.obj.value.status.storage
  }

  /** The pass may go on to the downloads; its copy's spec is the one it read last. */
  ghost predicate Prepared(s: Server, l: Local)
    reads s, l, l.entries
  {
    && s.Valid() && l.Valid() && Distinct(DesiredRevisions(l.spec)) && ViewOf(s.w.log).spec == Some(l.spec)
    && Agrees(l.Revisions(), s.w, NamesOf(DesiredRevisions(l.spec)))
  }

  lemma CopyIsStored(cfg: Config, w: World)
    requires WorldOk(cfg, w) && w.obj.Some?
    ensures LocalStored(w.obj.value.status.revisions, w.log)
  {
    forall n: string | FindRevision(w.obj.value.status.revisions, n).Some? ensures EntryStored(w.log, n) {
      EntryWasStored(cfg, w.log, n);
    }
  }

  lemma RefreshedIsPrepared(s: Server, l: Local)
    requires s.Valid() && s.w.obj.Some? && l.CopyOf(s.w.obj.value) && ViewOf(s.w.log).spec == Some(l.spec)
    ensures Prepared(s, l) && InStep(l, s.w)
  {
    CopyIsStored(s.cfg, s.w);
  }

  lemma StillPrepared(s: Server, l: Local, before: World)
    requires s.Valid() && l.Valid() && Distinct(DesiredRevisions(l.spec)) && ViewOf(s.w.log).spec == Some(l.spec)
    requires Agrees(l.Revisions(), before, NamesOf(DesiredRevisions(l.spec))) && before.log <= s.w.log
    requires s.w.obj.Some? ==> before.obj.Some? && s.w.obj.value.status.revisions == before.obj.value.status.revisions
    ensures Prepared(s, l)
  {
    LocalStoredKept(l.Revisions(), before.log, s.w.log);
  }

  lemma PreparedParts(s: Server, l: Local)
    requires Prepared(s, l)
    ensures s.Valid() && l.Valid() && Distinct(DesiredRevisions(l.spec)) && ViewOf(s.w.log).spec == Some(l.spec)
    ensures Agrees(l.Revisions(), s.w, NamesOf(DesiredRevisions(l.spec)))
  {
  }

  /** With node-bound storage in every discovery, the copy's recorded node is one seen in this pass. */
  predicate NodeSeen(v: View, info: ClassInfo, storage: Option<StorageStatus>) {
    v.nodeBound ==> Pinned(v, NodeAffinity(info, storage))
  }

  /** Provision the claim and record what it is bound to.  Node-bound storage waits for the
      binding; shared storage may go on without it. */
  method ReconcileStorage(s: Server, l: Local, info: ClassInfo) returns (refreshed: Option<ClassInfo>, ctl: Control)
    requires Prepared(s, l) && (ViewOf(s.w.log).nodeBound ==> info.mode == ReadWriteOnce)
    modifies s, l
    ensures s.Valid() && old(s.w).log <= s.w.log
    ensures l.entries == old(l.entries) || fresh(l.entries)
    ensures ctl == Continue ==>
              refreshed.Some? && Prepared(s, l) && NodeSeen(ViewOf(s.w.log), refreshed.value, l.storage)
    ensures s.quiet && old(InStep(l, s.w)) && old(s.w).classes == Some(info) ==>
              && (s.w, ctl) == StoragePart(s.cfg, old(s.w), info)
              && (ctl == Continue ==> refreshed == Some(info) && InStep(l, s.w))
  {
    hide *;
    PreparedParts(s, l);
    ghost var before := s.w;
    if old(InStep(l, s.w)) {
      InStepParts(l, before);
      StoragePartCases(s.cfg, before, info);
    }
    if l.spec.size == "" || s.cfg.parse(l.spec.size).None? {
      SetRepoCondition(s, StorageReady, false, ValidationFailed, "Storage validation failed");
      SyncedParts(before, s.w, SetCondition(Condition(StorageReady, false, ValidationFailed, "Storage validation failed")), false);
      return None, Requeue;
    }
    var created := CreateStorage(s);
    FollowsLog(before, s.w);
    ghost var mid := s.w;
    if !created {
      SetRepoCondition(s, StorageReady, false, ProvisionFailed, "Failed to provision storage");
      SyncedParts(mid, s.w, SetCondition(Condition(StorageReady, false, ProvisionFailed, "Failed to provision storage")), false);
      assert before.log <= mid.log <= s.w.log;
      return None, Requeue;
    }
    var ok, st := UpdateStorageStatus(s, info);
    ghost var after := s.w;
    FollowsRevisions(before, mid, after);
    SameButNodesParts(ViewOf(mid.log), ViewOf(after.log));
    StorageWrittenKeeps(s.cfg, mid, info);
    if !ok {
      if info.mode != ReadWriteMany {
        return None, Requeue;
      }
      StillPrepared(s, l, before);
      NothingBound(ViewOf(s.w.log), info, l.storage);
      if s.quiet && old(InStep(l, s.w)) {
        SameObject(l, before, s.w);
      }
      return Some(info), Continue;
    }
    refreshed, ctl := RefreshAll(s, l, info, st.value);
    assert before.log <= mid.log <= after.log <= s.w.log;
  }

  lemma SameButNodesParts(v: View, w: View)
    requires SameButNodes(v, w)
    ensures w.spec == v.spec && w.nodeBound == v.nodeBound
  {
  }

  lemma NothingBound(v: View, info: ClassInfo, storage: Option<StorageStatus>)
    requires !v.nodeBound
    ensures NodeSeen(v, info, storage)
  {
  }

  lemma SameObject(l: Local, before: World, after: World)
    requires InStep(l, before) && after.obj == before.obj
    ensures InStep(l, after)
  {
  }

  // The branches of the undisturbed storage part.
  lemma StoragePartCases(cfg: Config, w: World, info: ClassInfo)
    requires w.obj.Some?
    ensures var w1 := WithClaimCreated(w);
            && w1.obj == w.obj && w1.classes == w.classes
            && StorageWritten(cfg, w1, info).obj.Some?
            && StoragePart(cfg, w, info) ==
               if w.obj.value.spec.size == "" || cfg.parse(w.obj.value.spec.size).None? then
                 (Committed(w, SetCondition(Condition(StorageReady, false, ValidationFailed, "Storage validation failed"))), Requeue)
               else if StorageRead(cfg, w1, info).Some? then (Reread(StorageWritten(cfg, w1, info), info), Continue)
               else (StorageWritten(cfg, w1, info), if info.mode != ReadWriteMany then Requeue else Continue)
  {
  }

  // What the storage step leaves alone, and where nothing was read, everything.
  lemma StorageWrittenKeeps(cfg: Config, w: World, info: ClassInfo)
    ensures w.obj.Some? ==>
              var v := StorageWritten(cfg, w, info);
              && v.obj.Some? && v.obj.value.spec == w.obj.value.spec && v.classes == w.classes
              && (StorageRead(cfg, w, info).None? ==> v.obj == w.obj)
  {
  }

  lemma FollowsRevisions(before: World, mid: World, after: World)
    requires Follows(before, mid)
    requires after.obj.Some? ==> mid.obj.Some? && after.obj.value.status.revisions == mid.obj.value.status.revisions
    requires mid.log <= after.log
    ensures after.obj.Some? ==> before.obj.Some? && after.obj.value.status.revisions == before.obj.value.status.revisions
    ensures before.log <= mid.log && before.log <= after.log
  {
  }

  /** Read the repository and discover the storage class again. */
  method RefreshAll(s: Server, l: Local, info: ClassInfo, ghost st: StorageStatus)
    returns (refreshed: Option<ClassInfo>, ctl: Control)
    requires s.Valid() && ViewOf(s.w.log).spec.Some? && Stored(s.w, st, info.mode)
    requires ViewOf(s.w.log).nodeBound ==> info.mode == ReadWriteOnce
    modifies s, l
    ensures s.Valid() && old(s.w).log <= s.w.log
    ensures l.entries == old(l.entries) || fresh(l.entries)
    ensures ctl == Continue ==>
              refreshed.Some? && Prepared(s, l) && NodeSeen(ViewOf(s.w.log), refreshed.value, l.storage)
    ensures s.quiet && old(s.w).obj.Some? && old(s.w).classes == Some(info) && old(s.w).obj.value.spec.size != "" ==>
              ctl == Continue && refreshed == Some(info) && s.w == Reread(old(s.w), info) && InStep(l, s.w)
  {
    hide *;
    ghost var w0 := s.w;
    var r := s.ReadCopy(false);
    if !r.Found? {
      RelyParts(w0, s.w);
      return None, Error;
    }
    ghost var got := s.w;
    if w0.obj.Some? {
      LoggedParts(w0, CopyEvent(false, w0.obj.value.spec));
    }
    RereadParts(w0, got, r.repo.spec, st, info.mode);
    l.Refresh(r.repo);
    CopyFields(l, r.repo);
    RefreshedIsPrepared(s, l);
    refreshed := CreateProvider(s, l.spec);
    FollowsLog(got, s.w);
    assert w0.log <= got.log <= s.w.log;
    if refreshed.None? {
      return None, Requeue;
    }
    DiscoveredView(ViewOf(got.log), |s.w.log| - 1, refreshed.value);
    KeptByFollows(s, l, got);
    SeenNode(ViewOf(s.w.log), info, refreshed.value, st, l.storage);
    if s.quiet && w0.obj.Some? {
      RereadIs(w0, refreshed.value);
      SameObject(l, got, s.w);
    }
    return refreshed, Continue;
  }

  lemma CopyFields(l: Local, o: Repo)
    requires l.CopyOf(o)
    ensures l.spec == o.spec && l.storage == o.status.storage && l.finalizers == o.finalizers && l.deleting == o.deleting
    ensures l.version == o.version && l.Valid()
  {
  }

  lemma RereadParts(before: World, after: World, spec: Spec, st: StorageStatus, mode: AccessMode)
    requires Follows(before, after) && Stored(before, st, mode) && |after.log| > 0 && ViewOf(before.log).spec.Some?
    requires ViewOf(after.log) == ViewAfter(ViewOf(before.log), |after.log| - 1, CopyEvent(false, spec))
    ensures before.log <= after.log && ViewOf(after.log).spec == Some(spec)
    ensures after.obj.Some? ==> after.obj.value.status.storage == Some(st)
    ensures ViewOf(after.log).nodeBound == ViewOf(before.log).nodeBound
    ensures mode == ReadWriteOnce ==> st.boundNode in ViewOf(after.log).nodes
  {
    if after.obj.Some? {
      assert Own(after.obj.value.status).storage == Own(before.obj.value.status).storage;
    }
  }

  lemma DiscoveredView(v: View, at: nat, info: ClassInfo)
    ensures var w := ViewAfter(v, at, Discovered(info));
            && w.spec == v.spec && w.nodes == v.nodes && w.listed == v.listed
            && (v.spec.Some? ==> (w.nodeBound <==> v.nodeBound && info.mode == ReadWriteOnce))
  {
  }

  lemma SeenNode(v: View, info: ClassInfo, refreshed: ClassInfo, st: StorageStatus, storage: Option<StorageStatus>)
    requires storage == Some(st) && (info.mode == ReadWriteOnce ==> st.boundNode in v.nodes)
    requires v.nodeBound ==> info.mode == ReadWriteOnce && refreshed.mode == ReadWriteOnce
    ensures NodeSeen(v, refreshed, storage)
  {
  }

  lemma RereadIs(w: World, info: ClassInfo)
    requires w.obj.Some?
    ensures var v := Logged(w, CopyEvent(false, w.obj.value.spec));
            && Reread(w, info) == Logged(v, Discovered(info))
            && v.obj == w.obj && v.classes == w.classes && Logged(v, Discovered(info)).obj == w.obj
  {
  }

  // ---------------------------------------------------------------- deletion

  function JoinNames(names: seq<string>): string {
    if names == [] then "" else Text.Join(names, ' ')
  }

  /** The engines that name the repository, in listing order. */
  function DependentNames(engines: seq<EngineRef>, repo: string): (names: seq<string>)
    ensures names != [] <==> References(engines, repo)
  {
    if engines == [] then []
    else
      var rest := |engines| - 1;
      assert engines == engines[..rest] + [engines[rest]];
      DependentNames(engines[..rest], repo) + if repo in engines[rest].refs then [engines[rest].name] else []
  }

  /** The names are those of the engines at these places: in the order of the listing, exactly those
      that name the repository. */
  predicate NamedAt(engines: seq<EngineRef>, repo: string, names: seq<string>, at: seq<nat>) {
    && |at| == |names|
    && (forall i | 0 <= i < |at| :: at[i] < |engines| && repo in engines[at[i]].refs && names[i] == engines[at[i]].name)
    && (forall i, j | 0 <= i < j < |at| :: at[i] < at[j])
    && (forall k | 0 <= k < |engines| && repo in engines[k].refs :: k in at)
  }

  lemma NamedNext(engines: seq<EngineRef>, e: EngineRef, repo: string, names: seq<string>, at: seq<nat>)
    requires NamedAt(engines, repo, names, at)
    ensures if repo in e.refs then NamedAt(engines + [e], repo, names + [e.name], at + [|engines|])
            else NamedAt(engines + [e], repo, names, at)
  {
    var more := at + [|engines|];
    assert more[|at|] == |engines|;
    forall k | 0 <= k < |engines + [e]| && repo in (engines + [e])[k].refs
      ensures k in more && (repo !in e.refs ==> k in at)
    {
      if k < |engines| {
        assert repo in engines[k].refs;
      }
    }
  }

  lemma {:induction false} DependentsInOrder(engines: seq<EngineRef>, repo: string) returns (at: seq<nat>)
    ensures NamedAt(engines, repo, DependentNames(engines, repo), at)
    decreases |engines|
  {
    at := [];
    if engines != [] {
      hide NamedAt;
      var last := |engines| - 1;
      at := DependentsInOrder(engines[..last], repo);
      NamedNext(engines[..last], engines[last], repo, DependentNames(engines[..last], repo), at);
      assert engines[..last] + [engines[last]] == engines;
      if repo in engines[last].refs {
        at := at + [last];
      } else {
        assert DependentNames(engines[..last], repo) + [] == DependentNames(engines[..last], repo);
      }
    }
  }

  method Dependents(engines: seq<EngineRef>, repo: string) returns (names: seq<string>)
    ensures names == DependentNames(engines, repo)
  {
    names := [];
    for i := 0 to |engines|
      invariant names == DependentNames(engines[..i], repo)
    {
      assert engines[..i + 1][..i] == engines[..i];
      if repo in engines[i].refs {
        names := names + [engines[i].name];
      }
    }
    assert engines[..|engines|] == engines;
  }

  /** The jobs that carry the repository's label. */
  function Labelled(cfg: Config, w: World): set<string> { set j | j in w.jobs && w.jobs[j].owner == cfg.repo }

  /** Delete every job that carries the label, whatever fails. */
  method DeleteJobs(s: Server)
    requires s.Valid() && ViewOf(s.w.log).listed == Some(false)
    modifies s
    ensures s.Valid() && old(s.w).log <= s.w.log && ViewOf(s.w.log) == ViewOf(old(s.w).log)
    ensures s.still ==> s.w == old(s.w).(jobs := s.w.jobs, log := s.w.log)
    ensures s.quiet ==> s.w.jobs == old(s.w).jobs - Labelled(s.cfg, old(s.w))
  {
    hide WorldOk, AddsOnly, MayDelete, ViewOf, Follows, Rely;
    ghost var w0 := s.w;
    var jobs := s.ListJobs();
    RelyParts(w0, s.w);
    if jobs.None? {
      return;
    }
    var todo := jobs.value;
    while todo != {}
      invariant todo <= jobs.value && s.Valid() && w0.log <= s.w.log && ViewOf(s.w.log) == ViewOf(w0.log)
      invariant s.still ==> s.w == w0.(jobs := s.w.jobs, log := s.w.log)
      invariant s.quiet ==> s.w.jobs == w0.jobs - (jobs.value - todo)
      decreases todo
    {
      var j :| j in todo;
      ghost var before := s.w;
      LabelledMayGo(s.cfg, ViewOf(s.w.log), j);
      var _ := s.DeleteJob(j, JobDeleted(j));
      FollowsLog(before, s.w);
      OneJobLess(w0.jobs, jobs.value, todo, j);
      todo := todo - {j};
    }
    assert jobs.value - {} == jobs.value;
  }

  lemma LabelledMayGo(cfg: Config, v: View, name: string)
    requires v.listed == Some(false)
    ensures MayDelete(cfg, v, name, JobDeleted(name))
  {
  }

  lemma OneJobLess(jobs: map<string, Job>, all: set<string>, todo: set<string>, j: string)
    requires j in todo && todo <= all
    ensures jobs - (all - (todo - {j})) == (jobs - (all - todo)) - {j}
    ensures j !in jobs ==> jobs - (all - (todo - {j})) == jobs - (all - todo)
  {
  }

  /** How the three calls of the claim's cleanup end.  A failed read is told from nothing found. */
  datatype Fates = Fates(read: Fate, write: Fate, drop: Fate)

  const ALL_WORK := Fates(Works, Works, Works)

  function WithoutFinalizer(c: RepoClaim): RepoClaim { c.(finalizers := c.finalizers - {CLAIM_FINALIZER}) }

  /** The claim after a cleanup, and whether the cleanup reported success: the finalizer comes off
      only if the claim could be read, and the deletion is tried unless that write failed. */
  function CleanedClaim(c: Option<RepoClaim>, f: Fates): (bool, Option<RepoClaim>) {
    if c.None? then (f.drop.Works?, None)
    else
      var written := if !f.read.Works? || f.write.Fails? then c else UpdatedClaim(WithoutFinalizer(c.value));
      if f.read.Works? && !f.write.Works? then (false, written)
      else (f.drop.Works?, if f.drop.Fails? || written.None? then written else MarkedClaim(written.value))
  }

  /** Drop the claim's finalizer, then delete the claim. */
  method Cleanup(s: Server) returns (ok: bool, ghost fates: Fates)
    requires s.Valid() && ViewOf(s.w.log).listed == Some(false)
    modifies s
    ensures s.Valid() && old(s.w).log <= s.w.log && ViewOf(s.w.log) == ViewOf(old(s.w).log)
    ensures s.still ==> && (ok, s.w.claim) == CleanedClaim(old(s.w).claim, fates)
                        && s.w == old(s.w).(claim := s.w.claim, log := s.w.log)
    ensures s.quiet ==> fates == ALL_WORK
  {
    hide WorldOk, AddsOnly, ViewOf, Follows, Rely;
    ghost var w0 := s.w;
    fates := ALL_WORK;
    var found := s.GetClaim();
    RelyParts(w0, s.w);
    if found.ClaimReadFailed? {
      fates := fates.(read := Fails);
    }
    ghost var w1 := s.w;
    if found.ClaimFound? {
      var c := found.claim;
      ghost var fate;
      ok, fate := s.UpdateClaim(c, c.finalizers - {CLAIM_FINALIZER});
      FollowsLog(w1, s.w);
      fates := fates.(write := fate);
      if !ok {
        assert w0.log <= w1.log <= s.w.log;
        return;
      }
    }
    ghost var w2 := s.w;
    ghost var fate;
    ok, fate := s.DeleteClaim();
    FollowsLog(w2, s.w);
    assert w0.log <= w1.log <= w2.log <= s.w.log;
    fates := fates.(drop := fate);
  }

  /** What is left of the claim is as it was, but for the operator's finalizer and the mark of deletion. */
  lemma CleanupKeepsClaim(c: RepoClaim, f: Fates)
    ensures var after := CleanedClaim(Some(c), f).1;
            after.Some? ==>
              var d, own := after.value, {"modelrepository.aitrigram.cliver-project.github.io/storage-protection"};
              && d == c.(finalizers := d.finalizers, deleting := d.deleting)
              && (c.deleting ==> d.deleting) && d.finalizers <= c.finalizers <= d.finalizers + own
  {
  }

  /** If all calls work the claim is gone, or waits for the finalizers of others alone. */
  lemma CleanupWorks(c: RepoClaim)
    ensures var (ok, after) := CleanedClaim(Some(c), Fates(Works, Works, Works));
            var others := c.finalizers - {"modelrepository.aitrigram.cliver-project.github.io/storage-protection"};
            ok && after == if others == {} then None else Some(c.(finalizers := others, deleting := true))
  {
  }

  /** The operator still holds the claim. */
  predicate Holds(c: Option<RepoClaim>) { c.Some? && CLAIM_FINALIZER in c.value.finalizers }

  /** The claim is gone, or on its way out with nothing of the operator's on it. */
  predicate ClaimReleasedFrom(c: Option<RepoClaim>) { c.None? || (c.value.deleting && CLAIM_FINALIZER !in c.value.finalizers) }

  /** The claim once the deletion of its repository is through: without a storage provider it is
      not touched at all. */
  function ClaimAfter(c: Option<RepoClaim>, hasProvider: bool, f: Fates): Option<RepoClaim> {
    if hasProvider then CleanedClaim(c, f).1 else c
  }

  /** Exactly when the repository goes and the operator still holds its claim: it held it, and there
      was no storage provider, or the claim could not be read, or the write that takes the
      finalizer off did not happen. */
  lemma LeftHeldExactly(c: Option<RepoClaim>, hasProvider: bool, f: Fates)
    ensures Holds(ClaimAfter(c, hasProvider, f)) <==> Holds(c) && (!hasProvider || !f.read.Works? || f.write.Fails?)
  {
  }

  /** And exactly when the claim is released: it was, or the finalizer came off (or was not there)
      and the deletion took effect, if it was still needed. */
  lemma ReleasedExactly(c: Option<RepoClaim>, hasProvider: bool, f: Fates)
    ensures ClaimReleasedFrom(ClaimAfter(c, hasProvider, f)) <==>
            || ClaimReleasedFrom(c)
            || (hasProvider
                && (!Holds(c) || (f.read.Works? && !f.write.Fails?))
                && (c.value.deleting || (!f.drop.Fails? && (f.write.Works? || !f.read.Works?))))
  {
  }

  /** A claim that cannot be read stays behind: marked deleted, held for good by a finalizer that
      nobody removes any more. */
  lemma UnreadClaimIsStuck(c: RepoClaim)
    requires CLAIM_FINALIZER in c.finalizers
    ensures var f := Fates(Fails, Works, Works);
            && CleanedClaim(Some(c), f).0
            && ClaimAfter(Some(c), true, f) == Some(c.(deleting := true)) && Holds(ClaimAfter(Some(c), true, f))
  {
  }

  /** The object without the operator's finalizer; gone if it was the last one of a deleted object. */
  function Unfinalized(w: World): World
    requires w.obj.Some?
  {
    MainWritten(w, w.obj.value.spec, w.obj.value.finalizers - {FINALIZER})
  }

  /** Take the operator's finalizer off a fresh copy, up to five times on conflict. */
  method RemoveFinalizer(s: Server) returns (ok: bool)
    requires s.Valid() && ViewOf(s.w.log).listed == Some(false)
    modifies s
    ensures s.Valid() && old(s.w).log <= s.w.log && ViewOf(s.w.log) == ViewOf(old(s.w).log)
    ensures ok && s.w.obj.Some? ==> FINALIZER !in s.w.obj.value.finalizers
    ensures s.still && old(s.w).obj.Some? ==>
              s.w == old(s.w).(log := s.w.log) || s.w == Unfinalized(old(s.w)).(log := s.w.log)
    ensures s.still ==> s.w.claim == old(s.w).claim
    ensures s.quiet && old(s.w).obj.Some? ==> ok && s.w == Unfinalized(old(s.w)).(log := s.w.log)
  {
    for attempt := 0 to RETRY_STEPS
      invariant s.Valid() && old(s.w).log <= s.w.log && ViewOf(s.w.log) == ViewOf(old(s.w).log)
      invariant s.still ==> s.w == old(s.w)
      invariant s.quiet ==> attempt == 0
    {
      hide *;
      ghost var turn := s.w;
      var r := s.Get();
      RelyParts(turn, s.w);
      if !r.Found? {
        return false;
      }
      ghost var got := s.w;
      MayRemove(s.cfg, got, r.repo);
      var written, mid := s.UpdateMain(r.repo.version, r.repo.spec, r.repo.finalizers - {FINALIZER});
      RelyParts(got, mid);
      assert old(s.w).log <= turn.log <= got.log <= mid.log;
      if s.w != mid {
        RemovedParts(mid, r.repo.spec, r.repo.finalizers);
      }
      if !written.Conflict? {
        return written.Done?;
      }
    }
    return false;
  }

  lemma MayRemove(cfg: Config, w: World, o: Repo)
    requires w.obj == Some(o) && ViewOf(w.log).listed == Some(false)
    ensures MayWriteMain(cfg, w, o.version, o.spec, o.finalizers - {FINALIZER})
  {
  }

  lemma RemovedParts(mid: World, spec: Spec, finalizers: set<string>)
    requires mid.obj.Some?
    ensures var v := MainCommitted(mid, spec, finalizers - {FINALIZER});
            && mid.log <= v.log && v.claim == mid.claim
            && (v.obj.Some? ==> FINALIZER !in v.obj.value.finalizers)
            && (mid.obj.value.spec == spec && mid.obj.value.finalizers == finalizers ==> v == Unfinalized(mid).(log := v.log))
  {
  }

  /** A condition that tells the user why the deletion is blocked. */
  function Blocking(names: seq<string>): Mutation {
    SetCondition(Condition(Ready, false, DeletionBlocked, "Cannot delete: still referenced by LLMEngines: " + JoinNames(names)))
  }

  /** What an undisturbed deletion leaves behind: no labelled jobs, the claim released, the object
      without the finalizer. */
  function Deleted(cfg: Config, w: World, hasProvider: bool): World
    requires w.obj.Some?
  {
    Unfinalized(w.(jobs := w.jobs - Labelled(cfg, w), claim := ClaimAfter(w.claim, hasProvider, ALL_WORK)))
  }

  /** What an undisturbed deletion shows the user when it is blocked: the engines, in listing order. */
  lemma BlockedShown(w: World, names: seq<string>)
    requires w.obj.Some?
    ensures var v := Committed(w, Blocking(names));
            && v.obj.Some? && v.obj.value.status.phase == FailedPhase && v.jobs == w.jobs && v.claim == w.claim
            && Shown(v, Ready) == Some(Condition(Ready, false, DeletionBlocked,
                                                 "Cannot delete: still referenced by LLMEngines: " + JoinNames(names)))
            && (names != [] && (forall n | n in names :: ' ' !in n) ==> Text.Split(JoinNames(names), ' ') == names)
  {
    CommittedCondition(w, Blocking(names).condition);
    if names != [] && forall n | n in names :: ' ' !in n {
      Text.SplitJoin(names, ' ');
    }
  }

  /** What an undisturbed deletion that is not blocked leaves: no job of the repository and every
      other job, the claim as the cleanup leaves it, and the object without the operator's finalizer,
      or gone with it. */
  lemma DeletedMeans(cfg: Config, w: World, hasProvider: bool)
    requires w.obj.Some?
    ensures var o, v := w.obj.value, Deleted(cfg, w, hasProvider);
            var others := o.finalizers - {"modelrepository.aitrigram.cliver-project.github.io/finalizer"};
            && (forall j :: j in v.jobs <==> j in w.jobs && w.jobs[j].owner != cfg.repo)
            && (forall j | j in v.jobs :: v.jobs[j] == w.jobs[j])
            && v.claim == (if hasProvider && w.claim.Some? then CleanedClaim(w.claim, Fates(Works, Works, Works)).1 else w.claim)
            && v.obj == (if o.deleting && others == {} then None else Some(o.(version := o.version + 1, finalizers := others)))
            && v == w.(jobs := v.jobs, claim := v.claim, obj := v.obj)
  {
    hide CleanedClaim;
    if w.claim.None? {
      NoClaim(Fates(Works, Works, Works));
    }
  }

  lemma NoClaim(f: Fates)
    ensures CleanedClaim(None, f).1 == None
  {
  }

  /** Tell the user that the deletion is blocked. */
  method Block(s: Server, names: seq<string>)
    requires s.Valid()
    modifies s
    ensures s.Valid() && AddsOnly(old(s.w).log, s.w.log, {}, {Blocking(names)})
    ensures s.quiet && old(s.w).obj.Some? ==> s.w == Committed(old(s.w), Blocking(names))
  {
    hide WorldOk;
    SetRepoCondition(s, Ready, false, DeletionBlocked, Blocking(names).condition.message);
  }

  /** Delete the jobs, release the claim, drop the finalizer, whatever fails on the way. */
  method ReleaseAll(s: Server, hasProvider: bool) returns (ok: bool, ghost fates: Fates)
    requires s.Valid() && ViewOf(s.w.log).listed == Some(false)
    modifies s
    ensures s.Valid() && old(s.w).log <= s.w.log && ViewOf(s.w.log) == ViewOf(old(s.w).log)
    ensures ok && s.w.obj.Some? ==> FINALIZER !in s.w.obj.value.finalizers
    ensures s.still ==> s.w.claim == ClaimAfter(old(s.w).claim, hasProvider, fates)
    ensures s.quiet ==> fates == ALL_WORK
    ensures s.quiet && old(s.w).obj.Some? ==> ok && s.w == Deleted(s.cfg, old(s.w), hasProvider).(log := s.w.log)
  {
    hide WorldOk, CleanedClaim, Labelled, ViewOf;
    fates := ALL_WORK;
    ghost var w0 := s.w;
    DeleteJobs(s);
    ghost var w1 := s.w;
    if hasProvider {
      var _, f := Cleanup(s);
      fates := f;
    }
    ghost var w2 := s.w;
    ok := RemoveFinalizer(s);
    assert w0.log <= w1.log <= w2.log <= s.w.log;
  }

  /** Deletion.  If the listing fails nothing happens; if it shows a reference, all this call adds
      to history is that listing and writes of the blocking condition; otherwise the cleanup runs,
      and success means that the finalizer is gone, whatever became of the claim. */
  method HandleDeletion(s: Server, hasProvider: bool)
    returns (ctl: Control, ghost listed: Option<seq<EngineRef>>, ghost blockedBy: seq<string>, ghost fates: Fates)
    requires s.Valid() && ViewOf(s.w.log).spec.Some? && ViewOf(s.w.log).listed.None?
    modifies s
    ensures s.Valid() && old(s.w).log <= s.w.log
    ensures listed.None? ==> ctl == Error && AddsOnly(old(s.w).log, s.w.log, {}, {})
    ensures listed.Some? && References(listed.value, s.cfg.repo) ==>
              ctl == Error && blockedBy != [] && AddsOnly(old(s.w).log, s.w.log, {Listed(true)}, {Blocking(blockedBy)})
    ensures listed.Some? && !References(listed.value, s.cfg.repo) && ctl == Continue && s.w.obj.Some? ==>
              FINALIZER !in s.w.obj.value.finalizers
    ensures s.still && listed.Some? && !References(listed.value, s.cfg.repo) ==>
              s.w.claim == ClaimAfter(old(s.w).claim, hasProvider, fates)
    ensures s.quiet ==> fates == ALL_WORK
    ensures s.quiet && old(s.w).obj.Some? && References(old(s.w).engines, s.cfg.repo) ==>
              && ctl == Error
              && s.w == Committed(Logged(old(s.w), Listed(true)), Blocking(DependentNames(old(s.w).engines, s.cfg.repo)))
    ensures s.quiet && old(s.w).obj.Some? && !References(old(s.w).engines, s.cfg.repo) ==>
              ctl == Continue && s.w == Deleted(s.cfg, old(s.w), hasProvider).(log := s.w.log)
  {
    hide *;
    ghost var w0 := s.w;
    blockedBy := [];
    fates := ALL_WORK;
    var engines := s.ListEngines();
    listed := engines;
    if engines.None? {
      AddsParts(w0.log, s.w.log, {}, {});
      return Error, listed, blockedBy, fates;
    }
    ghost var w1 := s.w;
    LoggedParts(w0, Listed(References(w0.engines, s.cfg.repo)));
    var names := Dependents(engines.value, s.cfg.repo);
    NamesMean(engines.value, s.cfg.repo);
    ValidParts(s);
    if names != [] {
      Block(s, names);
      BlockedLog(w0.log, w1.log, s.w.log, Blocking(names));
      return Error, listed, names, fates;
    }
    AddsParts(w0.log, w1.log, {Listed(false)}, {});
    ListedView(ViewOf(w0.log), |w1.log| - 1);
    var ok, f := ReleaseAll(s, hasProvider);
    fates := f;
    DeletedAfterListing(s.cfg, w0, w1, hasProvider);
    assert w0.log <= w1.log <= s.w.log;
    return if ok then Continue else Error, listed, blockedBy, fates;
  }

  lemma NamesMean(engines: seq<EngineRef>, repo: string)
    ensures DependentNames(engines, repo) != [] <==> References(engines, repo)
  {
  }

  lemma ListedView(v: View, at: nat)
    requires v.spec.Some? && v.listed.None?
    ensures ViewAfter(v, at, Listed(false)).listed == Some(false)
  {
  }

  lemma AddsParts(a: History, b: History, events: set<Event>, mutations: set<Mutation>)
    requires AddsOnly(a, b, events, mutations)
    ensures a <= b
  {
  }

  lemma DeletedLog(cfg: Config, w: World, v: World, hasProvider: bool)
    requires w.obj.Some?
    ensures v == w.(log := v.log) ==> v.obj.Some? && Deleted(cfg, v, hasProvider) == Deleted(cfg, w, hasProvider).(log := v.log)
  {
  }

  lemma DeletedAfterListing(cfg: Config, w: World, v: World, hasProvider: bool)
    ensures w.obj.Some? && v == Logged(w, Listed(false)) ==>
              v.obj.Some? && Deleted(cfg, v, hasProvider) == Deleted(cfg, w, hasProvider).(log := v.log)
  {
    hide Deleted;
    if w.obj.Some? {
      DeletedLog(cfg, w, v, hasProvider);
    }
  }

  lemma BlockedLog(a: History, b: History, c: History, m: Mutation)
    requires AddsOnly(a, b, {Listed(true)}, {}) && AddsOnly(b, c, {}, {m})
    ensures AddsOnly(a, c, {Listed(true)}, {m}) && a <= c
  {
  }

  // ---------------------------------------------------------------- the pass

  /** Add the operator's finalizer if it is missing; the copy is then what the server answered. */
  method EnsureFinalizer(s: Server, l: Local) returns (ok: bool)
    requires Prepared(s, l) && Precedes(l, s.w)
    modifies s, l
    ensures s.Valid() && old(s.w).log <= s.w.log && ViewOf(s.w.log) == ViewOf(old(s.w).log)
    ensures l.entries == old(l.entries) || fresh(l.entries)
    ensures ok ==> Prepared(s, l)
    ensures s.quiet && old(s.w.obj.Some? && l.CopyOf(s.w.obj.value)) && !old(s.w.obj.value.deleting) ==>
              ok && InStep(l, s.w) && s.w == WithFinalizer(old(s.w))
  {
    hide Agrees, ViewOf, WorldOk;
    if FINALIZER in l.finalizers {
      return true;
    }
    MayAdd(s.cfg, s.w, l);
    var written, mid := s.UpdateMain(l.version, l.spec, l.finalizers + {FINALIZER});
    if !written.Done? {
      if s.w != mid {
        AddedParts(mid, l.spec, l.finalizers);
      }
      return false;
    }
    AddedParts(mid, l.spec, l.finalizers);
    l.Refresh(s.w.obj.value);
    RefreshedIsPrepared(s, l);
    return true;
  }

  /** The object is the one the copy was made of, or a later version. */
  predicate Precedes(l: Local, w: World)
    reads l
  {
    w.obj.Some? ==>
      && l.version <= w.obj.value.version
      && (l.version == w.obj.value.version ==> w.obj.value.spec == l.spec && w.obj.value.finalizers == l.finalizers)
  }

  lemma PrecedesLater(l: Local, before: World, after: World)
    requires before.obj.Some? && l.CopyOf(before.obj.value) && Follows(before, after)
    ensures Precedes(l, after)
  {
  }

  lemma MayAdd(cfg: Config, w: World, l: Local)
    requires Precedes(l, w)
    ensures MayWriteMain(cfg, w, l.version, l.spec, l.finalizers + {FINALIZER})
  {
  }

  lemma AddedParts(mid: World, spec: Spec, finalizers: set<string>)
    requires mid.obj.Some?
    ensures var v := MainCommitted(mid, spec, finalizers + {FINALIZER});
            && mid.log <= v.log && v.obj.Some? && v.obj.value.spec == spec
            && (mid.obj.value.spec == spec ==> v == MainWritten(mid, spec, finalizers + {FINALIZER}))
  {
    assert FINALIZER in finalizers + {FINALIZER};
  }

  /** The world after the pass has read the repository and tried to discover its storage class. */
  function Provided(w: World): World
    requires w.obj.Some?
  {
    if w.obj.value.spec.size == "" then Began(w) else Opened(w)
  }

  predicate HasProvider(w: World)
    requires w.obj.Some?
  {
    w.obj.value.spec.size != "" && w.classes.Some?
  }

  /** One pass over the repository. */
  method Reconcile(s: Server) returns (ctl: Control)
    requires s.Valid()
    modifies s
    ensures s.Valid() && old(s.w).log <= s.w.log
    ensures s.quiet && (old(s.w).obj.Some? ==> !old(s.w).obj.value.deleting) ==> (s.w, ctl) == QuietPass(s.cfg, old(s.w))
    ensures s.quiet && old(s.w).obj.Some? && old(s.w).obj.value.deleting ==>
              if old(s.w).obj.value.spec.modelName == "" then (s.w, ctl) == (Renamed(s.cfg, old(s.w)), Requeue)
              else if References(old(s.w).engines, s.cfg.repo) then
                && ctl == Error
                && s.w == Committed(Logged(Provided(old(s.w)), Listed(true)),
                                    Blocking(DependentNames(old(s.w).engines, s.cfg.repo)))
              else
                ctl == Continue && s.w == Deleted(s.cfg, old(s.w), HasProvider(old(s.w))).(log := s.w.log)
  {
    hide *;
    ghost var w0 := s.w;
    QuietPassCases(s.cfg, w0);
    var r := s.ReadCopy(true);
    ghost var read := s.w;
    if !r.Found? {
      RelyParts(w0, read);
      return if r.NotFound? then Continue else Error;
    }
    FollowsLog(w0, read);
    BeganView(ViewOf(w0.log), |read.log| - 1, r.repo.spec);
    if w0.obj.Some? {
      ProvidedParts(w0);
    }
    var l := new Local(r.repo);
    CopyFields(l, r.repo);
    RefreshedIsPrepared(s, l);
    if l.spec.modelName == "" {
      var ok := DefaultModelName(s, l);
      return if ok then Requeue else Error;
    }
    var info := CreateProvider(s, l.spec);
    ghost var provided := s.w;
    FollowsLog(read, provided);
    assert w0.log <= read.log <= provided.log;
    if info.Some? {
      DiscoveredView(ViewOf(read.log), |provided.log| - 1, info.value);
    }
    if l.deleting {
      var c, _, _, _ := HandleDeletion(s, info.Some?);
      if w0.obj.Some? {
        DeletedAfterReading(s.cfg, w0, provided, info.Some?);
      }
      return c;
    }
    if info.None? {
      SetRepoCondition(s, Ready, false, StorageProviderFailed, "Failed to create storage provider");
      SyncedParts(provided, s.w,
                  SetCondition(Condition(Ready, false, StorageProviderFailed, "Failed to create storage provider")), false);
      return Requeue;
    }
    KeptByFollows(s, l, read);
    CopyKept(l, read, provided);
    PrecedesLater(l, read, provided);
    ctl := ReconcileLive(s, l, info.value);
    assert w0.log <= provided.log <= s.w.log;
  }

  lemma BeganView(v: View, at: nat, spec: Spec)
    ensures ViewAfter(v, at, CopyEvent(true, spec)) == View(at, Some(spec), true, {}, None)
  {
  }

  lemma ProvidedParts(w: World)
    requires w.obj.Some?
    ensures Logged(w, CopyEvent(true, w.obj.value.spec)) == Began(w)
    ensures Began(w).obj == w.obj && Began(w).classes == w.classes && Began(w).engines == w.engines
    ensures Provided(w) == if HasProvider(w) then Logged(Began(w), Discovered(w.classes.value)) else Began(w)
    ensures HasProvider(w) <==> w.obj.value.spec.size != "" && w.classes.Some?
    ensures Provided(w).obj == w.obj && Provided(w).classes == w.classes && Provided(w).engines == w.engines
  {
  }

  lemma DeletedAfterReading(cfg: Config, w: World, v: World, hasProvider: bool)
    requires w.obj.Some?
    ensures v == Provided(w) ==>
              v.obj.Some? && Deleted(cfg, v, hasProvider).(log := []) == Deleted(cfg, w, hasProvider).(log := [])
  {
    hide Deleted;
    DeletedLog(cfg, w, v, hasProvider);
  }

  lemma CopyKept(l: Local, before: World, after: World)
    ensures before.obj.Some? && l.CopyOf(before.obj.value) && after.obj == before.obj ==>
              after.obj.Some? && l.CopyOf(after.obj.value)
  {
  }

  lemma KeptByFollows(s: Server, l: Local, before: World)
    requires s.Valid() && l.Valid() && Distinct(DesiredRevisions(l.spec)) && ViewOf(s.w.log).spec == Some(l.spec)
    requires Agrees(l.Revisions(), before, NamesOf(DesiredRevisions(l.spec))) && Follows(before, s.w)
    ensures Prepared(s, l)
  {
    LocalStoredKept(l.Revisions(), before.log, s.w.log);
    if s.w.obj.Some? {
      assert Own(s.w.obj.value.status).revisions == Own(before.obj.value.status).revisions;
    }
  }

  /** A repository without a model name gets its own. */
  method DefaultModelName(s: Server, l: Local) returns (ok: bool)
    requires l.spec.modelName == "" && s.Valid() && s.w.obj.Some? && l.CopyOf(s.w.obj.value) && Distinct(DesiredRevisions(l.spec))
    modifies s
    ensures s.Valid() && old(s.w).log <= s.w.log
    ensures s.quiet ==>
              ok && s.w == MainCommitted(old(s.w), old(s.w).obj.value.spec.(modelName := s.cfg.repo), old(s.w).obj.value.finalizers)
  {
    var spec := l.spec.(modelName := s.cfg.repo);
    assert DesiredRevisions(spec) == DesiredRevisions(l.spec);
    var written, mid := s.UpdateMain(l.version, spec, l.finalizers);
    return written.Done?;
  }

  // The branches of the undisturbed pass, one by one.
  lemma QuietPassCases(cfg: Config, w: World)
    ensures w.obj.None? ==> QuietPass(cfg, w) == (w, Continue)
    ensures w.obj.Some? ==>
              Renamed(cfg, w) == MainCommitted(Began(w), w.obj.value.spec.(modelName := cfg.repo), w.obj.value.finalizers)
    ensures w.obj.Some? && !w.obj.value.deleting ==>
              var o := w.obj.value;
              QuietPass(cfg, w) ==
              if o.spec.modelName == "" then (Renamed(cfg, w), Requeue)
              else if !HasProvider(w) then (Committed(Provided(w), SetCondition(PROVIDER_FAILED)), Requeue)
              else LivePart(cfg, WithFinalizer(Provided(w)), w.classes.value)
    ensures PROVIDER_FAILED == Condition(Ready, false, StorageProviderFailed, "Failed to create storage provider")
  {
  }

  /** What the pass has settled before it looks at revisions. */
  function PlanOf(l: Local, refreshed: ClassInfo): Plan
    reads l
  {
    Plan(DesiredRevisions(l.spec), l.spec.origin, NodeAffinity(refreshed, l.storage))
  }

  lemma PlanMatches(s: Server, l: Local, refreshed: ClassInfo)
    requires Prepared(s, l) && NodeSeen(ViewOf(s.w.log), refreshed, l.storage)
    ensures var p := PlanOf(l, refreshed);
            && PlanFits(ViewOf(s.w.log), p) && Distinct(p.desired) && Agrees(l.Revisions(), s.w, NamesOf(p.desired))
            && s.Valid() && l.Valid()
            && (InStep(l, s.w) ==>
                  s.w.obj.Some? && p == PlanFor(s.w, refreshed) && l.Revisions() == s.w.obj.value.status.revisions)
  {
  }

  lemma LivePartCases(cfg: Config, w: World, info: ClassInfo)
    requires w.obj.Some?
    ensures var (v, ctl) := StoragePart(cfg, w, info);
            && v.obj.Some? && v.obj.value.spec == w.obj.value.spec
            && LivePart(cfg, w, info) ==
               if ctl != Continue || !w.obj.value.spec.autoDownload then (v, ctl) else DownloadPart(cfg, v, info)
  {
  }

  lemma DownloadPartCases(cfg: Config, w: World, info: ClassInfo)
    requires w.obj.Some?
    ensures var p := PlanFor(w, info);
            var e := Steps(cfg, p, w, w.obj.value.status.revisions, p.desired);
            DownloadPart(cfg, w, info) ==
            if e.ctl != Continue then (e.w, e.ctl)
            else (Overall(e.w, e.local, p.desired, e.running), if e.running then Requeue else Continue)
  {
  }

  lemma FinalizerParts(w: World)
    requires w.obj.Some? && !w.obj.value.deleting
    ensures WithFinalizer(w).obj.Some? && WithFinalizer(w).classes == w.classes && WithFinalizer(w).obj.value.spec == w.obj.value.spec
  {
  }

  lemma InStepParts(l: Local, w: World)
    requires InStep(l, w)
    ensures w.obj.Some? && l.spec == w.obj.value.spec
  {
  }

  /** The pass over a repository that is not being deleted. */
  method ReconcileLive(s: Server, l: Local, info: ClassInfo) returns (ctl: Control)
    requires Prepared(s, l) && Precedes(l, s.w) && (ViewOf(s.w.log).nodeBound ==> info.mode == ReadWriteOnce)
    modifies s, l, l.entries
    ensures s.Valid() && old(s.w).log <= s.w.log
    ensures s.quiet && old(s.w.obj.Some? && l.CopyOf(s.w.obj.value)) && !old(s.w.obj.value.deleting) && old(s.w).classes == Some(info) ==>
              (s.w, ctl) == LivePart(s.cfg, WithFinalizer(old(s.w)), info)
  {
    hide *;
    ghost var w0 := s.w;
    ghost var quiet := s.quiet && s.w.obj.Some? && l.CopyOf(s.w.obj.value) && !s.w.obj.value.deleting && s.w.classes == Some(info);
    var ok := EnsureFinalizer(s, l);
    if !ok {
      return Error;
    }
    if quiet {
      FinalizerParts(w0);
      LivePartCases(s.cfg, s.w, info);
    }
    ghost var w1 := s.w;
    var refreshed;
    refreshed, ctl := ReconcileStorage(s, l, info);
    ghost var w2 := s.w;
    assert w0.log <= w1.log <= w2.log;
    if ctl != Continue {
      return;
    }
    if quiet {
      InStepParts(l, s.w);
    }
    if !l.spec.autoDownload {
      return;
    }
    var p := PlanOf(l, refreshed.value);
    PlanMatches(s, l, refreshed.value);
    if quiet {
      DownloadPartCases(s.cfg, s.w, info);
    }
    ctl := ReconcileRevisions(s, l, p);
  }

  // ---------------------------------------------------------------- whole runs

  /** Any number of passes, with any interference before, between and inside them, by a controller
      that may give up a pass at any error: the history stays safe. */
  method Operate(s: Server, passes: nat)
    requires s.Valid()
    modifies s
    ensures s.Valid() && Safe(s.cfg, s.w.log) && old(s.w).log <= s.w.log
  {
    for i := 0 to passes
      invariant s.Valid() && old(s.w).log <= s.w.log
    {
      s.Yield();
      var _ := Reconcile(s);
    }
  }

  /** Three undisturbed passes over a settled repository: two reach Ready, the third writes nothing. */
  method Stabilise(s: Server)
    requires s.Valid() && s.quiet && Settled(s.cfg, s.w)
    modifies s
    ensures s.Valid() && Stable(s.cfg, s.w)
    ensures s.w.obj.value.status.phase == ReadyPhase && Find(s.w.obj.value.status.conditions, Ready) == Some(READY)
    ensures Settled(s.cfg, old(s.w)) && Settled(s.cfg, Pass(s.cfg, old(s.w)))
    ensures var two := Pass(s.cfg, Pass(s.cfg, old(s.w)));
            s.w.obj == two.obj && s.w.jobs == two.jobs && s.w.claim == two.claim
  {
    hide Settled, Pass, QuietPass, Stable;
    TwoPassesStabilise(s.cfg, s.w);
    SettledPass(s.cfg, s.w);
    SettledIsLive(s.cfg, s.w);
    var c1 := Reconcile(s);
    SettledPass(s.cfg, s.w);
    SettledIsLive(s.cfg, s.w);
    var c2 := Reconcile(s);
    StablePassWritesNothing(s.cfg, s.w);
    StableIsSettled(s.cfg, s.w);
    SettledPass(s.cfg, s.w);
    SettledIsLive(s.cfg, s.w);
    var c3 := Reconcile(s);
    StablePassWritesNothing(s.cfg, s.w);
  }

  lemma SettledIsLive(cfg: Config, w: World)
    requires Settled(cfg, w)
    ensures w.obj.Some? && !w.obj.value.deleting
  {
  }

  lemma StableIsSettled(cfg: Config, w: World)
    requires Stable(cfg, w)
    ensures Settled(cfg, w) && w.obj.Some?
  {
  }
}
