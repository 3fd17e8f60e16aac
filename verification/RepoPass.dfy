/** One undisturbed reconcile pass once storage is settled and the downloads have succeeded, and
    why two such passes are always enough. */
module RepoPass {
  import opened Common
  import opened Backend
  import opened Status
  import opened RepoWorld
  import opened RepoServer

  const READY := Condition(Ready, true, AllRevisionsReady, "All revisions downloaded successfully")

  // ---------------------------------------------------------------- storage

  function OwnerOf(cfg: Config): Owner { Owner(cfg.repo, cfg.repo + "-storage", cfg.namespace) }

  /** The storage status read from the bound claim and its volume; None stands for an error. */
  function StorageRead(cfg: Config, w: World, info: ClassInfo): Option<StorageStatus> {
    if w.claim.None? || !w.claim.value.bound || w.claim.value.volume == "" then None
    else if w.claim.value.volume !in w.volumes then None
    else
      var v := w.volumes[w.claim.value.volume];
      match Extracted(v.source, OwnerOf(cfg))
      case None => None
      case Some(b) =>
        Some(StorageStatus(info.name, info.mode, Some(b),
                           if info.mode == ReadWriteOnce then NodeName(v.nodeTerms) else "",
                           w.claim.value.capacity))
  }

  /** What is recorded of the storage: the class discovered, the claim's capacity, the node for
      node-bound storage, and a backend that names the repository's own claim and directory.  It is read exactly
      if the claim is bound to a volume that is there and of a known kind. */
  lemma StorageReadHolds(cfg: Config, w: World, info: ClassInfo)
    ensures StorageRead(cfg, w, info).Some? <==>
            && w.claim.Some? && w.claim.value.bound && w.claim.value.volume != "" && w.claim.value.volume in w.volumes
            && FirstMember(w.volumes[w.claim.value.volume].source) != NoMember
    ensures StorageRead(cfg, w, info).Some? ==>
              var st, v := StorageRead(cfg, w, info).value, w.volumes[w.claim.value.volume];
              && st.storageClass == info.name && st.accessMode == info.mode && st.capacity == w.claim.value.capacity
              && st.boundNode == (if info.mode == ReadWriteOnce then NodeName(v.nodeTerms) else "")
              && st.backend.Some? && st.backend.value.kind == KindFor(v.source)
              && Get(st.backend.value.details, "pvcName") == cfg.repo + "-storage"
              && Get(st.backend.value.details, "pvcNamespace") == cfg.namespace
              && Get(st.backend.value.details, "subPath") ==
                 if FirstMember(v.source) in {NfsMember, CsiMember, CephMember, GlusterMember}
                 then "/modelrepositories/" + cfg.repo else ""
  {
    hide Extracted, KindFor, FirstMember, NodeName;
    if w.claim.Some? && w.claim.value.volume in w.volumes {
      RecordNamesClaim(w.volumes[w.claim.value.volume].source, OwnerOf(cfg));
    }
  }

  predicate SeesBound(w: World) {
    w.claim.Some? && w.claim.value.bound && w.claim.value.volume in w.volumes && w.claim.value.volume != ""
  }

  /** The world after the bound claim and its volume were read. */
  function Observed(w: World): World {
    if SeesBound(w) then Logged(w, ClaimSeenBound(NodeName(w.volumes[w.claim.value.volume].nodeTerms))) else w
  }

  /** The storage status read and recorded. */
  function StorageWritten(cfg: Config, w: World, info: ClassInfo): World
    requires w.obj.Some?
  {
    match StorageRead(cfg, w, info)
    case None => Observed(w)
    case Some(st) => Committed(Observed(w), PutStorage(st))
  }

  /** The repository and its storage class read once more. */
  function Reread(w: World, info: ClassInfo): World
    requires w.obj.Some?
  {
    Logged(Logged(w, SpecRead(w.obj.value.spec)), Discovered(info))
  }

  /** Once the storage status is recorded, the pass refreshes what it works from. */
  function StorageStep(cfg: Config, w: World, info: ClassInfo): World
    requires w.obj.Some?
  {
    var v := StorageWritten(cfg, w, info);
    if StorageRead(cfg, w, info).Some? then Reread(v, info) else v
  }

  // ---------------------------------------------------------------- revisions

  /** The entry a succeeded job leaves behind. */
  function ReadyEntry(local: seq<Revision>, r: RevisionRef): Revision {
    match FindRevision(local, r.name)
    case Some(e) => e.(status := ReadyPhase)
    case None => Revision(r.name, r.ref, ReadyPhase)
  }

  /** One revision whose download succeeded.  A found entry is updated in the local copy as well,
      a missing one only on the server. */
  function RevisionStep(w: World, local: seq<Revision>, r: RevisionRef): (World, seq<Revision>)
    requires w.obj.Some?
  {
    if IsReady(local, r.name) then (w, local)
    else
      var e := ReadyEntry(local, r);
      (Committed(w, PutRevision(e)), if FindRevision(local, r.name).Some? then Put(local, e) else local)
  }

  function RevisionSteps(w: World, local: seq<Revision>, rs: seq<RevisionRef>): (r: (World, seq<Revision>))
    requires w.obj.Some?
    ensures r.0.obj.Some?
    decreases |rs|
  {
    if rs == [] then (w, local)
    else
      var (w1, local1) := RevisionStep(w, local, rs[0]);
      RevisionSteps(w1, local1, rs[1..])
  }

  predicate AllReady(local: seq<Revision>, desired: seq<RevisionRef>) {
    forall d | d in desired :: IsReady(local, d.name)
  }

  function OverallStep(w: World, local: seq<Revision>, desired: seq<RevisionRef>): World
    requires w.obj.Some?
  {
    if AllReady(local, desired) then Committed(w, SetCondition(READY)) else w
  }

  // ---------------------------------------------------------------- the pass

  /** Storage settled, nothing being deleted, every desired download succeeded. */
  predicate Settled(cfg: Config, w: World) {
    && w.obj.Some? && w.classes.Some? && w.claim.Some?
    && var o := w.obj.value;
    && o.spec.modelName != "" && !o.deleting && o.spec.autoDownload
    && o.spec.size != "" && cfg.parse(o.spec.size).Some?
    && (StorageRead(cfg, w, w.classes.value).Some? || w.classes.value.mode == ReadWriteMany)
    && forall d | d in DesiredRevisions(o.spec) ::
         || IsReady(o.status.revisions, d.name)
         || (DownloadJob(cfg, d.name) in w.jobs && w.jobs[DownloadJob(cfg, d.name)].succeeded > 0)
  }

  function WithFinalizer(w: World): World
    requires w.obj.Some? && !w.obj.value.deleting
  {
    var o := w.obj.value;
    if FINALIZER in o.finalizers then w else MainWritten(w, o.spec, o.finalizers + {FINALIZER})
  }

  /** The pass has read the repository. */
  function Began(w: World): World
    requires w.obj.Some?
  {
    Logged(w, PassBegan(w.obj.value.spec))
  }

  /** The pass has read the repository and found its storage class. */
  function Opened(w: World): World
    requires w.obj.Some?
  {
    if w.classes.Some? then Logged(Began(w), Discovered(w.classes.value)) else Began(w)
  }

  /** The pass up to its last step, with the local copy's revisions. */
  function Downloaded(cfg: Config, w: World): (r: (World, seq<Revision>))
    requires Settled(cfg, w)
    ensures r.0.obj.Some?
  {
    var desired := DesiredRevisions(w.obj.value.spec);
    var w1 := StorageStep(cfg, WithFinalizer(Opened(w)), w.classes.value);
    RevisionSteps(w1, w1.obj.value.status.revisions, desired)
  }

  function Pass(cfg: Config, w: World): (v: World)
    requires Settled(cfg, w)
    ensures v.obj.Some?
  {
    var (w2, local) := Downloaded(cfg, w);
    OverallStep(w2, local, DesiredRevisions(w.obj.value.spec))
  }

  // ---------------------------------------------------------------- what the steps keep

  /** The same but for the object's version and status, and the history. */
  predicate SameBut(w: World, v: World) {
    && w.obj.Some? && v.obj.Some?
    && v.obj.value == w.obj.value.(version := v.obj.value.version, status := v.obj.value.status)
    && v == w.(obj := v.obj, log := v.log)
  }

  lemma CommittedEffect(w: World, m: Mutation)
    requires w.obj.Some?
    ensures SameBut(w, Committed(w, m))
    ensures Committed(w, m).obj.value.status == Apply(m, w.obj.value.status)
  {
  }

  predicate NamedIn(rs: seq<RevisionRef>, n: string) { exists r :: r in rs && r.name == n }

  /** Whatever is ready in the local copy is ready on the server. */
  ghost predicate Covered(local: seq<Revision>, server: seq<Revision>) {
    forall x: string :: IsReady(local, x) ==> IsReady(server, x)
  }

  lemma PutKeepsCovered(local: seq<Revision>, server: seq<Revision>, e: Revision)
    requires Covered(local, server) && e.status == ReadyPhase
    ensures Covered(Put(local, e), Put(server, e)) && Covered(local, Put(server, e))
  {
    forall x: string
      ensures IsReady(Put(local, e), x) ==> IsReady(Put(server, e), x)
      ensures IsReady(local, x) ==> IsReady(Put(server, e), x)
    {
      FindAfterPut(local, e, x);
      FindAfterPut(server, e, x);
      assert IsReady(local, x) ==> IsReady(server, x);
    }
  }

  lemma RevisionStepEffect(w: World, local: seq<Revision>, r: RevisionRef, n: string)
    requires w.obj.Some? && Covered(local, w.obj.value.status.revisions)
    ensures var (v, after) := RevisionStep(w, local, r);
            && SameBut(w, v)
            && v.obj.value.status == w.obj.value.status.(revisions := v.obj.value.status.revisions)
            && Covered(after, v.obj.value.status.revisions)
            && (IsReady(w.obj.value.status.revisions, n) || r.name == n ==> IsReady(v.obj.value.status.revisions, n))
            && (FindRevision(after, n).Some? <==> FindRevision(local, n).Some?)
            && (FindRevision(local, n).Some? && r.name == n ==> IsReady(after, n))
            && (IsReady(local, n) ==> IsReady(after, n))
  {
    if !IsReady(local, r.name) {
      var e := ReadyEntry(local, r);
      CommittedEffect(w, PutRevision(e));
      PutKeepsCovered(local, w.obj.value.status.revisions, e);
      FindAfterPut(w.obj.value.status.revisions, e, n);
      FindAfterPut(local, e, n);
    }
  }

  /** Every desired revision ends up ready on the server; the local copy learns of it only for
      entries it already had. */
  lemma {:induction false} RevisionStepsEffect(w: World, local: seq<Revision>, rs: seq<RevisionRef>, n: string)
    requires w.obj.Some? && Covered(local, w.obj.value.status.revisions)
    ensures var (v, after) := RevisionSteps(w, local, rs);
            && SameBut(w, v)
            && v.obj.value.status == w.obj.value.status.(revisions := v.obj.value.status.revisions)
            && (IsReady(w.obj.value.status.revisions, n) || NamedIn(rs, n) ==> IsReady(v.obj.value.status.revisions, n))
            && (FindRevision(after, n).Some? <==> FindRevision(local, n).Some?)
            && (FindRevision(local, n).Some? && NamedIn(rs, n) ==> IsReady(after, n))
            && (IsReady(local, n) ==> IsReady(after, n))
    decreases |rs|
  {
    if rs != [] {
      var (w1, local1) := RevisionStep(w, local, rs[0]);
      RevisionStepEffect(w, local, rs[0], n);
      RevisionStepsEffect(w1, local1, rs[1..], n);
      assert NamedIn(rs, n) <==> rs[0].name == n || NamedIn(rs[1..], n) by {
        assert rs == [rs[0]] + rs[1..];
      }
    }
  }

  /** If every desired revision is ready locally there is nothing to do. */
  lemma {:induction false} RevisionStepsIdle(w: World, local: seq<Revision>, rs: seq<RevisionRef>)
    requires w.obj.Some? && AllReady(local, rs)
    ensures RevisionSteps(w, local, rs) == (w, local)
    decreases |rs|
  {
    if rs != [] {
      RevisionStepsIdle(w, local, rs[1..]);
    }
  }

  /** The storage status is up to date. */
  predicate StorageCurrent(cfg: Config, w: World)
    requires w.obj.Some? && w.classes.Some?
  {
    match StorageRead(cfg, w, w.classes.value)
    case None => true
    case Some(st) => Apply(PutStorage(st), w.obj.value.status) == w.obj.value.status
  }

  lemma PutStorageTwice(st: StorageStatus, s: RepoStatus)
    ensures Apply(PutStorage(st), Apply(PutStorage(st), s)) == Apply(PutStorage(st), s)
  {
    var c := Condition(StorageReady, true, StorageProvisioned, "Storage provisioned with class " + st.storageClass);
    FindAfterSet(s.conditions, c, StorageReady);
    SetIsNoChange(Set(s.conditions, c), c);
  }

  /** Setting another kind of condition does not outdate the storage status. */
  lemma StorageStaysCurrent(st: StorageStatus, s: RepoStatus, c: Condition, rs: seq<Revision>)
    requires Apply(PutStorage(st), s) == s && c.kind != StorageReady
    ensures Apply(PutStorage(st), s.(revisions := rs)) == s.(revisions := rs)
    ensures Apply(PutStorage(st), Apply(SetCondition(c), s)) == Apply(SetCondition(c), s)
  {
    var d := Condition(StorageReady, true, StorageProvisioned, "Storage provisioned with class " + st.storageClass);
    SetIsNoChange(s.conditions, d);
    FindAfterSet(s.conditions, c, StorageReady);
    SetIsNoChange(Set(s.conditions, c), d);
  }

  // ---------------------------------------------------------------- one pass

  predicate AllKnown(rs: seq<Revision>, desired: seq<RevisionRef>) {
    forall d | d in desired :: FindRevision(rs, d.name).Some?
  }

  lemma DownloadedEffect(cfg: Config, w: World)
    requires Settled(cfg, w)
    ensures var (v, local) := Downloaded(cfg, w);
            var desired := DesiredRevisions(w.obj.value.spec);
            && SameBut(WithFinalizer(w), v)
            && StorageCurrent(cfg, v)
            && AllReady(v.obj.value.status.revisions, desired)
            && (AllReady(local, desired) <==> AllKnown(w.obj.value.status.revisions, desired))
            && Find(v.obj.value.status.conditions, Ready) == Find(w.obj.value.status.conditions, Ready)
            && v.obj.value.status.phase == w.obj.value.status.phase
  {
    var desired := DesiredRevisions(w.obj.value.spec);
    hide StorageRead, RevisionSteps, AllReady, AllKnown, IsReady, Find;
    var w0 := WithFinalizer(Opened(w));
    StorageStepEffect(cfg, w0);
    var w1 := StorageStep(cfg, w0, w.classes.value);
    RevisionsDone(w1, desired);
    var v := RevisionSteps(w1, w1.obj.value.status.revisions, desired).0;
    RevisionsKeepStorage(cfg, w1, v);
  }

  lemma RevisionsDone(w: World, desired: seq<RevisionRef>)
    requires w.obj.Some?
    ensures var R := w.obj.value.status.revisions;
            var (v, local) := RevisionSteps(w, R, desired);
            && SameBut(w, v)
            && v.obj.value.status == w.obj.value.status.(revisions := v.obj.value.status.revisions)
            && AllReady(v.obj.value.status.revisions, desired)
            && (AllReady(local, desired) <==> AllKnown(R, desired))
  {
    var R := w.obj.value.status.revisions;
    var (v, local) := RevisionSteps(w, R, desired);
    RevisionStepsEffect(w, R, desired, "");
    forall d | d in desired
      ensures IsReady(v.obj.value.status.revisions, d.name)
      ensures IsReady(local, d.name) <==> FindRevision(R, d.name).Some?
    {
      assert NamedIn(desired, d.name);
      RevisionStepsEffect(w, R, desired, d.name);
    }
  }

  lemma RevisionsKeepStorage(cfg: Config, w: World, v: World)
    requires w.classes.Some? && SameBut(w, v) && StorageCurrent(cfg, w)
    requires v.obj.value.status == w.obj.value.status.(revisions := v.obj.value.status.revisions)
    ensures StorageCurrent(cfg, v)
  {
  }

  lemma OverallEffect(cfg: Config, w: World, desired: seq<RevisionRef>)
    requires w.obj.Some? && w.classes.Some? && StorageCurrent(cfg, w)
    ensures var v := Committed(w, SetCondition(READY));
            && SameBut(w, v) && v.obj.value.status.revisions == w.obj.value.status.revisions
            && StorageCurrent(cfg, v)
            && Apply(SetCondition(READY), v.obj.value.status) == v.obj.value.status
  {
    var v := Committed(w, SetCondition(READY));
    CommittedEffect(w, SetCondition(READY));
    ReadyTwice(w.obj.value.status);
    StorageReadFrame(cfg, w, v, w.classes.value);
    if StorageRead(cfg, w, w.classes.value).Some? {
      StorageStaysCurrent(StorageRead(cfg, w, w.classes.value).value, w.obj.value.status, READY, []);
    }
  }

  /** After one pass: still settled, finalizer and storage in place, every desired revision ready
      on the server.  The condition Ready=True is written exactly if each had an entry before;
      otherwise condition and phase are what they were. */
  lemma OnePass(cfg: Config, w: World)
    requires Settled(cfg, w)
    ensures var v := Pass(cfg, w);
            var desired := DesiredRevisions(w.obj.value.spec);
            && Settled(cfg, v) && v.obj.value.spec == w.obj.value.spec
            && v.jobs == w.jobs && v.claim == w.claim
            && v.obj.value.finalizers == w.obj.value.finalizers + {"modelrepository.aitrigram.cliver-project.github.io/finalizer"}
            && StorageCurrent(cfg, v)
            && AllReady(v.obj.value.status.revisions, desired)
            && (if AllKnown(w.obj.value.status.revisions, desired) then
                  Apply(SetCondition(READY), v.obj.value.status) == v.obj.value.status
                else
                  && Find(v.obj.value.status.conditions, Ready) == Find(w.obj.value.status.conditions, Ready)
                  && v.obj.value.status.phase == w.obj.value.status.phase)
  {
    hide StorageRead, StorageStep, RevisionSteps;
    DownloadedEffect(cfg, w);
    var (w2, local) := Downloaded(cfg, w);
    var desired := DesiredRevisions(w.obj.value.spec);
    if AllReady(local, desired) {
      OverallEffect(cfg, w2, desired);
    }
    StorageReadFrame(cfg, w, Pass(cfg, w), w.classes.value);
  }

  /** So every revision that the spec lists is ready on the server after one pass, and if it lists
      none, the one it stands for. */
  lemma OnePassServesSpec(cfg: Config, w: World)
    requires Settled(cfg, w)
    ensures var R := Pass(cfg, w).obj.value.status.revisions;
            && (forall d | d in w.obj.value.spec.revisions :: IsReady(R, d.name))
            && (forall n: string | SoleRevision(w.obj.value.spec, n) :: IsReady(R, n))
  {
    hide Settled, Pass, IsReady, DesiredRevisions, SoleRevision, StorageCurrent, AllKnown;
    SettledObject(cfg, w);
    OnePass(cfg, w);
    DesiredExactly(w.obj.value.spec);
    forall n: string | SoleRevision(w.obj.value.spec, n) ensures IsReady(Pass(cfg, w).obj.value.status.revisions, n) {
      assert RevisionRef(n, n) in DesiredRevisions(w.obj.value.spec);
    }
  }

  lemma SettledObject(cfg: Config, w: World)
    requires Settled(cfg, w)
    ensures w.obj.Some? && Pass(cfg, w).obj.Some?
  {
  }

  lemma ReadyTwice(s: RepoStatus)
    ensures Apply(SetCondition(READY), Apply(SetCondition(READY), s)) == Apply(SetCondition(READY), s)
    ensures Find(Apply(SetCondition(READY), s).conditions, Ready) == Some(READY)
  {
    FindAfterSet(s.conditions, READY, Ready);
    SetIsNoChange(Set(s.conditions, READY), READY);
  }

  // Reading the storage looks at nothing a status write touches.
  lemma StorageReadFrame(cfg: Config, w: World, v: World, info: ClassInfo)
    requires w.claim == v.claim && w.volumes == v.volumes
    ensures StorageRead(cfg, w, info) == StorageRead(cfg, v, info)
  {
  }

  lemma StorageStepEffect(cfg: Config, w: World)
    requires w.obj.Some? && w.classes.Some?
    ensures var v := StorageStep(cfg, w, w.classes.value);
            && SameBut(w, v) && v.obj.value.status.revisions == w.obj.value.status.revisions
            && v.obj.value.status.phase == w.obj.value.status.phase
            && Find(v.obj.value.status.conditions, Ready) == Find(w.obj.value.status.conditions, Ready)
            && StorageCurrent(cfg, v)
  {
    var v := StorageStep(cfg, w, w.classes.value);
    match StorageRead(cfg, w, w.classes.value) {
      case None => StorageReadFrame(cfg, w, v, w.classes.value);
      case Some(st) =>
        CommittedEffect(Observed(w), PutStorage(st));
        PutStorageTwice(st, w.obj.value.status);
        FindAfterSet(w.obj.value.status.conditions,
                     Condition(StorageReady, true, StorageProvisioned, "Storage provisioned with class " + st.storageClass), Ready);
        StorageReadFrame(cfg, w, v, w.classes.value);
    }
  }

  /** Nothing left to write. */
  predicate Stable(cfg: Config, w: World) {
    && Settled(cfg, w)
    && FINALIZER in w.obj.value.finalizers && StorageCurrent(cfg, w)
    && AllReady(w.obj.value.status.revisions, DesiredRevisions(w.obj.value.spec))
    && Apply(SetCondition(READY), w.obj.value.status) == w.obj.value.status
  }

  /** A stable repository is Ready in condition and phase, and a pass over it writes nothing. */
  lemma StablePassWritesNothing(cfg: Config, w: World)
    requires Stable(cfg, w)
    ensures var v := Pass(cfg, w);
            && v.obj == w.obj && v.jobs == w.jobs && v.claim == w.claim
            && Stable(cfg, v)
            && Find(w.obj.value.status.conditions, Ready) == Some(READY) && w.obj.value.status.phase == ReadyPhase
            && READY == Condition(Ready, true, AllRevisionsReady, "All revisions downloaded successfully")
  {
    var desired := DesiredRevisions(w.obj.value.spec);
    var w0 := WithFinalizer(Opened(w));
    assert w0.obj == w.obj && w0.claim == w.claim && w0.volumes == w.volumes;
    StorageReadFrame(cfg, w, w0, w.classes.value);
    var w1 := StorageStep(cfg, w0, w.classes.value);
    assert w1.obj == w.obj && w1.claim == w.claim && w1.volumes == w.volumes && w1.jobs == w.jobs && w1.classes == w.classes;
    StorageReadFrame(cfg, w, w1, w.classes.value);
    RevisionStepsIdle(w1, w1.obj.value.status.revisions, desired);
    ReadyTwice(w.obj.value.status);
  }

  /** Stabilisation: from every status whatever, two passes make the repository Ready and stable,
      so every later pass writes nothing. */
  lemma TwoPassesStabilise(cfg: Config, w: World)
    requires Settled(cfg, w)
    ensures Settled(cfg, Pass(cfg, w)) && Stable(cfg, Pass(cfg, Pass(cfg, w)))
  {
    OnePass(cfg, w);
    var v := Pass(cfg, w);
    assert AllKnown(v.obj.value.status.revisions, DesiredRevisions(v.obj.value.spec)) by {
      forall d | d in DesiredRevisions(v.obj.value.spec) ensures FindRevision(v.obj.value.status.revisions, d.name).Some? {
        assert IsReady(v.obj.value.status.revisions, d.name);
      }
    }
    OnePass(cfg, v);
  }

  /** One pass is enough exactly if every desired revision already had an entry, or the condition
      and the phase already read Ready. */
  lemma OnePassEnough(cfg: Config, w: World)
    requires Settled(cfg, w)
    ensures Stable(cfg, Pass(cfg, w)) <==>
            || AllKnown(w.obj.value.status.revisions, DesiredRevisions(w.obj.value.spec))
            || (Find(w.obj.value.status.conditions, Ready) == Some(READY) && w.obj.value.status.phase == ReadyPhase)
  {
    OnePass(cfg, w);
    var s := Pass(cfg, w).obj.value.status;
    SetIsNoChange(s.conditions, READY);
    if Apply(SetCondition(READY), s) == s {
      ReadyTwice(s);
    }
  }
}
