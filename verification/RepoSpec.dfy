/** The undisturbed reconcile pass as a function of the world, branch by branch, and what it
    achieves for downloads that have not succeeded yet. */
module RepoSpec {
  import opened Common
  import opened Backend
  import opened Status
  import opened RepoWorld
  import opened RepoServer
  import opened RepoPass
  import Names

  /** How a step of a pass ends: go on, requeue, or return an error. */
  datatype Control = Continue | Requeue | Error

  /** What a pass has settled before it looks at revisions. */
  datatype Plan = Plan(desired: seq<RevisionRef>, origin: Origin, affinity: Option<string>)

  datatype End = End(w: World, local: seq<Revision>, running: bool, ctl: Control)

  const PROVIDER_FAILED := Condition(Ready, false, StorageProviderFailed, "Failed to create storage provider")
  const VALIDATION_FAILED := Condition(StorageReady, false, ValidationFailed, "Storage validation failed")
  const DOWNLOADING := Condition(Ready, false, DownloadingRevisions, "Downloading revisions")

  function JobFailedCondition(r: RevisionRef): Condition {
    Condition(Ready, false, DownloadFailed, "Download job failed for revision " + r.name)
  }

  // ---------------------------------------------------------------- one revision

  /** The revision's entry with a new status: the local one, or a fresh one. */
  function EntryWith(local: seq<Revision>, r: RevisionRef, status: Phase): Revision {
    match FindRevision(local, r.name)
    case Some(e) => e.(status := status)
    case None => Revision(r.name, r.ref, status)
  }

  /** The entry reaches the server; the local copy only if it had one. */
  function Recorded(w: World, local: seq<Revision>, r: RevisionRef, status: Phase): (World, seq<Revision>)
    requires w.obj.Some?
  {
    var e := EntryWith(local, r, status);
    (Committed(w, PutRevision(e)), if FindRevision(local, r.name).Some? then Put(local, e) else local)
  }

  function JobStep(p: Plan, w: World, local: seq<Revision>, r: RevisionRef, job: Job): (e: End)
    requires w.obj.Some?
    ensures e.w.obj.Some?
  {
    if job.succeeded > 0 then
      var (v, after) := Recorded(w, local, r, ReadyPhase);
      End(v, after, false, Continue)
    else if job.failed > 0 then
      var (v, after) := Recorded(w, local, r, FailedPhase);
      End(Committed(v, SetCondition(JobFailedCondition(r))), after, false, Requeue)
    else if FindRevision(local, r.name).Some? && FindRevision(local, r.name).value.status == DownloadingPhase then
      End(w, local, true, Continue)
    else
      var (v, after) := Recorded(w, local, r, DownloadingPhase);
      End(v, after, true, Continue)
  }

  function LaunchStep(cfg: Config, p: Plan, w: World, local: seq<Revision>, r: RevisionRef): (e: End)
    requires w.obj.Some?
    ensures e.w.obj.Some?
  {
    if p.origin == OtherOrigin then
      var (v, after) := Recorded(w, local, r, FailedPhase);
      End(v, after, false, Error)
    else
      var w1 := WithJob(cfg, w, r.name, p.affinity);
      var (v, after) := Recorded(w1, local, r, DownloadingPhase);
      End(v, after, true, Continue)
  }

  function MissingJobStep(cfg: Config, p: Plan, w: World, local: seq<Revision>, r: RevisionRef): (e: End)
    requires w.obj.Some?
    ensures e.w.obj.Some?
  {
    var stale := CleanupJob(cfg, r.name);
    if stale in w.jobs then End(WithoutJob(w, stale, StaleJobDeleted(r.name, stale)), local, false, Requeue)
    else
      var w1 := if FindRevision(local, r.name).None?
                then Committed(w, PutRevision(Revision(r.name, r.ref, PendingPhase))) else w;
      LaunchStep(cfg, p, w1, local, r)
  }

  function Step(cfg: Config, p: Plan, w: World, local: seq<Revision>, r: RevisionRef): (e: End)
    requires w.obj.Some?
    ensures e.w.obj.Some?
  {
    if IsReady(local, r.name) then End(w, local, false, Continue)
    else if DownloadJob(cfg, r.name) in w.jobs then JobStep(p, w, local, r, w.jobs[DownloadJob(cfg, r.name)])
    else MissingJobStep(cfg, p, w, local, r)
  }

  /** All revisions in order, up to the first that ends the pass. */
  function Steps(cfg: Config, p: Plan, w: World, local: seq<Revision>, rs: seq<RevisionRef>): (e: End)
    requires w.obj.Some?
    ensures e.w.obj.Some?
    decreases |rs|
  {
    if rs == [] then End(w, local, false, Continue)
    else
      var e := Step(cfg, p, w, local, rs[0]);
      if e.ctl != Continue then e
      else
        var t := Steps(cfg, p, e.w, e.local, rs[1..]);
        t.(running := e.running || t.running)
  }

  function Overall(w: World, local: seq<Revision>, desired: seq<RevisionRef>, running: bool): World
    requires w.obj.Some?
  {
    if AllReady(local, desired) then Committed(w, SetCondition(READY))
    else if running then Committed(w, SetCondition(DOWNLOADING))
    else w
  }

  // ---------------------------------------------------------------- the pass

  const CLAIM_FINALIZER := "modelrepository.aitrigram.cliver-project.github.io/storage-protection"

  function WithClaimCreated(w: World): World {
    if w.claim.Some? then w else w.(claim := Some(RepoClaim(false, "", "", {CLAIM_FINALIZER}, false)))
  }

  predicate SizeOk(cfg: Config, w: World) {
    w.obj.Some? && w.obj.value.spec.size != "" && cfg.parse(w.obj.value.spec.size).Some?
  }

  function PlanFor(w: World, info: ClassInfo): Plan
    requires w.obj.Some?
  {
    var o := w.obj.value;
    Plan(DesiredRevisions(o.spec), o.spec.origin,
         if info.mode == ReadWriteOnce && o.status.storage.Some? && o.status.storage.value.boundNode != ""
         then Some(o.status.storage.value.boundNode) else None)
  }

  /** The revisions, once storage is in place. */
  function DownloadPart(cfg: Config, w: World, info: ClassInfo): (World, Control)
    requires w.obj.Some?
  {
    var p := PlanFor(w, info);
    var e := Steps(cfg, p, w, w.obj.value.status.revisions, p.desired);
    if e.ctl != Continue then (e.w, e.ctl)
    else (Overall(e.w, e.local, p.desired, e.running), if e.running then Requeue else Continue)
  }

  /** Provision the claim and record the storage; node-bound storage waits until it can be read. */
  function StoragePart(cfg: Config, w: World, info: ClassInfo): (r: (World, Control))
    requires w.obj.Some?
    ensures r.0.obj.Some?
  {
    if !SizeOk(cfg, w) then (Committed(w, SetCondition(VALIDATION_FAILED)), Requeue)
    else
      var w1 := WithClaimCreated(w);
      (StorageStep(cfg, w1, info),
       if StorageRead(cfg, w1, info).None? && info.mode != ReadWriteMany then Requeue else Continue)
  }

  /** Storage and revisions of a repository that has its finalizer. */
  function LivePart(cfg: Config, w: World, info: ClassInfo): (World, Control)
    requires w.obj.Some?
  {
    var (v, ctl) := StoragePart(cfg, w, info);
    if ctl != Continue || !w.obj.value.spec.autoDownload then (v, ctl) else DownloadPart(cfg, v, info)
  }

  /** A repository without a model name gets its own. */
  function Renamed(cfg: Config, w: World): World
    requires w.obj.Some?
  {
    MainCommitted(Began(w), w.obj.value.spec.(modelName := cfg.repo), w.obj.value.finalizers)
  }

  /** One undisturbed pass over a repository that is absent or not being deleted. */
  function QuietPass(cfg: Config, w: World): (World, Control)
    requires w.obj.Some? ==> !w.obj.value.deleting
  {
    if w.obj.None? then (w, Continue)
    else
      var o := w.obj.value;
      if o.spec.modelName == "" then (Renamed(cfg, w), Requeue)
      else if o.spec.size == "" then (Committed(Began(w), SetCondition(PROVIDER_FAILED)), Requeue)
      else if w.classes.None? then (Committed(Opened(w), SetCondition(PROVIDER_FAILED)), Requeue)
      else LivePart(cfg, WithFinalizer(Opened(w)), w.classes.value)
  }

  // ---------------------------------------------------------------- what a pass shows

  /** The stored condition of a kind. */
  function Shown(w: World, k: Kind): Option<Condition>
    requires w.obj.Some?
  {
    Find(w.obj.value.status.conditions, k)
  }

  lemma CommittedCondition(w: World, c: Condition)
    requires w.obj.Some?
    ensures var v := Committed(w, SetCondition(c));
            && v.obj.Some? && Shown(v, c.kind) == Some(c)
            && v.obj.value.status.revisions == w.obj.value.status.revisions
            && v.jobs == w.jobs && v.claim == w.claim && v.volumes == w.volumes
            && (c.kind != Ready ==> Shown(v, Ready) == Shown(w, Ready))
            && (c.kind == Ready ==>
                  v.obj.value.status.phase ==
                  if c.status then ReadyPhase else if c.reason == DownloadingRevisions then DownloadingPhase else FailedPhase)
  {
    SetConditionFrame(c, w.obj.value.status, Ready);
    SetConditionFrame(c, w.obj.value.status, c.kind);
  }

  /** What an undisturbed pass shows when it cannot get to the storage. */
  lemma PassObstacles(cfg: Config, w: World)
    requires w.obj.Some? && !w.obj.value.deleting
    ensures var o := w.obj.value;
            var (v, ctl) := QuietPass(cfg, w);
            if o.spec.modelName == "" then
              ctl == Requeue && v.obj == Some(o.(version := o.version + 1, spec := o.spec.(modelName := cfg.repo)))
            else if o.spec.size == "" || w.classes.None? then
              && ctl == Requeue && v.obj.Some? && v.obj.value.status.phase == FailedPhase && v.jobs == w.jobs && v.claim == w.claim
              && Shown(v, Ready) == Some(Condition(Ready, false, StorageProviderFailed, "Failed to create storage provider"))
            else
              cfg.parse(o.spec.size).None? ==>
                && ctl == Requeue && v.obj.Some? && v.jobs == w.jobs && v.claim == w.claim
                && Shown(v, StorageReady) == Some(Condition(StorageReady, false, ValidationFailed, "Storage validation failed"))
                && Shown(v, Ready) == Shown(w, Ready)
  {
    hide StorageStep, DownloadPart, Committed, Shown;
    CommittedCondition(Began(w), PROVIDER_FAILED);
    CommittedCondition(Opened(w), PROVIDER_FAILED);
    CommittedCondition(WithFinalizer(Opened(w)), VALIDATION_FAILED);
    SameShown(w);
  }

  lemma SameShown(w: World)
    requires w.obj.Some? && !w.obj.value.deleting
    ensures Shown(WithFinalizer(Opened(w)), Ready) == Shown(w, Ready)
  {
  }

  /** The storage part: a missing claim is created, held by the operator; if the storage cannot be
      read, node-bound storage waits with everything else as it was. */
  lemma StorageWaits(cfg: Config, w: World, info: ClassInfo)
    requires SizeOk(cfg, w) && !w.obj.value.deleting
    ensures var (v, ctl) := StoragePart(cfg, w, info);
            && v.obj.Some? && v.obj.value.spec == w.obj.value.spec && v.obj.value.status.revisions == w.obj.value.status.revisions
            && v.jobs == w.jobs
            && v.claim == (if w.claim.Some? then w.claim
                           else Some(RepoClaim(false, "", "",
                                               {"modelrepository.aitrigram.cliver-project.github.io/storage-protection"}, false)))
            && (ctl == Requeue <==> StorageRead(cfg, w, info).None? && info.mode != ReadWriteMany) && (ctl != Requeue ==> ctl == Continue)
            && v.obj.value.status.storage ==
               if StorageRead(cfg, w, info).Some? then StorageRead(cfg, w, info) else w.obj.value.status.storage
  {
    hide Extracted;
    var w1 := WithClaimCreated(w);
    assert w.claim.None? ==> StorageRead(cfg, w1, info).None?;
    if StorageRead(cfg, w1, info).Some? {
      OtherMutations(StorageRead(cfg, w1, info).value, Revision("", "", NoPhase), w.obj.value.status, Ready);
    }
  }

  /** A pass that has its storage stops there unless downloads are wanted. */
  lemma NoDownloadUnasked(cfg: Config, w: World)
    requires SizeOk(cfg, w) && !w.obj.value.deleting && w.obj.value.spec.modelName != "" && w.classes.Some?
    requires !w.obj.value.spec.autoDownload
    ensures QuietPass(cfg, w).0.jobs == w.jobs && QuietPass(cfg, w).0.obj.Some?
    ensures QuietPass(cfg, w).0.obj.value.status.revisions == w.obj.value.status.revisions
  {
    hide StoragePart;
    StorageWaits(cfg, WithFinalizer(Opened(w)), w.classes.value);
  }

  /** The commit an entry records: the one it had, or the revision's own reference. */
  function CommitOf(local: seq<Revision>, r: RevisionRef): string {
    if FindRevision(local, r.name).Some? then FindRevision(local, r.name).value.commit else r.ref
  }

  /** The entry of a name on the server. */
  function EntryOf(w: World, name: string): Option<Revision>
    requires w.obj.Some?
  {
    FindRevision(w.obj.value.status.revisions, name)
  }

  lemma RecordedEntry(w: World, local: seq<Revision>, r: RevisionRef, status: Phase)
    requires w.obj.Some?
    ensures var (v, after) := Recorded(w, local, r, status);
            && v.obj.Some? && EntryOf(v, r.name) == Some(Revision(r.name, CommitOf(local, r), status))
            && v.jobs == w.jobs && v.claim == w.claim && v.volumes == w.volumes
            && v.obj.value.status.conditions == w.obj.value.status.conditions && v.obj.value.status.phase == w.obj.value.status.phase
            && (if FindRevision(local, r.name).Some? then FindRevision(after, r.name) == EntryOf(v, r.name) else after == local)
  {
    var e := EntryWith(local, r, status);
    FindAfterPut(local, e, r.name);
    FindAfterPut(w.obj.value.status.revisions, e, r.name);
  }

  /** A revision whose job exists: what the step records, shows and answers. */
  lemma JobShown(p: Plan, w: World, local: seq<Revision>, r: RevisionRef, job: Job)
    requires w.obj.Some?
    ensures var e := JobStep(p, w, local, r, job);
            && e.w.obj.Some? && e.w.jobs == w.jobs
            && (if job.succeeded > 0 then
                  && EntryOf(e.w, r.name) == Some(Revision(r.name, CommitOf(local, r), ReadyPhase))
                  && e.ctl == Continue && !e.running && Shown(e.w, Ready) == Shown(w, Ready)
                else if job.failed > 0 then
                  && EntryOf(e.w, r.name) == Some(Revision(r.name, CommitOf(local, r), FailedPhase))
                  && e.ctl == Requeue && e.w.obj.value.status.phase == FailedPhase
                  && Shown(e.w, Ready) == Some(Condition(Ready, false, DownloadFailed, "Download job failed for revision " + r.name))
                else
                  && e.ctl == Continue && e.running && Shown(e.w, Ready) == Shown(w, Ready)
                  && (if FindRevision(local, r.name).Some? && FindRevision(local, r.name).value.status == DownloadingPhase
                      then e.w == w && e.local == local
                      else EntryOf(e.w, r.name) == Some(Revision(r.name, CommitOf(local, r), DownloadingPhase))))
  {
    RecordedEntry(w, local, r, ReadyPhase);
    RecordedEntry(w, local, r, FailedPhase);
    RecordedEntry(w, local, r, DownloadingPhase);
    hide Recorded, CommitOf, Committed;
    CommittedCondition(Recorded(w, local, r, FailedPhase).0, JobFailedCondition(r));
  }

  /** A revision without a job: a stale cleanup job goes first; else the job is created, labelled
      and pinned as planned, and recorded as downloading, or, for an origin without a manifest, as
      failed. */
  lemma MissingJobShown(cfg: Config, p: Plan, w: World, local: seq<Revision>, r: RevisionRef)
    requires w.obj.Some?
    ensures var e, stale := MissingJobStep(cfg, p, w, local, r), CleanupJob(cfg, r.name);
            && e.w.obj.Some? && Shown(e.w, Ready) == Shown(w, Ready)
            && (if stale in w.jobs then
                  e.ctl == Requeue && e.w.jobs == w.jobs - {stale} && e.w.obj == w.obj && e.local == local
                else if p.origin == OtherOrigin then
                  && e.ctl == Error && e.w.jobs == w.jobs
                  && EntryOf(e.w, r.name) == Some(Revision(r.name, CommitOf(local, r), FailedPhase))
                else
                  && e.ctl == Continue && e.running
                  && e.w.jobs == w.jobs[DownloadJob(cfg, r.name) := Job(0, 0, p.affinity, cfg.repo)]
                  && EntryOf(e.w, r.name) == Some(Revision(r.name, CommitOf(local, r), DownloadingPhase)))
  {
    hide Recorded, CommitOf, DownloadJob, CleanupJob;
    var w1 := if FindRevision(local, r.name).None? then Committed(w, PutRevision(Revision(r.name, r.ref, PendingPhase))) else w;
    assert w1.obj.Some? && w1.jobs == w.jobs && Shown(w1, Ready) == Shown(w, Ready);
    RecordedEntry(w1, local, r, FailedPhase);
    RecordedEntry(WithJob(cfg, w1, r.name, p.affinity), local, r, DownloadingPhase);
  }

  /** The overall condition: all ready, or downloading, or as it was. */
  lemma OverallShown(w: World, local: seq<Revision>, desired: seq<RevisionRef>, running: bool)
    requires w.obj.Some?
    ensures var v := Overall(w, local, desired, running);
            && v.obj.Some? && v.jobs == w.jobs && v.obj.value.status.revisions == w.obj.value.status.revisions
            && (if forall d | d in desired :: FindRevision(local, d.name).Some? && FindRevision(local, d.name).value.status == ReadyPhase
                then && Shown(v, Ready) == Some(Condition(Ready, true, AllRevisionsReady, "All revisions downloaded successfully"))
                     && v.obj.value.status.phase == ReadyPhase
                else if running then
                  && Shown(v, Ready) == Some(Condition(Ready, false, DownloadingRevisions, "Downloading revisions"))
                  && v.obj.value.status.phase == DownloadingPhase
                else v == w)
  {
    CommittedCondition(w, READY);
    CommittedCondition(w, DOWNLOADING);
    hide Committed, Shown;
  }

  // ---------------------------------------------------------------- succeeded downloads

  predicate Fetchable(cfg: Config, w: World, local: seq<Revision>, d: RevisionRef) {
    || IsReady(local, d.name)
    || (DownloadJob(cfg, d.name) in w.jobs && w.jobs[DownloadJob(cfg, d.name)].succeeded > 0)
  }

  lemma FetchableStep(cfg: Config, p: Plan, w: World, local: seq<Revision>, r: RevisionRef)
    requires w.obj.Some? && Fetchable(cfg, w, local, r)
    ensures var (v, after) := RevisionStep(w, local, r);
            Step(cfg, p, w, local, r) == End(v, after, false, Continue) && v.obj.Some? && v.jobs == w.jobs
    ensures forall d: RevisionRef :: Fetchable(cfg, w, local, d) ==>
              Fetchable(cfg, RevisionStep(w, local, r).0, RevisionStep(w, local, r).1, d)
  {
    forall d: RevisionRef | Fetchable(cfg, w, local, d)
      ensures Fetchable(cfg, RevisionStep(w, local, r).0, RevisionStep(w, local, r).1, d)
    {
      FindAfterPut(local, ReadyEntry(local, r), d.name);
    }
  }

  /** If every download succeeded, the revisions take exactly the steps of the settled pass. */
  lemma {:induction false} FetchableSteps(cfg: Config, p: Plan, w: World, local: seq<Revision>, rs: seq<RevisionRef>)
    requires w.obj.Some? && forall d | d in rs :: Fetchable(cfg, w, local, d)
    ensures var (v, after) := RevisionSteps(w, local, rs);
            Steps(cfg, p, w, local, rs) == End(v, after, false, Continue)
    decreases |rs|
  {
    if rs != [] {
      var (w1, local1) := RevisionStep(w, local, rs[0]);
      FetchableStep(cfg, p, w, local, rs[0]);
      FetchableSteps(cfg, p, w1, local1, rs[1..]);
    }
  }

  /** Over settled storage with every download succeeded, the pass is the settled one. */
  lemma SettledPass(cfg: Config, w: World)
    requires Settled(cfg, w)
    ensures QuietPass(cfg, w) == (Pass(cfg, w), Continue)
  {
    hide StorageRead, StorageStep, RevisionSteps, Steps, AllReady, Overall, OverallStep, IsReady;
    var info, desired := w.classes.value, DesiredRevisions(w.obj.value.spec);
    var w0 := WithFinalizer(Opened(w));
    assert w0.claim == w.claim && w0.volumes == w.volumes && w0.obj.Some?;
    assert WithClaimCreated(w0) == w0;
    StorageReadFrame(cfg, w, w0, info);
    StorageStepEffect(cfg, w0);
    SettledDownloads(cfg, w, info);
  }

  lemma SettledDownloads(cfg: Config, w: World, info: ClassInfo)
    requires Settled(cfg, w) && w.classes == Some(info)
    ensures var v := StorageStep(cfg, WithFinalizer(Opened(w)), info);
            v.obj.Some? && DownloadPart(cfg, v, info) == (Pass(cfg, w), Continue)
  {
    hide StorageRead, StorageStep;
    var desired := DesiredRevisions(w.obj.value.spec);
    var w0 := WithFinalizer(Opened(w));
    StorageStepEffect(cfg, w0);
    var v := StorageStep(cfg, w0, info);
    var local := v.obj.value.status.revisions;
    assert forall d | d in desired :: Fetchable(cfg, v, local, d);
    FetchableSteps(cfg, PlanFor(v, info), v, local, desired);
    var (v2, after) := RevisionSteps(v, local, desired);
    assert Overall(v2, after, desired, false) == OverallStep(v2, after, desired);
  }

  // ---------------------------------------------------------------- progress

  /** The download is under way or done. */
  predicate UnderWay(cfg: Config, w: World, name: string) {
    w.obj.Some? && (IsReady(w.obj.value.status.revisions, name) || DownloadJob(cfg, name) in w.jobs)
  }

  /** Jobs that were there stay; new ones belong to the repository and carry the pass's affinity. */
  predicate JobsGrow(cfg: Config, p: Plan, w: World, v: World) {
    && (forall j | j in w.jobs :: j in v.jobs && v.jobs[j] == w.jobs[j])
    && (forall j | j in v.jobs && j !in w.jobs :: v.jobs[j] == Job(0, 0, p.affinity, cfg.repo))
  }

  /** Nothing stands in the way: the revision is ready, its job has not failed, or it has no job
      and one can be created now. */
  predicate Proceeds(cfg: Config, origin: Origin, w: World, local: seq<Revision>, r: RevisionRef) {
    var name := DownloadJob(cfg, r.name);
    || IsReady(local, r.name)
    || (if name in w.jobs then w.jobs[name].succeeded > 0 || w.jobs[name].failed == 0
        else CleanupJob(cfg, r.name) !in w.jobs && origin != OtherOrigin)
  }

  /** A step goes on to the next revision in exactly these cases. */
  lemma StepContinues(cfg: Config, p: Plan, w: World, local: seq<Revision>, r: RevisionRef)
    requires w.obj.Some?
    ensures Step(cfg, p, w, local, r).ctl == Continue <==> Proceeds(cfg, p.origin, w, local, r)
  {
  }

  /** The download of this name has begun again: it is not ready, there is no local entry, and its
      job has not succeeded. */
  predicate Restarted(cfg: Config, w: World, local: seq<Revision>, name: string) {
    && w.obj.Some? && !IsReady(w.obj.value.status.revisions, name) && FindRevision(local, name).None?
    && DownloadJob(cfg, name) in w.jobs && w.jobs[DownloadJob(cfg, name)].succeeded == 0
  }

  // What recording one entry does for any name.
  lemma RecordedFinds(w: World, local: seq<Revision>, r: RevisionRef, status: Phase, n: string)
    requires w.obj.Some?
    ensures var (v, after) := Recorded(w, local, r, status);
            && v.obj.Some? && v.jobs == w.jobs
            && (FindRevision(local, n).None? ==> FindRevision(after, n).None?)
            && (n != r.name ==> (IsReady(after, n) <==> IsReady(local, n)))
            && (n == r.name ==> (IsReady(v.obj.value.status.revisions, n) <==> status == ReadyPhase))
            && (n != r.name ==> (IsReady(v.obj.value.status.revisions, n) <==> IsReady(w.obj.value.status.revisions, n)))
  {
    var e := EntryWith(local, r, status);
    FindAfterPut(local, e, n);
    FindAfterPut(w.obj.value.status.revisions, e, n);
  }

  // The server's entries before a job is created.
  lemma PendingFinds(w: World, local: seq<Revision>, r: RevisionRef, n: string)
    requires w.obj.Some?
    ensures var pending := Revision(r.name, r.ref, PendingPhase);
            var v := if FindRevision(local, r.name).None? then Committed(w, PutRevision(pending)) else w;
            && v.obj.Some? && v.jobs == w.jobs
            && (n != r.name ==> (IsReady(v.obj.value.status.revisions, n) <==> IsReady(w.obj.value.status.revisions, n)))
  {
    FindAfterPut(w.obj.value.status.revisions, Revision(r.name, r.ref, PendingPhase), n);
  }

  // A turn that creates the job, or may not, leaves its name unready, and other names alone.
  lemma LaunchFinds(cfg: Config, p: Plan, w: World, local: seq<Revision>, r: RevisionRef, n: string)
    requires w.obj.Some?
    ensures var e, job := LaunchStep(cfg, p, w, local, r), DownloadJob(cfg, r.name);
            && e.w.obj.Some?
            && (FindRevision(local, n).None? ==> FindRevision(e.local, n).None?)
            && (n != r.name ==> (IsReady(e.local, n) <==> IsReady(local, n)))
            && (IsReady(e.w.obj.value.status.revisions, n) <==> n != r.name && IsReady(w.obj.value.status.revisions, n))
            && e.w.jobs == if e.ctl == Continue then w.jobs[job := Job(0, 0, p.affinity, cfg.repo)] else w.jobs
  {
    hide Recorded, DownloadJob;
    RecordedFinds(w, local, r, FailedPhase, n);
    RecordedFinds(WithJob(cfg, w, r.name, p.affinity), local, r, DownloadingPhase, n);
  }

  lemma MissingFinds(cfg: Config, p: Plan, w: World, local: seq<Revision>, r: RevisionRef, n: string)
    requires w.obj.Some? && CleanupJob(cfg, r.name) !in w.jobs
    ensures var e, job := MissingJobStep(cfg, p, w, local, r), DownloadJob(cfg, r.name);
            && e.w.obj.Some?
            && (FindRevision(local, n).None? ==> FindRevision(e.local, n).None?)
            && (n != r.name ==> (IsReady(e.local, n) <==> IsReady(local, n)))
            && (IsReady(e.w.obj.value.status.revisions, n) <==> n != r.name && IsReady(w.obj.value.status.revisions, n))
            && e.w.jobs == if e.ctl == Continue then w.jobs[job := Job(0, 0, p.affinity, cfg.repo)] else w.jobs
  {
    hide LaunchStep, Committed, IsReady, DownloadJob, CleanupJob;
    PendingFinds(w, local, r, n);
    var pending := Revision(r.name, r.ref, PendingPhase);
    LaunchFinds(cfg, p, if FindRevision(local, r.name).None? then Committed(w, PutRevision(pending)) else w, local, r, n);
  }

  // A turn without a local entry and without a job ends unready, whatever the server had.
  lemma CreatingUnreadies(cfg: Config, p: Plan, w: World, local: seq<Revision>, r: RevisionRef)
    requires w.obj.Some? && FindRevision(local, r.name).None?
    requires DownloadJob(cfg, r.name) !in w.jobs && CleanupJob(cfg, r.name) !in w.jobs
    ensures var e := Step(cfg, p, w, local, r);
            !IsReady(e.w.obj.value.status.revisions, r.name) && (e.ctl == Continue ==> Restarted(cfg, e.w, e.local, r.name))
  {
    hide MissingJobStep, DownloadJob, CleanupJob;
    MissingFinds(cfg, p, w, local, r, r.name);
  }

  lemma RestartedStep(cfg: Config, p: Plan, w: World, local: seq<Revision>, r: RevisionRef, n: string)
    requires Restarted(cfg, w, local, n)
    ensures var e := Step(cfg, p, w, local, r); Restarted(cfg, e.w, e.local, n)
  {
    hide Recorded, DownloadJob, CleanupJob, LaunchStep, JobStep;
    JobKindsDiffer(cfg, n, r.name);
    if DownloadJob(cfg, r.name) in w.jobs {
      RestartedJob(cfg, p, w, local, r, n);
    } else if CleanupJob(cfg, r.name) !in w.jobs {
      MissingFinds(cfg, p, w, local, r, n);
    }
  }

  lemma RestartedJob(cfg: Config, p: Plan, w: World, local: seq<Revision>, r: RevisionRef, n: string)
    requires w.obj.Some? && DownloadJob(cfg, r.name) in w.jobs
    ensures var e := JobStep(p, w, local, r, w.jobs[DownloadJob(cfg, r.name)]);
            Restarted(cfg, w, local, n) ==> Restarted(cfg, e.w, e.local, n)
  {
    hide Recorded, DownloadJob;
    RecordedFinds(w, local, r, ReadyPhase, n);
    RecordedFinds(w, local, r, FailedPhase, n);
    RecordedFinds(w, local, r, DownloadingPhase, n);
  }

  lemma {:induction false} StaysRestarted(cfg: Config, p: Plan, w: World, local: seq<Revision>, rs: seq<RevisionRef>, n: string)
    requires Restarted(cfg, w, local, n)
    ensures var e := Steps(cfg, p, w, local, rs); Restarted(cfg, e.w, e.local, n)
    decreases |rs|
  {
    hide Step;
    if rs != [] {
      RestartedStep(cfg, p, w, local, rs[0], n);
      var e := Step(cfg, p, w, local, rs[0]);
      if e.ctl == Continue {
        StaysRestarted(cfg, p, e.w, e.local, rs[1..], n);
      }
    }
  }

  lemma FetchedStep(w: World, local: seq<Revision>, r: RevisionRef, n: string)
    requires w.obj.Some? && FindRevision(local, n).None?
    ensures var (v, after) := RevisionStep(w, local, r);
            && v.obj.Some? && v.jobs == w.jobs && FindRevision(after, n).None?
            && (n == r.name || IsReady(w.obj.value.status.revisions, n) ==> IsReady(v.obj.value.status.revisions, n))
  {
    FindAfterPut(local, ReadyEntry(local, r), n);
    FindAfterPut(w.obj.value.status.revisions, ReadyEntry(local, r), n);
  }

  // Turns that all find their download succeeded: a name that had its turn is ready on the server,
  // and still has no local entry if it had none.
  lemma {:induction false} FetchedTurns(w: World, local: seq<Revision>, rs: seq<RevisionRef>, n: string)
    requires w.obj.Some? && FindRevision(local, n).None?
    ensures var (v, after) := RevisionSteps(w, local, rs);
            && v.obj.Some? && v.jobs == w.jobs && FindRevision(after, n).None?
            && (IsReady(w.obj.value.status.revisions, n) || (exists d | d in rs :: d.name == n) ==>
                  IsReady(v.obj.value.status.revisions, n))
    decreases |rs|
  {
    hide RevisionStep, IsReady;
    if rs != [] {
      FetchedStep(w, local, rs[0], n);
      var (w1, local1) := RevisionStep(w, local, rs[0]);
      FetchedTurns(w1, local1, rs[1..], n);
      assert forall d | d in rs :: d == rs[0] || d in rs[1..];
    }
  }

  /** Why desired names must be distinct: whenever a name without local entry is desired a second
      time, at j, and everything before has been downloaded, the name is ready on the server when
      its second turn comes, and if its job disappears then, the pass ends with Ready taken back. */
  lemma DuplicatesLoseReady(cfg: Config, p: Plan, w: World, local: seq<Revision>, i: nat, j: nat)
    requires w.obj.Some? && i < j < |p.desired| && p.desired[i].name == p.desired[j].name
    requires FindRevision(local, p.desired[j].name).None? && CleanupJob(cfg, p.desired[j].name) !in w.jobs
    requires forall d | d in p.desired[..j] :: Fetchable(cfg, w, local, d)
    ensures var n := p.desired[j].name;
            var before := Steps(cfg, p, w, local, p.desired[..j]);
            var gone := EnvStep(before.w, JobGone(DownloadJob(cfg, n)));
            var after := Steps(cfg, p, gone, before.local, p.desired[j..]);
            && before.ctl == Continue && IsReady(before.w.obj.value.status.revisions, n)
            && !IsReady(after.w.obj.value.status.revisions, n)
  {
    hide Step, RevisionSteps, DownloadJob, CleanupJob, Restarted;
    var n, turn, rest := p.desired[j].name, p.desired[j], p.desired[j..];
    FetchableSteps(cfg, p, w, local, p.desired[..j]);
    FetchedTurns(w, local, p.desired[..j], n);
    assert p.desired[..j][i].name == n && p.desired[..j][i] in p.desired[..j];
    var before := Steps(cfg, p, w, local, p.desired[..j]);
    var gone := EnvStep(before.w, JobGone(DownloadJob(cfg, n)));
    CreatingUnreadies(cfg, p, gone, before.local, turn);
    var second := Step(cfg, p, gone, before.local, turn);
    assert rest[0] == turn;
    if second.ctl == Continue {
      StaysRestarted(cfg, p, second.w, second.local, rest[1..], n);
      RestartedUnready(cfg, Steps(cfg, p, second.w, second.local, rest[1..]), n);
    }
  }

  lemma RestartedUnready(cfg: Config, e: End, n: string)
    requires Restarted(cfg, e.w, e.local, n)
    ensures e.w.obj.Some? && !IsReady(e.w.obj.value.status.revisions, n)
  {
  }

  /** And every spec that repeats a name has such a world: a new repository whose downloads have
      succeeded.  So distinct names are exactly what keeps Ready for good. */
  lemma RepeatedNameLosesReady(cfg: Config, p: Plan, o: Repo) returns (w: World, i: nat, j: nat)
    requires !Distinct(p.desired) && o.status == EMPTY
    ensures w.obj == Some(o) && i < j < |p.desired| && p.desired[i].name == p.desired[j].name
    ensures var n := p.desired[j].name;
            var before := Steps(cfg, p, w, [], p.desired[..j]);
            var gone := EnvStep(before.w, JobGone(DownloadJob(cfg, n)));
            && IsReady(before.w.obj.value.status.revisions, n)
            && !IsReady(Steps(cfg, p, gone, before.local, p.desired[j..]).w.obj.value.status.revisions, n)
  {
    hide Steps, DownloadJob, CleanupJob;
    i, j :| 0 <= i < j < |p.desired| && p.desired[i].name == p.desired[j].name;
    var names := set d | d in p.desired :: DownloadJob(cfg, d.name);
    w := World(Some(o), map name | name in names :: Job(1, 0, None, cfg.repo), None, map[], [], None, []);
    if CleanupJob(cfg, p.desired[j].name) in names {
      var d :| d in p.desired && DownloadJob(cfg, d.name) == CleanupJob(cfg, p.desired[j].name);
      JobKindsDiffer(cfg, d.name, p.desired[j].name);
    }
    assert forall d | d in p.desired[..j] :: d in p.desired && Fetchable(cfg, w, [], d);
    DuplicatesLoseReady(cfg, p, w, [], i, j);
  }

  /** Local copy and server agree on which of these are ready. */
  predicate AgreeOn(local: seq<Revision>, server: seq<Revision>, rs: seq<RevisionRef>) {
    forall d | d in rs :: IsReady(local, d.name) <==> IsReady(server, d.name)
  }

  /** One step that goes on: the revision is under way afterwards, other revisions and jobs are as
      before, and a new job is the repository's own with the planned affinity. */
  lemma StepEffect(cfg: Config, p: Plan, w: World, local: seq<Revision>, r: RevisionRef, n: string)
    requires w.obj.Some? && Proceeds(cfg, p.origin, w, local, r)
    requires IsReady(local, r.name) <==> IsReady(w.obj.value.status.revisions, r.name)
    ensures var e := Step(cfg, p, w, local, r);
            && UnderWay(cfg, e.w, r.name)
            && JobsGrow(cfg, p, w, e.w) && e.w.jobs.Keys <= w.jobs.Keys + {DownloadJob(cfg, r.name)}
            && (n != r.name ==>
                  && (IsReady(e.local, n) <==> IsReady(local, n))
                  && (IsReady(e.w.obj.value.status.revisions, n) <==> IsReady(w.obj.value.status.revisions, n)))
  {
    if !IsReady(local, r.name) {
      if DownloadJob(cfg, r.name) in w.jobs {
        if w.jobs[DownloadJob(cfg, r.name)].succeeded > 0 {
          RecordedFinds(w, local, r, ReadyPhase, r.name);
        }
        if n != r.name {
          RecordedFinds(w, local, r, ReadyPhase, n);
          RecordedFinds(w, local, r, DownloadingPhase, n);
        }
      } else {
        StepContinues(cfg, p, w, local, r);
        MissingFinds(cfg, p, w, local, r, n);
      }
    }
  }

  predicate JobsDistinct(cfg: Config, rs: seq<RevisionRef>) {
    forall i, j | 0 <= i < j < |rs| :: DownloadJob(cfg, rs[i].name) != DownloadJob(cfg, rs[j].name)
  }

  /** Revisions of one repository whose job names need not be cut have different jobs. */
  lemma FittingJobsDiffer(cfg: Config, rs: seq<RevisionRef>)
    requires Distinct(rs) && forall d | d in rs :: d.name != "" && Names.JobFits("download", cfg.repo, d.name)
    ensures JobsDistinct(cfg, rs)
  {
    hide Names.JobFits, Names.JobNameOf, Names.FullName;
    forall i, j | 0 <= i < j < |rs| ensures DownloadJob(cfg, rs[i].name) != DownloadJob(cfg, rs[j].name) {
      assert rs[i] in rs && rs[j] in rs;
      Names.JobNameReads(cfg.h, "download", cfg.repo, rs[i].name);
      Names.JobNameReads(cfg.h, "download", cfg.repo, rs[j].name);
      Names.SameJobName("download", cfg.repo, rs[i].name, cfg.repo, rs[j].name);
      SameStart(cfg.repo, rs[i].name, rs[j].name);
    }
  }

  lemma SameStart(a: string, b: string, c: string)
    ensures a + "-" + b == a + "-" + c <==> b == c
  {
    assert (a + "-" + b)[|a| + 1..] == b && (a + "-" + c)[|a| + 1..] == c;
  }

  /** Download and cleanup jobs never share a name. */
  lemma JobKindsDiffer(cfg: Config, a: string, b: string)
    ensures DownloadJob(cfg, a) != CleanupJob(cfg, b)
    ensures a != "" && |cfg.repo| + |a| <= 52 ==> DownloadJob(cfg, a) == "download-" + cfg.repo + "-" + a
    ensures b != "" && |cfg.repo| + |b| <= 53 ==> CleanupJob(cfg, b) == "cleanup-" + cfg.repo + "-" + b
  {
    assert DownloadJob(cfg, a)[0] == 'd' && CleanupJob(cfg, b)[0] == 'c';
  }

  // What one step leaves for the rest.
  lemma StepLeaves(cfg: Config, p: Plan, w: World, local: seq<Revision>, rs: seq<RevisionRef>)
    requires w.obj.Some? && rs != [] && Distinct(rs) && JobsDistinct(cfg, rs)
    requires AgreeOn(local, w.obj.value.status.revisions, rs)
    requires forall d | d in rs :: Proceeds(cfg, p.origin, w, local, d)
    ensures var e := Step(cfg, p, w, local, rs[0]);
            && UnderWay(cfg, e.w, rs[0].name) && JobsGrow(cfg, p, w, e.w)
            && AgreeOn(e.local, e.w.obj.value.status.revisions, rs[1..])
            && (forall d | d in rs[1..] :: Proceeds(cfg, p.origin, e.w, e.local, d))
            && (forall x: string :: UnderWay(cfg, w, x) ==> UnderWay(cfg, e.w, x))
  {
    hide Step, IsReady, DownloadJob, CleanupJob;
    var e := Step(cfg, p, w, local, rs[0]);
    assert rs[0] in rs;
    StepEffect(cfg, p, w, local, rs[0], rs[0].name);
    forall d | d in rs[1..]
      ensures IsReady(e.local, d.name) <==> IsReady(e.w.obj.value.status.revisions, d.name)
      ensures Proceeds(cfg, p.origin, e.w, e.local, d)
    {
      var i :| 0 < i < |rs| && rs[i] == d;
      assert d in rs && rs[0].name != rs[i].name;
      StepEffect(cfg, p, w, local, rs[0], d.name);
      JobKindsDiffer(cfg, rs[0].name, d.name);
    }
    forall x: string | UnderWay(cfg, w, x) ensures UnderWay(cfg, e.w, x) {
      StepEffect(cfg, p, w, local, rs[0], x);
    }
  }

  lemma JobsGrowTrans(cfg: Config, p: Plan, u: World, v: World, w: World)
    requires JobsGrow(cfg, p, u, v) && JobsGrow(cfg, p, v, w)
    ensures JobsGrow(cfg, p, u, w)
  {
  }

  /** If nothing stands in the way of any, all revisions are under way after the steps. */
  lemma {:induction false} StepsProgress(cfg: Config, p: Plan, w: World, local: seq<Revision>, rs: seq<RevisionRef>)
    requires w.obj.Some? && Distinct(rs) && JobsDistinct(cfg, rs)
    requires AgreeOn(local, w.obj.value.status.revisions, rs)
    requires forall d | d in rs :: Proceeds(cfg, p.origin, w, local, d)
    ensures var e := Steps(cfg, p, w, local, rs);
            && e.ctl == Continue && JobsGrow(cfg, p, w, e.w)
            && (forall d | d in rs :: UnderWay(cfg, e.w, d.name))
            && (forall x: string :: UnderWay(cfg, w, x) ==> UnderWay(cfg, e.w, x))
    decreases |rs|
  {
    hide Step, AgreeOn, Proceeds, UnderWay, JobsGrow, JobsDistinct, DownloadJob;
    if rs != [] {
      var e := Step(cfg, p, w, local, rs[0]);
      assert rs[0] in rs;
      StepContinues(cfg, p, w, local, rs[0]);
      StepLeaves(cfg, p, w, local, rs);
      JobsDistinctTail(cfg, rs);
      StepsProgress(cfg, p, e.w, e.local, rs[1..]);
      JobsGrowTrans(cfg, p, w, e.w, Steps(cfg, p, e.w, e.local, rs[1..]).w);
      assert forall d | d in rs :: d == rs[0] || d in rs[1..];
    } else {
      JobsGrowSame(cfg, p, w);
    }
  }

  lemma JobsDistinctTail(cfg: Config, rs: seq<RevisionRef>)
    requires rs != [] && JobsDistinct(cfg, rs)
    ensures JobsDistinct(cfg, rs[1..])
  {
  }

  lemma JobsGrowSame(cfg: Config, p: Plan, w: World)
    ensures JobsGrow(cfg, p, w, w)
  {
  }

  /** The pass gets to the downloads. */
  predicate ReachesDownloads(cfg: Config, w: World) {
    && SizeOk(cfg, w) && w.classes.Some? && !w.obj.value.deleting
    && w.obj.value.spec.modelName != "" && w.obj.value.spec.autoDownload
    && (StorageRead(cfg, w, w.classes.value).Some? || w.classes.value.mode == ReadWriteMany)
  }

  /** The node the bound volume names, if storage is bound to a node. */
  function VolumeNode(w: World): Option<string>
    requires SeesBound(w)
  {
    var n := NodeName(w.volumes[w.claim.value.volume].nodeTerms);
    if n == "" then None else Some(n)
  }

  lemma OverallKeeps(cfg: Config, w: World, local: seq<Revision>, desired: seq<RevisionRef>, running: bool)
    requires w.obj.Some?
    ensures var v := Overall(w, local, desired, running);
            v.jobs == w.jobs && forall x: string :: UnderWay(cfg, w, x) ==> UnderWay(cfg, v, x)
  {
  }

  lemma DownloadProgress(cfg: Config, w: World, info: ClassInfo)
    requires w.obj.Some?
    requires var desired := DesiredRevisions(w.obj.value.spec); Distinct(desired) && JobsDistinct(cfg, desired)
    requires forall d | d in DesiredRevisions(w.obj.value.spec) ::
               Proceeds(cfg, w.obj.value.spec.origin, w, w.obj.value.status.revisions, d)
    ensures var (v, ctl) := DownloadPart(cfg, w, info);
            && ctl != Error && JobsGrow(cfg, PlanFor(w, info), w, v)
            && forall d | d in DesiredRevisions(w.obj.value.spec) :: UnderWay(cfg, v, d.name)
  {
    hide Steps, Proceeds, UnderWay, JobsDistinct, Overall;
    var p := PlanFor(w, info);
    var local := w.obj.value.status.revisions;
    assert AgreeOn(local, local, p.desired);
    StepsProgress(cfg, p, w, local, p.desired);
    var e := Steps(cfg, p, w, local, p.desired);
    OverallKeeps(cfg, e.w, e.local, p.desired, e.running);
  }

  // The world in which the downloads begin differs only in status, finalizer and claim.
  lemma DownloadsBegin(cfg: Config, w: World)
    requires ReachesDownloads(cfg, w)
    ensures var info := w.classes.value;
            var v := StorageStep(cfg, WithClaimCreated(WithFinalizer(Opened(w))), info);
            && v.obj.Some? && v.obj.value.spec == w.obj.value.spec && v.jobs == w.jobs
            && v.obj.value.status.revisions == w.obj.value.status.revisions
            && QuietPass(cfg, w) == DownloadPart(cfg, v, info)
            && (info.mode == ReadWriteOnce ==> SeesBound(w) && PlanFor(v, info).affinity == VolumeNode(w))
  {
    hide DownloadPart, Extracted;
    var info, desired := w.classes.value, DesiredRevisions(w.obj.value.spec);
    var w1 := WithClaimCreated(WithFinalizer(Opened(w)));
    assert StorageRead(cfg, w1, info) == StorageRead(cfg, w, info);
    StorageStepEffect(cfg, w1);
  }

  /** Progress: an undisturbed pass that reaches the downloads, with nothing in the way of any
      revision, leaves every desired revision ready or with its download job; each job it created
      is its own and, with node-bound storage, pinned to the node the bound volume names. */
  lemma PassProgress(cfg: Config, w: World)
    requires ReachesDownloads(cfg, w)
    requires var desired := DesiredRevisions(w.obj.value.spec); Distinct(desired) && JobsDistinct(cfg, desired)
    requires forall d | d in DesiredRevisions(w.obj.value.spec) ::
               Proceeds(cfg, w.obj.value.spec.origin, w, w.obj.value.status.revisions, d)
    ensures var (v, ctl) := QuietPass(cfg, w);
            && ctl != Error
            && (forall d | d in DesiredRevisions(w.obj.value.spec) :: UnderWay(cfg, v, d.name))
            && (forall j | j in w.jobs :: j in v.jobs && v.jobs[j] == w.jobs[j])
            && (forall j | j in v.jobs && j !in w.jobs ::
                  && v.jobs[j].owner == cfg.repo
                  && (w.classes.value.mode == ReadWriteOnce ==> SeesBound(w) && v.jobs[j].affinity == VolumeNode(w)))
  {
    hide QuietPass, DownloadPart, StorageRead, StorageStep, UnderWay, JobsDistinct, VolumeNode, SeesBound;
    var info, desired := w.classes.value, DesiredRevisions(w.obj.value.spec);
    DownloadsBegin(cfg, w);
    var v := StorageStep(cfg, WithClaimCreated(WithFinalizer(Opened(w))), info);
    DownloadProgress(cfg, v, info);
  }
}
