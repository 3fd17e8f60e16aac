/** The model repository reconciler: every pass, statement by statement, under interference. */
module RepoController {
  import opened Common
  import opened Backend
  import opened Status
  import opened RepoWorld
  import opened RepoServer
  import opened LocalCopy
  import opened RepoPass
  import opened RepoSpec

  // ---------------------------------------------------------------- local copy and server

  /** The local copy's entries were stored, whatever it shows ready is ready on the server, and for
      the revisions still to be handled it misses nothing. */
  ghost predicate Agrees(local: seq<Revision>, w: World, todo: set<string>) {
    && LocalStored(local, w.log)
    && (w.obj.Some? ==>
          && Covered(local, w.obj.value.status.revisions)
          && forall n | n in todo :: IsReady(w.obj.value.status.revisions, n) ==> IsReady(local, n))
  }

  /** Whatever entry the local copy has was stored by some status write. */
  ghost predicate LocalStored(local: seq<Revision>, log: History) {
    forall n: string :: FindRevision(local, n).Some? ==> EntryStored(log, n)
  }

  lemma LocalStoredKept(local: seq<Revision>, log: History, longer: History)
    requires LocalStored(local, log) && log <= longer
    ensures LocalStored(local, longer)
  {
    forall n: string | FindRevision(local, n).Some? ensures EntryStored(longer, n) {
      EntryStoredKept(log, longer, n);
    }
  }

  /** The revision is not ready, neither locally nor on the server. */
  predicate NotReady(local: seq<Revision>, w: World, name: string) {
    !IsReady(local, name) && (w.obj.Some? ==> !IsReady(w.obj.value.status.revisions, name))
  }

  lemma AgreesKept(local: seq<Revision>, before: World, after: World, todo: set<string>, name: string)
    requires Agrees(local, before, todo) && Follows(before, after)
    ensures Agrees(local, after, todo)
    ensures NotReady(local, before, name) ==> NotReady(local, after, name)
  {
    LocalStoredKept(local, before.log, after.log);
    if after.obj.Some? {
      assert Own(after.obj.value.status).revisions == Own(before.obj.value.status).revisions;
    }
  }

  lemma AgreesForOne(local: seq<Revision>, w: World, todo: set<string>, name: string)
    requires Agrees(local, w, todo + {name})
    ensures Agrees(local, w, todo) && (!IsReady(local, name) ==> NotReady(local, w, name))
  {
  }

  // The two cases in which an entry may be written.
  lemma MayPut(cfg: Config, w: World, r: Revision, local: seq<Revision>)
    requires if r.status == ReadyPhase then JobSucceeded(DownloadJob(cfg, r.name)) in w.log else NotReady(local, w, r.name)
    ensures w.obj.Some? ==> Guard(cfg, w.log, PutRevision(r), w.obj.value.status)
  {
  }

  /** A revision handled with entry e, written to the server or not, and to the local copy or not,
      leaves the other revisions in agreement; a ready entry must have reached the server. */
  lemma AgreesAfterPut(local: seq<Revision>, local': seq<Revision>, before: World, after: World, todo: set<string>,
                       e: Revision, mustApply: bool)
    requires Agrees(local, before, todo) && e.name !in todo && NotReady(local, before, e.name)
    requires local' == local || (local' == Put(local, e) && FindRevision(local, e.name).Some?)
    requires Synced(before, after, PutRevision(e), mustApply)
    requires mustApply || e.status != ReadyPhase
    ensures Agrees(local', after, todo)
    ensures e.status != ReadyPhase ==> NotReady(local', after, e.name)
  {
    FindAfterPut(local, e, e.name);
    StoredAfterPut(local, local', before.log, after.log, e);
    if after.obj.Some? {
      var R, R' := before.obj.value.status.revisions, after.obj.value.status.revisions;
      assert R' == Own(after.obj.value.status).revisions;
      assert R' == Put(R, e) || (R' == R && !mustApply);
      FindAfterPut(R, e, e.name);
      forall x: string | IsReady(local', x) ensures IsReady(R', x) {
        FindAfterPut(local, e, x);
        FindAfterPut(R, e, x);
        assert IsReady(local, x) ==> IsReady(R, x);
      }
      forall x | x in todo && IsReady(R', x) ensures IsReady(local', x) {
        FindAfterPut(local, e, x);
        FindAfterPut(R, e, x);
      }
    }
  }

  lemma StoredAfterPut(local: seq<Revision>, local': seq<Revision>, log: History, longer: History, e: Revision)
    requires LocalStored(local, log) && log <= longer
    requires local' == local || (local' == Put(local, e) && FindRevision(local, e.name).Some?)
    ensures LocalStored(local', longer)
  {
    LocalStoredKept(local, log, longer);
    forall n: string | FindRevision(local', n).Some? ensures EntryStored(longer, n) {
      FindAfterPut(local, e, n);
    }
  }

  /** An entry that was recorded is one that was stored. */
  lemma RecordedIsStored(cfg: Config, before: World, after: World, e: Revision)
    requires WorldOk(cfg, after) && Synced(before, after, PutRevision(e), true)
    ensures EntryStored(after.log, e.name)
  {
    FindAfterPut(before.obj.value.status.revisions, e, e.name);
    assert Own(after.obj.value.status).revisions == Put(Own(before.obj.value.status).revisions, e);
    EntryWasStored(cfg, after.log, e.name);
  }

  lemma SyncedParts(before: World, after: World, m: Mutation, mustApply: bool)
    requires Synced(before, after, m, mustApply)
    ensures before.log <= after.log && ViewOf(after.log) == ViewOf(before.log)
  {
  }

  // ---------------------------------------------------------------- status updates

  method SetRepoCondition(s: Server, kind: Kind, status: bool, reason: Reason, message: string)
    requires s.Valid()
    requires kind == Ready && status && s.w.obj.Some? ==> AllWantedReady(ViewOf(s.w.log), s.w.obj.value.status.revisions)
    modifies s
    ensures s.Valid()
    ensures Synced(old(s.w), s.w, SetCondition(Condition(kind, status, reason, message)), false)
    ensures s.quiet && old(s.w).obj.Some? ==>
              s.w == Committed(old(s.w), SetCondition(Condition(kind, status, reason, message)))
  {
    var _ := SyncStatus(s, SetCondition(Condition(kind, status, reason, message)));
  }

  /** The entry reaches the server's list, or the list stays as it was. */
  method UpdateRevisionStatus(s: Server, r: Revision) returns (ok: bool)
    requires s.Valid()
    requires s.w.obj.Some? ==> Guard(s.cfg, s.w.log, PutRevision(r), s.w.obj.value.status)
    modifies s
    ensures s.Valid() && Synced(old(s.w), s.w, PutRevision(r), ok) && old(s.w).log <= s.w.log
    ensures s.quiet && old(s.w).obj.Some? ==> ok && s.w == Committed(old(s.w), PutRevision(r))
  {
    ok := SyncStatus(s, PutRevision(r));
  }

  // ---------------------------------------------------------------- one revision

  /** The affinity of a download job: only for node-bound storage with a recorded node. */
  function NodeAffinity(info: ClassInfo, storage: Option<StorageStatus>): Option<string> {
    if info.mode == ReadWriteOnce && storage.Some? && storage.value.boundNode != "" then Some(storage.value.boundNode)
    else None
  }

  /** found points to the copy's first entry of the name, or is null if there is none. */
  ghost predicate Points(l: Local, found: Entry?, at: nat, name: string)
    reads l, l.entries
  {
    && (found == null <==> FindRevision(l.Revisions(), name).None?)
    && (found != null ==>
          && at < |l.entries| && l.entries[at] == found && found.name == name
          && forall j | 0 <= j < at :: l.entries[j].name != name)
  }

  /** The step for a revision may begin: the copy agrees for the others still to do, and the
      revision is not ready. */
  ghost predicate Open(s: Server, l: Local, name: string, todo: set<string>)
    reads s, l, l.entries
  {
    && s.Valid() && l.Valid() && name !in todo
    && Agrees(l.Revisions(), s.w, todo) && NotReady(l.Revisions(), s.w, name)
  }

  lemma OpenParts(s: Server, l: Local, name: string, todo: set<string>)
    ensures Open(s, l, name, todo) <==>
            && s.Valid() && l.Valid() && name !in todo
            && Agrees(l.Revisions(), s.w, todo) && NotReady(l.Revisions(), s.w, name)
  {
  }

  /** rs.Status = status, where rs is the found entry, so that the copy changes too, or a fresh one. */
  method SetThrough(l: Local, name: string, found: Entry?, ghost at: nat, rs: Entry, status: Phase)
    requires l.Valid() && Points(l, found, at, name)
    requires if found != null then rs == found else rs !in l.entries && rs.name == name
    modifies rs
    ensures rs.Value() == old(rs.Value()).(status := status) && rs.Value().name == name
    ensures rs.name == old(rs.name) && rs.commit == old(rs.commit)
    ensures l.Revisions() == if found != null then Put(old(l.Revisions()), rs.Value()) else old(l.Revisions())
    ensures l.Valid() && Points(l, found, at, name)
  {
    if found != null {
      SetStatus(l, found, at, status);
      FindAfterPut(old(l.Revisions()), rs.Value(), rs.name);
    } else {
      rs.status := status;
    }
  }

  // The entry behind rs is the one the undisturbed step records.
  lemma RecordsEntry(l: Local, found: Entry?, at: nat, rs: Entry, d: RevisionRef, status: Phase)
    requires Points(l, found, at, d.name)
    requires if found != null then rs == found else rs.name == d.name
    ensures found != null || rs.commit == d.ref ==>
              rs.Value().(status := status) == EntryWith(l.Revisions(), d, status)
    ensures found != null <==> FindRevision(l.Revisions(), d.name).Some?
  {
    if found != null {
      FoundAt(l.Revisions(), d.name, at);
    }
  }

  /** SetThrough, then updateRevisionStatus. */
  method Record(s: Server, l: Local, d: RevisionRef, ghost todo: set<string>,
                found: Entry?, ghost at: nat, rs: Entry, status: Phase)
    returns (ok: bool)
    requires Open(s, l, d.name, todo) && Points(l, found, at, d.name)
    requires if found != null then rs == found else rs !in l.entries && rs.name == d.name && rs.commit == d.ref
    requires status == ReadyPhase ==> JobSucceeded(DownloadJob(s.cfg, d.name)) in s.w.log
    modifies s, rs
    ensures s.Valid() && old(s.w).log <= s.w.log
    ensures rs.Value() == old(rs.Value()).(status := status) && rs.name == old(rs.name) && rs.commit == old(rs.commit)
    ensures ok ==> Agrees(l.Revisions(), s.w, todo) && EntryStored(s.w.log, d.name)
    ensures ViewOf(s.w.log) == ViewOf(old(s.w).log)
    ensures status != ReadyPhase ==> Open(s, l, d.name, todo) && Points(l, found, at, d.name)
    ensures s.quiet && old(s.w).obj.Some? ==>
              ok && (s.w, l.Revisions()) == Recorded(old(s.w), old(l.Revisions()), d, status)
  {
    hide *;
    OpenParts(s, l, d.name, todo);
    ghost var local, before := l.Revisions(), s.w;
    RecordsEntry(l, found, at, rs, d, status);
    SetThrough(l, d.name, found, at, rs, status);
    ghost var local', e := l.Revisions(), rs.Value();
    MayPut(s.cfg, s.w, e, local);
    ok := UpdateRevisionStatus(s, rs.Value());
    if ok || status != ReadyPhase {
      AgreesAfterPut(local, local', before, s.w, todo, e, ok);
    }
    SyncedParts(before, s.w, PutRevision(e), ok);
    if ok {
      ValidParts(s);
      RecordedIsStored(s.cfg, before, s.w, e);
    }
    OpenParts(s, l, d.name, todo);
    if before.obj.Some? {
      RecordedIs(before, local, d, status);
    }
  }

  lemma ValidParts(s: Server)
    requires s.Valid()
    ensures WorldOk(s.cfg, s.w) && (s.quiet ==> s.still)
  {
  }

  lemma RecordedIs(w: World, local: seq<Revision>, d: RevisionRef, status: Phase)
    requires w.obj.Some?
    ensures var e := EntryWith(local, d, status);
            Recorded(w, local, d, status) ==
            (Committed(w, PutRevision(e)), if FindRevision(local, d.name).Some? then Put(local, e) else local)
  {
  }

  lemma FoundStatus(l: Local, found: Entry?, at: nat, name: string)
    requires Points(l, found, at, name)
    ensures found == null <==> FindRevision(l.Revisions(), name).None?
    ensures found != null ==>
              found in l.entries && found.name == name && FindRevision(l.Revisions(), name).value.status == found.status
  {
    if found != null {
      FoundAt(l.Revisions(), name, at);
    }
  }

  // The four outcomes of an existing job.
  lemma JobStepCases(p: Plan, w: World, local: seq<Revision>, d: RevisionRef, job: Job)
    requires w.obj.Some?
    ensures var ready, failed, loading := Recorded(w, local, d, ReadyPhase),
                                          Recorded(w, local, d, FailedPhase),
                                          Recorded(w, local, d, DownloadingPhase);
            && failed.0.obj.Some?
            && JobStep(p, w, local, d, job) ==
               if job.succeeded > 0 then End(ready.0, ready.1, false, Continue)
               else if job.failed > 0 then
                 var c := Condition(Ready, false, DownloadFailed, "Download job failed for revision " + d.name);
                 End(Committed(failed.0, SetCondition(c)), failed.1, false, Requeue)
               else if FindRevision(local, d.name).Some? && FindRevision(local, d.name).value.status == DownloadingPhase then
                 End(w, local, true, Continue)
               else End(loading.0, loading.1, true, Continue)
  {
  }

  /** An existing download job: copy its outcome into the status. */
  method HandleJobStatus(s: Server, l: Local, d: RevisionRef, ghost todo: set<string>, p: Plan,
                         found: Entry?, ghost at: nat, job: Job)
    returns (running: bool, ctl: Control)
    requires Open(s, l, d.name, todo) && Points(l, found, at, d.name)
    requires job.succeeded > 0 ==> JobSucceeded(DownloadJob(s.cfg, d.name)) in s.w.log
    modifies s, l.entries
    ensures s.Valid() && old(s.w).log <= s.w.log
    ensures ViewOf(s.w.log) == ViewOf(old(s.w).log)
    ensures ctl == Continue ==> Agrees(l.Revisions(), s.w, todo)
    ensures s.quiet && old(s.w).obj.Some? ==>
              End(s.w, l.Revisions(), running, ctl) == JobStep(p, old(s.w), old(l.Revisions()), d, job)
  {
    hide *;
    OpenParts(s, l, d.name, todo);
    FoundStatus(l, found, at, d.name);
    if s.w.obj.Some? {
      JobStepCases(p, s.w, l.Revisions(), d, job);
    }
    if job.succeeded > 0 || job.failed > 0 || found == null || found.status != DownloadingPhase {
      var rs := found;
      if rs == null {
        rs := new Entry(Revision(d.name, d.ref, NoPhase));
      }
      if job.succeeded > 0 {
        var ok := Record(s, l, d, todo, found, at, rs, ReadyPhase);
        return false, if ok then Continue else Error;
      }
      if job.failed > 0 {
        var _ := Record(s, l, d, todo, found, at, rs, FailedPhase);
        ghost var recorded := s.w;
        SetRepoCondition(s, Ready, false, DownloadFailed, "Download job failed for revision " + d.name);
        SyncedParts(recorded, s.w,
                    SetCondition(Condition(Ready, false, DownloadFailed, "Download job failed for revision " + d.name)), false);
        return false, Requeue;
      }
      var _ := Record(s, l, d, todo, found, at, rs, DownloadingPhase);
      OpenParts(s, l, d.name, todo);
    }
    return true, Continue;
  }

  /** A cleanup job of the same revision must go before a download starts. */
  method DeleteStaleCleanupJob(s: Server, revision: string) returns (deleted: bool, ok: bool)
    requires s.Valid() && Wanted(ViewOf(s.w.log), revision)
    modifies s
    ensures s.Valid() && Follows(old(s.w), s.w) && ViewOf(s.w.log) == ViewOf(old(s.w).log)
    ensures AddsOnly(old(s.w).log, s.w.log, {StaleJobDeleted(revision, CleanupJob(s.cfg, revision))}, {})
    ensures s.quiet ==> var name := CleanupJob(s.cfg, revision);
                        ok && (deleted <==> name in old(s.w).jobs)
                        && s.w == if deleted then WithoutJob(old(s.w), name, StaleJobDeleted(revision, name)) else old(s.w)
  {
    hide WorldOk, Follows, AddsOnly, Wanted, CleanupJob;
    var name := CleanupJob(s.cfg, revision);
    var found := s.GetJob(name);
    ghost var mid := s.w;
    RelyParts(old(s.w), mid);
    AddsMore(old(s.w).log, mid.log, mid.log, StaleJobDeleted(revision, name));
    if found.JobNotFound? {
      return false, true;
    }
    if found.JobReadFailed? {
      return false, false;
    }
    ok := s.DeleteJob(name, StaleJobDeleted(revision, name));
    FollowsTrans(old(s.w), mid, s.w);
    AddsMore(old(s.w).log, mid.log, s.w.log, StaleJobDeleted(revision, name));
    return ok, ok;
  }

  lemma RelyParts(before: World, after: World)
    requires Rely(before, after)
    ensures Follows(before, after) && before.log <= after.log
    ensures AddsOnly(before.log, after.log, {}, {}) && ViewOf(after.log) == ViewOf(before.log)
  {
  }

  lemma FollowsTrans(u: World, v: World, w: World)
    requires Follows(u, v) && Follows(v, w)
    ensures Follows(u, w)
  {
  }

  // Environment events, then at most the given one.
  lemma AddsMore(a: History, b: History, c: History, e: Event)
    requires AddsOnly(a, b, {}, {})
    ensures AddsOnly(a, b, {e}, {})
    ensures AddsOnly(b, c, {e}, {}) ==> AddsOnly(a, c, {e}, {})
  {
  }

  /** The plan asks for what the spec read in this pass asks for, and with node-bound storage its
      affinity is that of the claim seen bound in this pass. */
  predicate PlanFits(v: View, p: Plan) {
    && v.spec.Some? && p.desired == DesiredRevisions(v.spec.value)
    && (v.nodeBound ==> Pinned(v, p.affinity))
  }

  lemma PlanAllows(log: History, p: Plan, d: RevisionRef)
    requires PlanFits(ViewOf(log), p) && d in p.desired
    ensures Wanted(ViewOf(log), d.name)
    ensures EntryStored(log, d.name) ==> MayCreate(log, d.name, p.affinity)
  {
  }

  // A stale cleanup job goes first; a revision without entry is recorded before the job is created.
  lemma MissingJobCases(cfg: Config, p: Plan, w: World, local: seq<Revision>, d: RevisionRef)
    requires w.obj.Some?
    ensures var stale := CleanupJob(cfg, d.name);
            var (v, after) := Recorded(w, local, d, PendingPhase);
            && v.obj.Some? && v.jobs == w.jobs
            && (FindRevision(local, d.name).None? ==> after == local)
            && MissingJobStep(cfg, p, w, local, d) ==
               if stale in w.jobs then End(WithoutJob(w, stale, StaleJobDeleted(d.name, stale)), local, false, Requeue)
               else LaunchStep(cfg, p, if FindRevision(local, d.name).None? then v else w, local, d)
  {
  }

  /** No download job yet: record the revision, create the job pinned to its node, record that. */
  method CreateDownloadJob(s: Server, l: Local, d: RevisionRef, ghost todo: set<string>, p: Plan, found: Entry?, ghost at: nat)
    returns (running: bool, ctl: Control)
    requires Open(s, l, d.name, todo) && Points(l, found, at, d.name) && PlanFits(ViewOf(s.w.log), p) && d in p.desired
    modifies s, l.entries
    ensures s.Valid() && old(s.w).log <= s.w.log
    ensures ViewOf(s.w.log) == ViewOf(old(s.w).log)
    ensures ctl == Continue ==> Agrees(l.Revisions(), s.w, todo)
    ensures s.quiet && old(s.w).obj.Some? && DownloadJob(s.cfg, d.name) !in old(s.w).jobs ==>
              End(s.w, l.Revisions(), running, ctl) == MissingJobStep(s.cfg, p, old(s.w), old(l.Revisions()), d)
  {
    hide *;
    OpenParts(s, l, d.name, todo);
    FoundStatus(l, found, at, d.name);
    if s.w.obj.Some? {
      MissingJobCases(s.cfg, p, s.w, l.Revisions(), d);
    }
    PlanAllows(s.w.log, p, d);
    var deleted, listed := DeleteStaleCleanupJob(s, d.name);
    FollowsLog(old(s.w), s.w);
    if !listed {
      return false, Error;
    }
    if deleted {
      return false, Requeue;
    }
    AgreesKept(l.Revisions(), old(s.w), s.w, todo, d.name);
    OpenParts(s, l, d.name, todo);
    ghost var checked := s.w.log;
    var rs := found;
    if rs == null {
      rs := new Entry(Revision(d.name, d.ref, PendingPhase));
      var ok := Record(s, l, d, todo, found, at, rs, PendingPhase);
      assert old(s.w).log <= checked <= s.w.log;
      if !ok {
        return false, Error;
      }
    }
    if found != null {
      FoundIsStored(s, l, found, at, d.name, todo);
    }
    running, ctl := LaunchJob(s, l, d, todo, p, found, at, rs);
  }

  lemma FoundIsStored(s: Server, l: Local, found: Entry, at: nat, name: string, todo: set<string>)
    requires Open(s, l, name, todo) && Points(l, found, at, name)
    ensures EntryStored(s.w.log, name)
  {
  }

  /** Build the job from its manifest, create it, and record the outcome. */
  method LaunchJob(s: Server, l: Local, d: RevisionRef, ghost todo: set<string>, p: Plan, found: Entry?, ghost at: nat, rs: Entry)
    returns (running: bool, ctl: Control)
    requires Open(s, l, d.name, todo) && Points(l, found, at, d.name) && PlanFits(ViewOf(s.w.log), p) && d in p.desired
    requires EntryStored(s.w.log, d.name)
    requires if found != null then rs == found else rs !in l.entries && rs.name == d.name && rs.commit == d.ref
    modifies s, rs
    ensures s.Valid() && old(s.w).log <= s.w.log
    ensures ViewOf(s.w.log) == ViewOf(old(s.w).log)
    ensures ctl == Continue ==> Agrees(l.Revisions(), s.w, todo)
    ensures rs.status == if ctl == Continue then DownloadingPhase else FailedPhase
    ensures ctl == Continue <==> running
    ensures s.quiet && old(s.w).obj.Some? && DownloadJob(s.cfg, d.name) !in old(s.w).jobs ==>
              End(s.w, l.Revisions(), running, ctl) == LaunchStep(s.cfg, p, old(s.w), old(l.Revisions()), d)
  {
    hide WorldOk, Recorded, Agrees, PlanFits, EntryStored, MayCreate, DownloadJob;
    if p.origin == OtherOrigin {
      // no manifest for this origin
      var _ := Record(s, l, d, todo, found, at, rs, FailedPhase);
      return false, Error;
    }
    PlanAllows(s.w.log, p, d);
    var created := s.CreateJob(d.name, p.affinity);
    AgreesKept(l.Revisions(), old(s.w), s.w, todo, d.name);
    var _ := Record(s, l, d, todo, found, at, rs, if created then DownloadingPhase else FailedPhase);
    return created, if created then Continue else Error;
  }

  lemma IsPointer(l: Local, found: Entry?, at: nat, name: string)
    requires found == null <==> FindRevision(l.Revisions(), name).None?
    requires found != null ==>
               && at < |l.entries| && l.entries[at] == found && found.name == name
               && forall j | 0 <= j < at :: l.entries[j].name != name
    ensures Points(l, found, at, name)
    ensures IsReady(l.Revisions(), name) <==> found != null && found.status == ReadyPhase
  {
    if found != null {
      FoundAt(l.Revisions(), name, at);
    }
  }

  lemma FollowsLog(before: World, after: World)
    requires Follows(before, after)
    ensures before.log <= after.log
  {
  }

  lemma StepCases(cfg: Config, p: Plan, w: World, local: seq<Revision>, d: RevisionRef)
    requires w.obj.Some?
    ensures Step(cfg, p, w, local, d) ==
            if IsReady(local, d.name) then End(w, local, false, Continue)
            else if DownloadJob(cfg, d.name) in w.jobs then JobStep(p, w, local, d, w.jobs[DownloadJob(cfg, d.name)])
            else MissingJobStep(cfg, p, w, local, d)
  {
  }

  /** One desired revision: nothing if it is ready, else look at its job or create it. */
  method ReconcileRevision(s: Server, l: Local, d: RevisionRef, ghost todo: set<string>, p: Plan)
    returns (running: bool, ctl: Control)
    requires s.Valid() && l.Valid() && Agrees(l.Revisions(), s.w, todo + {d.name}) && d.name !in todo
    requires PlanFits(ViewOf(s.w.log), p) && d in p.desired
    modifies s, l.entries
    ensures s.Valid() && old(s.w).log <= s.w.log
    ensures ViewOf(s.w.log) == ViewOf(old(s.w).log)
    ensures ctl == Continue ==> Agrees(l.Revisions(), s.w, todo)
    ensures s.quiet && old(s.w).obj.Some? ==>
              End(s.w, l.Revisions(), running, ctl) == Step(s.cfg, p, old(s.w), old(l.Revisions()), d)
  {
    hide *;
    AgreesForOne(l.Revisions(), s.w, todo, d.name);
    if s.w.obj.Some? {
      StepCases(s.cfg, p, s.w, l.Revisions(), d);
    }
    var found, at := l.FindRevisionStatus(d.name);
    IsPointer(l, found, at, d.name);
    if found != null && found.status == ReadyPhase {
      return false, Continue;
    }
    var job := s.GetJob(DownloadJob(s.cfg, d.name));
    RelyParts(old(s.w), s.w);
    AgreesKept(l.Revisions(), old(s.w), s.w, todo, d.name);
    OpenParts(s, l, d.name, todo);
    match job {
      case JobNotFound =>
        running, ctl := CreateDownloadJob(s, l, d, todo, p, found, at);
      case JobReadFailed =>
        return false, Error;
      case JobFound(j) =>
        running, ctl := HandleJobStatus(s, l, d, todo, p, found, at, j);
    }
  }

  function NamesOf(rs: seq<RevisionRef>): set<string> { set r | r in rs :: r.name }

  lemma NamesOfTail(rs: seq<RevisionRef>, i: nat)
    requires i < |rs| && Distinct(rs)
    ensures NamesOf(rs[i..]) == NamesOf(rs[i + 1..]) + {rs[i].name} && rs[i].name !in NamesOf(rs[i + 1..])
  {
  }

  // What is left to do leads to the same end as the whole.
  ghost predicate OnTrack(cfg: Config, p: Plan, w: World, local: seq<Revision>, rest: seq<RevisionRef>, running: bool, goal: End) {
    && w.obj.Some?
    && var e := Steps(cfg, p, w, local, rest);
    goal.w == e.w && goal.local == e.local && goal.ctl == e.ctl
    && (e.ctl == Continue ==> goal.running == (running || e.running))
  }

  lemma OnTrackStep(cfg: Config, p: Plan, w: World, local: seq<Revision>, rest: seq<RevisionRef>, running: bool, goal: End)
    requires rest != []
    ensures OnTrack(cfg, p, w, local, rest, running, goal) ==>
              && w.obj.Some?
              && var e := Step(cfg, p, w, local, rest[0]);
              if e.ctl != Continue then goal.w == e.w && goal.local == e.local && goal.ctl == e.ctl
              else OnTrack(cfg, p, e.w, e.local, rest[1..], running || e.running, goal)
  {
  }

  lemma OnTrackDone(cfg: Config, p: Plan, w: World, local: seq<Revision>, running: bool, goal: End)
    ensures OnTrack(cfg, p, w, local, [], running, goal) ==> goal == End(w, local, running, Continue)
  {
  }

  lemma OnTrackStart(cfg: Config, p: Plan, w: World, local: seq<Revision>, rest: seq<RevisionRef>)
    ensures w.obj.Some? ==> OnTrack(cfg, p, w, local, rest, false, Steps(cfg, p, w, local, rest))
  {
  }

  /** The download loop. */
  method DownloadAll(s: Server, l: Local, p: Plan) returns (anyJobRunning: bool, ctl: Control)
    requires s.Valid() && l.Valid() && Distinct(p.desired) && Agrees(l.Revisions(), s.w, NamesOf(p.desired))
    requires PlanFits(ViewOf(s.w.log), p)
    modifies s, l.entries
    ensures s.Valid() && old(s.w).log <= s.w.log
    ensures ViewOf(s.w.log) == ViewOf(old(s.w).log)
    ensures ctl == Continue ==> Agrees(l.Revisions(), s.w, {})
    ensures s.quiet && old(s.w).obj.Some? ==>
              var e := Steps(s.cfg, p, old(s.w), old(l.Revisions()), p.desired);
              s.w == e.w && l.Revisions() == e.local && ctl == e.ctl && (ctl == Continue ==> anyJobRunning == e.running)
  {
    hide WorldOk, Agrees, PlanFits, Steps, OnTrack, Step;
    anyJobRunning := false;
    ghost var quiet := s.quiet && s.w.obj.Some?;
    ghost var goal := if quiet then Steps(s.cfg, p, s.w, l.Revisions(), p.desired) else End(s.w, [], false, Continue);
    OnTrackStart(s.cfg, p, s.w, l.Revisions(), p.desired);
    var i := 0;
    assert p.desired[0..] == p.desired;
    while i < |p.desired|
      invariant 0 <= i <= |p.desired|
      invariant s.Valid() && old(s.w).log <= s.w.log
      invariant Agrees(l.Revisions(), s.w, NamesOf(p.desired[i..])) && PlanFits(ViewOf(s.w.log), p)
      invariant ViewOf(s.w.log) == ViewOf(old(s.w).log)
      invariant quiet ==> OnTrack(s.cfg, p, s.w, l.Revisions(), p.desired[i..], anyJobRunning, goal)
    {
      NamesOfTail(p.desired, i);
      ghost var rest := p.desired[i..];
      assert rest[0] == p.desired[i] && rest[1..] == p.desired[i + 1..];
      if quiet {
        OnTrackStep(s.cfg, p, s.w, l.Revisions(), rest, anyJobRunning, goal);
      }
      ghost var log := s.w.log;
      var running, c := ReconcileRevision(s, l, p.desired[i], NamesOf(p.desired[i + 1..]), p);
      if c != Continue {
        return anyJobRunning, c;
      }
      anyJobRunning := anyJobRunning || running;
      i := i + 1;
    }
    assert p.desired[i..] == [] && NamesOf([]) == {};
    OnTrackDone(s.cfg, p, s.w, l.Revisions(), anyJobRunning, goal);
    return anyJobRunning, Continue;
  }

  /** All desired revisions in order, then the overall condition. */
  method ReconcileRevisions(s: Server, l: Local, p: Plan) returns (ctl: Control)
    requires s.Valid() && l.Valid() && Distinct(p.desired)
    requires Agrees(l.Revisions(), s.w, NamesOf(p.desired)) && PlanFits(ViewOf(s.w.log), p)
    modifies s, l.entries
    ensures s.Valid() && old(s.w).log <= s.w.log
    ensures s.quiet && old(s.w).obj.Some? ==>
              var e := Steps(s.cfg, p, old(s.w), old(l.Revisions()), p.desired);
              if e.ctl != Continue then (s.w, ctl) == (e.w, e.ctl)
              else (s.w, ctl) == (Overall(e.w, e.local, p.desired, e.running), if e.running then Requeue else Continue)
  {
    hide WorldOk, Agrees, PlanFits, Steps, Overall;
    var anyJobRunning;
    anyJobRunning, ctl := DownloadAll(s, l, p);
    if ctl != Continue {
      return;
    }
    UpdateOverallPhase(s, l, p, anyJobRunning);
    return if anyJobRunning then Requeue else Continue;
  }

  method ShowsAllReady(l: Local, desired: seq<RevisionRef>) returns (allReady: bool)
    ensures allReady == AllReady(l.Revisions(), desired)
  {
    for i := 0 to |desired|
      invariant forall j | 0 <= j < i :: IsReady(l.Revisions(), desired[j].name)
    {
      var rs, _ := l.FindRevisionStatus(desired[i].name);
      if rs == null || rs.status != ReadyPhase {
        return false;
      }
    }
    return true;
  }

  lemma ServerAllReady(local: seq<Revision>, w: World, todo: set<string>, p: Plan)
    requires Agrees(local, w, todo) && AllReady(local, p.desired) && PlanFits(ViewOf(w.log), p)
    ensures w.obj.Some? ==> AllWantedReady(ViewOf(w.log), w.obj.value.status.revisions)
  {
  }

  lemma OverallCases(w: World, local: seq<Revision>, desired: seq<RevisionRef>, running: bool)
    requires w.obj.Some?
    ensures Overall(w, local, desired, running) ==
            if AllReady(local, desired) then
              Committed(w, SetCondition(Condition(Ready, true, AllRevisionsReady, "All revisions downloaded successfully")))
            else if running then
              Committed(w, SetCondition(Condition(Ready, false, DownloadingRevisions, "Downloading revisions")))
            else w
  {
  }

  /** Ready=True only if the local copy shows every desired revision ready. */
  method UpdateOverallPhase(s: Server, l: Local, p: Plan, anyJobRunning: bool)
    requires s.Valid() && l.Valid() && Agrees(l.Revisions(), s.w, {}) && PlanFits(ViewOf(s.w.log), p)
    modifies s
    ensures s.Valid() && old(s.w).log <= s.w.log
    ensures s.quiet && old(s.w).obj.Some? ==> s.w == Overall(old(s.w), l.Revisions(), p.desired, anyJobRunning)
  {
    hide *;
    ghost var w0 := s.w;
    if w0.obj.Some? {
      OverallCases(w0, l.Revisions(), p.desired, anyJobRunning);
    }
    var allReady := ShowsAllReady(l, p.desired);
    if allReady {
      ServerAllReady(l.Revisions(), s.w, {}, p);
      var message := "All revisions downloaded successfully";
      SetRepoCondition(s, Ready, true, AllRevisionsReady, message);
      SyncedParts(w0, s.w, SetCondition(Condition(Ready, true, AllRevisionsReady, message)), false);
    } else if anyJobRunning {
      var message := "Downloading revisions";
      SetRepoCondition(s, Ready, false, DownloadingRevisions, message);
      SyncedParts(w0, s.w, SetCondition(Condition(Ready, false, DownloadingRevisions, message)), false);
    }
  }
}
