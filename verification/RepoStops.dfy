/** How an undisturbed pass over the revisions ends: what it answers and shows when it gets through
    to the end of the list, and where it stops when it does not. */
module RepoStops {
  import opened Common
  import opened Backend
  import opened Status
  import opened RepoWorld
  import opened RepoServer
  import opened RepoPass
  import opened RepoSpec

  // ---------------------------------------------------------------- the pass gets through

  lemma StepRuns(cfg: Config, p: Plan, w: World, local: seq<Revision>, r: RevisionRef)
    requires w.obj.Some? && Proceeds(cfg, p.origin, w, local, r)
    ensures var e := Step(cfg, p, w, local, r);
            (e.running <==> !Fetchable(cfg, w, local, r)) && (!Fetchable(cfg, w, local, r) ==> !IsReady(e.local, r.name))
  {
    hide Recorded, DownloadJob, CleanupJob, Committed;
    RecordedEntry(w, local, r, DownloadingPhase);
    if DownloadJob(cfg, r.name) !in w.jobs {
      var w1 := if FindRevision(local, r.name).None? then Committed(w, PutRevision(Revision(r.name, r.ref, PendingPhase))) else w;
      PendingFinds(w, local, r, r.name);
      RecordedEntry(WithJob(cfg, w1, r.name, p.affinity), local, r, DownloadingPhase);
    }
  }

  /** For this revision nothing has changed: neither readiness nor jobs. */
  predicate SameFor(cfg: Config, origin: Origin, w: World, local: seq<Revision>, v: World, after: seq<Revision>, d: RevisionRef) {
    var job, stale := DownloadJob(cfg, d.name), CleanupJob(cfg, d.name);
    && (Proceeds(cfg, origin, v, after, d) <==> Proceeds(cfg, origin, w, local, d))
    && (Fetchable(cfg, v, after, d) <==> Fetchable(cfg, w, local, d))
    && (IsReady(after, d.name) <==> IsReady(local, d.name))
    && (job in v.jobs <==> job in w.jobs) && (job in w.jobs ==> v.jobs[job] == w.jobs[job])
    && (stale in v.jobs <==> stale in w.jobs)
  }

  // What a step that goes on leaves as it was for another revision.
  lemma Untouched(cfg: Config, p: Plan, w: World, local: seq<Revision>, r: RevisionRef, d: RevisionRef)
    requires w.obj.Some?
    ensures Proceeds(cfg, p.origin, w, local, r) && (IsReady(local, r.name) <==> IsReady(w.obj.value.status.revisions, r.name))
            && r.name != d.name && DownloadJob(cfg, r.name) != DownloadJob(cfg, d.name) ==>
              var e := Step(cfg, p, w, local, r);
              && SameFor(cfg, p.origin, w, local, e.w, e.local, d)
              && (IsReady(e.w.obj.value.status.revisions, d.name) <==> IsReady(w.obj.value.status.revisions, d.name))
  {
    hide Step, IsReady, DownloadJob, CleanupJob;
    if Proceeds(cfg, p.origin, w, local, r) && (IsReady(local, r.name) <==> IsReady(w.obj.value.status.revisions, r.name)) {
      StepEffect(cfg, p, w, local, r, d.name);
    }
    JobKindsDiffer(cfg, r.name, d.name);
  }

  /** Distinct revisions with distinct jobs, on which local copy and server agree. */
  predicate OnCourse(cfg: Config, w: World, local: seq<Revision>, rs: seq<RevisionRef>) {
    && w.obj.Some? && AgreeOn(local, w.obj.value.status.revisions, rs)
    && forall i, j | 0 <= i < j < |rs| ::
         rs[i].name != rs[j].name && DownloadJob(cfg, rs[i].name) != DownloadJob(cfg, rs[j].name)
  }

  // After the first step the rest is on course, and each of its revisions as it was.
  lemma RestOnCourse(cfg: Config, p: Plan, w: World, local: seq<Revision>, rs: seq<RevisionRef>)
    requires rs != [] && OnCourse(cfg, w, local, rs) && Proceeds(cfg, p.origin, w, local, rs[0])
    ensures var e := Step(cfg, p, w, local, rs[0]);
            && e.ctl == Continue && OnCourse(cfg, e.w, e.local, rs[1..])
            && forall i | 0 < i < |rs| :: SameFor(cfg, p.origin, w, local, e.w, e.local, rs[i])
  {
    hide Step, IsReady, DownloadJob, CleanupJob, Proceeds, Fetchable;
    assert rs[0] in rs;
    StepContinues(cfg, p, w, local, rs[0]);
    var e := Step(cfg, p, w, local, rs[0]);
    forall i | 0 < i < |rs|
      ensures SameFor(cfg, p.origin, w, local, e.w, e.local, rs[i])
      ensures IsReady(e.local, rs[i].name) <==> IsReady(e.w.obj.value.status.revisions, rs[i].name)
    {
      assert rs[i] in rs;
      Untouched(cfg, p, w, local, rs[0], rs[i]);
    }
  }

  // Steps leave the local readiness of other names alone.
  lemma StepElsewhere(cfg: Config, p: Plan, w: World, local: seq<Revision>, r: RevisionRef, n: string)
    requires w.obj.Some?
    ensures Proceeds(cfg, p.origin, w, local, r) && (IsReady(local, r.name) <==> IsReady(w.obj.value.status.revisions, r.name))
            && n != r.name ==>
              (IsReady(Step(cfg, p, w, local, r).local, n) <==> IsReady(local, n))
  {
    hide Step, Proceeds, IsReady;
    if Proceeds(cfg, p.origin, w, local, r) && (IsReady(local, r.name) <==> IsReady(w.obj.value.status.revisions, r.name)) {
      StepEffect(cfg, p, w, local, r, n);
    }
  }

  /** If nothing stands in the way of any, the pass has jobs running exactly if some download is
      wanted whose success is not known yet; each of those stays unready in the local copy. */
  lemma {:induction false} StepsRun(cfg: Config, p: Plan, w: World, local: seq<Revision>, rs: seq<RevisionRef>)
    requires OnCourse(cfg, w, local, rs) && forall i | 0 <= i < |rs| :: Proceeds(cfg, p.origin, w, local, rs[i])
    ensures var e := Steps(cfg, p, w, local, rs);
            && e.ctl == Continue
            && (e.running <==> exists i | 0 <= i < |rs| :: !Fetchable(cfg, w, local, rs[i]))
            && (forall i | 0 <= i < |rs| && !Fetchable(cfg, w, local, rs[i]) :: !IsReady(e.local, rs[i].name))
            && (forall n: string :: (forall i | 0 <= i < |rs| :: rs[i].name != n) ==> (IsReady(e.local, n) <==> IsReady(local, n)))
    decreases |rs|
  {
    hide Step, IsReady, DownloadJob, CleanupJob, Proceeds, Fetchable;
    if rs != [] {
      var e := Step(cfg, p, w, local, rs[0]);
      var rest := rs[1..];
      assert rs[0] in rs;
      StepRuns(cfg, p, w, local, rs[0]);
      RestOnCourse(cfg, p, w, local, rs);
      assert forall i | 0 <= i < |rest| :: rest[i] == rs[i + 1];
      StepsRun(cfg, p, e.w, e.local, rest);
      var t := Steps(cfg, p, e.w, e.local, rest);
      forall i | 0 <= i < |rs| && !Fetchable(cfg, w, local, rs[i]) ensures !IsReady(t.local, rs[i].name) {
        if i > 0 {
          assert rs[i] == rest[i - 1];
        }
      }
      forall n: string | forall i | 0 <= i < |rs| :: rs[i].name != n ensures IsReady(t.local, n) <==> IsReady(local, n) {
        StepElsewhere(cfg, p, w, local, rs[0], n);
      }
      if i :| 0 <= i < |rs| && !Fetchable(cfg, w, local, rs[i]) {
        assert i > 0 ==> !Fetchable(cfg, e.w, e.local, rest[i - 1]);
      }
    }
  }

  /** What the pass answers and shows when nothing stands in the way: as long as the success of some
      wanted download is not known it is requeued, and the repository shows as downloading. */
  lemma PassRuns(cfg: Config, w: World)
    requires ReachesDownloads(cfg, w)
    requires var desired := DesiredRevisions(w.obj.value.spec); Distinct(desired) && JobsDistinct(cfg, desired)
    requires forall d | d in DesiredRevisions(w.obj.value.spec) ::
               Proceeds(cfg, w.obj.value.spec.origin, w, w.obj.value.status.revisions, d)
    ensures var (v, ctl) := QuietPass(cfg, w);
            && v.obj.Some?
            && if exists d | d in DesiredRevisions(w.obj.value.spec) :: !Fetchable(cfg, w, w.obj.value.status.revisions, d)
               then && ctl == Requeue && v.obj.value.status.phase == DownloadingPhase
                    && Shown(v, Ready) == Some(Condition(Ready, false, DownloadingRevisions, "Downloading revisions"))
               else ctl == Continue
  {
    hide QuietPass, DownloadPart, Proceeds, StorageRead, StorageStep, Shown, JobsDistinct, SeesBound, VolumeNode;
    DownloadsBegin(cfg, w);
    var info := w.classes.value;
    var v := StorageStep(cfg, WithClaimCreated(WithFinalizer(Opened(w))), info);
    assert forall d | d in DesiredRevisions(w.obj.value.spec) ::
      Proceeds(cfg, w.obj.value.spec.origin, v, v.obj.value.status.revisions, d) by {
      SameJobsProceed(cfg, w, v);
    }
    DownloadRuns(cfg, v, info);
  }

  lemma SameJobsProceed(cfg: Config, w: World, v: World)
    requires v.jobs == w.jobs
    ensures forall origin, local, d :: Proceeds(cfg, origin, v, local, d) <==> Proceeds(cfg, origin, w, local, d)
    ensures forall local, d :: Fetchable(cfg, v, local, d) <==> Fetchable(cfg, w, local, d)
  {
  }

  lemma DownloadRuns(cfg: Config, w: World, info: ClassInfo)
    requires w.obj.Some?
    requires var desired := DesiredRevisions(w.obj.value.spec); Distinct(desired) && JobsDistinct(cfg, desired)
    requires forall d | d in DesiredRevisions(w.obj.value.spec) ::
               Proceeds(cfg, w.obj.value.spec.origin, w, w.obj.value.status.revisions, d)
    ensures var (v, ctl) := DownloadPart(cfg, w, info);
            && v.obj.Some?
            && if exists d | d in DesiredRevisions(w.obj.value.spec) :: !Fetchable(cfg, w, w.obj.value.status.revisions, d)
               then && ctl == Requeue && v.obj.value.status.phase == DownloadingPhase
                    && Shown(v, Ready) == Some(Condition(Ready, false, DownloadingRevisions, "Downloading revisions"))
               else ctl == Continue
  {
    hide Steps, Proceeds, Fetchable, Overall, Shown, DownloadJob;
    var p, local := PlanFor(w, info), w.obj.value.status.revisions;
    StepsRun(cfg, p, w, local, p.desired);
    var e := Steps(cfg, p, w, local, p.desired);
    OverallShown(e.w, e.local, p.desired, e.running);
    if i :| 0 <= i < |p.desired| && !Fetchable(cfg, w, local, p.desired[i]) {
      assert p.desired[i] in p.desired && !IsReady(e.local, p.desired[i].name);
    }
  }

  // ---------------------------------------------------------------- where the pass stops

  lemma SameForTrans(cfg: Config, origin: Origin, u: World, ul: seq<Revision>, v: World, vl: seq<Revision>,
                     w: World, wl: seq<Revision>, d: RevisionRef)
    requires SameFor(cfg, origin, u, ul, v, vl, d) && SameFor(cfg, origin, v, vl, w, wl, d)
    ensures SameFor(cfg, origin, u, ul, w, wl, d)
  {
    hide Proceeds, Fetchable, DownloadJob, CleanupJob, IsReady;
  }

  /** New jobs are download jobs of the first i revisions. */
  predicate OnlyStarts(cfg: Config, w: World, v: World, rs: seq<RevisionRef>, i: nat)
    requires i <= |rs|
  {
    forall j | j in v.jobs && j !in w.jobs :: exists k | 0 <= k < i :: j == DownloadJob(cfg, rs[k].name)
  }

  /** The steps end with that of the first revision that something stands in the way of. */
  lemma {:induction false} StepsStop(cfg: Config, p: Plan, w: World, local: seq<Revision>, rs: seq<RevisionRef>, i: nat)
    returns (v: World, after: seq<Revision>)
    requires OnCourse(cfg, w, local, rs) && i < |rs| && !Proceeds(cfg, p.origin, w, local, rs[i])
    requires forall j | 0 <= j < i :: Proceeds(cfg, p.origin, w, local, rs[j])
    ensures v.obj.Some?
    ensures Steps(cfg, p, w, local, rs).ctl == Step(cfg, p, v, after, rs[i]).ctl
    ensures Steps(cfg, p, w, local, rs).w == Step(cfg, p, v, after, rs[i]).w
    ensures Step(cfg, p, v, after, rs[i]).ctl != Continue
    ensures SameFor(cfg, p.origin, w, local, v, after, rs[i]) && OnlyStarts(cfg, w, v, rs, i)
    decreases |rs|
  {
    hide Step, IsReady, DownloadJob, CleanupJob, Proceeds, Fetchable, SameFor, OnlyStarts;
    if i == 0 {
      v, after := w, local;
      StepContinues(cfg, p, w, local, rs[0]);
      NothingChanged(cfg, p.origin, w, local, rs);
    } else {
      var e := Step(cfg, p, w, local, rs[0]);
      RestOnCourse(cfg, p, w, local, rs);
      var rest := rs[1..];
      forall j | 0 < j <= i ensures Proceeds(cfg, p.origin, e.w, e.local, rest[j - 1]) <==> Proceeds(cfg, p.origin, w, local, rs[j]) {
        SameMeans(cfg, p.origin, w, local, e.w, e.local, rs[j]);
      }
      v, after := StepsStop(cfg, p, e.w, e.local, rest, i - 1);
      SameForTrans(cfg, p.origin, w, local, e.w, e.local, v, after, rs[i]);
      assert rs[0] in rs;
      StepEffect(cfg, p, w, local, rs[0], rs[0].name);
      StartsMore(cfg, w, e.w, v, rs, i);
    }
  }

  lemma NothingChanged(cfg: Config, origin: Origin, w: World, local: seq<Revision>, rs: seq<RevisionRef>)
    requires rs != []
    ensures SameFor(cfg, origin, w, local, w, local, rs[0]) && OnlyStarts(cfg, w, w, rs, 0)
  {
  }

  lemma SameMeans(cfg: Config, origin: Origin, w: World, local: seq<Revision>, v: World, after: seq<Revision>, d: RevisionRef)
    requires SameFor(cfg, origin, w, local, v, after, d)
    ensures Proceeds(cfg, origin, v, after, d) <==> Proceeds(cfg, origin, w, local, d)
  {
  }

  lemma StartsMore(cfg: Config, w: World, u: World, v: World, rs: seq<RevisionRef>, i: nat)
    requires 0 < i <= |rs| && OnlyStarts(cfg, u, v, rs[1..], i - 1)
    requires u.jobs.Keys <= w.jobs.Keys + {DownloadJob(cfg, rs[0].name)}
    ensures OnlyStarts(cfg, w, v, rs, i)
  {
    hide DownloadJob;
    forall j | j in v.jobs && j !in w.jobs ensures exists k | 0 <= k < i :: j == DownloadJob(cfg, rs[k].name) {
      if j in u.jobs {
        assert j == DownloadJob(cfg, rs[0].name);
      } else {
        var k :| 0 <= k < i - 1 && j == DownloadJob(cfg, rs[1..][k].name);
        assert rs[1..][k] == rs[k + 1];
      }
    }
  }

  // The step that stops: a failed job, a stale cleanup job, or an origin without a manifest.
  lemma StoppingStep(cfg: Config, p: Plan, w: World, local: seq<Revision>, r: RevisionRef)
    requires w.obj.Some? && !Proceeds(cfg, p.origin, w, local, r)
    ensures var e, job, stale := Step(cfg, p, w, local, r), DownloadJob(cfg, r.name), CleanupJob(cfg, r.name);
            && e.w.obj.Some? && e.w.jobs.Keys <= w.jobs.Keys
            && if job in w.jobs then
                 && e.ctl == Requeue && w.jobs[job].succeeded == 0 && w.jobs[job].failed > 0
                 && e.w.obj.value.status.phase == FailedPhase && e.w.jobs == w.jobs
                 && Shown(e.w, Ready) == Some(Condition(Ready, false, DownloadFailed, "Download job failed for revision " + r.name))
                 && EntryOf(e.w, r.name).Some? && EntryOf(e.w, r.name).value.status == FailedPhase
               else if stale in w.jobs then e.ctl == Requeue && e.w.jobs == w.jobs - {stale} && e.w.obj == w.obj
               else
                 && e.ctl == Error && p.origin == OtherOrigin && e.w.jobs == w.jobs
                 && EntryOf(e.w, r.name).Some? && EntryOf(e.w, r.name).value.status == FailedPhase
  {
    hide JobStep, MissingJobStep, DownloadJob, CleanupJob, Shown, EntryOf;
    MissingJobShown(cfg, p, w, local, r);
    if DownloadJob(cfg, r.name) in w.jobs {
      JobShown(p, w, local, r, w.jobs[DownloadJob(cfg, r.name)]);
    }
  }

  /** Something stands in the way of desired revision i, and of none before it. */
  predicate FirstInTheWay(cfg: Config, w: World, i: nat)
    requires w.obj.Some? && i < |DesiredRevisions(w.obj.value.spec)|
  {
    var desired, origin, local := DesiredRevisions(w.obj.value.spec), w.obj.value.spec.origin, w.obj.value.status.revisions;
    && !Proceeds(cfg, origin, w, local, desired[i])
    && forall j | 0 <= j < i :: Proceeds(cfg, origin, w, local, desired[j])
  }

  /** The pass stops exactly at the first revision that something stands in the way of: what it shows
      and answers for it, and that it starts nothing for those behind it. */
  lemma PassStops(cfg: Config, w: World, i: nat)
    requires ReachesDownloads(cfg, w)
    requires var desired := DesiredRevisions(w.obj.value.spec); Distinct(desired) && JobsDistinct(cfg, desired)
    requires i < |DesiredRevisions(w.obj.value.spec)|
    ensures FirstInTheWay(cfg, w, i) ==>
              var (v, ctl) := QuietPass(cfg, w);
              var desired := DesiredRevisions(w.obj.value.spec);
              && Stopped(cfg, w, v, ctl, desired[i])
              && forall k | i <= k < |desired| ::
                   DownloadJob(cfg, desired[k].name) in v.jobs ==> DownloadJob(cfg, desired[k].name) in w.jobs
  {
    if !FirstInTheWay(cfg, w, i) {
      return;
    }
    hide QuietPass, DownloadPart, Proceeds, StorageRead, StorageStep, JobsDistinct, SeesBound, VolumeNode, Stopped;
    DownloadsBegin(cfg, w);
    var info := w.classes.value;
    var v := StorageStep(cfg, WithClaimCreated(WithFinalizer(Opened(w))), info);
    SameJobsProceed(cfg, w, v);
    DownloadStops(cfg, v, info, i);
    StoppedFrom(cfg, w, v, DownloadPart(cfg, v, info).0, DownloadPart(cfg, v, info).1, DesiredRevisions(w.obj.value.spec)[i]);
  }

  /** What the world shows after a pass that stopped at this revision: its job failed; or a cleanup
      job was in the way and is gone; or its origin has no manifest. */
  predicate Stopped(cfg: Config, w: World, v: World, ctl: Control, d: RevisionRef) {
    && v.obj.Some?
    && if DownloadJob(cfg, d.name) in w.jobs then
         && ctl == Requeue && v.obj.value.status.phase == FailedPhase
         && Shown(v, Ready) == Some(Condition(Ready, false, DownloadFailed, "Download job failed for revision " + d.name))
         && FindRevision(v.obj.value.status.revisions, d.name).Some?
         && FindRevision(v.obj.value.status.revisions, d.name).value.status == FailedPhase
       else if CleanupJob(cfg, d.name) in w.jobs then ctl == Requeue && CleanupJob(cfg, d.name) !in v.jobs
       else
         && ctl == Error
         && FindRevision(v.obj.value.status.revisions, d.name).Some?
         && FindRevision(v.obj.value.status.revisions, d.name).value.status == FailedPhase
  }

  lemma StoppedFrom(cfg: Config, u: World, w: World, v: World, ctl: Control, d: RevisionRef)
    requires w.jobs == u.jobs
    ensures Stopped(cfg, u, v, ctl, d) <==> Stopped(cfg, w, v, ctl, d)
  {
  }

  lemma DownloadStops(cfg: Config, w: World, info: ClassInfo, i: nat)
    requires w.obj.Some?
    requires var desired := DesiredRevisions(w.obj.value.spec); Distinct(desired) && JobsDistinct(cfg, desired)
    requires i < |DesiredRevisions(w.obj.value.spec)|
    requires forall j | 0 <= j < i ::
               Proceeds(cfg, w.obj.value.spec.origin, w, w.obj.value.status.revisions, DesiredRevisions(w.obj.value.spec)[j])
    requires !Proceeds(cfg, w.obj.value.spec.origin, w, w.obj.value.status.revisions, DesiredRevisions(w.obj.value.spec)[i])
    ensures var (v, ctl) := DownloadPart(cfg, w, info);
            var desired := DesiredRevisions(w.obj.value.spec);
            && Stopped(cfg, w, v, ctl, desired[i])
            && forall k | i <= k < |desired| ::
                 DownloadJob(cfg, desired[k].name) in v.jobs ==> DownloadJob(cfg, desired[k].name) in w.jobs
  {
    hide Steps, Step, Proceeds, Fetchable, DownloadJob, CleanupJob, Shown, AgreeOn;
    var p, local := PlanFor(w, info), w.obj.value.status.revisions;
    assert OnCourse(cfg, w, local, p.desired) by {
      AgreesWithItself(local, p.desired);
    }
    var v, after := StepsStop(cfg, p, w, local, p.desired, i);
    SameMeans(cfg, p.origin, w, local, v, after, p.desired[i]);
    StoppingStep(cfg, p, v, after, p.desired[i]);
    forall k | i <= k < |p.desired| && DownloadJob(cfg, p.desired[k].name) in v.jobs
      ensures DownloadJob(cfg, p.desired[k].name) in w.jobs
    {
    }
  }

  lemma AgreesWithItself(local: seq<Revision>, rs: seq<RevisionRef>)
    ensures AgreeOn(local, local, rs)
  {
  }
}
