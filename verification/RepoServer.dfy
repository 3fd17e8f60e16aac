/** The API server as the repository controller sees it.  Before every call the environment may
    take any number of steps, and any call may fail; a failed write may still have committed. */
module RepoServer {
  import opened Common
  import opened Backend
  import opened Status
  import opened RepoWorld

  datatype Fetched = Found(repo: Repo) | NotFound | ReadFailed

  datatype Written = Done | Conflict | Gone | WriteFailed

  datatype ClaimFetched = ClaimFound(claim: RepoClaim) | ClaimNotFound | ClaimReadFailed

  /** Some engine, being deleted or not, names the repository. */
  predicate References(engines: seq<EngineRef>, repo: string) {
    exists e | e in engines :: repo in e.refs
  }

  datatype JobFetched = JobFound(job: Job) | JobNotFound | JobReadFailed

  // ---------------------------------------------------------------- how worlds follow each other

  /** History grew, and the controller's own status fields are as they were. */
  predicate Follows(before: World, after: World) {
    && before.log <= after.log
    && (after.obj.Some? ==>
          && before.obj.Some?
          && before.obj.value.version <= after.obj.value.version
          && (before.obj.value.version == after.obj.value.version ==> after.obj == before.obj)
          && Own(after.obj.value.status) == Own(before.obj.value.status))
  }

  lemma RelyFollows(before: World, after: World)
    requires Rely(before, after)
    ensures Follows(before, after) && ViewOf(after.log) == ViewOf(before.log)
  {
  }

  /** A committed main-resource update; changing the spec and taking the operator's finalizer off
      are events. */
  function MainCommitted(w: World, spec: Spec, finalizers: set<string>): World
    requires w.obj.Some?
  {
    var o, written := w.obj.value, MainWritten(w, spec, finalizers);
    var v := if spec != o.spec then Logged(written, SpecWritten(o.spec, spec)) else written;
    if FINALIZER in w.obj.value.finalizers && FINALIZER !in finalizers then Logged(v, FinalizerRemoved) else v
  }

  /** What a main-resource update leaves as it was: the spec, but for a defaulted name, and the
      finalizers of others. */
  predicate MainKept(cfg: Config, o: Repo, spec: Spec, finalizers: set<string>) {
    (spec == o.spec || NameDefaulted(cfg, o.spec, spec)) && finalizers - {FINALIZER} == o.finalizers - {FINALIZER}
  }

  /** The update is made from a version that was read, and keeps what is not the controller's to
      change; the operator's finalizer may go only after a listing without references. */
  predicate MayWriteMain(cfg: Config, w: World, version: nat, spec: Spec, finalizers: set<string>) {
    w.obj.Some? ==>
      && version <= w.obj.value.version
      && (version == w.obj.value.version ==>
            && MainKept(cfg, w.obj.value, spec, finalizers)
            && (FINALIZER in finalizers || FINALIZER !in w.obj.value.finalizers || ViewOf(w.log).listed == Some(false)))
  }

  lemma MayWriteMainKept(cfg: Config, w: World, v: World, version: nat, spec: Spec, finalizers: set<string>)
    requires Rely(w, v) && MayWriteMain(cfg, w, version, spec, finalizers) && v.obj.Some? && v.obj.value.version == version
    ensures MayWriteMain(cfg, v, version, spec, finalizers)
  {
  }

  lemma MainCommittedOk(cfg: Config, w: World, spec: Spec, finalizers: set<string>)
    requires WorldOk(cfg, w) && w.obj.Some? && Distinct(DesiredRevisions(spec))
    requires MayWriteMain(cfg, w, w.obj.value.version, spec, finalizers)
    ensures var v := MainCommitted(w, spec, finalizers);
            WorldOk(cfg, v) && Follows(w, v) && ViewOf(v.log) == ViewOf(w.log) && v != w
  {
    hide Safe;
    var written := MainWritten(w, spec, finalizers);
    assert WorldOk(cfg, written);
    LoggedSpec(cfg, written, w.obj.value.spec, spec);
    var v := if spec != w.obj.value.spec then Logged(written, SpecWritten(w.obj.value.spec, spec)) else written;
    LoggedRemoval(cfg, v);
  }

  lemma LoggedSpec(cfg: Config, w: World, was: Spec, now: Spec)
    ensures WorldOk(cfg, w) && NameDefaulted(cfg, was, now) ==>
              WorldOk(cfg, Logged(w, SpecWritten(was, now))) && ViewOf(Logged(w, SpecWritten(was, now)).log) == ViewOf(w.log)
  {
    if WorldOk(cfg, w) && NameDefaulted(cfg, was, now) {
      LoggedOk(cfg, w, SpecWritten(was, now));
    }
  }

  lemma LoggedRemoval(cfg: Config, w: World)
    ensures WorldOk(cfg, w) && ViewOf(w.log).listed == Some(false) ==>
              WorldOk(cfg, Logged(w, FinalizerRemoved)) && ViewOf(Logged(w, FinalizerRemoved).log) == ViewOf(w.log)
  {
    if WorldOk(cfg, w) && ViewOf(w.log).listed == Some(false) {
      LoggedOk(cfg, w, FinalizerRemoved);
    }
  }

  /** A new download job, labelled with the repository. */
  function WithJob(cfg: Config, w: World, revision: string, affinity: Option<string>): World {
    Logged(w, JobCreated(revision, affinity)).(jobs := w.jobs[DownloadJob(cfg, revision) := Job(0, 0, affinity, cfg.repo)])
  }

  function WithoutJob(w: World, name: string, e: Event): World { Logged(w, e).(jobs := w.jobs - {name}) }

  /** The claim as a deletion leaves it. */
  function MarkedClaim(c: RepoClaim): Option<RepoClaim> {
    if c.finalizers == {} then None else Some(c.(deleting := true))
  }

  /** The claim as an update leaves it: gone if it was being deleted and no finalizer is left. */
  function UpdatedClaim(c: RepoClaim): Option<RepoClaim> {
    if c.deleting && c.finalizers == {} then None else Some(c)
  }

  function WithClaim(w: World, c: Option<RepoClaim>): World { Logged(w, ClaimReleased).(claim := c) }

  lemma RelyAdds(before: World, w: World, events: set<Event>)
    requires Rely(before, w)
    ensures AddsOnly(before.log, w.log, events, {})
  {
  }

  lemma ClaimWrittenOk(cfg: Config, before: World, w: World, c: Option<RepoClaim>)
    requires WorldOk(cfg, w) && Rely(before, w) && ViewOf(before.log).listed == Some(false)
    ensures var v := WithClaim(w, c);
            && WorldOk(cfg, v) && Follows(before, v) && ViewOf(v.log) == ViewOf(before.log)
            && AddsOnly(before.log, v.log, {ClaimReleased}, {})
  {
    hide Safe;
    LoggedOk(cfg, w, ClaimReleased);
  }

  /** What must hold before a download job is created. */
  predicate MayCreate(log: History, revision: string, affinity: Option<string>) {
    && Wanted(ViewOf(log), revision) && EntryStored(log, revision)
    && (ViewOf(log).nodeBound ==> Pinned(ViewOf(log), affinity))
  }

  lemma MayCreateKept(before: World, w: World, revision: string, affinity: Option<string>)
    requires Rely(before, w) && MayCreate(before.log, revision, affinity)
    ensures MayCreate(w.log, revision, affinity)
  {
    EntryStoredKept(before.log, w.log, revision);
  }

  lemma JobCreatedOk(cfg: Config, before: World, w: World, revision: string, affinity: Option<string>)
    requires WorldOk(cfg, w) && Rely(before, w) && MayCreate(before.log, revision, affinity)
    ensures var v := WithJob(cfg, w, revision, affinity);
            WorldOk(cfg, v) && Follows(before, v) && ViewOf(v.log) == ViewOf(before.log)
  {
    MayCreateKept(before, w, revision, affinity);
    assert SafeEvent(cfg, w.log, JobCreated(revision, affinity));
    hide Safe, SafeEvent;
    LoggedOk(cfg, w, JobCreated(revision, affinity));
  }

  /** Which job may be deleted as which event. */
  predicate MayDelete(cfg: Config, v: View, name: string, e: Event) {
    || (e.StaleJobDeleted? && name == e.job == CleanupJob(cfg, e.revision) && Wanted(v, e.revision))
    || (e.JobDeleted? && name == e.job && v.listed == Some(false))
  }

  lemma JobDeletedOk(cfg: Config, before: World, w: World, name: string, e: Event)
    requires WorldOk(cfg, w) && Rely(before, w) && MayDelete(cfg, ViewOf(before.log), name, e)
    ensures var v := WithoutJob(w, name, e);
            && WorldOk(cfg, v) && Follows(before, v) && ViewOf(v.log) == ViewOf(before.log)
            && AddsOnly(before.log, v.log, {e}, {})
  {
    assert SafeEvent(cfg, w.log, e);
    hide Safe, SafeEvent;
    LoggedOk(cfg, w, e);
  }

  lemma ReadOk(cfg: Config, before: World, w: World, e: Event)
    requires WorldOk(cfg, w) && Rely(before, w)
    requires e.PassBegan? || e.SpecRead? || e.Discovered? || e.ClaimSeenBound? || e.Listed?
    ensures var v := Logged(w, e);
            && WorldOk(cfg, v) && Follows(before, v) && v.log[|v.log| - 1] == e && |v.log| > |before.log|
            && ViewOf(v.log) == ViewAfter(ViewOf(before.log), |v.log| - 1, e)
            && AddsOnly(before.log, v.log, {e}, {})
  {
    hide Safe;
    LoggedOk(cfg, w, e);
  }

  // ---------------------------------------------------------------- the server

  class Server {
    const cfg: Config
    /** A still server takes no environment steps; a quiet one moreover fails no call. */
    const still: bool
    const quiet: bool
    var w: World

    constructor (cfg: Config, still: bool, quiet: bool, w: World)
      requires WorldOk(cfg, w) && (quiet ==> still)
      ensures Valid() && this.cfg == cfg && this.still == still && this.quiet == quiet && this.w == w
    {
      this.cfg, this.still, this.quiet, this.w := cfg, still, quiet, w;
    }

    ghost predicate Valid()
      reads this
    {
      WorldOk(cfg, w) && (quiet ==> still)
    }

    /** Interference: any finite number of environment steps. */
    method Yield()
      requires Valid()
      modifies this
      ensures Valid() && Rely(old(w), w) && (still ==> w == old(w))
    {
      if still {
        return;
      }
      var n: nat := *;
      while n > 0
        invariant Valid() && Rely(old(w), w)
      {
        var a: EnvAction := *;
        EnvStepOk(cfg, w, a);
        RelyTrans(old(w), w, EnvStep(w, a));
        w := EnvStep(w, a);
        n := n - 1;
      }
    }

    method Get() returns (r: Fetched)
      requires Valid()
      modifies this
      ensures Valid() && Rely(old(w), w) && (still ==> w == old(w)) && (quiet ==> !r.ReadFailed?)
      ensures r.Found? ==> w.obj == Some(r.repo) && Distinct(DesiredRevisions(r.repo.spec))
      ensures r.NotFound? ==> w.obj == None
    {
      Yield();
      var failed := MayFail(quiet);
      if failed {
        return ReadFailed;
      }
      return match w.obj case Some(o) => Found(o) case None => NotFound;
    }

    /** The read that a pass works from: at its beginning, or when it refreshes its copy. */
    method ReadCopy(first: bool) returns (r: Fetched)
      requires Valid()
      modifies this
      ensures Valid() && Follows(old(w), w)
      ensures !r.Found? ==> Rely(old(w), w)
      ensures r.Found? ==> w.obj == Some(r.repo) && Distinct(DesiredRevisions(r.repo.spec))
                           && |w.log| > 0 && ViewOf(w.log) == ViewAfter(ViewOf(old(w).log), |w.log| - 1, CopyEvent(first, r.repo.spec))
      ensures quiet ==> if old(w).obj.Some? then r.Found? && w == Logged(old(w), CopyEvent(first, old(w).obj.value.spec))
                        else r.NotFound? && w == old(w)
    {
      hide WorldOk, Rely, Follows, ViewAfter;
      r := Get();
      RelyFollows(old(w), w);
      if r.Found? {
        ReadOk(cfg, old(w), w, CopyEvent(first, r.repo.spec));
        LoggedParts(w, CopyEvent(first, r.repo.spec));
        w := Logged(w, CopyEvent(first, r.repo.spec));
      }
    }

    /** Conditional write of a mutated status: it commits only over the version it was made from. */
    method UpdateStatus(base: Repo, m: Mutation) returns (r: Written, ghost mid: World)
      requires Valid() && w.obj == Some(base)
      requires Guard(cfg, w.log, m, base.status)
      modifies this
      ensures Valid() && Rely(old(w), mid)
      ensures w == mid || (mid.obj == Some(base) && w == StatusWritten(mid, RepoPass(m), Apply(m, base.status)))
      ensures r.Done? ==> mid.obj == Some(base) && w == StatusWritten(mid, RepoPass(m), Apply(m, base.status))
      ensures ViewOf(w.log) == ViewOf(old(w).log)
      ensures r.Conflict? || r.Gone? ==> w == mid
      ensures still ==> mid == old(w)
      ensures quiet ==> r.Done?
    {
      Yield();
      mid := w;
      var fate := SomeFate(quiet);
      if fate.Fails? {
        return WriteFailed, mid;
      }
      if w.obj.None? {
        return Gone, mid;
      }
      if w.obj.value.version != base.version {
        return Conflict, mid;
      }
      StatusWrittenOk(cfg, w, RepoPass(m), Apply(m, base.status));
      w := StatusWritten(w, RepoPass(m), Apply(m, base.status));
      return if fate.Lost? then WriteFailed else Done, mid;
    }

    /** Conditional main-resource update of spec and finalizers, over the version it was made from. */
    method UpdateMain(version: nat, spec: Spec, finalizers: set<string>) returns (r: Written, ghost mid: World)
      requires Valid() && Distinct(DesiredRevisions(spec)) && MayWriteMain(cfg, w, version, spec, finalizers)
      modifies this
      ensures Valid() && Rely(old(w), mid)
      ensures w == mid || (mid.obj.Some? && mid.obj.value.version == version && w == MainCommitted(mid, spec, finalizers))
      ensures r.Done? ==> w != mid
      ensures r.Conflict? || r.Gone? ==> w == mid
      ensures ViewOf(w.log) == ViewOf(old(w).log)
      ensures still ==> mid == old(w)
      ensures quiet && old(w).obj.Some? && old(w).obj.value.version == version ==> r.Done?
    {
      hide WorldOk, MayWriteMain, MainCommitted;
      Yield();
      mid := w;
      var fate := SomeFate(quiet);
      if fate.Fails? || w.obj.None? || w.obj.value.version != version {
        return if !fate.Works? then WriteFailed else if w.obj.None? then Gone else Conflict, mid;
      }
      MayWriteMainKept(cfg, old(w), w, version, spec, finalizers);
      MainCommittedOk(cfg, w, spec, finalizers);
      w := MainCommitted(w, spec, finalizers);
      return if fate.Lost? then WriteFailed else Done, mid;
    }

    // -------------------------------------------------------------- jobs

    method GetJob(name: string) returns (r: JobFetched)
      requires Valid()
      modifies this
      ensures Valid() && Rely(old(w), w)
      ensures still ==> w == old(w)
      ensures quiet ==> !r.JobReadFailed?
      ensures r.JobFound? ==> name in w.jobs && w.jobs[name] == r.job
      ensures r.JobFound? && r.job.succeeded > 0 ==> JobSucceeded(name) in w.log
      ensures r.JobNotFound? ==> name !in w.jobs
    {
      Yield();
      var failed := MayFail(quiet);
      return if failed then JobReadFailed else if name in w.jobs then JobFound(w.jobs[name]) else JobNotFound;
    }

    /** Create a revision's download job. */
    method CreateJob(revision: string, affinity: Option<string>) returns (ok: bool)
      requires Valid() && MayCreate(w.log, revision, affinity)
      modifies this
      ensures Valid() && Follows(old(w), w) && ViewOf(w.log) == ViewOf(old(w).log)
      ensures ok ==> DownloadJob(cfg, revision) in w.jobs
      ensures quiet && DownloadJob(cfg, revision) !in old(w).jobs ==> ok && w == WithJob(cfg, old(w), revision, affinity)
    {
      hide WorldOk, MayCreate, Rely, Follows, DownloadJob;
      Yield();
      RelyFollows(old(w), w);
      var fate := SomeFate(quiet);
      if fate.Fails? {
        return false;
      }
      if DownloadJob(cfg, revision) !in w.jobs {
        JobCreatedOk(cfg, old(w), w, revision, affinity);
        w := WithJob(cfg, w, revision, affinity);
      }
      return fate.Works?;
    }

    /** Delete a job, recorded as the given event. */
    method DeleteJob(name: string, e: Event) returns (ok: bool)
      requires Valid() && MayDelete(cfg, ViewOf(w.log), name, e)
      modifies this
      ensures Valid() && Follows(old(w), w) && ViewOf(w.log) == ViewOf(old(w).log)
      ensures AddsOnly(old(w).log, w.log, {e}, {})
      ensures still ==> w == old(w) || w == WithoutJob(old(w), name, e)
      ensures quiet ==> ok && w == if name in old(w).jobs then WithoutJob(old(w), name, e) else old(w)
    {
      hide WorldOk, MayDelete, Follows, AddsOnly, Rely;
      Yield();
      RelyFollows(old(w), w);
      RelyAdds(old(w), w, {e});
      var fate := SomeFate(quiet);
      if fate.Fails? || name !in w.jobs {
        return fate.Works?;
      }
      JobDeletedOk(cfg, old(w), w, name, e);
      w := WithoutJob(w, name, e);
      return fate.Works?;
    }

    // -------------------------------------------------------------- storage

    /** Storage class discovery; None stands for an error. */
    method Discover() returns (r: Option<ClassInfo>)
      requires Valid()
      modifies this
      ensures Valid() && Follows(old(w), w)
      ensures r.None? ==> ViewOf(w.log) == ViewOf(old(w).log)
      ensures r.Some? ==> |w.log| > 0 && ViewOf(w.log) == ViewAfter(ViewOf(old(w).log), |w.log| - 1, Discovered(r.value))
      ensures quiet ==> r == old(w).classes && w == if r.Some? then Logged(old(w), Discovered(r.value)) else old(w)
    {
      hide WorldOk, Rely, Follows, ViewAfter;
      Yield();
      RelyFollows(old(w), w);
      var failed := MayFail(quiet);
      r := if failed then None else w.classes;
      if r.Some? {
        ReadOk(cfg, old(w), w, Discovered(r.value));
        w := Logged(w, Discovered(r.value));
      }
    }

    method GetClaim() returns (r: ClaimFetched)
      requires Valid()
      modifies this
      ensures Valid() && Rely(old(w), w) && (still ==> w == old(w)) && (quiet ==> !r.ClaimReadFailed?)
      ensures r.ClaimFound? ==> w.claim == Some(r.claim)
      ensures r.ClaimNotFound? ==> w.claim == None
    {
      Yield();
      var failed := MayFail(quiet);
      return if failed then ClaimReadFailed
        else match w.claim case Some(c) => ClaimFound(c) case None => ClaimNotFound;
    }

    method CreateClaim(finalizers: set<string>) returns (ok: bool)
      requires Valid()
      modifies this
      ensures Valid() && Follows(old(w), w) && ViewOf(w.log) == ViewOf(old(w).log)
      ensures quiet && old(w).claim.None? ==> ok && w == old(w).(claim := Some(RepoClaim(false, "", "", finalizers, false)))
    {
      Yield();
      RelyFollows(old(w), w);
      var fate := SomeFate(quiet);
      if w.claim.None? && !fate.Fails? {
        w := w.(claim := Some(RepoClaim(false, "", "", finalizers, false)));
        return fate.Works?;
      }
      return false;
    }

    /** The volume of a claim that was seen bound. */
    method GetBoundVolume(c: RepoClaim) returns (r: Option<VolumeSpec>)
      requires Valid() && c.bound && c.volume != ""
      modifies this
      ensures Valid() && Follows(old(w), w)
      ensures r.None? ==> ViewOf(w.log) == ViewOf(old(w).log)
      ensures r.Some? ==>
                var e := ClaimSeenBound(NodeName(r.value.nodeTerms));
                |w.log| > 0 && ViewOf(w.log) == ViewAfter(ViewOf(old(w).log), |w.log| - 1, e)
      ensures quiet ==> if c.volume in old(w).volumes
                        then r == Some(old(w).volumes[c.volume])
                             && w == Logged(old(w), ClaimSeenBound(NodeName(old(w).volumes[c.volume].nodeTerms)))
                        else r == None && w == old(w)
    {
      hide WorldOk, Rely, Follows, ViewAfter, NodeName;
      Yield();
      RelyFollows(old(w), w);
      var failed := MayFail(quiet);
      if failed || c.volume !in w.volumes {
        return None;
      }
      var v := w.volumes[c.volume];
      ReadOk(cfg, old(w), w, ClaimSeenBound(NodeName(v.nodeTerms)));
      w := Logged(w, ClaimSeenBound(NodeName(v.nodeTerms)));
      return Some(v);
    }

    // -------------------------------------------------------------- deletion

    /** List the engines; the history records whether any references this repository. */
    method ListEngines() returns (r: Option<seq<EngineRef>>)
      requires Valid()
      modifies this
      ensures Valid() && Follows(old(w), w)
      ensures r.None? ==> AddsOnly(old(w).log, w.log, {}, {}) && ViewOf(w.log) == ViewOf(old(w).log)
      ensures r.Some? ==>
                var e := Listed(References(r.value, cfg.repo));
                && AddsOnly(old(w).log, w.log, {e}, {})
                && |w.log| > 0 && ViewOf(w.log) == ViewAfter(ViewOf(old(w).log), |w.log| - 1, e)
      ensures still ==> w == if r.None? then old(w) else Logged(old(w), Listed(References(old(w).engines, cfg.repo)))
      ensures still && r.Some? ==> r.value == old(w).engines
      ensures quiet ==> r.Some?
    {
      hide WorldOk, Rely, Follows, ViewAfter, AddsOnly;
      Yield();
      RelyFollows(old(w), w);
      RelyAdds(old(w), w, {});
      var failed := MayFail(quiet);
      if failed {
        return None;
      }
      r := Some(w.engines);
      ReadOk(cfg, old(w), w, Listed(References(w.engines, cfg.repo)));
      w := Logged(w, Listed(References(w.engines, cfg.repo)));
    }

    /** Names of the jobs that carry the repository's label. */
    method ListJobs() returns (r: Option<set<string>>)
      requires Valid()
      modifies this
      ensures Valid() && Rely(old(w), w)
      ensures r.Some? ==> r.value == set j | j in w.jobs && w.jobs[j].owner == cfg.repo
      ensures still ==> w == old(w)
      ensures quiet ==> r.Some?
    {
      Yield();
      var failed := MayFail(quiet);
      return if failed then None else Some(set j | j in w.jobs && w.jobs[j].owner == cfg.repo);
    }

    /** Write back a claim as it was read, with other finalizers.  It commits only over that claim. */
    method UpdateClaim(base: RepoClaim, finalizers: set<string>) returns (ok: bool, ghost fate: Fate)
      requires Valid() && ViewOf(w.log).listed == Some(false)
      modifies this
      ensures Valid() && Follows(old(w), w) && ViewOf(w.log) == ViewOf(old(w).log)
      ensures AddsOnly(old(w).log, w.log, {ClaimReleased}, {})
      ensures still && old(w).claim == Some(base) ==>
                && (ok <==> fate.Works?)
                && w == if fate.Fails? then old(w) else WithClaim(old(w), UpdatedClaim(base.(finalizers := finalizers)))
      ensures quiet ==> fate.Works?
    {
      hide WorldOk, Follows, AddsOnly, Rely;
      Yield();
      RelyFollows(old(w), w);
      RelyAdds(old(w), w, {ClaimReleased});
      var f := SomeFate(quiet);
      if f.Fails? || w.claim != Some(base) {
        return false, f;
      }
      var after := UpdatedClaim(base.(finalizers := finalizers));
      ClaimWrittenOk(cfg, old(w), w, after);
      w := WithClaim(w, after);
      return f.Works?, f;
    }

    /** Delete the claim: gone at once without finalizers, else marked.  Not finding it is success. */
    method DeleteClaim() returns (ok: bool, ghost fate: Fate)
      requires Valid() && ViewOf(w.log).listed == Some(false)
      modifies this
      ensures Valid() && Follows(old(w), w) && ViewOf(w.log) == ViewOf(old(w).log)
      ensures AddsOnly(old(w).log, w.log, {ClaimReleased}, {})
      ensures still ==>
                && (ok <==> fate.Works?)
                && w == if fate.Fails? || old(w).claim.None? then old(w) else WithClaim(old(w), MarkedClaim(old(w).claim.value))
      ensures quiet ==> fate.Works?
    {
      hide WorldOk, Follows, AddsOnly, Rely;
      Yield();
      RelyFollows(old(w), w);
      RelyAdds(old(w), w, {ClaimReleased});
      var f := SomeFate(quiet);
      if f.Fails? || w.claim.None? {
        return f.Works?, f;
      }
      var after := MarkedClaim(w.claim.value);
      ClaimWrittenOk(cfg, old(w), w, after);
      w := WithClaim(w, after);
      return f.Works?, f;
    }
  }

  function CopyEvent(first: bool, spec: Spec): Event { if first then PassBegan(spec) else SpecRead(spec) }

  lemma LoggedParts(w: World, e: Event)
    ensures var v := Logged(w, e);
            && v.obj == w.obj && v.jobs == w.jobs && v.claim == w.claim && v.volumes == w.volumes
            && v.engines == w.engines && v.classes == w.classes && v.log == w.log + [e]
  {
  }

  // ---------------------------------------------------------------- syncStatus

  /** The owned fields of the stored status. */
  function OwnOf(w: World): RepoStatus
    requires w.obj.Some?
  {
    Own(w.obj.value.status)
  }

  /** A mutation committed without interference: nothing is written if nothing changes. */
  function Committed(w: World, m: Mutation): World
    requires w.obj.Some?
  {
    var st := w.obj.value.status;
    if Apply(m, st) == st then w else StatusWritten(w, RepoPass(m), Apply(m, st))
  }

  /** The owned fields are as before, or as the mutation makes them. */
  predicate Synced(before: World, after: World, m: Mutation, mustApply: bool) {
    && before.log <= after.log
    && AddsOnly(before.log, after.log, {}, {m}) && ViewOf(after.log) == ViewOf(before.log)
    && (mustApply ==> after.obj.Some?)
    && (after.obj.Some? ==>
          && before.obj.Some?
          && before.obj.value.version <= after.obj.value.version
          && ((OwnOf(after) == OwnOf(before) && !mustApply) || OwnOf(after) == Apply(m, OwnOf(before))))
  }

  const RETRY_STEPS := 5

  /** As many attempts as the client library's default. */
  lemma Attempts()
    ensures RETRY_STEPS == 5
  {
  }

  lemma OneAttempt(before: World, now: World, mid: World, m: Mutation)
    requires Rely(before, now) && now.obj.Some? && Rely(now, mid) && mid.obj == now.obj
    ensures Synced(before, StatusWritten(mid, RepoPass(m), Apply(m, now.obj.value.status)), m, true)
  {
    ApplyOwn(m, now.obj.value.status);
    RelyTrans(before, now, mid);
    WrittenView(mid, RepoPass(m), Apply(m, now.obj.value.status));
  }

  lemma WrittenView(w: World, cause: Cause, after: RepoStatus)
    requires w.obj.Some?
    ensures ViewOf(StatusWritten(w, cause, after).log) == ViewOf(w.log)
  {
    assert StatusWritten(w, cause, after).log[..|w.log|] == w.log;
  }

  lemma NotWritten(before: World, now: World, m: Mutation)
    requires Rely(before, now)
    ensures Synced(before, now, m, false)
    ensures now.obj.Some? && Apply(m, now.obj.value.status) == now.obj.value.status ==> Synced(before, now, m, true)
  {
    if now.obj.Some? {
      ApplyOwn(m, now.obj.value.status);
    }
  }

  lemma GuardKept(cfg: Config, before: World, now: World, m: Mutation)
    requires Rely(before, now) && now.obj.Some?
    requires before.obj.Some? ==> Guard(cfg, before.log, m, OwnOf(before))
    ensures before.obj.Some? && Guard(cfg, now.log, m, now.obj.value.status)
  {
    assert Own(now.obj.value.status).revisions == Own(before.obj.value.status).revisions;
  }

  lemma CommittedCases(w: World, m: Mutation)
    requires w.obj.Some?
    ensures Committed(w, m) ==
            if Apply(m, w.obj.value.status) == w.obj.value.status then w
            else StatusWritten(w, RepoPass(m), Apply(m, w.obj.value.status))
  {
  }

  /** Fetch a fresh copy, mutate it, write it if it changed; up to five times on conflict.  On
      success the owned fields are exactly the mutated ones, whatever others did meanwhile. */
  method SyncStatus(s: Server, m: Mutation) returns (ok: bool)
    requires s.Valid()
    requires s.w.obj.Some? ==> Guard(s.cfg, s.w.log, m, OwnOf(s.w))
    modifies s
    ensures s.Valid() && Synced(old(s.w), s.w, m, ok)
    ensures s.quiet && old(s.w).obj.Some? ==> ok && s.w == Committed(old(s.w), m)
  {
    var attempt := 0;
    ghost var w0 := s.w;
    RelyRefl(w0);
    while attempt < RETRY_STEPS
      invariant 0 <= attempt <= RETRY_STEPS
      invariant s.Valid() && Rely(w0, s.w)
      invariant s.still ==> s.w == w0
      invariant s.quiet ==> attempt == 0
    {
      hide *;
      ghost var prior := s.w;
      var r := s.Get();
      RelyTrans(w0, prior, s.w);
      NotWritten(w0, s.w, m);
      if !r.Found? {
        return false;
      }
      var copy := r.repo;
      ghost var now := s.w;
      CommittedCases(now, m);
      if Apply(m, copy.status) == copy.status {
        return true;
      }
      GuardKept(s.cfg, w0, now, m);
      var written, mid := s.UpdateStatus(copy, m);
      RelyTrans(w0, now, mid);
      NotWritten(w0, mid, m);
      if s.w != mid {
        OneAttempt(w0, now, mid, m);
      }
      if !written.Conflict? {
        return written.Done?;
      }
      attempt := attempt + 1;
    }
    NotWritten(w0, s.w, m);
    return false;
  }

  lemma RelyRefl(w: World)
    ensures Rely(w, w)
  {
  }
}
