/** The cluster around one model repository: versioned API objects, the environment's steps, and
    a history of everything that happened, with what a safe history is. */
module RepoWorld {
  import opened Common
  import opened Backend
  import opened Status
  import Names

  // ---------------------------------------------------------------- objects

  datatype Origin = HuggingFace | Ollama | OtherOrigin

  datatype RevisionRef = RevisionRef(name: string, ref: string)

  datatype Spec = Spec(
    modelName: string,
    origin: Origin, revision: string, revisions: seq<RevisionRef>,
    size: string,
    autoDownload: bool)

  datatype Repo = Repo(version: nat, spec: Spec, finalizers: set<string>, deleting: bool, status: RepoStatus)

  /** A job in the operator's namespace; owner is its repository label. */
  datatype Job = Job(succeeded: nat, failed: nat, affinity: Option<string>, owner: string)

  /** The repository's own volume claim. */
  datatype RepoClaim = RepoClaim(bound: bool, volume: string, capacity: string, finalizers: set<string>, deleting: bool)

  /** The storage class that discovery selects. */
  datatype ClassInfo = ClassInfo(name: string, mode: AccessMode)

  datatype EngineRef = EngineRef(name: string, refs: seq<string>)

  /** The operator's own finalizer on the repository. */
  const FINALIZER := "modelrepository.aitrigram.cliver-project.github.io/finalizer"

  /** Fixed for one repository and one incarnation of it. */
  datatype Config = Config(repo: string, namespace: string, h: Names.WideHash, parse: ParseQuantity)

  function DownloadJob(cfg: Config, revision: string): string {
    Names.JobNameOf(cfg.h, "download", cfg.repo, revision)
  }

  function CleanupJob(cfg: Config, revision: string): string {
    Names.JobNameOf(cfg.h, "cleanup", cfg.repo, revision)
  }

  function CurrentRevision(s: Spec): string {
    if s.revision != "" then s.revision
    else match s.origin
      case HuggingFace => "main"
      case Ollama => "latest"
      case OtherOrigin => "main"
  }

  function DesiredRevisions(s: Spec): (rs: seq<RevisionRef>)
    ensures rs != []
  {
    if |s.revisions| > 0 then s.revisions else [RevisionRef(CurrentRevision(s), CurrentRevision(s))]
  }

  /** The one revision of a spec that lists none: the one it names, or its origin's default. */
  predicate SoleRevision(s: Spec, name: string) {
    s.revisions == []
    && name == if s.revision != "" then s.revision else if s.origin == Ollama then "latest" else "main"
  }

  /** Desired are exactly the revisions that the spec lists, in its order, or the one it stands for. */
  lemma DesiredExactly(s: Spec)
    ensures s.revisions != [] ==> DesiredRevisions(s) == s.revisions
    ensures s.revisions == [] ==> exists n: string :: SoleRevision(s, n) && DesiredRevisions(s) == [RevisionRef(n, n)]
    ensures forall n: string | SoleRevision(s, n) :: DesiredRevisions(s) == [RevisionRef(n, n)]
  {
    var n := if s.revision != "" then s.revision else if s.origin == Ollama then "latest" else "main";
    assert s.revisions == [] ==> SoleRevision(s, n);
  }

  predicate Distinct(rs: seq<RevisionRef>) {
    forall i, j | 0 <= i < j < |rs| :: rs[i].name != rs[j].name
  }

  // ---------------------------------------------------------------- history

  datatype Cause = RepoPass(mutation: Mutation) | EngineController

  /** What happened, in order.  What the controller reads is recorded as it was read. */
  datatype Event =
    | Created(status: RepoStatus)
    | StatusWrite(cause: Cause, before: RepoStatus, after: RepoStatus)
    | JobSucceeded(job: string)
    | PassBegan(spec: Spec)
    | SpecRead(spec: Spec)
    | Discovered(info: ClassInfo)
    | ClaimSeenBound(node: string)
    | JobCreated(revision: string, affinity: Option<string>)
    | StaleJobDeleted(revision: string, job: string)
    | Listed(blocked: bool)
    | JobDeleted(job: string)
    | SpecWritten(was: Spec, now: Spec)
    | ClaimReleased
    | FinalizerRemoved

  type History = seq<Event>

  /** The stored status according to the history. */
  function LastStatus(log: History): Option<RepoStatus> {
    if log == [] then None
    else match log[|log| - 1]
      case Created(s) => Some(s)
      case StatusWrite(_, _, after) => Some(after)
      case _ => LastStatus(log[..|log| - 1])
  }

  /** What the controller has read in its current pass: where the pass began, the spec it read last,
      whether every discovery found node-bound storage, the nodes of the claim when seen bound,
      and whether the engines were listed and any listing showed a reference. */
  datatype View = View(start: nat, spec: Option<Spec>, nodeBound: bool, nodes: set<string>, listed: Option<bool>)

  const NO_PASS := View(0, None, true, {}, None)

  function ViewAfter(v: View, at: nat, e: Event): View {
    if e.PassBegan? then View(at, Some(e.spec), true, {}, None)
    else if v.spec.None? then v
    else match e
      case SpecRead(spec) => v.(spec := Some(spec))
      case Discovered(info) => v.(nodeBound := v.nodeBound && info.mode == ReadWriteOnce)
      case ClaimSeenBound(node) => v.(nodes := v.nodes + {node})
      case Listed(blocked) => v.(listed := Some(blocked || v.listed == Some(true)))
      case _ => v
  }

  function ViewOf(log: History): View {
    if log == [] then NO_PASS else ViewAfter(ViewOf(log[..|log| - 1]), |log| - 1, log[|log| - 1])
  }

  /** When the controller may apply a mutation to a status. */
  predicate Guard(cfg: Config, log: History, m: Mutation, s: RepoStatus) {
    match m
    case PutRevision(r) =>
      if r.status == ReadyPhase then JobSucceeded(DownloadJob(cfg, r.name)) in log
      else !IsReady(s.revisions, r.name)
    case SetCondition(c) => c.kind == Ready && c.status ==> AllWantedReady(ViewOf(log), s.revisions)
    case PutStorage(_) => true
  }

  /** Every revision that the spec read in this pass asks for is ready. */
  predicate AllWantedReady(v: View, rs: seq<Revision>) {
    v.spec.Some? && forall d | d in DesiredRevisions(v.spec.value) :: IsReady(rs, d.name)
  }

  /** The spec read in this pass asks for the revision. */
  predicate Wanted(v: View, revision: string) {
    v.spec.Some? && exists d | d in DesiredRevisions(v.spec.value) :: d.name == revision
  }

  /** The affinity is that of a claim seen bound in this pass. */
  predicate Pinned(v: View, affinity: Option<string>) {
    exists n | n in v.nodes :: affinity == if n == "" then None else Some(n)
  }

  /** A status with an entry for the revision was stored. */
  predicate EntryStored(log: History, revision: string) {
    exists k | 0 <= k < |log| :: log[k].StatusWrite? && FindRevision(log[k].after.revisions, revision).Some?
  }

  /** The only change the controller makes to a spec: an empty model name becomes the repository's. */
  predicate NameDefaulted(cfg: Config, was: Spec, now: Spec) {
    was.modelName == "" && now == was.(modelName := cfg.repo)
  }

  predicate SafeEvent(cfg: Config, log: History, e: Event) {
    match e
    case Created(s) => log == [] && s == EMPTY
    case StatusWrite(cause, before, after) =>
      && LastStatus(log) == Some(before)
      && (match cause
          case EngineController => Own(after) == Own(before)
          case RepoPass(m) => after == Apply(m, before) && Guard(cfg, log, m, before))
    case JobCreated(revision, affinity) =>
      var v := ViewOf(log);
      Wanted(v, revision) && EntryStored(log, revision) && (v.nodeBound ==> Pinned(v, affinity))
    case StaleJobDeleted(revision, job) => job == CleanupJob(cfg, revision) && Wanted(ViewOf(log), revision)
    case SpecWritten(was, now) => NameDefaulted(cfg, was, now)
    case JobDeleted(_) => ViewOf(log).listed == Some(false)
    case ClaimReleased => ViewOf(log).listed == Some(false)
    case FinalizerRemoved => ViewOf(log).listed == Some(false)
    case _ => true
  }

  predicate Safe(cfg: Config, log: History) {
    log == [] || (Safe(cfg, log[..|log| - 1]) && SafeEvent(cfg, log[..|log| - 1], log[|log| - 1]))
  }

  lemma SafeAppend(cfg: Config, log: History, e: Event)
    ensures Safe(cfg, log + [e]) <==> Safe(cfg, log) && SafeEvent(cfg, log, e)
    ensures LastStatus(log + [e]) ==
            match e case Created(s) => Some(s) case StatusWrite(_, _, after) => Some(after) case _ => LastStatus(log)
    ensures ViewOf(log + [e]) == ViewAfter(ViewOf(log), |log|, e)
  {
    assert (log + [e])[..|log|] == log;
  }

  /** Whatever entry the stored status has was stored by some write. */
  lemma {:induction false} EntryWasStored(cfg: Config, log: History, revision: string)
    requires Safe(cfg, log) && LastStatus(log).Some?
    ensures FindRevision(LastStatus(log).value.revisions, revision).Some? ==> EntryStored(log, revision)
  {
    var e, before := log[|log| - 1], log[..|log| - 1];
    if !e.StatusWrite? && !e.Created? {
      EntryWasStored(cfg, before, revision);
      EntryStoredKept(before, log, revision);
    }
  }

  lemma EntryStoredKept(log: History, longer: History, revision: string)
    requires log <= longer
    ensures EntryStored(log, revision) ==> EntryStored(longer, revision)
  {
    if EntryStored(log, revision) {
      var k :| 0 <= k < |log| && log[k].StatusWrite? && FindRevision(log[k].after.revisions, revision).Some?;
      assert longer[k] == log[k];
    }
  }

  // ---------------------------------------------------------------- the world

  datatype World = World(
    obj: Option<Repo>,
    jobs: map<string, Job>,
    claim: Option<RepoClaim>,
    volumes: map<string, VolumeSpec>,
    engines: seq<EngineRef>,
    classes: Option<ClassInfo>,
    log: History)

  /** The history is safe and agrees with what is stored; desired revision names are distinct. */
  predicate WorldOk(cfg: Config, w: World) {
    && Safe(cfg, w.log)
    && (w.obj.Some? ==>
          LastStatus(w.log) == Some(w.obj.value.status) && Distinct(DesiredRevisions(w.obj.value.spec)))
    && (forall j | j in w.jobs && w.jobs[j].succeeded > 0 :: JobSucceeded(j) in w.log)
  }

  function Logged(w: World, e: Event): World { w.(log := w.log + [e]) }

  lemma LoggedOk(cfg: Config, w: World, e: Event)
    requires WorldOk(cfg, w) && SafeEvent(cfg, w.log, e) && !e.Created? && !e.StatusWrite?
    ensures WorldOk(cfg, Logged(w, e)) && ViewOf(Logged(w, e).log) == ViewAfter(ViewOf(w.log), |w.log|, e)
  {
    SafeAppend(cfg, w.log, e);
  }

  /** A committed status write. */
  function StatusWritten(w: World, cause: Cause, after: RepoStatus): World
    requires w.obj.Some?
  {
    var o := w.obj.value;
    w.(obj := Some(o.(version := o.version + 1, status := after)),
       log := w.log + [StatusWrite(cause, o.status, after)])
  }

  lemma StatusWrittenOk(cfg: Config, w: World, cause: Cause, after: RepoStatus)
    requires WorldOk(cfg, w) && w.obj.Some?
    requires SafeEvent(cfg, w.log, StatusWrite(cause, w.obj.value.status, after))
    ensures WorldOk(cfg, StatusWritten(w, cause, after)) && ViewOf(StatusWritten(w, cause, after).log) == ViewOf(w.log)
  {
    SafeAppend(cfg, w.log, StatusWrite(cause, w.obj.value.status, after));
  }

  /** A committed main-resource update: spec and metadata, never the status.  An object being
      deleted goes away with its last finalizer. */
  function MainWritten(w: World, spec: Spec, finalizers: set<string>): World
    requires w.obj.Some?
  {
    var o := w.obj.value.(version := w.obj.value.version + 1, spec := spec, finalizers := finalizers);
    w.(obj := if o.deleting && finalizers == {} then None else Some(o))
  }

  // ---------------------------------------------------------------- the environment

  datatype EnvAction =
    | JobReports(job: string, succeeded: nat, failed: nat)
    | JobAppears(job: string, affinity: Option<string>, owner: string)
    | JobGone(job: string)
    | ClaimIs(claim: Option<RepoClaim>)
    | VolumesAre(volumes: map<string, VolumeSpec>)
    | EnginesAre(engines: seq<EngineRef>)
    | ClassesAre(classes: Option<ClassInfo>)
    | UserEdits(spec: Spec, finalizers: set<string>)
    | UserDeletes
    | EngineWrites(index: string)

  function EnvStep(w: World, a: EnvAction): World {
    match a
    case JobReports(j, succeeded, failed) =>
      if j !in w.jobs then w
      else
        var w1 := w.(jobs := w.jobs[j := w.jobs[j].(succeeded := succeeded, failed := failed)]);
        if succeeded > 0 then Logged(w1, JobSucceeded(j)) else w1
    case JobAppears(j, affinity, owner) =>
      if j in w.jobs then w else w.(jobs := w.jobs[j := Job(0, 0, affinity, owner)])
    case JobGone(j) => w.(jobs := w.jobs - {j})
    case ClaimIs(c) => w.(claim := c)
    case VolumesAre(v) => w.(volumes := v)
    case EnginesAre(e) => w.(engines := e)
    case ClassesAre(c) => w.(classes := c)
    case UserEdits(spec, finalizers) =>
      if w.obj.None? || !Distinct(DesiredRevisions(spec)) then w else MainWritten(w, spec, finalizers)
    case UserDeletes =>
      if w.obj.None? then w
      else if w.obj.value.finalizers == {} then w.(obj := None)
      else w.(obj := Some(w.obj.value.(version := w.obj.value.version + 1, deleting := true)))
    case EngineWrites(index) =>
      if w.obj.None? then w
      else StatusWritten(w, EngineController, w.obj.value.status.(referencedEngines := index))
  }

  predicate IsEnvEvent(e: Event) {
    e.JobSucceeded? || (e.StatusWrite? && e.cause.EngineController?)
  }

  /** The log only grows, by environment events, the given events and writes of the given mutations. */
  predicate AddsOnly(before: History, after: History, events: set<Event>, mutations: set<Mutation>) {
    && before <= after
    && forall i | |before| <= i < |after| ::
         || IsEnvEvent(after[i])
         || after[i] in events
         || (after[i].StatusWrite? && after[i].cause.RepoPass? && after[i].cause.mutation in mutations)
  }

  /** What the environment leaves alone while the controller works: the fields the controller owns,
      the identity of versions, history, and what the controller has read. */
  predicate Rely(w: World, v: World) {
    && AddsOnly(w.log, v.log, {}, {}) && ViewOf(v.log) == ViewOf(w.log)
    && (v.obj.Some? ==>
          && w.obj.Some?
          && w.obj.value.version <= v.obj.value.version
          && (w.obj.value.version == v.obj.value.version ==> v.obj == w.obj)
          && Own(v.obj.value.status) == Own(w.obj.value.status))
  }

  lemma RelyTrans(u: World, v: World, w: World)
    requires Rely(u, v) && Rely(v, w)
    ensures Rely(u, w)
  {
  }

  lemma JobSuccessIsSafe(cfg: Config, log: History, j: string)
    ensures SafeEvent(cfg, log, JobSucceeded(j))
    ensures ViewAfter(ViewOf(log), |log|, JobSucceeded(j)) == ViewOf(log)
  {
  }

  lemma JobReportsOk(cfg: Config, w: World, j: string, succeeded: nat, failed: nat)
    requires WorldOk(cfg, w)
    ensures var v := EnvStep(w, JobReports(j, succeeded, failed)); WorldOk(cfg, v) && Rely(w, v)
  {
    hide Safe, ViewOf, ViewAfter, LastStatus, DesiredRevisions;
    if j in w.jobs && succeeded > 0 {
      SafeAppend(cfg, w.log, JobSucceeded(j));
      JobSuccessIsSafe(cfg, w.log, j);
    }
  }

  lemma EngineWritesOk(cfg: Config, w: World, index: string)
    requires WorldOk(cfg, w)
    ensures var v := EnvStep(w, EngineWrites(index)); WorldOk(cfg, v) && Rely(w, v)
  {
    if w.obj.Some? {
      StatusWrittenOk(cfg, w, EngineController, w.obj.value.status.(referencedEngines := index));
    }
  }

  lemma EnvStepOk(cfg: Config, w: World, a: EnvAction)
    requires WorldOk(cfg, w)
    ensures WorldOk(cfg, EnvStep(w, a)) && Rely(w, EnvStep(w, a))
  {
    if a.JobReports? {
      JobReportsOk(cfg, w, a.job, a.succeeded, a.failed);
    } else if a.EngineWrites? {
      EngineWritesOk(cfg, w, a.index);
    } else {
      assert EnvStep(w, a).log == w.log;
    }
  }
}
