/** The cluster around one engine: its object, the repositories it references, nodes, storage and
    deployments; a history of what its controller saw and did, and what a safe history is. */
module EngineWorld {
  import opened Common
  import opened Backend
  import opened Status
  import opened EngineGpu
  import Names
  import SP = StoragePair
  import Index = ReferenceIndex

  /** The operator's own finalizer on the engine. */
  const FINALIZER := "llmengine.aitrigram.cliver-project.github.io/finalizer"

  // ---------------------------------------------------------------- the engine's status

  datatype EnginePhase = Underived | Pending | Running | Starting | Errored

  datatype EngineStatus = EngineStatus(phase: EnginePhase, conditions: Conditions, modelRepositories: seq<string>)

  function DeriveLLMEnginePhase(cs: Conditions): EnginePhase {
    match Find(cs, Ready)
    case None => Pending
    case Some(c) =>
      if c.status then Running
      else match c.reason
        case DeploymentsCreated => Starting
        case StoragePending => Pending
        case WaitingForModels => Pending
        case NoModelsFound => Pending
        case GPUNotAvailable => Pending
        case _ => Errored
  }

  /** The stored phase is the derived one, or was never derived and there is nothing to derive from. */
  predicate EnginePhaseOk(s: EngineStatus) {
    s.phase == DeriveLLMEnginePhase(s.conditions) || (s.phase == Underived && Find(s.conditions, Ready) == None)
  }

  datatype EngineMutation =
    | NotReady(reason: Reason, message: string)
    | WaitForModels(message: string)
    | Deployed(models: seq<string>, allReady: bool, message: string)

  function ApplyEngine(m: EngineMutation, s: EngineStatus): EngineStatus {
    match m
    case NotReady(reason, message) => WithReady(s, Condition(Ready, false, reason, message))
    case WaitForModels(message) =>
      WithReady(s.(conditions := Set(s.conditions, Condition(ModelsAvailable, false, WaitingForModels, message))),
                Condition(Ready, false, WaitingForModels, message))
    case Deployed(models, allReady, message) =>
      WithReady(s.(modelRepositories := models,
                   conditions := Set(s.conditions, Condition(ModelsAvailable, true, ModelsReady, "All referenced models are available"))),
                Condition(Ready, allReady, if allReady then DeploymentsReady else DeploymentsCreated, message))
  }

  function WithReady(s: EngineStatus, c: Condition): EngineStatus {
    var cs := Set(s.conditions, c);
    s.(conditions := cs, phase := DeriveLLMEnginePhase(cs))
  }

  // What a write sets the condition Ready to.
  function ReadyOf(m: EngineMutation): Condition {
    match m
    case NotReady(reason, message) => Condition(Ready, false, reason, message)
    case WaitForModels(message) => Condition(Ready, false, WaitingForModels, message)
    case Deployed(_, allReady, message) =>
      Condition(Ready, allReady, if allReady then DeploymentsReady else DeploymentsCreated, message)
  }

  lemma ReadyIsSet(m: EngineMutation, s: EngineStatus)
    ensures Find(ApplyEngine(m, s).conditions, Ready) == Some(ReadyOf(m)) && EnginePhaseOk(ApplyEngine(m, s))
  {
    FindAfterSet(s.conditions, ReadyOf(m), Ready);
    match m {
      case NotReady(_, _) =>
      case WaitForModels(message) =>
        FindAfterSet(Set(s.conditions, Condition(ModelsAvailable, false, WaitingForModels, message)), ReadyOf(m), Ready);
      case Deployed(_, _, _) =>
        FindAfterSet(Set(s.conditions, Condition(ModelsAvailable, true, ModelsReady, "All referenced models are available")),
                     ReadyOf(m), Ready);
    }
  }

  /** The phase an engine shows after each kind of write is the one its reason calls for: a reason to
      wait leaves it Pending, any other failure leaves it in error. */
  lemma PhaseAfter(m: EngineMutation, s: EngineStatus)
    ensures var t, waits := ApplyEngine(m, s), {StoragePending, WaitingForModels, NoModelsFound, GPUNotAvailable};
            && EnginePhaseOk(t)
            && (t.phase == Running <==> m.Deployed? && m.allReady)
            && (t.phase == Starting <==> (m.Deployed? && !m.allReady) || (m.NotReady? && m.reason == DeploymentsCreated))
            && (t.phase == Pending <==> m.WaitForModels? || (m.NotReady? && m.reason in waits))
            && (t.phase == Errored <==> m.NotReady? && m.reason !in waits && m.reason != DeploymentsCreated)
  {
    ReadyIsSet(m, s);
  }

  /** What each kind of write leaves in the conditions and in the list of models. */
  lemma ShownAfter(m: EngineMutation, s: EngineStatus)
    ensures var t := ApplyEngine(m, s);
            && Find(t.conditions, StorageReady) == Find(s.conditions, StorageReady)
            && match m
               case NotReady(reason, message) =>
                 && Find(t.conditions, Ready) == Some(Condition(Ready, false, reason, message))
                 && Find(t.conditions, ModelsAvailable) == Find(s.conditions, ModelsAvailable)
                 && t.modelRepositories == s.modelRepositories
               case WaitForModels(message) =>
                 && Find(t.conditions, Ready) == Some(Condition(Ready, false, WaitingForModels, message))
                 && Find(t.conditions, ModelsAvailable) == Some(Condition(ModelsAvailable, false, WaitingForModels, message))
                 && t.modelRepositories == s.modelRepositories
               case Deployed(models, allReady, message) =>
                 && Find(t.conditions, Ready) ==
                    Some(Condition(Ready, allReady, if allReady then DeploymentsReady else DeploymentsCreated, message))
                 && Find(t.conditions, ModelsAvailable) ==
                    Some(Condition(ModelsAvailable, true, ModelsReady, "All referenced models are available"))
                 && t.modelRepositories == models
  {
    ReadyIsSet(m, s);
    var c := match m
      case NotReady(_, _) => None
      case WaitForModels(message) => Some(Condition(ModelsAvailable, false, WaitingForModels, message))
      case Deployed(_, _, _) => Some(Condition(ModelsAvailable, true, ModelsReady, "All referenced models are available"));
    var cs := if c.Some? then Set(s.conditions, c.value) else s.conditions;
    forall k | k != Ready ensures Find(Set(cs, ReadyOf(m)), k) == if c.Some? && k == ModelsAvailable then c else Find(s.conditions, k) {
      FindAfterSet(cs, ReadyOf(m), k);
      if c.Some? {
        FindAfterSet(s.conditions, c.value, k);
      }
    }
  }

  // ---------------------------------------------------------------- history

  datatype Spec = Spec(refs: seq<string>, gpu: Option<Gpu>)

  datatype EngineObject = EngineObject(version: nat, spec: Spec, finalizers: set<string>, deleting: bool, status: EngineStatus)

  /** Fixed for one engine.  Deployments of other owners have names of at most 52 characters or
      from the set alien. */
  datatype Config = Config(
    namespace: string, name: string, h: Names.WideHash, parse: ParseQuantity, alien: set<string>)

  /** One pass over the engine: when it began, what it found in the spec, what it read. */
  datatype Pass = Pass(since: nat, refs: seq<string>, gpu: Option<Gpu>, copies: seq<RepoStatus>)

  /** What happened, in order.  A pass begins by reading the engine. */
  datatype Event =
    | EngineRead(spec: Spec, deleting: bool)
    | RepoRead(repo: string, status: RepoStatus)
    | GpuPassed(gpu: Gpu, node: Node)
    | ClaimSeenBound(key: SP.Key)
    | Applied(pass: Pass, model: string, claim: string)
    | DeploymentReady(name: string)
    | StatusWritten(pass: Pass, mutation: EngineMutation)
    | TeardownBegan(repo: string)
    | FinalizerRemoved

  type History = seq<Event>

  datatype Reading = Reading(at: nat, spec: Spec, deleting: bool)

  /** The last reading of the engine: where the current pass began, with which spec, and whether
      the engine was being deleted. */
  function CurrentPass(log: History): Option<Reading> {
    if log == [] then None
    else if log[|log| - 1].EngineRead? then Some(Reading(|log| - 1, log[|log| - 1].spec, log[|log| - 1].deleting))
    else CurrentPass(log[..|log| - 1])
  }

  /** The pass is the current one, its references and GPUs are those of the spec it read, and the
      engine was not being deleted. */
  predicate Began(log: History, p: Pass) {
    CurrentPass(log) == Some(Reading(p.since, Spec(p.refs, p.gpu), false))
  }

  /** The current pass found the engine being deleted, with these references. */
  predicate Deleting(log: History, refs: seq<string>) {
    CurrentPass(log).Some? && CurrentPass(log).value.deleting && CurrentPass(log).value.spec.refs == refs
  }

  predicate InDeletion(log: History) { CurrentPass(log).Some? && CurrentPass(log).value.deleting }

  /** Before i the engine was read last at b: the pass that i belongs to began at b. */
  predicate PassAt(log: History, i: nat, b: nat) {
    b < i <= |log| && log[b].EngineRead? && forall k | b < k < i :: !log[k].EngineRead?
  }

  lemma {:induction false} CurrentPassMeans(log: History)
    ensures CurrentPass(log).Some? ==>
              var r := CurrentPass(log).value;
              PassAt(log, |log|, r.at) && log[r.at].spec == r.spec && log[r.at].deleting == r.deleting
    decreases |log|
  {
    if log != [] {
      CurrentPassMeans(log[..|log| - 1]);
    }
  }

  predicate Saw(log: History, since: nat, e: Event) {
    exists k :: since <= k < |log| && log[k] == e
  }

  predicate SawGpu(log: History, since: nat, g: Gpu, copies: seq<RepoStatus>) {
    exists k :: since <= k < |log| && log[k].GpuPassed? && log[k].gpu == g && NodeDemanded(copies, log[k].node.name)
  }

  lemma SawKept(log: History, longer: History, since: nat, e: Event)
    requires log <= longer
    ensures Saw(log, since, e) ==> Saw(longer, since, e)
  {
  }

  lemma SawLast(log: History, since: nat, e: Event)
    requires since <= |log|
    ensures Saw(log + [e], since, e)
  {
    assert (log + [e])[|log|] == e;
  }

  /** The claim that mirrors a repository's storage for this engine. */
  function ClaimKey(cfg: Config, repo: string): SP.Key {
    (cfg.namespace, Names.NameOf(cfg.h, 63, "le", cfg.name, repo))
  }

  function VolumeName(cfg: Config, repo: string): string { Names.NameOf(cfg.h, 63, "le", cfg.name, repo) }

  /** Every reference was read, and read as ready, in this pass. */
  predicate AllRead(log: History, p: Pass) {
    && |p.copies| == |p.refs|
    && forall i | 0 <= i < |p.refs| ::
         p.copies[i].phase == ReadyPhase && Saw(log, p.since, RepoRead(p.refs[i], p.copies[i]))
  }

  predicate GpuOk(log: History, p: Pass) { p.gpu.Some? ==> SawGpu(log, p.since, p.gpu.value, p.copies) }

  predicate ClaimsBound(cfg: Config, log: History, p: Pass, n: nat)
    requires n <= |p.refs|
  {
    forall i | 0 <= i < n :: Saw(log, p.since, ClaimSeenBound(ClaimKey(cfg, p.refs[i])))
  }

  /** What must have been seen in the same pass before anything is deployed. */
  predicate Gate(cfg: Config, log: History, p: Pass) {
    Began(log, p) && AllRead(log, p) && GpuOk(log, p) && ClaimsBound(cfg, log, p, |p.refs|)
  }

  /** A model's deployment mounts its own claim. */
  function AppliedEvent(cfg: Config, p: Pass, model: string): Event { Applied(p, model, ClaimKey(cfg, model).1) }

  /** The first n models were applied and then looked up and found with ready replicas. */
  predicate FoundReady(cfg: Config, log: History, p: Pass, n: nat)
    requires n <= |p.refs|
  {
    forall i | 0 <= i < n ::
      && Saw(log, p.since, AppliedEvent(cfg, p, p.refs[i]))
      && Saw(log, p.since, DeploymentReady(Names.LookupName(cfg.name, p.refs[i])))
  }

  /** The pass read reference i, and was the first to be read as not ready. */
  predicate Unready(log: History, p: Pass, i: nat) {
    && i < |p.refs| && i < |p.copies| && p.copies[i].phase != ReadyPhase
    && Saw(log, p.since, RepoRead(p.refs[i], p.copies[i]))
    && forall j | 0 <= j < i :: p.copies[j].phase == ReadyPhase
  }

  /** What the pass must have seen before it may write this. */
  predicate Justified(cfg: Config, log: History, p: Pass, m: EngineMutation) {
    match m
    case WaitForModels(_) => exists i | 0 <= i < |p.refs| :: Unready(log, p, i)
    case Deployed(models, allReady, _) =>
      && Gate(cfg, log, p) && p.refs != [] && models == p.refs
      && (allReady ==> FoundReady(cfg, log, p, |p.refs|))
    case NotReady(reason, _) =>
      match reason
      case NoModelsFound => p.refs == []
      case ModelRepositoryFetchFailed => p.refs != []
      case GPUNotAvailable => p.refs != [] && AllRead(log, p) && p.gpu.Some?
      case StoragePending => p.refs != [] && AllRead(log, p) && GpuOk(log, p)
      case ReconcileFailed => p.refs != [] && Gate(cfg, log, p)
      case _ => false
  }

  predicate SafeEvent(cfg: Config, log: History, e: Event) {
    match e
    case GpuPassed(g, node) => Suitable(g, node)
    case Applied(p, model, claim) => Gate(cfg, log, p) && model in p.refs && claim == ClaimKey(cfg, model).1
    case DeploymentReady(name) => OwnOrAlien(cfg, name)
    case StatusWritten(p, m) => Began(log, p) && Justified(cfg, log, p, m)
    case TeardownBegan(repo) => InDeletion(log) && repo in CurrentPass(log).value.spec.refs
    case FinalizerRemoved => InDeletion(log)
    case _ => true
  }

  /** A name some deployment can have: a component name is at most 52 characters. */
  predicate OwnOrAlien(cfg: Config, name: string) { |name| <= Names.COMPONENT_MAX || name in cfg.alien }

  predicate Safe(cfg: Config, log: History) {
    forall i | 0 <= i < |log| :: SafeEvent(cfg, log[..i], log[i])
  }

  lemma SafeAppend(cfg: Config, log: History, e: Event)
    requires Safe(cfg, log) && SafeEvent(cfg, log, e)
    ensures Safe(cfg, log + [e])
    ensures CurrentPass(log + [e]) ==
            if e.EngineRead? then Some(Reading(|log|, e.spec, e.deleting)) else CurrentPass(log)
  {
    hide SafeEvent;
    assert (log + [e])[..|log|] == log;
    forall i | 0 <= i < |log + [e]| ensures SafeEvent(cfg, (log + [e])[..i], (log + [e])[i]) {
      if i < |log| {
        assert (log + [e])[..i] == log[..i];
      } else {
        assert (log + [e])[..i] == log;
      }
    }
  }

  lemma GateKept(cfg: Config, log: History, longer: History, p: Pass)
    requires Gate(cfg, log, p) && log <= longer && CurrentPass(longer) == CurrentPass(log)
    ensures Gate(cfg, longer, p)
  {
  }

  lemma ClaimsBoundKept(cfg: Config, log: History, longer: History, p: Pass, n: nat)
    requires n <= |p.refs| && ClaimsBound(cfg, log, p, n) && log <= longer
    ensures ClaimsBound(cfg, longer, p, n)
  {
  }

  lemma FoundReadyKept(cfg: Config, log: History, longer: History, p: Pass, n: nat)
    requires n <= |p.refs| && FoundReady(cfg, log, p, n) && log <= longer
    ensures FoundReady(cfg, longer, p, n)
  {
  }

  lemma AppliedIsSafe(cfg: Config, log: History, p: Pass, model: string)
    requires Gate(cfg, log, p) && model in p.refs
    ensures SafeEvent(cfg, log, AppliedEvent(cfg, p, model))
    ensures !AppliedEvent(cfg, p, model).EngineRead?
    ensures AppliedEvent(cfg, p, model) == Applied(p, model, ClaimKey(cfg, model).1)
  {
  }

  // ---------------------------------------------------------------- what safe histories mean

  // The pass of an event, as its label says it and as the readings do.
  lemma InItsPass(cfg: Config, log: History, i: nat)
    requires Safe(cfg, log) && i < |log| && (log[i].Applied? || log[i].StatusWritten?)
    ensures SafeEvent(cfg, log[..i], log[i])
    ensures var p := log[i].pass;
            PassAt(log, i, p.since) && log[p.since].spec == Spec(p.refs, p.gpu) && !log[p.since].deleting
  {
    CurrentPassMeans(log[..i]);
  }

  /** Event i is a reading of the repository with phase Ready. */
  predicate ReadReady(log: History, i: nat, repo: string) {
    i < |log| && log[i].RepoRead? && log[i].repo == repo && log[i].status.phase == ReadyPhase
  }

  /** Storage is torn down, and the operator's finalizer removed, only in a pass that read the engine
      as being deleted, and only the storage of its references. */
  lemma TeardownIsSafe(cfg: Config, log: History, i: nat) returns (b: nat)
    requires Safe(cfg, log) && i < |log| && (log[i].TeardownBegan? || log[i].FinalizerRemoved?)
    ensures PassAt(log, i, b) && log[b].deleting && (log[i].TeardownBegan? ==> log[i].repo in log[b].spec.refs)
  {
    assert SafeEvent(cfg, log[..i], log[i]);
    CurrentPassMeans(log[..i]);
    b := CurrentPass(log[..i]).value.at;
  }

  /** Deployment gate: whenever something is applied, the engine was not being deleted when the
      pass read it, at b, it is for a model of the spec read then, it mounts that model's own claim,
      and between b and then each repository that this spec references was read with phase Ready
      and its claim seen bound. */
  lemma DeploymentGate(cfg: Config, log: History, i: nat) returns (b: nat)
    requires Safe(cfg, log) && i < |log| && log[i].Applied?
    ensures PassAt(log, i, b) && !log[b].deleting
    ensures log[i].model in log[b].spec.refs && log[i].claim == ClaimKey(cfg, log[i].model).1
    ensures forall r | r in log[b].spec.refs ::
              && (exists k :: b < k < i && ReadReady(log, k, r))
              && (exists k :: b < k < i && log[k] == ClaimSeenBound(ClaimKey(cfg, r)))
  {
    InItsPass(cfg, log, i);
    b := log[i].pass.since;
    forall r | r in log[i].pass.refs
      ensures exists k :: b < k < i && ReadReady(log, k, r)
      ensures exists k :: b < k < i && log[k] == ClaimSeenBound(ClaimKey(cfg, r))
    {
      GateForOne(cfg, log, i, b, log[i].pass, r);
    }
  }

  /** Whenever a status is written, its reason is true of the pass that wrote it, whatever interfered
      and failed: what it says of the spec holds of the spec read at b, a model waited for was read
      as not ready since, and a later obstacle is named only when every earlier one was out of the
      way. */
  lemma ReasonIsSound(cfg: Config, log: History, i: nat) returns (b: nat)
    requires Safe(cfg, log) && i < |log| && log[i].StatusWritten?
    ensures PassAt(log, i, b) && !log[b].deleting
    ensures var m, spec := log[i].mutation, log[b].spec;
            && (m.NotReady? ==>
                  && m.reason in {ModelRepositoryFetchFailed, NoModelsFound, GPUNotAvailable, StoragePending, ReconcileFailed}
                  && (m.reason == NoModelsFound <==> spec.refs == [])
                  && (m.reason == GPUNotAvailable ==> spec.gpu.Some?))
            && (m.WaitForModels? ==> exists k :: b < k < i && ReadUnready(log, k, spec.refs))
            && (m.Deployed? ==> spec.refs != [])
            && (m.Deployed? || (m.NotReady? && m.reason in {GPUNotAvailable, StoragePending, ReconcileFailed}) ==>
                  forall r | r in spec.refs :: exists k :: b < k < i && ReadReady(log, k, r))
            && (m.Deployed? || (m.NotReady? && m.reason in {StoragePending, ReconcileFailed}) ==>
                  spec.gpu.Some? ==> exists k :: b < k < i && NodePassed(log, k, spec.gpu.value))
            && (m.Deployed? || (m.NotReady? && m.reason == ReconcileFailed) ==>
                  forall r | r in spec.refs :: exists k :: b < k < i && log[k] == ClaimSeenBound(ClaimKey(cfg, r)))
  {
    hide Safe, ClaimKey;
    InItsPass(cfg, log, i);
    var p, m := log[i].pass, log[i].mutation;
    b := p.since;
    if m.WaitForModels? {
      SawUnready(cfg, log, i, b, p);
    } else if m.Deployed? || m.reason in {GPUNotAvailable, StoragePending, ReconcileFailed} {
      hide Saw, FoundReady;
      SawAllReady(log, i, b, p);
      SawNode(cfg, log, i, b, p);
      SawAllBound(cfg, log, i, b, p);
    }
  }

  /** Event i is a reading of one of the repositories with another phase than Ready. */
  predicate ReadUnready(log: History, i: nat, refs: seq<string>) {
    i < |log| && log[i].RepoRead? && log[i].repo in refs && log[i].status.phase != ReadyPhase
  }

  /** Event i is that a node suitable for these GPUs was found. */
  predicate NodePassed(log: History, i: nat, g: Gpu) {
    i < |log| && log[i].GpuPassed? && log[i].gpu == g && Suitable(g, log[i].node)
  }

  lemma SawUnready(cfg: Config, log: History, i: nat, b: nat, p: Pass)
    requires b < i <= |log| && log[b].EngineRead? && p.since == b
    ensures (exists at | 0 <= at < |p.refs| :: Unready(log[..i], p, at)) ==> exists k :: b < k < i && ReadUnready(log, k, p.refs)
  {
    if at :| 0 <= at < |p.refs| && Unready(log[..i], p, at) {
      var k := SeenWhen(log, i, b, RepoRead(p.refs[at], p.copies[at]));
      assert ReadUnready(log, k, p.refs);
    }
  }

  lemma SawAllReady(log: History, i: nat, b: nat, p: Pass)
    requires b < i <= |log| && log[b].EngineRead? && p.since == b
    ensures AllRead(log[..i], p) ==> forall r | r in p.refs :: exists k :: b < k < i && ReadReady(log, k, r)
  {
    hide Saw;
    if AllRead(log[..i], p) {
      forall r | r in p.refs ensures exists k :: b < k < i && ReadReady(log, k, r) {
        var at :| 0 <= at < |p.refs| && p.refs[at] == r;
        var k := SeenWhen(log, i, b, RepoRead(p.refs[at], p.copies[at]));
        assert ReadReady(log, k, r);
      }
    }
  }

  lemma SawNode(cfg: Config, log: History, i: nat, b: nat, p: Pass)
    requires Safe(cfg, log) && b < i <= |log| && log[b].EngineRead? && p.since == b
    ensures GpuOk(log[..i], p) && p.gpu.Some? ==> exists k :: b < k < i && NodePassed(log, k, p.gpu.value)
  {
    if GpuOk(log[..i], p) && p.gpu.Some? {
      var k :| b <= k < i && log[..i][k].GpuPassed? && log[..i][k].gpu == p.gpu.value && NodeDemanded(p.copies, log[..i][k].node.name);
      assert SafeEvent(cfg, log[..k], log[k]);
      assert NodePassed(log, k, p.gpu.value);
    }
  }

  lemma SawAllBound(cfg: Config, log: History, i: nat, b: nat, p: Pass)
    requires b < i <= |log| && log[b].EngineRead? && p.since == b
    ensures ClaimsBound(cfg, log[..i], p, |p.refs|) ==>
              forall r | r in p.refs :: exists k :: b < k < i && log[k] == ClaimSeenBound(ClaimKey(cfg, r))
  {
    hide Saw, ClaimKey;
    if ClaimsBound(cfg, log[..i], p, |p.refs|) {
      forall r | r in p.refs ensures exists k :: b < k < i && log[k] == ClaimSeenBound(ClaimKey(cfg, r)) {
        var at :| 0 <= at < |p.refs| && p.refs[at] == r;
        var k := SeenWhen(log, i, b, ClaimSeenBound(ClaimKey(cfg, p.refs[at])));
      }
    }
  }

  // What was seen since an event at b that is none of the kind was seen after it.
  lemma SeenWhen(log: History, i: nat, b: nat, e: Event) returns (k: nat)
    requires b < i <= |log| && Saw(log[..i], b, e) && log[b] != e
    ensures b < k < i && log[k] == e
  {
    k :| b <= k < i && log[..i][k] == e;
  }

  lemma GateForOne(cfg: Config, log: History, i: nat, b: nat, p: Pass, r: string)
    requires b < i <= |log| && log[b].EngineRead? && p.since == b && Gate(cfg, log[..i], p) && r in p.refs
    ensures exists k :: b < k < i && ReadReady(log, k, r)
    ensures exists k :: b < k < i && log[k] == ClaimSeenBound(ClaimKey(cfg, r))
  {
    hide ClaimKey, Saw;
    var at :| 0 <= at < |p.refs| && p.refs[at] == r;
    var read := SeenWhen(log, i, b, RepoRead(p.refs[at], p.copies[at]));
    var bound := SeenWhen(log, i, b, ClaimSeenBound(ClaimKey(cfg, p.refs[at])));
    assert ReadReady(log, read, r);
  }

  /** And if that spec asks for GPUs, a suitable node was found in that pass, at k: the node that
      storage demands, if it demands one, going by what the pass read of the repositories. */
  lemma GpuGate(cfg: Config, log: History, i: nat, b: nat) returns (k: nat, copies: seq<RepoStatus>)
    requires Safe(cfg, log) && i < |log| && log[i].Applied? && PassAt(log, i, b) && log[b].spec.gpu.Some?
    ensures b < k < i && log[k].GpuPassed? && log[k].gpu == log[b].spec.gpu.value && Suitable(log[k].gpu, log[k].node)
    ensures |copies| == |log[b].spec.refs| && NodeDemanded(copies, log[k].node.name)
    ensures forall r | 0 <= r < |copies| :: Saw(log[..i], b, RepoRead(log[b].spec.refs[r], copies[r]))
  {
    InItsPass(cfg, log, i);
    var p := log[i].pass;
    assert p.since == b;
    copies := p.copies;
    k :| b <= k < i && log[..i][k].GpuPassed? && log[..i][k].gpu == p.gpu.value && NodeDemanded(copies, log[..i][k].node.name);
    assert SafeEvent(cfg, log[..k], log[k]);
  }

  /** Ready=True is written only if the spec that the pass read, at b, has references, and for each
      of them, since b, its deployment was applied and then found with ready replicas. */
  lemma ReadyIsSound(cfg: Config, log: History, i: nat) returns (b: nat)
    requires Safe(cfg, log) && i < |log| && log[i].StatusWritten? && log[i].mutation.Deployed? && log[i].mutation.allReady
    ensures PassAt(log, i, b) && log[b].spec.refs != [] && log[i].mutation.models == log[b].spec.refs
    ensures forall r | r in log[b].spec.refs ::
              && (exists k :: b < k < i && IsApplied(log[k], r))
              && (exists k :: b < k < i && log[k] == DeploymentReady(Names.LookupName(cfg.name, r)))
              && OwnOrAlien(cfg, Names.LookupName(cfg.name, r))
  {
    InItsPass(cfg, log, i);
    b := log[i].pass.since;
    forall r | r in log[b].spec.refs
      ensures exists k :: b < k < i && IsApplied(log[k], r)
      ensures exists k :: b < k < i && log[k] == DeploymentReady(Names.LookupName(cfg.name, r))
      ensures OwnOrAlien(cfg, Names.LookupName(cfg.name, r))
    {
      FoundOne(cfg, log, i, r);
    }
  }

  predicate IsApplied(e: Event, model: string) { e.Applied? && e.model == model }

  lemma FoundOne(cfg: Config, log: History, i: nat, r: string)
    requires Safe(cfg, log) && i < |log| && log[i].StatusWritten? && r in log[i].pass.refs
    ensures var p := log[i].pass;
            FoundReady(cfg, log[..i], p, |p.refs|) && PassAt(log, i, p.since) ==>
              && (exists k :: p.since < k < i && IsApplied(log[k], r))
              && (exists k :: p.since < k < i && log[k] == DeploymentReady(Names.LookupName(cfg.name, r)))
              && OwnOrAlien(cfg, Names.LookupName(cfg.name, r))
  {
    hide Saw, ClaimKey, Names.LookupName, OwnOrAlien;
    var p := log[i].pass;
    if !FoundReady(cfg, log[..i], p, |p.refs|) || !PassAt(log, i, p.since) {
      return;
    }
    var at :| 0 <= at < |p.refs| && p.refs[at] == r;
    var applied := SeenWhen(log, i, p.since, AppliedEvent(cfg, p, p.refs[at]));
    var seen := SeenWhen(log, i, p.since, DeploymentReady(Names.LookupName(cfg.name, p.refs[at])));
    assert IsApplied(log[applied], r) && SafeEvent(cfg, log[..seen], log[seen]);
  }

  /** An engine whose spec, as its pass read it, has a pair too long for the lookup never becomes
      ready, unless someone else owns a deployment under that long name. */
  lemma LongPairNeverReady(cfg: Config, log: History, i: nat, b: nat, repo: string)
    requires Safe(cfg, log) && i < |log| && log[i].StatusWritten? && PassAt(log, i, b) && repo in log[b].spec.refs
    requires |Names.LookupName(cfg.name, repo)| > Names.COMPONENT_MAX
    requires Names.LookupName(cfg.name, repo) !in cfg.alien
    ensures !(log[i].mutation.Deployed? && log[i].mutation.allReady)
  {
    if log[i].mutation.Deployed? && log[i].mutation.allReady {
      var began := ReadyIsSound(cfg, log, i);
    }
  }

  // ---------------------------------------------------------------- the world

  predicate NamesOk(cfg: Config, deployments: map<string, nat>) {
    forall n | n in deployments :: OwnOrAlien(cfg, n)
  }

  /** What users may do to the engine object: anything but touch its status. */
  predicate UserMay(a: Option<EngineObject>, b: Option<EngineObject>) {
    b.Some? ==>
      && a.Some? && b.value.status == a.value.status && a.value.version <= b.value.version
      && (a.value.version == b.value.version ==> a == b)
  }

  datatype Fetched<T> = Found(value: T) | NotFound | ReadFailed

  datatype Written = Done | Conflict | Failed

  /** Everything outside the controller, as a value. */
  datatype Scene = Scene(
    store: SP.Store,
    repos: map<string, RepoStatus>,
    mounts: map<string, string>,
    nodes: seq<Node>,
    engines: seq<Index.Engine>,
    deployments: map<string, nat>,
    engine: Option<EngineObject>)

  function RequestFor(cfg: Config, sc: Scene, repo: string, st: RepoStatus): SP.Request {
    SP.Request(cfg.h, cfg.parse, cfg.name, cfg.namespace, repo,
               if repo in sc.mounts then sc.mounts[repo] else "", st.storage)
  }

  /** Each pair is asked for on behalf of this engine and that repository, with the storage that the
      repository recorded, and has the name that deployments mount and teardowns clean up. */
  lemma PairOf(cfg: Config, sc: Scene, repo: string, st: RepoStatus)
    ensures var q := RequestFor(cfg, sc, repo, st);
            && q.engine == cfg.name && q.namespace == cfg.namespace && q.repo == repo && q.storage == st.storage
            && q.mountPath == (if repo in sc.mounts then sc.mounts[repo] else "") && q.parse == cfg.parse
            && q.PVName() == VolumeName(cfg, repo) && q.PVCKey() == ClaimKey(cfg, repo)
            && ClaimKey(cfg, repo) == (cfg.namespace, VolumeName(cfg, repo))
            && (|cfg.name| + |repo| <= 59 ==> VolumeName(cfg, repo) == "le-" + cfg.name + "-" + repo)
  {
    SP.PairNames(RequestFor(cfg, sc, repo, st));
  }

  function WithDeployment(deployments: map<string, nat>, name: string): map<string, nat> {
    if name in deployments then deployments else deployments[name := 0]
  }

  predicate HasReady(deployments: map<string, nat>, name: string) {
    name in deployments && deployments[name] > 0
  }

  /** The engine with another status: written once, or not at all if it is the same. */
  function Restatused(e: EngineObject, status: EngineStatus): EngineObject {
    if status == e.status then e else e.(version := e.version + 1, status := status)
  }

  /** The controller stored a mutated status; nothing else changed. */
  predicate StatusSet(before: Scene, after: Scene, m: EngineMutation) {
    && before.engine.Some?
    && after == before.(engine := Some(Restatused(before.engine.value, ApplyEngine(m, before.engine.value.status))))
  }

  /** Whether an undisturbed pass can bring the engine to Running. */
  predicate CanRun(cfg: Config, sc: Scene) {
    && sc.engine.Some?
    && var spec := sc.engine.value.spec;
    && spec.refs != []
    && (forall r | r in spec.refs :: r in sc.repos && sc.repos[r].phase == ReadyPhase)
    && (spec.gpu.Some? ==> GpuAvailable(spec.gpu.value, StatusesOf(sc, spec.refs), sc.nodes))
    && (forall r | r in spec.refs :: SP.Mountable(RequestFor(cfg, sc, r, sc.repos[r]), sc.store))
    && (forall r | r in spec.refs :: HasReady(sc.deployments, Names.LookupName(cfg.name, r)))
  }

  // ---------------------------------------------------------------- the verdict of a pass

  /** The first repository that is not ready. */
  function FirstUnreadyAt(copies: seq<RepoStatus>): (at: nat)
    ensures at <= |copies| && (at < |copies| ==> copies[at].phase != ReadyPhase)
    ensures forall i | 0 <= i < at :: copies[i].phase == ReadyPhase
  {
    if copies == [] || copies[0].phase != ReadyPhase then 0 else 1 + FirstUnreadyAt(copies[1..])
  }

  predicate IsMountable(cfg: Config, sc: Scene, repo: string, st: RepoStatus) {
    SP.Mountable(RequestFor(cfg, sc, repo, st), sc.store)
  }

  /** The first pair that cannot be mounted. */
  function FirstUnmountable(cfg: Config, sc: Scene, refs: seq<string>, copies: seq<RepoStatus>): (at: nat)
    requires |refs| == |copies|
    ensures at <= |refs|
    ensures at < |refs| ==> !IsMountable(cfg, sc, refs[at], copies[at])
    ensures forall i | 0 <= i < at :: IsMountable(cfg, sc, refs[i], copies[i])
  {
    if refs == [] || !IsMountable(cfg, sc, refs[0], copies[0]) then 0
    else 1 + FirstUnmountable(cfg, sc, refs[1..], copies[1..])
  }

  predicate AllFoundReady(cfg: Config, sc: Scene, refs: seq<string>) {
    forall i | 0 <= i < |refs| :: HasReady(sc.deployments, Names.LookupName(cfg.name, refs[i]))
  }

  function DeployedMutation(refs: seq<string>, allReady: bool): EngineMutation {
    Deployed(refs, allReady, if allReady then "All model deployments ready" else "Some deployments ready")
  }

  const GPU_FAILED := NotReady(GPUNotAvailable, "GPU validation failed")
  const FETCH_FAILED := NotReady(ModelRepositoryFetchFailed, "ModelRepository could not be fetched")
  const NO_MODELS := NotReady(NoModelsFound, "No ModelRepository resources found")

  function Waiting(repo: string): EngineMutation { WaitForModels("Waiting for ModelRepository " + repo) }

  function Unbound(repo: string): EngineMutation { NotReady(StoragePending, "Preparing storage for model " + repo) }

  /** What an undisturbed pass writes once the repositories were read; None stands for a panic. */
  function DeployVerdict(cfg: Config, sc: Scene, refs: seq<string>, gpu: Option<Gpu>, copies: seq<RepoStatus>): Option<EngineMutation>
    requires |refs| == |copies|
  {
    var unready, unbound := FirstUnreadyAt(copies), FirstUnmountable(cfg, sc, refs, copies);
    if unready < |copies| then Some(Waiting(refs[unready]))
    else if gpu.Some? && !GpuAvailable(gpu.value, copies, sc.nodes) then Some(GPU_FAILED)
    else if unbound < |refs| then
      if SP.Panics(RequestFor(cfg, sc, refs[unbound], copies[unbound])) then None else Some(Unbound(refs[unbound]))
    else Some(DeployedMutation(refs, AllFoundReady(cfg, sc, refs)))
  }

  /** The store once the storage of the first n references was asked for. */
  function Mirrored(cfg: Config, protection: set<string>, sc: Scene, refs: seq<string>, copies: seq<RepoStatus>, n: nat): SP.Store
    requires n <= |refs| == |copies|
  {
    if n == 0 then sc.store
    else SP.Ensured(RequestFor(cfg, sc, refs[n - 1], copies[n - 1]), Mirrored(cfg, protection, sc, refs, copies, n - 1), protection, {}).1
  }

  /** And once the repositories were read, what an undisturbed pass makes of the store: the calls up
      to the first pair that cannot be mounted, if it gets that far. */
  function DeployStore(cfg: Config, protection: set<string>, sc: Scene,
                       refs: seq<string>, gpu: Option<Gpu>, copies: seq<RepoStatus>): SP.Store
    requires |refs| == |copies|
  {
    var unbound := FirstUnmountable(cfg, sc, refs, copies);
    if FirstUnreadyAt(copies) < |copies| || (gpu.Some? && !GpuAvailable(gpu.value, copies, sc.nodes)) then sc.store
    else Mirrored(cfg, protection, sc, refs, copies, if unbound < |refs| then unbound + 1 else |refs|)
  }

  /** What exists is unchanged, and nothing but the named objects is added. */
  predicate OnlyAdds(s: SP.Store, t: SP.Store, names: set<string>, keys: set<SP.Key>) {
    && (forall n | n in s.pvs :: n in t.pvs && t.pvs[n] == s.pvs[n])
    && (forall k | k in s.pvcs :: k in t.pvcs && t.pvcs[k] == s.pvcs[k])
    && t.pvs.Keys <= s.pvs.Keys + names && t.pvcs.Keys <= s.pvcs.Keys + keys
  }

  lemma OnlyAddsMore(s: SP.Store, t: SP.Store, u: SP.Store, names: set<string>, keys: set<SP.Key>, name: string, key: SP.Key)
    requires OnlyAdds(s, t, names, keys) && OnlyAdds(t, u, {name}, {key})
    ensures OnlyAdds(s, u, names + {name}, keys + {key})
  {
  }

  function VolumesOf(cfg: Config, refs: seq<string>): set<string> { set r | r in refs :: VolumeName(cfg, r) }

  function ClaimsOf(cfg: Config, refs: seq<string>): set<SP.Key> { set r | r in refs :: ClaimKey(cfg, r) }

  /** Preparing storage changes nothing that exists, and adds nothing but pairs of the references. */
  lemma {:induction false} MirroringOnlyAdds(cfg: Config, protection: set<string>, sc: Scene,
                                             refs: seq<string>, copies: seq<RepoStatus>, n: nat)
    requires n <= |refs| == |copies|
    ensures OnlyAdds(sc.store, Mirrored(cfg, protection, sc, refs, copies, n), VolumesOf(cfg, refs[..n]), ClaimsOf(cfg, refs[..n]))
  {
    if n > 0 {
      hide SP.Ensured, Names.NameOf, OnlyAdds, VolumesOf, ClaimsOf;
      MirroringOnlyAdds(cfg, protection, sc, refs, copies, n - 1);
      var before := Mirrored(cfg, protection, sc, refs, copies, n - 1);
      OneMirrored(cfg, protection, sc, refs[n - 1], copies[n - 1], before);
      OnlyAddsMore(sc.store, before, Mirrored(cfg, protection, sc, refs, copies, n), VolumesOf(cfg, refs[..n - 1]),
                   ClaimsOf(cfg, refs[..n - 1]), VolumeName(cfg, refs[n - 1]), ClaimKey(cfg, refs[n - 1]));
      OneMoreNamed(cfg, refs, n - 1);
    }
  }

  lemma OneMirrored(cfg: Config, protection: set<string>, sc: Scene, repo: string, st: RepoStatus, s: SP.Store)
    ensures OnlyAdds(s, SP.Ensured(RequestFor(cfg, sc, repo, st), s, protection, {}).1, {VolumeName(cfg, repo)}, {ClaimKey(cfg, repo)})
  {
    hide SP.Ensured, Names.NameOf;
    SP.EnsureOnlyAdds(RequestFor(cfg, sc, repo, st), s, protection, {});
  }

  lemma OneMoreNamed(cfg: Config, refs: seq<string>, n: nat)
    requires n < |refs|
    ensures VolumesOf(cfg, refs[..n + 1]) == VolumesOf(cfg, refs[..n]) + {VolumeName(cfg, refs[n])}
    ensures ClaimsOf(cfg, refs[..n + 1]) == ClaimsOf(cfg, refs[..n]) + {ClaimKey(cfg, refs[n])}
  {
    hide Names.NameOf, VolumeName, ClaimKey;
    assert refs[..n + 1] == refs[..n] + [refs[n]];
  }

  function EngineStore(cfg: Config, protection: set<string>, sc: Scene): SP.Store
    requires sc.engine.Some?
  {
    var spec := sc.engine.value.spec;
    if (exists r | r in spec.refs :: r !in sc.repos) || spec.refs == [] then sc.store
    else DeployStore(cfg, protection, sc, spec.refs, spec.gpu, StatusesOf(sc, spec.refs))
  }

  function EngineVerdict(cfg: Config, sc: Scene): Option<EngineMutation>
    requires sc.engine.Some?
  {
    var spec := sc.engine.value.spec;
    if exists r | r in spec.refs :: r !in sc.repos then Some(FETCH_FAILED)
    else if spec.refs == [] then Some(NO_MODELS)
    else DeployVerdict(cfg, sc, spec.refs, spec.gpu, StatusesOf(sc, spec.refs))
  }

  /** An undisturbed pass declares all deployments ready exactly if the engine can run. */
  lemma RunsExactly(cfg: Config, sc: Scene)
    requires sc.engine.Some?
    ensures EngineVerdict(cfg, sc) == Some(DeployedMutation(sc.engine.value.spec.refs, true)) <==> CanRun(cfg, sc)
  {
    hide SP.Mountable, SP.Panics, GpuAvailable, Names.LookupName, RequestFor;
    var refs := sc.engine.value.spec.refs;
    if forall r | r in refs :: r in sc.repos {
      var copies := StatusesOf(sc, refs);
      assert forall i | 0 <= i < |refs| :: refs[i] in refs && copies[i] == sc.repos[refs[i]];
    }
  }

  function StatusesOf(sc: Scene, refs: seq<string>): (copies: seq<RepoStatus>)
    requires forall r | r in refs :: r in sc.repos
    ensures |copies| == |refs| && forall i | 0 <= i < |refs| :: copies[i] == sc.repos[refs[i]]
  {
    if refs == [] then [] else [sc.repos[refs[0]]] + StatusesOf(sc, refs[1..])
  }

  function StatusStored(sc: Scene, status: EngineStatus): Scene
    requires sc.engine.Some?
  {
    sc.(engine := Some(sc.engine.value.(version := sc.engine.value.version + 1, status := status)))
  }

  lemma NodeChecked(copies: seq<RepoStatus>, n: Node, nodes: seq<Node>)
    ensures var required := DemandedNode(copies);
            required == "" || n.name == required ==> NodeDemanded(copies, n.name)
  {
  }

  class World {
    const cfg: Config
    /** A still world takes no steps of its own; a quiet one moreover fails no call. */
    const still: bool
    const quiet: bool
    const cluster: SP.Cluster
    const repos: Index.Repositories
    var mounts: map<string, string>
    var nodes: seq<Node>
    var engines: seq<Index.Engine>
    /** Deployments in the engine's namespace, and how many of their replicas are ready. */
    var deployments: map<string, nat>
    var engine: Option<EngineObject>
    var log: History

    constructor (cfg: Config, still: bool, quiet: bool, cluster: SP.Cluster, repos: Index.Repositories,
                 deployments: map<string, nat>, engine: EngineObject, nodes: seq<Node>)
      requires NamesOk(cfg, deployments) && engine.status == EngineStatus(Underived, [], []) && (quiet ==> still)
      ensures Valid() && this.cfg == cfg && this.still == still && this.quiet == quiet
      ensures this.cluster == cluster && this.repos == repos && this.engine == Some(engine) && log == []
    {
      this.cfg, this.still, this.quiet, this.cluster, this.repos := cfg, still, quiet, cluster, repos;
      this.deployments, this.engine, this.nodes := deployments, Some(engine), nodes;
      mounts, engines, log := map[], [], [];
    }

    ghost function Now(): Scene
      reads this, cluster, repos
    {
      Scene(cluster.State(), repos.status, mounts, nodes, engines, deployments, engine)
    }

    ghost predicate Valid()
      reads this
    {
      && Safe(cfg, log) && NamesOk(cfg, deployments) && (engine.Some? ==> EnginePhaseOk(engine.value.status))
      && (quiet ==> still)
    }

    /** What an event claims is so at this moment. */
    ghost predicate Truthful(e: Event)
      reads this, cluster, repos
    {
      match e
      case EngineRead(spec, deleting) => engine.Some? && engine.value.spec == spec && engine.value.deleting == deleting
      case RepoRead(repo, status) => repo in repos.status && repos.status[repo] == status
      case GpuPassed(_, node) => node in nodes
      case ClaimSeenBound(key) => key in cluster.pvcs && cluster.pvcs[key].phase == SP.Bound
      case Applied(_, model, _) => Names.ComponentName(cfg.h, cfg.name, model) in deployments
      case DeploymentReady(name) => HasReady(deployments, name)
      case StatusWritten(_, m) => engine.Some? && exists s :: engine.value.status == ApplyEngine(m, s)
      case TeardownBegan(_) => true
      case FinalizerRemoved => engine.Some? ==> FINALIZER !in engine.value.finalizers
    }

    /** Interference: everything outside may change, within what others are able to do. */
    method Yield()
      requires Valid()
      modifies this, cluster, repos
      ensures Valid() && log == old(log) && UserMay(old(engine), engine)
      ensures still ==> Now() == old(Now())
    {
      if still {
        return;
      }
      var d: map<string, nat> := *;
      if NamesOk(cfg, d) {
        deployments := d;
      }
      var e: Option<EngineObject> := *;
      if UserMay(engine, e) {
        engine := e;
      }
      mounts, nodes, engines := *, *, *;
      cluster.pvs, cluster.pvcs := *, *;
      repos.status := *;
    }

    /** Record an event, which must be both safe and true. */
    method Log(e: Event)
      requires Valid() && SafeEvent(cfg, log, e) && Truthful(e)
      modifies `log
      ensures Valid() && log == old(log) + [e] && Now() == old(Now())
      ensures CurrentPass(log) ==
              if e.EngineRead? then Some(Reading(|old(log)|, e.spec, e.deleting)) else CurrentPass(old(log))
    {
      SafeAppend(cfg, log, e);
      log := log + [e];
    }

    method GetEngine() returns (r: Fetched<EngineObject>)
      requires Valid()
      modifies this, cluster, repos
      ensures Valid() && log == old(log) && UserMay(old(engine), engine)
      ensures r.Found? ==> engine == Some(r.value)
      ensures r.NotFound? ==> engine.None?
      ensures still ==> Now() == old(Now())
      ensures quiet ==> !r.ReadFailed?
    {
      Yield();
      var failed := MayFail(quiet);
      return if failed then ReadFailed else match engine case Some(e) => Found(e) case None => NotFound;
    }

    /** The reading of the engine that a pass begins with. */
    method BeginPass() returns (r: Fetched<EngineObject>)
      requires Valid()
      modifies this, cluster, repos
      ensures Valid() && UserMay(old(engine), engine)
      ensures r.Found? ==> engine == Some(r.value) && log == old(log) + [EngineRead(r.value.spec, r.value.deleting)]
                           && CurrentPass(log) == Some(Reading(|old(log)|, r.value.spec, r.value.deleting))
      ensures r.NotFound? ==> engine.None?
      ensures !r.Found? ==> log == old(log)
      ensures still ==> Now() == old(Now())
      ensures quiet ==> !r.ReadFailed?
    {
      hide Safe, EnginePhaseOk;
      r := GetEngine();
      if r.Found? {
        Log(EngineRead(r.value.spec, r.value.deleting));
      }
    }

    method GetRepo(name: string) returns (r: Fetched<RepoStatus>)
      requires Valid()
      modifies this, cluster, repos
      ensures Valid() && log == old(log) + if r.Found? then [RepoRead(name, r.value)] else []
      ensures CurrentPass(log) == CurrentPass(old(log))
      ensures r.Found? ==> name in repos.status && repos.status[name] == r.value
      ensures quiet ==> Now() == old(Now()) && (r.Found? <==> name in repos.status)
    {
      Yield();
      var failed := MayFail(quiet);
      if failed || name !in repos.status {
        return if failed then ReadFailed else NotFound;
      }
      Log(RepoRead(name, repos.status[name]));
      return Found(repos.status[name]);
    }

    /** Check GPUs: on the node storage demands, or anywhere. */
    method CheckGpu(g: Gpu, copies: seq<RepoStatus>) returns (ok: bool)
      requires Valid()
      modifies this, cluster, repos
      ensures Valid() && old(log) <= log && CurrentPass(log) == CurrentPass(old(log))
      ensures ok ==> SawGpu(log, |old(log)|, g, copies)
      ensures quiet ==> Now() == old(Now()) && (ok <==> GpuAvailable(g, copies, nodes))
    {
      hide Safe, EnginePhaseOk, NamesOk, Suitable, FirstPin, NodeDemanded;
      var required := RequiredNode(copies);
      Yield();
      var failed := MayFail(quiet);
      if failed {
        return false;
      }
      var found: Node;
      if required != "" {
        var n := NodeNamed(nodes, required);
        if n.None? {
          return false;
        }
        found := n.value;
        ok := ValidateNode(g, found);
        if !ok {
          return;
        }
      } else {
        var suitable := ValidateCluster(g, nodes);
        if suitable == [] {
          return false;
        }
        found := suitable[0];
      }
      NodeChecked(copies, found, nodes);
      Log(GpuPassed(g, found));
      assert log[|old(log)|] == GpuPassed(g, found);
      return true;
    }

    /** Prepare one repository's storage. */
    method EnsureStorage(repo: string, st: RepoStatus) returns (r: Outcome<SP.Mounted>)
      requires Valid()
      modifies this, cluster, repos
      ensures Valid() && old(log) <= log && CurrentPass(log) == CurrentPass(old(log))
      ensures r.Ok? ==> Saw(log, |old(log)|, ClaimSeenBound(ClaimKey(cfg, repo)))
      ensures r.Ok? ==> r.value.pvcName == ClaimKey(cfg, repo).1
      ensures quiet ==>
                && Now() == old(Now()).(store := Now().store)
                && (r, Now().store) == SP.Ensured(RequestFor(cfg, old(Now()), repo, st), old(Now()).store, cluster.protection, {})
    {
      Yield();
      var fails: set<SP.EnsureCall> := *;
      if quiet {
        fails := {};
      }
      var mount := if repo in mounts then mounts[repo] else "";
      var q := SP.Request(cfg.h, cfg.parse, cfg.name, cfg.namespace, repo, mount, st.storage);
      SP.SuccessMeansBound(q, cluster.State(), cluster.protection, fails);
      r := SP.EnsureLLMEngineStorage(cluster, q, fails);
      if r.Ok? {
        SawLast(log, |old(log)|, ClaimSeenBound(ClaimKey(cfg, repo)));
        Log(ClaimSeenBound(ClaimKey(cfg, repo)));
      }
    }

    /** Create a model's deployment unless it exists. */
    method PutDeployment(model: string)
      requires Valid()
      modifies this
      ensures Valid() && log == old(log)
      ensures Now() == old(Now()).(deployments := WithDeployment(old(Now()).deployments, Names.ComponentName(cfg.h, cfg.name, model)))
      ensures Names.ComponentName(cfg.h, cfg.name, model) in deployments
    {
      hide Safe, EnginePhaseOk, Names.NameOf;
      var name := Names.ComponentName(cfg.h, cfg.name, model);
      Names.NameLength(cfg.h, Names.COMPONENT_MAX, "", cfg.name, model);
      deployments := WithDeployment(deployments, name);
    }

    /** Apply the manifests of one model.  Even a failed attempt may have applied the deployment. */
    method Apply(p: Pass, model: string, claim: string) returns (ok: bool)
      requires Valid() && Gate(cfg, log, p) && model in p.refs && p.since <= |log|
      requires claim == ClaimKey(cfg, model).1
      modifies this, cluster, repos
      ensures Valid() && old(log) <= log && CurrentPass(log) == CurrentPass(old(log))
      ensures ok ==> Saw(log, p.since, AppliedEvent(cfg, p, model))
      ensures quiet ==> ok && Now() == old(Now()).(
                          deployments := WithDeployment(old(Now()).deployments, Names.ComponentName(cfg.h, cfg.name, model)))
    {
      hide *;
      AppliedIsSafe(cfg, log, p, model);
      Yield();
      var failed := MayFail(quiet);
      var reached := MayFail(quiet);
      if failed && !reached {
        return false;
      }
      PutDeployment(model);
      AppliedIsTrue(this, p, model, claim);
      SawLast(log, p.since, Applied(p, model, claim));
      Log(Applied(p, model, claim));
      return !failed;
    }

    /** Look a deployment up; errors count as not ready. */
    method IsDeploymentReady(name: string) returns (ready: bool)
      requires Valid()
      modifies this, cluster, repos
      ensures Valid() && old(log) <= log && CurrentPass(log) == CurrentPass(old(log))
      ensures ready ==> Saw(log, |old(log)|, DeploymentReady(name))
      ensures quiet ==> Now() == old(Now()) && (ready <==> HasReady(deployments, name))
    {
      Yield();
      var failed := MayFail(quiet);
      if failed || name !in deployments || deployments[name] == 0 {
        return false;
      }
      SawLast(log, |old(log)|, DeploymentReady(name));
      Log(DeploymentReady(name));
      return true;
    }

    /** Conditional write of a mutated status. */
    method UpdateStatus(base: EngineObject, m: EngineMutation, p: Pass) returns (r: Written)
      requires Valid() && SafeEvent(cfg, log, StatusWritten(p, m))
      requires engine == Some(base)
      modifies this, cluster, repos
      ensures Valid() && old(log) <= log && CurrentPass(log) == CurrentPass(old(log)) && (r.Conflict? ==> log == old(log))
      ensures quiet ==> r.Done? && Now() == StatusStored(old(Now()), ApplyEngine(m, base.status))
    {
      hide Safe, SafeEvent, ApplyEngine, EnginePhaseOk;
      Yield();
      var fate := SomeFate(quiet);
      if fate.Fails? || engine.None? || engine.value.version != base.version {
        return if engine.Some? && fate.Works? then Conflict else Failed;
      }
      PhaseAfter(m, base.status);
      engine := Some(base.(version := base.version + 1, status := ApplyEngine(m, base.status)));
      Log(StatusWritten(p, m));
      return if fate.Lost? then Failed else Done;
    }

    /** Conditional write of the engine's finalizers. */
    method UpdateFinalizers(version: nat, finalizers: set<string>) returns (r: Written)
      requires Valid() && (FINALIZER in finalizers || InDeletion(log))
      modifies this, cluster, repos
      ensures Valid() && old(log) <= log && CurrentPass(log) == CurrentPass(old(log)) && (r.Conflict? ==> log == old(log))
      ensures r.Done? && FINALIZER !in finalizers ==>
                log == old(log) + [FinalizerRemoved] && (engine.Some? ==> FINALIZER !in engine.value.finalizers)
      ensures still ==> Now() == old(Now()).(engine := engine)
      ensures quiet && old(engine).Some? && old(engine).value.version == version ==>
                && r.Done?
                && engine == if old(engine).value.deleting && finalizers == {} then None
                             else Some(old(engine).value.(version := version + 1, finalizers := finalizers))
    {
      Yield();
      var fate := SomeFate(quiet);
      if fate.Fails? || engine.None? || engine.value.version != version {
        return if engine.Some? && fate.Works? then Conflict else Failed;
      }
      var o := engine.value.(version := version + 1, finalizers := finalizers);
      engine := if o.deleting && finalizers == {} then None else Some(o);
      if FINALIZER !in finalizers {
        Log(FinalizerRemoved);
      }
      return if fate.Lost? then Failed else Done;
    }

    /** The engine index of the named repositories; failures are only logged by the program. */
    method UpdateIndex(names: seq<string>)
      requires Valid()
      modifies this, cluster, repos
      ensures Valid() && log == old(log) && UserMay(old(engine), engine)
      ensures still ==> Now() == old(Now()).(repos := repos.status)
      ensures quiet ==> Index.Indexed(old(Now()).repos, repos.status, old(Now()).engines, names)
    {
      Yield();
      var failed := MayFail(quiet);
      if !failed {
        Index.UpdateReferencedEngines(repos, engines, names);
      }
    }

    /** Tear down one pair, under arbitrary faults unless the world is quiet. */
    method CleanupStorage(model: string) returns (ok: bool, ghost fails: set<SP.CleanupCall>)
      requires Valid() && InDeletion(log) && model in CurrentPass(log).value.spec.refs
      modifies this, cluster, repos
      ensures Valid() && log == old(log) + [TeardownBegan(model)] && CurrentPass(log) == CurrentPass(old(log))
      ensures UserMay(old(engine), engine)
      ensures still ==> Now() == old(Now()).(store := cluster.State())
                        && (ok, cluster.State()) == SP.Cleaned(ClaimKey(cfg, model), VolumeName(cfg, model), old(cluster.State()), fails)
      ensures quiet ==> fails == {}
    {
      Yield();
      Log(TeardownBegan(model));
      var faults: set<SP.CleanupCall> := *;
      if quiet {
        faults := {};
      }
      var q := SP.Request(cfg.h, cfg.parse, cfg.name, cfg.namespace, model, "", None);
      ok := SP.CleanupLLMEngineStorage(cluster, q, faults);
      fails := faults;
    }
  }

  lemma AppliedIsTrue(w: World, p: Pass, model: string, claim: string)
    requires Names.ComponentName(w.cfg.h, w.cfg.name, model) in w.deployments
    ensures w.Truthful(Applied(p, model, claim))
  {
  }
}
