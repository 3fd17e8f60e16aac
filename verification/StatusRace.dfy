/** Two controllers writing one status object through optimistic concurrency, with stale reads:
    every interleaving of their read / compute / conditional-write attempts. */
module StatusRace {
  import opened Common
  import opened Status

  /** What an attempt wants: the repository controller mutates its own fields, the engine
      controller sets the index. */
  datatype Intent = RepoIntent(mutation: Mutation) | EngineIntent(index: string)

  datatype Writer = ByRepo | ByEngine | ByUser

  /** One version of the object.  Spec and metadata are opaque. */
  datatype Version = Version(spec: int, status: RepoStatus, writer: Writer)

  datatype Attempt = Attempt(intent: Intent, base: nat, copy: Version)

  /** All versions so far (the last is current; a version's number is its position), and each
      worker's attempt in flight. */
  datatype State = State(versions: seq<Version>, inFlight: map<nat, Attempt>)

  datatype Step =
    | Read(worker: nat, intent: Intent, base: nat)   // any version a cache may still hold
    | Write(worker: nat)                             // conditional on that version being current
    | Edit(spec: int)                                // a main-resource update leaves the status alone

  function Intended(i: Intent, s: RepoStatus): RepoStatus {
    match i
    case RepoIntent(m) => Apply(m, s)
    case EngineIntent(index) => s.(referencedEngines := index)
  }

  function WriterOf(i: Intent): Writer { if i.RepoIntent? then ByRepo else ByEngine }

  /** A write commits only if the copied version is still current; an unchanged status is not
      written at all; a conflict leaves everything as it was. */
  function Next(s: State, step: Step): State
    requires s.versions != []
  {
    match step
    case Read(w, intent, base) =>
      if base < |s.versions| then s.(inFlight := s.inFlight[w := Attempt(intent, base, s.versions[base])]) else s
    case Edit(spec) =>
      s.(versions := s.versions + [Version(spec, s.versions[|s.versions| - 1].status, ByUser)])
    case Write(w) =>
      if w !in s.inFlight then s
      else
        var a := s.inFlight[w];
        var t := s.(inFlight := s.inFlight - {w});
        var status := Intended(a.intent, a.copy.status);
        if status == a.copy.status || a.base != |s.versions| - 1 then t
        else t.(versions := s.versions + [Version(a.copy.spec, status, WriterOf(a.intent))])
  }

  function Run(s: State, steps: seq<Step>): (t: State)
    requires s.versions != []
    ensures t.versions != []
    decreases |steps|
  {
    if steps == [] then s else Run(Next(s, steps[0]), steps[1..])
  }

  // ---------------------------------------------------------------- what every run keeps

  /** A version changes only what its writer owns, relative to the version just before it. */
  predicate OwnFieldsOnly(before: Version, after: Version) {
    match after.writer
    case ByRepo => after.spec == before.spec && after.status.referencedEngines == before.status.referencedEngines
    case ByEngine => after.spec == before.spec && Own(after.status) == Own(before.status)
    case ByUser => after.status == before.status
  }

  ghost predicate Kept(s: State) {
    && s.versions != []
    && (forall w | w in s.inFlight ::
          s.inFlight[w].base < |s.versions| && s.inFlight[w].copy == s.versions[s.inFlight[w].base])
    && (forall i | 0 < i < |s.versions| :: OwnFieldsOnly(s.versions[i - 1], s.versions[i]))
  }

  lemma NextKeeps(s: State, step: Step)
    requires Kept(s)
    ensures Kept(Next(s, step))
  {
    if step.Write? && step.worker in s.inFlight {
      var a := s.inFlight[step.worker];
      if a.intent.RepoIntent? {
        ApplyOwn(a.intent.mutation, a.copy.status);
      }
    }
  }

  lemma {:induction false} RunKeeps(s: State, steps: seq<Step>)
    requires Kept(s)
    ensures Kept(Run(s, steps))
    decreases |steps|
  {
    if steps != [] {
      NextKeeps(s, steps[0]);
      RunKeeps(Next(s, steps[0]), steps[1..]);
    }
  }

  /** The index in the last version that the engine controller wrote; at first the initial one. */
  function LastIndex(versions: seq<Version>): string
    requires versions != []
  {
    var last := |versions| - 1;
    if last == 0 || versions[last].writer == ByEngine then versions[last].status.referencedEngines
    else LastIndex(versions[..last])
  }

  /** The owned fields in the last version that the repository controller wrote. */
  function LastOwn(versions: seq<Version>): RepoStatus
    requires versions != []
  {
    var last := |versions| - 1;
    if last == 0 || versions[last].writer == ByRepo then Own(versions[last].status)
    else LastOwn(versions[..last])
  }

  lemma {:induction false} NothingLost(versions: seq<Version>)
    requires versions != []
    requires forall i | 0 < i < |versions| :: OwnFieldsOnly(versions[i - 1], versions[i])
    ensures var current := versions[|versions| - 1].status;
            current.referencedEngines == LastIndex(versions) && Own(current) == LastOwn(versions)
    decreases |versions|
  {
    var last := |versions| - 1;
    if last > 0 {
      NothingLost(versions[..last]);
      assert OwnFieldsOnly(versions[last - 1], versions[last]);
    }
  }

  /** No lost updates: after every interleaving, stale reads included, the index is the last one
      the engine controller successfully wrote, and the other fields are those the repository
      controller last wrote. */
  lemma NoLostUpdates(initial: Version, steps: seq<Step>)
    ensures var versions := Run(State([initial], map[]), steps).versions;
            var current := versions[|versions| - 1].status;
            && current.referencedEngines == LastIndex(versions)
            && Own(current) == LastOwn(versions)
            && forall i | 0 < i < |versions| :: OwnFieldsOnly(versions[i - 1], versions[i])
  {
    RunKeeps(State([initial], map[]), steps);
    NothingLost(Run(State([initial], map[]), steps).versions);
  }

  /** The phase invariant survives every interleaving as well. */
  lemma {:induction false} PhaseKept(s: State, steps: seq<Step>)
    requires Kept(s) && forall i | 0 <= i < |s.versions| :: PhaseOk(s.versions[i].status)
    ensures forall i | 0 <= i < |Run(s, steps).versions| :: PhaseOk(Run(s, steps).versions[i].status)
    decreases |steps|
  {
    if steps != [] {
      var step := steps[0];
      if step.Write? && step.worker in s.inFlight && s.inFlight[step.worker].intent.RepoIntent? {
        var a := s.inFlight[step.worker];
        ApplyKeepsPhaseOk(a.intent.mutation, a.copy.status);
      }
      NextKeeps(s, step);
      PhaseKept(Next(s, step), steps[1..]);
    }
  }

  function Current(s: State): Version
    requires s.versions != []
  {
    s.versions[|s.versions| - 1]
  }

  /** The status is one that the intent leaves alone. */
  predicate Achieved(i: Intent, s: RepoStatus) { Intended(i, s) == s }

  /** The attempt writes, and the version it read is no longer current. */
  predicate Conflicts(s: State, a: Attempt) {
    Intended(a.intent, a.copy.status) != a.copy.status && a.base != |s.versions| - 1
  }

  /** Exactly what an attempt that meets no conflict achieves, stale or not: its intent holds
      afterwards if and only if the version it read is current, or the intent held anyway.  For the
      engine controller: the index is the intended one. */
  lemma AttemptAchieves(s: State, worker: nat)
    requires Kept(s) && worker in s.inFlight && !Conflicts(s, s.inFlight[worker])
    ensures var a := s.inFlight[worker];
            var after := Current(Next(s, Write(worker))).status;
            && (Achieved(a.intent, after) <==> a.base == |s.versions| - 1 || Achieved(a.intent, Current(s).status))
            && (a.intent.EngineIntent? ==> (Achieved(a.intent, after) <==> after.referencedEngines == a.intent.index))
  {
    var a := s.inFlight[worker];
    if a.intent.RepoIntent? {
      ApplyTwice(a.intent.mutation, a.copy.status);
    }
  }

  /** So a stale read can make the engine controller skip a write it needed: the guarantee is
      about what was written, not about what should have been. */
  lemma StaleReadSkipsWrite(v: Version)
    requires v.status.referencedEngines == "ns/a"
    ensures var steps := [Read(0, EngineIntent("ns/a,ns/b"), 0), Write(0), Read(0, EngineIntent("ns/a"), 0), Write(0)];
            var versions := Run(State([v], map[]), steps).versions;
            versions[|versions| - 1].status.referencedEngines == "ns/a,ns/b"
  {
  }
}
