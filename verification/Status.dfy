/** Status conditions and the status of a model repository. */
module Status {
  import opened Common
  import Backend

  // ---------------------------------------------------------------- conditions

  datatype Kind = Ready | StorageReady | ModelsAvailable

  datatype Reason =
    // model repositories
    | StorageProviderFailed | ValidationFailed | ProvisionFailed | StorageProvisioned
    | DownloadFailed | AllRevisionsReady | DownloadingRevisions | DeletionBlocked
    // engines
    | ModelRepositoryFetchFailed | NoModelsFound | WaitingForModels | GPUNotAvailable
    | StoragePending | ReconcileFailed | ModelsReady | DeploymentsReady | DeploymentsCreated

  datatype Condition = Condition(kind: Kind, status: bool, reason: Reason, message: string)

  type Conditions = seq<Condition>

  /** The first condition of a kind. */
  function Find(cs: Conditions, k: Kind): (r: Option<Condition>)
    ensures r.Some? ==> r.value.kind == k && r.value in cs
    ensures r.None? ==> forall c | c in cs :: c.kind != k
  {
    if cs == [] then None else if cs[0].kind == k then Some(cs[0]) else Find(cs[1..], k)
  }

  /** Replace the condition of the same kind, or append. */
  function Set(cs: Conditions, c: Condition): Conditions {
    if cs == [] then [c] else if cs[0].kind == c.kind then [c] + cs[1..] else [cs[0]] + Set(cs[1..], c)
  }

  lemma {:induction false} FindAfterSet(cs: Conditions, c: Condition, k: Kind)
    ensures Find(Set(cs, c), k) == if k == c.kind then Some(c) else Find(cs, k)
  {
    if cs != [] && cs[0].kind != c.kind {
      FindAfterSet(cs[1..], c, k);
    }
  }

  /** A condition takes the place of the first of its kind, or the last place if there is none. */
  lemma {:induction false} SetPlace(cs: Conditions, c: Condition) returns (at: nat)
    ensures at <= |cs| && (forall i | 0 <= i < at :: cs[i].kind != c.kind) && (at < |cs| ==> cs[at].kind == c.kind)
    ensures Set(cs, c) == if at < |cs| then cs[at := c] else cs + [c]
  {
    if cs == [] || cs[0].kind == c.kind {
      at := 0;
    } else {
      at := SetPlace(cs[1..], c);
      assert cs == [cs[0]] + cs[1..];
      at := at + 1;
    }
  }

  /** Setting a condition to what it is already changes nothing, and only then. */
  lemma {:induction false} SetIsNoChange(cs: Conditions, c: Condition)
    ensures Set(cs, c) == cs <==> Find(cs, c.kind) == Some(c)
  {
    if cs != [] {
      assert cs == [cs[0]] + cs[1..];
      if cs[0].kind != c.kind {
        SetIsNoChange(cs[1..], c);
        if Set(cs, c) == cs {
          assert Set(cs, c)[1..] == Set(cs[1..], c);
        }
      }
    }
  }

  // ---------------------------------------------------------------- repository status

  /** NoPhase is the empty string of a status never derived. */
  datatype Phase = NoPhase | PendingPhase | DownloadingPhase | ReadyPhase | FailedPhase | DeprecatedPhase

  datatype Revision = Revision(name: string, commit: string, status: Phase)

  datatype RepoStatus = RepoStatus(
    phase: Phase,
    conditions: Conditions,
    storage: Option<Backend.StorageStatus>,
    revisions: seq<Revision>,
    referencedEngines: string)

  const EMPTY := RepoStatus(NoPhase, [], None, [], "")

  function DeriveModelRepoPhase(cs: Conditions): Phase {
    match Find(cs, Ready)
    case None => PendingPhase
    case Some(c) =>
      if c.status then ReadyPhase
      else if c.reason == DownloadingRevisions then DownloadingPhase
      else FailedPhase
  }

  /** The stored phase is the derived one, or was never derived and there is nothing to derive from. */
  predicate PhaseOk(s: RepoStatus) {
    s.phase == DeriveModelRepoPhase(s.conditions) || (s.phase == NoPhase && Find(s.conditions, Ready) == None)
  }

  // ---------------------------------------------------------------- revisions

  function FindRevision(rs: seq<Revision>, name: string): (r: Option<Revision>)
    ensures r.Some? ==> r.value.name == name && r.value in rs
    ensures r.None? ==> forall x | x in rs :: x.name != name
  {
    if rs == [] then None else if rs[0].name == name then Some(rs[0]) else FindRevision(rs[1..], name)
  }

  /** Replace the entry of the same name, or append. */
  function Put(rs: seq<Revision>, r: Revision): seq<Revision> {
    if rs == [] then [r] else if rs[0].name == r.name then [r] + rs[1..] else [rs[0]] + Put(rs[1..], r)
  }

  lemma {:induction false} FindAfterPut(rs: seq<Revision>, r: Revision, name: string)
    ensures FindRevision(Put(rs, r), name) == if name == r.name then Some(r) else FindRevision(rs, name)
  {
    if rs != [] && rs[0].name != r.name {
      FindAfterPut(rs[1..], r, name);
    }
  }

  /** An entry takes the place of the first of its name, or the last place if there is none. */
  lemma {:induction false} PutPlace(rs: seq<Revision>, r: Revision) returns (at: nat)
    ensures at <= |rs| && (forall i | 0 <= i < at :: rs[i].name != r.name) && (at < |rs| ==> rs[at].name == r.name)
    ensures Put(rs, r) == if at < |rs| then rs[at := r] else rs + [r]
  {
    if rs == [] || rs[0].name == r.name {
      at := 0;
    } else {
      at := PutPlace(rs[1..], r);
      assert rs == [rs[0]] + rs[1..];
      at := at + 1;
    }
  }

  lemma {:induction false} PutIsNoChange(rs: seq<Revision>, r: Revision)
    ensures Put(rs, r) == rs <==> FindRevision(rs, r.name) == Some(r)
  {
    if rs != [] {
      assert rs == [rs[0]] + rs[1..];
      if rs[0].name != r.name {
        PutIsNoChange(rs[1..], r);
        if Put(rs, r) == rs {
          assert Put(rs, r)[1..] == Put(rs[1..], r);
        }
      }
    }
  }

  predicate IsReady(rs: seq<Revision>, name: string) {
    FindRevision(rs, name).Some? && FindRevision(rs, name).value.status == ReadyPhase
  }

  // ---------------------------------------------------------------- mutations

  /** What the repository controller does to a fresh copy of the status. */
  datatype Mutation =
    | SetCondition(condition: Condition)
    | PutRevision(revision: Revision)
    | PutStorage(storage: Backend.StorageStatus)

  function Apply(m: Mutation, s: RepoStatus): RepoStatus {
    match m
    case SetCondition(c) =>
      var cs := Set(s.conditions, c);
      s.(conditions := cs, phase := DeriveModelRepoPhase(cs))
    case PutRevision(r) => s.(revisions := Put(s.revisions, r))
    case PutStorage(st) =>
      s.(storage := Some(st),
         conditions := Set(s.conditions, Condition(StorageReady, true, StorageProvisioned,
                                                   "Storage provisioned with class " + st.storageClass)))
  }

  /** Everything the repository controller owns: all but the engine index. */
  function Own(s: RepoStatus): RepoStatus { s.(referencedEngines := "") }

  /** A mutation depends on and changes only owned fields. */
  lemma ApplyOwn(m: Mutation, s: RepoStatus)
    ensures Apply(m, s).referencedEngines == s.referencedEngines
    ensures Own(Apply(m, s)) == Apply(m, Own(s))
  {
  }

  /** Applying a mutation once more changes nothing. */
  lemma ApplyTwice(m: Mutation, s: RepoStatus)
    ensures Apply(m, Apply(m, s)) == Apply(m, s)
  {
    match m {
      case SetCondition(c) => SetTwice(s.conditions, c);
      case PutRevision(r) =>
        FindAfterPut(s.revisions, r, r.name);
        PutIsNoChange(Put(s.revisions, r), r);
      case PutStorage(st) =>
        SetTwice(s.conditions, Condition(StorageReady, true, StorageProvisioned, "Storage provisioned with class " + st.storageClass));
    }
  }

  lemma SetTwice(cs: Conditions, c: Condition)
    ensures Set(Set(cs, c), c) == Set(cs, c)
  {
    FindAfterSet(cs, c, c.kind);
    SetIsNoChange(Set(cs, c), c);
  }

  lemma ApplyKeepsPhaseOk(m: Mutation, s: RepoStatus)
    requires PhaseOk(s)
    ensures PhaseOk(Apply(m, s))
  {
    if m.PutStorage? {
      FindAfterSet(s.conditions, Condition(StorageReady, true, StorageProvisioned,
                                           "Storage provisioned with class " + m.storage.storageClass), Ready);
    }
  }

  /** Setting a condition changes that condition and the derived phase, nothing else. */
  lemma SetConditionFrame(c: Condition, s: RepoStatus, k: Kind)
    ensures var t := Apply(SetCondition(c), s);
            && t.storage == s.storage && t.revisions == s.revisions && t.referencedEngines == s.referencedEngines
            && (k != c.kind ==> Find(t.conditions, k) == Find(s.conditions, k))
            && Find(t.conditions, c.kind) == Some(c)
            && t.phase == DeriveModelRepoPhase(t.conditions)
            && (match Find(t.conditions, Ready)
                case None => t.phase == PendingPhase
                case Some(r) =>
                  && (t.phase == ReadyPhase <==> r.status)
                  && (t.phase == DownloadingPhase <==> !r.status && r.reason == DownloadingRevisions)
                  && (t.phase == FailedPhase <==> !r.status && r.reason != DownloadingRevisions))
  {
    FindAfterSet(s.conditions, c, k);
    FindAfterSet(s.conditions, c, c.kind);
  }

  /** Recording storage changes the storage status and the condition of storage, nothing else, the
      phase included; putting an entry changes the entries only. */
  lemma OtherMutations(st: Backend.StorageStatus, r: Revision, s: RepoStatus, k: Kind)
    ensures var t := Apply(PutStorage(st), s);
            && t == s.(storage := Some(st), conditions := t.conditions)
            && Find(t.conditions, k) ==
               if k == StorageReady
               then Some(Condition(StorageReady, true, StorageProvisioned, "Storage provisioned with class " + st.storageClass))
               else Find(s.conditions, k)
    ensures var t := Apply(PutRevision(r), s);
            t == s.(revisions := t.revisions) && FindRevision(t.revisions, r.name) == Some(r)
  {
    FindAfterSet(s.conditions,
                 Condition(StorageReady, true, StorageProvisioned, "Storage provisioned with class " + st.storageClass), k);
    FindAfterPut(s.revisions, r, r.name);
  }
}
