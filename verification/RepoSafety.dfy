/** What every safe history means, over whole runs. */
module RepoSafety {
  import opened Common
  import opened Backend
  import opened Status
  import opened RepoWorld

  lemma {:induction false} SafePrefix(cfg: Config, log: History, i: nat)
    requires Safe(cfg, log) && i <= |log|
    ensures Safe(cfg, log[..i])
    ensures i < |log| ==> SafeEvent(cfg, log[..i], log[i])
    decreases |log| - i
  {
    if i < |log| {
      SafePrefix(cfg, log, i + 1);
      assert log[..i + 1][..i] == log[..i];
    } else {
      assert log[..i] == log;
    }
  }

  /** One event: what was ready stays ready, and what becomes ready had its job succeed before. */
  lemma ReadyStep(cfg: Config, log: History, e: Event, name: string)
    requires SafeEvent(cfg, log, e) && e.StatusWrite?
    ensures IsReady(e.before.revisions, name) ==> IsReady(e.after.revisions, name)
    ensures IsReady(e.after.revisions, name) && !IsReady(e.before.revisions, name) ==>
              JobSucceeded(DownloadJob(cfg, name)) in log
  {
    match e.cause {
      case EngineController =>
        assert Own(e.after).revisions == Own(e.before).revisions;
      case RepoPass(m) =>
        if m.PutRevision? {
          FindAfterPut(e.before.revisions, m.revision, name);
        }
    }
  }

  predicate ReadyAt(log: History, i: nat, name: string)
    requires i <= |log|
  {
    LastStatus(log[..i]).Some? && IsReady(LastStatus(log[..i]).value.revisions, name)
  }

  lemma ReadyNext(cfg: Config, log: History, i: nat, name: string)
    requires Safe(cfg, log) && i < |log|
    ensures ReadyAt(log, i, name) ==> ReadyAt(log, i + 1, name)
    ensures ReadyAt(log, i + 1, name) && !ReadyAt(log, i, name) ==> JobSucceeded(DownloadJob(cfg, name)) in log[..i]
  {
    SafePrefix(cfg, log, i);
    assert log[..i + 1] == log[..i] + [log[i]];
    SafeAppend(cfg, log[..i], log[i]);
    if log[i].StatusWrite? {
      ReadyStep(cfg, log[..i], log[i], name);
    }
  }

  /** A ready revision never leaves Ready. */
  lemma {:induction false} ReadyForever(cfg: Config, log: History, i: nat, j: nat, name: string)
    requires Safe(cfg, log) && i <= j <= |log| && ReadyAt(log, i, name)
    ensures ReadyAt(log, j, name)
    decreases j - i
  {
    if i < j {
      ReadyNext(cfg, log, i, name);
      ReadyForever(cfg, log, i + 1, j, name);
    }
  }

  /** A revision is ready only after a job with its generated name reported success, at k. */
  lemma {:induction false} ReadyOnlyAfterSuccess(cfg: Config, log: History, i: nat, name: string) returns (k: nat)
    requires Safe(cfg, log) && i <= |log| && ReadyAt(log, i, name)
    ensures k < i && log[k] == JobSucceeded(DownloadJob(cfg, name))
    decreases i
  {
    ReadyNext(cfg, log, i - 1, name);
    if ReadyAt(log, i - 1, name) {
      k := ReadyOnlyAfterSuccess(cfg, log, i - 1, name);
    } else {
      k :| 0 <= k < i - 1 && log[..i - 1][k] == JobSucceeded(DownloadJob(cfg, name));
    }
  }

  // ---------------------------------------------------------------- the current pass

  /** The pass that goes on at the end of the history began at b. */
  predicate CurrentPass(log: History, b: nat) {
    b < |log| && log[b].PassBegan? && forall k | b < k < |log| :: !log[k].PassBegan?
  }

  predicate ReadsSpec(e: Event) { e.PassBegan? || e.SpecRead? }

  /** The spec the controller read last, at k. */
  predicate LastSpecRead(log: History, k: nat) {
    k < |log| && ReadsSpec(log[k]) && forall j | k < j < |log| :: !ReadsSpec(log[j])
  }

  /** Every discovery of the pass found node-bound storage. */
  predicate OnlyNodeBound(log: History, b: nat) {
    forall k | b < k < |log| && log[k].Discovered? :: log[k].info.mode == ReadWriteOnce
  }

  /** The pass listed the engines, and no listing showed a reference. */
  predicate ListedClear(log: History, b: nat) {
    (exists k :: b < k < |log| && log[k] == Listed(false)) && forall k | b < k < |log| :: log[k] != Listed(true)
  }

  predicate Unlisted(log: History, b: nat) { forall k | b < k < |log| :: !log[k].Listed? }

  predicate SeenBound(log: History, b: nat, node: string) {
    exists k :: b < k < |log| && log[k] == ClaimSeenBound(node)
  }

  ghost predicate ViewIs(log: History, v: View, k: nat) {
    && CurrentPass(log, v.start) && LastSpecRead(log, k) && v.start <= k && v.spec == Some(log[k].spec)
    && (v.nodeBound <==> OnlyNodeBound(log, v.start))
    && (forall n :: n in v.nodes <==> SeenBound(log, v.start, n))
    && (v.listed == Some(false) <==> ListedClear(log, v.start))
    && (v.listed.None? <==> Unlisted(log, v.start))
  }

  lemma ViewBegins(log: History)
    requires log != [] && log[|log| - 1].PassBegan?
    ensures ViewIs(log, ViewOf(log), |log| - 1)
  {
  }

  lemma ViewIsNext(log: History, v: View, k: nat, e: Event) returns (k': nat)
    requires ViewIs(log, v, k) && !e.PassBegan?
    ensures ViewIs(log + [e], ViewAfter(v, |log|, e), k')
  {
    var after := log + [e];
    k' := if e.SpecRead? then |log| else k;
    assert forall j | 0 <= j < |log| :: after[j] == log[j];
    assert after[|log|] == e;
    NodesNext(log, v, e);
    ListingNext(log, v, e);
  }

  lemma NodesNext(log: History, v: View, e: Event)
    requires v.spec.Some? && !e.PassBegan? && v.start < |log|
    requires forall n :: n in v.nodes <==> SeenBound(log, v.start, n)
    ensures forall n :: n in ViewAfter(v, |log|, e).nodes <==> SeenBound(log + [e], v.start, n)
  {
    var after := log + [e];
    forall n ensures n in ViewAfter(v, |log|, e).nodes <==> SeenBound(after, v.start, n) {
      if SeenBound(log, v.start, n) {
        var k :| v.start < k < |log| && log[k] == ClaimSeenBound(n);
        assert after[k] == log[k];
      }
      if e == ClaimSeenBound(n) {
        assert after[|log|] == e;
      }
    }
  }

  lemma ListingNext(log: History, v: View, e: Event)
    requires v.spec.Some? && !e.PassBegan? && v.start < |log|
    requires v.listed == Some(false) <==> ListedClear(log, v.start)
    requires v.listed.None? <==> Unlisted(log, v.start)
    ensures var w := ViewAfter(v, |log|, e);
            && (w.listed == Some(false) <==> ListedClear(log + [e], v.start))
            && (w.listed.None? <==> Unlisted(log + [e], v.start))
  {
    var after := log + [e];
    assert forall j | 0 <= j < |log| :: after[j] == log[j];
    assert after[|log|] == e;
    if t :| v.start < t < |log| && log[t] == Listed(true) {
      assert after[t] == Listed(true);
      assert !ListedClear(log, v.start) && !Unlisted(log, v.start);
      assert v.listed.Some? && v.listed.value;
    } else if t :| v.start < t < |log| && log[t] == Listed(false) {
      assert after[t] == Listed(false);
      assert log[t].Listed? && ListedClear(log, v.start);
    }
  }

  /** What the view of a pass means in terms of the events. */
  lemma {:induction false} ViewMeans(log: History) returns (k: nat)
    requires ViewOf(log).spec.Some?
    ensures ViewIs(log, ViewOf(log), k)
    decreases |log|
  {
    var before, e := log[..|log| - 1], log[|log| - 1];
    assert log == before + [e];
    if e.PassBegan? {
      ViewBegins(log);
      k := |log| - 1;
    } else {
      k := ViewMeans(before);
      k := ViewIsNext(before, ViewOf(before), k, e);
    }
  }

  lemma SpecReadLast(log: History) returns (k: nat)
    requires ViewOf(log).spec.Some?
    ensures LastSpecRead(log, k) && k < |log| && ReadsSpec(log[k]) && ViewOf(log).spec == Some(log[k].spec)
  {
    k := ViewMeans(log);
  }

  // ---------------------------------------------------------------- what passes do

  /** An event that writes Ready=True: what its pass read as desired is ready in the status it writes. */
  lemma ReadyWriteIsSound(cfg: Config, log: History, e: Event, d: RevisionRef)
    requires SafeEvent(cfg, log, e) && e.StatusWrite? && e.cause.RepoPass? && e.cause.mutation.SetCondition?
    requires e.cause.mutation.condition.kind == Ready && e.cause.mutation.condition.status
    ensures ViewOf(log).spec.Some?
    ensures d in DesiredRevisions(ViewOf(log).spec.value) ==> IsReady(e.after.revisions, d.name)
  {
    assert e.after.revisions == e.before.revisions;
  }

  /** When the condition Ready=True is written, every revision that the spec asks for, as the
      controller read it last, at k, is ready in the stored status, then and ever after. */
  lemma ReadyConditionIsSound(cfg: Config, log: History, i: nat, j: nat) returns (k: nat)
    requires Safe(cfg, log) && i < j <= |log| && log[i].StatusWrite? && log[i].cause.RepoPass?
    requires log[i].cause.mutation.SetCondition?
    requires log[i].cause.mutation.condition.kind == Ready && log[i].cause.mutation.condition.status
    ensures LastSpecRead(log[..i], k)
    ensures forall d | d in log[k].spec.revisions :: ReadyAt(log, j, d.name)
    ensures forall n: string | SoleRevision(log[k].spec, n) :: ReadyAt(log, j, n)
  {
    hide *;
    SafePrefix(cfg, log, i);
    ReadyWriteIsSound(cfg, log[..i], log[i], RevisionRef("", ""));
    k := SpecReadLast(log[..i]);
    forall d | d in DesiredRevisions(log[k].spec) ensures ReadyAt(log, j, d.name) {
      ReadyWriteIsSound(cfg, log[..i], log[i], d);
      WrittenReady(cfg, log, i, d.name);
      ReadyForever(cfg, log, i + 1, j, d.name);
    }
    DesiredExactly(log[k].spec);
    forall n: string | SoleRevision(log[k].spec, n) ensures ReadyAt(log, j, n) {
      assert RevisionRef(n, n) in DesiredRevisions(log[k].spec);
    }
  }

  lemma WrittenReady(cfg: Config, log: History, i: nat, name: string)
    requires i < |log| && log[i].StatusWrite? && IsReady(log[i].after.revisions, name)
    ensures ReadyAt(log, i + 1, name)
  {
    assert log[..i + 1] == log[..i] + [log[i]];
    SafeAppend(cfg, log[..i], log[i]);
  }

  /** In every reachable status the phase is the derived one, or nothing was ever derived. */
  lemma {:induction false} PhaseInvariant(cfg: Config, log: History, i: nat)
    requires Safe(cfg, log) && i <= |log| && LastStatus(log[..i]).Some?
    ensures PhaseOk(LastStatus(log[..i]).value)
    decreases i
  {
    var e, before := log[i - 1], log[..i - 1];
    assert log[..i] == before + [e];
    SafePrefix(cfg, log, i - 1);
    SafeAppend(cfg, before, e);
    match e {
      case Created(s) =>
      case StatusWrite(cause, old_, after) =>
        PhaseInvariant(cfg, log, i - 1);
        match cause {
          case RepoPass(m) => ApplyKeepsPhaseOk(m, old_);
          case EngineController => assert Own(after).phase == Own(old_).phase && Own(after).conditions == Own(old_).conditions;
        }
      case _ => PhaseInvariant(cfg, log, i - 1);
    }
  }

  /** Every download job is created in a pass, for a revision that the spec read last asks for,
      and after a status with an entry for it was stored.  If every discovery of that pass found
      node-bound storage, the claim was seen bound before, in the same pass, and the job is pinned
      to the node its volume names. */
  lemma JobsArePinned(cfg: Config, log: History, i: nat) returns (b: nat, k: nat)
    requires Safe(cfg, log) && i < |log| && log[i].JobCreated?
    ensures CurrentPass(log[..i], b) && LastSpecRead(log[..i], k)
    ensures exists d | d in DesiredRevisions(log[k].spec) :: d.name == log[i].revision
    ensures EntryStored(log[..i], log[i].revision)
    ensures OnlyNodeBound(log[..i], b) ==>
              exists c :: b < c < i && log[c].ClaimSeenBound?
                          && log[i].affinity == if log[c].node == "" then None else Some(log[c].node)
  {
    SafePrefix(cfg, log, i);
    var v := ViewOf(log[..i]);
    k := ViewMeans(log[..i]);
    b := v.start;
    if v.nodeBound {
      var n :| n in v.nodes && log[i].affinity == if n == "" then None else Some(n);
      var c :| b < c < i && log[..i][c] == ClaimSeenBound(n);
      assert log[c] == ClaimSeenBound(n);
    }
  }

  /** Jobs are deleted, the claim released and the operator's finalizer removed only by a pass
      whose own listing of the engines showed no reference. */
  lemma DeletionIsSafe(cfg: Config, log: History, i: nat) returns (b: nat)
    requires Safe(cfg, log) && i < |log| && (log[i].JobDeleted? || log[i].ClaimReleased? || log[i].FinalizerRemoved?)
    ensures CurrentPass(log[..i], b) && ListedClear(log[..i], b)
  {
    SafePrefix(cfg, log, i);
    ListedInPass(log[..i]);
    var _ := ViewMeans(log[..i]);
    b := ViewOf(log[..i]).start;
  }

  /** The controller changes a spec in one way only: it fills in a missing model name. */
  lemma SpecIsTheUsers(cfg: Config, log: History, i: nat)
    requires Safe(cfg, log) && i < |log| && log[i].SpecWritten?
    ensures log[i].was.modelName == "" && log[i].now == log[i].was.(modelName := cfg.repo)
  {
    SafePrefix(cfg, log, i);
  }

  lemma {:induction false} ListedInPass(log: History)
    ensures ViewOf(log).listed.Some? ==> ViewOf(log).spec.Some?
    decreases |log|
  {
    if log != [] {
      ListedInPass(log[..|log| - 1]);
    }
  }

  /** A job deleted outside deletion is the cleanup job of a revision that is wanted now. */
  lemma StaleJobsAreCleanups(cfg: Config, log: History, i: nat) returns (k: nat)
    requires Safe(cfg, log) && i < |log| && log[i].StaleJobDeleted?
    ensures LastSpecRead(log[..i], k)
    ensures exists d | d in DesiredRevisions(log[k].spec) :: log[i].job == CleanupJob(cfg, d.name)
  {
    SafePrefix(cfg, log, i);
    k := ViewMeans(log[..i]);
  }
}
