/** The pass's local copy of a repository.  Its revision entries are heap objects: a lookup hands
    out a pointer into the copy, so writing through it is seen by later lookups, while a freshly
    allocated entry is not part of the copy. */
module LocalCopy {
  import opened Common
  import opened Backend
  import opened Status
  import opened RepoWorld

  class Entry {
    var name: string
    var commit: string
    var status: Phase

    constructor (r: Revision)
      ensures Value() == r && name == r.name && commit == r.commit
    {
      name, commit, status := r.name, r.commit, r.status;
    }

    function Value(): Revision
      reads this
    {
      Revision(name, commit, status)
    }
  }

  function Values(es: seq<Entry>): (rs: seq<Revision>)
    reads es
    ensures |rs| == |es| && forall i | 0 <= i < |es| :: rs[i] == es[i].Value()
  {
    if es == [] then [] else [es[0].Value()] + Values(es[1..])
  }

  class Local {
    var version: nat
    var spec: Spec
    var finalizers: set<string>
    var deleting: bool
    var storage: Option<StorageStatus>
    var entries: seq<Entry>

    /** The entries are distinct objects. */
    ghost predicate Valid()
      reads this
    {
      forall i, j | 0 <= i < j < |entries| :: entries[i] != entries[j]
    }

    function Revisions(): seq<Revision>
      reads this, entries
    {
      Values(entries)
    }

    ghost predicate CopyOf(o: Repo)
      reads this, entries
    {
      && Valid() && version == o.version && spec == o.spec && finalizers == o.finalizers
      && deleting == o.deleting && storage == o.status.storage && Revisions() == o.status.revisions
    }

    constructor (o: Repo)
      ensures CopyOf(o) && fresh(entries)
    {
      version, spec, finalizers, deleting := o.version, o.spec, o.finalizers, o.deleting;
      storage := o.status.storage;
      entries := [];
      new;
      DecodeEntries(o.status.revisions);
    }

    /** Fresh entries for a decoded list. */
    method DecodeEntries(rs: seq<Revision>)
      modifies this`entries
      ensures Valid() && fresh(entries) && Revisions() == rs
    {
      var es: seq<Entry> := [];
      for i := 0 to |rs|
        invariant |es| == i && fresh(es)
        invariant forall j | 0 <= j < i :: es[j].Value() == rs[j]
        invariant forall j, k | 0 <= j < k < i :: es[j] != es[k]
      {
        var e := new Entry(rs[i]);
        es := es + [e];
      }
      entries := es;
      assert Revisions() == rs;
    }

    /** Decode the object again into this copy. */
    method Refresh(o: Repo)
      modifies this
      ensures CopyOf(o) && fresh(entries)
    {
      version, spec, finalizers, deleting := o.version, o.spec, o.finalizers, o.deleting;
      storage := o.status.storage;
      DecodeEntries(o.status.revisions);
    }

    /** A pointer to the first entry of the name, or null. */
    method FindRevisionStatus(name: string) returns (e: Entry?, ghost at: nat)
      ensures e == null <==> FindRevision(Revisions(), name).None?
      ensures e != null ==> at < |entries| && entries[at] == e && e.name == name
                            && forall j | 0 <= j < at :: entries[j].name != name
      ensures e != null ==> FindRevision(Revisions(), name) == Some(e.Value())
    {
      at := 0;
      for i := 0 to |entries|
        invariant forall j | 0 <= j < i :: entries[j].name != name
      {
        if entries[i].name == name {
          at := i;
          FoundAt(Revisions(), name, i);
          return entries[i], i;
        }
      }
      NotFoundIn(Revisions(), name);
      return null, 0;
    }
  }

  lemma {:induction false} FoundAt(rs: seq<Revision>, name: string, at: nat)
    requires at < |rs| && rs[at].name == name && forall j | 0 <= j < at :: rs[j].name != name
    ensures FindRevision(rs, name) == Some(rs[at])
    ensures forall r: Revision :: r.name == name ==> Put(rs, r) == rs[at := r]
  {
    if at > 0 {
      assert rs[0].name != name;
      FoundAt(rs[1..], name, at - 1);
      forall r: Revision | r.name == name ensures Put(rs, r) == rs[at := r] {
        assert [rs[0]] + rs[1..][at - 1 := r] == rs[at := r];
      }
    } else {
      forall r: Revision | r.name == name ensures Put(rs, r) == rs[at := r] {
        assert [r] + rs[1..] == rs[0 := r];
      }
    }
  }

  lemma {:induction false} NotFoundIn(rs: seq<Revision>, name: string)
    requires forall j | 0 <= j < |rs| :: rs[j].name != name
    ensures FindRevision(rs, name) == None
  {
  }

  /** Writing a status through a pointer into the copy is Put on the copy's list. */
  method SetStatus(l: Local, e: Entry, ghost at: nat, status: Phase)
    requires l.Valid() && at < |l.entries| && l.entries[at] == e
    requires forall j | 0 <= j < at :: l.entries[j].name != e.name
    modifies e
    ensures e.Value() == old(e.Value()).(status := status) && e.name == old(e.name) && e.commit == old(e.commit)
    ensures l.Revisions() == Put(old(l.Revisions()), e.Value())
  {
    FoundAt(l.Revisions(), e.name, at);
    e.status := status;
    assert l.Revisions() == old(l.Revisions())[at := e.Value()];
  }
}
