/** Deleting an engine tears its storage pairs down one after the other, whatever fails on the way:
    which objects the operator still holds in the end, exactly. */
module EngineTeardown {
  import opened StoragePair

  /** The fault sets of the successive teardowns. */
  type Faults = seq<set<CleanupCall>>

  function NoFaults(n: nat): Faults { seq(n, _ => {}) }

  /** The pairs of the given names torn down in order. */
  function CleanedWith(namespace: string, names: seq<string>, faults: Faults, s: Store): Store
    requires |faults| == |names|
  {
    if names == [] then s
    else
      var n := |names| - 1;
      Cleaned((namespace, names[n]), names[n], CleanedWith(namespace, names[..n], faults[..n], s), faults[n]).1
  }

  /** Objects outside the named pairs are untouched. */
  lemma {:induction false} TeardownFrame(namespace: string, names: seq<string>, faults: Faults, s: Store, key: Key, name: string)
    requires |faults| == |names| && key !in set n | n in names :: (namespace, n)
    requires name !in names
    ensures var t := CleanedWith(namespace, names, faults, s);
            && (key in t.pvcs <==> key in s.pvcs) && (key in s.pvcs ==> t.pvcs[key] == s.pvcs[key])
            && (name in t.pvs <==> name in s.pvs) && (name in s.pvs ==> t.pvs[name] == s.pvs[name])
    decreases |names|
  {
    if names != [] {
      var n := |names| - 1;
      TeardownFrame(namespace, names[..n], faults[..n], s, key, name);
      CleanupLeavesOthers((namespace, names[n]), names[n], CleanedWith(namespace, names[..n], faults[..n], s), faults[n], key, name);
    }
  }

  // ---------------------------------------------------------------- one teardown, object by object

  /** The operator's finalizer comes off. */
  predicate ClaimUnprotected(fails: set<CleanupCall>) { ReadPVC !in fails && UpdatePVC !in fails }

  predicate VolumeUnprotected(fails: set<CleanupCall>) { ReadPV !in fails && UpdatePV !in fails }

  /** And the object is on its way out. */
  predicate ClaimGoes(m: Meta, fails: set<CleanupCall>) { ClaimUnprotected(fails) && (DeletePVC !in fails || m.deleting) }

  predicate VolumeGoes(m: Meta, fails: set<CleanupCall>) { VolumeUnprotected(fails) && (DeletePV !in fails || m.deleting) }

  /** The claim's part goes well, so that the volume's turn comes. */
  predicate ClaimPasses(absent: bool, fails: set<CleanupCall>) {
    ReadPVC in fails || absent || (UpdatePVC !in fails && DeletePVC !in fails)
  }

  /** Nobody but the operator holds the object. */
  predicate Unheld(m: Meta) { m.finalizers - {FINALIZER} == {} }

  /** The record after a number of teardowns: what it was, without the operator's finalizer once it
      came off, and being deleted once it was on its way out. */
  predicate Worn(before: Meta, after: Meta, unprotected: bool, goes: bool) {
    && after.finalizers == (if unprotected then before.finalizers - {FINALIZER} else before.finalizers)
    && (after.deleting <==> before.deleting || goes)
  }

  lemma ClaimStep(s: Store, key: Key, name: string, fails: set<CleanupCall>)
    ensures var t := Cleaned(key, name, s, fails).1;
            && (key in t.pvcs <==> key in s.pvcs && !(Unheld(s.pvcs[key].meta) && ClaimGoes(s.pvcs[key].meta, fails)))
            && (key in t.pvcs ==>
                  Worn(s.pvcs[key].meta, t.pvcs[key].meta, ClaimUnprotected(fails), ClaimGoes(s.pvcs[key].meta, fails)))
  {
  }

  lemma VolumeStep(s: Store, key: Key, name: string, fails: set<CleanupCall>)
    ensures var t := Cleaned(key, name, s, fails).1;
            var passes := ClaimPasses(key !in s.pvcs, fails);
            && (name in t.pvs <==> name in s.pvs && !(passes && Unheld(s.pvs[name].meta) && VolumeGoes(s.pvs[name].meta, fails)))
            && (name in t.pvs ==>
                  Worn(s.pvs[name].meta, t.pvs[name].meta,
                       passes && VolumeUnprotected(fails), passes && VolumeGoes(s.pvs[name].meta, fails)))
  {
  }

  // ---------------------------------------------------------------- a whole teardown

  /** Among the first n turns, one for this name takes the claim on its way. */
  predicate ClaimTurn(names: seq<string>, faults: Faults, n: nat, name: string, m: Meta)
    requires n <= |names| == |faults|
  {
    exists j | 0 <= j < n :: names[j] == name && ClaimGoes(m, faults[j])
  }

  predicate ClaimBared(names: seq<string>, faults: Faults, n: nat, name: string)
    requires n <= |names| == |faults|
  {
    exists j | 0 <= j < n :: names[j] == name && ClaimUnprotected(faults[j])
  }

  /** After the first n turns there is no claim of this name. */
  predicate ClaimGone(namespace: string, names: seq<string>, faults: Faults, n: nat, s: Store, name: string)
    requires n <= |names| == |faults|
  {
    var key := (namespace, name);
    key !in s.pvcs || (Unheld(s.pvcs[key].meta) && ClaimTurn(names, faults, n, name, s.pvcs[key].meta))
  }

  /** Turn j reaches the volume. */
  predicate Reaches(namespace: string, names: seq<string>, faults: Faults, j: nat, s: Store, name: string)
    requires j < |names| == |faults|
  {
    names[j] == name && ClaimPasses(ClaimGone(namespace, names, faults, j, s, name), faults[j])
  }

  predicate VolumeTurn(namespace: string, names: seq<string>, faults: Faults, n: nat, s: Store, name: string, m: Meta)
    requires n <= |names| == |faults|
  {
    exists j | 0 <= j < n :: Reaches(namespace, names, faults, j, s, name) && VolumeGoes(m, faults[j])
  }

  predicate VolumeBared(namespace: string, names: seq<string>, faults: Faults, n: nat, s: Store, name: string)
    requires n <= |names| == |faults|
  {
    exists j | 0 <= j < n :: Reaches(namespace, names, faults, j, s, name) && VolumeUnprotected(faults[j])
  }

  /** The store after the first n turns. */
  function After(namespace: string, names: seq<string>, faults: Faults, n: nat, s: Store): Store
    requires n <= |names| == |faults|
  {
    CleanedWith(namespace, names[..n], faults[..n], s)
  }

  lemma AfterNext(namespace: string, names: seq<string>, faults: Faults, n: nat, s: Store)
    requires n < |names| == |faults|
    ensures After(namespace, names, faults, 0, s) == s
    ensures After(namespace, names, faults, n + 1, s) ==
            Cleaned((namespace, names[n]), names[n], After(namespace, names, faults, n, s), faults[n]).1
  {
    assert names[..n + 1][..n] == names[..n] && faults[..n + 1][..n] == faults[..n];
  }

  lemma TurnsNext(names: seq<string>, faults: Faults, n: nat, name: string, m: Meta)
    requires n < |names| == |faults|
    ensures ClaimTurn(names, faults, n + 1, name, m) <==>
            ClaimTurn(names, faults, n, name, m) || (names[n] == name && ClaimGoes(m, faults[n]))
    ensures ClaimBared(names, faults, n + 1, name) <==>
            ClaimBared(names, faults, n, name) || (names[n] == name && ClaimUnprotected(faults[n]))
  {
  }

  // One more turn, on the record as earlier turns left it.
  lemma WornMore(a: Meta, b: Meta, c: Meta, bared: bool, went: bool, fails: set<CleanupCall>)
    requires Worn(a, b, bared, went)
    ensures Unheld(b) <==> Unheld(a)
    ensures went || ClaimGoes(b, fails) <==> went || ClaimGoes(a, fails)
    ensures went || VolumeGoes(b, fails) <==> went || VolumeGoes(a, fails)
    ensures Worn(b, c, ClaimUnprotected(fails), ClaimGoes(b, fails)) ==>
              Worn(a, c, bared || ClaimUnprotected(fails), went || ClaimGoes(a, fails))
    ensures Worn(b, c, VolumeUnprotected(fails), VolumeGoes(b, fails)) ==>
              Worn(a, c, bared || VolumeUnprotected(fails), went || VolumeGoes(a, fails))
  {
  }

  lemma SameAfterOthers(namespace: string, other: string, s: Store, fails: set<CleanupCall>, name: string)
    requires other != name
    ensures var key, t := (namespace, name), Cleaned((namespace, other), other, s, fails).1;
            && (key in t.pvcs <==> key in s.pvcs) && (key in s.pvcs ==> t.pvcs[key] == s.pvcs[key])
            && (name in t.pvs <==> name in s.pvs) && (name in s.pvs ==> t.pvs[name] == s.pvs[name])
  {
    CleanupLeavesOthers((namespace, other), other, s, fails, (namespace, name), name);
  }

  /** What became of the claim after n turns. */
  predicate ClaimIs(namespace: string, names: seq<string>, faults: Faults, n: nat, s: Store, name: string, t: Store)
    requires n <= |names| == |faults|
  {
    var key := (namespace, name);
    && (key !in t.pvcs <==> ClaimGone(namespace, names, faults, n, s, name))
    && (key in t.pvcs ==>
          && key in s.pvcs
          && Worn(s.pvcs[key].meta, t.pvcs[key].meta, ClaimBared(names, faults, n, name),
                  ClaimTurn(names, faults, n, name, s.pvcs[key].meta)))
  }

  lemma ClaimNext(namespace: string, names: seq<string>, faults: Faults, n: nat, s: Store, name: string, b: Store, t: Store)
    requires n < |names| == |faults| && ClaimIs(namespace, names, faults, n, s, name, b)
    requires t == Cleaned((namespace, names[n]), names[n], b, faults[n]).1
    ensures ClaimIs(namespace, names, faults, n + 1, s, name, t)
  {
    hide Cleaned, ClaimTurn, ClaimBared, Worn, Unheld, ClaimGoes, ClaimUnprotected;
    var key := (namespace, name);
    if key in s.pvcs {
      TurnsNext(names, faults, n, name, s.pvcs[key].meta);
    }
    if names[n] == name {
      ClaimStep(b, key, name, faults[n]);
      if key in b.pvcs {
        WornMore(s.pvcs[key].meta, b.pvcs[key].meta, if key in t.pvcs then t.pvcs[key].meta else b.pvcs[key].meta,
                 ClaimBared(names, faults, n, name), ClaimTurn(names, faults, n, name, s.pvcs[key].meta), faults[n]);
      }
    } else {
      SameAfterOthers(namespace, names[n], b, faults[n], name);
    }
  }

  lemma {:induction false} ClaimAfter(namespace: string, names: seq<string>, faults: Faults, n: nat, s: Store, name: string)
    requires n <= |names| == |faults|
    ensures ClaimIs(namespace, names, faults, n, s, name, After(namespace, names, faults, n, s))
  {
    if n > 0 {
      hide *;
      ClaimAfter(namespace, names, faults, n - 1, s, name);
      AfterNext(namespace, names, faults, n - 1, s);
      ClaimNext(namespace, names, faults, n - 1, s, name,
                After(namespace, names, faults, n - 1, s), After(namespace, names, faults, n, s));
    }
  }

  // And the same for the volume, whose turns are those that the claim lets through.

  lemma VolumeTurnsNext(namespace: string, names: seq<string>, faults: Faults, n: nat, s: Store, name: string, m: Meta)
    requires n < |names| == |faults|
    ensures VolumeTurn(namespace, names, faults, n + 1, s, name, m) <==>
            || VolumeTurn(namespace, names, faults, n, s, name, m)
            || (Reaches(namespace, names, faults, n, s, name) && VolumeGoes(m, faults[n]))
    ensures VolumeBared(namespace, names, faults, n + 1, s, name) <==>
            || VolumeBared(namespace, names, faults, n, s, name)
            || (Reaches(namespace, names, faults, n, s, name) && VolumeUnprotected(faults[n]))
  {
  }

  /** What became of the volume after n turns. */
  predicate VolumeIs(namespace: string, names: seq<string>, faults: Faults, n: nat, s: Store, name: string, t: Store)
    requires n <= |names| == |faults|
  {
    && (name !in t.pvs <==>
          || name !in s.pvs
          || (Unheld(s.pvs[name].meta) && VolumeTurn(namespace, names, faults, n, s, name, s.pvs[name].meta)))
    && (name in t.pvs ==>
          && name in s.pvs
          && Worn(s.pvs[name].meta, t.pvs[name].meta, VolumeBared(namespace, names, faults, n, s, name),
                  VolumeTurn(namespace, names, faults, n, s, name, s.pvs[name].meta)))
  }

  lemma VolumeNext(namespace: string, names: seq<string>, faults: Faults, n: nat, s: Store, name: string, b: Store, t: Store)
    requires n < |names| == |faults| && VolumeIs(namespace, names, faults, n, s, name, b)
    requires ClaimIs(namespace, names, faults, n, s, name, b)
    requires t == Cleaned((namespace, names[n]), names[n], b, faults[n]).1
    ensures VolumeIs(namespace, names, faults, n + 1, s, name, t)
  {
    hide Cleaned, VolumeTurn, VolumeBared, Worn, Unheld, VolumeGoes, VolumeUnprotected, ClaimGone, ClaimTurn, ClaimBared;
    if name in s.pvs {
      VolumeTurnsNext(namespace, names, faults, n, s, name, s.pvs[name].meta);
    }
    if names[n] == name {
      VolumeStep(b, (namespace, name), name, faults[n]);
      if name in b.pvs {
        WornMore(s.pvs[name].meta, b.pvs[name].meta, if name in t.pvs then t.pvs[name].meta else b.pvs[name].meta,
                 VolumeBared(namespace, names, faults, n, s, name),
                 VolumeTurn(namespace, names, faults, n, s, name, s.pvs[name].meta), faults[n]);
        SameWorn(b.pvs[name].meta, if name in t.pvs then t.pvs[name].meta else b.pvs[name].meta,
                 s.pvs[name].meta, VolumeBared(namespace, names, faults, n, s, name),
                 VolumeTurn(namespace, names, faults, n, s, name, s.pvs[name].meta));
      }
    } else {
      SameAfterOthers(namespace, names[n], b, faults[n], name);
    }
  }

  lemma SameWorn(b: Meta, c: Meta, a: Meta, bared: bool, went: bool)
    ensures Worn(b, c, false, false) && Worn(a, b, bared, went) ==> Worn(a, c, bared, went)
  {
  }

  lemma {:induction false} VolumeAfter(namespace: string, names: seq<string>, faults: Faults, n: nat, s: Store, name: string)
    requires n <= |names| == |faults|
    ensures VolumeIs(namespace, names, faults, n, s, name, After(namespace, names, faults, n, s))
  {
    if n > 0 {
      hide *;
      VolumeAfter(namespace, names, faults, n - 1, s, name);
      ClaimAfter(namespace, names, faults, n - 1, s, name);
      AfterNext(namespace, names, faults, n - 1, s);
      VolumeNext(namespace, names, faults, n - 1, s, name,
                 After(namespace, names, faults, n - 1, s), After(namespace, names, faults, n, s));
    }
  }

  // ---------------------------------------------------------------- what is left behind

  lemma WornReleased(a: Meta, b: Meta, bared: bool, went: bool)
    requires Worn(a, b, bared, went) && (went ==> bared) && (bared && a.deleting ==> went)
    ensures Released(b) <==> Released(a) || went
  {
  }

  /** Under any faults, for any list of names, repeated ones included: exactly when the operator no
      longer holds an object.  The claim: some turn for its name could read and update it, and
      could delete it or found it being deleted already.  The volume: the same, in a turn in which
      the claim was taken for absent, was gone after the earlier turns, or went through. */
  lemma LeftBehindExactly(namespace: string, names: seq<string>, faults: Faults, s: Store, name: string)
    requires |faults| == |names|
    ensures var key, n, t := (namespace, name), |names|, CleanedWith(namespace, names, faults, s);
            && ((key in t.pvcs ==> Released(t.pvcs[key].meta)) <==>
                  || key !in s.pvcs || Released(s.pvcs[key].meta)
                  || ClaimTurn(names, faults, n, name, s.pvcs[key].meta))
            && ((name in t.pvs ==> Released(t.pvs[name].meta)) <==>
                  || name !in s.pvs || Released(s.pvs[name].meta)
                  || VolumeTurn(namespace, names, faults, n, s, name, s.pvs[name].meta))
  {
    var key, n, t := (namespace, name), |names|, CleanedWith(namespace, names, faults, s);
    assert names[..n] == names && faults[..n] == faults;
    assert After(namespace, names, faults, n, s) == t;
    ClaimAfter(namespace, names, faults, n, s, name);
    VolumeAfter(namespace, names, faults, n, s, name);
    hide CleanedWith, After, Released, Worn;
    if key in t.pvcs {
      WornReleased(s.pvcs[key].meta, t.pvcs[key].meta,
                   ClaimBared(names, faults, n, name), ClaimTurn(names, faults, n, name, s.pvcs[key].meta));
    }
    if name in t.pvs {
      WornReleased(s.pvs[name].meta, t.pvs[name].meta, VolumeBared(namespace, names, faults, n, s, name),
                   VolumeTurn(namespace, names, faults, n, s, name, s.pvs[name].meta));
    }
  }

  /** Without faults both objects of every named pair are released. */
  lemma AllReleased(namespace: string, names: seq<string>, s: Store, name: string)
    requires name in names
    ensures PairReleased(CleanedWith(namespace, names, NoFaults(|names|), s), (namespace, name), name)
  {
    var faults := NoFaults(|names|);
    LeftBehindExactly(namespace, names, faults, s, name);
    var j :| 0 <= j < |names| && names[j] == name;
    assert faults[j] == {};
    assert Reaches(namespace, names, faults, j, s, name);
  }

  /** A claim whose update fails keeps its pair as it was, volume included, and the deletion of the
      engine goes on all the same. */
  lemma FailedUpdateLeavesPair(namespace: string, name: string, s: Store)
    requires (namespace, name) in s.pvcs
    ensures CleanedWith(namespace, [name], [{UpdatePVC}], s) == s
  {
    assert CleanedWith(namespace, [name][..0], [{UpdatePVC}][..0], s) == s;
  }
}
