/** Go maps as heap objects.  Nested maps are held by reference, so merging and nesting
    move references around; ownership (Repr) says that nothing is ever shared. */
module ConfigHeap {
  import opened ConfigTree

  datatype Entry = Scalar(s: Scalar) | Sub(node: GoMap)

  /** The objects an entry owns. */
  ghost function EntryRepr(e: Entry): set<GoMap>
    reads if e.Sub? then {e.node} else {}
  {
    if e.Sub? then e.node.Repr else {}
  }

  ghost predicate EntryValid(e: Entry)
    reads if e.Sub? then {e.node} + e.node.Repr else {}
  {
    e.Sub? ==> e.node.Valid()
  }

  /** The pure value an entry stands for. */
  ghost function EntryModel(e: Entry): Value
    reads if e.Sub? then {e.node} else {}
  {
    match e case Scalar(s) => Leaf(s) case Sub(n) => Map(n.Model)
  }

  class GoMap {
    var entries: map<string, Entry>
    ghost var Model: Config        // the tree below this map
    ghost var Repr: set<GoMap>     // the maps it owns, itself included

    /** An unshared, acyclic tree of maps that represents Model. */
    ghost predicate Valid()
      reads this, Repr
      decreases Repr
    {
      && this in Repr
      && Model.Keys == entries.Keys
      && (forall k | k in entries && entries[k].Scalar? :: Model[k] == Leaf(entries[k].s))
      && (forall k | k in entries && entries[k].Sub? ::
            && entries[k].node in Repr
            && entries[k].node.Repr <= Repr
            && this !in entries[k].node.Repr
            && entries[k].node.Valid()
            && Model[k] == Map(entries[k].node.Model))
      && (forall j, k | j in entries && k in entries && j != k && entries[j].Sub? && entries[k].Sub? ::
            entries[j].node.Repr !! entries[k].node.Repr)
    }

    constructor ()
      ensures Valid() && Repr == {this}
      ensures Model == map[] && entries == map[]
    {
      entries, Model, Repr := map[], map[], {this};
    }

    /** m[k] = e, held by reference. */
    method Put(k: string, e: Entry)
      requires Valid() && EntryValid(e) && EntryRepr(e) !! Repr
      modifies this
      ensures Valid() && Model == old(Model)[k := old(EntryModel(e))]
      ensures entries == old(entries)[k := e]
      ensures Repr == old(Repr) + old(EntryRepr(e))
    {
      Model := Model[k := EntryModel(e)];
      Repr := Repr + EntryRepr(e);
      entries := entries[k := e];
    }

    method PutScalar(k: string, s: Scalar)
      requires Valid()
      modifies this
      ensures Valid() && Model == old(Model)[k := Leaf(s)] && Repr == old(Repr)
    {
      Put(k, Scalar(s));
    }

    /** Merge src into the map stored under k. */
    method MergeChild(k: string, src: GoMap)
      requires Valid() && k in entries && entries[k].Sub?
      requires src.Valid() && src.Repr !! Repr
      modifies `Repr, `Model, entries[k].node.Repr
      ensures Valid() && entries == old(entries)
      ensures Model == old(Model)[k := Map(Merge(old(entries[k].node.Model), old(src.Model)))]
      ensures old(Repr) <= Repr <= old(Repr) + old(src.Repr)
      decreases src.Repr, 1
    {
      var child := entries[k].node;
      Model := Model[k := Map(Merge(child.Model, src.Model))];
      Repr := Repr + src.Repr;
      RecursiveMerge(child, src);
      forall j | j in entries && j != k && entries[j].Sub?
        ensures entries[j].node.Repr == old(entries[j].node.Repr) && entries[j].node.Repr !! child.Repr
        ensures entries[j].node.Valid() && entries[j].node.Model == old(entries[j].node.Model)
      {
        ghost var sibling := entries[j].node;
        assert old(sibling.Repr) !! old(child.Repr);
        assert unchanged(sibling) && unchanged(old(sibling.Repr));
      }
    }
  }

  /** dst[k] after a merge in which src holds v under k. */
  ghost function MergedAt(d: Config, k: string, v: Value): Value {
    if k in d then MergeValue(d[k], v) else v
  }

  /** The merge of s into d, but for the keys in todo. */
  ghost function MergeBut(d: Config, s: Config, todo: set<string>): Config {
    map k | k in d.Keys + (s.Keys - todo) :: if k in todo then d[k] else Merge(d, s)[k]
  }

  lemma MergeButAll(d: Config, s: Config)
    ensures MergeBut(d, s, s.Keys) == d && MergeBut(d, s, {}) == Merge(d, s)
  {
  }

  lemma MergeButOne(d: Config, s: Config, todo: set<string>, k: string)
    requires k in todo && todo <= s.Keys
    ensures MergeBut(d, s, todo - {k}) ==
            MergeBut(d, s, todo)[k := MergedAt(MergeBut(d, s, todo), k, s[k])]
  {
  }

  // Nothing still to be merged is owned by R.
  ghost predicate Apart(owned: map<string, set<GoMap>>, todo: set<string>, R: set<GoMap>) {
    forall k | k in todo && k in owned :: owned[k] !! R
  }

  lemma ApartStep(owned: map<string, set<GoMap>>, todo: set<string>, k: string, R: set<GoMap>, R': set<GoMap>)
    requires k in owned && Apart(owned, todo, R) && R' <= R + owned[k]
    requires forall j | j in owned && j != k :: owned[j] !! owned[k]
    ensures Apart(owned, todo - {k}, R')
  {
  }

  /** The in-place merge.  Keys come in any order.  Only dst's own maps are written; dst then
      also owns the maps it took over from src. */
  method RecursiveMerge(dst: GoMap, src: GoMap)
    requires dst.Valid() && src.Valid() && dst.Repr !! src.Repr
    modifies dst.Repr
    ensures dst.Valid() && dst.Model == Merge(old(dst.Model), old(src.Model))
    ensures old(dst.Repr) <= dst.Repr <= old(dst.Repr) + src.Repr
    decreases src.Repr, 0
  {
    hide Merge, MergeBut, MergedAt;
    ghost var D, S := dst.Model, src.Model;
    ghost var owned := Holdings(src);
    ghost var mine := Holdings(dst);
    var todo := src.entries.Keys;
    MergeButAll(D, S);
    while todo != {}
      invariant todo <= owned.Keys
      invariant unchanged(src) && unchanged(src.Repr)
      invariant dst.Valid()
      invariant Apart(owned, todo, dst.Repr)
      invariant old(dst.Repr) <= dst.Repr <= old(dst.Repr) + src.Repr
      invariant forall k | k in todo && k in dst.entries :: k in mine && EntryRepr(dst.entries[k]) == mine[k]
      invariant dst.Model == MergeBut(D, S, todo)
      decreases todo
    {
      var k :| k in todo;

      MergeButOne(D, S, todo, k);
      ghost var before := dst.Repr;
      MergeKey(dst, k, src.entries[k]);
      ApartStep(owned, todo, k, before, dst.Repr);
      todo := todo - {k};
    }
  }

  // What each entry of a map owns.
  lemma Holdings(m: GoMap) returns (owned: map<string, set<GoMap>>)
    requires m.Valid()
    ensures owned.Keys == m.entries.Keys
    ensures forall k | k in owned :: owned[k] == EntryRepr(m.entries[k]) && owned[k] <= m.Repr
    ensures forall j, k | j in owned && k in owned && j != k :: owned[j] !! owned[k]
  {
    owned := map k | k in m.entries :: EntryRepr(m.entries[k]);
  }

  /** One turn of the merge loop: the value v that src holds under k. */
  method MergeKey(dst: GoMap, k: string, v: Entry)
    requires dst.Valid() && EntryValid(v) && EntryRepr(v) !! dst.Repr
    modifies dst, if k in dst.entries then EntryRepr(dst.entries[k]) else {}
    ensures dst.Valid()
    ensures dst.Model == old(dst.Model)[k := MergedAt(old(dst.Model), k, old(EntryModel(v)))]
    ensures old(dst.Repr) <= dst.Repr <= old(dst.Repr) + old(EntryRepr(v))
    ensures dst.entries.Keys == old(dst.entries.Keys) + {k}
    ensures forall j | j in dst.entries && j != k :: EntryRepr(dst.entries[j]) == old(EntryRepr(dst.entries[j]))
    decreases EntryRepr(v), 2
  {
    if k in dst.entries && dst.entries[k].Sub? && v.Sub? {
      dst.MergeChild(k, v.node);
    } else {
      dst.Put(k, v);
    }
  }

  /** A freshly allocated tree for a decoded value: what the JSON decoder hands over. */
  method Allocate(v: Value) returns (e: Entry)
    ensures EntryValid(e) && EntryModel(e) == v && fresh(EntryRepr(e))
    decreases v
  {
    if v.Leaf? {
      return Scalar(v.s);
    }
    var m := new GoMap();
    var todo := v.m.Keys;
    while todo != {}
      invariant todo <= v.m.Keys
      invariant m.Valid() && fresh(m.Repr)
      invariant m.Model == map k | k in v.m.Keys - todo :: v.m[k]
      decreases todo
    {
      var k :| k in todo;
      var c := Allocate(v.m[k]);
      m.Put(k, c);
      todo := todo - {k};
    }
    assert m.Model == v.m;
    return Sub(m);
  }

  /** The nested map for a key path, built from the innermost level outward; nil for no keys. */
  method CreateNestedMap(keys: Path, e: Entry) returns (m: GoMap?)
    requires EntryValid(e)
    ensures keys == [] <==> m == null
    ensures m != null ==> m.Valid() && Map(m.Model) == Nest(keys, old(EntryModel(e)))
    ensures m != null ==> fresh(m.Repr - old(EntryRepr(e)))
  {
    if |keys| == 0 {
      return null;
    }
    var result := e;
    var i := |keys|;
    while i > 0
      invariant 0 <= i <= |keys|
      invariant i < |keys| ==> result.Sub?
      invariant EntryValid(result) && EntryModel(result) == Nest(keys[i..], old(EntryModel(e)))
      invariant fresh(EntryRepr(result) - old(EntryRepr(e)))
    {
      i := i - 1;
      m := new GoMap();
      assert keys[i..][1..] == keys[i + 1..];
      m.Put(keys[i], result);
      result := Sub(m);
    }
    assert keys[0..] == keys;
    m := result.node;
  }
}
