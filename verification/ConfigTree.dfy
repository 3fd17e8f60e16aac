/** Configuration values as pure trees: the deep merge, what a path finds in a merge,
    and the algebra of merging.  The heap version in ConfigHeap.dfy is proved to compute
    exactly these functions. */
module ConfigTree {
  import opened Common

  /** Everything the compiler never merges into.  JSON arrays count as scalars: the code
      replaces them whole, whatever they contain. */
  datatype Scalar =
    | Null
    | Bool(b: bool)
    | Int(i: int)
    | Float(r: real)
    | Str(s: string)
    | Array(items: seq<Value>)

  datatype Value = Leaf(s: Scalar) | Map(m: Config)

  type Config = map<string, Value>
  type Path = seq<string>

  // ---------------------------------------------------------------- merge

  /** Right-biased deep merge of two maps. */
  function Merge(dst: Config, src: Config): Config
    decreases Map(src), 0
  {
    map k | k in dst.Keys + src.Keys ::
      if k !in src then dst[k] else if k in dst then MergeValue(dst[k], src[k]) else src[k]
  }

  function MergeValue(d: Value, s: Value): Value
    decreases s, 1
  {
    if d.Map? && s.Map? then Map(Merge(d.m, s.m)) else s
  }

  // ---------------------------------------------------------------- lookup

  function Lookup(v: Value, p: Path): Option<Value>
  {
    if p == [] then Some(v)
    else if v.Map? && p[0] in v.m then Lookup(v.m[p[0]], p[1..])
    else None
  }

  /** A proper prefix of p is a scalar in v, so v hides whatever lies below it. */
  predicate Blocks(v: Value, p: Path)
  {
    p != [] && (v.Leaf? || (p[0] in v.m && Blocks(v.m[p[0]], p[1..])))
  }

  /** What a path finds in a merge, in terms of what it finds in the two arguments:
      this determines the merge completely, without mentioning how it is computed. */
  lemma {:induction false} LookupMerge(d: Value, s: Value, p: Path)
    ensures Lookup(MergeValue(d, s), p) ==
            match Lookup(s, p)
            case Some(sv) =>
              (match Lookup(d, p)
               case Some(dv) => Some(MergeValue(dv, sv))
               case None => Some(sv))
            case None => if Blocks(s, p) then None else Lookup(d, p)
    decreases p
  {
    if p != [] && d.Map? && s.Map? && p[0] in d.m && p[0] in s.m {
      LookupMerge(d.m[p[0]], s.m[p[0]], p[1..]);
    } else if p != [] && s.Map? && p[0] in s.m {
      LookupSomeOrBlocked(s.m[p[0]], p[1..]);
      if d.Map? {
        assert p[0] !in d.m;
      }
      SelfLookup(d, s, p);
    }
  }

  // The case where d has nothing under the first key of p: the merge there is s alone.
  lemma SelfLookup(d: Value, s: Value, p: Path)
    requires p != [] && s.Map? && p[0] in s.m && (d.Map? ==> p[0] !in d.m)
    ensures Lookup(MergeValue(d, s), p) == Lookup(s, p)
    ensures Lookup(d, p) == None
  {
  }

  lemma LookupSomeOrBlocked(v: Value, p: Path)
    ensures Lookup(v, p).Some? ==> !Blocks(v, p)
  {
  }

  // ---------------------------------------------------------------- assignment paths

  /** The paths a value assigns: those ending in a scalar or in an empty map. */
  predicate Assigns(v: Value, p: Path)
  {
    var at := Lookup(v, p);
    at.Some? && (at.value.Leaf? || at.value.m == map[])
  }

  predicate Comparable(p: Path, q: Path) { p <= q || q <= p }

  /** v assigns nothing at, above or below p. */
  ghost predicate Avoids(v: Value, p: Path)
  {
    forall q: Path :: Assigns(v, q) ==> !Comparable(p, q)
  }

  lemma {:induction false} LookupSplit(v: Value, p: Path, q: Path)
    ensures Lookup(v, p + q) ==
            match Lookup(v, p) case None => None case Some(w) => Lookup(w, q)
    decreases p
  {
    if p == [] {
      assert p + q == q;
    } else {
      assert (p + q)[1..] == p[1..] + q;
      if v.Map? && p[0] in v.m {
        LookupSplit(v.m[p[0]], p[1..], q);
      }
    }
  }

  /** Every value assigns something: follow any key until a scalar or an empty map. */
  lemma {:induction false} SomePathAssigned(v: Value) returns (q: Path)
    ensures Assigns(v, q)
    decreases v
  {
    if v.Leaf? || v.m == map[] {
      q := [];
    } else {
      var k :| k in v.m;
      var rest := SomePathAssigned(v.m[k]);
      q := [k] + rest;
      assert q[1..] == rest;
    }
  }

  // A value that hides p, or has something at p, assigns a path comparable with p.
  lemma {:induction false} ReachAssigns(v: Value, p: Path) returns (q: Path)
    requires Blocks(v, p) || Lookup(v, p).Some?
    ensures Assigns(v, q) && Comparable(p, q)
    decreases p
  {
    if p == [] || v.Leaf? {
      q := SomePathAssigned(v);
    } else {
      var rest := ReachAssigns(v.m[p[0]], p[1..]);
      q := [p[0]] + rest;
      assert q[1..] == rest;
      assert p == [p[0]] + p[1..];
    }
  }

  /** Frame of one merge: a path that s avoids finds afterwards what it found before. */
  lemma MergeFrame(d: Value, s: Value, p: Path)
    requires Avoids(s, p)
    ensures Lookup(MergeValue(d, s), p) == Lookup(d, p)
  {
    LookupMerge(d, s, p);
    if Blocks(s, p) || Lookup(s, p).Some? {
      var q := ReachAssigns(s, p);
      assert false;
    }
  }

  /** A scalar that s holds at p is what the merge holds at p. */
  lemma MergeWrites(d: Value, s: Value, p: Path)
    requires Lookup(s, p).Some? && Lookup(s, p).value.Leaf?
    ensures Lookup(MergeValue(d, s), p) == Lookup(s, p)
  {
    LookupMerge(d, s, p);
  }

  // ---------------------------------------------------------------- one-path trees

  /** The tree holding v at the single path keys. */
  function Nest(keys: Path, v: Value): Value
  {
    if keys == [] then v else Map(map[keys[0] := Nest(keys[1..], v)])
  }

  /** A one-path tree assigns exactly the extensions of its path by what v assigns. */
  lemma {:induction false} NestAssigns(keys: Path, v: Value, q: Path)
    ensures Assigns(Nest(keys, v), q) <==> keys <= q && Assigns(v, q[|keys|..])
    decreases keys
  {
    if keys == [] {
      assert q[0..] == q;
    } else if q == [] {
      assert keys[0] in Nest(keys, v).m;
    } else if q[0] == keys[0] {
      NestAssigns(keys[1..], v, q[1..]);
      assert keys == [keys[0]] + keys[1..] && q == [q[0]] + q[1..];
      if keys <= q {
        assert q[1..][|keys[1..]|..] == q[|keys|..];
      }
    }
  }

  lemma {:induction false} LookupNest(keys: Path, v: Value)
    ensures Lookup(Nest(keys, v), keys) == Some(v)
    decreases keys
  {
    if keys != [] {
      LookupNest(keys[1..], v);
    }
  }

  // ---------------------------------------------------------------- algebra

  lemma {:induction false} MergeIdempotent(a: Value)
    ensures MergeValue(a, a) == a
    decreases a
  {
    if a.Map? {
      forall k | k in a.m ensures MergeValue(a.m[k], a.m[k]) == a.m[k] {
        MergeIdempotent(a.m[k]);
      }
      assert Merge(a.m, a.m) == a.m;
    }
  }

  /** c has, as a map, everything that a merge into a would keep from a. */
  predicate Covers(c: Value, a: Value)
  {
    c.Map? && a.Map? ==> forall k | k in a.m :: k in c.m && Covers(c.m[k], a.m[k])
  }

  /** Merging c over a gives c back exactly when c covers a. */
  lemma {:induction false} MergeAbsorbs(a: Value, c: Value)
    ensures MergeValue(a, c) == c <==> Covers(c, a)
    decreases c
  {
    if a.Map? && c.Map? {
      forall k | k in a.m && k in c.m
        ensures MergeValue(a.m[k], c.m[k]) == c.m[k] <==> Covers(c.m[k], a.m[k])
      {
        MergeAbsorbs(a.m[k], c.m[k]);
      }
      var r := Merge(a.m, c.m);
      if Covers(c, a) {
        assert r == c.m;
      } else {
        var k :| k in a.m && !(k in c.m && Covers(c.m[k], a.m[k]));
        assert k in r;
        if k in c.m {
          assert r[k] == MergeValue(a.m[k], c.m[k]);
        }
      }
    }
  }

  /** A second merge of the same source changes nothing. */
  lemma {:induction false} MergeTwice(a: Value, b: Value)
    ensures MergeValue(MergeValue(a, b), b) == MergeValue(a, b)
    decreases b
  {
    if a.Map? && b.Map? {
      forall k | k in a.m && k in b.m
        ensures MergeValue(MergeValue(a.m[k], b.m[k]), b.m[k]) == MergeValue(a.m[k], b.m[k])
      {
        MergeTwice(a.m[k], b.m[k]);
      }
      forall k | k in b.m ensures MergeValue(b.m[k], b.m[k]) == b.m[k] {
        MergeIdempotent(b.m[k]);
      }
      assert Merge(Merge(a.m, b.m), b.m) == Merge(a.m, b.m);
    } else {
      MergeIdempotent(b);
    }
  }

  /** The one way a regrouping can matter: somewhere b is a scalar between two maps, and the
      map of c there does not cover the map of a (grouping to the left drops a's part). */
  predicate Regroups(a: Value, b: Value, c: Value)
  {
    if a.Map? && b.Leaf? && c.Map? then Covers(c, a)
    else if a.Map? && b.Map? && c.Map? then
      forall k | k in a.m && k in b.m && k in c.m :: Regroups(a.m[k], b.m[k], c.m[k])
    else true
  }

  /** Associativity, exactly. */
  lemma {:induction false} MergeAssociates(a: Value, b: Value, c: Value)
    ensures MergeValue(MergeValue(a, b), c) == MergeValue(a, MergeValue(b, c))
            <==> Regroups(a, b, c)
    decreases c
  {
    if a.Map? && b.Leaf? && c.Map? {
      MergeAbsorbs(a, c);
    } else if a.Map? && b.Map? && c.Map? {
      var l, r := Merge(Merge(a.m, b.m), c.m), Merge(a.m, Merge(b.m, c.m));
      assert l.Keys == r.Keys;
      forall k | k in a.m && k in b.m && k in c.m
        ensures l[k] == r[k] <==> Regroups(a.m[k], b.m[k], c.m[k])
      {
        MergeAssociates(a.m[k], b.m[k], c.m[k]);
      }
      forall k | k in l && !(k in a.m && k in b.m && k in c.m) ensures l[k] == r[k] {
      }
      if Regroups(a, b, c) {
        assert l == r;
      }
    }
  }

  /** No path is a map in one value and a scalar in the other. */
  ghost predicate SameKinds(a: Value, b: Value)
  {
    forall p: Path :: Lookup(a, p).Some? && Lookup(b, p).Some?
                      ==> (Lookup(a, p).value.Map? <==> Lookup(b, p).value.Map?)
  }

  lemma SameKindsBelow(a: Value, b: Value, k: string)
    requires SameKinds(a, b) && a.Map? && b.Map? && k in a.m && k in b.m
    ensures SameKinds(a.m[k], b.m[k])
  {
    forall p: Path | Lookup(a.m[k], p).Some? && Lookup(b.m[k], p).Some?
      ensures Lookup(a.m[k], p).value.Map? <==> Lookup(b.m[k], p).value.Map?
    {
      assert ([k] + p)[1..] == p;
      assert Lookup(a, [k] + p) == Lookup(a.m[k], p) && Lookup(b, [k] + p) == Lookup(b.m[k], p);
    }
  }

  lemma {:induction false} SameKindsRegroup(a: Value, b: Value, c: Value)
    requires SameKinds(a, b) || SameKinds(b, c)
    ensures Regroups(a, b, c)
    decreases c
  {
    assert Lookup(a, []) == Some(a) && Lookup(b, []) == Some(b) && Lookup(c, []) == Some(c);
    if a.Map? && b.Map? && c.Map? {
      forall k | k in a.m && k in b.m && k in c.m ensures Regroups(a.m[k], b.m[k], c.m[k]) {
        if SameKinds(a, b) {
          SameKindsBelow(a, b, k);
        } else {
          SameKindsBelow(b, c, k);
        }
        SameKindsRegroup(a.m[k], b.m[k], c.m[k]);
      }
    }
  }

  /** Trees that agree in kind may be merged in either grouping.  Agreement of one
      neighbouring pair is enough. */
  lemma MergeAssociatesOnSameKinds(a: Value, b: Value, c: Value)
    requires SameKinds(a, b) || SameKinds(b, c)
    ensures MergeValue(MergeValue(a, b), c) == MergeValue(a, MergeValue(b, c))
  {
    SameKindsRegroup(a, b, c);
    MergeAssociates(a, b, c);
  }
}
