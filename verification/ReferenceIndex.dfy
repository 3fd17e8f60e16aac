/** The engine index kept in each repository's status: the sorted, comma-separated names of the
    engines that reference it. */
module ReferenceIndex {
  import opened Common
  import opened Text
  import opened Status
  import RepoWorld
  import RepoServer

  datatype Engine = Engine(namespace: string, name: string, refs: seq<string>, deleting: bool)

  function KeyOf(e: Engine): string { e.namespace + "/" + e.name }

  // ---------------------------------------------------------------- the plain scan

  /** The engines, not being deleted, that reference a repository. */
  function Referencing(engines: seq<Engine>, repo: string): set<string> {
    set e | e in engines && !e.deleting && repo in e.refs :: KeyOf(e)
  }

  /** The controller's pass over the engines: one set per tracked repository. */
  method BuildRefMap(engines: seq<Engine>, names: seq<string>) returns (refMap: map<string, set<string>>)
    ensures refMap.Keys == (set n | n in names)
    ensures forall n | n in names :: refMap[n] == Referencing(engines, n)
  {
    refMap := map n | n in names :: {};
    for i := 0 to |engines|
      invariant refMap.Keys == (set n | n in names)
      invariant forall n | n in names :: refMap[n] == Referencing(engines[..i], n)
    {
      assert engines[..i + 1] == engines[..i] + [engines[i]];
      if !engines[i].deleting {
        refMap := AddEngine(refMap, engines[i]);
      }
      forall n | n in names ensures refMap[n] == Referencing(engines[..i + 1], n) {
        ReferencingNext(engines[..i], engines[i], n);
      }
    }
    assert engines[..|engines|] == engines;
  }

  /** One engine's references, each counted once; untracked repositories are skipped. */
  method AddEngine(refMap: map<string, set<string>>, e: Engine) returns (r: map<string, set<string>>)
    ensures r.Keys == refMap.Keys
    ensures forall n | n in refMap :: r[n] == refMap[n] + if n in e.refs then {KeyOf(e)} else {}
  {
    r := refMap;
    for j := 0 to |e.refs|
      invariant r.Keys == refMap.Keys
      invariant forall n | n in refMap :: r[n] == refMap[n] + if n in e.refs[..j] then {KeyOf(e)} else {}
    {
      assert e.refs[..j + 1] == e.refs[..j] + [e.refs[j]];
      if e.refs[j] in r {
        r := r[e.refs[j] := r[e.refs[j]] + {KeyOf(e)}];
      }
    }
    assert e.refs[..|e.refs|] == e.refs;
  }

  lemma ReferencingNext(engines: seq<Engine>, e: Engine, repo: string)
    ensures Referencing(engines + [e], repo) ==
            Referencing(engines, repo) + if !e.deleting && repo in e.refs then {KeyOf(e)} else {}
  {
  }

  // ---------------------------------------------------------------- sorting

  /** Byte-wise lexicographic order. */
  predicate Le(a: string, b: string) {
    a == "" || (b != "" && (a[0] < b[0] || (a[0] == b[0] && Le(a[1..], b[1..]))))
  }

  /** a comes before b: they agree up to k, where a ends or has the smaller character. */
  predicate Before(a: string, b: string, k: nat) {
    k <= |a| && k <= |b| && a[..k] == b[..k] && (k == |a| || (k < |b| && a[k] < b[k]))
  }

  ghost predicate Precedes(a: string, b: string) { exists k: nat :: Before(a, b, k) }

  lemma BeforeLonger(a: string, b: string, k: nat)
    requires a != "" && b != "" && a[0] == b[0] && Before(a[1..], b[1..], k)
    ensures Before(a, b, k + 1)
  {
    assert a[..k + 1] == [a[0]] + a[1..][..k] && b[..k + 1] == [b[0]] + b[1..][..k];
  }

  lemma BeforeShorter(a: string, b: string, k: nat)
    requires a != "" && b != "" && Before(a, b, k + 1)
    ensures a[0] == b[0] && Before(a[1..], b[1..], k)
  {
    assert a[..k + 1][0] == a[0] && b[..k + 1][0] == b[0];
    assert a[1..][..k] == a[..k + 1][1..] && b[1..][..k] == b[..k + 1][1..];
  }

  /** The order is that of the first place where the texts differ, a beginning coming first. */
  lemma {:induction false} LeIsLexicographic(a: string, b: string)
    ensures Le(a, b) <==> Precedes(a, b)
  {
    if a == "" {
      assert Before(a, b, 0);
    } else if b != "" {
      if a[0] == b[0] {
        LeIsLexicographic(a[1..], b[1..]);
        if k: nat :| Before(a[1..], b[1..], k) {
          BeforeLonger(a, b, k);
        }
      }
      assert Before(a, b, 0) <==> a[0] < b[0];
      if k: nat :| Before(a, b, k) {
        if k > 0 {
          BeforeShorter(a, b, k - 1);
        }
      }
    }
  }

  lemma {:induction false} LeTotal(a: string, b: string)
    ensures Le(a, b) || Le(b, a)
    ensures Le(a, b) && Le(b, a) ==> a == b
  {
    if a != "" && b != "" && a[0] == b[0] {
      LeTotal(a[1..], b[1..]);
      assert a == [a[0]] + a[1..] && b == [b[0]] + b[1..];
    }
  }

  lemma {:induction false} LeTrans(a: string, b: string, c: string)
    requires Le(a, b) && Le(b, c)
    ensures Le(a, c)
  {
    if a != "" && b != "" && c != "" && a[0] == b[0] == c[0] {
      LeTrans(a[1..], b[1..], c[1..]);
    }
  }

  predicate Sorted(s: seq<string>) { forall i, j | 0 <= i < j < |s| :: Le(s[i], s[j]) }

  /** A stand-in for the library's sort; only its contract matters. */
  function SortStrings(s: seq<string>): (r: seq<string>)
    ensures Sorted(r) && multiset(r) == multiset(s)
  {
    if s == [] then []
    else
      assert s == [s[0]] + s[1..];
      Insert(s[0], SortStrings(s[1..]))
  }

  function Insert(x: string, s: seq<string>): (r: seq<string>)
    requires Sorted(s)
    ensures Sorted(r) && multiset(r) == multiset{x} + multiset(s)
    decreases |s|
  {
    if s == [] then [x]
    else
      assert s == [s[0]] + s[1..];
      if Le(x, s[0]) then
        assert Sorted([x] + s) by { InsertFirst(x, s); }
        [x] + s
      else
        var r := Insert(x, s[1..]);
        assert Sorted([s[0]] + r) by {
          LeTotal(x, s[0]);
          BelowAll(s[0], x, s[1..], r);
        }
        [s[0]] + r
  }

  lemma InsertFirst(x: string, s: seq<string>)
    requires Sorted(s) && s != [] && Le(x, s[0])
    ensures Sorted([x] + s)
  {
    forall j | 0 <= j < |s| ensures Le(x, s[j]) {
      if j > 0 {
        LeTrans(x, s[0], s[j]);
      }
    }
  }

  lemma BelowAll(y: string, x: string, s: seq<string>, r: seq<string>)
    requires Sorted(r) && multiset(r) == multiset{x} + multiset(s)
    requires Le(y, x) && forall j | 0 <= j < |s| :: Le(y, s[j])
    ensures Sorted([y] + r)
  {
    forall j | 0 <= j < |r| ensures Le(y, r[j]) {
      assert r[j] in multiset(r);
      assert r[j] == x || r[j] in multiset(s);
    }
  }

  lemma FirstIsLeast(s: seq<string>, x: string)
    requires Sorted(s) && x in s
    ensures Le(s[0], x)
  {
    LeTotal(x, x);
  }

  lemma InOther(a: seq<string>, b: seq<string>, x: string)
    requires multiset(a) == multiset(b) && x in a
    ensures x in b
  {
    assert x in multiset(b);
  }

  lemma SameFirst(a: seq<string>, b: seq<string>)
    requires Sorted(a) && Sorted(b) && multiset(a) == multiset(b) && a != []
    ensures b != [] && a[0] == b[0] && multiset(a[1..]) == multiset(b[1..])
  {
    hide Sorted, Le;
    assert a[0] in multiset(a) && |multiset(a)| == |a|;
    assert b != [];
    InOther(b, a, b[0]);
    InOther(a, b, a[0]);
    FirstIsLeast(b, a[0]);
    FirstIsLeast(a, b[0]);
    LeTotal(a[0], b[0]);
    WithoutFirst(a);
    WithoutFirst(b);
  }

  lemma WithoutFirst(s: seq<string>)
    requires s != []
    ensures multiset(s[1..]) == multiset(s) - multiset{s[0]}
  {
    assert s == [s[0]] + s[1..];
  }

  /** Two sorted arrangements of the same elements are the same. */
  lemma {:induction false} SortedUnique(a: seq<string>, b: seq<string>)
    requires Sorted(a) && Sorted(b) && multiset(a) == multiset(b)
    ensures a == b
    decreases |a|
  {
    assert |a| == |multiset(a)| && |b| == |multiset(b)|;
    if a != [] {
      SameFirst(a, b);
      SortedUnique(a[1..], b[1..]);
      assert a == [a[0]] + a[1..] && b == [b[0]] + b[1..];
    }
  }

  // ---------------------------------------------------------------- the index text

  /** The elements of a set in some order, each once. */
  predicate Enumerates(order: seq<string>, s: set<string>) { multiset(order) == multiset(s) }

  function TextOf(order: seq<string>): string {
    var sorted := SortStrings(order);
    if sorted == [] then "" else Join(sorted, ',')
  }

  /** The text is the same for every iteration order of the set. */
  lemma TextIsOrderFree(order: seq<string>, other: seq<string>, s: set<string>)
    requires Enumerates(order, s) && Enumerates(other, s)
    ensures TextOf(order) == TextOf(other)
  {
    SortedUnique(SortStrings(order), SortStrings(other));
  }

  function Decode(text: string): set<string> {
    if text == "" then {} else set part | part in Split(text, ',')
  }

  /** The text decodes back to exactly the set, as names contain no comma. */
  lemma TextDecodes(order: seq<string>, s: set<string>)
    requires Enumerates(order, s) && forall n | n in s :: n != "" && ',' !in n
    ensures Decode(TextOf(order)) == s
  {
    var sorted := SortStrings(order);
    assert forall n :: n in sorted <==> n in s by {
      forall n ensures n in sorted <==> n in s {
        assert n in sorted <==> n in multiset(sorted);
        assert n in multiset(s) <==> n in s;
      }
    }
    if sorted != [] {
      assert sorted[0] in s;
      SplitJoin(sorted, ',');
      assert Join(sorted, ',') != "";
    } else {
      assert s == {};
    }
  }

  // ---------------------------------------------------------------- the update

  /** Status objects of the repositories, and how often one was written. */
  class Repositories {
    var status: map<string, RepoStatus>
    var writes: nat

    constructor (status: map<string, RepoStatus>)
      ensures this.status == status && writes == 0
    {
      this.status, writes := status, 0;
    }
  }

  /** The index is what a scan of the engines says. */
  ghost predicate Indexes(text: string, engines: seq<Engine>, repo: string) {
    exists order :: Enumerates(order, Referencing(engines, repo)) && text == TextOf(order)
  }

  method Enumerate(s: set<string>) returns (order: seq<string>)
    ensures Enumerates(order, s)
  {
    order := [];
    var todo := s;
    while todo != {}
      invariant todo <= s && multiset(order) == multiset(s - todo)
      decreases todo
    {
      var n :| n in todo;
      assert s - (todo - {n}) == (s - todo) + {n};
      order := order + [n];
      todo := todo - {n};
    }
    assert s - {} == s;
  }

  /** Each named repository holds the index of the scan; everything else is as before. */
  ghost predicate Indexed(before: map<string, RepoStatus>, after: map<string, RepoStatus>, engines: seq<Engine>, names: seq<string>) {
    && after.Keys == before.Keys
    && forall n | n in after ::
         if n in names
         then Indexes(after[n].referencedEngines, engines, n) && Own(after[n]) == Own(before[n])
         else after[n] == before[n]
  }

  ghost predicate UpToDate(status: map<string, RepoStatus>, engines: seq<Engine>, names: seq<string>) {
    forall n | n in status && n in names :: Indexes(status[n].referencedEngines, engines, n)
  }

  /** The named repositories whose index is not what a scan says. */
  ghost function Stale(status: map<string, RepoStatus>, engines: seq<Engine>, names: seq<string>): set<string> {
    set n | n in names && n in status && !Indexes(status[n].referencedEngines, engines, n)
  }

  lemma IndexedIsUpToDate(before: map<string, RepoStatus>, after: map<string, RepoStatus>, engines: seq<Engine>, names: seq<string>)
    requires Indexed(before, after, engines, names)
    ensures UpToDate(after, engines, names) && Stale(after, engines, names) == {}
  {
  }

  lemma UpToDateStays(before: map<string, RepoStatus>, after: map<string, RepoStatus>, engines: seq<Engine>, names: seq<string>)
    requires Indexed(before, after, engines, names) && UpToDate(before, engines, names)
    ensures after == before
  {
    forall n | n in after ensures after[n] == before[n] {
      if n in names {
        IndexIsUnique(before[n].referencedEngines, after[n].referencedEngines, engines, n);
        assert Own(after[n]) == Own(before[n]);
      }
    }
  }

  // One more name: it is written exactly if it is one more stale repository.
  lemma StaleNext(before: map<string, RepoStatus>, now: map<string, RepoStatus>, engines: seq<Engine>, names: seq<string>,
                  n: string, text: string)
    requires Indexed(before, now, engines, names) && Indexes(text, engines, n)
    ensures var unwritten := n in now ==> now[n].referencedEngines == text;
            |Stale(before, engines, names + [n])| == |Stale(before, engines, names)| + if unwritten then 0 else 1
  {
    hide Indexes, Own;
    var a, b := Stale(before, engines, names), Stale(before, engines, names + [n]);
    if n in now {
      IndexIsUnique(now[n].referencedEngines, text, engines, n);
    }
    if n in now && now[n].referencedEngines != text {
      assert n !in names && now[n] == before[n];
      assert b == a + {n};
    } else {
      assert n in now && n !in names ==> now[n] == before[n];
      assert b == a;
    }
  }

  function WithIndex(status: map<string, RepoStatus>, n: string, text: string): map<string, RepoStatus> {
    if n in status then status[n := status[n].(referencedEngines := text)] else status
  }

  lemma IndexedNext(before: map<string, RepoStatus>, now: map<string, RepoStatus>, engines: seq<Engine>, names: seq<string>,
                    n: string, text: string)
    requires Indexed(before, now, engines, names) && Indexes(text, engines, n)
    ensures Indexed(before, WithIndex(now, n, text), engines, names + [n])
  {
  }

  /** Write one repository's index, unless it is already there. */
  method PutIndex(r: Repositories, n: string, text: string)
    modifies r
    ensures r.status == WithIndex(old(r.status), n, text)
    ensures r.writes == old(r.writes) + if n in old(r.status) ==> old(r.status)[n].referencedEngines == text then 0 else 1
  {
    if n in r.status && r.status[n].referencedEngines != text {
      r.status := r.status[n := r.status[n].(referencedEngines := text)];
      r.writes := r.writes + 1;
    } else if n in r.status {
      assert r.status[n := r.status[n]] == r.status;
    }
  }

  method IndexText(keys: set<string>, ghost engines: seq<Engine>, ghost n: string) returns (text: string)
    requires keys == Referencing(engines, n)
    ensures Indexes(text, engines, n)
  {
    var order := Enumerate(keys);
    text := TextOf(order);
  }

  /** Error-free updateReferencedEngines: the named repositories that exist end up indexed, and
      there is one write for each whose index was not right, and no other. */
  method UpdateReferencedEngines(r: Repositories, engines: seq<Engine>, names: seq<string>)
    modifies r
    ensures Indexed(old(r.status), r.status, engines, names)
    ensures r.writes == old(r.writes) + |Stale(old(r.status), engines, names)|
  {
    var refMap := BuildRefMap(engines, names);
    for i := 0 to |names|
      invariant Indexed(old(r.status), r.status, engines, names[..i])
      invariant r.writes == old(r.writes) + |Stale(old(r.status), engines, names[..i])|
    {
      hide *;
      var n := names[i];
      assert names[..i + 1] == names[..i] + [n];
      var text := IndexText(refMap[n], engines, n);
      IndexedNext(old(r.status), r.status, engines, names[..i], n, text);
      StaleNext(old(r.status), r.status, engines, names[..i], n, text);
      PutIndex(r, n, text);
    }
    assert names[..|names|] == names;
  }

  lemma IndexIsUnique(a: string, b: string, engines: seq<Engine>, repo: string)
    ensures Indexes(a, engines, repo) && Indexes(b, engines, repo) ==> a == b
  {
    if Indexes(a, engines, repo) && Indexes(b, engines, repo) {
      var x :| Enumerates(x, Referencing(engines, repo)) && a == TextOf(x);
      var y :| Enumerates(y, Referencing(engines, repo)) && b == TextOf(y);
      TextIsOrderFree(x, y, Referencing(engines, repo));
    }
  }

  /** A second run on the same engines writes nothing: the writes of both are those the first one
      needed, and the stored statuses are as it left them. */
  method UpdateTwice(r: Repositories, engines: seq<Engine>, names: seq<string>) returns (once: map<string, RepoStatus>)
    modifies r
    ensures Indexed(old(r.status), once, engines, names) && r.status == once
    ensures r.writes == old(r.writes) + |Stale(old(r.status), engines, names)|
  {
    UpdateReferencedEngines(r, engines, names);
    once := r.status;
    IndexedIsUpToDate(old(r.status), once, engines, names);
    UpdateReferencedEngines(r, engines, names);
    UpToDateStays(once, r.status, engines, names);
  }

  // ---------------------------------------------------------------- index and deletion

  /** The same engines as handleDeletion lists them. */
  function Listing(engines: seq<Engine>): (r: seq<RepoWorld.EngineRef>)
    ensures |r| == |engines|
    ensures forall i | 0 <= i < |engines| :: r[i] == RepoWorld.EngineRef(engines[i].name, engines[i].refs)
  {
    if engines == [] then []
    else [RepoWorld.EngineRef(engines[0].name, engines[0].refs)] + Listing(engines[1..])
  }

  /** Deletion is blocked exactly if the index is not empty or an engine being deleted still names
      the repository: every indexed engine blocks, and so do those no longer indexed. */
  lemma IndexedEnginesBlock(engines: seq<Engine>, repo: string)
    ensures RepoServer.References(Listing(engines), repo) <==>
            Referencing(engines, repo) != {} || exists e | e in engines :: e.deleting && repo in e.refs
  {
    if RepoServer.References(Listing(engines), repo) {
      var i :| 0 <= i < |engines| && repo in Listing(engines)[i].refs;
      assert engines[i] in engines;
      if !engines[i].deleting {
        assert KeyOf(engines[i]) in Referencing(engines, repo);
      }
    }
    if Referencing(engines, repo) != {} {
      var k :| k in Referencing(engines, repo);
      var e :| e in engines && !e.deleting && repo in e.refs && KeyOf(e) == k;
      ListedBlocks(engines, e, repo);
    }
    if exists e | e in engines :: e.deleting && repo in e.refs {
      var e :| e in engines && e.deleting && repo in e.refs;
      ListedBlocks(engines, e, repo);
    }
  }

  lemma ListedBlocks(engines: seq<Engine>, e: Engine, repo: string)
    requires e in engines && repo in e.refs
    ensures RepoServer.References(Listing(engines), repo)
  {
  }

  /** The index says: the engines that are not being deleted and name the repository, as
      namespace/name, in byte order, separated by commas. */
  lemma IndexSays(text: string, engines: seq<Engine>, repo: string) returns (names: seq<string>)
    requires Indexes(text, engines, repo)
    ensures text == if names == [] then "" else Join(names, ',')
    ensures forall n :: n in names <==> Names(engines, repo, n)
    ensures forall i, j | 0 <= i < j < |names| :: names[i] != names[j] && Precedes(names[i], names[j])
  {
    hide Precedes, Le, Join, Names, Referencing, Enumerates;
    var order :| Enumerates(order, Referencing(engines, repo)) && text == TextOf(order);
    names := SortStrings(order);
    Members(order, names, Referencing(engines, repo));
    forall n ensures n in names <==> Names(engines, repo, n) {
      ReferencingNames(engines, repo, n);
    }
    forall i, j | 0 <= i < j < |names| ensures names[i] != names[j] && Precedes(names[i], names[j]) {
      LeIsLexicographic(names[i], names[j]);
      OnceEach(names, Referencing(engines, repo), i, j);
    }
  }

  /** Some engine of that namespace and name, not being deleted, names the repository. */
  predicate Names(engines: seq<Engine>, repo: string, n: string) {
    exists e | e in engines :: !e.deleting && repo in e.refs && n == e.namespace + "/" + e.name
  }

  lemma ReferencingNames(engines: seq<Engine>, repo: string, n: string)
    ensures n in Referencing(engines, repo) <==> Names(engines, repo, n)
  {
  }

  lemma Members(order: seq<string>, names: seq<string>, s: set<string>)
    requires Enumerates(order, s) && multiset(names) == multiset(order)
    ensures Enumerates(names, s) && forall n :: n in names <==> n in s
  {
    forall n ensures n in names <==> n in s {
      assert n in names <==> n in multiset(names);
      assert n in multiset(s) <==> n in s;
    }
  }

  lemma TwiceCounts(names: seq<string>, i: nat, j: nat)
    requires i < j < |names| && names[i] == names[j]
    ensures multiset(names)[names[i]] >= 2
  {
    assert names == names[..i] + [names[i]] + names[i + 1..j] + [names[j]] + names[j + 1..];
  }

  lemma OnceEach(names: seq<string>, s: set<string>, i: nat, j: nat)
    requires Enumerates(names, s) && i < j < |names|
    ensures names[i] != names[j]
  {
    if names[i] == names[j] {
      TwiceCounts(names, i, j);
    }
  }
}
