/** The GPU check an engine must pass before anything is deployed for it. */
module EngineGpu {
  import opened Common
  import opened Backend
  import opened Status

  datatype Gpu = Gpu(kind: string, count: int, selector: map<string, string>)

  /** A node: allocatable resources in whole units, and labels. */
  datatype Node = Node(name: string, allocatable: map<string, nat>, labels: map<string, string>)

  const DEFAULT_GPU := "nvidia.com/gpu"

  function KindOf(g: Gpu): string { if g.kind == "" then DEFAULT_GPU else g.kind }

  function CountOf(g: Gpu): int { if g.count == 0 then 1 else g.count }

  function Allocatable(n: Node, kind: string): nat { if kind in n.allocatable then n.allocatable[kind] else 0 }

  /** Reading a missing label gives the empty text. */
  function Label(n: Node, key: string): string { if key in n.labels then n.labels[key] else "" }

  /** Has the resource at all, enough of it, and every label the selector asks for. */
  predicate Suitable(g: Gpu, n: Node) {
    && Allocatable(n, KindOf(g)) > 0
    && Allocatable(n, KindOf(g)) >= CountOf(g)
    && forall k | k in g.selector :: Label(n, k) == g.selector[k]
  }

  /** In terms of the request alone: by default one GPU of the usual kind, a missing label counting
      as an empty one. */
  lemma SuitableMeans(g: Gpu, n: Node)
    ensures var kind, count := if g.kind == "" then "nvidia.com/gpu" else g.kind, if g.count == 0 then 1 else g.count;
            Suitable(g, n) <==>
              && kind in n.allocatable && n.allocatable[kind] > 0 && n.allocatable[kind] >= count
              && forall k | k in g.selector :: g.selector[k] == if k in n.labels then n.labels[k] else ""
  {
  }

  /** The selector's labels, checked in any order until one differs. */
  method MatchesSelector(n: Node, selector: map<string, string>) returns (ok: bool)
    ensures ok <==> forall k | k in selector :: Label(n, k) == selector[k]
  {
    var todo := selector.Keys;
    while todo != {}
      invariant todo <= selector.Keys
      invariant forall k | k in selector && k !in todo :: Label(n, k) == selector[k]
      decreases todo
    {
      var k :| k in todo;
      if Label(n, k) != selector[k] {
        return false;
      }
      todo := todo - {k};
    }
    return true;
  }

  method ValidateNode(g: Gpu, n: Node) returns (ok: bool)
    ensures ok <==> Suitable(g, n)
  {
    if Allocatable(n, KindOf(g)) == 0 || Allocatable(n, KindOf(g)) < CountOf(g) {
      return false;
    }
    ok := MatchesSelector(n, g.selector);
  }

  /** Collects the nodes that qualify; the check fails exactly if there are none. */
  method ValidateCluster(g: Gpu, nodes: seq<Node>) returns (suitable: seq<Node>)
    ensures forall n :: n in suitable <==> n in nodes && Suitable(g, n)
  {
    suitable := [];
    for i := 0 to |nodes|
      invariant forall n :: n in suitable <==> n in nodes[..i] && Suitable(g, n)
    {
      assert nodes[..i + 1] == nodes[..i] + [nodes[i]];
      if Allocatable(nodes[i], KindOf(g)) == 0 {
        continue;
      }
      var matches := MatchesSelector(nodes[i], g.selector);
      if !matches {
        continue;
      }
      if Allocatable(nodes[i], KindOf(g)) >= CountOf(g) {
        suitable := suitable + [nodes[i]];
      }
    }
    assert nodes[..|nodes|] == nodes;
  }

  // ---------------------------------------------------------------- which node storage demands

  /** A node-bound repository with a known node. */
  predicate Pins(st: RepoStatus) {
    st.storage.Some? && st.storage.value.accessMode == ReadWriteOnce && st.storage.value.boundNode != ""
  }

  /** The bound node of the first repository that pins, or nothing. */
  function DemandedNode(copies: seq<RepoStatus>): (node: string)
    ensures node == "" <==> forall c | c in copies :: !Pins(c)
    ensures node != "" ==> FirstPin(copies, node)
  {
    if copies == [] then ""
    else if Pins(copies[0]) then copies[0].storage.value.boundNode
    else
      var rest := DemandedNode(copies[1..]);
      assert rest != "" ==> FirstPin(copies, rest) by {
        if rest != "" {
          FirstPinLater(copies, rest);
        }
      }
      assert forall c | c in copies :: c == copies[0] || c in copies[1..];
      rest
  }

  lemma FirstPinLater(copies: seq<RepoStatus>, node: string)
    requires copies != [] && !Pins(copies[0]) && FirstPin(copies[1..], node)
    ensures FirstPin(copies, node)
  {
  }

  method RequiredNode(copies: seq<RepoStatus>) returns (node: string)
    ensures node == DemandedNode(copies)
  {
    for i := 0 to |copies|
      invariant DemandedNode(copies[i..]) == DemandedNode(copies)
    {
      assert copies[i..][1..] == copies[i + 1..];
      if Pins(copies[i]) {
        return copies[i].storage.value.boundNode;
      }
    }
    return "";
  }

  /** The first node of a name. */
  function NodeNamed(nodes: seq<Node>, name: string): (r: Option<Node>)
    ensures r.Some? ==> r.value in nodes && r.value.name == name
    ensures r.None? ==> forall n | n in nodes :: n.name != name
  {
    if nodes == [] then None else if nodes[0].name == name then Some(nodes[0]) else NodeNamed(nodes[1..], name)
  }

  /** What the check decides: on the demanded node, or anywhere in the cluster. */
  predicate GpuAvailable(g: Gpu, copies: seq<RepoStatus>, nodes: seq<Node>) {
    var required := DemandedNode(copies);
    if required == "" then exists n | n in nodes :: Suitable(g, n)
    else NodeNamed(nodes, required).Some? && Suitable(g, NodeNamed(nodes, required).value)
  }

  /** Which node is checked: if repository i is the first with ReadWriteOnce storage on a known
      node, the first node of that name; if there is none, any. */
  lemma AvailableMeans(g: Gpu, copies: seq<RepoStatus>, nodes: seq<Node>, i: nat)
    requires i <= |copies|
    requires forall j | 0 <= j < i && copies[j].storage.Some? ::
               copies[j].storage.value.accessMode != ReadWriteOnce || copies[j].storage.value.boundNode == ""
    ensures i == |copies| ==> (GpuAvailable(g, copies, nodes) <==> exists n | n in nodes :: Suitable(g, n))
    ensures i < |copies| && copies[i].storage.Some?
            && copies[i].storage.value.accessMode == ReadWriteOnce && copies[i].storage.value.boundNode != "" ==>
              (GpuAvailable(g, copies, nodes) <==>
               exists k | 0 <= k < |nodes| && IsFirstNamed(nodes, k, copies[i].storage.value.boundNode) :: Suitable(g, nodes[k]))
  {
    hide Suitable;
    if i < |copies| && Pins(copies[i]) {
      var node := DemandedNode(copies);
      var at :| 0 <= at < |copies| && Pins(copies[at]) && copies[at].storage.value.boundNode == node
                && forall j | 0 <= j < at :: !Pins(copies[j]);
      assert at == i;
      FirstNamed(nodes, node);
    }
  }

  predicate IsFirstNamed(nodes: seq<Node>, k: nat, name: string) {
    k < |nodes| && nodes[k].name == name && forall j | 0 <= j < k :: nodes[j].name != name
  }

  lemma {:induction false} FirstNamed(nodes: seq<Node>, name: string)
    ensures NodeNamed(nodes, name).Some? ==>
              exists k | 0 <= k < |nodes| && IsFirstNamed(nodes, k, name) :: nodes[k] == NodeNamed(nodes, name).value
  {
    if nodes != [] {
      if nodes[0].name == name {
        assert IsFirstNamed(nodes, 0, name);
      } else {
        FirstNamed(nodes[1..], name);
        if NodeNamed(nodes[1..], name).Some? {
          var k :| 0 <= k < |nodes[1..]| && IsFirstNamed(nodes[1..], k, name) && nodes[1..][k] == NodeNamed(nodes[1..], name).value;
          assert IsFirstNamed(nodes, k + 1, name) && nodes[k + 1] == nodes[1..][k];
        }
      }
    }
  }

  predicate FirstPin(copies: seq<RepoStatus>, node: string) {
    exists i | 0 <= i < |copies| ::
      && Pins(copies[i]) && copies[i].storage.value.boundNode == node
      && forall j | 0 <= j < i :: !Pins(copies[j])
  }

  /** The node that was checked is the one storage demands, or storage demands none. */
  predicate NodeDemanded(copies: seq<RepoStatus>, node: string) {
    (exists c | c in copies :: Pins(c)) ==> FirstPin(copies, node)
  }
}
