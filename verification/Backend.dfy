/** Volume backends: how a bound volume is recorded as (type, string map) and how a read-only
    mirror volume is rebuilt from that record. */
module Backend {
  import opened Common

  type Details = map<string, string>

  datatype AccessMode = ReadWriteOnce | ReadWriteMany | ReadOnlyMany

  // ---------------------------------------------------------------- volumes

  datatype NFS = NFS(server: string, path: string, readOnly: bool)
  datatype CSI = CSI(driver: string, handle: string, readOnly: bool, attributes: Details)
  datatype Block = Block(id: string, fsType: string)
  datatype CephFS = CephFS(monitors: seq<string>, path: string, readOnly: bool)
  datatype Gluster = Gluster(endpoints: string, path: string)

  /** A volume source: a struct of optional members, of which the cluster sets one. */
  datatype Source = Source(
    nfs: Option<NFS>,
    csi: Option<CSI>,
    ebs: Option<Block>,
    gcePd: Option<Block>,
    azureDisk: Option<Block>,
    cephfs: Option<CephFS>,
    gluster: Option<Gluster>,
    hostPath: Option<string>)

  const NO_SOURCE := Source(None, None, None, None, None, None, None, None)

  datatype Operator = In | OtherOperator
  datatype Requirement = Requirement(key: string, operator: Operator, values: seq<string>)
  type NodeTerms = seq<seq<Requirement>>

  datatype Reclaim = Delete | Retain

  datatype VolumeSpec = VolumeSpec(
    capacity: nat,
    accessModes: seq<AccessMode>,
    source: Source,
    nodeTerms: NodeTerms,
    claim: Option<(string, string)>,
    reclaim: Reclaim)

  // ---------------------------------------------------------------- the record

  datatype BackendRef = BackendRef(kind: string, details: Details)

  datatype StorageStatus = StorageStatus(
    storageClass: string,
    accessMode: AccessMode,
    backend: Option<BackendRef>,
    boundNode: string,
    capacity: string)

  const KIND_NFS := "nfs"
  const KIND_CEPHFS := "cephfs"
  const KIND_LONGHORN := "longhorn"
  const KIND_CSI := "csi"
  const KIND_HOSTPATH := "hostpath"

  const DRIVER_NFS := "nfs.csi.k8s.io"
  const DRIVER_CEPHFS := "cephfs.csi.ceph.com"
  const DRIVER_LONGHORN := "driver.longhorn.io"

  const HOSTNAME := "kubernetes.io/hostname"

  function Get(d: Details, k: string): string { if k in d then d[k] else "" }

  // ---------------------------------------------------------------- attribute keys

  const PREFIX := "csi."

  function Prefixed(k: string): (r: string)
    ensures PREFIX <= r && r[|PREFIX|..] == k
  {
    PREFIX + k
  }

  lemma PrefixedTrim(k: string)
    requires PREFIX <= k
    ensures Prefixed(k[|PREFIX|..]) == k
  {
  }

  function PrefixedKeys(keys: set<string>): set<string> { set k | k in keys :: Prefixed(k) }

  /** Attributes under their prefixed keys. */
  function Encoded(attributes: Details): Details {
    map key | key in PrefixedKeys(attributes.Keys) :: attributes[key[|PREFIX|..]]
  }

  /** The entries of a record whose keys carry the prefix, under their own keys. */
  function Decoded(details: Details): Details {
    map k | k in (set key | key in details && PREFIX <= key :: key[|PREFIX|..]) :: DecodedAt(details, k)
  }

  function DecodedAt(details: Details, k: string): string { Get(details, Prefixed(k)) }

  /** Whatever else the record holds under unprefixed keys, the attributes come back exactly. */
  lemma AttributesRoundTrip(base: Details, attributes: Details)
    requires forall key | key in base :: !(PREFIX <= key)
    ensures Decoded(base + Encoded(attributes)) == attributes
  {
    var details := base + Encoded(attributes);
    forall k | k in attributes ensures k in Decoded(details) && Decoded(details)[k] == attributes[k] {
      assert Prefixed(k) in Encoded(attributes);
      assert Prefixed(k) in details && PREFIX <= Prefixed(k);
    }
    forall k | k in Decoded(details) ensures k in attributes {
      var key :| key in details && PREFIX <= key && key[|PREFIX|..] == k;
      assert key in Encoded(attributes);
    }
  }

  // ---------------------------------------------------------------- node names

  predicate NamesNode(r: Requirement) { r.key == HOSTNAME && r.operator == In && |r.values| > 0 }

  /** The first hostname requirement's first value, or the empty string. */
  function NodeIn(term: seq<Requirement>): Option<string> {
    if term == [] then None
    else if NamesNode(term[0]) then Some(term[0].values[0])
    else NodeIn(term[1..])
  }

  function NodeName(terms: NodeTerms): string {
    if terms == [] then ""
    else match NodeIn(terms[0]) case Some(n) => n case None => NodeName(terms[1..])
  }

  function PinnedTo(node: string): NodeTerms { [[Requirement(HOSTNAME, In, [node])]] }

  // ---------------------------------------------------------------- extraction

  datatype Owner = Owner(repo: string, pvcName: string, namespace: string)

  function ClaimDetails(o: Owner): Details { map["pvcName" := o.pvcName, "pvcNamespace" := o.namespace] }

  function SubPath(o: Owner): string { "/modelrepositories/" + o.repo }

  function CsiBase(c: CSI, o: Owner): Details {
    ClaimDetails(o)["driver" := c.driver]["volumeID" := c.handle]["subPath" := SubPath(o)]
  }

  function CsiRecord(c: CSI, details: Details): BackendRef {
    if c.driver == DRIVER_NFS then
      BackendRef(KIND_NFS,
        if "server" in c.attributes && "share" in c.attributes then
          var server, share := c.attributes["server"], c.attributes["share"];
          details["filesystemID" := "nfs://" + server + share]["server" := server]["exportPath" := share]
        else details)
    else if c.driver == DRIVER_CEPHFS then
      BackendRef(KIND_CEPHFS, details["filesystemID" := "ceph://" + c.handle])
    else if c.driver == DRIVER_LONGHORN then BackendRef(KIND_LONGHORN, details)
    else BackendRef(KIND_CSI, details)
  }

  /** The record of a volume.  Members are tried in a fixed order. */
  function Extracted(s: Source, o: Owner): Option<BackendRef> {
    if s.nfs.Some? then
      var n := s.nfs.value;
      Some(BackendRef(KIND_NFS, ClaimDetails(o)["filesystemID" := "nfs://" + n.server + n.path]
        ["server" := n.server]["exportPath" := n.path]["subPath" := SubPath(o)]))
    else if s.csi.Some? then
      Some(CsiRecord(s.csi.value, CsiBase(s.csi.value, o) + Encoded(s.csi.value.attributes)))
    else if s.ebs.Some? then
      Some(BackendRef("ebs", ClaimDetails(o)["volumeID" := s.ebs.value.id]["fsType" := s.ebs.value.fsType]))
    else if s.gcePd.Some? then
      Some(BackendRef("gce-pd", ClaimDetails(o)["pdName" := s.gcePd.value.id]["fsType" := s.gcePd.value.fsType]))
    else if s.azureDisk.Some? then
      Some(BackendRef("azure-disk",
        ClaimDetails(o)["diskName" := s.azureDisk.value.id]["diskURI" := s.azureDisk.value.fsType]))
    else if s.cephfs.Some? then
      var c := s.cephfs.value;
      var first := if |c.monitors| > 0 then c.monitors[0] else "";
      Some(BackendRef(KIND_CEPHFS, ClaimDetails(o)["filesystemID" := "ceph://" + first + c.path]
        ["monitors" := first]["path" := c.path]["subPath" := SubPath(o)]))
    else if s.gluster.Some? then
      var g := s.gluster.value;
      Some(BackendRef("glusterfs", ClaimDetails(o)["filesystemID" := "gluster://" + g.endpoints + "/" + g.path]
        ["endpoints" := g.endpoints]["path" := g.path]["subPath" := SubPath(o)]))
    else if s.hostPath.Some? then Some(BackendRef(KIND_HOSTPATH, ClaimDetails(o)["path" := s.hostPath.value]))
    else None
  }

  // What has been written after the attributes outside todo.
  ghost function EncodedBut(attributes: Details, todo: set<string>): Details {
    Encoded(map k | k in attributes.Keys - todo :: attributes[k])
  }

  lemma EncodedAdd(d: Details, k: string, v: string)
    requires k !in d
    ensures Encoded(d[k := v]) == Encoded(d)[Prefixed(k) := v]
  {
  }

  lemma EncodedButOne(base: Details, attributes: Details, todo: set<string>, k: string)
    requires k in todo && todo <= attributes.Keys
    ensures base + EncodedBut(attributes, todo - {k}) ==
            (base + EncodedBut(attributes, todo))[Prefixed(k) := attributes[k]]
  {
    var before := map j | j in attributes.Keys - todo :: attributes[j];
    var after := map j | j in attributes.Keys - (todo - {k}) :: attributes[j];
    assert after == before[k := attributes[k]];
    EncodedAdd(before, k, attributes[k]);
    SumUpdate(base, EncodedBut(attributes, todo), Prefixed(k), attributes[k]);
  }

  lemma SumUpdate(base: Details, d: Details, k: string, v: string)
    ensures base + d[k := v] == (base + d)[k := v]
  {
  }

  lemma EncodedButAll(base: Details, attributes: Details)
    ensures base + EncodedBut(attributes, attributes.Keys) == base
    ensures EncodedBut(attributes, {}) == Encoded(attributes)
  {
  }

  /** The loop that adds the attributes to a record, in any iteration order. */
  method AddAttributes(base: Details, attributes: Details) returns (details: Details)
    ensures details == base + Encoded(attributes)
  {
    details := base;
    var todo := attributes.Keys;
    EncodedButAll(base, attributes);
    while todo != {}
      invariant todo <= attributes.Keys
      invariant details == base + EncodedBut(attributes, todo)
      decreases todo
    {
      var k :| k in todo;
      EncodedButOne(base, attributes, todo, k);
      details := details[Prefixed(k) := attributes[k]];
      todo := todo - {k};
    }
  }

  method ExtractBackend(s: Source, o: Owner) returns (r: Option<BackendRef>)
    ensures r == Extracted(s, o)
  {
    var subPath := "/modelrepositories/" + o.repo;
    var details := map["pvcName" := o.pvcName, "pvcNamespace" := o.namespace];
    if s.nfs.Some? {
      var n := s.nfs.value;
      details := details["filesystemID" := "nfs://" + n.server + n.path]["server" := n.server]["exportPath" := n.path];
      return Some(BackendRef(KIND_NFS, details["subPath" := subPath]));
    }
    if s.csi.Some? {
      var c := s.csi.value;
      details := details["driver" := c.driver]["volumeID" := c.handle]["subPath" := subPath];
      details := AddAttributes(details, c.attributes);
      var kind := KIND_CSI;
      if c.driver == DRIVER_NFS {
        kind := KIND_NFS;
        if "server" in c.attributes && "share" in c.attributes {
          var server, share := c.attributes["server"], c.attributes["share"];
          details := details["filesystemID" := "nfs://" + server + share];
          details := details["server" := server];
          details := details["exportPath" := share];
        }
      } else if c.driver == DRIVER_CEPHFS {
        kind := KIND_CEPHFS;
        details := details["filesystemID" := "ceph://" + c.handle];
      } else if c.driver == DRIVER_LONGHORN {
        kind := KIND_LONGHORN;
      }
      return Some(BackendRef(kind, details));
    }
    if s.ebs.Some? {
      return Some(BackendRef("ebs", details["volumeID" := s.ebs.value.id]["fsType" := s.ebs.value.fsType]));
    }
    if s.gcePd.Some? {
      return Some(BackendRef("gce-pd", details["pdName" := s.gcePd.value.id]["fsType" := s.gcePd.value.fsType]));
    }
    if s.azureDisk.Some? {
      return Some(BackendRef("azure-disk", details["diskName" := s.azureDisk.value.id]["diskURI" := s.azureDisk.value.fsType]));
    }
    if s.cephfs.Some? {
      var c := s.cephfs.value;
      var monitors := "";
      if |c.monitors| > 0 {
        monitors := c.monitors[0];
      }
      details := details["filesystemID" := "ceph://" + monitors + c.path]["monitors" := monitors]["path" := c.path];
      return Some(BackendRef(KIND_CEPHFS, details["subPath" := subPath]));
    }
    if s.gluster.Some? {
      var g := s.gluster.value;
      details := details["filesystemID" := "gluster://" + g.endpoints + "/" + g.path]["endpoints" := g.endpoints]["path" := g.path];
      return Some(BackendRef("glusterfs", details["subPath" := subPath]));
    }
    if s.hostPath.Some? {
      return Some(BackendRef(KIND_HOSTPATH, details["path" := s.hostPath.value]));
    }
    return None;
  }

  // ---------------------------------------------------------------- rebuilding

  function SourceFrom(b: BackendRef): Option<Source> {
    var d := b.details;
    if b.kind == KIND_NFS then
      if Get(d, "server") == "" || Get(d, "exportPath") == "" then None
      else Some(NO_SOURCE.(nfs := Some(NFS(Get(d, "server"), Get(d, "exportPath"), true))))
    else if b.kind == KIND_HOSTPATH then
      if Get(d, "path") == "" then None else Some(NO_SOURCE.(hostPath := Some(Get(d, "path"))))
    else if b.kind == KIND_CEPHFS then
      if Get(d, "monitors") == "" then None
      else Some(NO_SOURCE.(cephfs := Some(CephFS([Get(d, "monitors")], Get(d, "path"), true))))
    else if b.kind == KIND_LONGHORN || b.kind == KIND_CSI then
      if Get(d, "driver") == "" || Get(d, "volumeID") == "" then None
      else Some(NO_SOURCE.(csi := Some(CSI(Get(d, "driver"), Get(d, "volumeID"), true, Decoded(d)))))
    else None
  }

  type ParseQuantity = string -> Option<nat>

  const DEFAULT_CAPACITY := "10Gi"

  /** The read-only mirror of a recorded backend.  An unparseable capacity panics. */
  function MirrorSpec(parse: ParseQuantity, b: BackendRef, st: StorageStatus): Outcome<VolumeSpec> {
    var capacity := if st.capacity == "" then DEFAULT_CAPACITY else st.capacity;
    match parse(capacity)
    case None => Panic
    case Some(q) =>
      match SourceFrom(b)
      case None => Err
      case Some(s) =>
        Ok(VolumeSpec(q, [ReadOnlyMany], s,
          if b.kind == KIND_HOSTPATH && st.boundNode != "" then PinnedTo(st.boundNode) else [], None, Delete))
  }

  // What has been read from the record's entries outside todo.
  ghost function DecodedBut(details: Details, todo: set<string>): Details {
    Decoded(map k | k in details.Keys - todo :: details[k])
  }

  lemma DecodedButOne(details: Details, todo: set<string>, key: string)
    requires key in todo && todo <= details.Keys
    ensures DecodedBut(details, todo - {key}) ==
            if PREFIX <= key then DecodedBut(details, todo)[key[|PREFIX|..] := details[key]]
            else DecodedBut(details, todo)
  {
    var before := map k | k in details.Keys - todo :: details[k];
    var after := map k | k in details.Keys - (todo - {key}) :: details[k];
    assert after == before[key := details[key]];
    DecodedAdd(before, key, details[key]);
  }

  lemma DecodedAdd(d: Details, key: string, v: string)
    requires key !in d
    ensures Decoded(d[key := v]) == if PREFIX <= key then Decoded(d)[key[|PREFIX|..] := v] else Decoded(d)
  {
    var e := d[key := v];
    forall k ensures k in Decoded(e) <==> k in Decoded(d) || (PREFIX <= key && k == key[|PREFIX|..]) {
      if k in Decoded(d) {
        var x :| x in d && PREFIX <= x && x[|PREFIX|..] == k;
        assert x in e;
      }
      if PREFIX <= key && k == key[|PREFIX|..] {
        assert key in e;
      }
    }
    forall k | k in Decoded(d) && (PREFIX <= key ==> k != key[|PREFIX|..])
      ensures DecodedAt(e, k) == DecodedAt(d, k)
    {
      assert Prefixed(k) != key;
    }
    if PREFIX <= key {
      PrefixedTrim(key);
    }
  }

  method BuildReadOnlyPVSpec(parse: ParseQuantity, b: BackendRef, st: StorageStatus) returns (r: Outcome<VolumeSpec>)
    ensures r == MirrorSpec(parse, b, st)
  {
    var capacity := st.capacity;
    if capacity == "" {
      capacity := DEFAULT_CAPACITY;
    }
    var quantity := parse(capacity);
    if quantity.None? {
      return Panic;
    }
    var d, source, terms := b.details, NO_SOURCE, [];
    if b.kind == KIND_NFS {
      if Get(d, "server") == "" || Get(d, "exportPath") == "" {
        return Err;
      }
      source := source.(nfs := Some(NFS(Get(d, "server"), Get(d, "exportPath"), true)));
    } else if b.kind == KIND_HOSTPATH {
      if Get(d, "path") == "" {
        return Err;
      }
      source := source.(hostPath := Some(Get(d, "path")));
      if st.boundNode != "" {
        terms := PinnedTo(st.boundNode);
      }
    } else if b.kind == KIND_CEPHFS {
      if Get(d, "monitors") == "" {
        return Err;
      }
      source := source.(cephfs := Some(CephFS([Get(d, "monitors")], Get(d, "path"), true)));
    } else if b.kind == KIND_LONGHORN || b.kind == KIND_CSI {
      if Get(d, "driver") == "" || Get(d, "volumeID") == "" {
        return Err;
      }
      var attributes := RebuildAttributes(d);
      source := source.(csi := Some(CSI(Get(d, "driver"), Get(d, "volumeID"), true, attributes)));
    } else {
      return Err;
    }
    return Ok(VolumeSpec(quantity.value, [ReadOnlyMany], source, terms, None, Delete));
  }

  /** The loop that undoes the key prefix, in any iteration order. */
  method RebuildAttributes(details: Details) returns (attributes: Details)
    ensures attributes == Decoded(details)
  {
    attributes := map[];
    var todo := details.Keys;
    assert attributes == DecodedBut(details, todo);
    while todo != {}
      invariant todo <= details.Keys
      invariant attributes == DecodedBut(details, todo)
      decreases todo
    {
      var key :| key in todo;
      DecodedButOne(details, todo, key);
      if PREFIX <= key {
        attributes := attributes[key[|PREFIX|..] := details[key]];
      }
      todo := todo - {key};
    }
    assert (map k | k in details.Keys :: details[k]) == details;
  }

  // ---------------------------------------------------------------- the round trip

  /** What a read-only mirror of a volume must be, without reference to any record. */
  function MirrorOf(s: Source): Option<Source> {
    if s.nfs.Some? then
      var n := s.nfs.value;
      if n.server != "" && n.path != "" then Some(NO_SOURCE.(nfs := Some(n.(readOnly := true)))) else None
    else if s.csi.Some? then
      var c := s.csi.value;
      if c.driver == DRIVER_NFS then
        if Get(c.attributes, "server") != "" && Get(c.attributes, "share") != "" then
          Some(NO_SOURCE.(nfs := Some(NFS(c.attributes["server"], c.attributes["share"], true))))
        else None
      else if c.driver != DRIVER_CEPHFS && c.driver != "" && c.handle != "" then
        Some(NO_SOURCE.(csi := Some(c.(readOnly := true))))
      else None
    else if s.ebs.Some? || s.gcePd.Some? || s.azureDisk.Some? then None
    else if s.cephfs.Some? then
      var c := s.cephfs.value;
      if |c.monitors| > 0 && c.monitors[0] != "" then
        Some(NO_SOURCE.(cephfs := Some(CephFS([c.monitors[0]], c.path, true))))
      else None
    else if s.gluster.Some? then None
    else if s.hostPath.Some? && s.hostPath.value != "" then Some(NO_SOURCE.(hostPath := s.hostPath))
    else None
  }

  /** Recording a volume and rebuilding it gives the mirror, on exactly the volumes that have one. */
  lemma BackendRoundTrip(s: Source, o: Owner)
    ensures match Extracted(s, o)
            case Some(b) => SourceFrom(b) == MirrorOf(s)
            case None => MirrorOf(s) == None
  {
    if s.nfs.None? && s.csi.Some? {
      CsiRoundTrip(s.csi.value, o);
    }
  }

  lemma CsiBaseKeys(c: CSI, o: Owner)
    ensures forall key | key in CsiBase(c, o) :: !(PREFIX <= key)
  {
    assert CsiBase(c, o).Keys == {"pvcName", "pvcNamespace", "driver", "volumeID", "subPath"};
    forall key | key in CsiBase(c, o) ensures !(PREFIX <= key) {
      assert key[0] != 'c' && PREFIX[0] == 'c';
    }
  }

  // Attributes do not show under unprefixed keys.
  lemma PlainKey(base: Details, attributes: Details, key: string)
    requires !(PREFIX <= key)
    ensures Get(base + Encoded(attributes), key) == Get(base, key)
  {
  }

  lemma NfsCsiRoundTrip(c: CSI, base: Details)
    requires c.driver == DRIVER_NFS && Get(base, "server") == "" && Get(base, "exportPath") == ""
    ensures SourceFrom(CsiRecord(c, base)) == MirrorOf(NO_SOURCE.(csi := Some(c)))
  {
  }

  lemma CephCsiRoundTrip(c: CSI, base: Details)
    requires c.driver == DRIVER_CEPHFS && Get(base, "monitors") == ""
    ensures SourceFrom(CsiRecord(c, base)) == None
  {
  }

  lemma PlainCsiRoundTrip(c: CSI, base: Details)
    requires c.driver != DRIVER_NFS && c.driver != DRIVER_CEPHFS
    requires Get(base, "driver") == c.driver && Get(base, "volumeID") == c.handle
    requires Decoded(base) == c.attributes
    ensures SourceFrom(CsiRecord(c, base)) == MirrorOf(NO_SOURCE.(csi := Some(c)))
  {
  }

  lemma CsiRoundTrip(c: CSI, o: Owner)
    ensures SourceFrom(CsiRecord(c, CsiBase(c, o) + Encoded(c.attributes))) ==
            MirrorOf(NO_SOURCE.(csi := Some(c)))
  {
    var base := CsiBase(c, o);
    var details := base + Encoded(c.attributes);
    CsiBaseValues(c, o);
    forall key | key in {"server", "exportPath", "monitors", "driver", "volumeID"}
      ensures Get(details, key) == Get(base, key)
    {
      assert key[0] != 'c' && PREFIX[0] == 'c';
      PlainKey(base, c.attributes, key);
    }
    if c.driver == DRIVER_NFS {
      NfsCsiRoundTrip(c, details);
    } else if c.driver == DRIVER_CEPHFS {
      CephCsiRoundTrip(c, details);
    } else {
      CsiBaseKeys(c, o);
      AttributesRoundTrip(base, c.attributes);
      PlainCsiRoundTrip(c, details);
    }
  }

  lemma CsiBaseValues(c: CSI, o: Owner)
    ensures var base := CsiBase(c, o);
            && Get(base, "server") == "" && Get(base, "exportPath") == "" && Get(base, "monitors") == ""
            && Get(base, "driver") == c.driver && Get(base, "volumeID") == c.handle
  {
  }

  /** A mirror is its own mirror: mirroring again changes nothing. */
  lemma MirrorIsStable(s: Source)
    ensures MirrorOf(s).Some? ==> MirrorOf(MirrorOf(s).value) == MirrorOf(s)
  {
  }

  /** The mirror of a host path is pinned to the recorded node, and reads back as it. */
  lemma HostPathNode(parse: ParseQuantity, s: Source, o: Owner, st: StorageStatus)
    ensures match Extracted(s, o)
            case None => true
            case Some(b) =>
              match MirrorSpec(parse, b, st)
              case Ok(spec) => NodeName(spec.nodeTerms) == if spec.source.hostPath.Some? then st.boundNode else ""
              case _ => true
  {
  }

  // ---------------------------------------------------------------- what a record holds

  /** Which member of a source counts: the first that is set, in this order. */
  datatype Member = NfsMember | CsiMember | EbsMember | GceMember | AzureMember | CephMember | GlusterMember | HostMember | NoMember

  function FirstMember(s: Source): Member {
    if s.nfs.Some? then NfsMember else if s.csi.Some? then CsiMember else if s.ebs.Some? then EbsMember
    else if s.gcePd.Some? then GceMember else if s.azureDisk.Some? then AzureMember else if s.cephfs.Some? then CephMember
    else if s.gluster.Some? then GlusterMember else if s.hostPath.Some? then HostMember else NoMember
  }

  /** The kind an engine goes by when it mounts the volume. */
  function KindFor(s: Source): string {
    match FirstMember(s)
    case NfsMember => "nfs"
    case CsiMember =>
      if s.csi.value.driver == "nfs.csi.k8s.io" then "nfs"
      else if s.csi.value.driver == "cephfs.csi.ceph.com" then "cephfs"
      else if s.csi.value.driver == "driver.longhorn.io" then "longhorn" else "csi"
    case EbsMember => "ebs"
    case GceMember => "gce-pd"
    case AzureMember => "azure-disk"
    case CephMember => "cephfs"
    case GlusterMember => "glusterfs"
    case HostMember => "hostpath"
    case NoMember => ""
  }

  /** Every volume with a known member has a record; it names its kind and the claim, so that the
      volume can be mounted through it, and, where data is shared, the repository's directory. */
  lemma RecordNamesClaim(s: Source, o: Owner)
    ensures Extracted(s, o).None? <==> FirstMember(s).NoMember?
    ensures Extracted(s, o).Some? ==>
              var b := Extracted(s, o).value;
              && b.kind == KindFor(s)
              && Get(b.details, "pvcName") == o.pvcName && Get(b.details, "pvcNamespace") == o.namespace
              && Get(b.details, "subPath") ==
                 if FirstMember(s) in {NfsMember, CsiMember, CephMember, GlusterMember} then "/modelrepositories/" + o.repo else ""
  {
    if FirstMember(s).CsiMember? {
      CsiRecordHolds(s.csi.value, o);
    }
  }

  lemma CsiRecordKeeps(c: CSI, details: Details, key: string)
    requires key !in ["filesystemID", "server", "exportPath"]
    ensures Get(CsiRecord(c, details).details, key) == Get(details, key)
  {
  }

  lemma PlainCsiKey(c: CSI, o: Owner, key: string)
    requires key in ["pvcName", "pvcNamespace", "subPath", "driver", "volumeID"]
    ensures Get(CsiRecord(c, CsiBase(c, o) + Encoded(c.attributes)).details, key) == Get(CsiBase(c, o), key)
  {
    assert key[0] != 'c' && PREFIX[0] == 'c';
    hide CsiRecord, CsiBase, Encoded;
    PlainKey(CsiBase(c, o), c.attributes, key);
    CsiRecordKeeps(c, CsiBase(c, o) + Encoded(c.attributes), key);
  }

  lemma CsiBaseHolds(c: CSI, o: Owner)
    ensures var d := CsiBase(c, o);
            && Get(d, "pvcName") == o.pvcName && Get(d, "pvcNamespace") == o.namespace
            && Get(d, "subPath") == "/modelrepositories/" + o.repo
            && Get(d, "driver") == c.driver && Get(d, "volumeID") == c.handle
  {
  }

  // What the record of a CSI volume holds under its unprefixed keys.
  lemma CsiRecordHolds(c: CSI, o: Owner)
    ensures var d := CsiRecord(c, CsiBase(c, o) + Encoded(c.attributes)).details;
            && Get(d, "pvcName") == o.pvcName && Get(d, "pvcNamespace") == o.namespace
            && Get(d, "subPath") == "/modelrepositories/" + o.repo
            && Get(d, "driver") == c.driver && Get(d, "volumeID") == c.handle
  {
    hide *;
    CsiBaseHolds(c, o);
    PlainCsiKey(c, o, "pvcName");
    PlainCsiKey(c, o, "pvcNamespace");
    PlainCsiKey(c, o, "subPath");
    PlainCsiKey(c, o, "driver");
    PlainCsiKey(c, o, "volumeID");
  }

  /** The attributes of a CSI volume are recorded under their prefixed keys. */
  lemma CsiAttributesRecorded(c: CSI, o: Owner, k: string)
    requires k in c.attributes
    ensures Get(CsiRecord(c, CsiBase(c, o) + Encoded(c.attributes)).details, "csi." + k) == c.attributes[k]
  {
    var key := Prefixed(k);
    assert key == "csi." + k && key in Encoded(c.attributes);
    assert key != "filesystemID" && key != "server" && key != "exportPath" by {
      assert key[0] == 'c';
    }
    hide Encoded, CsiBase;
  }

  /** A CSI driver for a shared file system gives the record that file system's address. */
  lemma CsiAddress(c: CSI, details: Details)
    ensures var d, attributes := CsiRecord(c, details).details, c.attributes;
            && (c.driver == "nfs.csi.k8s.io" && "server" in attributes && "share" in attributes ==>
                  && Get(d, "server") == attributes["server"] && Get(d, "exportPath") == attributes["share"]
                  && Get(d, "filesystemID") == "nfs://" + attributes["server"] + attributes["share"])
            && (c.driver == "cephfs.csi.ceph.com" ==> Get(d, "filesystemID") == "ceph://" + c.handle)
            && (c.driver !in {"nfs.csi.k8s.io", "cephfs.csi.ceph.com"} ==> d == details)
  {
  }

  /** Where the data is: what the record says beyond the claim. */
  lemma RecordLocates(s: Source, o: Owner)
    ensures Extracted(s, o).Some? ==>
              var d := Extracted(s, o).value.details;
              match FirstMember(s)
              case NfsMember =>
                && Get(d, "server") == s.nfs.value.server && Get(d, "exportPath") == s.nfs.value.path
                && Get(d, "filesystemID") == "nfs://" + s.nfs.value.server + s.nfs.value.path
              case CsiMember => Get(d, "driver") == s.csi.value.driver && Get(d, "volumeID") == s.csi.value.handle
              case EbsMember => Get(d, "volumeID") == s.ebs.value.id && Get(d, "fsType") == s.ebs.value.fsType
              case GceMember => Get(d, "pdName") == s.gcePd.value.id && Get(d, "fsType") == s.gcePd.value.fsType
              case AzureMember => Get(d, "diskName") == s.azureDisk.value.id && Get(d, "diskURI") == s.azureDisk.value.fsType
              case CephMember =>
                var first := if |s.cephfs.value.monitors| > 0 then s.cephfs.value.monitors[0] else "";
                && Get(d, "monitors") == first && Get(d, "path") == s.cephfs.value.path
                && Get(d, "filesystemID") == "ceph://" + first + s.cephfs.value.path
              case GlusterMember =>
                && Get(d, "endpoints") == s.gluster.value.endpoints && Get(d, "path") == s.gluster.value.path
                && Get(d, "filesystemID") == "gluster://" + s.gluster.value.endpoints + "/" + s.gluster.value.path
              case HostMember => Get(d, "path") == s.hostPath.value
              case NoMember => true
  {
    if FirstMember(s).CsiMember? {
      CsiRecordHolds(s.csi.value, o);
      hide CsiRecord, Encoded, CsiBase;
    }
  }

  /** A mirror shows the same data, read-only: one member, with the server, path, handle and
      attributes of the original. */
  lemma MirrorShowsSameData(s: Source)
    ensures MirrorOf(s).Some? ==>
              var m := MirrorOf(s).value;
              && m.ebs.None? && m.gcePd.None? && m.azureDisk.None? && m.gluster.None?
              && (m.nfs.Some? ==> m == NO_SOURCE.(nfs := m.nfs) && m.nfs.value.readOnly)
              && (m.csi.Some? ==> m == NO_SOURCE.(csi := m.csi) && m.csi.value.readOnly)
              && (m.cephfs.Some? ==> m == NO_SOURCE.(cephfs := m.cephfs) && m.cephfs.value.readOnly)
              && (m.hostPath.Some? ==> m == NO_SOURCE.(hostPath := s.hostPath))
              && (match FirstMember(s)
                  case NfsMember => m.nfs.Some? && m.nfs.value == s.nfs.value.(readOnly := true)
                  case CsiMember =>
                    if s.csi.value.driver == "nfs.csi.k8s.io"
                    then m.nfs.Some? && m.nfs.value.server == Get(s.csi.value.attributes, "server")
                         && m.nfs.value.path == Get(s.csi.value.attributes, "share")
                    else m.csi.Some? && m.csi.value == s.csi.value.(readOnly := true)
                  case CephMember =>
                    m.cephfs.Some? && m.cephfs.value == s.cephfs.value.(monitors := [s.cephfs.value.monitors[0]], readOnly := true)
                  case HostMember => m.hostPath.Some?
                  case _ => false)
  {
  }

  /** And there is one exactly for the members that can be mounted read-only and are complete. */
  lemma MirrorExists(s: Source)
    ensures MirrorOf(s).Some? <==>
            match FirstMember(s)
            case NfsMember => s.nfs.value.server != "" && s.nfs.value.path != ""
            case CsiMember =>
              if s.csi.value.driver == "nfs.csi.k8s.io"
              then Get(s.csi.value.attributes, "server") != "" && Get(s.csi.value.attributes, "share") != ""
              else s.csi.value.driver !in {"", "cephfs.csi.ceph.com"} && s.csi.value.handle != ""
            case CephMember => |s.cephfs.value.monitors| > 0 && s.cephfs.value.monitors[0] != ""
            case HostMember => s.hostPath.value != ""
            case _ => false
  {
  }

  /** The node of a volume: the first value of the first requirement that puts it on named hosts. */
  lemma {:induction false} NodeIsFirst(terms: NodeTerms) returns (i: nat, j: nat)
    ensures if i < |terms| then j < |terms[i]| && OnHosts(terms[i][j]) && NodeName(terms) == terms[i][j].values[0]
            else NodeName(terms) == ""
    ensures forall a, b | 0 <= a < |terms| && 0 <= b < |terms[a]| && (a < i || (a == i && b < j)) :: !OnHosts(terms[a][b])
  {
    i, j := 0, 0;
    if terms != [] {
      j := FirstInTerm(terms[0]);
      if j == |terms[0]| {
        i, j := NodeIsFirst(terms[1..]);
        i := i + 1;
      }
    }
  }

  lemma {:induction false} FirstInTerm(term: seq<Requirement>) returns (j: nat)
    ensures j <= |term| && forall b | 0 <= b < j :: !OnHosts(term[b])
    ensures if j < |term| then OnHosts(term[j]) && NodeIn(term) == Some(term[j].values[0]) else NodeIn(term) == None
  {
    j := 0;
    if term != [] && !OnHosts(term[0]) {
      j := FirstInTerm(term[1..]);
      j := j + 1;
    }
  }

  predicate OnHosts(r: Requirement) { r.key == "kubernetes.io/hostname" && r.operator == In && r.values != [] }
}
