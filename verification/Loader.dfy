/**
 LoadedTopology::build_from_ over an already parsed profile: a multi-pass
 validator that accepts exactly the profiles of one declarative predicate and
 builds exactly the tables they describe.
 */
module Loader {
  import opened Bytes
  import opened Frame
  import opened Routing
  import opened Topology

  type int64 = n: int | -0x8000_0000_0000_0000 <= n < 0x8000_0000_0000_0000

  const PEER_NAME_MAX: nat := 63
  const SIDEBAND_NAME_MAX: nat := 250
  const TOPIC_NAME_MAX: nat := 63
  const SLOT_COUNT_MAX: int := 0x10_0000
  const MAX_PAYLOAD_MAX: int := 0x1000_0000

  // ----- the parsed profile -------------------------------------------------

  /** An address key: absent, present but rejected by parse_address_, or an address. */
  datatype AddressField = NotGiven | Malformed | Parsed(address: Address)

  datatype RouterTable = RouterTable(listen: AddressField, listenUds: AddressField, listenUdp: AddressField)

  datatype SidebandTable = SidebandTable(name: Option<string>, bytes: Option<int64>, version: Option<int64>,
                                         memoryClass: Option<string>, cudaDevice: Option<int64>)

  datatype PeerTable = PeerTable(id: Option<int64>, name: Option<string>, local: AddressField,
                                 slotCount: Option<int64>, maxPayload: Option<int64>,
                                 sidebands: seq<Option<SidebandTable>>)

  datatype RouteTable = RouteTable(source: Option<int64>, dest: seq<Option<int64>>, topic: Option<int64>)

  datatype TopicTable = TopicTable(id: Option<int64>, name: Option<string>, payloadClass: Option<string>,
                                   sidebandIdx: Option<int64>)

  /** Array entries that are not tables are None; an absent array is empty. */
  datatype Profile = Profile(router: Option<RouterTable>, peers: seq<Option<PeerTable>>,
                             routes: seq<Option<RouteTable>>, topics: seq<Option<TopicTable>>)

  // ----- one declarative predicate ------------------------------------------

  ghost predicate ValidRouter(r: Option<RouterTable>) {
    && r.Some?
    && r.value.listen.Parsed?
    && (r.value.listenUds.NotGiven? || (r.value.listenUds.Parsed? && r.value.listenUds.address.Uds?))
    && (r.value.listenUdp.NotGiven? || (r.value.listenUdp.Parsed? && r.value.listenUdp.address.Udp?))
  }

  function ParseMemoryClass(s: string): Option<MemoryClass> {
    if s == "shm" then Some(ShmMemory)
    else if s == "cuda_managed" then Some(CudaManaged)
    else if s == "cuda_host" then Some(CudaHost)
    else if s == "nvbufsurface" then Some(NvBufSurface)
    else None
  }

  function MemoryClassOf(t: SidebandTable): Option<MemoryClass> {
    if t.memoryClass.None? then Some(ShmMemory) else ParseMemoryClass(t.memoryClass.value)
  }

  ghost predicate ValidSideband(t: Option<SidebandTable>) {
    && t.Some?
    && t.value.name.Some? && |t.value.name.value| <= SIDEBAND_NAME_MAX
    && t.value.bytes.Some? && t.value.bytes.value > 0
    && (t.value.version.Some? ==> 0 <= t.value.version.value <= 0xFFFF_FFFF)
    && MemoryClassOf(t.value).Some?
    && (t.value.cudaDevice.Some? ==> MemoryClassOf(t.value).value != ShmMemory && 0 <= t.value.cudaDevice.value <= 255)
  }

  /** A peer's scalars: id range, name length, an address, ring sizes only on shm peers and within limits. */
  ghost predicate ValidScalars(t: Option<PeerTable>) {
    && t.Some?
    && t.value.id.Some? && 1 <= t.value.id.value <= 254
    && t.value.name.Some? && 1 <= |t.value.name.value| <= PEER_NAME_MAX
    && t.value.local.Parsed?
    && (t.value.slotCount.Some? || t.value.maxPayload.Some? ==> t.value.local.address.Shm?)
    && (t.value.slotCount.Some? ==> 0 <= t.value.slotCount.value <= SLOT_COUNT_MAX)
    && (t.value.maxPayload.Some? ==>
          t.value.maxPayload.value == 0 || FRAME_SIZE <= t.value.maxPayload.value <= MAX_PAYLOAD_MAX)
  }

  ghost predicate ValidPeer(t: Option<PeerTable>) {
    && ValidScalars(t)
    && forall j :: 0 <= j < |t.value.sidebands| ==> ValidSideband(t.value.sidebands[j])
  }

  ghost predicate ValidPeers(ts: seq<Option<PeerTable>>) {
    && (forall i :: 0 <= i < |ts| ==> ValidPeer(ts[i]))
    && forall i, j :: 0 <= i < j < |ts| ==> ts[i].value.id != ts[j].value.id
  }

  /** The endpoint bound for a datagram transport: its own key if given, else the primary listen if of that kind. */
  function ListenFor(r: RouterTable, t: Transport): Option<Address> {
    match t
    case ShmRing => None
    case UdsPath =>
      if r.listenUds.Parsed? then Some(r.listenUds.address)
      else if r.listen.Parsed? && r.listen.address.Uds? then Some(r.listen.address) else None
    case UdpEndpoint =>
      if r.listenUdp.Parsed? then Some(r.listenUdp.address)
      else if r.listen.Parsed? && r.listen.address.Udp? then Some(r.listen.address) else None
  }

  /**
   The listens an accepted router table leaves: a transport's own key wins; without
   one, the primary listen serves the transport it is an address of, and no other.
   */
  ghost predicate ListensAre(r: RouterTable, uds: Option<Address>, udp: Option<Address>) {
    && (r.listenUds.Parsed? ==> uds == Some(r.listenUds.address))
    && (r.listenUds.NotGiven? ==> uds == if r.listen.Parsed? && r.listen.address.Uds? then Some(r.listen.address) else None)
    && (r.listenUdp.Parsed? ==> udp == Some(r.listenUdp.address))
    && (r.listenUdp.NotGiven? ==> udp == if r.listen.Parsed? && r.listen.address.Udp? then Some(r.listen.address) else None)
  }

  predicate Serves(r: RouterTable, t: Transport) { t == ShmRing || ListenFor(r, t).Some? }

  /** The source is narrowed to a byte before anything looks at it. */
  function Narrow(n: int64): byte { n % 256 }

  ghost predicate IsPeerId(peers: seq<PeerEntry>, id: int) {
    exists p :: p in peers && p.id == id
  }

  ghost predicate ValidRoute(t: Option<RouteTable>, peers: seq<PeerEntry>) {
    && t.Some?
    && t.value.source.Some?
    && 1 <= |t.value.dest| <= MAX_DESTS
    && (forall k :: 0 <= k < |t.value.dest| ==> t.value.dest[k].Some? && 1 <= t.value.dest[k].value <= 254)
    && (t.value.topic.Some? ==> 0 <= t.value.topic.value <= 0xFFFE)
    && IsPeerId(peers, Narrow(t.value.source.value))
    && (forall k :: 0 <= k < |t.value.dest| ==>
          IsPeerId(peers, t.value.dest[k].value) && t.value.dest[k].value != Narrow(t.value.source.value))
    && forall j, k :: 0 <= j < k < |t.value.dest| ==> t.value.dest[j] != t.value.dest[k]
  }

  ghost predicate ValidTopic(t: Option<TopicTable>) {
    && t.Some?
    && t.value.id.Some? && 0 <= t.value.id.value <= 0xFFFF
    && t.value.name.Some? && 1 <= |t.value.name.value| <= TOPIC_NAME_MAX
    && (t.value.payloadClass.Some? ==> 1 <= |t.value.payloadClass.value| <= TOPIC_NAME_MAX)
    && (t.value.sidebandIdx.Some? ==> 0 <= t.value.sidebandIdx.value <= 0xFFFF)
  }

  ghost predicate ValidTopics(ts: seq<Option<TopicTable>>) {
    && (forall i :: 0 <= i < |ts| ==> ValidTopic(ts[i]))
    && forall i, j :: 0 <= i < j < |ts| ==> ts[i].value.id != ts[j].value.id && ts[i].value.name != ts[j].value.name
  }

  /** A route's topic selector names a topic declared anywhere in the file. */
  ghost predicate TopicDeclared(t: Option<RouteTable>, topics: seq<Option<TopicTable>>) {
    t.Some? && t.value.topic.Some? ==>
      exists i :: 0 <= i < |topics| && topics[i].Some? && topics[i].value.id == t.value.topic
  }

  ghost predicate ValidProfile(p: Profile) {
    && ValidRouter(p.router)
    && p.peers != []
    && ValidPeers(p.peers)
    && (forall i :: 0 <= i < |p.peers| ==> Serves(p.router.value, TransportOf(p.peers[i].value.local.address)))
    && (forall i :: 0 <= i < |p.routes| ==> ValidRoute(p.routes[i], PeersOf(p.peers)))
    && ValidTopics(p.topics)
    && (forall i :: 0 <= i < |p.routes| ==> TopicDeclared(p.routes[i], p.topics))
  }

  // ----- what an accepted profile denotes -----------------------------------

  function OrZero(o: Option<int64>): nat {
    if o.Some? && o.value >= 0 then o.value else 0
  }

  ghost function PeerOf(t: Option<PeerTable>): PeerEntry
    requires ValidScalars(t)
  {
    PeerEntry(t.value.id.value, t.value.name.value, t.value.local.address, OrZero(t.value.slotCount), OrZero(t.value.maxPayload))
  }

  ghost function PeersOf(ts: seq<Option<PeerTable>>): (r: seq<PeerEntry>)
    requires forall i :: 0 <= i < |ts| ==> ValidPeer(ts[i])
    ensures |r| == |ts|
    ensures forall i :: 0 <= i < |ts| ==> ValidPeer(ts[i]) && r[i] == PeerOf(ts[i])
  {
    seq(|ts|, i requires 0 <= i < |ts| => assert ValidPeer(ts[i]); PeerOf(ts[i]))
  }

  ghost function RegionOf(t: Option<SidebandTable>): SidebandRegion
    requires ValidSideband(t)
  {
    SidebandRegion(t.value.name.value, t.value.bytes.value, if t.value.version.Some? then t.value.version.value else 1,
                   MemoryClassOf(t.value).value, if t.value.cudaDevice.Some? then t.value.cudaDevice.value else CUDA_UNSET)
  }

  /** The regions declared under one peer, in order. */
  ghost function RegionsOf(ts: seq<Option<SidebandTable>>): (r: seq<SidebandRegion>)
    requires forall i :: 0 <= i < |ts| ==> ValidSideband(ts[i])
    ensures |r| == |ts|
    ensures forall i :: 0 <= i < |ts| ==> r[i] == RegionOf(ts[i])
  {
    seq(|ts|, i requires 0 <= i < |ts| => RegionOf(ts[i]))
  }

  ghost function AllRegions(ts: seq<Option<PeerTable>>): seq<SidebandRegion>
    requires forall i :: 0 <= i < |ts| ==> ValidPeer(ts[i])
  {
    if ts == [] then []
    else
      var last := ts[|ts| - 1];
      assert ValidPeer(last);
      AllRegions(ts[..|ts| - 1]) + RegionsOf(last.value.sidebands)
  }

  ghost function RuleOf(t: Option<RouteTable>, peers: seq<PeerEntry>): Rule
    requires ValidRoute(t, peers)
  {
    Rule(Narrow(t.value.source.value), if t.value.topic.Some? then t.value.topic.value else TOPIC_ANY,
         seq(|t.value.dest|, k requires 0 <= k < |t.value.dest| => t.value.dest[k].value))
  }

  ghost function TopicOf(t: Option<TopicTable>): TopicEntry
    requires ValidTopic(t)
  {
    TopicEntry(t.value.id.value, t.value.name.value, t.value.payloadClass,
               if t.value.sidebandIdx.Some? then t.value.sidebandIdx.value else SIDEBAND_NONE)
  }

  // ----- the loader ---------------------------------------------------------

  class LoadedTopology {
    var peers: seq<PeerEntry>
    var routes: seq<Rule>
    var topics: seq<TopicEntry>
    var sidebands: seq<SidebandRegion>
    var ranges: seq<(nat, nat)>          // per peer index: [begin, end) in sidebands
    var routerListen: Option<Address>
    var listenUds: Option<Address>
    var listenUdp: Option<Address>

    constructor ()
      ensures peers == [] && routes == [] && topics == [] && sidebands == [] && ranges == []
      ensures routerListen == listenUds == listenUdp == None
    {
      peers, routes, topics, sidebands, ranges := [], [], [], [], [];
      routerListen, listenUds, listenUdp := None, None, None;
    }

    /** [router]: the primary listen doubles as the listen of its own datagram transport. */
    method LoadRouter(r: Option<RouterTable>) returns (ok: bool)
      requires listenUds == listenUdp == None
      modifies this`routerListen, this`listenUds, this`listenUdp
      ensures ok <==> ValidRouter(r)
      ensures ok ==> routerListen == Some(r.value.listen.address)
      ensures ok ==> listenUds == ListenFor(r.value, UdsPath) && listenUdp == ListenFor(r.value, UdpEndpoint)
      ensures ok ==> ListensAre(r.value, listenUds, listenUdp)
      ensures ok ==> (listenUds.Some? ==> listenUds.value.Uds?) && (listenUdp.Some? ==> listenUdp.value.Udp?)
    {
      if r.None? || !r.value.listen.Parsed? {
        return false;
      }
      var listen := r.value.listen.address;
      routerListen := Some(listen);
      if listen.Uds? {
        listenUds := Some(listen);
      } else if listen.Udp? {
        listenUdp := Some(listen);
      }
      if !r.value.listenUds.NotGiven? {
        if !r.value.listenUds.Parsed? || !r.value.listenUds.address.Uds? {
          return false;
        }
        listenUds := Some(r.value.listenUds.address);
      }
      if !r.value.listenUdp.NotGiven? {
        if !r.value.listenUdp.Parsed? || !r.value.listenUdp.address.Udp? {
          return false;
        }
        listenUdp := Some(r.value.listenUdp.address);
      }
      return true;
    }

    method LoadSideband(t: Option<SidebandTable>) returns (ok: bool)
      modifies this`sidebands
      ensures ok <==> ValidSideband(t)
      ensures ok ==> sidebands == old(sidebands) + [RegionOf(t)] && RegionIs(t, sidebands[|sidebands| - 1])
    {
      if t.None? || t.value.name.None? || |t.value.name.value| > SIDEBAND_NAME_MAX {
        return false;
      }
      if t.value.bytes.None? || t.value.bytes.value <= 0 {
        return false;
      }
      var version: u32 := 1;
      if t.value.version.Some? {
        if t.value.version.value < 0 || t.value.version.value > 0xFFFF_FFFF {
          return false;
        }
        version := t.value.version.value;
      }
      var class_ := ShmMemory;
      if t.value.memoryClass.Some? {
        var parsed := ParseMemoryClass(t.value.memoryClass.value);
        if parsed.None? {
          return false;
        }
        class_ := parsed.value;
      }
      var device := CUDA_UNSET;
      if t.value.cudaDevice.Some? {
        if class_ == ShmMemory || t.value.cudaDevice.value < 0 || t.value.cudaDevice.value > 255 {
          return false;
        }
        device := t.value.cudaDevice.value;
      }
      sidebands := sidebands + [SidebandRegion(t.value.name.value, t.value.bytes.value, version, class_, device)];
      return true;
    }

    method LoadSidebands(ts: seq<Option<SidebandTable>>) returns (ok: bool)
      modifies this`sidebands
      ensures ok <==> forall j :: 0 <= j < |ts| ==> ValidSideband(ts[j])
      ensures ok ==> sidebands == old(sidebands) + RegionsOf(ts)
    {
      for j := 0 to |ts|
        invariant forall i :: 0 <= i < j ==> ValidSideband(ts[i])
        invariant sidebands == old(sidebands) + RegionsOf(ts[..j])
      {
        var good := LoadSideband(ts[j]);
        if !good {
          return false;
        }
        assert RegionsOf(ts[..j + 1]) == RegionsOf(ts[..j]) + [RegionOf(ts[j])];
      }
      assert ts[..|ts|] == ts;
      return true;
    }

    /** The scalar part of one [[peers]] entry, with its duplicate-id scan. */
    method LoadPeer(t: Option<PeerTable>) returns (ok: bool)
      modifies this`peers
      ensures ok <==> ValidScalars(t) && !IsPeerId(old(peers), t.value.id.value)
      ensures ok ==> peers == old(peers) + [PeerOf(t)]
    {
      if t.None? || t.value.id.None? || t.value.id.value < 1 || t.value.id.value > 254 {
        return false;
      }
      var id: byte := t.value.id.value;
      if t.value.name.None? || |t.value.name.value| > PEER_NAME_MAX || t.value.name.value == [] {
        return false;
      }
      if t.value.local.NotGiven? {
        return false;
      }
      for k := 0 to |peers|
        invariant forall j :: 0 <= j < k ==> peers[j].id != id
      {
        if peers[k].id == id {
          assert peers[k] in peers;
          return false;
        }
      }
      if t.value.local.Malformed? {
        return false;
      }
      var local := t.value.local.address;
      if (t.value.slotCount.Some? || t.value.maxPayload.Some?) && TransportOf(local) != ShmRing {
        return false;
      }
      var slotCount: nat := 0;
      if t.value.slotCount.Some? {
        var v := t.value.slotCount.value;
        if v != 0 && (v < 1 || v > SLOT_COUNT_MAX) {
          return false;
        }
        slotCount := v;
      }
      var maxPayload: nat := 0;
      if t.value.maxPayload.Some? {
        var v := t.value.maxPayload.value;
        if v != 0 && v < FRAME_SIZE {
          return false;
        }
        if v < 0 || v > MAX_PAYLOAD_MAX {
          return false;
        }
        maxPayload := v;
      }
      peers := peers + [PeerEntry(id, t.value.name.value, local, slotCount, maxPayload)];
      return true;
    }

    /** [[peers]]: every entry, its sidebands appended to one table and the range recorded. */
    method LoadPeers(ts: seq<Option<PeerTable>>) returns (ok: bool)
      requires peers == [] && sidebands == [] && ranges == []
      modifies this`peers, this`sidebands, this`ranges
      ensures ok <==> ValidPeers(ts)
      ensures ok ==> peers == PeersOf(ts) && sidebands == AllRegions(ts) && ranges == RangesOf(ts)
    {
      for i := 0 to |ts|
        invariant ValidPeers(ts[..i])
        invariant peers == PeersOf(ts[..i])
        invariant sidebands == AllRegions(ts[..i])
        invariant ranges == RangesOf(ts[..i])
      {
        ghost var done := ts[..i];
        var good := LoadPeer(ts[i]);
        if !good {
          RejectPeer(ts, i);
          return false;
        }
        var begin := |sidebands|;
        good := LoadSidebands(ts[i].value.sidebands);
        if !good {
          assert !ValidPeer(ts[i]);
          return false;
        }
        ranges := ranges + [(begin, |sidebands|)];
        AcceptPeer(ts, i);
      }
      assert ts[..|ts|] == ts;
      return true;
    }

    /** A datagram peer needs a listen on its transport. */
    method CheckListens(r: RouterTable, ts: seq<Option<PeerTable>>) returns (ok: bool)
      requires ValidPeers(ts) && peers == PeersOf(ts)
      requires listenUds == ListenFor(r, UdsPath) && listenUdp == ListenFor(r, UdpEndpoint)
      ensures ok <==> forall i :: 0 <= i < |ts| ==> Serves(r, TransportOf(ts[i].value.local.address))
    {
      for i := 0 to |peers|
        invariant forall j :: 0 <= j < i ==> Serves(r, TransportOf(ts[j].value.local.address))
      {
        assert peers[i] == PeerOf(ts[i]);
        if peers[i].local.Uds? && listenUds.None? {
          return false;
        }
        if peers[i].local.Udp? && listenUdp.None? {
          return false;
        }
      }
      return true;
    }

    method PeerExists(id: int) returns (found: bool)
      ensures found <==> IsPeerId(peers, id)
    {
      for k := 0 to |peers|
        invariant forall j :: 0 <= j < k ==> peers[j].id != id
      {
        if peers[k].id == id {
          assert peers[k] in peers;
          return true;
        }
      }
      return false;
    }

    /** extract_id over the whole dest array: integers in 1..254. */
    method ExtractDests(dest: seq<Option<int64>>) returns (ok: bool, ids: seq<byte>)
      ensures ok <==> forall k :: 0 <= k < |dest| ==> dest[k].Some? && 1 <= dest[k].value <= 254
      ensures ok ==> |ids| == |dest| && forall k :: 0 <= k < |dest| ==> ids[k] == dest[k].value
    {
      ids := [];
      for k := 0 to |dest|
        invariant |ids| == k
        invariant forall j :: 0 <= j < k ==> dest[j].Some? && 1 <= dest[j].value <= 254 && ids[j] == dest[j].value
      {
        if dest[k].None? || dest[k].value < 1 || dest[k].value > 254 {
          return false, ids;
        }
        ids := ids + [dest[k].value];
      }
      return true, ids;
    }

    /** Destinations must be peers, pairwise different, and not the source. */
    method CheckDests(source: byte, ids: seq<byte>) returns (ok: bool)
      ensures ok <==> && (forall k :: 0 <= k < |ids| ==> IsPeerId(peers, ids[k]) && ids[k] != source)
                      && forall j, k :: 0 <= j < k < |ids| ==> ids[j] != ids[k]
    {
      for k := 0 to |ids|
        invariant forall i :: 0 <= i < k ==> IsPeerId(peers, ids[i]) && ids[i] != source
        invariant forall i, j :: 0 <= i < j < k ==> ids[i] != ids[j]
      {
        var found := PeerExists(ids[k]);
        if !found {
          return false;
        }
        for j := 0 to k
          invariant forall i :: 0 <= i < j ==> ids[i] != ids[k]
        {
          if ids[j] == ids[k] {
            return false;
          }
        }
        if ids[k] == source {
          return false;
        }
      }
      return true;
    }

    method LoadRoute(t: Option<RouteTable>) returns (ok: bool)
      modifies this`routes
      ensures ok <==> ValidRoute(t, peers)
      ensures ok ==> routes == old(routes) + [RuleOf(t, peers)]
    {
      if t.None? || t.value.source.None? {
        return false;
      }
      if t.value.dest == [] || |t.value.dest| > MAX_DESTS {
        return false;
      }
      var good, ids := ExtractDests(t.value.dest);
      if !good {
        return false;
      }
      var source := Narrow(t.value.source.value);
      var topic: u16 := TOPIC_ANY;
      if t.value.topic.Some? {
        if t.value.topic.value < 0 || t.value.topic.value > 0xFFFE {
          return false;
        }
        topic := t.value.topic.value;
      }
      var known := PeerExists(source);
      if !known {
        return false;
      }
      good := CheckDests(source, ids);
      if !good {
        return false;
      }
      assert forall j, k :: 0 <= j < k < |ids| ==> t.value.dest[j] != t.value.dest[k];
      routes := routes + [Rule(source, topic, ids)];
      assert ids == RuleOf(t, peers).dests;
      return true;
    }

    method LoadRoutes(ts: seq<Option<RouteTable>>) returns (ok: bool)
      requires routes == []
      modifies this`routes
      ensures ok <==> forall i :: 0 <= i < |ts| ==> ValidRoute(ts[i], peers)
      ensures ok ==> |routes| == |ts| && forall i :: 0 <= i < |ts| ==> routes[i] == RuleOf(ts[i], peers)
    {
      for i := 0 to |ts|
        invariant |routes| == i
        invariant forall j :: 0 <= j < i ==> ValidRoute(ts[j], peers) && routes[j] == RuleOf(ts[j], peers)
      {
        var good := LoadRoute(ts[i]);
        if !good {
          return false;
        }
      }
      return true;
    }

    /** One [[topics]] entry against the topics accepted so far. */
    method LoadTopic(t: Option<TopicTable>) returns (ok: bool)
      modifies this`topics
      ensures ok <==> && ValidTopic(t)
                      && forall k :: 0 <= k < |old(topics)| ==>
                           old(topics)[k].id != t.value.id.value && old(topics)[k].name != t.value.name.value
      ensures topics == if ok then old(topics) + [TopicOf(t)] else old(topics)
    {
      if t.None? || t.value.id.None? || t.value.id.value < 0 || t.value.id.value > 0xFFFF {
        return false;
      }
      var id: u16 := t.value.id.value;
      for k := 0 to |topics|
        invariant forall j :: 0 <= j < k ==> topics[j].id != id
      {
        if topics[k].id == id {
          return false;
        }
      }
      if t.value.name.None? || t.value.name.value == [] || |t.value.name.value| > TOPIC_NAME_MAX {
        return false;
      }
      for k := 0 to |topics|
        invariant forall j :: 0 <= j < k ==> topics[j].name != t.value.name.value
      {
        if topics[k].name == t.value.name.value {
          return false;
        }
      }
      if t.value.payloadClass.Some? {
        if t.value.payloadClass.value == [] || |t.value.payloadClass.value| > TOPIC_NAME_MAX {
          return false;
        }
      }
      var idx: u16 := SIDEBAND_NONE;
      if t.value.sidebandIdx.Some? {
        if t.value.sidebandIdx.value < 0 || t.value.sidebandIdx.value > 0xFFFF {
          return false;
        }
        idx := t.value.sidebandIdx.value;
      }
      topics := topics + [TopicEntry(id, t.value.name.value, t.value.payloadClass, idx)];
      return true;
    }

    method LoadTopics(ts: seq<Option<TopicTable>>) returns (ok: bool)
      requires topics == []
      modifies this`topics
      ensures ok <==> ValidTopics(ts)
      ensures ok ==> |topics| == |ts| && forall i :: 0 <= i < |ts| ==> topics[i] == TopicOf(ts[i])
    {
      for i := 0 to |ts|
        invariant |topics| == i
        invariant forall j :: 0 <= j < i ==> ValidTopic(ts[j]) && topics[j] == TopicOf(ts[j])
        invariant forall j, k :: 0 <= j < k < i ==>
                    ts[j].value.id != ts[k].value.id && ts[j].value.name != ts[k].value.name
      {
        var good := LoadTopic(ts[i]);
        if !good {
          if ValidTopic(ts[i]) {
            var k :| 0 <= k < i && (topics[k].id == ts[i].value.id.value || topics[k].name == ts[i].value.name.value);
            assert ts[k].value.id == ts[i].value.id || ts[k].value.name == ts[i].value.name;
          }
          return false;
        }
      }
      return true;
    }

    /** Second pass over the routes, once the topics are known. */
    method CheckRouteTopics(rs: seq<Option<RouteTable>>, ts: seq<Option<TopicTable>>) returns (ok: bool)
      requires |routes| == |rs| && forall i :: 0 <= i < |rs| ==> ValidRoute(rs[i], peers) && routes[i] == RuleOf(rs[i], peers)
      requires ValidTopics(ts) && |topics| == |ts| && forall i :: 0 <= i < |ts| ==> topics[i] == TopicOf(ts[i])
      ensures ok <==> forall i :: 0 <= i < |rs| ==> TopicDeclared(rs[i], ts)
    {
      for i := 0 to |routes|
        invariant forall j :: 0 <= j < i ==> TopicDeclared(rs[j], ts)
      {
        var tid := routes[i].topic;
        if tid == TOPIC_ANY {
          continue;
        }
        var declared := false;
        for k := 0 to |topics|
          invariant declared <==> exists j :: 0 <= j < k && topics[j].id == tid
        {
          if topics[k].id == tid {
            declared := true;
          }
        }
        if !declared {
          assert forall j :: 0 <= j < |ts| ==> topics[j].id == ts[j].value.id.value;
          return false;
        }
        var j :| 0 <= j < |topics| && topics[j].id == tid;
        assert ts[j].value.id == rs[i].value.topic;
      }
      return true;
    }

    /**
     build_from_: all passes. The profile is accepted exactly when it satisfies
     ValidProfile, and then every table is the one the profile denotes.
     */
    method BuildFrom(p: Profile) returns (ok: bool)
      requires peers == [] && routes == [] && topics == [] && sidebands == [] && ranges == []
      requires listenUds == listenUdp == None
      modifies this
      ensures ok <==> ValidProfile(p)
      ensures ok ==> Denotes(p, peers, routes, topics, sidebands, ranges)
      ensures ok ==> routerListen == Some(p.router.value.listen.address)
      ensures ok ==> listenUds == ListenFor(p.router.value, UdsPath) && listenUdp == ListenFor(p.router.value, UdpEndpoint)
      ensures ok ==> ListensAre(p.router.value, listenUds, listenUdp)
      ensures ok ==> Describes(p, peers, routes, topics)
    {
      ok := LoadRouter(p.router);
      if !ok {
        return;
      }
      if p.peers == [] {
        return false;
      }
      ok := LoadPeers(p.peers);
      if !ok {
        return;
      }
      ok := CheckListens(p.router.value, p.peers);
      if !ok {
        return;
      }
      ok := LoadRoutes(p.routes);
      if !ok {
        return;
      }
      ok := LoadTopics(p.topics);
      if !ok {
        return;
      }
      ok := CheckRouteTopics(p.routes, p.topics);
      if ok {
        DenotedTablesDescribe(p, peers, routes, topics, sidebands, ranges);
      }
    }

    /** sidebands_for: look the peer up, then slice the shared table by its range. */
    method SidebandsFor(id: byte) returns (regions: seq<SidebandRegion>)
      requires forall i :: 0 <= i < |ranges| ==> ranges[i].0 <= ranges[i].1 <= |sidebands|
      ensures PeerById(peers, id).None? ==> regions == []
      ensures forall k :: 0 <= k < |peers| && peers[k].id == id && (forall j :: 0 <= j < k ==> peers[j].id != id)
                ==> regions == if k < |ranges| then sidebands[ranges[k].0..ranges[k].1] else []
    {
      var k := FindPeer(peers, id);
      if k == |peers| {
        return [];
      }
      if k >= |ranges| {
        return [];
      }
      return sidebands[ranges[k].0..ranges[k].1];
    }
  }

  ghost predicate Denotes(p: Profile, peers: seq<PeerEntry>, routes: seq<Rule>, topics: seq<TopicEntry>,
                          sidebands: seq<SidebandRegion>, ranges: seq<(nat, nat)>)
    requires ValidProfile(p)
  {
    && peers == PeersOf(p.peers)
    && sidebands == AllRegions(p.peers)
    && ranges == RangesOf(p.peers)
    && |routes| == |p.routes| && (forall i :: 0 <= i < |routes| ==> routes[i] == RuleOf(p.routes[i], peers))
    && |topics| == |p.topics| && (forall i :: 0 <= i < |topics| ==> topics[i] == TopicOf(p.topics[i]))
  }

  /**
   The accepted tables, entry by entry: each number and name is the one given, and
   an absent key stands for 0 (ring sizes), topic 0xFFFF (routes) or sideband 0xFFFF
   (topics); a route's source is taken modulo 256.
   */
  lemma TablesEntryByEntry(p: Profile, peers: seq<PeerEntry>, routes: seq<Rule>, topics: seq<TopicEntry>,
                           sidebands: seq<SidebandRegion>, ranges: seq<(nat, nat)>)
    requires ValidProfile(p) && Denotes(p, peers, routes, topics, sidebands, ranges)
    ensures |peers| == |p.peers| && |routes| == |p.routes| && |topics| == |p.topics|
    ensures forall i :: 0 <= i < |peers| ==> PeerIs(p.peers[i], peers[i])
    ensures forall i :: 0 <= i < |routes| ==> RouteIs(p.routes[i], routes[i])
    ensures forall i :: 0 <= i < |topics| ==> TopicIs(p.topics[i], topics[i])
  {
    forall i | 0 <= i < |peers| ensures PeerIs(p.peers[i], peers[i]) {
      assert ValidPeer(p.peers[i]);
    }
    forall i | 0 <= i < |routes| ensures RouteIs(p.routes[i], routes[i]) {
      assert ValidRoute(p.routes[i], peers);
    }
    forall i | 0 <= i < |topics| ensures TopicIs(p.topics[i], topics[i]) {
      assert ValidTopic(p.topics[i]);
    }
  }

  /** A number key with its value when absent. */
  ghost predicate Given(key: Option<int64>, default: int, value: int) {
    value == match key case Some(n) => n case None => default
  }

  ghost predicate PeerIs(t: Option<PeerTable>, e: PeerEntry) {
    && t.Some? && t.value.id == Some(e.id) && 1 <= e.id <= 254
    && t.value.name == Some(e.name) && 1 <= |e.name| <= 63
    && t.value.local == Parsed(e.local)
    && Given(t.value.slotCount, 0, e.slotCount) && e.slotCount <= 1048576
    && Given(t.value.maxPayload, 0, e.maxPayload) && (e.maxPayload == 0 || 64 <= e.maxPayload <= 268435456)
    && (!e.local.Shm? ==> t.value.slotCount.None? && t.value.maxPayload.None?)
  }

  ghost predicate RouteIs(t: Option<RouteTable>, r: Rule) {
    && t.Some? && t.value.source.Some? && r.source == t.value.source.value % 256
    && Given(t.value.topic, 0xFFFF, r.topic) && t.value.topic != Some(0xFFFF)
    && 1 <= |r.dests| == |t.value.dest| <= 8
    && forall k :: 0 <= k < |r.dests| ==> t.value.dest[k] == Some(r.dests[k]) && 1 <= r.dests[k] <= 254 && r.dests[k] != r.source
  }

  ghost predicate TopicIs(t: Option<TopicTable>, e: TopicEntry) {
    && t.Some? && t.value.id == Some(e.id) && t.value.name == Some(e.name) && 1 <= |e.name| <= 63
    && e.payloadClass == t.value.payloadClass && (e.payloadClass.Some? ==> 1 <= |e.payloadClass.value| <= 63)
    && Given(t.value.sidebandIdx, 0xFFFF, e.sidebandIdx)
  }

  /**
   What the loader asks of a file, in terms of the tables it is to become: every
   entry spells a table entry; ids and names are given once; every datagram peer has
   a listen; routes are between peers, on topics declared somewhere.
   */
  ghost predicate Describes(p: Profile, peers: seq<PeerEntry>, routes: seq<Rule>, topics: seq<TopicEntry>) {
    && p.router.Some? && ListensGiven(p.router.value)
    && |peers| == |p.peers| > 0 && |routes| == |p.routes| && |topics| == |p.topics|
    && (forall i :: 0 <= i < |peers| ==> PeerIs(p.peers[i], peers[i]) && SidebandsSpelled(p.peers[i].value.sidebands))
    && (forall i :: 0 <= i < |peers| ==> Heard(p.router.value, peers[i].local))
    && (forall i :: 0 <= i < |routes| ==> RouteIs(p.routes[i], routes[i]) && OverPeers(routes[i], peers))
    && (forall i :: 0 <= i < |topics| ==> TopicIs(p.topics[i], topics[i]))
    && DistinctIds(peers)
    && (forall i, j :: 0 <= i < j < |topics| ==> topics[i].id != topics[j].id && topics[i].name != topics[j].name)
    && forall i :: 0 <= i < |routes| && routes[i].topic != 0xFFFF ==> exists k :: 0 <= k < |topics| && topics[k].id == routes[i].topic
  }

  /** A primary listen, and the other two, if given, of their own kind. */
  ghost predicate ListensGiven(r: RouterTable) {
    && r.listen.Parsed? && !r.listenUds.Malformed? && !r.listenUdp.Malformed?
    && (r.listenUds.Parsed? ==> r.listenUds.address.Uds?) && (r.listenUdp.Parsed? ==> r.listenUdp.address.Udp?)
  }

  ghost predicate Heard(r: RouterTable, local: Address) {
    && (local.Uds? ==> r.listenUds.Parsed? || (r.listen.Parsed? && r.listen.address.Uds?))
    && (local.Udp? ==> r.listenUdp.Parsed? || (r.listen.Parsed? && r.listen.address.Udp?))
  }

  ghost predicate SidebandsSpelled(ts: seq<Option<SidebandTable>>) {
    forall j :: 0 <= j < |ts| ==> SidebandSpelled(ts[j])
  }

  ghost predicate SidebandSpelled(t: Option<SidebandTable>) { exists r :: RegionIs(t, r) }

  lemma PeerValidIff(t: Option<PeerTable>)
    ensures ValidPeer(t) <==> (exists e :: PeerIs(t, e)) && SidebandsSpelled(t.value.sidebands)
  {
    EntriesValidIff(t, None, None);
    if t.Some? {
      forall j | 0 <= j < |t.value.sidebands| ensures ValidSideband(t.value.sidebands[j]) <==> SidebandSpelled(t.value.sidebands[j]) {
        EntriesValidIff(t, t.value.sidebands[j], None);
      }
    }
  }

  /** The tables an accepted profile denotes describe it. */
  lemma DenotedTablesDescribe(p: Profile, peers: seq<PeerEntry>, routes: seq<Rule>, topics: seq<TopicEntry>,
                              sidebands: seq<SidebandRegion>, ranges: seq<(nat, nat)>)
    requires ValidProfile(p) && Denotes(p, peers, routes, topics, sidebands, ranges)
    ensures Describes(p, peers, routes, topics)
  {
    TablesEntryByEntry(p, peers, routes, topics, sidebands, ranges);
    forall i | 0 <= i < |peers| ensures SidebandsSpelled(p.peers[i].value.sidebands) && Heard(p.router.value, peers[i].local) {
      PeerValidIff(p.peers[i]);
      assert Serves(p.router.value, TransportOf(p.peers[i].value.local.address));
    }
    forall i | 0 <= i < |routes| ensures OverPeers(routes[i], peers) {
      assert ValidRoute(p.routes[i], peers);
    }
    RouteTopicsDescribed(p, peers, routes, topics);
  }

  lemma RouteTopicsDescribed(p: Profile, peers: seq<PeerEntry>, routes: seq<Rule>, topics: seq<TopicEntry>)
    requires |routes| == |p.routes| && |topics| == |p.topics|
    requires forall i :: 0 <= i < |routes| ==> RouteIs(p.routes[i], routes[i])
    requires forall i :: 0 <= i < |topics| ==> TopicIs(p.topics[i], topics[i])
    ensures (forall i :: 0 <= i < |routes| ==> TopicDeclared(p.routes[i], p.topics))
       <==> forall i :: 0 <= i < |routes| && routes[i].topic != 0xFFFF ==> exists k :: 0 <= k < |topics| && topics[k].id == routes[i].topic
  {
    forall i | 0 <= i < |routes|
      ensures TopicDeclared(p.routes[i], p.topics)
         <==> (routes[i].topic != 0xFFFF ==> exists k :: 0 <= k < |topics| && topics[k].id == routes[i].topic)
    {
      assert RouteIs(p.routes[i], routes[i]);
      if routes[i].topic != 0xFFFF && TopicDeclared(p.routes[i], p.topics) {
        var k :| 0 <= k < |p.topics| && p.topics[k].Some? && p.topics[k].value.id == p.routes[i].value.topic;
        assert TopicIs(p.topics[k], topics[k]);
      }
      if k :| 0 <= k < |topics| && topics[k].id == routes[i].topic {
        assert TopicIs(p.topics[k], topics[k]);
        assert routes[i].topic != 0xFFFF ==> p.topics[k].value.id == p.routes[i].value.topic;
      }
    }
  }

  /** A described profile is accepted, and the tables are those it denotes. */
  lemma DescribedIsValid(p: Profile, peers: seq<PeerEntry>, routes: seq<Rule>, topics: seq<TopicEntry>)
    requires Describes(p, peers, routes, topics)
    ensures ValidProfile(p)
  {
    forall i | 0 <= i < |peers| ensures ValidPeer(p.peers[i]) && PeerOf(p.peers[i]) == peers[i] {
      PeerValidIff(p.peers[i]);
    }
    assert ValidPeers(p.peers);
    assert PeersOf(p.peers) == peers;
    forall i | 0 <= i < |routes| ensures ValidRoute(p.routes[i], peers) {
      RouteValidIff(p.routes[i], peers);
    }
    forall i | 0 <= i < |topics| ensures ValidTopic(p.topics[i]) {
      EntriesValidIff(None, None, p.topics[i]);
    }
    RouteTopicsDescribed(p, peers, routes, topics);
  }

  /** Acceptance, without the loader's own predicate: a profile is accepted exactly when some tables are what it describes. */
  lemma AcceptedIffDescribed(p: Profile)
    ensures ValidProfile(p) <==> exists peers, routes, topics :: Describes(p, peers, routes, topics)
  {
    if ValidProfile(p) {
      var routes := seq(|p.routes|, i requires 0 <= i < |p.routes| => RuleOf(p.routes[i], PeersOf(p.peers)));
      var topics := seq(|p.topics|, i requires 0 <= i < |p.topics| => TopicOf(p.topics[i]));
      DenotedTablesDescribe(p, PeersOf(p.peers), routes, topics, AllRegions(p.peers), RangesOf(p.peers));
    }
    if peers, routes, topics :| Describes(p, peers, routes, topics) {
      DescribedIsValid(p, peers, routes, topics);
    }
  }

  /** The four memory classes by name, and the defaults of a sideband entry: shm, version 1, no device. */
  ghost predicate RegionIs(t: Option<SidebandTable>, r: SidebandRegion) {
    && t.Some? && t.value.name == Some(r.name) && |r.name| <= 250
    && t.value.bytes == Some(r.maxPayloadBytes) && r.maxPayloadBytes > 0
    && Given(t.value.version, 1, r.version)
    && (r.memoryClass == match t.value.memoryClass
                         case None => ShmMemory
                         case Some(s) => if s == "shm" then ShmMemory else if s == "cuda_managed" then CudaManaged
                                         else if s == "cuda_host" then CudaHost else NvBufSurface)
    && (r.memoryClass == NvBufSurface ==> t.value.memoryClass == Some("nvbufsurface"))
    && Given(t.value.cudaDevice, -1, r.cudaDevice)
    && (t.value.cudaDevice.Some? ==> r.memoryClass != ShmMemory && 0 <= r.cudaDevice <= 255)
  }

  lemma RegionEntry(t: Option<SidebandTable>)
    requires ValidSideband(t)
    ensures RegionIs(t, RegionOf(t))
  {
  }

  /** An entry is accepted exactly when some table entry spells it. */
  lemma EntriesValidIff(peer: Option<PeerTable>, sideband: Option<SidebandTable>, topic: Option<TopicTable>)
    ensures ValidScalars(peer) <==> exists e :: PeerIs(peer, e)
    ensures ValidSideband(sideband) <==> exists r :: RegionIs(sideband, r)
    ensures ValidTopic(topic) <==> exists e :: TopicIs(topic, e)
  {
    if ValidScalars(peer) { assert PeerIs(peer, PeerOf(peer)); }
    if ValidSideband(sideband) { RegionEntry(sideband); }
    if ValidTopic(topic) { assert TopicIs(topic, TopicOf(topic)); }
  }

  /** A route is accepted exactly when some rule spells it whose source and targets are peers, no target twice. */
  lemma RouteValidIff(t: Option<RouteTable>, peers: seq<PeerEntry>)
    ensures ValidRoute(t, peers) <==> exists r :: RouteIs(t, r) && OverPeers(r, peers)
  {
    if ValidRoute(t, peers) {
      assert RouteIs(t, RuleOf(t, peers)) && OverPeers(RuleOf(t, peers), peers);
    }
    if r :| RouteIs(t, r) && OverPeers(r, peers) {
      forall k | 0 <= k < |t.value.dest| ensures t.value.dest[k].Some? && IsPeerId(peers, t.value.dest[k].value) {
        assert t.value.dest[k] == Some(r.dests[k]);
      }
      forall j, k | 0 <= j < k < |t.value.dest| ensures t.value.dest[j] != t.value.dest[k] {
        assert t.value.dest[j] == Some(r.dests[j]) && t.value.dest[k] == Some(r.dests[k]);
      }
    }
  }

  ghost predicate OverPeers(r: Rule, peers: seq<PeerEntry>) {
    && IsPeerId(peers, r.source) && (forall k :: 0 <= k < |r.dests| ==> IsPeerId(peers, r.dests[k]))
    && forall j, k :: 0 <= j < k < |r.dests| ==> r.dests[j] != r.dests[k]
  }

  /** Each peer's stretch of the shared sideband table: it starts where the peers before it end. */
  ghost function RangesOf(ts: seq<Option<PeerTable>>): (r: seq<(nat, nat)>)
    requires forall i :: 0 <= i < |ts| ==> ValidPeer(ts[i])
    ensures |r| == |ts|
    ensures forall i :: 0 <= i < |ts| ==> r[i] == (|AllRegions(ts[..i])|, |AllRegions(ts[..i + 1])|)
  {
    seq(|ts|, i requires 0 <= i < |ts| => (|AllRegions(ts[..i])|, |AllRegions(ts[..i + 1])|))
  }

  lemma AcceptPeer(ts: seq<Option<PeerTable>>, i: nat)
    requires i < |ts| && ValidPeers(ts[..i]) && ValidPeer(ts[i])
    requires !IsPeerId(PeersOf(ts[..i]), ts[i].value.id.value)
    ensures ValidPeers(ts[..i + 1])
    ensures PeersOf(ts[..i + 1]) == PeersOf(ts[..i]) + [PeerOf(ts[i])]
    ensures AllRegions(ts[..i + 1]) == AllRegions(ts[..i]) + RegionsOf(ts[i].value.sidebands)
    ensures RangesOf(ts[..i + 1]) == RangesOf(ts[..i]) + [(|AllRegions(ts[..i])|, |AllRegions(ts[..i + 1])|)]
  {
    assert ts[..i + 1] == ts[..i] + [ts[i]];
    AppendPeer(ts[..i], ts[i]);
    AppendRegions(ts[..i], ts[i]);
  }

  lemma AppendPeer(a: seq<Option<PeerTable>>, t: Option<PeerTable>)
    requires ValidPeers(a) && ValidPeer(t) && !IsPeerId(PeersOf(a), t.value.id.value)
    ensures ValidPeers(a + [t]) && PeersOf(a + [t]) == PeersOf(a) + [PeerOf(t)]
  {
    forall j | 0 <= j < |a| ensures a[j].value.id != t.value.id {
      assert PeersOf(a)[j] in PeersOf(a);
      assert PeersOf(a)[j] == PeerOf(a[j]);
    }
  }

  lemma AppendRegions(a: seq<Option<PeerTable>>, t: Option<PeerTable>)
    requires ValidPeer(t) && forall i :: 0 <= i < |a| ==> ValidPeer(a[i])
    ensures AllRegions(a + [t]) == AllRegions(a) + RegionsOf(t.value.sidebands)
    ensures RangesOf(a + [t]) == RangesOf(a) + [(|AllRegions(a)|, |AllRegions(a + [t])|)]
  {
    var b := a + [t];
    assert b[..|a|] == a;
    assert forall j :: 0 <= j <= |a| ==> b[..j] == a[..j];
    assert b[..|b|] == b;
  }

  lemma RejectPeer(ts: seq<Option<PeerTable>>, i: nat)
    requires i < |ts| && ValidPeers(ts[..i])
    requires ValidScalars(ts[i]) ==> IsPeerId(PeersOf(ts[..i]), ts[i].value.id.value)
    ensures !ValidPeers(ts)
  {
    if ValidScalars(ts[i]) {
      var entries := PeersOf(ts[..i]);
      var p :| p in entries && p.id == ts[i].value.id.value;
      var k :| 0 <= k < i && entries[k] == p;
      assert entries[k] == PeerOf(ts[k]);
    } else {
      assert !ValidPeer(ts[i]);
    }
  }

  lemma {:induction false} RegionsMonotone(ts: seq<Option<PeerTable>>, i: nat)
    requires (forall k :: 0 <= k < |ts| ==> ValidPeer(ts[k])) && i <= |ts|
    ensures AllRegions(ts[..i]) <= AllRegions(ts)
  {
    if i == |ts| {
      assert ts[..i] == ts;
    } else {
      var n := |ts| - 1;
      assert ts[..n][..i] == ts[..i];
      RegionsMonotone(ts[..n], i);
    }
  }

  lemma RangeCutsOutPeer(ts: seq<Option<PeerTable>>, i: nat)
    requires (forall k :: 0 <= k < |ts| ==> ValidPeer(ts[k])) && i < |ts|
    ensures ValidPeer(ts[i])
    ensures var (begin, end) := RangesOf(ts)[i];
            && begin <= end <= |AllRegions(ts)|
            && AllRegions(ts)[begin..end] == RegionsOf(ts[i].value.sidebands)
  {
    var a, b, all := AllRegions(ts[..i]), AllRegions(ts[..i + 1]), AllRegions(ts);
    assert ts[..i + 1][..i] == ts[..i];
    assert b == a + RegionsOf(ts[i].value.sidebands);
    RegionsMonotone(ts, i + 1);
    assert all[..|b|] == b;
    assert all[|a|..|b|] == b[|a|..];
  }

  /**
   After a successful load the ranges are consecutive from 0, cover the table,
   and each one cuts out exactly the regions declared under its peer, in order.
   */
  lemma SidebandRangesPartition(p: Profile, peers: seq<PeerEntry>, routes: seq<Rule>, topics: seq<TopicEntry>,
                                sidebands: seq<SidebandRegion>, ranges: seq<(nat, nat)>)
    requires ValidProfile(p) && Denotes(p, peers, routes, topics, sidebands, ranges)
    ensures |ranges| == |peers| > 0 && ranges[0].0 == 0 && ranges[|ranges| - 1].1 == |sidebands|
    ensures forall i :: 0 <= i < |ranges| - 1 ==> ranges[i].1 == ranges[i + 1].0
    ensures forall i :: 0 <= i < |ranges| ==> ranges[i].0 <= ranges[i].1 <= |sidebands|
    ensures forall i :: 0 <= i < |ranges| ==>
              ValidPeer(p.peers[i]) && sidebands[ranges[i].0..ranges[i].1] == RegionsOf(p.peers[i].value.sidebands)
  {
    assert p.peers[..|p.peers|] == p.peers;
    forall i | 0 <= i < |ranges|
      ensures ranges[i].0 <= ranges[i].1 <= |sidebands|
      ensures ValidPeer(p.peers[i])
      ensures sidebands[ranges[i].0..ranges[i].1] == RegionsOf(p.peers[i].value.sidebands)
    {
      RangeCutsOutPeer(p.peers, i);
    }
  }
}
