/** What a router runs on: peers with addresses, per-transport listens, sideband regions, topics. */
module Topology {
  import opened Bytes

  datatype Address = Uds(path: string) | Udp(host: string, port: u16) | Shm(name: string)

  datatype Transport = ShmRing | UdsPath | UdpEndpoint

  function TransportOf(a: Address): Transport {
    match a
    case Uds(_) => UdsPath
    case Udp(_, _) => UdpEndpoint
    case Shm(_) => ShmRing
  }

  datatype PeerEntry = PeerEntry(id: byte, name: string, local: Address, slotCount: nat, maxPayload: nat)

  /** peer_by_id: the first entry with this id. */
  function PeerById(peers: seq<PeerEntry>, id: byte): (r: Option<PeerEntry>)
    ensures r.Some? ==> r.value in peers && r.value.id == id
    ensures r.None? ==> forall p :: p in peers ==> p.id != id
  {
    if peers == [] then None
    else if peers[0].id == id then Some(peers[0])
    else PeerById(peers[1..], id)
  }

  /** peer_find as the loop it is, for peer_by_id's predicate; |peers| stands for the null pointer. */
  method FindPeer(peers: seq<PeerEntry>, id: byte) returns (k: nat)
    ensures k <= |peers|
    ensures k < |peers| ==> PeerById(peers, id) == Some(peers[k])
    ensures k == |peers| ==> PeerById(peers, id) == None
    ensures forall j :: 0 <= j < k ==> peers[j].id != id
    ensures k < |peers| ==> peers[k].id == id
  {
    for i := 0 to |peers|
      invariant PeerById(peers, id) == PeerById(peers[i..], id)
      invariant forall j :: 0 <= j < i ==> peers[j].id != id
    {
      assert peers[i..][1..] == peers[i + 1..];
      if peers[i].id == id {
        return i;
      }
    }
    return |peers|;
  }

  ghost predicate DistinctIds(peers: seq<PeerEntry>) {
    forall i, j :: 0 <= i < j < |peers| ==> peers[i].id != peers[j].id
  }

  datatype MemoryClass = ShmMemory | CudaManaged | CudaHost | NvBufSurface

  const CUDA_UNSET: int := -1

  datatype SidebandRegion =
    SidebandRegion(name: string, maxPayloadBytes: nat, version: u32, memoryClass: MemoryClass, cudaDevice: int)

  datatype TopicEntry = TopicEntry(id: u16, name: string, payloadClass: Option<string>, sidebandIdx: u16)
}
