/** handle_xdp of load_balancer.bpf.c: packets are rewritten in place and handed out to two backends in turn. */
module LoadBalancer {
  import opened Bytes
  import opened Checksum
  import ByteOrder

  type Mac = s: seq<Byte> | |s| == 6 witness [0, 0, 0, 0, 0, 0]

  /** An IPv4 address as its four bytes in memory. */
  type Ip = s: seq<Byte> | |s| == 4 witness [0, 0, 0, 0]

  datatype Backend = Backend(ip: Ip, mac: Mac)

  /** An array map has all its entries from the start; one that was never set is zero. */
  const UNSET := Backend([0, 0, 0, 0], [0, 0, 0, 0, 0, 0])

  type Backends = s: seq<Backend> | |s| == 2 witness [UNSET, UNSET]

  datatype Entry = Missing | Found(backend: Backend)

  datatype Action = XdpPass | XdpTx

  const CLIENT_IP: Ip := [10, 0, 0, 1]
  const LOAD_BALANCER_IP: Ip := [10, 0, 0, 10]
  const CLIENT_MAC: Mac := [0xDE, 0xAD, 0xAA, 0xAA, 0x0, 0x1]
  const LOAD_BALANCER_MAC: Mac := [0xDE, 0xAD, 0xAA, 0xAA, 0x0, 0x10]

  /** The constants are what bpf_htonl leaves in memory on a little-endian machine. */
  lemma AddressConstants()
    ensures CLIENT_IP == Numbers(ByteOrder.Bytes32(ByteOrder.Swab32(0x0A00_0001)))
    ensures LOAD_BALANCER_IP == Numbers(ByteOrder.Bytes32(ByteOrder.Swab32(0x0A00_000A)))
  {
    assert ByteOrder.Bytes32(ByteOrder.Swab32(0x0A00_0001)) == [10, 0, 0, 1];
    assert ByteOrder.Bytes32(ByteOrder.Swab32(0x0A00_000A)) == [10, 0, 0, 10];
  }

  // offsets in the frame: struct ethhdr, then struct iphdr
  const H_DEST := 0
  const H_SOURCE := 6
  const H_PROTO := 12
  const IPHDR := 14
  const PROTOCOL := 23
  const CHECK := 24
  const SADDR := 26
  const DADDR := 30
  const PAYLOAD := 34
  const ETH_P_IP := 0x0800
  const IPPROTO_TCP := 6

  type Packet = seq<Byte>

  function Put(p: Packet, off: nat, bytes: seq<Byte>): (r: Packet)
    requires off + |bytes| <= |p|
    ensures |r| == |p|
    ensures forall k | 0 <= k < |p| :: r[k] == if off <= k < off + |bytes| then bytes[k - off] else p[k]
  {
    p[..off] + bytes + p[off + |bytes|..]
  }

  /** The little-endian 16-bit loads of the n words from byte off on. */
  function WordsAt(p: Packet, off: nat, n: nat): (ws: seq<Word>)
    requires off + 2 * n <= |p|
    ensures |ws| == n
  {
    seq(n, k requires 0 <= k < n => (p[off + 2 * k] as int + 0x100 * (p[off + 2 * k + 1] as int)) as Word)
  }

  // ----- the program, on values

  predicate IsTcpPacket(p: Packet) {
    && IPHDR <= |p|
    && 0x100 * (p[H_PROTO] as int) + p[H_PROTO + 1] as int == ETH_P_IP
    && PAYLOAD <= |p|
    && p[PROTOCOL] == IPPROTO_TCP
  }

  /** Header length in bytes: the low half of the first byte counts 32-bit words. */
  function HeaderLen(p: Packet): nat
    requires PAYLOAD <= |p|
  {
    p[IPHDR] % 0x10 * 4
  }

  predicate Forwardable(p: Packet) {
    IsTcpPacket(p) && 20 <= HeaderLen(p) && IPHDR + HeaderLen(p) <= |p|
  }

  predicate FromClient(p: Packet)
    requires PAYLOAD <= |p|
  {
    p[SADDR..SADDR + 4] == CLIENT_IP
  }

  function WithChecksum(p: Packet): Packet
    requires PAYLOAD <= |p|
  {
    var zeroed := Put(p, CHECK, [0, 0]);
    var c := Finish(Sum(WordsAt(zeroed, IPHDR, 10)));
    Put(zeroed, CHECK, [c % 0x100, c / 0x100])
  }

  /** Both branches end alike: the packet leaves under the balancer's addresses, with a new checksum. */
  function Finished(p: Packet): Packet
    requires PAYLOAD <= |p|
  {
    WithChecksum(Put(Put(p, SADDR, LOAD_BALANCER_IP), H_SOURCE, LOAD_BALANCER_MAC))
  }

  function ToBackend(p: Packet, ip: Ip): Packet
    requires PAYLOAD <= |p|
  {
    Finished(Put(p, DADDR, ip))
  }

  function ToClient(p: Packet): Packet
    requires PAYLOAD <= |p|
  {
    Finished(Put(Put(p, DADDR, CLIENT_IP), H_DEST, CLIENT_MAC))
  }

  datatype Outcome = Outcome(packet: Packet, roundRobin: nat, action: Action)

  /** bpf_map_lookup_elem on the array map: null only for a key past its end. */
  function Lookup(backends: Backends, key: nat): Entry {
    if key < |backends| then Found(backends[key]) else Missing
  }

  function Handle(backends: Backends, roundRobin: nat, p: Packet): Outcome {
    if !Forwardable(p) then Outcome(p, roundRobin, XdpPass)
    else if FromClient(p) then
      match Lookup(backends, roundRobin % 2)
      case Missing => Outcome(p, roundRobin, XdpPass)
      case Found(backend) => Outcome(ToBackend(p, backend.ip), (roundRobin + 1) % 0x100 % 2, XdpTx)
    else Outcome(ToClient(p), roundRobin, XdpTx)
  }

  // ----- the program, in place

  class XdpProgram {
    var roundRobin: nat
    const backends: Backends

    constructor (backends: Backends)
      ensures roundRobin == 0 && this.backends == backends
    {
      this.backends := backends;
      roundRobin := 0;
    }

    method Memcpy(data: array<Byte>, off: nat, bytes: seq<Byte>)
      requires off + |bytes| <= data.Length
      modifies data
      ensures data[..] == Put(old(data[..]), off, bytes)
    {
      for k := 0 to |bytes|
        invariant data[..] == Put(old(data[..]), off, bytes[..k])
      {
        data[off + k] := bytes[k];
      }
      assert bytes[..|bytes|] == bytes;
    }

    /** The loop of iph_csum. */
    method SumHeader(data: array<Byte>) returns (sum: nat)
      requires PAYLOAD <= data.Length
      ensures sum == Sum(WordsAt(data[..], IPHDR, 10))
    {
      ghost var words := WordsAt(data[..], IPHDR, 10);
      ghost var k := 0;
      var count, addr := 5 * 4, IPHDR;
      sum := 0;
      while count > 1
        invariant k <= 10 && count == 20 - 2 * k && addr == IPHDR + 2 * k
        invariant sum == Sum(words[..k])
      {
        assert words[..k + 1][..k] == words[..k];
        assert words[k] == data[addr] as int + 0x100 * (data[addr + 1] as int);
        sum := sum + (data[addr] as int + 0x100 * (data[addr + 1] as int));
        addr := addr + 2;
        count := count - 2;
        k := k + 1;
      }
      assert words[..k] == words;
    }

    method IphCsum(data: array<Byte>) returns (check: Word)
      requires PAYLOAD <= data.Length
      modifies data
      ensures data[..] == Put(old(data[..]), CHECK, [0, 0])
      ensures check == Finish(Sum(WordsAt(data[..], IPHDR, 10)))
    {
      Memcpy(data, CHECK, [0, 0]);
      var sum := SumHeader(data);
      if sum / 0x1_0000 != 0 {
        sum := sum % 0x1_0000 + sum / 0x1_0000;
      }
      check := (ALL_ONES_64 - sum) % 0xFFFF;
    }

    method IsTcp(data: array<Byte>) returns (tcp: bool)
      ensures tcp == IsTcpPacket(data[..])
    {
      if IPHDR > data.Length {
        return false;
      }
      if 0x100 * (data[H_PROTO] as int) + data[H_PROTO + 1] as int != ETH_P_IP {
        return false;
      }
      if PAYLOAD > data.Length {
        return false;
      }
      if data[PROTOCOL] != IPPROTO_TCP {
        return false;
      }
      return true;
    }

    /** The lines both branches go on to. */
    method FinishPacket(data: array<Byte>)
      requires PAYLOAD <= data.Length
      modifies data
      ensures data[..] == Finished(old(data[..]))
    {
      Memcpy(data, SADDR, LOAD_BALANCER_IP);
      Memcpy(data, H_SOURCE, LOAD_BALANCER_MAC);
      var check := IphCsum(data);
      Memcpy(data, CHECK, [check % 0x100, check / 0x100]);
    }

    method HandleXdp(data: array<Byte>) returns (action: Action)
      modifies this`roundRobin, data
      ensures Outcome(data[..], roundRobin, action) == old(Handle(backends, roundRobin, data[..]))
    {
      hide Finished, Put, NetworkWordsAt, WordsAt;
      var tcp := IsTcp(data);
      if !tcp {
        return XdpPass;
      }
      var ipHdrLen := data[IPHDR] % 0x10 * 4;
      if ipHdrLen < 20 {
        return XdpPass;
      }
      if IPHDR + ipHdrLen > data.Length {
        return XdpPass;
      }
      if data[SADDR..SADDR + 4] == CLIENT_IP {
        var entry := Lookup(backends, roundRobin % 2);
        if entry == Missing {
          return XdpPass;
        }
        Memcpy(data, DADDR, entry.backend.ip);
        roundRobin := (roundRobin + 1) % 0x100;
        roundRobin := roundRobin % 2;
      } else {
        Memcpy(data, DADDR, CLIENT_IP);
        Memcpy(data, H_DEST, CLIENT_MAC);
      }
      FinishPacket(data);
      return XdpTx;
    }
  }

  // ----- what a transmitted packet looks like

  /** The null test after the lookup is never taken: the key is below 2, and the map has two entries. */
  lemma LookupFinds(backends: Backends, rr: nat)
    ensures Lookup(backends, rr % 2) == Found(backends[rr % 2])
  {
  }

  /** A passed packet is untouched and does not move the rotation; exactly the others are transmitted. */
  lemma PassLeavesAlone(backends: Backends, rr: nat, p: Packet)
    ensures
      var o := Handle(backends, rr, p);
      o.action == XdpPass ==> o.packet == p && o.roundRobin == rr
    ensures Handle(backends, rr, p).action == XdpPass <==> !Forwardable(p)
  {
    hide ToBackend, ToClient, Forwardable, FromClient;
    LookupFinds(backends, rr);
  }

  lemma PutRead(p: Packet, off: nat, bytes: seq<Byte>, i: nat, j: nat)
    requires off + |bytes| <= |p| && i <= j <= |p|
    ensures Put(p, off, bytes)[off..off + |bytes|] == bytes
    ensures j <= off || off + |bytes| <= i ==> Put(p, off, bytes)[i..j] == p[i..j]
  {
  }

  /** Outside the checksum field, computing the checksum changes nothing. */
  lemma ChecksumOnly(p: Packet, i: nat, j: nat)
    requires PAYLOAD <= |p| && i <= j <= |p| && (j <= CHECK || CHECK + 2 <= i)
    ensures |WithChecksum(p)| == |p| && WithChecksum(p)[i..j] == p[i..j]
  {
    PutRead(p, CHECK, [0, 0], i, j);
    var zeroed := Put(p, CHECK, [0, 0]);
    var c := Finish(Sum(WordsAt(zeroed, IPHDR, 10)));
    PutRead(zeroed, CHECK, [c % 0x100, c / 0x100], i, j);
  }

  lemma FinishedFields(p: Packet, i: nat, j: nat)
    requires PAYLOAD <= |p|
    requires i <= j <= H_SOURCE || H_SOURCE + 6 <= i <= j <= CHECK || DADDR <= i <= j <= |p|
    ensures |Finished(p)| == |p| && Finished(p)[i..j] == p[i..j]
    ensures Finished(p)[SADDR..SADDR + 4] == LOAD_BALANCER_IP
    ensures Finished(p)[H_SOURCE..H_SOURCE + 6] == LOAD_BALANCER_MAC
  {
    var q := Put(p, SADDR, LOAD_BALANCER_IP);
    var r := Put(q, H_SOURCE, LOAD_BALANCER_MAC);
    PutRead(p, SADDR, LOAD_BALANCER_IP, i, j);
    PutRead(q, H_SOURCE, LOAD_BALANCER_MAC, i, j);
    PutRead(q, H_SOURCE, LOAD_BALANCER_MAC, SADDR, SADDR + 4);
    ChecksumOnly(r, i, j);
    ChecksumOnly(r, SADDR, SADDR + 4);
    ChecksumOnly(r, H_SOURCE, H_SOURCE + 6);
  }

  /** What every transmitted packet keeps from the one received, and who it says it comes from. */
  predicate SentFrom(p: Packet, q: Packet) {
    && PAYLOAD <= |p| == |q|
    && q[H_PROTO..CHECK] == p[H_PROTO..CHECK] && q[PAYLOAD..] == p[PAYLOAD..]
    && q[H_SOURCE..H_SOURCE + 6] == LOAD_BALANCER_MAC && q[SADDR..SADDR + 4] == LOAD_BALANCER_IP
  }

  lemma ToBackendFields(p: Packet, ip: Ip)
    requires PAYLOAD <= |p|
    ensures
      var q := ToBackend(p, ip);
      SentFrom(p, q) && q[DADDR..DADDR + 4] == ip && q[H_DEST..H_DEST + 6] == p[H_DEST..H_DEST + 6]
  {
    var r := Put(p, DADDR, ip);
    PutRead(p, DADDR, ip, H_PROTO, CHECK);
    PutRead(p, DADDR, ip, PAYLOAD, |p|);
    PutRead(p, DADDR, ip, H_DEST, H_DEST + 6);
    FinishedFields(r, H_PROTO, CHECK);
    FinishedFields(r, PAYLOAD, |p|);
    FinishedFields(r, DADDR, DADDR + 4);
    FinishedFields(r, H_DEST, H_DEST + 6);
  }

  lemma ToClientFields(p: Packet)
    requires PAYLOAD <= |p|
    ensures
      var q := ToClient(p);
      SentFrom(p, q) && q[DADDR..DADDR + 4] == CLIENT_IP && q[H_DEST..H_DEST + 6] == CLIENT_MAC
  {
    var q := Put(p, DADDR, CLIENT_IP);
    var r := Put(q, H_DEST, CLIENT_MAC);
    PutRead(p, DADDR, CLIENT_IP, H_PROTO, CHECK);
    PutRead(p, DADDR, CLIENT_IP, PAYLOAD, |p|);
    PutRead(q, H_DEST, CLIENT_MAC, H_PROTO, CHECK);
    PutRead(q, H_DEST, CLIENT_MAC, PAYLOAD, |p|);
    PutRead(q, H_DEST, CLIENT_MAC, DADDR, DADDR + 4);
    FinishedFields(r, H_PROTO, CHECK);
    FinishedFields(r, PAYLOAD, |p|);
    FinishedFields(r, DADDR, DADDR + 4);
    FinishedFields(r, H_DEST, H_DEST + 6);
  }

  /** A transmitted packet differs from the one received only in the MAC, checksum and IP address fields, and
      those name the balancer as the source.  The destination MAC is replaced only on the way to the client. */
  lemma TransmitRewrites(backends: Backends, rr: nat, p: Packet)
    requires Handle(backends, rr, p).action == XdpTx
    ensures
      var q := Handle(backends, rr, p).packet;
      && SentFrom(p, q)
      && q[DADDR..DADDR + 4] == (if FromClient(p) then backends[rr % 2].ip else CLIENT_IP)
      && q[H_DEST..H_DEST + 6] == (if FromClient(p) then p[H_DEST..H_DEST + 6] else CLIENT_MAC)
  {
    if FromClient(p) {
      ToBackendFields(p, backends[rr % 2].ip);
    } else {
      ToClientFields(p);
    }
  }

  // ----- the checksum of a transmitted packet

  /** The first twenty header bytes of every transmitted packet verify. */
  lemma TransmitVerifies(backends: Backends, rr: nat, p: Packet)
    requires Handle(backends, rr, p).action == XdpTx
    ensures
      var q := Handle(backends, rr, p).packet;
      PAYLOAD <= |q| && Verifies(WordsAt(q, IPHDR, 10))
  {
    if FromClient(p) {
      FinishedVerifies(Put(p, DADDR, backends[rr % 2].ip));
    } else {
      FinishedVerifies(Put(Put(p, DADDR, CLIENT_IP), H_DEST, CLIENT_MAC));
    }
  }

  lemma FinishedVerifies(p: Packet)
    requires PAYLOAD <= |p|
    ensures |Finished(p)| == |p| && Verifies(WordsAt(Finished(p), IPHDR, 10))
  {
    ChecksumVerifies(Put(Put(p, SADDR, LOAD_BALANCER_IP), H_SOURCE, LOAD_BALANCER_MAC));
  }

  lemma ChecksumVerifies(p: Packet)
    requires PAYLOAD <= |p| && p[SADDR] != 0
    ensures |WithChecksum(p)| == |p| && Verifies(WordsAt(WithChecksum(p), IPHDR, 10))
  {
    var zeroed := Put(p, CHECK, [0, 0]);
    var words := WordsAt(zeroed, IPHDR, 10);
    assert words[6] > 0;
    SumAtLeast(words, 6);
    StoredChecksumVerifies(words, 5);
    StoreWord(zeroed, Finish(Sum(words)));
  }

  /** Storing a word's two bytes in the checksum field replaces word 5 of the header. */
  lemma StoreWord(p: Packet, c: Word)
    requires PAYLOAD <= |p|
    ensures WordsAt(Put(p, CHECK, [c % 0x100, c / 0x100]), IPHDR, 10) == WordsAt(p, IPHDR, 10)[5 := c]
  {
  }

  lemma {:induction false} SumAtLeast(ws: seq<Word>, i: nat)
    requires i < |ws|
    ensures ws[i] <= Sum(ws)
  {
    if i < |ws| - 1 {
      SumAtLeast(ws[..|ws| - 1], i);
    }
  }

  lemma {:induction false} SumConcat(a: seq<Word>, b: seq<Word>)
    ensures Sum(a + b) == Sum(a) + Sum(b)
  {
    if b == [] {
      assert a + b == a;
    } else {
      assert (a + b)[..|a + b| - 1] == a + b[..|b| - 1];
      SumConcat(a, b[..|b| - 1]);
    }
  }

  /** With n words of options the checksum covers only part of the header, and the whole header verifies if
      and only if the option words sum to a multiple of 0xFFFF; without options, always. */
  lemma WholeHeaderVerifiesIff(backends: Backends, rr: nat, p: Packet, q: Packet, n: nat)
    requires Handle(backends, rr, p).action == XdpTx && Handle(backends, rr, p).packet == q
    requires HeaderLen(p) == 20 + 2 * n
    ensures |q| == |p| && PAYLOAD + 2 * n <= |p|
    ensures Verifies(WordsAt(q, IPHDR, 10 + n)) <==> Sum(WordsAt(p, PAYLOAD, n)) % 0xFFFF == 0
  {
    TransmitRewrites(backends, rr, p);
    TransmitVerifies(backends, rr, p);
    assert SentFrom(p, q) && Verifies(WordsAt(q, IPHDR, 10)) && PAYLOAD + 2 * n <= |p|;
    OptionsDecide(p, q, n);
  }

  lemma OptionsDecide(p: Packet, q: Packet, n: nat)
    requires SentFrom(p, q) && Verifies(WordsAt(q, IPHDR, 10)) && PAYLOAD + 2 * n <= |p|
    ensures Verifies(WordsAt(q, IPHDR, 10 + n)) <==> Sum(WordsAt(p, PAYLOAD, n)) % 0xFFFF == 0
  {
    WordsSplit(q, IPHDR, 10, n);
    WordsSame(p, q, PAYLOAD, n);
    SumConcat(WordsAt(q, IPHDR, 10), WordsAt(q, PAYLOAD, n));
    VerifiesSum(Sum(WordsAt(q, IPHDR, 10)), Sum(WordsAt(q, PAYLOAD, n)));
  }

  lemma WordsSplit(p: Packet, off: nat, m: nat, n: nat)
    requires off + 2 * (m + n) <= |p|
    ensures WordsAt(p, off, m + n) == WordsAt(p, off, m) + WordsAt(p, off + 2 * m, n)
  {
  }

  lemma WordsSame(p: Packet, q: Packet, off: nat, n: nat)
    requires off + 2 * n <= |p| == |q| && p[off..] == q[off..]
    ensures WordsAt(p, off, n) == WordsAt(q, off, n)
  {
    assert forall k | off <= k < |p| :: p[k] == p[off..][k - off] && q[k] == q[off..][k - off];
  }

  lemma VerifiesSum(s: nat, t: nat)
    requires FoldAll(s) == 0xFFFF
    ensures FoldAll(s + t) == 0xFFFF <==> t % 0xFFFF == 0
  {
    hide FoldAll;
    var j := FoldAllQuotient(s);
    var k := FoldAllQuotient(s + t);
    assert t == FoldAll(s + t) - 0xFFFF + 0xFFFF * (k - j);
  }

  // ----- byte order

  /** The same words read in network order. */
  function NetworkWordsAt(p: Packet, off: nat, n: nat): (ws: seq<Word>)
    requires off + 2 * n <= |p|
    ensures |ws| == n
  {
    seq(n, k requires 0 <= k < n => (0x100 * (p[off + 2 * k] as int) + p[off + 2 * k + 1] as int) as Word)
  }

  /** Little-endian loads put the same two bytes into the header as a computation in network order would. */
  lemma NetworkOrderSameBytes(p: Packet)
    requires PAYLOAD <= |p|
    ensures
      var c := Finish(Sum(WordsAt(p, IPHDR, 10)));
      var d := Finish(Sum(NetworkWordsAt(p, IPHDR, 10)));
      c % 0x100 == d / 0x100 && c / 0x100 == d % 0x100
  {
    var ws := WordsAt(p, IPHDR, 10);
    assert SwapAll(ws) == NetworkWordsAt(p, IPHDR, 10);
    ByteOrderIndependence(ws);
  }

  // ----- runs

  /** The state of the rotation after each packet has been handled. */
  function RunState(backends: Backends, rr: nat, packets: seq<Packet>): nat {
    if packets == [] then rr
    else Handle(backends, RunState(backends, rr, packets[..|packets| - 1]), packets[|packets| - 1]).roundRobin
  }

  /** IPv4 over Ethernet (bytes 12 and 13), TCP (byte 23), and a header that is long enough and fits (byte 14). */
  predicate IsForwardedPacket(p: Packet) {
    && |p| >= 34
    && p[12] == 8 && p[13] == 0
    && p[23] == 6
    && 5 <= p[14] % 16
    && 14 + 4 * (p[14] % 16) <= |p|
  }

  /** A packet to forward whose source address is 10.0.0.1. */
  predicate IsClientPacket(p: Packet) {
    IsForwardedPacket(p) && p[26..30] == [10, 0, 0, 1]
  }

  /** The tests of the program are these. */
  lemma BranchBytes(p: Packet)
    ensures Forwardable(p) <==> IsForwardedPacket(p)
    ensures Forwardable(p) ==> (FromClient(p) <==> IsClientPacket(p))
  {
  }

  function ClientPackets(packets: seq<Packet>): seq<Packet> {
    if packets == [] then []
    else
      var before, p := ClientPackets(packets[..|packets| - 1]), packets[|packets| - 1];
      if IsClientPacket(p) then before + [p] else before
  }

  lemma RotationStep(backends: Backends, rr: nat, p: Packet)
    requires rr < 2
    ensures Handle(backends, rr, p).roundRobin == if IsClientPacket(p) then 1 - rr else rr
  {
    hide ToBackend, ToClient, Forwardable, FromClient, IsClientPacket;
    BranchBytes(p);
    ClientIsForwarded(p);
  }

  lemma ClientIsForwarded(p: Packet)
    ensures IsClientPacket(p) ==> Forwardable(p) && FromClient(p)
  {
  }

  /** The rotation depends only on how many client packets went before. */
  lemma {:induction false} RotationCounts(backends: Backends, packets: seq<Packet>)
    ensures RunState(backends, 0, packets) == |ClientPackets(packets)| % 2
  {
    hide Handle, IsClientPacket;
    if packets != [] {
      RotationCounts(backends, packets[..|packets| - 1]);
      RotationStep(backends, RunState(backends, 0, packets[..|packets| - 1]), packets[|packets| - 1]);
    }
  }

  /** The k-th client packet, whatever other traffic came with it, goes out to backend k mod 2. */
  lemma ClientPacketTarget(backends: Backends, packets: seq<Packet>, i: nat)
    requires i < |packets| && IsClientPacket(packets[i])
    ensures
      var o := Handle(backends, RunState(backends, 0, packets[..i]), packets[i]);
      var k := |ClientPackets(packets[..i])|;
      && o.action == XdpTx && SentFrom(packets[i], o.packet)
      && o.packet[30..34] == backends[k % 2].ip
  {
    hide Handle, RunState, ClientPackets, SentFrom, Forwardable, FromClient, IsClientPacket;
    ClientIsForwarded(packets[i]);
    RotationCounts(backends, packets[..i]);
    PassLeavesAlone(backends, RunState(backends, 0, packets[..i]), packets[i]);
    TransmitRewrites(backends, RunState(backends, 0, packets[..i]), packets[i]);
  }

  /** How many of the run's client packets were handed to the given backend. */
  function Handed(backends: Backends, packets: seq<Packet>, key: nat): nat {
    if packets == [] then 0
    else
      var before, p := packets[..|packets| - 1], packets[|packets| - 1];
      Handed(backends, before, key) + if IsClientPacket(p) && RunState(backends, 0, before) % 2 == key then 1 else 0
  }

  /** The two backends share the client packets evenly, and the first is never behind. */
  lemma {:induction false} FairShare(backends: Backends, packets: seq<Packet>)
    ensures Handed(backends, packets, 0) + Handed(backends, packets, 1) == |ClientPackets(packets)|
    ensures Handed(backends, packets, 0) - Handed(backends, packets, 1) == |ClientPackets(packets)| % 2
  {
    hide RunState, IsClientPacket;
    if packets != [] {
      FairShare(backends, packets[..|packets| - 1]);
      RotationCounts(backends, packets[..|packets| - 1]);
    }
  }

  /** An entry that was never set is not skipped: its client packets go out to 0.0.0.0, and only those do. */
  lemma UnsetEntryIff(backends: Backends, packets: seq<Packet>, i: nat)
    requires i < |packets| && IsClientPacket(packets[i])
    ensures
      var o := Handle(backends, RunState(backends, 0, packets[..i]), packets[i]);
      o.action == XdpTx && PAYLOAD <= |o.packet|
      && (o.packet[30..34] == [0, 0, 0, 0]
          <==> backends[|ClientPackets(packets[..i])| % 2].ip == [0, 0, 0, 0])
  {
    hide RunState, ClientPackets, Handle;
    ClientPacketTarget(backends, packets, i);
  }
}
