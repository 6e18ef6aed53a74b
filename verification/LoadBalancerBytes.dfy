/** What handle_xdp does to a packet, byte for byte: every byte of the packet it sends is settled here. */
module LoadBalancerBytes {
  import opened Bytes
  import opened Checksum
  import opened LoadBalancer
  import opened TcpChecksum

  /** A 16-bit word, loaded low byte first. */
  function Load(low: int, high: int): int { low + 0x100 * high }

  /** The ten words of the header added up, the checksum field among them. */
  function HeaderSum(q: Packet): int
    requires |q| >= 34
  {
    Load(q[24], q[25]) + OtherWords(q)
  }

  function OtherWords(q: Packet): int
    requires |q| >= 34
  {
    Load(q[14], q[15]) + Load(q[16], q[17]) + Load(q[18], q[19]) + Load(q[20], q[21]) + Load(q[22], q[23])
    + Load(q[26], q[27]) + Load(q[28], q[29]) + Load(q[30], q[31]) + Load(q[32], q[33])
  }

  /** The byte that a packet leaving for the address ip has at place k, the checksum aside. */
  function SentByte(p: Packet, ip: Ip, toClient: bool, k: nat): Byte
    requires k < |p|
  {
    if k < 6 then (if toClient then [0xDE, 0xAD, 0xAA, 0xAA, 0x00, 0x01][k] else p[k])
    else if k < 12 then [0xDE, 0xAD, 0xAA, 0xAA, 0x00, 0x10][k - 6]
    else if 26 <= k < 30 then [10, 0, 0, 10][k - 26]
    else if 30 <= k < 34 then ip[k - 30]
    else p[k]
  }

  /** The checksum field is the one number below 0xFFFF that makes the header sum a multiple of 0xFFFF. */
  predicate ChecksumSettled(q: Packet)
    requires |q| >= 34
  {
    Load(q[24], q[25]) < 0xFFFF && HeaderSum(q) > 0 && HeaderSum(q) % 0xFFFF == 0
  }

  predicate SentTo(p: Packet, q: Packet, ip: Ip, toClient: bool) {
    && |q| == |p| >= 34
    && (forall k | 0 <= k < |p| && k != 24 && k != 25 :: q[k] == SentByte(p, ip, toClient, k))
    && ChecksumSettled(q)
  }

  /** Everything a call does, told from the bytes of the packet: one that is no TCP packet to forward passes
      untouched; one from 10.0.0.1 goes to the backend whose turn it is and moves the rotation; any other goes to
      10.0.0.1 and leaves the rotation. */
  lemma HandleBytes(backends: Backends, rr: nat, p: Packet)
    requires rr < 2
    ensures
      var o := Handle(backends, rr, p);
      if |p| < 34 || p[12] != 8 || p[13] != 0 || p[23] != 6 || p[14] % 16 < 5 || |p| < 14 + 4 * (p[14] % 16) then
        o == Outcome(p, rr, XdpPass)
      else if p[26] == 10 && p[27] == 0 && p[28] == 0 && p[29] == 1 then
        o.action == XdpTx && SentTo(p, o.packet, backends[rr].ip, false) && o.roundRobin == 1 - rr
      else
        o.action == XdpTx && SentTo(p, o.packet, [10, 0, 0, 1], true) && o.roundRobin == rr
  {
    hide Handle, Forwardable, FromClient, ChecksumSettled, SentTo;
    PassLeavesAlone(backends, rr, p);
    RotationStep(backends, rr, p);
    BranchBytes(p);
    SourceBytes(p);
    if Forwardable(p) {
      TransmitRewrites(backends, rr, p);
      var q, ip := Handle(backends, rr, p).packet, if FromClient(p) then backends[rr].ip else [10, 0, 0, 1];
      SentPlaces(p, q, ip, !FromClient(p));
      Settled(backends, rr, p);
      SentWhole(p, q, ip, !FromClient(p));
    }
  }

  lemma SentWhole(p: Packet, q: Packet, ip: Ip, toClient: bool)
    requires |q| == |p| >= 34 && ChecksumSettled(q)
    requires forall k | 0 <= k < |p| && k != 24 && k != 25 :: q[k] == SentByte(p, ip, toClient, k)
    ensures SentTo(p, q, ip, toClient)
  {
  }

  lemma SourceBytes(p: Packet)
    ensures IsForwardedPacket(p) ==>
              (IsClientPacket(p) <==> p[26] == 10 && p[27] == 0 && p[28] == 0 && p[29] == 1)
  {
    if |p| >= 34 {
      assert forall k | 0 <= k < 4 :: p[26..30][k] == p[26 + k];
    }
  }

  lemma SentPlaces(p: Packet, q: Packet, ip: Ip, toClient: bool)
    requires SentFrom(p, q) && q[30..34] == ip
    requires q[0..6] == if toClient then [0xDE, 0xAD, 0xAA, 0xAA, 0x00, 0x01] else p[0..6]
    ensures |q| == |p| >= 34
    ensures forall k | 0 <= k < |p| && k != 24 && k != 25 :: q[k] == SentByte(p, ip, toClient, k)
  {
    BytesKept(p, q);
    forall k | 0 <= k < 12 || 26 <= k < 34 ensures q[k] == SentByte(p, ip, toClient, k) {
      if k < 6 {
        assert q[k] == q[0..6][k];
      } else if k < 12 {
        assert q[k] == q[6..12][k - 6];
      } else if k < 30 {
        assert q[k] == q[26..30][k - 26];
      } else {
        assert q[k] == q[30..34][k - 30];
      }
    }
  }

  lemma Settled(backends: Backends, rr: nat, p: Packet)
    requires Handle(backends, rr, p).action == XdpTx
    ensures |Handle(backends, rr, p).packet| >= 34 && ChecksumSettled(Handle(backends, rr, p).packet)
  {
    hide Handle, WordsAt, Sum, HeaderSum, FoldAll, Load;
    var q := Handle(backends, rr, p).packet;
    TransmitVerifies(backends, rr, p);
    HeaderSumMeaning(q);
    FullSum(Sum(WordsAt(q, 14, 10)));
    SmallChecksum(backends, rr, p);
  }

  /** The sum that iph_csum's loop takes is the sum of the ten words. */
  lemma HeaderSumMeaning(q: Packet)
    requires |q| >= 34
    ensures Sum(WordsAt(q, 14, 10)) == HeaderSum(q)
  {
    hide WordsAt, Sum, Load;
    SumOfTen(WordsAt(q, 14, 10));
    HeaderWords(q);
  }

  lemma HeaderWords(q: Packet)
    requires |q| >= 34
    ensures forall k | 0 <= k < 10 :: WordsAt(q, 14, 10)[k] == Load(q[14 + 2 * k], q[15 + 2 * k])
  {
  }

  lemma SumOfTen(ws: seq<Word>)
    requires |ws| == 10
    ensures Sum(ws) == ws[0] as int + ws[1] + ws[2] + ws[3] + ws[4] + ws[5] + ws[6] + ws[7] + ws[8] + ws[9]
  {
    SumConcat(ws[..4] + ws[4..8], ws[8..]);
    SumConcat(ws[..4], ws[4..8]);
    assert ws == ws[..4] + ws[4..8] + ws[8..];
    SumOfFour(ws[..4]);
    SumOfFour(ws[4..8]);
    assert Sum(ws[8..]) == Sum(ws[8..][..1]) + ws[9] && Sum(ws[8..][..1]) == Sum([]) + ws[8];
  }

  lemma SmallChecksum(backends: Backends, rr: nat, p: Packet)
    requires Handle(backends, rr, p).action == XdpTx
    ensures
      var q := Handle(backends, rr, p).packet;
      |q| >= 34 && Load(q[24], q[25]) < 0xFFFF
  {
    if FromClient(p) {
      SmallInField(Put(Put(Put(p, DADDR, backends[rr % 2].ip), SADDR, LOAD_BALANCER_IP), H_SOURCE, LOAD_BALANCER_MAC));
    } else {
      SmallInField(Put(Put(Put(Put(p, DADDR, CLIENT_IP), H_DEST, CLIENT_MAC), SADDR, LOAD_BALANCER_IP),
                       H_SOURCE, LOAD_BALANCER_MAC));
    }
  }

  lemma SmallInField(p: Packet)
    requires PAYLOAD <= |p|
    ensures Load(WithChecksum(p)[24], WithChecksum(p)[25]) < 0xFFFF
  {
    hide Sum, WordsAt;
    var s := Sum(WordsAt(Put(p, CHECK, [0, 0]), IPHDR, 10));
    var u := FinishQuotient(s);
  }

  /** A packet is sent in one way only: the conditions on its bytes leave no choice. */
  lemma SentToUnique(p: Packet, q: Packet, r: Packet, ip: Ip, toClient: bool)
    requires SentTo(p, q, ip, toClient) && SentTo(p, r, ip, toClient)
    ensures q == r
  {
    hide HeaderSum, OtherWords, Load;
    OthersAlike(p, q, r, ip, toClient);
    OneRemainder(Load(q[24], q[25]), Load(r[24], r[25]), OtherWords(q));
    FieldAlike(q, r);
    assert forall k | 0 <= k < |p| :: q[k] == r[k];
  }

  lemma OthersAlike(p: Packet, q: Packet, r: Packet, ip: Ip, toClient: bool)
    requires SentTo(p, q, ip, toClient) && SentTo(p, r, ip, toClient)
    ensures OtherWords(q) == OtherWords(r)
    ensures 0 <= Load(q[24], q[25]) < 0xFFFF && (Load(q[24], q[25]) + OtherWords(q)) % 0xFFFF == 0
    ensures 0 <= Load(r[24], r[25]) < 0xFFFF && (Load(r[24], r[25]) + OtherWords(r)) % 0xFFFF == 0
  {
    hide Load;
    assert forall k | 14 <= k < 34 && k != 24 && k != 25 :: q[k] == r[k];
    LoadNatural(q);
    LoadNatural(r);
  }

  lemma LoadNatural(q: Packet)
    requires |q| >= 34
    ensures Load(q[24], q[25]) >= 0
  {
  }

  lemma OneRemainder(c: int, d: int, rest: int)
    requires 0 <= c < 0xFFFF && 0 <= d < 0xFFFF && (c + rest) % 0xFFFF == 0 && (d + rest) % 0xFFFF == 0
    ensures c == d
  {
    var i, j := (c + rest) / 0xFFFF, (d + rest) / 0xFFFF;
    assert c - d == 0xFFFF * (i - j);
  }

  lemma FieldAlike(q: Packet, r: Packet)
    requires |q| >= 34 && |r| >= 34 && Load(q[24], q[25]) == Load(r[24], r[25])
    ensures q[24] == r[24] && q[25] == r[25]
  {
  }

  /** The two addresses of the pseudo-header, as sums of bytes. */
  lemma AddressSumBytes(p: Packet)
    requires |p| >= 34
    ensures AddressSum(p) == Load(p[27], p[26]) + Load(p[29], p[28]) + Load(p[31], p[30]) + Load(p[33], p[32])
  {
    SumOfFour(NetworkWordsAt(p, 26, 4));
  }
}
