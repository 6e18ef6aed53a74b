/** What rewriting the addresses does to the TCP checksum, which handle_xdp leaves alone, and packets that suffer. */
module TcpChecksum {
  import opened Bytes
  import opened Checksum
  import opened LoadBalancer

  function TotalLen(p: Packet): nat
    requires PAYLOAD <= |p|
  {
    0x100 * (p[IPHDR + 2] as int) + p[IPHDR + 3] as int
  }

  /** The datagram is all there, and its headers fit its length. */
  predicate WholeDatagram(p: Packet) {
    PAYLOAD <= |p| && HeaderLen(p) <= TotalLen(p) && IPHDR + TotalLen(p) <= |p| && 20 <= HeaderLen(p)
  }

  /** The two addresses of the pseudo-header. */
  function AddressSum(p: Packet): nat
    requires PAYLOAD <= |p|
  {
    Sum(NetworkWordsAt(p, SADDR, 4))
  }

  /** The rest of what section 3.1 of RFC 9293 sums: protocol, TCP length and the segment, padded to whole words. */
  function SegmentSum(p: Packet): nat
    requires WholeDatagram(p)
  {
    var len, start := TotalLen(p) - HeaderLen(p), IPHDR + HeaderLen(p);
    p[PROTOCOL] + len + Sum(NetworkWordsAt(p, start, len / 2))
    + if len % 2 == 1 then 0x100 * (p[start + len - 1] as int) else 0
  }

  predicate TcpVerifies(p: Packet)
    requires WholeDatagram(p)
  {
    FoldAll(AddressSum(p) + SegmentSum(p)) == 0xFFFF
  }

  lemma BytesKept(p: Packet, q: Packet)
    requires SentFrom(p, q)
    ensures |q| == |p|
    ensures forall k | H_PROTO <= k < CHECK || PAYLOAD <= k < |p| :: q[k] == p[k]
  {
    forall k | H_PROTO <= k < CHECK || PAYLOAD <= k < |p| ensures q[k] == p[k] {
      if k < CHECK {
        assert q[k] == q[H_PROTO..CHECK][k - H_PROTO] && p[k] == p[H_PROTO..CHECK][k - H_PROTO];
      } else {
        assert q[k] == q[PAYLOAD..][k - PAYLOAD] && p[k] == p[PAYLOAD..][k - PAYLOAD];
      }
    }
  }

  /** The segment's part of the sum survives the rewriting of the packet. */
  lemma SegmentKept(p: Packet, q: Packet)
    requires SentFrom(p, q) && WholeDatagram(p)
    ensures WholeDatagram(q) && SegmentSum(q) == SegmentSum(p)
  {
    hide SentFrom;
    BytesKept(p, q);
    var len, start := TotalLen(p) - HeaderLen(p), IPHDR + HeaderLen(p);
    assert NetworkWordsAt(q, start, len / 2) == NetworkWordsAt(p, start, len / 2);
  }

  lemma FullSum(s: nat)
    ensures FoldAll(s) == 0xFFFF <==> s > 0 && s % 0xFFFF == 0
  {
    hide FoldAll;
    var k := FoldAllQuotient(s);
    Remainder(FoldAll(s), k);
  }

  lemma Remainder(r: nat, k: nat)
    requires r <= 0xFFFF
    ensures (r + 0xFFFF * k) % 0xFFFF == if r == 0xFFFF then 0 else r
  {
    var q := if r == 0xFFFF then k + 1 else k;
    assert r + 0xFFFF * k == (if r == 0xFFFF then 0 else r) + 0xFFFF * q;
  }

  lemma SameRemainder(a: nat, b: nat, rest: nat)
    requires (a + rest) % 0xFFFF == 0
    ensures (b + rest) % 0xFFFF == 0 <==> b % 0xFFFF == a % 0xFFFF
  {
    var m := (a + rest) / 0xFFFF;
    assert b + rest == (b - a) + 0xFFFF * m;
    Shifted(b - a, m);
    var i, j := a / 0xFFFF, b / 0xFFFF;
    assert b - a == (b % 0xFFFF - a % 0xFFFF) + 0xFFFF * (j - i);
    Shifted(b % 0xFFFF - a % 0xFFFF, j - i);
  }

  lemma Shifted(x: int, m: int)
    ensures (x + 0xFFFF * m) % 0xFFFF == x % 0xFFFF
  {
    var q := x / 0xFFFF;
    assert x + 0xFFFF * m == x % 0xFFFF + 0xFFFF * (q + m);
  }

  /** A segment that verified when it came still verifies when it leaves if and only if the addresses taken out and
      the addresses put in have the same sum modulo 0xFFFF. */
  lemma TcpVerifiesIff(backends: Backends, rr: nat, p: Packet, q: Packet)
    requires Handle(backends, rr, p).action == XdpTx && Handle(backends, rr, p).packet == q
    requires WholeDatagram(p) && TcpVerifies(p)
    ensures WholeDatagram(q)
    ensures TcpVerifies(q) <==> AddressSum(q) % 0xFFFF == AddressSum(p) % 0xFFFF
  {
    hide Handle, FoldAll, SegmentSum;
    TransmitRewrites(backends, rr, p);
    SegmentKept(p, q);
    FullSum(AddressSum(p) + SegmentSum(p));
    FullSum(AddressSum(q) + SegmentSum(q));
    SourceCounts(q);
    SameRemainder(AddressSum(p), AddressSum(q), SegmentSum(p));
  }

  lemma SourceCounts(q: Packet)
    requires PAYLOAD <= |q| && q[SADDR..SADDR + 4] == LOAD_BALANCER_IP
    ensures AddressSum(q) > 0
  {
    var ws := NetworkWordsAt(q, SADDR, 4);
    assert q[SADDR] == q[SADDR..SADDR + 4][0];
    SumAtLeast(ws, 0);
  }

  // ----- packets that show the failures

  lemma {:induction false} SumOfOne(ws: seq<Word>, i: nat)
    requires i < |ws| && forall k | 0 <= k < |ws| && k != i :: ws[k] == 0
    ensures Sum(ws) == ws[i]
  {
    if i < |ws| - 1 {
      SumOfOne(ws[..|ws| - 1], i);
    } else {
      SumOfZeros(ws[..i]);
    }
  }

  lemma {:induction false} SumOfZeros(ws: seq<Word>)
    requires forall k | 0 <= k < |ws| :: ws[k] == 0
    ensures Sum(ws) == 0
  {
    if ws != [] {
      SumOfZeros(ws[..|ws| - 1]);
    }
  }

  /** A TCP packet from elsewhere whose header has one option word, 1 as loaded. */
  const WITH_OPTIONS: Packet := seq(38, k =>
    if k == H_PROTO then 8 else if k == IPHDR then 0x46 else if k == PROTOCOL then 6 else if k == PAYLOAD then 1 else 0)

  lemma WithOptions()
    ensures Forwardable(WITH_OPTIONS) && HeaderLen(WITH_OPTIONS) == 24 && |WITH_OPTIONS| == 38
    ensures Sum(WordsAt(WITH_OPTIONS, PAYLOAD, 2)) == 1
  {
    SumOfOne(WordsAt(WITH_OPTIONS, PAYLOAD, 2), 0);
  }

  lemma OptionsBreakHeader(backends: Backends, rr: nat)
    ensures
      var o := Handle(backends, rr, WITH_OPTIONS);
      o.action == XdpTx && |o.packet| == 38 && !Verifies(WordsAt(o.packet, IPHDR, 12))
  {
    hide Handle, Forwardable, HeaderLen, WITH_OPTIONS, Verifies, WordsAt, Sum;
    WithOptions();
    PassLeavesAlone(backends, rr, WITH_OPTIONS);
    WholeHeaderVerifiesIff(backends, rr, WITH_OPTIONS, Handle(backends, rr, WITH_OPTIONS).packet, 2);
  }

  /** A packet from 0.0.0.0 to 0.0.0.0 with a TCP header of 20 bytes, all zero but for a checksum that verifies. */
  const VERIFYING: Packet := seq(54, k =>
    if k == H_PROTO then 8 else if k == IPHDR then 0x45 else if k == IPHDR + 3 then 40 else if k == PROTOCOL then 6
    else if k == 50 then 0xFF else if k == 51 then 0xE5 else 0)

  lemma VerifyingPacket()
    ensures Forwardable(VERIFYING) && !FromClient(VERIFYING) && WholeDatagram(VERIFYING)
    ensures AddressSum(VERIFYING) == 0 && TcpVerifies(VERIFYING)
  {
    SumOfZeros(NetworkWordsAt(VERIFYING, SADDR, 4));
    SumOfOne(NetworkWordsAt(VERIFYING, PAYLOAD, 10), 8);
    assert VERIFYING[SADDR..SADDR + 4][0] != CLIENT_IP[0];
    assert AddressSum(VERIFYING) + SegmentSum(VERIFYING) == 0xFFFF;
  }

  lemma RewritingBreaksTcp(backends: Backends, rr: nat)
    ensures
      var o := Handle(backends, rr, VERIFYING);
      o.action == XdpTx && WholeDatagram(VERIFYING) && TcpVerifies(VERIFYING)
      && WholeDatagram(o.packet) && !TcpVerifies(o.packet)
  {
    hide Handle, Forwardable, WholeDatagram, TcpVerifies, AddressSum, FromClient, VERIFYING;
    VerifyingPacket();
    PassLeavesAlone(backends, rr, VERIFYING);
    var q := Handle(backends, rr, VERIFYING).packet;
    TransmitRewrites(backends, rr, VERIFYING);
    TcpVerifiesIff(backends, rr, VERIFYING, q);
    BalancerToClient(q);
  }

  lemma BalancerToClient(q: Packet)
    requires PAYLOAD <= |q| && q[SADDR..SADDR + 4] == LOAD_BALANCER_IP && q[DADDR..DADDR + 4] == CLIENT_IP
    ensures AddressSum(q) == 0x140B
  {
    var ws := NetworkWordsAt(q, SADDR, 4);
    assert forall k | SADDR <= k < SADDR + 4 :: q[k] == q[SADDR..SADDR + 4][k - SADDR];
    assert forall k | DADDR <= k < DADDR + 4 :: q[k] == q[DADDR..DADDR + 4][k - DADDR];
    assert ws[0] == 0x0A00 && ws[1] == 0x000A && ws[2] == 0x0A00 && ws[3] == 0x0001;
    SumOfFour(ws);
  }

  lemma SumOfFour(ws: seq<Word>)
    requires |ws| == 4
    ensures Sum(ws) == ws[0] as int + ws[1] as int + ws[2] as int + ws[3] as int
  {
    assert Sum(ws[..3]) == Sum(ws[..3][..2]) + ws[2];
    assert Sum(ws[..3][..2]) == Sum(ws[..3][..2][..1]) + ws[1];
    assert Sum(ws[..3][..2][..1]) == Sum([]) + ws[0];
  }
}
