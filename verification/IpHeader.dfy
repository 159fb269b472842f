/**
 The IPv4 header the raw-socket programs write by hand into a packet buffer, byte by byte,
 and the address conversion of the kernel ping.
 */
module IpHeader {
  import opened Rfc1071

  /** A 16-bit value from its high and low bytes. */
  function Join(hi: int, lo: int): int { 0x100 * hi + lo }

  lemma LastByte(v: nat, b: Byte)
    ensures (0x100 * v + b) / 0x100 == v && (0x100 * v + b) % 0x100 == b
  {
  }

  /** Bytes read through an unsigned short pointer on a little-endian host. */
  function HostWords(bytes: seq<Byte>): (ws: seq<Word>)
    requires |bytes| % 2 == 0
    ensures |ws| == |bytes| / 2
  {
    seq(|bytes| / 2, i requires 0 <= i < |bytes| / 2 => Join(bytes[2 * i + 1], bytes[2 * i]))
  }

  /** The same bytes in network order, as the receiver's standard numbers them. */
  function NetworkWords(bytes: seq<Byte>): seq<Word>
    requires |bytes| % 2 == 0
  {
    seq(|bytes| / 2, i requires 0 <= i < |bytes| / 2 => Join(bytes[2 * i], bytes[2 * i + 1]))
  }

  lemma NetworkWordsAreSwapped(bytes: seq<Byte>)
    requires |bytes| % 2 == 0
    ensures NetworkWords(bytes) == SwapAll(HostWords(bytes))
  {
    var network, host := NetworkWords(bytes), HostWords(bytes);
    forall i | 0 <= i < |network| ensures network[i] == Swap(host[i]) {
      JoinSwapped(bytes[2 * i + 1], bytes[2 * i]);
    }
  }

  lemma JoinSwapped(hi: Byte, lo: Byte)
    ensures Swap(Join(hi, lo)) == Join(lo, hi)
  {
    SwapOfParts(hi, lo);
  }

  /** A header is accepted on any host exactly when it is accepted in network order. */
  lemma ValidInBothByteOrders(bytes: seq<Byte>)
    requires |bytes| % 2 == 0
    ensures InternetChecksum(NetworkWords(bytes)) == 0 <==> InternetChecksum(HostWords(bytes)) == 0
  {
    NetworkWordsAreSwapped(bytes);
    SwapCommutesWithChecksum(HostWords(bytes));
    SwapValue(InternetChecksum(HostWords(bytes)));
  }

  /** The header of RFC 791, section 3.1, without options: the fields the programs set. */
  predicate HeaderFields(h: seq<Byte>, length: Word, id: Word, ttl: Byte, protocol: Byte,
                         src: seq<Byte>, dst: seq<Byte>)
    requires |h| == 20 && |src| == 4 && |dst| == 4
  {
    && h[0] == 0x45 && h[1] == 0
    && Join(h[2], h[3]) == length
    && Join(h[4], h[5]) == id
    && h[6] == 0x40 && h[7] == 0
    && h[8] == ttl && h[9] == protocol
    && forall i | 0 <= i < 4 :: h[12 + i] == src[i] && h[16 + i] == dst[i]
  }

  /** The bytes the programs write, two-byte fields in network order, with the checksum slot cleared. */
  function FieldBytes(length: Word, id: Word, ttl: Byte, protocol: Byte, src: seq<Byte>, dst: seq<Byte>): (h: seq<Byte>)
    requires |src| == 4 && |dst| == 4
    ensures |h| == 20 && HeaderFields(h, length, id, ttl, protocol, src, dst) && h[10] == 0 && h[11] == 0
  {
    [0x45, 0, length / 0x100, length % 0x100, id / 0x100, id % 0x100, 0x40, 0, ttl, protocol, 0, 0] + src + dst
  }

  method StoreBytes(pck: array<Byte>, start: nat, bytes: seq<Byte>)
    requires start + |bytes| <= pck.Length
    modifies pck
    ensures pck[start..start + |bytes|] == bytes
    ensures pck[..start] == old(pck[..start]) && pck[start + |bytes|..] == old(pck[start + |bytes|..])
  {
    for i := 0 to |bytes|
      invariant forall j | 0 <= j < i :: pck[start + j] == bytes[j]
      invariant forall j | 0 <= j < start || start + |bytes| <= j < pck.Length :: pck[j] == old(pck[j])
    {
      pck[start + i] := bytes[i];
    }
  }

  /** The header fill of les27 and les28 at offset start; les26 starts from a zeroed packet instead
      of clearing the checksum slot itself. */
  method FillHeader(pck: array<Byte>, start: nat, length: Word, id: Word, ttl: Byte, protocol: Byte,
                    src: seq<Byte>, dst: seq<Byte>)
    requires start + 20 <= pck.Length
    requires |src| == 4 && |dst| == 4
    modifies pck
    ensures HeaderFields(pck[start..start + 20], length, id, ttl, protocol, src, dst)
    ensures InternetChecksum(NetworkWords(pck[start..start + 20])) == 0
    ensures InternetChecksum(HostWords(pck[start..start + 20])) == 0
    ensures pck[..start] == old(pck[..start]) && pck[start + 20..] == old(pck[start + 20..])
  {
    var bytes := FieldBytes(length, id, ttl, protocol, src, dst);
    StoreBytes(pck, start, bytes);
    var csum := StoreChecksum(pck, start, bytes);
    SlotIsNoField(bytes, pck[start..start + 20], csum, length, id, ttl, protocol, src, dst);
  }

  /** ip->check = checksum(ip, 20), through a pointer to an unsigned short. */
  method StoreChecksum(pck: array<Byte>, start: nat, ghost before: seq<Byte>) returns (csum: Word)
    requires start + 20 <= pck.Length && |before| == 20
    requires pck[start..start + 20] == before && before[10] == 0 && before[11] == 0
    modifies pck
    ensures pck[start..start + 20] == before[..10] + [csum % 0x100, csum / 0x100] + before[12..]
    ensures InternetChecksum(NetworkWords(pck[start..start + 20])) == 0
    ensures InternetChecksum(HostWords(pck[start..start + 20])) == 0
    ensures pck[..start] == old(pck[..start]) && pck[start + 20..] == old(pck[start + 20..])
  {
    csum := Checksum(HostWords(pck[start..start + 20]));
    pck[start + 10], pck[start + 11] := csum % 0x100, csum / 0x100;
    ghost var after: seq<Byte> := pck[start..start + 20];
    FilledSlot(before, after, csum % 0x100, csum / 0x100);
    ChecksumSlot(before, after, csum);
  }

  lemma FilledSlot(before: seq<Byte>, after: seq<Byte>, lo: Byte, hi: Byte)
    requires |before| == |after| == 20 && after[10] == lo && after[11] == hi
    requires forall i | 0 <= i < 20 && i != 10 && i != 11 :: after[i] == before[i]
    ensures after == before[..10] + [lo, hi] + before[12..]
  {
  }

  /** The checksum slot is none of the other fields. */
  lemma SlotIsNoField(before: seq<Byte>, after: seq<Byte>, csum: Word, length: Word, id: Word, ttl: Byte,
                      protocol: Byte, src: seq<Byte>, dst: seq<Byte>)
    requires |before| == |after| == 20 && |src| == |dst| == 4
    requires after == before[..10] + [csum % 0x100, csum / 0x100] + before[12..]
    requires HeaderFields(before, length, id, ttl, protocol, src, dst)
    ensures HeaderFields(after, length, id, ttl, protocol, src, dst)
  {
    assert forall i | 0 <= i < 20 && i != 10 && i != 11 :: after[i] == before[i];
  }

  lemma HostWordsOfSlot(before: seq<Byte>, after: seq<Byte>, csum: Word)
    requires |before| == |after| == 20
    requires after == before[..10] + [csum % 0x100, csum / 0x100] + before[12..]
    ensures HostWords(after) == HostWords(before)[5 := csum]
  {
  }

  /** Two bytes stored in the cleared slot are word 5 of the header. */
  lemma ChecksumSlot(before: seq<Byte>, after: seq<Byte>, csum: Word)
    requires |before| == |after| == 20
    requires after == before[..10] + [csum % 0x100, csum / 0x100] + before[12..]
    requires before[10] == 0 && before[11] == 0
    requires csum == InternetChecksum(HostWords(before))
    ensures InternetChecksum(HostWords(after)) == 0 && InternetChecksum(NetworkWords(after)) == 0
  {
    HostWordsOfSlot(before, after, csum);
    StoredChecksumVerifies(HostWords(before), 5, csum);
    ValidInBothByteOrders(after);
  }

  /** The header's bytes, the checksum slot aside. */
  lemma BytesOfFields(h: seq<Byte>, length: Word, id: Word, ttl: Byte, protocol: Byte, src: seq<Byte>, dst: seq<Byte>)
    requires |h| == 20 && |src| == |dst| == 4
    requires HeaderFields(h, length, id, ttl, protocol, src, dst)
    ensures h[..10] == FieldBytes(length, id, ttl, protocol, src, dst)[..10]
    ensures h[12..] == src + dst
  {
    LastByte(h[2], h[3]);
    LastByte(h[4], h[5]);
    assert h[12..16] == src && h[16..] == dst;
    assert h[12..] == h[12..16] + h[16..];
  }

  /** A header in which the checksum slot is not yet filled. */
  function Cleared(h: seq<Byte>): seq<Byte>
    requires |h| == 20
  {
    h[..10] + [0, 0] + h[12..]
  }

  /** The same word, or the two zeros of one's complement. */
  predicate SameSum(w: Word, c: Word) { w == c || (w == 0 && c == 0xFFFF) || (w == 0xFFFF && c == 0) }

  lemma Modulus(w: Word)
    ensures w % 0xFFFF == if w == 0xFFFF then 0 else w
  {
  }

  lemma VerifyingWord(ws: seq<Word>, k: nat, w: Word)
    requires k < |ws| && ws[k] == 0 && InternetChecksum(ws[k := w]) == 0
    ensures SameSum(w, InternetChecksum(ws))
  {
    StoredChecksumVerifies(ws, k, w);
    Modulus(w);
    Modulus(InternetChecksum(ws));
  }

  lemma SlotWord(h: seq<Byte>) returns (w: Word)
    requires |h| == 20
    ensures h[10..12] == [w % 0x100, w / 0x100] && HostWords(h) == HostWords(Cleared(h))[5 := w]
  {
    w := Join(h[11], h[10]);
    LastByte(h[11], h[10]);
    FilledSlot(Cleared(h), h, h[10], h[11]);
    HostWordsOfSlot(Cleared(h), h, w);
  }

  /** If a header verifies, its slot is the checksum of the rest, up to the two zeros. */
  lemma SlotOfValidHeader(h: seq<Byte>) returns (w: Word)
    requires |h| == 20 && InternetChecksum(HostWords(h)) == 0
    ensures h[10..12] == [w % 0x100, w / 0x100] && SameSum(w, InternetChecksum(HostWords(Cleared(h))))
  {
    w := SlotWord(h);
    assert HostWords(Cleared(h))[5] == Join(0, 0);
    VerifyingWord(HostWords(Cleared(h)), 5, w);
  }

  lemma SlotsOfValidHeaders(h: seq<Byte>, h': seq<Byte>)
    requires |h| == |h'| == 20 && h[..10] == h'[..10] && h[12..] == h'[12..]
    requires InternetChecksum(HostWords(h)) == 0 && InternetChecksum(HostWords(h')) == 0
    ensures h[10..12] == h'[10..12] || {h[10..12], h'[10..12]} == {[0, 0], [0xFF, 0xFF]}
  {
    var w := SlotOfValidHeader(h);
    var w' := SlotOfValidHeader(h');
    assert Cleared(h) == Cleared(h');
    assert w == w' || (w == 0 && w' == 0xFFFF) || (w == 0xFFFF && w' == 0);
  }

  /** The fields leave nothing open: headers with the same ones that both verify are equal, up to the two zeros in
      the checksum slot. */
  lemma FieldsDetermineHeader(h: seq<Byte>, h': seq<Byte>, length: Word, id: Word, ttl: Byte, protocol: Byte,
                              src: seq<Byte>, dst: seq<Byte>)
    requires |h| == |h'| == 20 && |src| == |dst| == 4
    requires HeaderFields(h, length, id, ttl, protocol, src, dst)
    requires HeaderFields(h', length, id, ttl, protocol, src, dst)
    requires InternetChecksum(HostWords(h)) == 0 && InternetChecksum(HostWords(h')) == 0
    ensures h[..10] == h'[..10] && h[12..] == h'[12..]
    ensures h[10..12] == h'[10..12] || {h[10..12], h'[10..12]} == {[0, 0], [0xFF, 0xFF]}
  {
    BytesOfFields(h, length, id, ttl, protocol, src, dst);
    BytesOfFields(h', length, id, ttl, protocol, src, dst);
    SlotsOfValidHeaders(h, h');
  }

  // ------------------------------------------------------- the packets of a trace

  /** The time-to-live is the low byte of word 4 on the host. */
  lemma HostWordsOfTtl(h: seq<Byte>, ttl: Byte)
    requires |h| == 20
    ensures HostWords(h[8 := ttl]) == HostWords(h)[4 := Join(h[9], ttl)]
  {
  }

  lemma FullResidue(n: nat, d: int)
    requires Residue(n) == 0xFFFF && -0x100 < d < 0x100 && 0 <= n + d
    ensures Residue(n + d) == 0xFFFF <==> d == 0
  {
    var k := ResidueWitness(n);
    if d > 0 {
      ResidueUnique(n + d, d, k + 1);
    } else if d < 0 {
      ResidueUnique(n + d, 0xFFFF + d, k);
    }
  }

  /** A checksum that is not computed again is right for one time-to-live only. */
  lemma TtlSpoilsChecksum(h: seq<Byte>, ttl: Byte)
    requires |h| == 20 && InternetChecksum(HostWords(h)) == 0
    ensures InternetChecksum(HostWords(h[8 := ttl])) == 0 <==> ttl == h[8]
  {
    var ws := HostWords(h);
    var w: int := Join(h[9], ttl);
    HostWordsOfTtl(h, ttl);
    SumUpdate(ws, 4, w);
    assert ws[4] == Join(h[9], h[8]);
    FullResidue(Sum(ws), ttl - h[8]);
  }

  /** The header of the k-th packet of a trace: ip.ttl, a byte, has been increased k times. */
  function TracePacket(h: seq<Byte>, k: nat): seq<Byte>
    requires |h| == 20
  {
    h[8 := (h[8] + k) % 0x100]
  }

  /** Of the packets of a trace those verify, in either byte order, whose time-to-live has come round
      to its first value, which is the first packet and every 256th after it. */
  lemma TracePacketsVerify(h: seq<Byte>, k: nat)
    requires |h| == 20 && InternetChecksum(HostWords(h)) == 0
    ensures InternetChecksum(HostWords(TracePacket(h, k))) == 0 <==> k % 0x100 == 0
    ensures InternetChecksum(NetworkWords(TracePacket(h, k))) == 0 <==> k % 0x100 == 0
  {
    TtlSpoilsChecksum(h, (h[8] + k) % 0x100);
    ComesRound(h[8], k);
    ValidInBothByteOrders(TracePacket(h, k));
  }

  lemma ComesRound(b: Byte, k: nat)
    ensures (b + k) % 0x100 == b <==> k % 0x100 == 0
  {
  }

  // ------------------------------------------------------------ create_address

  function AddressValue(ip: seq<Byte>): (v: nat)
    ensures |ip| == 1 ==> v < 0x100
    ensures |ip| == 2 ==> v < 0x1_0000
    ensures |ip| == 3 ==> v < 0x100_0000
    ensures |ip| == 4 ==> v < 0x1_0000_0000
  {
    if ip == [] then 0 else 0x100 * AddressValue(ip[..|ip| - 1]) + ip[|ip| - 1]
  }

  /** The low n bytes of a value, most significant first, as htonl lays them out. */
  function NetworkBytes(addr: nat, n: nat): seq<Byte> {
    if n == 0 then [] else NetworkBytes(addr / 0x100, n - 1) + [addr % 0x100]
  }

  method CreateAddress(ip: seq<Byte>) returns (addr: nat)
    requires 4 <= |ip|
    ensures addr == AddressValue(ip[..4]) && addr < 0x1_0000_0000
  {
    addr := 0;
    var i := 0;
    while i < 4
      invariant 0 <= i <= 4
      invariant addr == if i < 4 then 0x100 * AddressValue(ip[..i]) else AddressValue(ip[..4])
    {
      assert ip[..i + 1][..i] == ip[..i];
      assert addr + ip[i] == AddressValue(ip[..i + 1]);
      addr := (addr + ip[i]) % 0x1_0000_0000;
      if i == 3 {
        i := i + 1;
        break;
      }
      addr := (addr * 0x100) % 0x1_0000_0000;
      i := i + 1;
    }
  }

  /** The address loses nothing: its bytes in network order are the given ones. */
  lemma {:induction false} AddressRoundTrip(ip: seq<Byte>)
    ensures NetworkBytes(AddressValue(ip), |ip|) == ip
  {
    if ip != [] {
      AddressRoundTrip(ip[..|ip| - 1]);
      LastByte(AddressValue(ip[..|ip| - 1]), ip[|ip| - 1]);
    }
  }
}
