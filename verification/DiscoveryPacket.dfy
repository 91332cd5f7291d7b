/** The discovery datagram: how an announcement is written and read. */
module DiscoveryPacket {
  import opened Bytes
  import opened Membership

  const FIXED_BYTES: nat := 26
  const MAXIMUM_IDENTITY: nat := 63

  function Magic(): (m: seq<Byte>)
    ensures |m| == 4
  {
    [0x41, 0x52, 0x44, 0x31]
  }

  // ----- big-endian numbers -----

  function BigEndian(v: nat, w: nat): (s: seq<Byte>)
    ensures |s| == w
  {
    if w == 0 then [] else BigEndian(v / 256, w - 1) + [ToByte(v)]
  }

  function BigNumber(s: seq<Byte>): nat {
    if s == [] then 0 else 256 * BigNumber(s[..|s| - 1]) + Value(s[|s| - 1])
  }

  lemma {:induction false} NumberOfBigEndian(v: nat, w: nat)
    requires v < Pow256(w)
    ensures BigNumber(BigEndian(v, w)) == v
  {
    hide Value, ToByte;
    if w > 0 {
      ValueOfToByte(v);
      NumberOfBigEndian(v / 256, w - 1);
      assert BigEndian(v, w)[..w - 1] == BigEndian(v / 256, w - 1);
    }
  }

  lemma {:induction false} BigEndianOfNumber(s: seq<Byte>)
    ensures BigNumber(s) < Pow256(|s|)
    ensures BigEndian(BigNumber(s), |s|) == s
  {
    hide Value, ToByte;
    if s != [] {
      var front, last := s[..|s| - 1], s[|s| - 1];
      BigEndianOfNumber(front);
      ToByteOfValue(last, BigNumber(front));
      assert BigNumber(s) / 256 == BigNumber(front);
      assert s == front + [last];
    }
  }

  /** LoadU16 and LoadU64 are this loop at widths 2 and 8. */
  method Load(source: seq<Byte>) returns (value: nat)
    ensures value == BigNumber(source)
  {
    hide Value;
    value := 0;
    for i := 0 to |source|
      invariant value == BigNumber(source[..i])
    {
      assert source[..i + 1][..i] == source[..i];
      value := 256 * value + Value(source[i]);
    }
    assert source[..|source|] == source;
  }

  /** The value shifted right by k bytes. */
  function Shifted(v: nat, k: nat): nat {
    if k == 0 then v else Shifted(v / 256, k - 1)
  }

  lemma {:induction false} ShiftAgain(v: nat, k: nat)
    ensures Shifted(v, k + 1) == Shifted(v, k) / 256
  {
    if k > 0 {
      ShiftAgain(v / 256, k - 1);
    }
  }

  /** The buffer with some bytes written over it. */
  function Splice(s: seq<Byte>, at: nat, x: seq<Byte>): (r: seq<Byte>)
    requires at + |x| <= |s|
    ensures |r| == |s|
  {
    s[..at] + x + s[at + |x|..]
  }

  lemma SpliceMore(s: seq<Byte>, at: nat, x: seq<Byte>, b: Byte)
    requires at + |x| < |s|
    ensures Splice(s, at, x)[at + |x| := b] == Splice(s, at, x + [b])
  {
  }

  lemma SpliceReads(s: seq<Byte>, at: nat, x: seq<Byte>, lo: nat, hi: nat)
    requires at + |x| <= |s| && lo <= hi <= |s|
    ensures Splice(s, at, x)[at..at + |x|] == x
    ensures hi <= at || at + |x| <= lo ==> Splice(s, at, x)[lo..hi] == s[lo..hi]
  {
  }

  /** StoreU16 and StoreU64 are this loop at widths 2 and 8: the bytes in place, the rest as it was. */
  method Store(buffer: array<Byte>, at: nat, value: nat, width: nat)
    requires at + width <= buffer.Length
    modifies buffer
    ensures buffer[..] == Splice(old(buffer[..]), at, BigEndian(value, width))
  {
    hide ToByte, Splice;
    ghost var was := buffer[..];
    NoSplice(was, at);
    for i := 0 to width
      invariant buffer[..] == Splice(was, at, BigEndian(Shifted(value, width - i), i))
    {
      ghost var written := BigEndian(Shifted(value, width - i), i);
      ShiftAgain(value, width - i - 1);
      SpliceMore(was, at, written, ToByte(Shifted(value, width - i - 1)));
      buffer[at + i] := ToByte(Shifted(value, width - i - 1));
      assert buffer[..] == Splice(was, at, written)[at + i := buffer[at + i]];
    }
  }

  lemma NoSplice(s: seq<Byte>, at: nat)
    requires at <= |s|
    ensures Splice(s, at, []) == s
  {
  }

  // ----- the datagram -----

  function Lead(nodeLength: nat, addressLength: nat): (s: seq<Byte>)
    ensures |s| == 8
  {
    Magic() + [1, ToByte(nodeLength), ToByte(addressLength), 0]
  }

  function Numbers(generation: nat, sequence: nat, port: nat): (s: seq<Byte>)
    ensures |s| == 18
  {
    BigEndian(generation, 8) + BigEndian(sequence, 8) + BigEndian(port, 2)
  }

  /** BuildAnnouncement. */
  function Build(a: Announcement): (packet: seq<Byte>)
    ensures |packet| == FIXED_BYTES + |a.node| + |a.endpoint.address|
  {
    Lead(|a.node|, |a.endpoint.address|) + Numbers(a.generation, a.sequence, a.endpoint.port)
    + a.node + a.endpoint.address
  }

  /** ParseAnnouncement up to the numbers: the marks and the lengths. */
  predicate Shaped(p: seq<Byte>) {
    && |p| >= FIXED_BYTES && p[..4] == Magic() && p[4] == 1
    && 0 < Value(p[5]) <= MAXIMUM_IDENTITY && 0 < Value(p[6]) <= MAXIMUM_IDENTITY
    && |p| == FIXED_BYTES + Value(p[5]) + Value(p[6])
  }

  lemma NumbersFit(p: seq<Byte>)
    requires |p| >= FIXED_BYTES
    ensures BigNumber(p[8..16]) < TWO64 && BigNumber(p[16..24]) < TWO64 && BigNumber(p[24..26]) < 0x1_0000
  {
    hide BigNumber, BigEndian;
    PowValues();
    BigEndianOfNumber(p[8..16]);
    BigEndianOfNumber(p[16..24]);
    BigEndianOfNumber(p[24..26]);
  }

  function Fields(p: seq<Byte>): Announcement
    requires Shaped(p)
  {
    NumbersFit(p);
    var split := FIXED_BYTES + Value(p[5]);
    Announcement(
      p[FIXED_BYTES..split], BigNumber(p[8..16]), BigNumber(p[16..24]),
      Endpoint(p[split..], BigNumber(p[24..26])))
  }

  /** What the reader demands of the values; ipv4 says which addresses inet_pton takes. */
  predicate Proper(ipv4: seq<Byte> -> bool, a: Announcement) {
    && 0 < |a.node| <= MAXIMUM_IDENTITY && 0 < |a.endpoint.address| <= MAXIMUM_IDENTITY
    && a.generation != 0 && a.sequence != 0 && ipv4(a.endpoint.address)
  }

  /** ParseAnnouncement. */
  function Parse(ipv4: seq<Byte> -> bool, p: seq<Byte>): Option<Announcement> {
    if !Shaped(p) then None
    else
      var a := Fields(p);
      if a.generation == 0 || a.sequence == 0 || !ipv4(a.endpoint.address) then None else Some(a)
  }

  lemma NumbersSlices(g: nat, s: nat, port: nat)
    ensures var n := Numbers(g, s, port);
            n[..8] == BigEndian(g, 8) && n[8..16] == BigEndian(s, 8) && n[16..18] == BigEndian(port, 2)
  {
    hide BigEndian;
  }

  /** Where everything is in a datagram, byte 7 left open. */
  lemma Slices(lead: seq<Byte>, numbers: seq<Byte>, node: seq<Byte>, address: seq<Byte>)
    requires |lead| == 8 && |numbers| == 18
    ensures var p := lead + numbers + node + address;
            && p[..8] == lead && p[8..26] == numbers
            && p[8..16] == numbers[..8] && p[16..24] == numbers[8..16] && p[24..26] == numbers[16..18]
            && p[26..26 + |node|] == node && p[26 + |node|..] == address
  {
  }

  lemma LeadIs(lead: seq<Byte>, nodeLength: nat, addressLength: nat)
    requires nodeLength < 256 && addressLength < 256
    ensures lead == Lead(nodeLength, addressLength)
       <==> |lead| == 8 && lead[..4] == Magic() && lead[4] == 1 && Value(lead[5]) == nodeLength
            && Value(lead[6]) == addressLength && lead[7] == 0
  {
    hide Magic, Value, ToByte;
    ValueOfToByte(nodeLength);
    ValueOfToByte(addressLength);
    if |lead| == 8 && lead[..4] == Magic() && lead[4] == 1 && Value(lead[5]) == nodeLength
       && Value(lead[6]) == addressLength && lead[7] == 0 {
      ToByteOfValue(lead[5], 0);
      ToByteOfValue(lead[6], 0);
      assert lead == lead[..4] + [lead[4], lead[5], lead[6], lead[7]];
    }
  }

  /** Reading a datagram that the service built gives the announcement back. */
  lemma ParseOfBuild(ipv4: seq<Byte> -> bool, a: Announcement)
    requires Proper(ipv4, a)
    ensures Parse(ipv4, Build(a)) == Some(a)
  {
    hide Lead, Numbers, Value, BigNumber, BigEndian, Magic;
    var p := Build(a);
    var lead := Lead(|a.node|, |a.endpoint.address|);
    LeadIs(lead, |a.node|, |a.endpoint.address|);
    Slices(lead, Numbers(a.generation, a.sequence, a.endpoint.port), a.node, a.endpoint.address);
    NumbersSlices(a.generation, a.sequence, a.endpoint.port);
    assert p[..4] == p[..8][..4] && p[4] == p[..8][4] && p[5] == p[..8][5] && p[6] == p[..8][6];
    PowValues();
    NumberOfBigEndian(a.generation, 8);
    NumberOfBigEndian(a.sequence, 8);
    NumberOfBigEndian(a.endpoint.port, 2);
  }

  /** What the reader accepts, exactly: the datagrams that the service builds, with anything at all in byte 7. */
  lemma ParseAccepts(ipv4: seq<Byte> -> bool, p: seq<Byte>, a: Announcement)
    ensures Parse(ipv4, p) == Some(a) <==> Proper(ipv4, a) && |p| == |Build(a)| && p == Build(a)[7 := p[7]]
  {
    hide Build, Fields;
    if Parse(ipv4, p) == Some(a) {
      BuildOfFields(p);
      ShapedFields(p);
    }
    if Proper(ipv4, a) && |p| == |Build(a)| && p == Build(a)[7 := p[7]] {
      ParseOfBuild(ipv4, a);
      Byte7IsNotRead(ipv4, Build(a), p[7]);
    }
  }

  lemma ShapedFields(p: seq<Byte>)
    requires Shaped(p)
    ensures 0 < |Fields(p).node| <= MAXIMUM_IDENTITY && 0 < |Fields(p).endpoint.address| <= MAXIMUM_IDENTITY
  {
    hide BigNumber, Value, Magic;
  }

  lemma BuildOfFields(p: seq<Byte>)
    requires Shaped(p)
    ensures |Build(Fields(p))| == |p| && p == Build(Fields(p))[7 := p[7]]
  {
    hide Lead, Numbers, Value, BigNumber, BigEndian, Magic, Build;
    var a := Fields(p);
    var q := p[7 := 0];
    assert q[..8][..4] == p[..4];
    LeadIs(q[..8], |a.node|, |a.endpoint.address|);
    NumbersOfFields(p);
    assert q[8..26] == p[8..26];
    assert q == q[..8] + q[8..26] + a.node + a.endpoint.address;
    BuildIs(a);
    assert p == q[7 := p[7]];
  }

  lemma BuildIs(a: Announcement)
    ensures Build(a) == Lead(|a.node|, |a.endpoint.address|) + Numbers(a.generation, a.sequence, a.endpoint.port)
                        + a.node + a.endpoint.address
  {
  }

  lemma NumbersOfFields(p: seq<Byte>)
    requires Shaped(p)
    ensures var a := Fields(p);
            p[8..26] == Numbers(a.generation, a.sequence, a.endpoint.port)
  {
    hide Value, BigNumber, BigEndian, Magic;
    BigEndianOfNumber(p[8..16]);
    BigEndianOfNumber(p[16..24]);
    BigEndianOfNumber(p[24..26]);
    assert p[8..26] == p[8..16] + p[16..24] + p[24..26];
  }

  lemma Byte7IsNotRead(ipv4: seq<Byte> -> bool, p: seq<Byte>, x: Byte)
    requires |p| >= FIXED_BYTES
    ensures Parse(ipv4, p[7 := x]) == Parse(ipv4, p)
  {
    hide BigNumber, Value, Magic;
    var q := p[7 := x];
    assert q[..4] == p[..4] && q[8..16] == p[8..16] && q[16..24] == p[16..24] && q[24..26] == p[24..26];
    assert Shaped(q) <==> Shaped(p);
    if Shaped(p) {
      var split := FIXED_BYTES + Value(p[5]);
      assert q[FIXED_BYTES..split] == p[FIXED_BYTES..split] && q[split..] == p[split..];
    }
  }

  /** The codec is not a bijection on what it accepts: building what was read gives the datagram back if and only if its
      byte 7 is zero. */
  lemma BuildOfParse(ipv4: seq<Byte> -> bool, p: seq<Byte>)
    requires Parse(ipv4, p).Some?
    ensures |p| > 7 && (Build(Parse(ipv4, p).value) == p <==> p[7] == 0)
  {
    hide Build, Parse;
    var a := Parse(ipv4, p).value;
    ParseAccepts(ipv4, p, a);
    Byte7IsZero(a);
  }

  lemma Byte7IsZero(a: Announcement)
    ensures Build(a)[7] == 0
  {
  }

  /** The datagram in absolute offsets: the letters ARD1, version 1, the two lengths, a zero, the generation, the sequence
      and the port big-endian, and the two texts. */
  lemma PacketLayout(a: Announcement)
    requires |a.node| <= MAXIMUM_IDENTITY && |a.endpoint.address| <= MAXIMUM_IDENTITY
    ensures |Build(a)| == 26 + |a.node| + |a.endpoint.address|
    ensures var p := Build(a);
            && p[0] == 0x41 && p[1] == 0x52 && p[2] == 0x44 && p[3] == 0x31 && p[4] == 1 && p[7] == 0
            && Value(p[5]) == |a.node| && Value(p[6]) == |a.endpoint.address|
            && p[8..16] == BigEndian(a.generation, 8) && p[16..24] == BigEndian(a.sequence, 8)
            && p[24..26] == BigEndian(a.endpoint.port, 2)
            && p[26..26 + |a.node|] == a.node && p[26 + |a.node|..] == a.endpoint.address
  {
    hide Numbers, Value, BigEndian, ToByte, BigNumber;
    var lead := Lead(|a.node|, |a.endpoint.address|);
    LeadIs(lead, |a.node|, |a.endpoint.address|);
    Slices(lead, Numbers(a.generation, a.sequence, a.endpoint.port), a.node, a.endpoint.address);
    NumbersSlices(a.generation, a.sequence, a.endpoint.port);
  }

  // ----- the packet in place -----

  method Copy(buffer: array<Byte>, at: nat, source: seq<Byte>)
    requires at + |source| <= buffer.Length
    modifies buffer
    ensures buffer[..] == Splice(old(buffer[..]), at, source)
  {
    hide Splice;
    ghost var was := buffer[..];
    NoSplice(was, at);
    for i := 0 to |source|
      invariant buffer[..] == Splice(was, at, source[..i])
    {
      SpliceMore(was, at, source[..i], source[i]);
      assert source[..i + 1] == source[..i] + [source[i]];
      buffer[at + i] := source[i];
      assert buffer[..] == Splice(was, at, source[..i])[at + i := source[i]];
    }
    assert source[..|source|] == source;
  }

  /** BuildAnnouncement, writing field after field into a zeroed buffer. */
  method BuildAnnouncement(a: Announcement) returns (packet: array<Byte>)
    requires |a.node| <= MAXIMUM_IDENTITY && |a.endpoint.address| <= MAXIMUM_IDENTITY
    ensures fresh(packet) && packet[..] == Build(a)
  {
    hide Splice, Build, BigEndian, ToByte, Magic;
    var n, m := |a.node|, |a.endpoint.address|;
    packet := new Byte[FIXED_BYTES + n + m](_ => 0);
    ghost var s := packet[..];
    Copy(packet, 0, Magic());
    ghost var s0 := packet[..];
    packet[4] := 1;
    packet[5] := ToByte(n);
    packet[6] := ToByte(m);
    ghost var s1 := packet[..];
    assert s1 == s0[4 := 1][5 := ToByte(n)][6 := ToByte(m)];
    Store(packet, 8, a.generation, 8);
    ghost var s2 := packet[..];
    Store(packet, 16, a.sequence, 8);
    ghost var s3 := packet[..];
    Store(packet, 24, a.endpoint.port, 2);
    ghost var s4 := packet[..];
    Copy(packet, FIXED_BYTES, a.node);
    ghost var s5 := packet[..];
    Copy(packet, FIXED_BYTES + n, a.endpoint.address);
    LeadWritten(s, s0, s1, n, m);
    TextsWritten(s4, s5, packet[..], a);
    NumbersWritten(s1, s2, s3, s4, a);
    BuildIs(a);
    ghost var p := packet[..];
    assert p == p[..8] + p[8..26] + p[26..26 + n] + p[26 + n..];
  }

  lemma LeadWritten(s: seq<Byte>, s0: seq<Byte>, s1: seq<Byte>, n: nat, m: nat)
    requires |s| >= 8 && s[7] == 0 && s0 == Splice(s, 0, Magic())
    requires s1 == s0[4 := 1][5 := ToByte(n)][6 := ToByte(m)]
    ensures s1[..8] == Lead(n, m)
  {
    hide ToByte, Magic;
  }

  lemma NumbersWritten(s1: seq<Byte>, s2: seq<Byte>, s3: seq<Byte>, s4: seq<Byte>, a: Announcement)
    requires |s1| >= 26 && s2 == Splice(s1, 8, BigEndian(a.generation, 8))
    requires s3 == Splice(s2, 16, BigEndian(a.sequence, 8)) && s4 == Splice(s3, 24, BigEndian(a.endpoint.port, 2))
    ensures s4[8..26] == Numbers(a.generation, a.sequence, a.endpoint.port) && s4[..8] == s1[..8]
  {
    hide BigEndian, Splice;
    SpliceReads(s1, 8, BigEndian(a.generation, 8), 0, 8);
    SpliceReads(s2, 16, BigEndian(a.sequence, 8), 0, 8);
    SpliceReads(s2, 16, BigEndian(a.sequence, 8), 8, 16);
    SpliceReads(s3, 24, BigEndian(a.endpoint.port, 2), 0, 8);
    SpliceReads(s3, 24, BigEndian(a.endpoint.port, 2), 8, 16);
    SpliceReads(s3, 24, BigEndian(a.endpoint.port, 2), 16, 24);
    assert s4[8..26] == s4[8..16] + s4[16..24] + s4[24..26];
    assert s4[..8] == s4[0..8] && s1[..8] == s1[0..8];
  }

  lemma TextsWritten(s4: seq<Byte>, s5: seq<Byte>, s6: seq<Byte>, a: Announcement)
    requires |s4| == 26 + |a.node| + |a.endpoint.address|
    requires s5 == Splice(s4, 26, a.node) && s6 == Splice(s5, 26 + |a.node|, a.endpoint.address)
    ensures s6[..8] == s4[..8] && s6[8..26] == s4[8..26]
    ensures s6[26..26 + |a.node|] == a.node && s6[26 + |a.node|..] == a.endpoint.address
  {
    hide Splice;
    var n := |a.node|;
    SpliceReads(s4, 26, a.node, 0, 8);
    SpliceReads(s4, 26, a.node, 8, 26);
    SpliceReads(s5, 26 + n, a.endpoint.address, 0, 8);
    SpliceReads(s5, 26 + n, a.endpoint.address, 8, 26);
    SpliceReads(s5, 26 + n, a.endpoint.address, 26, 26 + n);
    assert s6[..8] == s6[0..8] && s4[..8] == s4[0..8];
    assert s6[26 + n..] == s6[26 + n..26 + n + |a.endpoint.address|];
  }
}
