/**
  Port switching (main.c, with the port map of mac80211.c): an access point takes over hardware port 0
  from the interface that has it, by swapping the two ports' registers and then the interfaces' ports.

  Byte registers are one sequence. The 32-bit registers 0x0100 and 0x1100 are words of their own: no byte
  register of the map meets them, so their places in the sequence stay unused.
 */
module PortSwitch {
  import opened RegMask

  const PORT_NUM := 5
  const BYTES := 0x2000
  const ETH_ALEN := 6

  type byte = x: int | 0 <= x < 0x100

  /** A masked field of a 32-bit register. */
  datatype Field = Field(addr: nat, mask: nat)

  predicate FieldOk(f: Field) { (f.addr == 0x0100 || f.addr == 0x1100) && f.mask > 0 && TwoBits(f.mask, Ffs(f.mask)) }

  /** The field's lower bit; the other one is next to it. */
  function Lo(f: Field): (lo: nat)
    requires FieldOk(f)
    ensures lo + 1 < WIDTH
  {
    Ffs(f.mask)
  }

  /** Two fields have no bit in common. */
  predicate Apart(f: Field, g: Field)
    requires FieldOk(f) && FieldOk(g)
  {
    f.addr == g.addr ==> Lo(f) + 1 < Lo(g) || Lo(g) + 1 < Lo(f)
  }

  datatype VifPort = VifPort(macAddr: nat, bssid: nat, netType: Field, bcnCtrl: nat)

  /** rtw_vif_port. */
  function PortMap(p: nat): (c: VifPort)
    requires p < PORT_NUM
    ensures PortOk(c) && Compact(c)
    ensures Lo(c.netType) == if p == 0 then 16 else if p == 1 then 18 else 2 * (p - 2)
  {
    MapMasks();
    if p == 0 then VifPort(0x0610, 0x0618, Field(0x0100, 0x30000), 0x0550)
    else if p == 1 then VifPort(0x0700, 0x0708, Field(0x0100, 0xc0000), 0x0551)
    else if p == 2 then VifPort(0x1620, 0x1628, Field(0x1100, 0x3), 0x0578)
    else if p == 3 then VifPort(0x1630, 0x1638, Field(0x1100, 0xc), 0x0579)
    else VifPort(0x1640, 0x1648, Field(0x1100, 0x30), 0x057a)
  }

  /** The five masks of the map are two neighbouring bits each. */
  lemma MapMasks()
    ensures TwoBits(0x30000, 16) && TwoBits(0xc0000, 18)
    ensures TwoBits(0x3, 0) && TwoBits(0xc, 2) && TwoBits(0x30, 4)
  {
    assert 3 * Pow2(16) == 0x30000 && 3 * Pow2(18) == 0xc0000;
    assert 3 * Pow2(0) == 0x3 && 3 * Pow2(2) == 0xc && 3 * Pow2(4) == 0x30;
    ThreeIsTwoBits(16);
    ThreeIsTwoBits(18);
    ThreeIsTwoBits(0);
    ThreeIsTwoBits(2);
    ThreeIsTwoBits(4);
  }

  datatype Regs = Regs(bytes: seq<byte>, r0100: word, r1100: word)

  predicate RegsOk(r: Regs) { |r.bytes| == BYTES }

  function Word(r: Regs, addr: nat): word { if addr == 0x0100 then r.r0100 else r.r1100 }

  /** rtw_read32_mask. */
  function ReadMask(r: Regs, f: Field): word
    requires FieldOk(f)
  {
    Get(Word(r, f.addr), f.mask)
  }

  /** rtw_write32_mask. */
  function WriteMask(r: Regs, f: Field, v: word): (n: Regs)
    requires FieldOk(f)
    ensures n.bytes == r.bytes
  {
    if f.addr == 0x0100 then r.(r0100 := Set(r.r0100, f.mask, v)) else r.(r1100 := Set(r.r1100, f.mask, v))
  }

  /** Bit i of a register belongs to a field. */
  predicate InField(f: Field, addr: nat, i: nat)
    requires FieldOk(f)
  {
    f.addr == addr && (i == Lo(f) || i == Lo(f) + 1)
  }

  lemma WrittenBit(r: Regs, f: Field, v: word, addr: nat, i: nat)
    requires FieldOk(f) && (addr == 0x0100 || addr == 0x1100) && i < WIDTH
    ensures Word(WriteMask(r, f, v), addr)[i] == if InField(f, addr, i) then v[i - Lo(f)] else Word(r, addr)[i]
  {
    SetBits(Word(r, f.addr), f.mask, Lo(f), v);
  }

  lemma ReadBits(r: Regs, f: Field)
    requires FieldOk(f)
    ensures ReadMask(r, f)[0] == Word(r, f.addr)[Lo(f)] && ReadMask(r, f)[1] == Word(r, f.addr)[Lo(f) + 1]
  {
    GetBits(Word(r, f.addr), f.mask, Lo(f));
  }

  /** What is read from a field depends on its two bits only. */
  lemma SameRead(r: Regs, f: Field, n: Regs, g: Field)
    requires FieldOk(f) && FieldOk(g)
    requires Word(r, f.addr)[Lo(f)] == Word(n, g.addr)[Lo(g)] && Word(r, f.addr)[Lo(f) + 1] == Word(n, g.addr)[Lo(g) + 1]
    ensures ReadMask(r, f) == ReadMask(n, g)
  {
    GetBits(Word(r, f.addr), f.mask, Lo(f));
    GetBits(Word(n, g.addr), g.mask, Lo(g));
  }

  // ---------------------------------------------------------------- what a swap has to achieve

  /** Byte i exchanged between the ranges of n bytes at a1 and a2. */
  function Exchanged(b: seq<byte>, a1: nat, a2: nat, n: nat, i: nat): byte
    requires a1 + n <= |b| && a2 + n <= |b| && i < |b|
  {
    if a1 <= i < a1 + n then b[a2 + (i - a1)] else if a2 <= i < a2 + n then b[a1 + (i - a2)] else b[i]
  }

  function SwapBytes(b: seq<byte>, a1: nat, a2: nat, n: nat): (r: seq<byte>)
    requires a1 + n <= |b| && a2 + n <= |b|
    ensures |r| == |b|
  {
    seq(|b|, i requires 0 <= i < |b| => Exchanged(b, a1, a2, n, i))
  }

  predicate EqualOrApart(a1: nat, a2: nat, n: nat) { a1 == a2 || a1 + n <= a2 || a2 + n <= a1 }

  /** rtw_swap_reg_mask: both fields are read before either is written. */
  function SwapMask(r: Regs, f1: Field, f2: Field): (n: Regs)
    requires FieldOk(f1) && FieldOk(f2)
    ensures n.bytes == r.bytes
  {
    WriteMask(WriteMask(r, f2, ReadMask(r, f1)), f1, ReadMask(r, f2))
  }

  /** Bit i of a register after the bits of two fields are exchanged. */
  function ExchangedBit(r: Regs, f1: Field, f2: Field, addr: nat, i: nat): bool
    requires FieldOk(f1) && FieldOk(f2) && i < WIDTH
  {
    if InField(f1, addr, i) then Word(r, f2.addr)[Lo(f2) + (i - Lo(f1))]
    else if InField(f2, addr, i) then Word(r, f1.addr)[Lo(f1) + (i - Lo(f2))]
    else Word(r, addr)[i]
  }

  /** The bits of the two fields are exchanged, also within one register, and no other bit changes. */
  lemma SwappedBit(r: Regs, f1: Field, f2: Field, addr: nat, i: nat)
    requires FieldOk(f1) && FieldOk(f2) && (f1 == f2 || Apart(f1, f2)) && (addr == 0x0100 || addr == 0x1100) && i < WIDTH
    ensures Word(SwapMask(r, f1, f2), addr)[i] == ExchangedBit(r, f1, f2, addr, i)
  {
    var r1 := WriteMask(r, f2, ReadMask(r, f1));
    ReadBits(r, f1);
    ReadBits(r, f2);
    WrittenBit(r, f2, ReadMask(r, f1), addr, i);
    WrittenBit(r1, f1, ReadMask(r, f2), addr, i);
    TwoWrites(r, Word(r1, addr)[i], Word(SwapMask(r, f1, f2), addr)[i], ReadMask(r, f1), ReadMask(r, f2), f1, f2, addr, i);
  }

  lemma TwoWrites(r: Regs, between: bool, after: bool, v1: word, v2: word, f1: Field, f2: Field, addr: nat, i: nat)
    requires FieldOk(f1) && FieldOk(f2) && (f1 == f2 || Apart(f1, f2)) && i < WIDTH
    requires v1[0] == Word(r, f1.addr)[Lo(f1)] && v1[1] == Word(r, f1.addr)[Lo(f1) + 1]
    requires v2[0] == Word(r, f2.addr)[Lo(f2)] && v2[1] == Word(r, f2.addr)[Lo(f2) + 1]
    requires between == if InField(f2, addr, i) then v1[i - Lo(f2)] else Word(r, addr)[i]
    requires after == if InField(f1, addr, i) then v2[i - Lo(f1)] else between
    ensures after == ExchangedBit(r, f1, f2, addr, i)
  {
  }

  predicate PortOk(c: VifPort)
  {
    c.macAddr + ETH_ALEN <= BYTES && c.bssid + ETH_ALEN <= BYTES && c.bcnCtrl < BYTES && FieldOk(c.netType)
  }

  /** Byte i belongs to the MAC address, BSSID or beacon control of a port. */
  predicate OwnByte(c: VifPort, i: nat)
  {
    c.macAddr <= i < c.macAddr + ETH_ALEN || c.bssid <= i < c.bssid + ETH_ALEN || i == c.bcnCtrl
  }

  /** A range of n bytes at `a` holds none of the port's bytes. */
  predicate Clear(c: VifPort, a: nat, n: nat)
  {
    (a + n <= c.macAddr || c.macAddr + ETH_ALEN <= a) && (a + n <= c.bssid || c.bssid + ETH_ALEN <= a)
    && !(a <= c.bcnCtrl < a + n)
  }

  /** The registers of one port do not overlap each other. */
  predicate Compact(c: VifPort)
  {
    (c.macAddr + ETH_ALEN <= c.bssid || c.bssid + ETH_ALEN <= c.macAddr)
    && !(c.macAddr <= c.bcnCtrl < c.macAddr + ETH_ALEN) && !(c.bssid <= c.bcnCtrl < c.bssid + ETH_ALEN)
  }

  predicate Separate(c: VifPort, d: VifPort)
  {
    && PortOk(c) && PortOk(d) && Compact(c) && Compact(d) && Apart(c.netType, d.netType)
    && BytesApart(c, d)
  }

  predicate BytesApart(c: VifPort, d: VifPort)
  {
    Clear(c, d.macAddr, ETH_ALEN) && Clear(c, d.bssid, ETH_ALEN) && Clear(c, d.bcnCtrl, 1)
  }

  /** The driver's port map: five ports whose registers are all separate. */
  lemma MapIsSeparate(p: nat, q: nat)
    requires p < PORT_NUM && q < PORT_NUM
    ensures p != q ==> Separate(PortMap(p), PortMap(q))
  {
    if p != q {
      assert BytesApart(PortMap(p), PortMap(q)) by { MapBytesApart(p, q); }
      assert Apart(PortMap(p).netType, PortMap(q).netType) by { MapFieldsApart(p, q); }
    }
  }

  lemma MapBytesApart(p: nat, q: nat)
    requires p < PORT_NUM && q < PORT_NUM && p != q
    ensures BytesApart(PortMap(p), PortMap(q))
  {
  }

  lemma MapFieldsApart(p: nat, q: nat)
    requires p < PORT_NUM && q < PORT_NUM && p != q
    ensures Apart(PortMap(p).netType, PortMap(q).netType)
  {
  }

  /** The byte registers of a port. */
  datatype Part = Mac | Bssid | BcnCtrl

  function At(c: VifPort, p: Part): nat
  {
    match p
    case Mac => c.macAddr
    case Bssid => c.bssid
    case BcnCtrl => c.bcnCtrl
  }

  function Size(p: Part): nat { if p == BcnCtrl then 1 else ETH_ALEN }

  function SwapPart(b: seq<byte>, c: VifPort, d: VifPort, p: Part): (n: seq<byte>)
    requires |b| == BYTES && PortOk(c) && PortOk(d)
    ensures |n| == BYTES
  {
    SwapBytes(b, At(c, p), At(d, p), Size(p))
  }

  function SwapThree(b: seq<byte>, c: VifPort, d: VifPort): (n: seq<byte>)
    requires |b| == BYTES && PortOk(c) && PortOk(d)
    ensures |n| == BYTES
  {
    SwapPart(SwapPart(SwapPart(b, c, d, Mac), c, d, Bssid), c, d, BcnCtrl)
  }

  /** All registers of two ports exchanged, except the AID, which the driver leaves alone. */
  function SwapPorts(r: Regs, c: VifPort, d: VifPort): (n: Regs)
    requires RegsOk(r) && PortOk(c) && PortOk(d)
    ensures RegsOk(n)
  {
    SwapMask(r, c.netType, d.netType).(bytes := SwapThree(r.bytes, c, d))
  }

  /** What an interface sees through a port's registers. */
  datatype View = View(netType: word, mac: seq<byte>, bssid: seq<byte>, bcnCtrl: seq<byte>)

  function Look(r: Regs, c: VifPort): View
    requires RegsOk(r) && PortOk(c)
  {
    View(ReadMask(r, c.netType), Bytes(r.bytes, c, Mac), Bytes(r.bytes, c, Bssid), Bytes(r.bytes, c, BcnCtrl))
  }

  /** Which registers an interface sees through its port, in numbers: MAC address, BSSID, beacon control. */
  lemma LookByNumber(r: Regs)
    requires RegsOk(r)
    ensures var v := Look(r, PortMap(0));
            v.mac == r.bytes[0x0610..0x0616] && v.bssid == r.bytes[0x0618..0x061e] && v.bcnCtrl == [r.bytes[0x0550]]
    ensures var v := Look(r, PortMap(1));
            v.mac == r.bytes[0x0700..0x0706] && v.bssid == r.bytes[0x0708..0x070e] && v.bcnCtrl == [r.bytes[0x0551]]
    ensures var v := Look(r, PortMap(2));
            v.mac == r.bytes[0x1620..0x1626] && v.bssid == r.bytes[0x1628..0x162e] && v.bcnCtrl == [r.bytes[0x0578]]
    ensures var v := Look(r, PortMap(3));
            v.mac == r.bytes[0x1630..0x1636] && v.bssid == r.bytes[0x1638..0x163e] && v.bcnCtrl == [r.bytes[0x0579]]
    ensures var v := Look(r, PortMap(4));
            v.mac == r.bytes[0x1640..0x1646] && v.bssid == r.bytes[0x1648..0x164e] && v.bcnCtrl == [r.bytes[0x057a]]
  {
  }

  /** And which two bits of which register are its net type. */
  lemma NetTypeByNumber(r: Regs, p: nat)
    requires p < PORT_NUM
    ensures var t := ReadMask(r, PortMap(p).netType);
            && (p == 0 ==> t[0] == r.r0100[16] && t[1] == r.r0100[17])
            && (p == 1 ==> t[0] == r.r0100[18] && t[1] == r.r0100[19])
            && (p == 2 ==> t[0] == r.r1100[0] && t[1] == r.r1100[1])
            && (p == 3 ==> t[0] == r.r1100[2] && t[1] == r.r1100[3])
            && (p == 4 ==> t[0] == r.r1100[4] && t[1] == r.r1100[5])
  {
    ReadBits(r, PortMap(p).netType);
  }

  /** What swapping part q does to the bytes of part p. */
  lemma PartSwapped(b: seq<byte>, c: VifPort, d: VifPort, q: Part, p: Part, k: nat)
    requires |b| == BYTES && Separate(c, d) && k < Size(p)
    ensures var n := SwapPart(b, c, d, q);
            && n[At(c, p) + k] == (if p == q then b[At(d, p) + k] else b[At(c, p) + k])
            && n[At(d, p) + k] == (if p == q then b[At(c, p) + k] else b[At(d, p) + k])
  {
  }

  lemma Swapped(b: seq<byte>, c: VifPort, d: VifPort, p: Part, k: nat)
    requires |b| == BYTES && Separate(c, d) && k < Size(p)
    ensures SwapThree(b, c, d)[At(c, p) + k] == b[At(d, p) + k]
    ensures SwapThree(b, c, d)[At(d, p) + k] == b[At(c, p) + k]
  {
    var b1 := SwapPart(b, c, d, Mac);
    PartSwapped(b, c, d, Mac, p, k);
    PartSwapped(b1, c, d, Bssid, p, k);
    PartSwapped(SwapPart(b1, c, d, Bssid), c, d, BcnCtrl, p, k);
  }

  lemma PartClear(b: seq<byte>, c: VifPort, d: VifPort, q: Part, i: nat)
    requires |b| == BYTES && PortOk(c) && PortOk(d) && i < BYTES && !OwnByte(c, i) && !OwnByte(d, i)
    ensures SwapPart(b, c, d, q)[i] == b[i]
  {
  }

  lemma UnswappedByte(b: seq<byte>, c: VifPort, d: VifPort, i: nat)
    requires |b| == BYTES && PortOk(c) && PortOk(d) && i < BYTES && !OwnByte(c, i) && !OwnByte(d, i)
    ensures SwapThree(b, c, d)[i] == b[i]
  {
    var b1 := SwapPart(b, c, d, Mac);
    PartClear(b, c, d, Mac, i);
    PartClear(b1, c, d, Bssid, i);
    PartClear(SwapPart(b1, c, d, Bssid), c, d, BcnCtrl, i);
  }

  /** What is read from the net-type fields is exchanged; fields apart from both read as before. */
  lemma SwappedField(r: Regs, c: VifPort, d: VifPort)
    requires RegsOk(r) && Separate(c, d)
    ensures ReadMask(SwapPorts(r, c, d), c.netType) == ReadMask(r, d.netType)
    ensures ReadMask(SwapPorts(r, c, d), d.netType) == ReadMask(r, c.netType)
  {
    var (f, g, n) := (c.netType, d.netType, SwapPorts(r, c, d));
    SwappedBits(r, c, d, f.addr, Lo(f));
    SwappedBits(r, c, d, f.addr, Lo(f) + 1);
    SwappedBits(r, c, d, g.addr, Lo(g));
    SwappedBits(r, c, d, g.addr, Lo(g) + 1);
    SameRead(n, f, r, g);
    SameRead(n, g, r, f);
  }

  lemma UnswappedField(r: Regs, c: VifPort, d: VifPort, f: Field)
    requires RegsOk(r) && Separate(c, d) && FieldOk(f) && Apart(f, c.netType) && Apart(f, d.netType)
    ensures ReadMask(SwapPorts(r, c, d), f) == ReadMask(r, f)
  {
    SwappedBits(r, c, d, f.addr, Lo(f));
    SwappedBits(r, c, d, f.addr, Lo(f) + 1);
    SameRead(SwapPorts(r, c, d), f, r, f);
  }

  /** Every bit of the two 32-bit registers: exchanged in the two fields, unchanged elsewhere. */
  lemma SwappedBits(r: Regs, c: VifPort, d: VifPort, addr: nat, i: nat)
    requires RegsOk(r) && Separate(c, d) && (addr == 0x0100 || addr == 0x1100) && i < WIDTH
    ensures Word(SwapPorts(r, c, d), addr)[i] == ExchangedBit(r, c.netType, d.netType, addr, i)
  {
    SwappedBit(r, c.netType, d.netType, addr, i);
  }

  /** Byte registers of the map do not meet the words. */
  lemma BytesMissWords(p: nat, q: Part)
    requires p < PORT_NUM
    ensures var (at, end) := (At(PortMap(p), q), At(PortMap(p), q) + Size(q));
            && (end <= 0x0100 || 0x0104 <= at) && (end <= 0x1100 || 0x1104 <= at)
  {
  }

  /** The bytes of a part. */
  function Bytes(b: seq<byte>, c: VifPort, p: Part): seq<byte>
    requires |b| == BYTES && PortOk(c)
  {
    b[At(c, p)..At(c, p) + Size(p)]
  }

  lemma PartFollows(b: seq<byte>, c: VifPort, d: VifPort, p: Part)
    requires |b| == BYTES && Separate(c, d)
    ensures Bytes(SwapThree(b, c, d), d, p) == Bytes(b, c, p)
    ensures Bytes(SwapThree(b, c, d), c, p) == Bytes(b, d, p)
  {
    PartGoes(b, c, d, p);
    PartComes(b, c, d, p);
    PartMoves(SwapThree(b, c, d), b, c, d, p);
  }

  lemma PartMoves(n: seq<byte>, b: seq<byte>, c: VifPort, d: VifPort, p: Part)
    requires |n| == |b| == BYTES && PortOk(c) && PortOk(d)
    requires forall i | At(d, p) <= i < At(d, p) + Size(p) :: n[i] == b[At(c, p) + (i - At(d, p))]
    requires forall i | At(c, p) <= i < At(c, p) + Size(p) :: n[i] == b[At(d, p) + (i - At(c, p))]
    ensures Bytes(n, d, p) == Bytes(b, c, p) && Bytes(n, c, p) == Bytes(b, d, p)
  {
    SameBytes(n, b, At(d, p), At(c, p), Size(p));
    SameBytes(n, b, At(c, p), At(d, p), Size(p));
  }

  lemma PartGoes(b: seq<byte>, c: VifPort, d: VifPort, p: Part)
    requires |b| == BYTES && Separate(c, d)
    ensures forall i | At(d, p) <= i < At(d, p) + Size(p) :: SwapThree(b, c, d)[i] == b[At(c, p) + (i - At(d, p))]
  {
    forall i | At(d, p) <= i < At(d, p) + Size(p) ensures SwapThree(b, c, d)[i] == b[At(c, p) + (i - At(d, p))] {
      Swapped(b, c, d, p, i - At(d, p));
    }
  }

  lemma PartComes(b: seq<byte>, c: VifPort, d: VifPort, p: Part)
    requires |b| == BYTES && Separate(c, d)
    ensures forall i | At(c, p) <= i < At(c, p) + Size(p) :: SwapThree(b, c, d)[i] == b[At(d, p) + (i - At(c, p))]
  {
    forall i | At(c, p) <= i < At(c, p) + Size(p) ensures SwapThree(b, c, d)[i] == b[At(d, p) + (i - At(c, p))] {
      Swapped(b, c, d, p, i - At(c, p));
    }
  }

  lemma SameBytes(n: seq<byte>, b: seq<byte>, to: nat, from: nat, size: nat)
    requires to + size <= |n| && from + size <= |b|
    requires forall i | to <= i < to + size :: n[i] == b[from + (i - to)]
    ensures n[to..to + size] == b[from..from + size]
  {
  }

  /** After the swap an interface sees through the other port what it saw through its own before. */
  lemma ViewsFollow(r: Regs, c: VifPort, d: VifPort)
    requires RegsOk(r) && Separate(c, d)
    ensures Look(SwapPorts(r, c, d), d) == Look(r, c) && Look(SwapPorts(r, c, d), c) == Look(r, d)
  {
    PartFollows(r.bytes, c, d, Mac);
    PartFollows(r.bytes, c, d, Bssid);
    PartFollows(r.bytes, c, d, BcnCtrl);
    SwappedField(r, c, d);
  }

  /** A third port's view is untouched. */
  lemma ThirdViewUntouched(r: Regs, c: VifPort, d: VifPort, t: VifPort)
    requires RegsOk(r) && Separate(c, d) && Separate(t, c) && Separate(t, d)
    ensures Look(SwapPorts(r, c, d), t) == Look(r, t)
  {
    UnswappedField(r, c, d, t.netType);
    PartStays(r.bytes, c, d, t, Mac);
    PartStays(r.bytes, c, d, t, Bssid);
    PartStays(r.bytes, c, d, t, BcnCtrl);
  }

  lemma PartStays(b: seq<byte>, c: VifPort, d: VifPort, t: VifPort, p: Part)
    requires |b| == BYTES && PortOk(c) && PortOk(d) && Separate(t, c) && Separate(t, d)
    ensures Bytes(SwapThree(b, c, d), t, p) == Bytes(b, t, p)
  {
    var n := SwapThree(b, c, d);
    forall i | At(t, p) <= i < At(t, p) + Size(p) ensures n[i] == b[At(t, p) + (i - At(t, p))] {
      UnswappedByte(b, c, d, i);
    }
    SameBytes(n, b, At(t, p), At(t, p), Size(p));
  }

  /** The part that a byte of a port belongs to. */
  function PartAt(c: VifPort, i: nat): (p: Part)
    requires OwnByte(c, i)
    ensures At(c, p) <= i < At(c, p) + Size(p)
  {
    if c.macAddr <= i < c.macAddr + ETH_ALEN then Mac else if c.bssid <= i < c.bssid + ETH_ALEN then Bssid else BcnCtrl
  }

  lemma ByteTwice(b: seq<byte>, c: VifPort, d: VifPort, i: nat)
    requires |b| == BYTES && Separate(c, d) && i < BYTES
    ensures SwapThree(SwapThree(b, c, d), c, d)[i] == b[i]
  {
    if OwnByte(c, i) {
      PartTwice(b, c, d, PartAt(c, i), i - At(c, PartAt(c, i)));
    } else if OwnByte(d, i) {
      PartTwice(b, c, d, PartAt(d, i), i - At(d, PartAt(d, i)));
    } else {
      UnswappedByte(b, c, d, i);
      UnswappedByte(SwapThree(b, c, d), c, d, i);
    }
  }

  lemma PartTwice(b: seq<byte>, c: VifPort, d: VifPort, p: Part, k: nat)
    requires |b| == BYTES && Separate(c, d) && k < Size(p)
    ensures SwapThree(SwapThree(b, c, d), c, d)[At(c, p) + k] == b[At(c, p) + k]
    ensures SwapThree(SwapThree(b, c, d), c, d)[At(d, p) + k] == b[At(d, p) + k]
  {
    Swapped(b, c, d, p, k);
    Swapped(SwapThree(b, c, d), c, d, p, k);
  }

  /** Swapping twice is swapping not at all. */
  lemma SwapIsInvolution(r: Regs, c: VifPort, d: VifPort)
    requires RegsOk(r) && Separate(c, d)
    ensures SwapPorts(SwapPorts(r, c, d), c, d) == r
  {
    var n := SwapPorts(r, c, d);
    var m := SwapPorts(n, c, d);
    forall i | 0 <= i < BYTES ensures m.bytes[i] == r.bytes[i] {
      ByteTwice(r.bytes, c, d, i);
    }
    forall i | 0 <= i < WIDTH ensures m.r0100[i] == r.r0100[i] && m.r1100[i] == r.r1100[i] {
      BitTwice(r, c, d, 0x0100, i);
      BitTwice(r, c, d, 0x1100, i);
    }
    assert m.bytes == r.bytes && m.r0100 == r.r0100 && m.r1100 == r.r1100;
  }

  /** Where bit i goes in an exchange of two fields. */
  function Goes(f: Field, g: Field, addr: nat, i: nat): (nat, nat)
    requires FieldOk(f) && FieldOk(g)
  {
    if InField(f, addr, i) then (g.addr, Lo(g) + (i - Lo(f)))
    else if InField(g, addr, i) then (f.addr, Lo(f) + (i - Lo(g)))
    else (addr, i)
  }

  lemma GoesAndComes(r: Regs, n: Regs, f: Field, g: Field, addr: nat, i: nat)
    requires FieldOk(f) && FieldOk(g) && Apart(f, g) && (addr == 0x0100 || addr == 0x1100) && i < WIDTH
    requires var (a, j) := Goes(f, g, addr, i);
             j < WIDTH && Word(n, a)[j] == ExchangedBit(r, f, g, a, j)
    ensures ExchangedBit(n, f, g, addr, i) == Word(r, addr)[i]
  {
  }

  lemma BitTwice(r: Regs, c: VifPort, d: VifPort, addr: nat, i: nat)
    requires RegsOk(r) && Separate(c, d) && (addr == 0x0100 || addr == 0x1100) && i < WIDTH
    ensures Word(SwapPorts(SwapPorts(r, c, d), c, d), addr)[i] == Word(r, addr)[i]
  {
    var (a, j) := Goes(c.netType, d.netType, addr, i);
    SwappedBits(SwapPorts(r, c, d), c, d, addr, i);
    SwappedBits(r, c, d, a, j);
    GoesAndComes(r, SwapPorts(r, c, d), c.netType, d.netType, addr, i);
  }

  lemma SelfSwapIsNothing(r: Regs, c: VifPort)
    requires RegsOk(r) && PortOk(c)
    ensures SwapPorts(r, c, c) == r
  {
    var n := SwapPorts(r, c, c);
    var b1 := SwapBytes(r.bytes, c.macAddr, c.macAddr, ETH_ALEN);
    assert b1 == r.bytes && SwapBytes(b1, c.bssid, c.bssid, ETH_ALEN) == r.bytes;
    forall i | 0 <= i < WIDTH ensures n.r0100[i] == r.r0100[i] && n.r1100[i] == r.r1100[i] {
      SwappedBit(r, c.netType, c.netType, 0x0100, i);
      SwappedBit(r, c.netType, c.netType, 0x1100, i);
    }
    assert n.bytes == r.bytes && n.r0100 == r.r0100 && n.r1100 == r.r1100;
  }

  // ---------------------------------------------------------------- the driver code

  /** An interface: its port, the port whose registers `conf` names, and its net type and MAC id. */
  datatype Vif = Vif(port: nat, conf: nat, linked: bool, macId: nat)

  /** The H2C that names the default port. */
  datatype DefaultPort = DefaultPort(port: nat, macId: nat)

  predicate VifsOk(vifs: map<nat, Vif>)
  {
    && (forall v | v in vifs :: vifs[v].port < PORT_NUM && vifs[v].conf == vifs[v].port)
    && (forall v, w | v in vifs && w in vifs && v != w :: vifs[v].port != vifs[w].port)
  }

  /** The interfaces after ap and t have exchanged ports. */
  function Exchange(vifs: map<nat, Vif>, ap: nat, t: nat): map<nat, Vif>
    requires ap in vifs && t in vifs
  {
    vifs[ap := vifs[ap].(port := vifs[t].port, conf := vifs[t].conf)]
        [t := vifs[t].(port := vifs[ap].port, conf := vifs[ap].conf)]
  }

  /** Which interface of a list has port 0, other than ap. */
  predicate Displaced(vifs: map<nat, Vif>, order: seq<nat>, ap: nat, t: nat)
  {
    t in order && t != ap && t in vifs && vifs[t].port == 0
  }

  class Device {
    var regs: Regs
    var vifs: map<nat, Vif>
    var sent: seq<DefaultPort>

    constructor (regs: Regs, vifs: map<nat, Vif>)
      ensures this.regs == regs && this.vifs == vifs && sent == []
    {
      this.regs, this.vifs, sent := regs, vifs, [];
    }

    /** rtw_swap_reg_nbytes. */
    method SwapRegBytes(a1: nat, a2: nat, n: nat)
      requires RegsOk(regs) && a1 + n <= BYTES && a2 + n <= BYTES && EqualOrApart(a1, a2, n)
      modifies this`regs
      ensures regs == old(regs).(bytes := SwapBytes(old(regs.bytes), a1, a2, n))
    {
      ghost var b := regs.bytes;
      for i := 0 to n
        invariant RegsOk(regs) && regs == old(regs).(bytes := regs.bytes)
        invariant regs.bytes == SwapBytes(b, a1, a2, i)
      {
        var v1 := regs.bytes[a1 + i];
        var v2 := regs.bytes[a2 + i];
        regs := regs.(bytes := regs.bytes[a1 + i := v2]);
        regs := regs.(bytes := regs.bytes[a2 + i := v1]);
      }
    }

    /** rtw_swap_reg_mask: both fields are read before either is written. */
    method SwapRegMask(f1: Field, f2: Field)
      requires RegsOk(regs) && FieldOk(f1) && FieldOk(f2)
      modifies this`regs
      ensures regs == SwapMask(old(regs), f1, f2)
    {
      var v1 := ReadMask(regs, f1);
      var v2 := ReadMask(regs, f2);
      regs := WriteMask(regs, f2, v1);
      regs := WriteMask(regs, f1, v2);
    }

    /** rtw_port_switch_iter. */
    method PortSwitchIter(ap: nat, t: nat)
      requires RegsOk(regs) && VifsOk(vifs) && ap in vifs && t in vifs
      modifies this
      ensures RegsOk(regs)
      ensures old(vifs)[t].port != 0 ==> regs == old(regs) && vifs == old(vifs) && sent == old(sent)
      ensures old(vifs)[t].port == 0 ==>
                && vifs == Exchange(old(vifs), ap, t)
                && regs == SwapPorts(old(regs), PortMap(old(vifs)[ap].port), PortMap(0))
                && sent == old(sent) + if vifs[t].linked then [DefaultPort(vifs[t].port, vifs[t].macId)] else []
    {
      if vifs[t].port != 0 {
        return;
      }
      var c, d := PortMap(vifs[ap].conf), PortMap(vifs[t].conf);
      MapIsSeparate(vifs[ap].port, vifs[t].port);
      SwapRegMask(c.netType, d.netType);
      SwapRegBytes(c.macAddr, d.macAddr, ETH_ALEN);
      SwapRegBytes(c.bssid, d.bssid, ETH_ALEN);
      SwapRegBytes(c.bcnCtrl, d.bcnCtrl, 1);
      vifs := Exchange(vifs, ap, t);
      if vifs[t].linked {
        sent := sent + [DefaultPort(vifs[t].port, vifs[t].macId)];
      }
    }

    /**
      rtw_core_port_switch for an access point not on port 0. If another listed interface has port 0, the
      two exchange ports and registers, once, whatever the order; a later visit to the access point
      itself, then on port 0, changes nothing. If none has, nothing happens.
     */
    method CorePortSwitch(ap: nat, order: seq<nat>)
      requires RegsOk(regs) && VifsOk(vifs) && ap in vifs && !vifs[ap].linked && vifs[ap].port != 0
      requires forall i | 0 <= i < |order| :: order[i] in vifs
      modifies this
      ensures RegsOk(regs) && VifsOk(vifs)
      ensures (forall t :: !Displaced(old(vifs), order, ap, t)) ==>
                regs == old(regs) && vifs == old(vifs) && sent == old(sent)
      ensures forall t :: Displaced(old(vifs), order, ap, t) ==>
                && vifs == Exchange(old(vifs), ap, t) && vifs[ap].port == 0
                && regs == SwapPorts(old(regs), PortMap(old(vifs)[ap].port), PortMap(0))
                && sent == old(sent) + if vifs[t].linked then [DefaultPort(vifs[t].port, vifs[t].macId)] else []
    {
      ghost var regs0, vifs0, sent0 := regs, vifs, sent;
      var i := 0;
      while i < |order| && vifs[order[i]].port != 0
        invariant 0 <= i <= |order| && regs == regs0 && vifs == vifs0 && sent == sent0
        invariant forall k | 0 <= k < i :: vifs0[order[k]].port != 0
      {
        PortSwitchIter(ap, order[i]);
        i := i + 1;
      }
      if i == |order| {
        return;
      }
      var t := order[i];
      assert Displaced(vifs0, order, ap, t);
      PortSwitchIter(ap, t);
      assert VifsOk(vifs);
      LaterVisits(ap, order[i + 1..]);
    }

    /** The rest of the iteration, once the access point has port 0. */
    method LaterVisits(ap: nat, order: seq<nat>)
      requires RegsOk(regs) && VifsOk(vifs) && ap in vifs && !vifs[ap].linked && vifs[ap].port == 0
      requires forall i | 0 <= i < |order| :: order[i] in vifs
      modifies this
      ensures regs == old(regs) && vifs == old(vifs) && sent == old(sent)
    {
      SelfSwapIsNothing(regs, PortMap(0));
      assert Exchange(vifs, ap, ap) == vifs;
      for i := 0 to |order|
        invariant regs == old(regs) && vifs == old(vifs) && sent == old(sent)
      {
        PortSwitchIter(ap, order[i]);
      }
    }
  }

  lemma ExchangeKeepsVifsOk(vifs: map<nat, Vif>, ap: nat, t: nat)
    requires VifsOk(vifs) && ap in vifs && t in vifs && ap != t
    ensures VifsOk(Exchange(vifs, ap, t))
  {
  }

  /** Every interface, through its (new) port, sees what it saw before the switch; ports stay distinct. */
  lemma InterfacesSeeTheSame(r: Regs, vifs: map<nat, Vif>, ap: nat, t: nat, v: nat)
    requires RegsOk(r) && VifsOk(vifs) && ap in vifs && t in vifs && ap != t && v in vifs
    ensures VifsOk(Exchange(vifs, ap, t))
    ensures var n := SwapPorts(r, PortMap(vifs[ap].port), PortMap(vifs[t].port));
            Look(n, PortMap(Exchange(vifs, ap, t)[v].port)) == Look(r, PortMap(vifs[v].port))
  {
    ExchangeKeepsVifsOk(vifs, ap, t);
    SeesTheSame(r, vifs, ap, t, v);
  }

  lemma SeesTheSame(r: Regs, vifs: map<nat, Vif>, ap: nat, t: nat, v: nat)
    requires RegsOk(r) && VifsOk(vifs) && ap in vifs && t in vifs && ap != t && v in vifs
    requires VifsOk(Exchange(vifs, ap, t))
    ensures var n := SwapPorts(r, PortMap(vifs[ap].port), PortMap(vifs[t].port));
            Look(n, PortMap(Exchange(vifs, ap, t)[v].port)) == Look(r, PortMap(vifs[v].port))
  {
    var (p, q, w) := (vifs[ap].port, vifs[t].port, vifs[v].port);
    var (c, d) := (PortMap(p), PortMap(q));
    assert Separate(c, d) by { MapIsSeparate(p, q); }
    if v == ap || v == t {
      ViewsFollow(r, c, d);
    } else {
      assert Separate(PortMap(w), c) && Separate(PortMap(w), d) by {
        MapIsSeparate(w, p);
        MapIsSeparate(w, q);
      }
      ThirdViewUntouched(r, c, d, PortMap(w));
    }
  }
}
