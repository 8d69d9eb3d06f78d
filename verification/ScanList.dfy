/**
  The scan channel list (fw.c): a request's channels serialised one after another into a buffer, four
  bytes each, seven for a channel that must be listened to first.
 */
module ScanList {

  type byte = x: int | 0 <= x < 0x100

  const CH_INFO_SIZE := 4
  const EX_CH_INFO_SIZE := 3
  const CHANNEL_TIME := 45
  const PASS_CHAN_TIME := 105
  const DFS_CHAN_TIME := 20

  /** A channel of the request; `passive` stands for the radar and no-initiation flags. */
  datatype Channel = Channel(number: byte, passive: bool)

  datatype Request = Request(channels: seq<Channel>, durationMandatory: bool, duration: nat)

  /** rtw_chan_info. */
  datatype Info = Info(channel: byte, priChIdx: nat, bw: nat, timeout: nat, actionId: nat, extra: bool)

  function Timeout(r: Request, c: Channel): nat
  {
    var t := if r.durationMandatory then r.duration else CHANNEL_TIME;
    if c.passive && t <= PASS_CHAN_TIME then PASS_CHAN_TIME else t
  }

  /** The entry rtw_add_chan_list makes of a channel: active scan, or listening with an extra part. */
  function InfoOf(r: Request, c: Channel): Info
  {
    Info(c.number, 1, 0, Timeout(r, c), if c.passive then 2 else 1, c.passive)
  }

  function Infos(r: Request): seq<Info>
  {
    seq(|r.channels|, i requires 0 <= i < |r.channels| => InfoOf(r, r.channels[i]))
  }

  /** The bytes of an entry; a byte holds the low eight bits of the timeout. */
  function Entry(i: Info): (s: seq<byte>)
    requires i.priChIdx < 16 && i.bw < 16 && i.actionId < 0x80
    ensures |s| == CH_INFO_SIZE + if i.extra then EX_CH_INFO_SIZE else 0
  {
    [i.channel, i.bw * 16 + i.priChIdx, i.timeout % 0x100, (if i.extra then 0x80 else 0) + i.actionId]
    + if i.extra then [0, EX_CH_INFO_SIZE - 2, DFS_CHAN_TIME] else []
  }

  /** The bytes of a channel's entry, in numbers: 45 ms, or what the request insists on; a channel that must
      be listened to first gets at least 105 ms, another action, and the extra part with its 20 ms. */
  lemma EntryByNumber(r: Request, c: Channel)
    ensures var ms := if r.durationMandatory then r.duration else 45;
            && (!c.passive ==> Entry(InfoOf(r, c)) == [c.number, 0x01, ms % 256, 0x01])
            && (c.passive && ms <= 105 ==> Entry(InfoOf(r, c)) == [c.number, 0x01, 105, 0x82, 0x00, 1, 20])
            && (c.passive && ms > 105 ==> Entry(InfoOf(r, c)) == [c.number, 0x01, ms % 256, 0x82, 0x00, 1, 20])
  {
  }

  predicate InfoOk(i: Info) { i.priChIdx < 16 && i.bw < 16 && i.actionId < 0x80 }

  predicate AllOk(infos: seq<Info>) { forall k | 0 <= k < |infos| :: InfoOk(infos[k]) }

  function Serialise(infos: seq<Info>): seq<byte>
    requires AllOk(infos)
  {
    if infos == [] then [] else Serialise(infos[..|infos| - 1]) + Entry(infos[|infos| - 1])
  }

  datatype Parsed = Malformed | Parsed(infos: seq<Info>)

  function EntrySize(b3: byte): nat { CH_INFO_SIZE + if b3 >= 0x80 then EX_CH_INFO_SIZE else 0 }

  /** What the entry at the front of a list says; bit 7 of its fourth byte announces the extra part. */
  function Front(s: seq<byte>): Info
    requires |s| >= CH_INFO_SIZE
  {
    Info(s[0], s[1] % 16, s[1] / 16, s[2], s[3] % 0x80, s[3] >= 0x80)
  }

  /** The firmware's reading of a list. */
  function Parse(s: seq<byte>): Parsed
    decreases |s|
  {
    if s == [] then Parsed([])
    else if |s| < CH_INFO_SIZE || |s| < EntrySize(s[3]) then Malformed
    else
      match Parse(s[EntrySize(s[3])..])
      case Malformed => Malformed
      case Parsed(rest) => Parsed([Front(s)] + rest)
  }

  lemma EntryRoundTrip(i: Info, rest: seq<byte>)
    requires InfoOk(i)
    ensures var s := Entry(i) + rest;
            && EntrySize(s[3]) == |Entry(i)| && s[|Entry(i)|..] == rest
            && Front(s) == i.(timeout := i.timeout % 0x100)
  {
    assert (Entry(i) + rest)[|Entry(i)|..] == rest;
  }

  lemma {:induction false} SerialiseFront(infos: seq<Info>)
    requires AllOk(infos) && infos != []
    ensures AllOk(infos[1..]) && Serialise(infos) == Entry(infos[0]) + Serialise(infos[1..])
    decreases |infos|
  {
    if |infos| == 1 {
      assert infos[..0] == [] && infos[1..] == [];
    } else {
      var front, last, rest := infos[..|infos| - 1], infos[|infos| - 1], infos[1..];
      assert AllOk(front) && front[1..] == rest[..|rest| - 1] && rest[|rest| - 1] == last;
      assert Serialise(front) == Entry(infos[0]) + Serialise(front[1..]) by { SerialiseFront(front); }
      var a, b, e := Entry(infos[0]), Serialise(front[1..]), Entry(last);
      assert (a + b) + e == a + (b + e);
    }
  }

  /** Timeouts cut to a byte. */
  function Cut(infos: seq<Info>): seq<Info>
  {
    seq(|infos|, k requires 0 <= k < |infos| => infos[k].(timeout := infos[k].timeout % 0x100))
  }

  lemma {:induction false} ParseSerialised(infos: seq<Info>)
    requires AllOk(infos)
    ensures Parse(Serialise(infos)) == Parsed(Cut(infos))
    decreases |infos|
  {
    if infos != [] {
      SerialiseFront(infos);
      ParseSerialised(infos[1..]);
      EntryRoundTrip(infos[0], Serialise(infos[1..]));
      assert Cut(infos) == [infos[0].(timeout := infos[0].timeout % 0x100)] + Cut(infos[1..]);
    }
  }

  /** Round trip: the list is read back entry for entry iff every timeout fits a byte. */
  lemma RoundTripIff(r: Request)
    ensures AllOk(Infos(r))
    ensures Parse(Serialise(Infos(r))) == Parsed(Infos(r))
       <==> forall k | 0 <= k < |r.channels| :: Timeout(r, r.channels[k]) <= 0xff
  {
    ParseSerialised(Infos(r));
    var (a, b) := (Cut(Infos(r)), Infos(r));
    forall k | 0 <= k < |r.channels| ensures a[k] == b[k] <==> Timeout(r, r.channels[k]) <= 0xff {
      assert a[k] == b[k].(timeout := b[k].timeout % 0x100);
    }
  }

  /** A request for 256 ms on one channel is read back as one for 0 ms. */
  lemma LongDurationCut(number: byte)
    ensures var r := Request([Channel(number, false)], true, 256);
            AllOk(Infos(r)) && Parse(Serialise(Infos(r))) == Parsed([Info(number, 1, 0, 0, 1, false)])
  {
    var r := Request([Channel(number, false)], true, 256);
    assert Infos(r) == [Info(number, 1, 0, 256, 1, false)];
    ParseSerialised(Infos(r));
    assert Cut(Infos(r)) == [Info(number, 1, 0, 0, 1, false)];
  }

  lemma {:induction false} SizeBound(infos: seq<Info>)
    requires AllOk(infos)
    ensures 4 * |infos| <= |Serialise(infos)| <= 7 * |infos|
    decreases |infos|
  {
    if infos != [] {
      SizeBound(infos[..|infos| - 1]);
    }
  }

  // Replacing the bits of a field in a byte, other bits staying: all eight, the low or high four, the low
  // seven, the top one.
  function SetByte(b: byte, v: nat): byte { v % 0x100 }
  function SetLow4(b: byte, v: nat): byte { b / 16 * 16 + v % 16 }
  function SetHigh4(b: byte, v: nat): byte { v % 16 * 16 + b % 16 }
  function SetLow7(b: byte, v: nat): byte { b / 0x80 * 0x80 + v % 0x80 }
  function SetTop1(b: byte, v: nat): byte { v % 2 * 0x80 + b % 0x80 }

  /** Whatever a byte held, setting all its fields determines it. */
  lemma HalvesDetermineByte(b: byte, v: nat, w: nat)
    requires v < 16 && w < 16
    ensures SetHigh4(SetLow4(b, v), w) == w * 16 + v
  {
    Low4(0, v);
    Low4(0, w);
    Low4(b / 16, v);
  }

  lemma Low4(q: nat, v: nat)
    requires v < 16
    ensures (q * 16 + v) % 16 == v
  {
  }

  lemma Low7(q: nat, v: nat)
    requires v < 0x80
    ensures (q * 0x80 + v) % 0x80 == v
  {
  }

  lemma FlagDeterminesByte(b: byte, v: nat, w: nat)
    requires v < 0x80 && w < 2
    ensures SetTop1(SetLow7(b, v), w) == w * 0x80 + v
  {
    Low7(0, v);
    Low7(b / 0x80, v);
  }

  /** u8p_replace_bits over a whole byte. */
  method PutByte(buf: array<byte>, at: nat, v: nat)
    requires at < buf.Length
    modifies buf
    ensures buf[..] == old(buf[..])[at := v % 0x100]
  {
    buf[at] := SetByte(buf[at], v);
  }

  /** The low and then the high half of a byte. */
  method PutNibbles(buf: array<byte>, at: nat, low: nat, high: nat)
    requires at < buf.Length && low < 16 && high < 16
    modifies buf
    ensures buf[..] == old(buf[..])[at := high * 16 + low]
  {
    HalvesDetermineByte(buf[at], low, high);
    buf[at] := SetLow4(buf[at], low);
    buf[at] := SetHigh4(buf[at], high);
  }

  /** The low seven bits of a byte and then its top bit. */
  method PutFlagged(buf: array<byte>, at: nat, low: nat, flag: bool)
    requires at < buf.Length && low < 0x80
    modifies buf
    ensures buf[..] == old(buf[..])[at := (if flag then 0x80 else 0) + low]
  {
    FlagDeterminesByte(buf[at], low, if flag then 1 else 0);
    buf[at] := SetLow7(buf[at], low);
    buf[at] := SetTop1(buf[at], if flag then 1 else 0);
  }

  /** `Overrun`: an entry was written past the end of the buffer. */
  datatype Status = Done | NoMem | TooLong | Overrun

  class ChanList {
    var size: nat
    var chNum: nat

    constructor ()
      ensures size == 0 && chNum == 0
    {
      size, chNum := 0, 0;
    }

    /** rtw_add_chan_info: fields are set by replacing bits of whatever the buffer holds. The size check lets
        an entry begin anywhere up to the buffer's end. */
    method AddChanInfo(info: Info, buf: array<byte>, bufSize: nat) returns (st: Status)
      requires InfoOk(info)
      modifies this, buf
      ensures st == if old(size) > bufSize then NoMem else if old(size) + |Entry(info)| > buf.Length then Overrun else Done
      ensures st != Done ==> size == old(size) && chNum == old(chNum) && buf[..] == old(buf[..])
      ensures st == Done ==> size == old(size) + |Entry(info)| <= buf.Length && chNum == old(chNum) + 1
      ensures st == Done ==> buf[..old(size)] == old(buf[..size]) && buf[old(size)..size] == Entry(info)
    {
      if size > bufSize {
        return NoMem;
      }
      if size + |Entry(info)| > buf.Length {
        return Overrun;
      }
      var c := size;
      var infoSize := CH_INFO_SIZE;
      PutByte(buf, c, info.channel);
      PutNibbles(buf, c + 1, info.priChIdx, info.bw);
      PutByte(buf, c + 2, info.timeout);
      PutFlagged(buf, c + 3, info.actionId, info.extra);
      if info.extra {
        PutFlagged(buf, c + 4, 0, false);
        PutByte(buf, c + 5, EX_CH_INFO_SIZE - 2);
        PutByte(buf, c + 6, DFS_CHAN_TIME);
        infoSize := infoSize + EX_CH_INFO_SIZE;
      }
      size := size + infoSize;
      chNum := chNum + 1;
      return Done;
    }

    /** rtw_add_chan_list up to the download, with the seven-bytes-a-channel buffer of
        rtw_hw_scan_prehandle: never out of memory, and the result does not depend on what the buffer held. */
    method AddChanList(r: Request, buf: array<byte>, rsvdPages: nat) returns (st: Status)
      requires buf.Length == 7 * |r.channels| && size == 0 && chNum == 0
      modifies this, buf
      ensures AllOk(Infos(r)) && size == |Serialise(Infos(r))| <= buf.Length
      ensures buf[..size] == Serialise(Infos(r)) && chNum == |r.channels|
      ensures st == if size > rsvdPages * 128 then TooLong else Done
    {
      ghost var all := Infos(r);
      assert AllOk(all);
      for i := 0 to |r.channels|
        invariant AllOk(all[..i]) && size == |Serialise(all[..i])| <= 7 * i && chNum == i
        invariant buf[..size] == Serialise(all[..i])
      {
        assert all[..i + 1][..i] == all[..i] && all[i] == InfoOf(r, r.channels[i]);
        ghost var before := size;
        st := AddChanInfo(InfoOf(r, r.channels[i]), buf, buf.Length);
        assert buf[..size] == buf[..before] + buf[before..size];
        if st != Done {
          return;
        }
      }
      assert all[..|r.channels|] == all;
      st := if size > rsvdPages * 128 then TooLong else Done;
    }
  }
}
