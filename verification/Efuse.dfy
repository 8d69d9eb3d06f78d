/**
  The efuse log decoder of efuse.c.

  The physical efuse is a write-once log of records. A record is a one- or two-byte header, naming an
  8-byte block of the logical map and the 2-byte words that follow, and then those words. The log
  ends at an invalid header or at the size limit. Later records override earlier ones.
 */
module Efuse {

  type u8 = x: int | 0 <= x < 0x100

  /** A 2-byte word stored at an offset of the logical map. */
  datatype Write = Write(at: nat, lo: u8, hi: u8)

  /** Bit i of the word-enable nibble; 0 means that word i is present. */
  function Bit(nibble: nat, i: nat): nat
    requires i < 4
  {
    if i == 0 then nibble % 2 else if i == 1 then nibble / 2 % 2
    else if i == 2 then nibble / 4 % 2 else nibble / 8 % 2
  }

  predicate InvalidHeader(hdr1: u8, hdr2: u8) { hdr1 == 0xff || (hdr1 % 32 == 0xf && hdr2 == 0xff) }

  predicate TwoByte(hdr1: u8) { hdr1 % 32 == 0xf }

  function HeaderSize(hdr1: u8): nat { if TwoByte(hdr1) then 2 else 1 }

  /** Block bits [6:3] from the second byte and [2:0] from the first, or the upper nibble. */
  function BlockOf(hdr1: u8, hdr2: u8): nat
  {
    if TwoByte(hdr1) then hdr2 / 16 * 8 + hdr1 / 32 else hdr1 / 16
  }

  function WordEnOf(hdr1: u8, hdr2: u8): nat { if TwoByte(hdr1) then hdr2 % 16 else hdr1 % 16 }

  function LogicalIndex(block: nat, i: nat): nat { block * 8 + i * 2 }

  // ---------------------------------------------------------------- decoding as a list of writes

  datatype Words = Words(ok: bool, writes: seq<Write>, next: nat)

  /** Words i..3 of a record whose data continue at `idx`. */
  function DecodeWords(phys: seq<u8>, limit: nat, logical: nat, block: nat, en: nat, i: nat, idx: nat): (w: Words)
    requires i <= 4 && limit < |phys|
    ensures w.next >= idx
    decreases 4 - i
  {
    if i == 4 then Words(true, [], idx)
    else if Bit(en, i) != 0 then DecodeWords(phys, limit, logical, block, en, i + 1, idx)
    else if idx + 1 > limit || LogicalIndex(block, i) + 1 > logical then Words(false, [], idx)
    else
      var rest := DecodeWords(phys, limit, logical, block, en, i + 1, idx + 2);
      rest.(writes := [Write(LogicalIndex(block, i), phys[idx], phys[idx + 1])] + rest.writes)
  }

  /** The record at `idx`: its header and its words. */
  function DecodeRecord(phys: seq<u8>, limit: nat, logical: nat, idx: nat): (w: Words)
    requires idx < limit < |phys|
    ensures w.next > idx
  {
    DecodeWords(phys, limit, logical, BlockOf(phys[idx], phys[idx + 1]), WordEnOf(phys[idx], phys[idx + 1]), 0,
                idx + HeaderSize(phys[idx]))
  }

  /** Nothing is decoded from `idx` on: the limit is reached, or the header is not valid. */
  predicate AtEnd(phys: seq<u8>, limit: nat, idx: nat)
    requires limit < |phys|
  {
    idx >= limit || InvalidHeader(phys[idx], phys[idx + 1])
  }

  datatype Decoded = Decoded(ok: bool, writes: seq<Write>)

  /** The log from `idx` on: the writes it makes and whether it is well formed. */
  function Decode(phys: seq<u8>, limit: nat, logical: nat, idx: nat): Decoded
    requires limit < |phys|
    decreases limit - idx
  {
    if AtEnd(phys, limit, idx) then Decoded(true, [])
    else
      var w := DecodeRecord(phys, limit, logical, idx);
      if !w.ok then Decoded(false, w.writes)
      else
        var rest := Decode(phys, limit, logical, w.next);
        Decoded(rest.ok, w.writes + rest.writes)
  }

  lemma DecodeStep(phys: seq<u8>, limit: nat, logical: nat, idx: nat, w: Words)
    requires limit < |phys| && !AtEnd(phys, limit, idx) && DecodeRecord(phys, limit, logical, idx) == w
    ensures var rest := Decode(phys, limit, logical, w.next);
            Decode(phys, limit, logical, idx)
            == if w.ok then Decoded(rest.ok, w.writes + rest.writes) else Decoded(false, w.writes)
  {
  }

  predicate InRange(ws: seq<Write>, size: nat) { forall k | 0 <= k < |ws| :: ws[k].at + 1 < size }

  function Put(log: seq<u8>, w: Write): (r: seq<u8>)
    requires w.at + 1 < |log|
  {
    log[w.at := w.lo][w.at + 1 := w.hi]
  }

  /** The logical map after a list of writes, in order. */
  function Apply(log: seq<u8>, ws: seq<Write>): (r: seq<u8>)
    requires InRange(ws, |log|)
    ensures |r| == |log|
    decreases |ws|
  {
    if ws == [] then log else Apply(Put(log, ws[0]), ws[1..])
  }

  predicate Addresses(w: Write, k: nat) { k == w.at || k == w.at + 1 }

  function DataAt(w: Write, k: nat): u8 { if k == w.at then w.lo else w.hi }

  predicate NoneAddresses(ws: seq<Write>, k: nat, from: nat)
  {
    forall j | from <= j < |ws| :: !Addresses(ws[j], k)
  }

  lemma {:induction false} UntouchedByte(log: seq<u8>, ws: seq<Write>, k: nat)
    requires InRange(ws, |log|) && k < |log| && NoneAddresses(ws, k, 0)
    ensures Apply(log, ws)[k] == log[k]
    decreases |ws|
  {
    if ws != [] {
      forall j | 0 <= j < |ws[1..]| ensures !Addresses(ws[1..][j], k) {
        assert ws[1..][j] == ws[j + 1];
      }
      UntouchedByte(Put(log, ws[0]), ws[1..], k);
    }
  }

  /** Last writer wins: a byte is what the last write addressing it stored there. */
  lemma {:induction false} LastWriterWins(log: seq<u8>, ws: seq<Write>, k: nat, j: nat)
    requires InRange(ws, |log|) && k < |log|
    requires j < |ws| && Addresses(ws[j], k) && NoneAddresses(ws, k, j + 1)
    ensures Apply(log, ws)[k] == DataAt(ws[j], k)
    decreases |ws|
  {
    var rest := ws[1..];
    forall i | 0 <= i < |rest| ensures rest[i] == ws[i + 1] {}
    if j == 0 {
      UntouchedByte(Put(log, ws[0]), rest, k);
    } else {
      LastWriterWins(Put(log, ws[0]), rest, k, j - 1);
    }
  }

  lemma EvenIndex(block: nat, i: nat, logical: nat)
    requires logical % 2 == 0 && LogicalIndex(block, i) + 1 <= logical
    ensures LogicalIndex(block, i) + 1 < logical
  {
    assert LogicalIndex(block, i) == 2 * (block * 4 + i);
  }

  lemma {:induction false} WordsInRange(phys: seq<u8>, limit: nat, logical: nat, block: nat, en: nat, i: nat, idx: nat)
    requires i <= 4 && limit < |phys| && logical % 2 == 0
    ensures InRange(DecodeWords(phys, limit, logical, block, en, i, idx).writes, logical)
    decreases 4 - i
  {
    if i < 4 {
      if Bit(en, i) != 0 {
        WordsInRange(phys, limit, logical, block, en, i + 1, idx);
      } else if idx + 1 <= limit && LogicalIndex(block, i) + 1 <= logical {
        WordsInRange(phys, limit, logical, block, en, i + 1, idx + 2);
        EvenIndex(block, i, logical);
      }
    }
  }

  /** Whatever the physical map holds, decoding writes only inside the logical map. */
  lemma {:induction false} DecodeInRange(phys: seq<u8>, limit: nat, logical: nat, idx: nat)
    requires limit < |phys| && logical % 2 == 0
    ensures InRange(Decode(phys, limit, logical, idx).writes, logical)
    decreases limit - idx
  {
    if !AtEnd(phys, limit, idx) {
      var (h1, h2) := (phys[idx], phys[idx + 1]);
      WordsInRange(phys, limit, logical, BlockOf(h1, h2), WordEnOf(h1, h2), 0, idx + HeaderSize(h1));
      var w := DecodeRecord(phys, limit, logical, idx);
      DecodeInRange(phys, limit, logical, w.next);
    }
  }

  lemma {:induction false} ApplyConcat(log: seq<u8>, a: seq<Write>, b: seq<Write>)
    requires InRange(a, |log|) && InRange(b, |log|)
    ensures InRange(a + b, |log|) && Apply(log, a + b) == Apply(Apply(log, a), b)
    decreases |a|
  {
    if a == [] {
      assert a + b == b;
    } else {
      assert (a + b)[1..] == a[1..] + b;
      ApplyConcat(Put(log, a[0]), a[1..], b);
    }
  }

  lemma ApplyFirst(log: seq<u8>, w: Write, ws: seq<Write>)
    requires w.at + 1 < |log| && InRange(ws, |log|)
    ensures InRange([w] + ws, |log|) && Apply(log, [w] + ws) == Apply(Put(log, w), ws)
  {
    assert ([w] + ws)[1..] == ws;
  }

  /** The physical map as the decoder reads it: with the byte behind it in memory, which is read when no
      bytes are protected. */
  function AsRead(phys: seq<u8>, behind: u8): (p: seq<u8>)
    ensures |p| == |phys| + 1
  {
    phys + [behind]
  }

  /** One word is copied. */
  method StoreWord(p: seq<u8>, idx: nat, log: array<u8>, at: nat)
    requires idx + 1 < |p| && at + 1 < log.Length
    modifies log
    ensures log[..] == Put(old(log[..]), Write(at, p[idx], p[idx + 1]))
  {
    log[at] := p[idx];
    log[at + 1] := p[idx + 1];
  }

  lemma WordStep(p: seq<u8>, limit: nat, block: nat, en: nat, i: nat, idx: nat, log: seq<u8>)
    requires i < 4 && limit < |p| && |log| % 2 == 0 && Bit(en, i) == 0
    requires idx + 1 <= limit && LogicalIndex(block, i) + 1 <= |log|
    ensures LogicalIndex(block, i) + 1 < |log|
    ensures var (w, r) := (DecodeWords(p, limit, |log|, block, en, i, idx),
                           DecodeWords(p, limit, |log|, block, en, i + 1, idx + 2));
            && w.ok == r.ok && w.next == r.next && InRange(w.writes, |log|) && InRange(r.writes, |log|)
            && Apply(log, w.writes) == Apply(Put(log, Write(LogicalIndex(block, i), p[idx], p[idx + 1])), r.writes)
  {
    EvenIndex(block, i, |log|);
    WordsInRange(p, limit, |log|, block, en, i + 1, idx + 2);
    ApplyFirst(log, Write(LogicalIndex(block, i), p[idx], p[idx + 1]),
               DecodeWords(p, limit, |log|, block, en, i + 1, idx + 2).writes);
  }

  /** The inner loop of rtw_dump_logical_efuse_map: the words of one record. */
  method DumpWords(p: seq<u8>, limit: nat, log: array<u8>, block: nat, wordEn: nat, first: nat)
    returns (ok: bool, phyIdx: nat)
    requires limit < |p| && log.Length % 2 == 0
    modifies log
    ensures var w := DecodeWords(p, limit, log.Length, block, wordEn, 0, first);
            && ok == w.ok && (ok ==> phyIdx == w.next) && InRange(w.writes, log.Length)
            && log[..] == Apply(old(log[..]), w.writes)
  {
    ghost var start := log[..];
    ghost var full := DecodeWords(p, limit, log.Length, block, wordEn, 0, first);
    WordsInRange(p, limit, log.Length, block, wordEn, 0, first);
    phyIdx := first;
    var i := 0;
    while i < 4
      invariant 0 <= i <= 4
      invariant var w := DecodeWords(p, limit, log.Length, block, wordEn, i, phyIdx);
                && full.ok == w.ok && full.next == w.next && InRange(w.writes, log.Length)
                && Apply(start, full.writes) == Apply(log[..], w.writes)
    {
      if Bit(wordEn, i) == 0 {
        var logIdx := LogicalIndex(block, i);
        if phyIdx + 1 > limit || logIdx + 1 > log.Length {
          return false, phyIdx;
        }
        WordStep(p, limit, block, wordEn, i, phyIdx, log[..]);
        StoreWord(p, phyIdx, log, logIdx);
        phyIdx := phyIdx + 2;
      }
      i := i + 1;
    }
    return true, phyIdx;
  }

  /** One record: its header, then its words. */
  method DumpRecord(p: seq<u8>, limit: nat, log: array<u8>, idx: nat) returns (ok: bool, phyIdx: nat)
    requires idx < limit < |p| && log.Length % 2 == 0
    modifies log
    ensures var w := DecodeRecord(p, limit, log.Length, idx);
            && ok == w.ok && (ok ==> phyIdx == w.next) && InRange(w.writes, log.Length)
            && log[..] == Apply(old(log[..]), w.writes)
  {
    var hdr1, hdr2 := p[idx], p[idx + 1];
    var block, wordEn;
    phyIdx := idx;
    if TwoByte(hdr1) {
      block, wordEn := BlockOf(hdr1, hdr2), WordEnOf(hdr1, hdr2);
      phyIdx := phyIdx + 2;
    } else {
      block, wordEn := BlockOf(hdr1, hdr2), WordEnOf(hdr1, hdr2);
      phyIdx := phyIdx + 1;
    }
    ok, phyIdx := DumpWords(p, limit, log, block, wordEn, phyIdx);
  }

  lemma {:induction false} RecordStep(p: seq<u8>, limit: nat, idx: nat, log: seq<u8>)
    requires limit < |p| && |log| % 2 == 0 && !AtEnd(p, limit, idx)
    ensures var (d, w) := (Decode(p, limit, |log|, idx), DecodeRecord(p, limit, |log|, idx));
            var r := Decode(p, limit, |log|, w.next);
            && InRange(w.writes, |log|) && InRange(r.writes, |log|) && InRange(d.writes, |log|)
            && (w.ok ==> d.ok == r.ok && Apply(log, d.writes) == Apply(Apply(log, w.writes), r.writes))
            && (!w.ok ==> !d.ok && Apply(log, d.writes) == Apply(log, w.writes))
  {
    var w := DecodeRecord(p, limit, |log|, idx);
    var r := Decode(p, limit, |log|, w.next);
    WordsInRange(p, limit, |log|, BlockOf(p[idx], p[idx + 1]), WordEnOf(p[idx], p[idx + 1]), 0,
                 idx + HeaderSize(p[idx]));
    DecodeInRange(p, limit, |log|, w.next);
    DecodeStep(p, limit, |log|, idx, w);
    ApplyConcat(log, w.writes, r.writes);
  }

  /** rtw_dump_logical_efuse_map; `limit` is physical_size - protect_size. */
  method DumpLogicalMap(phys: seq<u8>, behind: u8, limit: nat, log: array<u8>) returns (ok: bool)
    requires limit <= |phys| && log.Length % 2 == 0
    modifies log
    ensures var d := Decode(AsRead(phys, behind), limit, log.Length, 0);
            && ok == d.ok && InRange(d.writes, log.Length)
            && log[..] == Apply(old(log[..]), d.writes)
  {
    var p := AsRead(phys, behind);
    ghost var start := log[..];
    ghost var full := Decode(p, limit, log.Length, 0);
    DecodeInRange(p, limit, log.Length, 0);
    var phyIdx := 0;
    while phyIdx < limit
      invariant var d := Decode(p, limit, log.Length, phyIdx);
                && full.ok == d.ok && InRange(d.writes, log.Length)
                && Apply(start, full.writes) == Apply(log[..], d.writes)
      decreases limit - phyIdx
    {
      if InvalidHeader(p[phyIdx], p[phyIdx + 1]) {
        break;
      }
      RecordStep(p, limit, phyIdx, log[..]);
      ok, phyIdx := DumpRecord(p, limit, log, phyIdx);
      if !ok {
        return;
      }
    }
    return true;
  }

  // ---------------------------------------------------------------- serialising records

  /** A record: block, word-enable nibble, four words (those disabled are not stored), header form. */
  datatype Record = Record(block: nat, en: nat, data: seq<(u8, u8)>, short: bool)

  /** At least one word is enabled, and the one-byte header is used for small blocks only. */
  predicate RecordOk(r: Record, logical: nat)
  {
    r.block < 128 && r.block * 8 + 8 <= logical && r.en < 15 && |r.data| == 4 && (r.short ==> r.block < 16)
  }

  function HeaderBytes(r: Record, logical: nat): (h: seq<u8>)
    requires RecordOk(r, logical)
  {
    if r.short then [r.block * 16 + r.en]
    else [r.block % 8 * 32 + 0xf, r.block / 8 * 16 + r.en]
  }

  function WordBytes(r: Record, i: nat): seq<u8>
    requires i <= 4 && |r.data| == 4
    decreases 4 - i
  {
    if i == 4 then []
    else if Bit(r.en, i) == 0 then [r.data[i].0, r.data[i].1] + WordBytes(r, i + 1)
    else WordBytes(r, i + 1)
  }

  function Serialise(r: Record, logical: nat): seq<u8>
    requires RecordOk(r, logical)
  {
    HeaderBytes(r, logical) + WordBytes(r, 0)
  }

  predicate RecordsOk(rs: seq<Record>, logical: nat) { forall i | 0 <= i < |rs| :: RecordOk(rs[i], logical) }

  function SerialiseAll(rs: seq<Record>, logical: nat): seq<u8>
    requires RecordsOk(rs, logical)
  {
    if rs == [] then [] else Serialise(rs[0], logical) + SerialiseAll(rs[1..], logical)
  }

  /** What words i..3 of a record overlay onto the logical map. */
  function Overlay(r: Record, i: nat): seq<Write>
    requires i <= 4 && |r.data| == 4
    decreases 4 - i
  {
    if i == 4 then []
    else if Bit(r.en, i) == 0 then
      [Write(LogicalIndex(r.block, i), r.data[i].0, r.data[i].1)] + Overlay(r, i + 1)
    else Overlay(r, i + 1)
  }

  function OverlayAll(rs: seq<Record>, logical: nat): seq<Write>
    requires RecordsOk(rs, logical)
  {
    if rs == [] then [] else Overlay(rs[0], 0) + OverlayAll(rs[1..], logical)
  }

  /** Both header forms name the same block and words, and neither can be taken for the end mark. */
  lemma HeaderRoundTrip(r: Record, logical: nat, next: u8)
    requires RecordOk(r, logical)
    ensures var h := HeaderBytes(r, logical);
            var h2 := if r.short then next else h[1];
            && !InvalidHeader(h[0], h2) && HeaderSize(h[0]) == |h|
            && BlockOf(h[0], h2) == r.block && WordEnOf(h[0], h2) == r.en
  {
  }

  /** Headers in numbers: 0x3a alone is block 3 with words 0 and 2; 0xaf, 0x3c is block 29 with words 0 and 1. */
  lemma HeadersByNumber(next: u8)
    ensures !TwoByte(0x3a) && BlockOf(0x3a, next) == 3 && WordEnOf(0x3a, next) == 0xa && HeaderSize(0x3a) == 1
    ensures TwoByte(0xaf) && BlockOf(0xaf, 0x3c) == 29 && WordEnOf(0xaf, 0x3c) == 0xc && HeaderSize(0xaf) == 2
    ensures InvalidHeader(0xff, next) && InvalidHeader(0xaf, 0xff) && !InvalidHeader(0xaf, 0xfe)
  {
  }

  /** Where the data of a record go that has one word, and when they cannot: they pass the limit, or their
      place passes the logical map. */
  lemma OneWordByNumber(phys: seq<u8>, limit: nat, logical: nat, block: nat, i: nat, idx: nat)
    requires limit < |phys| && i < 4
    ensures DecodeWords(phys, limit, logical, block, [0xe, 0xd, 0xb, 0x7][i], 0, idx)
         == if idx + 1 <= limit && block * 8 + 2 * i + 1 <= logical
            then Words(true, [Write(block * 8 + 2 * i, phys[idx], phys[idx + 1])], idx + 2) else Words(false, [], idx)
  {
    var en := [0xe, 0xd, 0xb, 0x7][i];
    OtherBits(i);
    assert LogicalIndex(block, i) == block * 8 + 2 * i;
    SkippedWords(phys, limit, logical, block, en, i + 1, 4, idx + 2);
    SkippedWords(phys, limit, logical, block, en, 0, i, idx);
  }

  lemma OtherBits(i: nat)
    requires i < 4
    ensures forall j: nat | j < 4 :: Bit([0xe, 0xd, 0xb, 0x7][i], j) == if j == i then 0 else 1
  {
  }

  lemma {:induction false} SkippedWords(phys: seq<u8>, limit: nat, logical: nat, block: nat, en: nat, i: nat, k: nat,
                                        idx: nat)
    requires i <= k <= 4 && limit < |phys| && forall j: nat | i <= j < k :: Bit(en, j) == 1
    ensures DecodeWords(phys, limit, logical, block, en, i, idx)
         == DecodeWords(phys, limit, logical, block, en, k, idx)
    decreases k - i
  {
    if i < k {
      SkippedWords(phys, limit, logical, block, en, i + 1, k, idx);
    }
  }

  /** Words 0 and 2 of a record: the first two bytes go to its start and the next two four bytes on. */
  lemma TwoWordsByNumber(phys: seq<u8>, limit: nat, logical: nat, block: nat, idx: nat)
    requires limit < |phys| && idx + 3 <= limit && block * 8 + 5 <= logical
    ensures DecodeWords(phys, limit, logical, block, 0xa, 0, idx)
         == Words(true, [Write(block * 8, phys[idx], phys[idx + 1]), Write(block * 8 + 4, phys[idx + 2], phys[idx + 3])],
                  idx + 4)
  {
    SkippedWords(phys, limit, logical, block, 0xa, 3, 4, idx + 4);
    assert DecodeWords(phys, limit, logical, block, 0xa, 2, idx + 2)
        == Words(true, [Write(block * 8 + 4, phys[idx + 2], phys[idx + 3])], idx + 4);
    SkippedWords(phys, limit, logical, block, 0xa, 1, 2, idx + 2);
  }

  /** A log of one record with a one-byte header and one word: it fails iff its data pass the limit or their
      place passes the logical map. */
  lemma OneWordLog(phys: seq<u8>, limit: nat, logical: nat, block: nat, i: nat)
    requires 0 < limit < |phys| && block < 16 && i < 4
    requires phys[0] == block * 16 + [0xe, 0xd, 0xb, 0x7][i] && (limit > 3 ==> phys[3] == 0xff)
    ensures Decode(phys, limit, logical, 0)
         == if limit >= 2 && block * 8 + 2 * i + 1 <= logical
            then Decoded(true, [Write(block * 8 + 2 * i, phys[1], phys[2])]) else Decoded(false, [])
  {
    var en := [0xe, 0xd, 0xb, 0x7][i];
    assert !TwoByte(phys[0]) && BlockOf(phys[0], phys[1]) == block && WordEnOf(phys[0], phys[1]) == en;
    OneWordByNumber(phys, limit, logical, block, i, 1);
    DecodeStep(phys, limit, logical, 0, DecodeRecord(phys, limit, logical, 0));
    assert AtEnd(phys, limit, 3);
  }

  /** What such a log does to the map: the first data byte goes to the lower place, and nothing else changes. */
  lemma OneWordMap(log: seq<u8>, at: nat, a: u8, b: u8)
    requires at + 1 < |log|
    ensures InRange([Write(at, a, b)], |log|) && Apply(log, [Write(at, a, b)]) == log[at := a][at + 1 := b]
  {
    assert [Write(at, a, b)][1..] == [];
  }

  predicate At(phys: seq<u8>, idx: nat, s: seq<u8>) { idx + |s| <= |phys| && phys[idx..idx + |s|] == s }

  lemma AtSplit(phys: seq<u8>, idx: nat, a: seq<u8>, b: seq<u8>)
    requires At(phys, idx, a + b)
    ensures At(phys, idx, a) && At(phys, idx + |a|, b)
  {
    assert (a + b)[..|a|] == a && (a + b)[|a|..] == b;
    assert phys[idx..idx + |a + b|][..|a|] == phys[idx..idx + |a|];
    assert phys[idx..idx + |a + b|][|a|..] == phys[idx + |a|..idx + |a| + |b|];
  }

  lemma PairAt(phys: seq<u8>, idx: nat, lo: u8, hi: u8, rest: seq<u8>)
    requires At(phys, idx, [lo, hi] + rest)
    ensures phys[idx] == lo && phys[idx + 1] == hi && At(phys, idx + 2, rest)
  {
    AtSplit(phys, idx, [lo, hi], rest);
    assert phys[idx] == phys[idx..idx + 2][0] && phys[idx + 1] == phys[idx..idx + 2][1];
  }

  lemma {:induction false} WordsRoundTrip(phys: seq<u8>, limit: nat, logical: nat, r: Record, i: nat, idx: nat)
    requires i <= 4 && RecordOk(r, logical) && limit < |phys|
    requires At(phys, idx, WordBytes(r, i)) && idx + |WordBytes(r, i)| <= limit
    ensures DecodeWords(phys, limit, logical, r.block, r.en, i, idx)
         == Words(true, Overlay(r, i), idx + |WordBytes(r, i)|)
    decreases 4 - i
  {
    if i < 4 {
      if Bit(r.en, i) == 0 {
        assert phys[idx] == r.data[i].0 && phys[idx + 1] == r.data[i].1 && At(phys, idx + 2, WordBytes(r, i + 1)) by {
          PairAt(phys, idx, r.data[i].0, r.data[i].1, WordBytes(r, i + 1));
        }
        WordsRoundTrip(phys, limit, logical, r, i + 1, idx + 2);
      } else {
        WordsRoundTrip(phys, limit, logical, r, i + 1, idx);
      }
    }
  }

  lemma SomeWord(r: Record, logical: nat)
    requires RecordOk(r, logical)
    ensures |WordBytes(r, 0)| >= 2
  {
    assert WordBytes(r, 4) == [];
    assert |WordBytes(r, 3)| >= if Bit(r.en, 3) == 0 then 2 else 0;
    assert |WordBytes(r, 2)| >= if Bit(r.en, 2) == 0 then 2 else |WordBytes(r, 3)|;
    assert |WordBytes(r, 1)| >= if Bit(r.en, 1) == 0 then 2 else |WordBytes(r, 2)|;
  }

  lemma HeaderAt(phys: seq<u8>, logical: nat, r: Record, idx: nat)
    requires RecordOk(r, logical) && idx + 1 < |phys| && At(phys, idx, HeaderBytes(r, logical))
    ensures var (h1, h2) := (phys[idx], phys[idx + 1]);
            && !InvalidHeader(h1, h2) && HeaderSize(h1) == |HeaderBytes(r, logical)|
            && BlockOf(h1, h2) == r.block && WordEnOf(h1, h2) == r.en
  {
    var h := HeaderBytes(r, logical);
    assert phys[idx] == phys[idx..idx + |h|][0];
    if !r.short {
      assert phys[idx + 1] == phys[idx..idx + |h|][1];
    }
    HeaderRoundTrip(r, logical, phys[idx + 1]);
  }

  /** One serialised record is decoded to its overlay, up to the byte right behind it. */
  lemma RecordRoundTrip(phys: seq<u8>, limit: nat, logical: nat, r: Record, idx: nat)
    requires RecordOk(r, logical) && limit < |phys|
    requires At(phys, idx, Serialise(r, logical)) && idx + |Serialise(r, logical)| <= limit
    ensures !AtEnd(phys, limit, idx)
    ensures DecodeRecord(phys, limit, logical, idx)
         == Words(true, Overlay(r, 0), idx + |Serialise(r, logical)|)
  {
    var h, b := HeaderBytes(r, logical), WordBytes(r, 0);
    SomeWord(r, logical);
    AtSplit(phys, idx, h, b);
    HeaderAt(phys, logical, r, idx);
    WordsRoundTrip(phys, limit, logical, r, 0, idx + |h|);
  }

  /**
    Round trip: a physical map that holds the serialisation of some records at `idx`, within the
    limit and followed by the limit or by 0xff, decodes successfully to those records overlaid in
    order. Neither the bytes after the end mark nor the guard byte at `limit` matter.
   */
  lemma {:induction false} RoundTrip(phys: seq<u8>, limit: nat, logical: nat, rs: seq<Record>, idx: nat)
    requires RecordsOk(rs, logical) && limit < |phys|
    requires var end := idx + |SerialiseAll(rs, logical)|;
             && At(phys, idx, SerialiseAll(rs, logical)) && end <= limit
             && (end == limit || phys[end] == 0xff)
    ensures Decode(phys, limit, logical, idx) == Decoded(true, OverlayAll(rs, logical))
    decreases |rs|
  {
    if rs != [] {
      var next := idx + |Serialise(rs[0], logical)|;
      SplitFirst(phys, limit, logical, rs, idx);
      RoundTrip(phys, limit, logical, rs[1..], next);
      var w := Words(true, Overlay(rs[0], 0), next);
      assert DecodeRecord(phys, limit, logical, idx) == w && !AtEnd(phys, limit, idx) by {
        RecordRoundTrip(phys, limit, logical, rs[0], idx);
      }
      DecodeStep(phys, limit, logical, idx, w);
    }
  }

  lemma SplitFirst(phys: seq<u8>, limit: nat, logical: nat, rs: seq<Record>, idx: nat)
    requires RecordsOk(rs, logical) && rs != [] && At(phys, idx, SerialiseAll(rs, logical))
    ensures RecordOk(rs[0], logical) && RecordsOk(rs[1..], logical)
    ensures var a, rest := Serialise(rs[0], logical), SerialiseAll(rs[1..], logical);
            && |SerialiseAll(rs, logical)| == |a| + |rest|
            && At(phys, idx, a) && At(phys, idx + |a|, rest)
  {
    AtSplit(phys, idx, Serialise(rs[0], logical), SerialiseAll(rs[1..], logical));
  }

  function Blank(logical: nat): (s: seq<u8>) { seq(logical, _ => 0xff) }

  /** A serialised log within the limit, followed by the limit or by 0xff. */
  predicate Terminated(log: seq<u8>, limit: nat, tail: seq<u8>)
  {
    |log| <= limit < |log| + |tail| && (|log| == limit || tail[0] == 0xff)
  }

  lemma LogDecodes(rs: seq<Record>, limit: nat, logical: nat, tail: seq<u8>)
    requires RecordsOk(rs, logical) && Terminated(SerialiseAll(rs, logical), limit, tail)
    ensures Decode(SerialiseAll(rs, logical) + tail, limit, logical, 0) == Decoded(true, OverlayAll(rs, logical))
  {
    var s := SerialiseAll(rs, logical);
    assert (s + tail)[0..0 + |s|] == s;
    RoundTrip(s + tail, limit, logical, rs, 0);
  }

  /** The logical map read from a log of records, over a map of 0xff, as rtw_parse_efuse_map makes it. */
  lemma RecordsDecodeToTheirOverlay(rs: seq<Record>, limit: nat, logical: nat, tail: seq<u8>)
    requires RecordsOk(rs, logical) && logical % 2 == 0 && Terminated(SerialiseAll(rs, logical), limit, tail)
    ensures var d := Decode(SerialiseAll(rs, logical) + tail, limit, logical, 0);
            && d.ok && InRange(d.writes, logical) && InRange(OverlayAll(rs, logical), logical)
            && Apply(Blank(logical), d.writes) == Apply(Blank(logical), OverlayAll(rs, logical))
  {
    LogDecodes(rs, limit, logical, tail);
    DecodeInRange(SerialiseAll(rs, logical) + tail, limit, logical, 0);
  }

  /** Both header forms decode alike: two logs of the same records, each with its own choice of forms and
      whatever follows its end mark, decode to the same writes. */
  lemma HeaderFormIrrelevant(rs: seq<Record>, qs: seq<Record>, logical: nat,
                                                limitR: nat, tailR: seq<u8>, limitQ: nat, tailQ: seq<u8>)
    requires RecordsOk(rs, logical) && RecordsOk(qs, logical) && |rs| == |qs|
    requires forall i | 0 <= i < |rs| :: rs[i].(short := false) == qs[i].(short := false)
    requires Terminated(SerialiseAll(rs, logical), limitR, tailR)
    requires Terminated(SerialiseAll(qs, logical), limitQ, tailQ)
    ensures Decode(SerialiseAll(rs, logical) + tailR, limitR, logical, 0)
         == Decode(SerialiseAll(qs, logical) + tailQ, limitQ, logical, 0)
  {
    LogDecodes(rs, limitR, logical, tailR);
    LogDecodes(qs, limitQ, logical, tailQ);
    SameOverlays(rs, qs, logical);
  }

  lemma {:induction false} SameOverlays(rs: seq<Record>, qs: seq<Record>, logical: nat)
    requires RecordsOk(rs, logical) && RecordsOk(qs, logical) && |rs| == |qs|
    requires forall i | 0 <= i < |rs| :: rs[i].(short := false) == qs[i].(short := false)
    ensures OverlayAll(rs, logical) == OverlayAll(qs, logical)
  {
    if rs != [] {
      SameOverlay(rs[0], qs[0], 0);
      SameOverlays(rs[1..], qs[1..], logical);
    }
  }

  lemma {:induction false} SameOverlay(r: Record, q: Record, i: nat)
    requires i <= 4 && |r.data| == 4 && |q.data| == 4 && r.(short := false) == q.(short := false)
    ensures Overlay(r, i) == Overlay(q, i)
    decreases 4 - i
  {
    if i < 4 {
      SameOverlay(r, q, i + 1);
    }
  }
}
