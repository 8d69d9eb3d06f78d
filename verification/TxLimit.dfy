/**
  Tx power limits (phy.c): loading the per-domain limit table, keeping the worldwide minimum, filling
  in the domains that the table leaves out, and cross-referencing HT and VHT limits on 5 GHz.

  The two limit arrays of the driver are one map here, with the band in the key.
 */
module TxLimit {

  const REGD_WW := 12
  const REGD_MAX := 13
  const WIDTH_MAX := 3
  const WIDTH_40 := 1
  const SECTIONS := 10
  const BAND_2G := 0
  const BAND_5G := 1
  const CHANNELS_2G := 14
  const CHANNELS_5G := 49

  /** One cell of the limit arrays: band, domain, bandwidth, rate section, channel index. */
  datatype Key = Key(band: nat, regd: nat, bw: nat, rs: nat, ch: nat)

  predicate KeyOk(k: Key)
  {
    k.regd < REGD_MAX && k.bw < WIDTH_MAX && k.rs < SECTIONS
    && ((k.band == BAND_2G && k.ch < CHANNELS_2G) || (k.band == BAND_5G && k.ch < CHANNELS_5G))
  }

  type Limits = map<Key, int>

  ghost predicate Full(m: Limits) { forall k | KeyOk(k) :: k in m }

  /** A row of the limit table; any of its fields may be out of range. */
  datatype Row = Row(regd: nat, band: nat, bw: nat, rs: nat, ch: nat, limit: int)

  type channel5g = x: nat | 36 <= x witness 36

  const CHANNELS_BAND_1: seq<channel5g> := [36, 38, 40, 42, 44, 46, 48]

  /** rtw_channel_idx_5g. */
  const CHANNEL_IDX_5G: seq<channel5g> := CHANNELS_BAND_1 + [
    52, 54, 56, 58, 60, 62, 64,
    100, 102, 104, 106, 108, 110, 112, 116, 118, 120, 122, 124, 126, 128, 132, 134, 136, 138, 140, 142, 144,
    149, 151, 153, 155, 157, 159, 161, 165, 167, 169, 171, 173, 175, 177]

  datatype Option<T> = None | Some(value: T)

  function IndexFrom(s: seq<nat>, x: nat, i: nat): (r: Option<nat>)
    ensures r.Some? ==> i <= r.value < |s| && s[r.value] == x
    ensures r.None? ==> x !in s[if i <= |s| then i else |s|..]
    decreases |s| - i
  {
    if i >= |s| then None else if s[i] == x then Some(i) else IndexFrom(s, x, i + 1)
  }

  /** rtw_channel_to_idx. */
  function ChannelToIdx(band: nat, channel: nat): (r: Option<nat>)
    ensures r.Some? ==> KeyOk(Key(band, 0, 0, 0, r.value))
  {
    if band == BAND_2G then
      if 1 <= channel <= CHANNELS_2G then Some(channel - 1) else None
    else if band == BAND_5G then IndexFrom(CHANNEL_IDX_5G, channel, 0)
    else None
  }

  /** The i-th 5 GHz channel: seven runs of seven, two apart. */
  function Nth(i: nat): nat
  {
    i % 7 * 2 + if i < 7 then 36 else if i < 14 then 52 else if i < 21 then 100 else if i < 28 then 116
                else if i < 35 then 132 else if i < 42 then 149 else 165
  }

  lemma ChannelAt(i: nat)
    requires i < CHANNELS_5G
    ensures |CHANNEL_IDX_5G| == CHANNELS_5G && CHANNEL_IDX_5G[i] == Nth(i)
  {
    if i < 28 {
      LowChannelAt(i);
    } else {
      HighChannelAt(i);
    }
  }

  lemma LowChannelAt(i: nat)
    requires i < 28
    ensures |CHANNEL_IDX_5G| == CHANNELS_5G
    ensures CHANNEL_IDX_5G[i] == i % 7 * 2 + if i < 7 then 36 else if i < 14 then 52 else if i < 21 then 100 else 116
  {
  }

  lemma HighChannelAt(i: nat)
    requires 28 <= i < CHANNELS_5G
    ensures |CHANNEL_IDX_5G| == CHANNELS_5G
    ensures CHANNEL_IDX_5G[i] == i % 7 * 2 + if i < 35 then 132 else if i < 42 then 149 else 165
  {
  }

  /** A channel is at its own place only, and found there; any other number is refused. */
  lemma ChannelsByNumber(c: nat)
    ensures forall i: nat | i < 49 :: CHANNEL_IDX_5G[i] == c ==> ChannelToIdx(1, c) == Some(i)
    ensures c !in CHANNEL_IDX_5G ==> ChannelToIdx(1, c) == None
    ensures ChannelToIdx(0, c) == if 1 <= c <= 14 then Some(c - 1) else None
  {
    assert CHANNEL_IDX_5G[0..] == CHANNEL_IDX_5G;
    forall i: nat | i < 49 && CHANNEL_IDX_5G[i] == c ensures ChannelToIdx(1, c) == Some(i) {
      var r := IndexFrom(CHANNEL_IDX_5G, c, 0);
      assert r.Some? && |CHANNEL_IDX_5G| == 49;
      SamePlace(i, r.value);
    }
  }

  lemma SamePlace(i: nat, j: nat)
    requires i < CHANNELS_5G && j < CHANNELS_5G && CHANNEL_IDX_5G[i] == CHANNEL_IDX_5G[j]
    ensures i == j
  {
    assert Nth(i) == Nth(j) by {
      ChannelAt(i);
      ChannelAt(j);
    }
    NthDistinct(i, j);
  }

  lemma NthDistinct(i: nat, j: nat)
    requires i < 49 && j < 49 && Nth(i) == Nth(j)
    ensures i == j
  {
  }

  /** clamp_t of a limit to the range of the power index. */
  function Clamp(x: int, max: int): (r: int)
    ensures max >= 0 ==> -max <= r <= max && (-max <= x <= max ==> r == x) && (x > max ==> r == max) && (x < -max ==> r == -max)
  { if x < -max then -max else if x > max then max else x }

  function Min(a: int, b: int): int { if a <= b then a else b }

  /** The cell a row is for, if its fields are valid. */
  function Cell(r: Row): (k: Option<Key>)
    ensures k.Some? ==> KeyOk(k.value) && k.value.regd == r.regd
  {
    var idx := ChannelToIdx(r.band, r.ch);
    if r.regd >= REGD_MAX || r.bw >= WIDTH_MAX || r.rs >= SECTIONS || idx.None? then None
    else Some(Key(r.band, r.regd, r.bw, r.rs, idx.value))
  }

  function Worldwide(k: Key): Key { k.(regd := REGD_WW) }

  /** rtw_phy_set_tx_power_limit: rows with an invalid field are reported and dropped. */
  function SetLimit(m: Limits, r: Row, maxIndex: nat): (n: Limits)
    requires Full(m)
    ensures Full(n)
  {
    match Cell(r)
    case None => m
    case Some(k) =>
      var v := Clamp(r.limit, maxIndex);
      var m1 := m[k := v];
      m1[Worldwide(k) := Min(m1[Worldwide(k)], v)]
  }

  function LoadRows(m: Limits, rows: seq<Row>, maxIndex: nat): (n: Limits)
    requires Full(m)
    ensures Full(n)
    decreases |rows|
  {
    if rows == [] then m else SetLimit(LoadRows(m, rows[..|rows| - 1], maxIndex), rows[|rows| - 1], maxIndex)
  }

  /** regd_cfg_flag: the domains named by any row, valid or not. */
  function Configured(rows: seq<Row>): set<nat> { set i | 0 <= i < |rows| :: rows[i].regd }

  /** rtw_regd_has_alt. */
  function Alternative(regd: nat): Option<nat>
  {
    if regd == 3 || regd == 6 || regd == 8 then Some(0)
    else if regd == 4 || regd == 5 || regd == 7 || 9 <= regd <= 11 then Some(2)
    else None
  }

  /** rtw_cfg_txpwr_lmt_by_alt: all cells of one domain are copied from another. */
  function CopyDomain(m: Limits, regd: nat, alt: nat): (n: Limits)
    requires Full(m) && regd < REGD_MAX && alt < REGD_MAX
    ensures Full(n)
  {
    map k | k in m :: if k.regd == regd && KeyOk(k) then m[k.(regd := alt)] else m[k]
  }

  /** A cell comes before bandwidth `bw` and section `rs` in the copying order. */
  predicate Before(k: Key, bw: nat, rs: nat) { k.bw < bw || (k.bw == bw && k.rs < rs) }

  /** The copy, as far as the cells before a bandwidth and section. */
  function CopyBefore(m: Limits, regd: nat, alt: nat, bw: nat, rs: nat): (n: Limits)
    requires Full(m) && regd < REGD_MAX && alt < REGD_MAX
    ensures Full(n)
  {
    map k | k in m :: if k.regd == regd && KeyOk(k) && Before(k, bw, rs) then m[k.(regd := alt)] else m[k]
  }

  /** The copy of one bandwidth and section. */
  function CopyRow(m: Limits, regd: nat, alt: nat, bw: nat, rs: nat): (n: Limits)
    requires Full(m) && regd < REGD_MAX && alt < REGD_MAX
    ensures Full(n)
  {
    map k | k in m :: if k.regd == regd && KeyOk(k) && k.bw == bw && k.rs == rs then m[k.(regd := alt)] else m[k]
  }

  function Channels(band: nat): nat { if band == BAND_2G then CHANNELS_2G else CHANNELS_5G }

  /** The copy of the first n channels of one band, bandwidth and section. */
  function CopyChannels(m: Limits, band: nat, regd: nat, alt: nat, bw: nat, rs: nat, n: nat): (r: Limits)
    requires Full(m) && regd < REGD_MAX && alt < REGD_MAX
    ensures Full(r)
  {
    map k | k in m ::
      if k.band == band && k.regd == regd && k.bw == bw && k.rs == rs && KeyOk(k) && k.ch < n
      then m[k.(regd := alt)] else m[k]
  }

  lemma NextChannel(m: Limits, band: nat, regd: nat, alt: nat, bw: nat, rs: nat, n: nat)
    requires Full(m) && regd < REGD_MAX && alt < REGD_MAX && regd != alt
    requires KeyOk(Key(band, regd, bw, rs, n))
    ensures var c := CopyChannels(m, band, regd, alt, bw, rs, n);
            && KeyOk(Key(band, alt, bw, rs, n))
            && c[Key(band, regd, bw, rs, n) := c[Key(band, alt, bw, rs, n)]]
               == CopyChannels(m, band, regd, alt, bw, rs, n + 1)
  {
    var c := CopyChannels(m, band, regd, alt, bw, rs, n);
    var at, from := Key(band, regd, bw, rs, n), Key(band, alt, bw, rs, n);
    assert at.(regd := alt) == from && c[from] == m[from];
  }

  lemma CopyBands(m: Limits, regd: nat, alt: nat, bw: nat, rs: nat)
    requires Full(m) && regd < REGD_MAX && alt < REGD_MAX && regd != alt
    ensures CopyChannels(CopyChannels(m, BAND_2G, regd, alt, bw, rs, CHANNELS_2G),
                         BAND_5G, regd, alt, bw, rs, CHANNELS_5G)
         == CopyRow(m, regd, alt, bw, rs)
  {
    var c := CopyChannels(m, BAND_2G, regd, alt, bw, rs, CHANNELS_2G);
    forall k | k in m
      ensures CopyChannels(c, BAND_5G, regd, alt, bw, rs, CHANNELS_5G)[k] == CopyRow(m, regd, alt, bw, rs)[k]
    {
      if KeyOk(k) && k.regd == regd {
        assert KeyOk(k.(regd := alt)) && c[k.(regd := alt)] == m[k.(regd := alt)];
      }
    }
  }

  lemma CopyGoesOn(m: Limits, regd: nat, alt: nat, bw: nat, rs: nat)
    requires Full(m) && regd < REGD_MAX && alt < REGD_MAX && regd != alt
    ensures CopyRow(CopyBefore(m, regd, alt, bw, rs), regd, alt, bw, rs) == CopyBefore(m, regd, alt, bw, rs + 1)
  {
    var n := CopyBefore(m, regd, alt, bw, rs);
    forall k | k in m
      ensures CopyRow(n, regd, alt, bw, rs)[k] == CopyBefore(m, regd, alt, bw, rs + 1)[k]
    {
      if k.regd == regd && KeyOk(k) {
        assert n[k.(regd := alt)] == m[k.(regd := alt)];
      }
    }
  }

  lemma CopyEnds(m: Limits, regd: nat, alt: nat, bw: nat)
    requires Full(m) && regd < REGD_MAX && alt < REGD_MAX
    ensures CopyBefore(m, regd, alt, 0, 0) == m
    ensures CopyBefore(m, regd, alt, bw, SECTIONS) == CopyBefore(m, regd, alt, bw + 1, 0)
    ensures CopyBefore(m, regd, alt, WIDTH_MAX, 0) == CopyDomain(m, regd, alt)
  {
  }

  /** One round of the fallback loop. */
  function FillDomain(m: Limits, configured: set<nat>, regd: nat): (n: Limits)
    requires Full(m) && regd < REGD_MAX
    ensures Full(n)
  {
    if regd == REGD_WW || regd in configured then m
    else match Alternative(regd)
         case Some(alt) =>
           if alt in configured then CopyDomain(m, regd, alt) else CopyDomain(m, regd, REGD_WW)
         case None => CopyDomain(m, regd, REGD_WW)
  }

  predicate Visits(order: seq<nat>) { forall i | 0 <= i < |order| :: order[i] < REGD_MAX }

  function FillAll(m: Limits, configured: set<nat>, order: seq<nat>): (n: Limits)
    requires Full(m) && Visits(order)
    ensures Full(n)
    decreases |order|
  {
    if order == [] then m
    else FillDomain(FillAll(m, configured, order[..|order| - 1]), configured, order[|order| - 1])
  }

  /** Where a domain's limits come from once all domains are filled in. */
  function SourceOf(configured: set<nat>, regd: nat): nat
  {
    if regd == REGD_WW || regd in configured then regd
    else match Alternative(regd)
         case Some(alt) => if alt in configured then alt else REGD_WW
         case None => REGD_WW
  }

  /** The visiting order does not matter: no domain that is copied from is ever itself filled in. */
  lemma {:induction false} FillInAnyOrder(m: Limits, configured: set<nat>, order: seq<nat>, k: Key)
    requires Full(m) && Visits(order) && KeyOk(k)
    ensures FillAll(m, configured, order)[k]
         == if k.regd in order then m[k.(regd := SourceOf(configured, k.regd))] else m[k]
    decreases |order|
  {
    if order != [] {
      var front, last := order[..|order| - 1], order[|order| - 1];
      assert order == front + [last];
      FillInAnyOrder(m, configured, front, k);
      if k.regd == last {
        var src := SourceOf(configured, last);
        FillInAnyOrder(m, configured, front, k.(regd := src));
        assert SourceOf(configured, src) == src;
      }
    }
  }

  // ---------------------------------------------------------------- what the loaded rows mean

  /** The last valid row for a cell, or what was there before. */
  function LastRow(rows: seq<Row>, k: Key, maxIndex: nat, before: int): int
    decreases |rows|
  {
    if rows == [] then before
    else
      var r := rows[|rows| - 1];
      if Cell(r) == Some(k) then Clamp(r.limit, maxIndex)
      else LastRow(rows[..|rows| - 1], k, maxIndex, before)
  }

  /** Some row sets this cell in some domain. */
  predicate Touches(r: Row, k: Key) { Cell(r).Some? && Worldwide(Cell(r).value) == Worldwide(k) }

  /** The least of `before` and all rows for this cell in any domain. */
  function LeastRow(rows: seq<Row>, k: Key, maxIndex: nat, before: int): (v: int)
    decreases |rows|
  {
    if rows == [] then before
    else
      var r, rest := rows[|rows| - 1], LeastRow(rows[..|rows| - 1], k, maxIndex, before);
      if Touches(r, k) then Min(rest, Clamp(r.limit, maxIndex)) else rest
  }

  predicate NoWorldwideRow(rows: seq<Row>) { forall i | 0 <= i < |rows| :: rows[i].regd != REGD_WW }

  /** Loading: a domain's cell holds its last row; the worldwide cell holds the least row of all domains. */
  lemma {:induction false} LoadedMeaning(m: Limits, rows: seq<Row>, maxIndex: nat, k: Key)
    requires Full(m) && KeyOk(k)
    ensures k.regd != REGD_WW ==> LoadRows(m, rows, maxIndex)[k] == LastRow(rows, k, maxIndex, m[k])
    ensures k.regd == REGD_WW && NoWorldwideRow(rows) ==>
              LoadRows(m, rows, maxIndex)[k] == LeastRow(rows, k, maxIndex, m[k])
    decreases |rows|
  {
    if rows != [] {
      var front := rows[..|rows| - 1];
      if NoWorldwideRow(rows) {
        forall i | 0 <= i < |front| ensures front[i].regd != REGD_WW {
          assert front[i] == rows[i];
        }
      }
      LoadedMeaning(m, front, maxIndex, k);
    }
  }

  /** The least row is a lower bound and is attained. */
  lemma {:induction false} LeastRowIsLeast(rows: seq<Row>, k: Key, maxIndex: nat, before: int)
    ensures var v := LeastRow(rows, k, maxIndex, before);
            && v <= before
            && (forall i | 0 <= i < |rows| && Touches(rows[i], k) :: v <= Clamp(rows[i].limit, maxIndex))
            && (v == before || exists i | 0 <= i < |rows| ::
                  Touches(rows[i], k) && v == Clamp(rows[i].limit, maxIndex))
    decreases |rows|
  {
    if rows != [] {
      var front := rows[..|rows| - 1];
      LeastRowIsLeast(front, k, maxIndex, before);
      forall i | 0 <= i < |front| ensures front[i] == rows[i] {}
      var v, f := LeastRow(rows, k, maxIndex, before), LeastRow(front, k, maxIndex, before);
      if v == f && f != before {
        var i :| 0 <= i < |front| && Touches(front[i], k) && f == Clamp(front[i].limit, maxIndex);
        assert rows[i] == front[i];
      }
    }
  }

  lemma {:induction false} LastRowAboveLeast(rows: seq<Row>, k: Key, maxIndex: nat, before: int)
    requires KeyOk(k)
    ensures LeastRow(rows, k, maxIndex, before) <= LastRow(rows, k, maxIndex, before)
    decreases |rows|
  {
    if rows != [] {
      LastRowAboveLeast(rows[..|rows| - 1], k, maxIndex, before);
    }
  }

  /** The least row at or after the last worldwide row for the cell, which restarts the minimum. */
  function LeastSinceWorldwide(rows: seq<Row>, k: Key, maxIndex: nat, before: int): int
    decreases |rows|
  {
    if rows == [] then before
    else
      var r := rows[|rows| - 1];
      var v := Clamp(r.limit, maxIndex);
      if !Touches(r, k) then LeastSinceWorldwide(rows[..|rows| - 1], k, maxIndex, before)
      else if r.regd == REGD_WW then v
      else Min(LeastSinceWorldwide(rows[..|rows| - 1], k, maxIndex, before), v)
  }

  predicate WorldwideRow(r: Row, k: Key) { Touches(r, k) && r.regd == REGD_WW }

  /** Rows i onwards have no worldwide row for the cell. */
  predicate NoneFrom(rows: seq<Row>, k: Key, i: nat) { forall j | i <= j < |rows| :: !WorldwideRow(rows[j], k) }

  predicate ValueAt(rows: seq<Row>, k: Key, maxIndex: nat, i: nat, v: int)
  {
    i < |rows| && Touches(rows[i], k) && v == Clamp(rows[i].limit, maxIndex)
  }

  lemma {:induction false} SinceIsLeast(rows: seq<Row>, k: Key, maxIndex: nat, before: int)
    ensures var v := LeastSinceWorldwide(rows, k, maxIndex, before);
            && (NoneFrom(rows, k, 0) ==> v <= before)
            && (forall i: nat | i < |rows| && Touches(rows[i], k) && NoneFrom(rows, k, i + 1) ::
                  v <= Clamp(rows[i].limit, maxIndex))
            && ((v == before && NoneFrom(rows, k, 0))
                || exists i: nat :: ValueAt(rows, k, maxIndex, i, v) && NoneFrom(rows, k, i + 1))
    decreases |rows|
  {
    if rows != [] {
      var front, last := rows[..|rows| - 1], |rows| - 1;
      SinceIsLeast(front, k, maxIndex, before);
      forall j: nat | j < last ensures front[j] == rows[j] {}
      var v, f := LeastSinceWorldwide(rows, k, maxIndex, before), LeastSinceWorldwide(front, k, maxIndex, before);
      assert NoneFrom(rows, k, last + 1);
      forall i: nat | i <= last
        ensures NoneFrom(rows, k, i) <==> NoneFrom(front, k, i) && !WorldwideRow(rows[last], k)
      {
        if NoneFrom(rows, k, i) {
          assert !WorldwideRow(rows[last], k);
          forall j | i <= j < |front| ensures !WorldwideRow(front[j], k) {
            assert !WorldwideRow(rows[j], k);
          }
        }
      }
      if Touches(rows[last], k) && v == Clamp(rows[last].limit, maxIndex) {
        assert ValueAt(rows, k, maxIndex, last, v);
      } else if !(v == before && NoneFrom(front, k, 0)) {
        var i: nat :| ValueAt(front, k, maxIndex, i, f) && NoneFrom(front, k, i + 1);
        assert ValueAt(rows, k, maxIndex, i, v);
      }
    }
  }

  lemma {:induction false} LeastBelowSince(rows: seq<Row>, k: Key, maxIndex: nat, before: int)
    ensures LeastRow(rows, k, maxIndex, before) <= LeastSinceWorldwide(rows, k, maxIndex, before)
    decreases |rows|
  {
    if rows != [] {
      LeastBelowSince(rows[..|rows| - 1], k, maxIndex, before);
    }
  }

  lemma {:induction false} LoadedWorldwide(m: Limits, rows: seq<Row>, maxIndex: nat, k: Key)
    requires Full(m) && KeyOk(k) && k.regd == REGD_WW
    ensures LoadRows(m, rows, maxIndex)[k] == LeastSinceWorldwide(rows, k, maxIndex, m[k])
    decreases |rows|
  {
    if rows != [] {
      LoadedWorldwide(m, rows[..|rows| - 1], maxIndex, k);
    }
  }

  /**
    For any table at all, the worldwide entry is the least row of all domains iff some least row has no
    worldwide row behind it (or nothing is below the initial value and no worldwide row exists).
   */
  lemma WorldwideIsMinimumIff(m: Limits, rows: seq<Row>, maxIndex: nat, k: Key)
    requires Full(m) && KeyOk(k) && k.regd == REGD_WW
    ensures var least := LeastRow(rows, k, maxIndex, m[k]);
            (LoadRows(m, rows, maxIndex)[k] == least
             <==> ((least == m[k] && NoneFrom(rows, k, 0))
                   || exists i: nat :: ValueAt(rows, k, maxIndex, i, least) && NoneFrom(rows, k, i + 1)))
  {
    LoadedWorldwide(m, rows, maxIndex, k);
    SinceIsLeast(rows, k, maxIndex, m[k]);
    LeastBelowSince(rows, k, maxIndex, m[k]);
  }

  /** A later worldwide row raises the worldwide limit above a domain's own limit. */
  lemma WorldwideRowCanRaise(m: Limits)
    requires Full(m)
    ensures var n := LoadRows(m, [Row(0, BAND_2G, 0, 0, 1, 10), Row(REGD_WW, BAND_2G, 0, 0, 1, 20)], 63);
            n[Key(BAND_2G, REGD_WW, 0, 0, 0)] == 20 && n[Key(BAND_2G, 0, 0, 0, 0)] == 10
  {
    var a, b := Row(0, BAND_2G, 0, 0, 1, 10), Row(REGD_WW, BAND_2G, 0, 0, 1, 20);
    var rows := [a, b];
    assert rows[..1] == [a] && rows[..1][..0] == [];
    assert LoadRows(m, rows[..1][..0], 63) == m;
    assert LoadRows(m, rows[..1], 63) == SetLimit(m, a, 63);
    assert LoadRows(m, rows, 63) == SetLimit(SetLimit(m, a, 63), b, 63);
  }

  // ---------------------------------------------------------------- cross-referencing HT and VHT

  /** rtw_xref_5g_txpwr_lmt on one HT/VHT pair; `maxIndex` marks a limit that nobody assigned. */
  function XrefPair(ht: int, vht: int, maxIndex: nat): (int, int)
  {
    if ht == vht then (ht, vht)
    else if ht == maxIndex then (vht, vht)
    else if vht == maxIndex then (ht, ht)
    else (ht, vht)
  }

  predicate IsHt(rs: nat) { rs == 2 || rs == 3 || rs == 6 || rs == 7 }
  predicate IsVht(rs: nat) { rs == 4 || rs == 5 || rs == 8 || rs == 9 }

  function VhtOf(rs: nat): nat { rs + 2 }
  function HtOf(rs: nat): nat requires IsVht(rs) { rs - 2 }

  /** The cells that rtw_xref_txpwr_lmt visits. */
  predicate Xrefed(k: Key) { k.band == BAND_5G && k.bw <= WIDTH_40 && (IsHt(k.rs) || IsVht(k.rs)) }

  function XrefCell(m: Limits, maxIndex: nat, k: Key): int
    requires Full(m) && k in m
  {
    if !KeyOk(k) || !Xrefed(k) then m[k]
    else if IsHt(k.rs) then XrefPair(m[k], m[k.(rs := VhtOf(k.rs))], maxIndex).0
    else XrefPair(m[k.(rs := HtOf(k.rs))], m[k], maxIndex).1
  }

  function Xref(m: Limits, maxIndex: nat): (n: Limits)
    requires Full(m)
    ensures Full(n)
  {
    map k | k in m :: XrefCell(m, maxIndex, k)
  }

  /** A cell comes before a domain, bandwidth and channel in the order of the visits. */
  predicate Visited(k: Key, regd: nat, bw: nat, ch: nat)
  {
    k.regd < regd || (k.regd == regd && (k.bw < bw || (k.bw == bw && k.ch < ch)))
  }

  /** Cross-referencing, as far as the cells visited before a position. */
  function XrefBefore(m: Limits, maxIndex: nat, regd: nat, bw: nat, ch: nat): (n: Limits)
    requires Full(m)
    ensures Full(n)
  {
    map k | k in m :: if Visited(k, regd, bw, ch) then XrefCell(m, maxIndex, k) else m[k]
  }

  /** The pair of sections a section belongs to, in the order of rs_cmp. */
  function PairOf(rs: nat): nat
  {
    if rs == 2 || rs == 4 then 0 else if rs == 3 || rs == 5 then 1
    else if rs == 6 || rs == 8 then 2 else 3
  }

  /** Cross-referencing of the first n pairs at one position. */
  function XrefPairs(m: Limits, maxIndex: nat, regd: nat, bw: nat, ch: nat, n: nat): (r: Limits)
    requires Full(m)
    ensures Full(r)
  {
    map k | k in m ::
      if k.regd == regd && k.bw == bw && k.ch == ch && PairOf(k.rs) < n then XrefCell(m, maxIndex, k) else m[k]
  }

  lemma XrefGoesOn(m: Limits, maxIndex: nat, regd: nat, bw: nat, ch: nat)
    requires Full(m)
    ensures XrefPairs(XrefBefore(m, maxIndex, regd, bw, ch), maxIndex, regd, bw, ch, 4)
         == XrefBefore(m, maxIndex, regd, bw, ch + 1)
  {
    var n := XrefBefore(m, maxIndex, regd, bw, ch);
    forall k | k in m && k.regd == regd && k.bw == bw && k.ch == ch
      ensures XrefCell(n, maxIndex, k) == XrefCell(m, maxIndex, k)
    {
    }
  }

  lemma XrefEnds(m: Limits, maxIndex: nat, regd: nat, bw: nat)
    requires Full(m)
    ensures XrefBefore(m, maxIndex, 0, 0, 0) == m
    ensures XrefBefore(m, maxIndex, regd, bw, CHANNELS_5G) == XrefBefore(m, maxIndex, regd, bw + 1, 0)
    ensures XrefBefore(m, maxIndex, regd, WIDTH_40 + 1, 0) == XrefBefore(m, maxIndex, regd + 1, 0, 0)
    ensures XrefBefore(m, maxIndex, REGD_MAX, 0, 0) == Xref(m, maxIndex)
  {
  }

  lemma XrefIdempotent(m: Limits, maxIndex: nat)
    requires Full(m)
    ensures Xref(Xref(m, maxIndex), maxIndex) == Xref(m, maxIndex)
  {
    var n := Xref(m, maxIndex);
    forall k | k in m ensures Xref(n, maxIndex)[k] == n[k] {
      if KeyOk(k) && Xrefed(k) {
        var other := k.(rs := if IsHt(k.rs) then VhtOf(k.rs) else HtOf(k.rs));
        assert KeyOk(other) && Xrefed(other);
      }
    }
  }

  /** Afterwards each pair is equal, or both of its limits were assigned. */
  lemma XrefSettles(m: Limits, maxIndex: nat, k: Key)
    requires Full(m) && KeyOk(k) && Xrefed(k) && IsHt(k.rs)
    ensures var (h, v) := (Xref(m, maxIndex)[k], Xref(m, maxIndex)[k.(rs := VhtOf(k.rs))]);
            h == v || (h != maxIndex && v != maxIndex)
  {
    assert KeyOk(k.(rs := VhtOf(k.rs)));
  }

  /** The four pairs by number, HT with 2, 3, 6, 7 and VHT with 4, 5, 8, 9: at 20 and 40 MHz on 5 GHz each takes
      over the other's limit when its own is unassigned. */
  lemma PairsByNumber(m: Limits, maxIndex: nat, regd: nat, bw: nat, ch: nat)
    requires Full(m) && regd < 13 && bw <= 1 && ch < 49
    ensures forall ht | ht in {2, 3, 6, 7} ::
              var (h, v) := (Key(1, regd, bw, ht, ch), Key(1, regd, bw, ht + 2, ch));
              && KeyOk(h) && KeyOk(v)
              && Xref(m, maxIndex)[h] == (if m[h] == maxIndex then m[v] else m[h])
              && Xref(m, maxIndex)[v] == (if m[v] == maxIndex then m[h] else m[v])
  {
  }

  /** Everything else stays: 2 GHz, 80 MHz, CCK and OFDM. */
  lemma NotCrossed(m: Limits, maxIndex: nat, k: Key)
    requires Full(m) && KeyOk(k) && (k.band == 0 || k.bw == 2 || k.rs <= 1)
    ensures Xref(m, maxIndex)[k] == m[k]
  {
  }

  // ---------------------------------------------------------------- the whole of rtw_parse_tbl_txpwr_lmt

  function Domains(): seq<nat> { seq(REGD_MAX, i => i) }

  lemma AllDomains(regd: nat)
    requires regd < REGD_MAX
    ensures Visits(Domains()) && regd in Domains()
  {
    assert Domains()[regd] == regd;
  }

  /** Before cross-referencing. */
  function Parsed(m: Limits, rows: seq<Row>, maxIndex: nat): (n: Limits)
    requires Full(m)
    ensures Full(n)
  {
    assert forall i | 0 <= i < REGD_MAX :: Domains()[i] < REGD_MAX;
    FillAll(LoadRows(m, rows, maxIndex), Configured(rows), Domains())
  }

  /** rtw_phy_init_tx_power has set every limit to the maximum. */
  ghost predicate Initialised(m: Limits, maxIndex: nat) { Full(m) && forall k | KeyOk(k) :: m[k] == maxIndex }

  /** Every limit of the parsed table, and that the worldwide one is the least. */
  lemma ParsedMeaning(m: Limits, rows: seq<Row>, maxIndex: nat, k: Key)
    requires Initialised(m, maxIndex) && NoWorldwideRow(rows) && KeyOk(k)
    ensures var src := k.(regd := SourceOf(Configured(rows), k.regd));
            && Parsed(m, rows, maxIndex)[k]
               == (if src.regd == REGD_WW then LeastRow(rows, k, maxIndex, maxIndex)
                   else LastRow(rows, src, maxIndex, maxIndex))
            && Parsed(m, rows, maxIndex)[Worldwide(k)] == LeastRow(rows, k, maxIndex, maxIndex)
            && Parsed(m, rows, maxIndex)[Worldwide(k)] <= Parsed(m, rows, maxIndex)[k]
  {
    var src := k.(regd := SourceOf(Configured(rows), k.regd));
    var loaded := LoadRows(m, rows, maxIndex);
    AllDomains(k.regd);
    AllDomains(REGD_WW);
    FillInAnyOrder(loaded, Configured(rows), Domains(), k);
    FillInAnyOrder(loaded, Configured(rows), Domains(), Worldwide(k));
    LoadedMeaning(m, rows, maxIndex, src);
    LoadedMeaning(m, rows, maxIndex, Worldwide(k));
    SameLeast(rows, k, Worldwide(k), maxIndex);
    SameLeast(rows, k, src, maxIndex);
    LastRowAboveLeast(rows, src, maxIndex, maxIndex);
  }

  predicate HasRows(rows: seq<Row>, regd: nat) { exists i :: 0 <= i < |rows| && rows[i].regd == regd }

  lemma ConfiguredIffRows(rows: seq<Row>, regd: nat)
    ensures regd in Configured(rows) <==> HasRows(rows, regd)
  {
  }

  lemma ParsedSource(m: Limits, rows: seq<Row>, maxIndex: nat, k: Key)
    requires Full(m) && KeyOk(k)
    ensures Parsed(m, rows, maxIndex)[k]
         == LoadRows(m, rows, maxIndex)[k.(regd := SourceOf(Configured(rows), k.regd))]
  {
    AllDomains(k.regd);
    FillInAnyOrder(LoadRows(m, rows, maxIndex), Configured(rows), Domains(), k);
  }

  /**
    Where a domain's limits come from, by name: IC (3), CHILE (6) and MEXICO (8) without rows take over those
    of FCC (0); KCC (4), ACMA (5), UKRAINE (7), CN (9), QATAR (10) and UK (11) those of ETSI (2).
   */
  lemma AlternativesByName(m: Limits, rows: seq<Row>, maxIndex: nat, k: Key)
    requires Full(m) && KeyOk(k) && !HasRows(rows, k.regd)
    ensures k.regd in {3, 6, 8} && HasRows(rows, 0) ==>
              Parsed(m, rows, maxIndex)[k] == Parsed(m, rows, maxIndex)[k.(regd := 0)]
    ensures k.regd in {4, 5, 7, 9, 10, 11} && HasRows(rows, 2) ==>
              Parsed(m, rows, maxIndex)[k] == Parsed(m, rows, maxIndex)[k.(regd := 2)]
  {
    ConfiguredIffRows(rows, k.regd);
    ConfiguredIffRows(rows, 0);
    ConfiguredIffRows(rows, 2);
    ParsedSource(m, rows, maxIndex, k);
    ParsedSource(m, rows, maxIndex, k.(regd := 0));
    ParsedSource(m, rows, maxIndex, k.(regd := 2));
  }

  /** Without that domain's rows, and always for FCC, MKK (1) and ETSI, the worldwide limits (12). */
  lemma WorldwideByName(m: Limits, rows: seq<Row>, maxIndex: nat, k: Key)
    requires Full(m) && KeyOk(k) && !HasRows(rows, k.regd)
    requires || k.regd in {0, 1, 2} || (k.regd in {3, 6, 8} && !HasRows(rows, 0))
             || (k.regd in {4, 5, 7, 9, 10, 11} && !HasRows(rows, 2))
    ensures Parsed(m, rows, maxIndex)[k] == Parsed(m, rows, maxIndex)[k.(regd := 12)]
  {
    ConfiguredIffRows(rows, k.regd);
    ConfiguredIffRows(rows, 0);
    ConfiguredIffRows(rows, 2);
    ParsedSource(m, rows, maxIndex, k);
    ParsedSource(m, rows, maxIndex, k.(regd := 12));
  }

  /** A domain with rows keeps its own limits. */
  lemma OwnByName(m: Limits, rows: seq<Row>, maxIndex: nat, k: Key)
    requires Full(m) && KeyOk(k) && (HasRows(rows, k.regd) || k.regd == 12)
    ensures Parsed(m, rows, maxIndex)[k] == LoadRows(m, rows, maxIndex)[k]
  {
    ConfiguredIffRows(rows, k.regd);
    ParsedSource(m, rows, maxIndex, k);
  }

  /** Which cell a row is for: a 2 GHz channel c is entry c - 1, a 5 GHz channel its place in the list. */
  lemma RowByNumber(m: Limits, r: Row, maxIndex: nat, i: nat)
    requires Full(m) && r.regd < 12 && r.bw < 3 && r.rs < 10
    ensures r.band == 0 && 1 <= r.ch <= 14 ==>
              LoadRows(m, [r], maxIndex)[Key(0, r.regd, r.bw, r.rs, r.ch - 1)] == Clamp(r.limit, maxIndex)
    ensures r.band == 1 && i < 49 && r.ch == CHANNEL_IDX_5G[i] ==>
              exists j :: 0 <= j < 49 && CHANNEL_IDX_5G[j] == r.ch
                && LoadRows(m, [r], maxIndex)[Key(1, r.regd, r.bw, r.rs, j)] == Clamp(r.limit, maxIndex)
  {
    assert [r][..0] == [] && LoadRows(m, [r], maxIndex) == SetLimit(m, r, maxIndex);
    if r.band == 1 && i < 49 && r.ch == CHANNEL_IDX_5G[i] {
      assert |CHANNEL_IDX_5G| == 49 && r.ch in CHANNEL_IDX_5G;
      var idx := IndexFrom(CHANNEL_IDX_5G, r.ch, 0);
      assert CHANNEL_IDX_5G[0..] == CHANNEL_IDX_5G && idx.Some?;
      assert CHANNEL_IDX_5G[idx.value] == r.ch;
    }
  }

  lemma {:induction false} SameLeast(rows: seq<Row>, k: Key, l: Key, maxIndex: nat)
    requires Worldwide(k) == Worldwide(l)
    ensures LeastRow(rows, k, maxIndex, maxIndex) == LeastRow(rows, l, maxIndex, maxIndex)
    decreases |rows|
  {
    if rows != [] {
      SameLeast(rows[..|rows| - 1], k, l, maxIndex);
    }
  }

  lemma {:induction false} LimitsBounded(rows: seq<Row>, k: Key, maxIndex: nat)
    ensures LastRow(rows, k, maxIndex, maxIndex) <= maxIndex
    ensures LeastRow(rows, k, maxIndex, maxIndex) <= maxIndex
    decreases |rows|
  {
    if rows != [] {
      LimitsBounded(rows[..|rows| - 1], k, maxIndex);
    }
  }

  /** The HT cell of a VHT cell and the other way round. */
  function Partner(k: Key): Key { k.(rs := if IsHt(k.rs) then VhtOf(k.rs) else if IsVht(k.rs) then HtOf(k.rs) else k.rs) }

  /**
    In terms of the rows: the domain (or the one it is filled in from) left one limit of a pair unassigned,
    somebody assigned it, and the domain's other limit is below the least of these assignments.
   */
  predicate TakesOverLower(rows: seq<Row>, maxIndex: nat, k: Key)
  {
    Xrefed(k) &&
    var src := k.(regd := SourceOf(Configured(rows), k.regd));
    var least := LeastRow(rows, k, maxIndex, maxIndex);
    && src.regd != REGD_WW && LastRow(rows, src, maxIndex, maxIndex) == maxIndex && least != maxIndex
    && LastRow(rows, Partner(src), maxIndex, maxIndex) < least
  }

  lemma ParsedCell(m: Limits, rows: seq<Row>, maxIndex: nat, k: Key)
    requires Initialised(m, maxIndex) && NoWorldwideRow(rows) && KeyOk(k)
    ensures var (src, p) := (k.(regd := SourceOf(Configured(rows), k.regd)), Parsed(m, rows, maxIndex));
            && p[k] == (if src.regd == REGD_WW then p[Worldwide(k)] else LastRow(rows, src, maxIndex, maxIndex))
            && p[Worldwide(k)] == LeastRow(rows, k, maxIndex, maxIndex)
            && p[Worldwide(k)] <= p[k] <= maxIndex
  {
    ParsedMeaning(m, rows, maxIndex, k);
    LimitsBounded(rows, k, maxIndex);
    LimitsBounded(rows, k.(regd := SourceOf(Configured(rows), k.regd)), maxIndex);
  }

  lemma WorldwideXrefCell(p: Limits, maxIndex: nat, k: Key)
    requires Full(p) && KeyOk(k) && Xrefed(k)
    ensures var (o, w) := (Partner(k), Worldwide(k));
            && KeyOk(o) && KeyOk(w) && KeyOk(Worldwide(o))
            && Xref(p, maxIndex)[k] == (if p[k] == maxIndex then p[o] else p[k])
            && Xref(p, maxIndex)[w] == (if p[w] == maxIndex then p[Worldwide(o)] else p[w])
  {
    assert KeyOk(Partner(k)) && Worldwide(Partner(k)) == Partner(Worldwide(k));
  }

  /**
    Cross-referencing can lift the worldwide limit above a domain's: exactly for a limit that the domain
    left unassigned and that takes over a lower one. Everywhere else the worldwide limit stays least.
   */
  lemma WorldwideLeastAfterXrefIff(m: Limits, rows: seq<Row>, maxIndex: nat, k: Key)
    requires Initialised(m, maxIndex) && NoWorldwideRow(rows) && KeyOk(k)
    ensures var n := Xref(Parsed(m, rows, maxIndex), maxIndex);
            n[Worldwide(k)] <= n[k] <==> !TakesOverLower(rows, maxIndex, k)
  {
    var p := Parsed(m, rows, maxIndex);
    ParsedCell(m, rows, maxIndex, k);
    if Xrefed(k) {
      WorldwideXrefCell(p, maxIndex, k);
      ParsedCell(m, rows, maxIndex, Partner(k));
    }
  }

  /** A table on which it happens: one domain assigns HT only, another VHT only. */
  lemma XrefCanLift(m: Limits)
    requires Initialised(m, 63)
    ensures var rows := [Row(0, BAND_5G, 0, 2, 36, 10), Row(2, BAND_5G, 0, 4, 36, 20)];
            var (n, k) := (Xref(Parsed(m, rows, 63), 63), Key(BAND_5G, 0, 0, 4, 0));
            n[k] < n[Worldwide(k)]
  {
    var r0, r1 := Row(0, BAND_5G, 0, 2, 36, 10), Row(2, BAND_5G, 0, 4, 36, 20);
    var rows, k := [r0, r1], Key(BAND_5G, 0, 0, 4, 0);
    assert Cell(r0) == Some(Key(BAND_5G, 0, 0, 2, 0)) by { FirstChannel(r0); }
    assert Cell(r1) == Some(Key(BAND_5G, 2, 0, 4, 0)) by { FirstChannel(r1); }
    assert rows[0].regd in Configured(rows);
    LastOfTwo(r0, r1, k);
    LastOfTwo(r0, r1, Partner(k));
    WorldwideLeastAfterXrefIff(m, rows, 63, k);
  }

  lemma FirstChannel(r: Row)
    requires r.regd < REGD_MAX && r.bw < WIDTH_MAX && r.rs < SECTIONS && r.band == BAND_5G && r.ch == 36
    ensures Cell(r) == Some(Key(BAND_5G, r.regd, r.bw, r.rs, 0))
  {
    assert CHANNELS_BAND_1[0] == 36 && CHANNEL_IDX_5G[0] == CHANNELS_BAND_1[0];
    assert IndexFrom(CHANNEL_IDX_5G, 36, 0) == Some(0);
  }

  lemma LastOfTwo(r0: Row, r1: Row, k: Key)
    ensures LastRow([r0, r1], k, 63, 63)
         == if Cell(r1) == Some(k) then Clamp(r1.limit, 63) else if Cell(r0) == Some(k) then Clamp(r0.limit, 63) else 63
    ensures LeastRow([r0, r1], k, 63, 63)
         == var v := if Touches(r0, k) then Min(63, Clamp(r0.limit, 63)) else 63;
            if Touches(r1, k) then Min(v, Clamp(r1.limit, 63)) else v
  {
    assert [r0, r1][..1] == [r0] && [r0][..0] == [];
    assert LastRow([r0], k, 63, 63) == if Cell(r0) == Some(k) then Clamp(r0.limit, 63) else 63;
    assert LeastRow([r0], k, 63, 63) == if Touches(r0, k) then Min(63, Clamp(r0.limit, 63)) else 63;
  }

  class Hal {
    const maxPowerIndex: nat
    var limits: Limits

    constructor (maxPowerIndex: nat, limits: Limits)
      ensures this.maxPowerIndex == maxPowerIndex && this.limits == limits
    {
      this.maxPowerIndex := maxPowerIndex;
      this.limits := limits;
    }

    /** The first loop of rtw_parse_tbl_txpwr_lmt. */
    method LoadTable(rows: seq<Row>) returns (configured: set<nat>)
      requires Full(limits)
      modifies this
      ensures limits == LoadRows(old(limits), rows, maxPowerIndex) && configured == Configured(rows)
    {
      ghost var start := limits;
      configured := {};
      for i := 0 to |rows|
        invariant Full(limits) && limits == LoadRows(start, rows[..i], maxPowerIndex)
        invariant configured == Configured(rows[..i])
      {
        assert rows[..i + 1][..i] == rows[..i];
        assert rows[..i + 1] == rows[..i] + [rows[i]];
        ConfiguredSnoc(rows[..i], rows[i]);
        configured := configured + {rows[i].regd};
        limits := SetLimit(limits, rows[i], maxPowerIndex);
      }
      assert rows[..|rows|] == rows;
    }

    /** The second loop: domains without rows take over another domain's limits. */
    method FillTable(configured: set<nat>)
      requires Full(limits)
      modifies this
      ensures Visits(Domains()) && limits == FillAll(old(limits), configured, Domains())
    {
      ghost var start := limits;
      AllDomains(0);
      for regd := 0 to REGD_MAX
        invariant Full(limits) && Visits(Domains()[..regd])
        invariant limits == FillAll(start, configured, Domains()[..regd])
      {
        assert Domains()[..regd + 1][..regd] == Domains()[..regd];
        if regd != REGD_WW && regd !in configured {
          var alt := Alternative(regd);
          if alt.Some? && alt.value in configured {
            CfgByAlt(regd, alt.value);
          } else {
            CfgByAlt(regd, REGD_WW);
          }
        }
      }
      assert Domains()[..REGD_MAX] == Domains();
    }

    /** rtw_parse_tbl_txpwr_lmt. */
    method ParseTable(rows: seq<Row>)
      requires Full(limits)
      modifies this
      ensures limits == Xref(Parsed(old(limits), rows, maxPowerIndex), maxPowerIndex)
    {
      var configured := LoadTable(rows);
      FillTable(configured);
      XrefTable();
    }

    /** rtw_cfg_txpwr_lmt_by_alt. */
    method CfgByAlt(regd: nat, alt: nat)
      requires Full(limits) && regd < REGD_MAX && alt < REGD_MAX && regd != alt
      modifies this
      ensures limits == CopyDomain(old(limits), regd, alt)
    {
      ghost var start := limits;
      CopyEnds(start, regd, alt, 0);
      for bw := 0 to WIDTH_MAX
        invariant Full(limits) && limits == CopyBefore(start, regd, alt, bw, 0)
      {
        for rs := 0 to SECTIONS
          invariant Full(limits) && limits == CopyBefore(start, regd, alt, bw, rs)
        {
          CopyGoesOn(start, regd, alt, bw, rs);
          CfgRow(regd, alt, bw, rs);
        }
        CopyEnds(start, regd, alt, bw);
      }
    }

    /** __cfg_txpwr_lmt_by_alt: the 2 GHz channels, then the 5 GHz channels. */
    method CfgRow(regd: nat, alt: nat, bw: nat, rs: nat)
      requires Full(limits) && regd < REGD_MAX && alt < REGD_MAX && regd != alt && bw < WIDTH_MAX && rs < SECTIONS
      modifies this
      ensures limits == CopyRow(old(limits), regd, alt, bw, rs)
    {
      CopyBands(limits, regd, alt, bw, rs);
      CfgBand(BAND_2G, regd, alt, bw, rs);
      CfgBand(BAND_5G, regd, alt, bw, rs);
    }

    method CfgBand(band: nat, regd: nat, alt: nat, bw: nat, rs: nat)
      requires Full(limits) && regd < REGD_MAX && alt < REGD_MAX && regd != alt && bw < WIDTH_MAX && rs < SECTIONS
      requires band == BAND_2G || band == BAND_5G
      modifies this
      ensures limits == CopyChannels(old(limits), band, regd, alt, bw, rs, Channels(band))
    {
      ghost var start := limits;
      for ch := 0 to Channels(band)
        invariant Full(limits) && limits == CopyChannels(start, band, regd, alt, bw, rs, ch)
      {
        NextChannel(start, band, regd, alt, bw, rs, ch);
        limits := limits[Key(band, regd, bw, rs, ch) := limits[Key(band, alt, bw, rs, ch)]];
      }
    }

    /** rtw_xref_txpwr_lmt: all domains, 20 and 40 MHz, all 5 GHz channels. */
    method XrefTable()
      requires Full(limits)
      modifies this
      ensures limits == Xref(old(limits), maxPowerIndex)
    {
      ghost var start := limits;
      XrefEnds(start, maxPowerIndex, 0, 0);
      for regd := 0 to REGD_MAX
        invariant Full(limits) && limits == XrefBefore(start, maxPowerIndex, regd, 0, 0)
      {
        for bw := 0 to WIDTH_40 + 1
          invariant Full(limits) && limits == XrefBefore(start, maxPowerIndex, regd, bw, 0)
        {
          for ch := 0 to CHANNELS_5G
            invariant Full(limits) && limits == XrefBefore(start, maxPowerIndex, regd, bw, ch)
          {
            XrefGoesOn(start, maxPowerIndex, regd, bw, ch);
            XrefChannel(regd, bw, ch);
          }
          XrefEnds(start, maxPowerIndex, regd, bw);
        }
        XrefEnds(start, maxPowerIndex, regd, 0);
      }
    }

    /** rtw_xref_txpwr_lmt_by_rs: the four pairs at one position. */
    method XrefChannel(regd: nat, bw: nat, ch: nat)
      requires Full(limits) && regd < REGD_MAX && bw <= WIDTH_40 && ch < CHANNELS_5G
      modifies this
      ensures limits == XrefPairs(old(limits), maxPowerIndex, regd, bw, ch, 4)
    {
      ghost var start := limits;
      for i := 0 to 4
        invariant Full(limits) && limits == XrefPairs(start, maxPowerIndex, regd, bw, ch, i)
      {
        var rsHt := [2, 3, 6, 7][i];
        var ht, vht := Key(BAND_5G, regd, bw, rsHt, ch), Key(BAND_5G, regd, bw, VhtOf(rsHt), ch);
        assert KeyOk(ht) && KeyOk(vht) && PairOf(rsHt) == PairOf(VhtOf(rsHt)) == i;
        if limits[ht] == limits[vht] {
        } else if limits[ht] == maxPowerIndex {
          limits := limits[ht := limits[vht]];
        } else if limits[vht] == maxPowerIndex {
          limits := limits[vht := limits[ht]];
        }
      }
    }
  }

  lemma ConfiguredSnoc(rows: seq<Row>, r: Row)
    ensures Configured(rows + [r]) == Configured(rows) + {r.regd}
  {
    var all := rows + [r];
    forall x ensures x in Configured(all) <==> x in Configured(rows) + {r.regd} {
      if x in Configured(rows) {
        var i :| 0 <= i < |rows| && rows[i].regd == x;
        assert all[i].regd == x;
      }
      if x == r.regd {
        assert all[|rows|].regd == x;
      }
    }
  }
}
