/**
  Tx power normalisation (phy.c): the by-rate offsets of each rate section are made relative to the
  section's base rate, and the regulatory limits relative to the base of RF path A.

  Values are signed bytes; every subtraction wraps as it does in the driver.
 */
module TxNormalise {
  import TxLimit

  type s8 = x: int | -0x80 <= x < 0x80

  const PATHS := 4
  const RATES := 0x54
  const SECTIONS := 10
  const REGD_WW := 12

  /** Conversion to a signed byte. */
  function Wrap(x: int): (r: s8)
    ensures -0x80 <= x < 0x80 ==> r == x
    ensures exists k: int :: r == x + 0x100 * k
  {
    var r := (x + 0x80) % 0x100 - 0x80;
    assert r == x + 0x100 * (-((x + 0x80) / 0x100));
    r
  }

  /** A signed-byte subtraction. */
  function Sub(a: int, b: int): s8 { Wrap(a - b) }

  function Min(a: int, b: int): int { if a <= b then a else b }

  // ---------------------------------------------------------------- rates and rate sections

  datatype Section = Section(first: nat, size: nat)

  /** rtw_rate_section and rtw_rate_size, in the order of enum rtw_rate_section. */
  const RATE_SECTION: seq<Section> := [
    Section(0x00, 4), Section(0x04, 8),       // CCK, OFDM
    Section(0x0c, 8), Section(0x14, 8),       // HT 1S, 2S
    Section(0x2c, 10), Section(0x36, 10),     // VHT 1S, 2S
    Section(0x1c, 8), Section(0x24, 8),       // HT 3S, 4S
    Section(0x40, 10), Section(0x4a, 10)]     // VHT 3S, 4S

  /** rtw_phy_rate_to_rate_section; SECTIONS stands for an invalid rate. */
  function RateToSection(rate: nat): nat
  {
    if rate <= 0x03 then 0
    else if rate <= 0x0b then 1
    else if 0x0c <= rate <= 0x13 then 2
    else if 0x14 <= rate <= 0x1b then 3
    else if 0x1c <= rate <= 0x23 then 6
    else if 0x24 <= rate <= 0x2b then 7
    else if 0x2c <= rate <= 0x35 then 4
    else if 0x36 <= rate <= 0x3f then 5
    else if 0x40 <= rate <= 0x49 then 8
    else if 0x4a <= rate <= 0x53 then 9
    else SECTIONS
  }

  predicate InSection(rs: nat, rate: nat)
    requires rs < SECTIONS
  {
    RATE_SECTION[rs].first <= rate < RATE_SECTION[rs].first + RATE_SECTION[rs].size
  }

  /** The ten sections partition the rates, and the classifier names the one a rate is in. */
  lemma SectionsPartition(rs: nat, rate: nat)
    requires rs < SECTIONS
    ensures InSection(rs, rate) <==> RateToSection(rate) == rs
    ensures RateToSection(rate) < SECTIONS <==> rate < RATES
  {
  }

  /** The rate whose offset becomes the section's base: MCS7 for VHT, else the last one. */
  function BaseRate(rs: nat): (r: nat)
    requires rs < SECTIONS
    ensures InSection(rs, r)
  {
    var s := RATE_SECTION[rs];
    if s.size == 10 then s.first + s.size - 3 else s.first + s.size - 1
  }

  lemma SectionFits(rs: nat)
    requires rs < SECTIONS
    ensures RATE_SECTION[rs].first + RATE_SECTION[rs].size <= RATES && BaseRate(rs) < RATES
  {
  }

  // ---------------------------------------------------------------- by-rate offsets

  /** The offsets of one band, path by path; the bases, path by path. */
  predicate Offsets(o: seq<seq<s8>>) { |o| == PATHS && forall p | 0 <= p < PATHS :: |o[p]| == RATES }
  predicate Bases(b: seq<seq<s8>>) { |b| == PATHS && forall p | 0 <= p < PATHS :: |b[p]| == SECTIONS }

  /** The base of a rate's section. */
  function BaseOf(row: seq<s8>, rs: nat): s8
    requires |row| == RATES && rs < SECTIONS
  {
    SectionFits(rs);
    row[BaseRate(rs)]
  }

  /** An offset after normalisation, given those before. */
  function Shifted(row: seq<s8>, rate: nat): s8
    requires |row| == RATES && rate < RATES
  {
    SectionsPartition(RateToSection(rate), rate);
    Sub(row[rate], BaseOf(row, RateToSection(rate)))
  }

  /** A row with the rates of sections from `lo` up to `hi` normalised. */
  function ShiftSections(row: seq<s8>, lo: nat, hi: nat): (n: seq<s8>)
    requires |row| == RATES
    ensures |n| == RATES
  {
    seq(RATES, r requires 0 <= r < RATES => if lo <= RateToSection(r) < hi then Shifted(row, r) else row[r])
  }

  function BasesOf(row: seq<s8>): (b: seq<s8>)
    requires |row| == RATES
    ensures |b| == SECTIONS
  {
    seq(SECTIONS, rs requires 0 <= rs < SECTIONS => BaseOf(row, rs))
  }

  /** The bases of sections below rs, the others as they were. */
  function BasesBefore(row: seq<s8>, was: seq<s8>, rs: nat): (b: seq<s8>)
    requires |row| == RATES && |was| == SECTIONS
    ensures |b| == SECTIONS
  {
    seq(SECTIONS, q requires 0 <= q < SECTIONS => if q < rs then BaseOf(row, q) else was[q])
  }

  lemma BasesGoOn(row: seq<s8>, was: seq<s8>, rs: nat)
    requires |row| == RATES && |was| == SECTIONS && rs < SECTIONS
    ensures BasesBefore(row, was, 0) == was && BasesBefore(row, was, SECTIONS) == BasesOf(row)
    ensures BasesBefore(row, was, rs)[rs := BaseOf(row, rs)] == BasesBefore(row, was, rs + 1)
  {
  }

  function SetBase(b: seq<seq<s8>>, path: nat, rs: nat, v: s8): (n: seq<seq<s8>>)
    requires Bases(b) && path < PATHS && rs < SECTIONS
    ensures Bases(n)
  {
    var row: seq<s8> := b[path][rs := v];
    b[path := row]
  }

  function Normalised(o: seq<seq<s8>>): (n: seq<seq<s8>>)
    requires Offsets(o)
    ensures Offsets(n)
  {
    seq(PATHS, p requires 0 <= p < PATHS => ShiftSections(o[p], 0, SECTIONS))
  }

  function NormalisedBefore(o: seq<seq<s8>>, path: nat): (n: seq<seq<s8>>)
    requires Offsets(o)
    ensures Offsets(n)
  {
    seq(PATHS, p requires 0 <= p < PATHS => if p < path then ShiftSections(o[p], 0, SECTIONS) else o[p])
  }

  lemma NextPath(o: seq<seq<s8>>, path: nat)
    requires Offsets(o) && path < PATHS
    ensures NormalisedBefore(o, 0) == o && NormalisedBefore(o, PATHS) == Normalised(o)
    ensures NormalisedBefore(o, path)[path] == o[path]
    ensures NormalisedBefore(o, path)[path := ShiftSections(o[path], 0, SECTIONS)] == NormalisedBefore(o, path + 1)
  {
  }

  function AllBases(o: seq<seq<s8>>): (b: seq<seq<s8>>)
    requires Offsets(o)
    ensures Bases(b)
  {
    seq(PATHS, p requires 0 <= p < PATHS => BasesOf(o[p]))
  }

  lemma SameBase(row: seq<s8>, rs: nat)
    requires |row| == RATES && rs < SECTIONS
    ensures BaseOf(ShiftSections(row, 0, rs), rs) == BaseOf(row, rs)
  {
    SectionFits(rs);
    SectionsPartition(rs, BaseRate(rs));
  }

  lemma NextSection(row: seq<s8>, rs: nat)
    requires |row| == RATES && rs < SECTIONS
    ensures ShiftSections(ShiftSections(row, 0, rs), rs, rs + 1) == ShiftSections(row, 0, rs + 1)
  {
    var n := ShiftSections(row, 0, rs);
    forall r | 0 <= r < RATES && RateToSection(r) == rs ensures Shifted(n, r) == Shifted(row, r) {
      SameBase(row, rs);
    }
  }

  lemma NoSection(row: seq<s8>)
    requires |row| == RATES
    ensures ShiftSections(row, 0, 0) == row
  {
  }

  /** Nothing is lost: base plus stored offset is the original offset, for all bytes, wrapped or not. */
  lemma NothingLost(o: seq<seq<s8>>, path: nat, rate: nat)
    requires Offsets(o) && path < PATHS && rate < RATES
    ensures RateToSection(rate) < SECTIONS
    ensures var base: int := AllBases(o)[path][RateToSection(rate)];
            Wrap(base + Normalised(o)[path][rate]) == o[path][rate]
  {
    SectionsPartition(RateToSection(rate), rate);
  }

  /** The base rate itself ends at offset zero. */
  lemma BaseRateIsZero(row: seq<s8>, rs: nat)
    requires |row| == RATES && rs < SECTIONS
    ensures BaseRate(rs) < RATES && ShiftSections(row, 0, SECTIONS)[BaseRate(rs)] == 0
  {
    SectionFits(rs);
    SectionsPartition(rs, BaseRate(rs));
  }

  /** The bases by rate number, in the order of the sections: 11M, 54M, MCS7, MCS15, then MCS7 of VHT 1S and
      2S, MCS23, MCS31, and MCS7 of VHT 3S and 4S. */
  function SavedBases(row: seq<s8>): (b: seq<s8>)
    requires |row| == RATES
    ensures b == [row[0x03], row[0x0b], row[0x13], row[0x1b], row[0x33],
                  row[0x3d], row[0x23], row[0x2b], row[0x47], row[0x51]]
  {
    [row[0x03], row[0x0b], row[0x13], row[0x1b], row[0x33], row[0x3d], row[0x23], row[0x2b], row[0x47], row[0x51]]
  }

  lemma BasesByNumber(row: seq<s8>)
    requires |row| == RATES
    ensures BasesOf(row) == SavedBases(row)
  {
    forall rs | 0 <= rs < SECTIONS ensures BasesOf(row)[rs] == SavedBases(row)[rs] {
    }
  }

  lemma BasesOfAllPaths(o: seq<seq<s8>>)
    requires Offsets(o)
    ensures forall p: nat | p < PATHS :: AllBases(o)[p] == SavedBases(o[p])
  {
    forall p: nat | p < PATHS ensures AllBases(o)[p] == SavedBases(o[p]) {
      BasesByNumber(o[p]);
    }
  }

  /** Which base each rate's offset is relative to, by rate number: CCK, OFDM, HT 1S to 4S, VHT 1S to 4S. */
  lemma OffsetsByNumber(o: seq<seq<s8>>, path: nat, r: nat)
    requires Offsets(o) && path < PATHS && r < RATES
    ensures var row := o[path];
            Normalised(o)[path][r] == Sub(row[r],
              if r <= 0x03 then row[0x03] else if r <= 0x0b then row[0x0b]
              else if r <= 0x13 then row[0x13] else if r <= 0x1b then row[0x1b]
              else if r <= 0x23 then row[0x23] else if r <= 0x2b then row[0x2b]
              else if r <= 0x35 then row[0x33] else if r <= 0x3f then row[0x3d]
              else if r <= 0x49 then row[0x47] else row[0x51])
  {
    SectionsPartition(RateToSection(r), r);
  }

  /** An example: VHT 1S with 20 at MCS7 and 16 at MCS9 keeps 20, and stores 0 and -4. */
  lemma VhtBaseIsMcs7(o: seq<seq<s8>>, path: nat)
    requires Offsets(o) && path < PATHS && o[path][0x33] == 20 && o[path][0x35] == 16
    ensures AllBases(o)[path][4] == 20 && Normalised(o)[path][0x33] == 0 && Normalised(o)[path][0x35] == -4
  {
    BasesByNumber(o[path]);
    OffsetsByNumber(o, path, 0x33);
    OffsetsByNumber(o, path, 0x35);
  }

  /** What each limit is relative to: the base of path A in its own band, by section. */
  lemma LimitsByNumber(o2: seq<seq<s8>>, o5: seq<seq<s8>>, m: TxLimit.Limits, k: TxLimit.Key)
    requires Offsets(o2) && Offsets(o5) && TxLimit.KeyOk(k) && k in m
    ensures RelativeLimits(o2, o5, m)[k] == Sub(m[k], SavedBases(if k.band == 0 then o2[0] else o5[0])[k.rs])
  {
    BasesByNumber(o2[0]);
    BasesByNumber(o5[0]);
  }

  // ---------------------------------------------------------------- limits

  /** The base that a limit is made relative to, given the bases of path A in both bands. */
  function LimitBase(b2: seq<s8>, b5: seq<s8>, k: TxLimit.Key): s8
    requires |b2| == |b5| == SECTIONS && TxLimit.KeyOk(k)
  {
    if k.band == TxLimit.BAND_2G then b2[k.rs] else b5[k.rs]
  }

  function Relative(m: TxLimit.Limits, b2: seq<s8>, b5: seq<s8>): (n: TxLimit.Limits)
    requires |b2| == |b5| == SECTIONS
    ensures n.Keys == m.Keys
  {
    map k | k in m :: if TxLimit.KeyOk(k) then Sub(m[k], LimitBase(b2, b5, k)) else m[k]
  }

  /** A cell comes before a domain, bandwidth and section in the order of the loops. */
  predicate Before(k: TxLimit.Key, regd: nat, bw: nat, rs: nat)
  {
    k.regd < regd || (k.regd == regd && (k.bw < bw || (k.bw == bw && k.rs < rs)))
  }

  function RelativeBefore(m: TxLimit.Limits, b2: seq<s8>, b5: seq<s8>, regd: nat, bw: nat, rs: nat): (n: TxLimit.Limits)
    requires |b2| == |b5| == SECTIONS
    ensures n.Keys == m.Keys
  {
    map k | k in m ::
      if TxLimit.KeyOk(k) && Before(k, regd, bw, rs) then Sub(m[k], LimitBase(b2, b5, k)) else m[k]
  }

  function RelativeRow(m: TxLimit.Limits, b2: seq<s8>, b5: seq<s8>, regd: nat, bw: nat, rs: nat): (n: TxLimit.Limits)
    requires |b2| == |b5| == SECTIONS
    ensures n.Keys == m.Keys
  {
    map k | k in m ::
      if TxLimit.KeyOk(k) && k.regd == regd && k.bw == bw && k.rs == rs then Sub(m[k], LimitBase(b2, b5, k))
      else m[k]
  }

  /** The first n channels of one band, bandwidth and section made relative. */
  function RelativeChannels(m: TxLimit.Limits, band: nat, base: s8, regd: nat, bw: nat, rs: nat, n: nat): (r: TxLimit.Limits)
    ensures r.Keys == m.Keys
  {
    map k | k in m ::
      if k.band == band && k.regd == regd && k.bw == bw && k.rs == rs && k.ch < n then Sub(m[k], base) else m[k]
  }

  lemma NextRow(m: TxLimit.Limits, b2: seq<s8>, b5: seq<s8>, regd: nat, bw: nat, rs: nat)
    requires |b2| == |b5| == SECTIONS
    ensures RelativeRow(RelativeBefore(m, b2, b5, regd, bw, rs), b2, b5, regd, bw, rs)
         == RelativeBefore(m, b2, b5, regd, bw, rs + 1)
  {
  }

  lemma RowsEnd(m: TxLimit.Limits, b2: seq<s8>, b5: seq<s8>, regd: nat, bw: nat)
    requires |b2| == |b5| == SECTIONS
    ensures RelativeBefore(m, b2, b5, 0, 0, 0) == m
    ensures RelativeBefore(m, b2, b5, regd, bw, SECTIONS) == RelativeBefore(m, b2, b5, regd, bw + 1, 0)
    ensures RelativeBefore(m, b2, b5, regd, TxLimit.WIDTH_MAX, 0) == RelativeBefore(m, b2, b5, regd + 1, 0, 0)
    ensures RelativeBefore(m, b2, b5, TxLimit.REGD_MAX, 0, 0) == Relative(m, b2, b5)
  {
  }

  lemma BothBands(m: TxLimit.Limits, b2: seq<s8>, b5: seq<s8>, regd: nat, bw: nat, rs: nat)
    requires |b2| == |b5| == SECTIONS && OnlyCells(m)
    requires regd < TxLimit.REGD_MAX && bw < TxLimit.WIDTH_MAX && rs < SECTIONS
    ensures RelativeChannels(
              RelativeChannels(m, TxLimit.BAND_2G, b2[rs], regd, bw, rs, TxLimit.CHANNELS_2G),
              TxLimit.BAND_5G, b5[rs], regd, bw, rs, TxLimit.CHANNELS_5G)
         == RelativeRow(m, b2, b5, regd, bw, rs)
  {
  }

  /** The two limit arrays have no other cells. */
  predicate OnlyCells(m: TxLimit.Limits) { forall k | k in m :: TxLimit.KeyOk(k) }

  // ---------------------------------------------------------------- the driver code

  class Hal {
    var offset2g: seq<seq<s8>>
    var offset5g: seq<seq<s8>>
    var base2g: seq<seq<s8>>
    var base5g: seq<seq<s8>>
    var limits: TxLimit.Limits

    ghost predicate Ok()
      reads this
    {
      Offsets(offset2g) && Offsets(offset5g) && Bases(base2g) && Bases(base5g) && TxLimit.Full(limits) && OnlyCells(limits)
    }

    constructor (offset2g: seq<seq<s8>>, offset5g: seq<seq<s8>>, limits: TxLimit.Limits)
      requires Offsets(offset2g) && Offsets(offset5g) && TxLimit.Full(limits) && OnlyCells(limits)
      ensures Ok() && this.offset2g == offset2g && this.offset5g == offset5g && this.limits == limits
    {
      this.offset2g, this.offset5g, this.limits := offset2g, offset5g, limits;
      base2g := seq(PATHS, _ => seq(SECTIONS, _ => 0));
      base5g := seq(PATHS, _ => seq(SECTIONS, _ => 0));
    }

    /** The rate loop of rtw_phy_tx_power_by_rate_config_by_path, on the rows of one path. */
    static method ShiftRates(row2: seq<s8>, row5: seq<s8>, rs: nat, base2: s8, base5: s8)
      returns (n2: seq<s8>, n5: seq<s8>)
      requires |row2| == |row5| == RATES && rs < SECTIONS && base2 == BaseOf(row2, rs) && base5 == BaseOf(row5, rs)
      ensures n2 == ShiftSections(row2, rs, rs + 1) && n5 == ShiftSections(row5, rs, rs + 1)
    {
      SectionFits(rs);
      var s := RATE_SECTION[rs];
      n2, n5 := row2, row5;
      for i := 0 to s.size
        invariant |n2| == |n5| == RATES
        invariant forall r | 0 <= r < RATES :: n2[r] == if s.first <= r < s.first + i then Sub(row2[r], base2) else row2[r]
        invariant forall r | 0 <= r < RATES :: n5[r] == if s.first <= r < s.first + i then Sub(row5[r], base5) else row5[r]
      {
        var rateIdx := s.first + i;
        n2 := n2[rateIdx := Sub(n2[rateIdx], base2)];
        n5 := n5[rateIdx := Sub(n5[rateIdx], base5)];
      }
      forall r | 0 <= r < RATES ensures InSection(rs, r) <==> RateToSection(r) == rs { SectionsPartition(rs, r); }
    }

    /** rtw_phy_tx_power_by_rate_config_by_path, both bands. */
    method ConfigByPath(path: nat, rs: nat)
      requires Ok() && path < PATHS && rs < SECTIONS
      modifies this`offset2g, this`offset5g, this`base2g, this`base5g
      ensures Ok()
      ensures offset2g == old(offset2g)[path := ShiftSections(old(offset2g)[path], rs, rs + 1)]
      ensures offset5g == old(offset5g)[path := ShiftSections(old(offset5g)[path], rs, rs + 1)]
      ensures base2g == SetBase(old(base2g), path, rs, BaseOf(old(offset2g)[path], rs))
      ensures base5g == SetBase(old(base5g), path, rs, BaseOf(old(offset5g)[path], rs))
    {
      SectionFits(rs);
      var s := RATE_SECTION[rs];
      var baseIdx := if s.size == 10 then s.first + s.size - 3 else s.first + s.size - 1;
      var b2, b5 := offset2g[path][baseIdx], offset5g[path][baseIdx];
      base2g := SetBase(base2g, path, rs, b2);
      base5g := SetBase(base5g, path, rs, b5);
      var n2, n5 := ShiftRates(offset2g[path], offset5g[path], rs, b2, b5);
      offset2g, offset5g := offset2g[path := n2], offset5g[path := n5];
    }

    /** One path, all sections. */
    method ConfigPath(path: nat)
      requires Ok() && path < PATHS
      modifies this`offset2g, this`offset5g, this`base2g, this`base5g
      ensures Ok()
      ensures offset2g == old(offset2g)[path := ShiftSections(old(offset2g)[path], 0, SECTIONS)]
      ensures offset5g == old(offset5g)[path := ShiftSections(old(offset5g)[path], 0, SECTIONS)]
      ensures base2g == old(base2g)[path := BasesOf(old(offset2g)[path])]
      ensures base5g == old(base5g)[path := BasesOf(old(offset5g)[path])]
    {
      ghost var row2, row5, was2, was5 := offset2g[path], offset5g[path], base2g, base5g;
      NoSection(row2);
      NoSection(row5);
      BasesGoOn(row2, was2[path], 0);
      BasesGoOn(row5, was5[path], 0);
      for rs := 0 to SECTIONS
        invariant Ok()
        invariant offset2g == old(offset2g)[path := ShiftSections(row2, 0, rs)]
        invariant offset5g == old(offset5g)[path := ShiftSections(row5, 0, rs)]
        invariant base2g == was2[path := BasesBefore(row2, was2[path], rs)]
        invariant base5g == was5[path := BasesBefore(row5, was5[path], rs)]
      {
        SameBase(row2, rs);
        SameBase(row5, rs);
        NextSection(row2, rs);
        NextSection(row5, rs);
        BasesGoOn(row2, was2[path], rs);
        BasesGoOn(row5, was5[path], rs);
        ConfigByPath(path, rs);
      }
    }

    /** rtw_phy_tx_power_by_rate_config: every path, section and band, each rate shifted once. */
    method ByRateConfig()
      requires Ok()
      modifies this`offset2g, this`offset5g, this`base2g, this`base5g
      ensures Ok()
      ensures offset2g == Normalised(old(offset2g)) && base2g == AllBases(old(offset2g))
      ensures offset5g == Normalised(old(offset5g)) && base5g == AllBases(old(offset5g))
      ensures forall p: nat | p < PATHS :: base2g[p] == SavedBases(old(offset2g)[p]) && base5g[p] == SavedBases(old(offset5g)[p])
    {
      BasesOfAllPaths(offset2g);
      BasesOfAllPaths(offset5g);
      ghost var was2, was5 := offset2g, offset5g;
      NextPath(was2, 0);
      NextPath(was5, 0);
      for path := 0 to PATHS
        invariant Ok()
        invariant offset2g == NormalisedBefore(was2, path) && offset5g == NormalisedBefore(was5, path)
        invariant forall p | 0 <= p < path :: base2g[p] == AllBases(was2)[p] && base5g[p] == AllBases(was5)[p]
      {
        NextPath(was2, path);
        NextPath(was5, path);
        ConfigPath(path);
      }
    }

    /** One channel loop of __rtw_phy_tx_power_limit_config. */
    method LimitChannels(band: nat, base: s8, regd: nat, bw: nat, rs: nat)
      requires TxLimit.Full(limits) && regd < TxLimit.REGD_MAX && bw < TxLimit.WIDTH_MAX && rs < SECTIONS
      requires band == TxLimit.BAND_2G || band == TxLimit.BAND_5G
      modifies this`limits
      ensures limits == RelativeChannels(old(limits), band, base, regd, bw, rs, TxLimit.Channels(band))
    {
      ghost var was := limits;
      for ch := 0 to TxLimit.Channels(band)
        invariant TxLimit.Full(limits) && limits == RelativeChannels(was, band, base, regd, bw, rs, ch)
      {
        var k := TxLimit.Key(band, regd, bw, rs, ch);
        assert TxLimit.KeyOk(k);
        limits := limits[k := Sub(limits[k], base)];
      }
    }

    /** __rtw_phy_tx_power_limit_config: both bands relative to path A's base. */
    method LimitConfigRow(regd: nat, bw: nat, rs: nat)
      requires Ok() && regd < TxLimit.REGD_MAX && bw < TxLimit.WIDTH_MAX && rs < SECTIONS
      modifies this`limits
      ensures Ok() && limits == RelativeRow(old(limits), base2g[0], base5g[0], regd, bw, rs)
    {
      BothBands(limits, base2g[0], base5g[0], regd, bw, rs);
      LimitChannels(TxLimit.BAND_2G, base2g[0][rs], regd, bw, rs);
      LimitChannels(TxLimit.BAND_5G, base5g[0][rs], regd, bw, rs);
    }

    /** rtw_phy_tx_power_limit_config. */
    method LimitConfig()
      requires Ok()
      modifies this`limits
      ensures Ok() && limits == Relative(old(limits), base2g[0], base5g[0])
    {
      ghost var was, b2, b5 := limits, base2g[0], base5g[0];
      RowsEnd(was, b2, b5, 0, 0);
      for regd := 0 to TxLimit.REGD_MAX
        invariant Ok() && limits == RelativeBefore(was, b2, b5, regd, 0, 0)
      {
        LimitDomain(was, regd);
      }
    }

    method LimitDomain(ghost was: TxLimit.Limits, regd: nat)
      requires Ok() && regd < TxLimit.REGD_MAX
      requires limits == RelativeBefore(was, base2g[0], base5g[0], regd, 0, 0)
      modifies this`limits
      ensures Ok() && limits == RelativeBefore(was, base2g[0], base5g[0], regd + 1, 0, 0)
    {
      ghost var b2, b5 := base2g[0], base5g[0];
      for bw := 0 to TxLimit.WIDTH_MAX
        invariant Ok() && limits == RelativeBefore(was, b2, b5, regd, bw, 0)
      {
        LimitSections(was, regd, bw);
      }
      RowsEnd(was, b2, b5, regd, 0);
    }

    /** The innermost loop of rtw_phy_tx_power_limit_config. */
    method LimitSections(ghost was: TxLimit.Limits, regd: nat, bw: nat)
      requires Ok() && regd < TxLimit.REGD_MAX && bw < TxLimit.WIDTH_MAX
      requires limits == RelativeBefore(was, base2g[0], base5g[0], regd, bw, 0)
      modifies this`limits
      ensures Ok() && limits == RelativeBefore(was, base2g[0], base5g[0], regd, bw + 1, 0)
    {
      ghost var b2, b5 := base2g[0], base5g[0];
      for rs := 0 to SECTIONS
        invariant Ok() && limits == RelativeBefore(was, b2, b5, regd, bw, rs)
      {
        NextRow(was, b2, b5, regd, bw, rs);
        LimitConfigRow(regd, bw, rs);
      }
      RowsEnd(was, b2, b5, regd, bw);
    }

    /** The last two steps of rtw_chip_board_info_setup. */
    method Normalise()
      requires Ok()
      modifies this
      ensures Ok()
      ensures offset2g == Normalised(old(offset2g)) && offset5g == Normalised(old(offset5g))
      ensures limits == RelativeLimits(old(offset2g), old(offset5g), old(limits))
    {
      ByRateConfig();
      LimitConfig();
    }
  }

  // ---------------------------------------------------------------- the smaller of offset and limit

  /** All limits after normalisation, given offsets and limits before. */
  function RelativeLimits(o2: seq<seq<s8>>, o5: seq<seq<s8>>, m: TxLimit.Limits): (n: TxLimit.Limits)
    requires Offsets(o2) && Offsets(o5)
    ensures n.Keys == m.Keys
  {
    Relative(m, AllBases(o2)[0], AllBases(o5)[0])
  }

  /** The offsets of a band. */
  function BandOffsets(o2: seq<seq<s8>>, o5: seq<seq<s8>>, band: nat): seq<seq<s8>>
  {
    if band == TxLimit.BAND_2G then o2 else o5
  }

  predicate Overflows(x: int) { !(-0x80 <= x < 0x80) }

  predicate SixBit(x: int) { -0x3f <= x <= 0x3f }

  /** A rate and a limit cell of its section, in arrays before normalisation. */
  ghost predicate Pair(o2: seq<seq<s8>>, o5: seq<seq<s8>>, m: TxLimit.Limits, k: TxLimit.Key, rate: nat)
  {
    Offsets(o2) && Offsets(o5) && TxLimit.KeyOk(k) && k in m && rate < RATES && k.rs == RateToSection(rate)
  }

  lemma NormalisedPair(o2: seq<seq<s8>>, o5: seq<seq<s8>>, m: TxLimit.Limits, k: TxLimit.Key,
                                          path: nat, rate: nat)
    requires Pair(o2, o5, m, k, rate) && path < PATHS
    ensures var o := BandOffsets(o2, o5, k.band);
            && Normalised(o)[path][rate] == Sub(o[path][rate], BaseOf(o[path], k.rs))
            && RelativeLimits(o2, o5, m)[k] == Sub(m[k], BaseOf(o[0], k.rs))
  {
  }

  /**
    Path A, end to end: for every rate and every limit cell of its section, the smaller of the two is the
    same power before and after normalisation, iff their two subtractions overflow together or not at all.
   */
  lemma PathAPreservedIff(o2: seq<seq<s8>>, o5: seq<seq<s8>>, m: TxLimit.Limits, k: TxLimit.Key, rate: nat)
    requires Pair(o2, o5, m, k, rate) && -0x80 <= m[k] < 0x80
    ensures var o := BandOffsets(o2, o5, k.band)[0];
            var base := BaseOf(o, k.rs);
            (Min(Normalised(BandOffsets(o2, o5, k.band))[0][rate], RelativeLimits(o2, o5, m)[k])
               == Sub(Min(o[rate], m[k]), base)
             <==> (Overflows(o[rate] - base) <==> Overflows(m[k] - base)))
  {
    var o := BandOffsets(o2, o5, k.band)[0];
    NormalisedPair(o2, o5, m, k, 0, rate);
    MinimumPreservedIff(o[rate], m[k], BaseOf(o, k.rs));
  }

  lemma MinimumPreservedIff(offset: s8, limit: s8, base: s8)
    ensures Min(Sub(offset, base), Sub(limit, base)) == Sub(Min(offset, limit), base)
       <==> (Overflows(offset - base) <==> Overflows(limit - base))
  {
  }

  /** Six-bit power indices never overflow: path A always keeps the minimum. */
  lemma PathAKeepsPowerIndices(o2: seq<seq<s8>>, o5: seq<seq<s8>>, m: TxLimit.Limits, k: TxLimit.Key, rate: nat)
    requires Pair(o2, o5, m, k, rate) && SixBit(m[k])
    requires forall r | 0 <= r < RATES :: SixBit(BandOffsets(o2, o5, k.band)[0][r])
    ensures var o := BandOffsets(o2, o5, k.band)[0];
            Min(Normalised(BandOffsets(o2, o5, k.band))[0][rate], RelativeLimits(o2, o5, m)[k]) + BaseOf(o, k.rs)
            == Min(o[rate], m[k])
  {
    var o := BandOffsets(o2, o5, k.band)[0];
    NormalisedPair(o2, o5, m, k, 0, rate);
    SectionFits(k.rs);
    assert SixBit(BaseOf(o, k.rs)) && SixBit(o[rate]);
  }

  /**
    Other paths, end to end: limits are relative to path A's base, offsets to the path's own. The smaller of
    the two then means the same power iff an offset that was not above the limit still is not, or, for a
    lower limit, the bases agree and the limit is still not above the offset.
   */
  lemma OtherPathPreservedIff(o2: seq<seq<s8>>, o5: seq<seq<s8>>, m: TxLimit.Limits, k: TxLimit.Key,
                                                 path: nat, rate: nat)
    requires Pair(o2, o5, m, k, rate) && path < PATHS && -0x80 <= m[k] < 0x80
    ensures var o := BandOffsets(o2, o5, k.band);
            var (base, baseA, offset, limit) := (BaseOf(o[path], k.rs), BaseOf(o[0], k.rs), o[path][rate], m[k]);
            (Min(Normalised(o)[path][rate], RelativeLimits(o2, o5, m)[k]) == Sub(Min(offset, limit), base)
             <==> if offset <= limit then Sub(offset, base) <= Sub(limit, baseA)
                  else base == baseA && Sub(limit, base) <= Sub(offset, base))
  {
    var o := BandOffsets(o2, o5, k.band);
    NormalisedPair(o2, o5, m, k, path, rate);
    OtherMinimumIff(o[path][rate], m[k], BaseOf(o[0], k.rs), BaseOf(o[path], k.rs));
  }

  lemma OtherMinimumIff(offset: s8, limit: s8, baseA: s8, base: s8)
    ensures Min(Sub(offset, base), Sub(limit, baseA)) == Sub(Min(offset, limit), base)
       <==> if offset <= limit then Sub(offset, base) <= Sub(limit, baseA)
            else base == baseA && Sub(limit, base) <= Sub(offset, base)
  {
  }

  /** For six-bit indices: iff the bases agree, or the offset is the smaller one either way. */
  lemma OtherPathPowerIndicesIff(o2: seq<seq<s8>>, o5: seq<seq<s8>>, m: TxLimit.Limits, k: TxLimit.Key,
                                 path: nat, rate: nat)
    requires Pair(o2, o5, m, k, rate) && path < PATHS && SixBit(m[k])
    requires forall p, r | 0 <= p < PATHS && 0 <= r < RATES :: SixBit(BandOffsets(o2, o5, k.band)[p][r])
    ensures var o := BandOffsets(o2, o5, k.band);
            var base: int, baseA: int, offset: int := BaseOf(o[path], k.rs), BaseOf(o[0], k.rs), o[path][rate];
            (Min(Normalised(o)[path][rate], RelativeLimits(o2, o5, m)[k]) + base == Min(offset, m[k])
             <==> baseA == base || (offset <= m[k] && offset - base <= m[k] - baseA))
  {
    var o := BandOffsets(o2, o5, k.band);
    NormalisedPair(o2, o5, m, k, path, rate);
    SectionFits(k.rs);
    assert SixBit(BaseOf(o[path], k.rs)) && SixBit(BaseOf(o[0], k.rs)) && SixBit(o[path][rate]);
  }

  /** Such arrays: OFDM limits of 15, path A at 20 throughout, path B with 10 for the base rate. Path B's
      first OFDM rate then gets 5 instead of 15. */
  function PathA(): (row: seq<s8>) { seq(RATES, _ => 20) }
  function PathB(): (row: seq<s8>) { seq(RATES, r => if r == 0x0b then 10 else 20) }

  lemma OtherPathLoses(o5: seq<seq<s8>>, m: TxLimit.Limits, k: TxLimit.Key)
    requires Offsets(o5) && k == TxLimit.Key(TxLimit.BAND_2G, 0, 0, 1, 0) && k in m && m[k] == 15
    ensures var o2 := [PathA(), PathB(), PathA(), PathA()];
            && Pair(o2, o5, m, k, 4) && BaseOf(o2[1], 1) == 10
            && Min(Normalised(o2)[1][4], RelativeLimits(o2, o5, m)[k]) + 10 == 5 && Min(o2[1][4], m[k]) == 15
  {
    var o2 := [PathA(), PathB(), PathA(), PathA()];
    assert BaseRate(1) == 0x0b && BaseOf(o2[1], 1) == 10 && BaseOf(o2[0], 1) == 20;
    NormalisedPair(o2, o5, m, k, 1, 4);
  }

  // ---------------------------------------------------------------- selecting a limit

  /** What limits are looked up for: band, domain, section, and the centre channel of each bandwidth. */
  datatype Selection = Selection(band: nat, regd: nat, rs: nat, cch: seq<nat>)

  predicate SelectionOk(s: Selection) { s.regd <= REGD_WW && s.rs < SECTIONS && |s.cch| == TxLimit.WIDTH_MAX }

  /** The cell of a bandwidth, if its centre channel is a known one. */
  function CellAt(s: Selection, w: nat): (k: TxLimit.Option<TxLimit.Key>)
    requires SelectionOk(s) && w < TxLimit.WIDTH_MAX
    ensures k.Some? ==> TxLimit.KeyOk(k.value) && k.value.band == s.band && k.value.rs == s.rs
  {
    match TxLimit.ChannelToIdx(s.band, s.cch[w])
    case None => TxLimit.None
    case Some(idx) => TxLimit.Some(TxLimit.Key(s.band, s.regd, w, s.rs, idx))
  }

  predicate AllKnown(s: Selection, bw: nat)
    requires SelectionOk(s) && bw < TxLimit.WIDTH_MAX
  {
    forall w | 0 <= w <= bw :: CellAt(s, w).Some?
  }

  /** CCK and OFDM use 20 MHz limits only, HT at most 40 MHz ones. */
  function EffectiveWidth(rate: nat, bw: nat): nat
  {
    if RateToSection(rate) <= 1 then 0 else if rate <= 0x2b then Min(bw, 1) else bw
  }

  /** The least of the limits for 20 MHz up to `bw` and the maximum power index. */
  function LeastLimit(m: TxLimit.Limits, s: Selection, bw: nat, maxPowerIndex: int): (v: int)
    requires TxLimit.Full(m) && SelectionOk(s) && bw < TxLimit.WIDTH_MAX && AllKnown(s, bw)
    ensures v <= maxPowerIndex && forall w | 0 <= w <= bw :: v <= m[CellAt(s, w).value]
    ensures v == maxPowerIndex || exists w | 0 <= w <= bw :: v == m[CellAt(s, w).value]
  {
    Min(m[CellAt(s, bw).value], if bw == 0 then maxPowerIndex else LeastLimit(m, s, bw - 1, maxPowerIndex))
  }

  /** Up to 14 only 2 GHz channels are known ones, above only 5 GHz channels. */
  lemma KnownChannelBand(band: nat, channel: nat)
    requires TxLimit.ChannelToIdx(band, channel).Some?
    ensures channel <= TxLimit.CHANNELS_2G <==> band == TxLimit.BAND_2G
  {
    if band == TxLimit.BAND_5G {
      var idx := TxLimit.ChannelToIdx(band, channel).value;
      assert TxLimit.IndexFrom(TxLimit.CHANNEL_IDX_5G, channel, 0) == TxLimit.Some(idx);
      assert TxLimit.CHANNEL_IDX_5G[idx] == channel;
    }
  }

  method LookupWidth(rate: nat, bw: nat) returns (width: nat)
    requires rate < RATES
    ensures width == EffectiveWidth(rate, bw)
  {
    var rs := RateToSection(rate);
    width := bw;
    if rs <= 1 {
      width := 0;
    }
    if 0x0c <= rate <= 0x2b {
      width := if width <= 1 then width else 1;
    }
  }

  /** By rate number: 20 MHz for CCK and OFDM, up to 40 MHz for HT, the channel's own width for VHT. */
  lemma WidthByNumber(rate: nat, bw: nat)
    ensures rate <= 0x0b ==> EffectiveWidth(rate, bw) == 0
    ensures 0x0c <= rate <= 0x2b && bw >= 1 ==> EffectiveWidth(rate, bw) == 1
    ensures 0x2c <= rate <= 0x53 || (rate >= 0x0c && bw == 0) ==> EffectiveWidth(rate, bw) == bw
  {
  }

  /** The cell looked at for one bandwidth. */
  method LookUp(m: TxLimit.Limits, s: Selection, w: nat) returns (limit: TxLimit.Option<int>)
    requires TxLimit.Full(m) && SelectionOk(s) && w < TxLimit.WIDTH_MAX
    ensures limit == match CellAt(s, w) case None => TxLimit.None case Some(k) => TxLimit.Some(m[k])
  {
    var idx := TxLimit.ChannelToIdx(s.band, s.cch[w]);
    if idx.None? {
      return TxLimit.None;
    }
    KnownChannelBand(s.band, s.cch[w]);
    var from := if s.cch[w] <= TxLimit.CHANNELS_2G then TxLimit.BAND_2G else TxLimit.BAND_5G;
    var k := TxLimit.Key(from, s.regd, w, s.rs, idx.value);
    assert CellAt(s, w) == TxLimit.Some(k);
    return TxLimit.Some(m[k]);
  }

  /** The loop over the bandwidths. */
  method SelectLimit(m: TxLimit.Limits, s: Selection, width: nat, maxPowerIndex: int) returns (power: int)
    requires TxLimit.Full(m) && SelectionOk(s) && width < TxLimit.WIDTH_MAX
    ensures power == if AllKnown(s, width) then LeastLimit(m, s, width, maxPowerIndex) else maxPowerIndex
  {
    power := maxPowerIndex;
    for w := 0 to width + 1
      invariant forall v | 0 <= v < w :: CellAt(s, v).Some?
      invariant power == if w == 0 then maxPowerIndex else LeastLimit(m, s, w - 1, maxPowerIndex)
    {
      var limit := LookUp(m, s, w);
      if limit.None? {
        assert CellAt(s, w).None?;
        return maxPowerIndex;
      }
      power := Min(limit.value, power);
    }
  }

  /** rtw_phy_get_tx_power_limit; an unknown domain, rate or channel gives the maximum power index. */
  method GetTxPowerLimit(m: TxLimit.Limits, band: nat, bw: nat, cch: seq<nat>, rate: nat, regd: nat, maxPowerIndex: int)
    returns (power: int)
    requires TxLimit.Full(m) && bw < TxLimit.WIDTH_MAX == |cch|
    ensures var (s, width) := (Selection(band, regd, RateToSection(rate), cch), EffectiveWidth(rate, bw));
            power == if SelectionOk(s) && AllKnown(s, width) then LeastLimit(m, s, width, maxPowerIndex)
                     else maxPowerIndex
    ensures regd <= 12 && 0x04 <= rate <= 0x0b && band == 0 && 1 <= cch[0] <= 14 ==>
              power == Min(m[TxLimit.Key(0, regd, 0, 1, cch[0] - 1)], maxPowerIndex)
  {
    power := maxPowerIndex;
    var rs := RateToSection(rate);
    if regd > REGD_WW {
      return;
    }
    if rs == SECTIONS {
      return;
    }
    SectionsPartition(0, rate);
    var width := LookupWidth(rate, bw);
    power := SelectLimit(m, Selection(band, regd, rs, cch), width, maxPowerIndex);
  }

  /** Selecting among limits that are all lower by `base`, with a cap lower by as much. */
  lemma {:induction false} SelectionCommutes(m: TxLimit.Limits, n: TxLimit.Limits, s: Selection, bw: nat, cap: int, base: int)
    requires TxLimit.Full(m) && TxLimit.Full(n) && SelectionOk(s) && bw < TxLimit.WIDTH_MAX && AllKnown(s, bw)
    requires forall w | 0 <= w <= bw :: n[CellAt(s, w).value] == m[CellAt(s, w).value] - base
    ensures LeastLimit(n, s, bw, cap - base) == LeastLimit(m, s, bw, cap) - base
  {
    if bw > 0 {
      SelectionCommutes(m, n, s, bw - 1, cap, base);
    }
  }

  lemma {:induction false} CapOnly(n: TxLimit.Limits, s: Selection, bw: nat, cap: int, cap2: int)
    requires TxLimit.Full(n) && SelectionOk(s) && bw < TxLimit.WIDTH_MAX && AllKnown(s, bw)
    requires forall w | 0 <= w <= bw :: n[CellAt(s, w).value] <= cap2
    ensures LeastLimit(n, s, bw, cap) == Min(LeastLimit(n, s, bw, cap2), cap)
  {
    if bw > 0 {
      CapOnly(n, s, bw - 1, cap, cap2);
    }
  }

  /** Path A's base of a selection. */
  function SelectionBase(o2: seq<seq<s8>>, o5: seq<seq<s8>>, s: Selection): int
    requires Offsets(o2) && Offsets(o5) && SelectionOk(s)
  {
    BaseOf(BandOffsets(o2, o5, s.band)[0], s.rs)
  }

  /** Six-bit limits up to the cap, as loading leaves them, and a six-bit base. */
  predicate SixBitSelection(o2: seq<seq<s8>>, o5: seq<seq<s8>>, m: TxLimit.Limits, s: Selection, bw: nat, cap: int)
    requires TxLimit.Full(m) && Offsets(o2) && Offsets(o5) && SelectionOk(s) && bw < TxLimit.WIDTH_MAX && AllKnown(s, bw)
  {
    && SixBit(SelectionBase(o2, o5, s))
    && forall w | 0 <= w <= bw :: SixBit(m[CellAt(s, w).value]) && m[CellAt(s, w).value] <= cap
  }

  lemma RelativeCell(o2: seq<seq<s8>>, o5: seq<seq<s8>>, m: TxLimit.Limits, s: Selection, w: nat)
    requires TxLimit.Full(m) && Offsets(o2) && Offsets(o5) && SelectionOk(s) && w < TxLimit.WIDTH_MAX
    requires CellAt(s, w).Some? && SixBit(m[CellAt(s, w).value]) && SixBit(SelectionBase(o2, o5, s))
    ensures RelativeLimits(o2, o5, m)[CellAt(s, w).value] == m[CellAt(s, w).value] - SelectionBase(o2, o5, s)
  {
  }

  /**
    The driver does not make the cap relative to the base: a relative limit above the cap is cut off. The
    limit selected from the normalised limits still means the same power iff the least limit is at most base
    plus cap; which a base that is not negative guarantees.
   */
  lemma CapNotRelativeIff(o2: seq<seq<s8>>, o5: seq<seq<s8>>, m: TxLimit.Limits, s: Selection, bw: nat, cap: int)
    requires TxLimit.Full(m) && Offsets(o2) && Offsets(o5) && SelectionOk(s) && bw < TxLimit.WIDTH_MAX && AllKnown(s, bw)
    requires SixBitSelection(o2, o5, m, s, bw, cap)
    ensures var (base, n) := (SelectionBase(o2, o5, s), RelativeLimits(o2, o5, m));
            && (LeastLimit(n, s, bw, cap) + base == LeastLimit(m, s, bw, cap)
                <==> LeastLimit(m, s, bw, cap) <= cap + base)
            && (base >= 0 ==> LeastLimit(n, s, bw, cap) + base == LeastLimit(m, s, bw, cap))
  {
    var (base, n) := (SelectionBase(o2, o5, s), RelativeLimits(o2, o5, m));
    forall w | 0 <= w <= bw ensures n[CellAt(s, w).value] == m[CellAt(s, w).value] - base {
      RelativeCell(o2, o5, m, s, w);
    }
    SelectionCommutes(m, n, s, bw, cap, base);
    CapOnly(n, s, bw, cap, cap - base);
  }

  /** Arrays for which it fails: limits as initialised, nothing loaded, and all offsets at -1. The power
      selected on channel 1 is 62 instead of 63. */
  lemma CapCuts(m: TxLimit.Limits, row: seq<s8>)
    requires TxLimit.Initialised(m, 63) && row == seq(RATES, _ => -1)
    ensures var (o, s) := ([row, row, row, row], Selection(TxLimit.BAND_2G, 0, 1, [1, 0, 0]));
            && Offsets(o) && AllKnown(s, 0) && SelectionBase(o, o, s) == -1
            && LeastLimit(RelativeLimits(o, o, m), s, 0, 63) - 1 == 62 && LeastLimit(m, s, 0, 63) == 63
  {
    var (o, s) := ([row, row, row, row], Selection(TxLimit.BAND_2G, 0, 1, [1, 0, 0]));
    assert CellAt(s, 0) == TxLimit.Some(TxLimit.Key(TxLimit.BAND_2G, 0, 0, 1, 0));
    RelativeCell(o, o, m, s, 0);
  }

  /** bcd2bin of one byte of a by-rate table. */
  function Bcd(b: nat): nat { b % 16 + b / 16 * 10 }

  /** Tables in valid BCD, as the 8812A has them, hold no negative base: two digits are read as a number up to
      99. */
  lemma BcdIsNotNegative(tens: nat, ones: nat)
    requires tens <= 9 && ones <= 9
    ensures Wrap(Bcd(tens * 16 + ones)) == tens * 10 + ones <= 99
  {
  }
}
