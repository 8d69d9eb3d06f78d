/**
  The dynamic initial gain loop (phy.c): every watchdog tick the receiver's initial gain follows the
  false-alarm count within bounds derived from the weakest peer, and is recorded in a short history.
  Oscillation seen in the history suspends the loop for a while (damping).

  Bytes are naturals below 256 and byte arithmetic wraps explicitly.
 */
module Dig {

  const PERF_MAX := 0x5a
  const PERF_MID := 0x40
  const CVRG_MAX := 0x2a
  const CVRG_MID := 0x26
  const CVRG_MIN := 0x1c
  const RSSI_GAIN_OFFSET := 15
  const PERF_FA_LOW := 250
  const PERF_FA_HIGH := 500
  const PERF_FA_EXTRA_HIGH := 750

  /** Chip constants: the lowest gain, and whether beacon loss overrides the gain (8812A, 8814A); and which
      bound the kernel's clamp_t looks at first, which matters when bounds cross. */
  datatype Chip = Chip(digMin: nat, beaconLossFix: bool, upperFirst: bool)

  predicate ChipOk(c: Chip) { 2 <= c.digMin <= 0x40 }

  /** What a tick sees: the two RSSI minima, the 32-bit false-alarm count and the link state. */
  datatype Tick = Tick(disabled: bool, linked: bool, minRssi: nat, preMinRssi: nat, totalFa: nat, beaconLoss: bool)

  predicate TickOk(t: Tick) { t.minRssi < 0x100 && t.preMinRssi < 0x100 && t.totalFa < 0x1_0000_0000 }

  /** The loop's state; `recorded` counts the gains recorded so far, `hw` is the gain register. */
  datatype State = State(igi: seq<nat>, fa: seq<nat>, bitmap: nat,
                         damping: bool, cnt: nat, dampingRssi: nat, hw: nat, recorded: nat)

  predicate StateOk(s: State)
  {
    |s.igi| == |s.fa| == 4 && (forall i | 0 <= i < 4 :: s.igi[i] < 0x100 && s.fa[i] < 0x1_0000)
    && s.bitmap < 0x100 && s.cnt < 0x100 && s.dampingRssi < 0x100 && s.hw < 0x100
  }

  function Min(a: nat, b: nat): nat { if a <= b then a else b }
  function Max(a: nat, b: nat): nat { if a >= b then a else b }

  /** clamp_t(u8, x, lo, hi), in older kernels and in newer ones. */
  function Clamp(c: Chip, x: nat, lo: nat, hi: nat): (r: nat)
    ensures lo <= hi ==> r == Min(Max(x, lo), hi)
    ensures lo > hi ==> r == lo || r == hi
  {
    if !c.upperFirst then Min(Max(x, lo), hi) else if x >= hi then hi else if x <= lo then lo else x
  }

  function Distance(a: nat, b: nat): nat { if a > b then a - b else b - a }

  // ---------------------------------------------------------------- damping

  /** The two oscillation patterns that start a damping episode. */
  predicate Oscillates(s: State)
    requires StateOk(s)
  {
    var (g, f) := (s.igi, s.fa);
    if s.bitmap % 16 == 5 then
      g[0] > g[1] && g[2] > g[3] && g[0] - g[1] >= 2 && g[2] - g[3] >= 2
      && f[0] > PERF_FA_HIGH && f[1] < PERF_FA_LOW && f[2] > PERF_FA_HIGH && f[3] < PERF_FA_LOW
    else if s.bitmap % 16 == 9 then
      g[0] > g[1] && g[3] > g[2] && g[0] - g[1] >= 4 && g[3] - g[2] >= 2
      && f[0] > PERF_FA_HIGH && f[1] < PERF_FA_LOW && f[2] < PERF_FA_LOW && f[3] > PERF_FA_HIGH
    else false
  }

  /** rtw_phy_dig_check_damping: whether this tick is suppressed, and the state after the check. */
  function CheckDamping(s: State, minRssi: nat): (r: (bool, State))
    requires StateOk(s) && minRssi < 0x100
    ensures StateOk(r.1)
    ensures r.1 == s.(damping := r.1.damping, cnt := r.1.cnt, dampingRssi := r.1.dampingRssi)
  {
    if s.damping then
      if Distance(minRssi, s.dampingRssi) > 3 then (false, s.(damping := false))
      else if s.cnt > 20 then (false, s.(damping := false, cnt := (s.cnt + 1) % 0x100))
      else (true, s.(cnt := (s.cnt + 1) % 0x100))
    else if Oscillates(s) then (true, s.(damping := true, cnt := 0, dampingRssi := minRssi))
    else (false, s)
  }

  // ---------------------------------------------------------------- the next gain

  /** rtw_phy_dig_get_boundary: lower and upper bound. */
  function Boundary(c: Chip, t: Tick): (nat, nat)
  {
    var (digMax, digMid, digMin) :=
      if t.linked then (PERF_MAX, PERF_MID, c.digMin) else (CVRG_MAX, CVRG_MID, CVRG_MIN);
    var minRssi := if t.linked then Max(t.minRssi, digMin) else digMin;
    var capped := Min(digMax, (minRssi + RSSI_GAIN_OFFSET) % 0x100);
    var lower := Clamp(c, minRssi, digMin, digMid);
    (lower, Clamp(c, (lower + RSSI_GAIN_OFFSET) % 0x100, digMin, capped))
  }

  function Thresholds(linked: bool): seq<nat>
  {
    if linked then [PERF_FA_EXTRA_HIGH, PERF_FA_HIGH, PERF_FA_LOW] else [5000, 4000, 2000]
  }

  function Steps(t: Tick): seq<nat>
  {
    if t.linked && t.preMinRssi > t.minRssi then [6, 4, 2] else [4, 3, 2]
  }

  /** The step of the highest threshold exceeded, 0 if none is. */
  function StepFor(fa: nat, t: Tick): nat
  {
    var (th, st) := (Thresholds(t.linked), Steps(t));
    if fa > th[0] then st[0] else if fa > th[1] then st[1] else if fa > th[2] then st[2] else 0
  }

  /** The false-alarm count is kept in 16 bits. */
  function Fa16(t: Tick): nat { t.totalFa % 0x1_0000 }

  function NextGain(c: Chip, t: Tick, pre: nat): nat
  {
    var (lower, upper) := Boundary(c, t);
    Clamp(c, (pre + StepFor(Fa16(t), t) + 0x100 - 2) % 0x100, lower, upper)
  }

  /** rtw_phy_dig_recorder. */
  function Record(s: State, igi: nat, fa: nat): State
    requires StateOk(s)
  {
    s.(igi := [igi, s.igi[0], s.igi[1], s.igi[2]], fa := [fa, s.fa[0], s.fa[1], s.fa[2]],
       bitmap := s.bitmap * 2 % 0x100 + (if igi > s.igi[0] then 1 else 0), recorded := s.recorded + 1)
  }

  /** The beacon-loss override: what is written is not what is recorded. */
  predicate Fires(c: Chip, t: Tick) { c.beaconLossFix && t.beaconLoss && t.linked && t.totalFa < PERF_FA_EXTRA_HIGH }

  /** The gain written to the hardware: beacon loss overrides what was recorded. */
  function WrittenGain(c: Chip, t: Tick, gain: nat): nat
  {
    if Fires(c, t) then CVRG_MIN else gain
  }

  /** rtw_phy_dig. */
  function Dig(c: Chip, s: State, t: Tick): (r: State)
    requires ChipOk(c) && StateOk(s) && TickOk(t)
    ensures StateOk(r)
  {
    if t.disabled then s
    else
      var (suppressed, s1) := CheckDamping(s, t.minRssi);
      if suppressed then s1
      else
        var gain := NextGain(c, t, s1.igi[0]);
        var w := WrittenGain(c, t, gain);
        Record(s1, gain, Fa16(t)).(hw := if w != s1.igi[0] then w else s1.hw)
  }

  function Run(c: Chip, s: State, ts: seq<Tick>): (r: State)
    requires ChipOk(c) && StateOk(s) && forall i | 0 <= i < |ts| :: TickOk(ts[i])
    ensures StateOk(r)
    decreases |ts|
  {
    if ts == [] then s else Run(c, Dig(c, s, ts[0]), ts[1..])
  }

  // ---------------------------------------------------------------- bounds

  /** The bounds are in order exactly when the RSSI minimum plus its margin still fits a byte. */
  lemma BoundsOrderedIff(c: Chip, t: Tick)
    requires ChipOk(c) && TickOk(t)
    ensures Boundary(c, t).0 <= Boundary(c, t).1 <==> (!t.linked || t.minRssi <= 240)
  {
  }

  /** rtw_phy_stat_rssi: the least of the averages of the stations iterated over, 255 if there is none. */
  function MinRssi(averages: seq<nat>): nat
  {
    if averages == [] then 0xff else Min(averages[|averages| - 1], MinRssi(averages[..|averages| - 1]))
  }

  predicate Averages(averages: seq<nat>, max: nat) { forall i | 0 <= i < |averages| :: averages[i] <= max }

  lemma {:induction false} MinRssiIsLeast(averages: seq<nat>)
    ensures var m := MinRssi(averages);
            && m <= 0xff && (forall i | 0 <= i < |averages| :: m <= averages[i])
            && (m == 0xff || exists i | 0 <= i < |averages| :: m == averages[i])
  {
    if averages != [] {
      var front := averages[..|averages| - 1];
      MinRssiIsLeast(front);
      assert forall i | 0 <= i < |front| :: averages[i] == front[i];
      if MinRssi(averages) != averages[|averages| - 1] && MinRssi(averages) != 0xff {
        var i :| 0 <= i < |front| && MinRssi(front) == front[i];
        assert averages[i] == MinRssi(averages);
      }
    }
  }

  /**
    Averages of received packets are at most 100, and a station that was not heard yet has average 0.
    The bounds then cross if and only if stations are counted but none is iterated over: the stack does
    not iterate over a new one yet, or collecting them ran out of memory.
   */
  lemma BoundsCrossIff(c: Chip, t: Tick, averages: seq<nat>)
    requires ChipOk(c) && TickOk(t) && Averages(averages, 100) && t.minRssi == MinRssi(averages)
    ensures Boundary(c, t).0 > Boundary(c, t).1 <==> t.linked && averages == []
  {
    BoundsOrderedIff(c, t);
    MinRssiIsLeast(averages);
    if averages != [] {
      assert MinRssi(averages) <= averages[0] <= 100;
    }
  }

  /** A station counted and not iterated over: the bounds cross, and one of them is recorded. An older
      clamp_t takes the upper one; a newer one the lower one for what is below both. */
  lemma UniteratedStationCrosses(c: Chip, t: Tick, pre: nat)
    requires ChipOk(c) && t.linked && t.minRssi == MinRssi([])
    ensures Boundary(c, t) == (0x40, 14)
    ensures NextGain(c, t, pre) == if c.upperFirst && (pre + StepFor(Fa16(t), t) + 0x100 - 2) % 0x100 < 14 then 0x40 else 14
  {
  }

  /** A station not heard yet: the lowest bounds of the chip. */
  lemma UnheardStationLowers(c: Chip, t: Tick, pre: nat)
    requires ChipOk(c) && t.linked && t.minRssi == MinRssi([0])
    ensures Boundary(c, t) == (c.digMin, c.digMin + 15) && c.digMin <= NextGain(c, t, pre) <= c.digMin + 15
  {
    assert [0][..0] == [];
  }

  predicate Ordered(t: Tick) { !t.linked || t.minRssi <= 240 }

  /** The gain computed lies between the bounds, at least 2 and at most 0x5a; when they cross it is one of
      them. */
  lemma GainInBounds(c: Chip, t: Tick, pre: nat)
    requires ChipOk(c) && TickOk(t)
    ensures Within(c, t, NextGain(c, t, pre)) && NextGain(c, t, pre) <= PERF_MAX
    ensures Ordered(t) ==> 2 <= NextGain(c, t, pre)
  {
    BoundsOrderedIff(c, t);
  }

  /** The tick's weakest station, crossed bounds or not, leaves a usable upper bound. */
  predicate Usable(t: Tick) { !(t.linked && (t.minRssi == 241 || t.minRssi == 242)) }

  /** A tick's gain is usable from whatever gain before, iff the RSSI minimum is not one of two values. */
  lemma GainUsableIff(c: Chip, t: Tick)
    requires ChipOk(c) && TickOk(t)
    ensures (forall pre: nat | pre < 0x100 :: 2 <= NextGain(c, t, pre) <= PERF_MAX) <==> Usable(t)
  {
    if Usable(t) {
      forall pre: nat | pre < 0x100 ensures 2 <= NextGain(c, t, pre) <= PERF_MAX {
        GainUsable(c, t, pre);
      }
    } else {
      assert NextGain(c, t, 3) < 2 by { SmallUpperBound(c, t, 3); }
    }
  }

  lemma GainUsable(c: Chip, t: Tick, pre: nat)
    requires ChipOk(c) && TickOk(t) && Usable(t)
    ensures 2 <= NextGain(c, t, pre) <= PERF_MAX
  {
    GainInBounds(c, t, pre);
    if !Ordered(t) {
      SmallUpperBound(c, t, pre);
    }
  }

  /** Crossed bounds: the upper one is what is left of the RSSI minimum plus its margin in a byte. */
  lemma SmallUpperBound(c: Chip, t: Tick, pre: nat)
    requires ChipOk(c) && TickOk(t) && !Ordered(t)
    ensures Boundary(c, t) == (0x40, t.minRssi - 241)
    ensures pre == 3 && t.minRssi <= 242 ==> NextGain(c, t, pre) == t.minRssi - 241
  {
  }

  /** Averages up to 100 give usable ticks, also when no station is iterated over. */
  lemma StationsAreUsable(t: Tick, averages: seq<nat>)
    requires Averages(averages, 100) && t.minRssi == MinRssi(averages)
    ensures Usable(t)
  {
    MinRssiIsLeast(averages);
  }

  /** The byte arithmetic before clamping wraps for no previous gain from 2 to 0x5a. */
  lemma GainDoesNotWrap(c: Chip, t: Tick, pre: nat)
    requires ChipOk(c) && TickOk(t) && 2 <= pre <= PERF_MAX
    ensures NextGain(c, t, pre) == Clamp(c, pre + StepFor(Fa16(t), t) - 2, Boundary(c, t).0, Boundary(c, t).1)
  {
  }

  /** The gain before it is cut to the bounds. */
  ghost predicate Unclamped(c: Chip, t: Tick, x: int) { Boundary(c, t).0 <= x <= Boundary(c, t).1 }

  /**
    By how much the gain moves where the bounds do not bite. Linked: by the false-alarm count above 750, 500
    or 250, and more when the weakest station got weaker; otherwise down by 2.
   */
  lemma LinkedSteps(c: Chip, t: Tick, pre: nat)
    requires ChipOk(c) && TickOk(t) && t.linked && 2 <= pre <= 0x5a
    ensures var (fa, fell) := (t.totalFa % 0x1_0000, t.preMinRssi > t.minRssi);
            && (fa > 750 && fell && Unclamped(c, t, pre + 4) ==> NextGain(c, t, pre) == pre + 4)
            && (fa > 750 && !fell && Unclamped(c, t, pre + 2) ==> NextGain(c, t, pre) == pre + 2)
            && (500 < fa <= 750 && fell && Unclamped(c, t, pre + 2) ==> NextGain(c, t, pre) == pre + 2)
            && (500 < fa <= 750 && !fell && Unclamped(c, t, pre + 1) ==> NextGain(c, t, pre) == pre + 1)
            && (250 < fa <= 500 && Unclamped(c, t, pre) ==> NextGain(c, t, pre) == pre)
            && (fa <= 250 && Unclamped(c, t, pre - 2) ==> NextGain(c, t, pre) == pre - 2)
  {
  }

  /** Not linked: the levels are 5000, 4000 and 2000, and RSSI does not matter. */
  lemma UnlinkedSteps(c: Chip, t: Tick, pre: nat)
    requires ChipOk(c) && TickOk(t) && !t.linked && 2 <= pre <= 0x5a
    ensures var fa := t.totalFa % 0x1_0000;
            && (fa > 5000 && Unclamped(c, t, pre + 2) ==> NextGain(c, t, pre) == pre + 2)
            && (4000 < fa <= 5000 && Unclamped(c, t, pre + 1) ==> NextGain(c, t, pre) == pre + 1)
            && (2000 < fa <= 4000 && Unclamped(c, t, pre) ==> NextGain(c, t, pre) == pre)
            && (fa <= 2000 && Unclamped(c, t, pre - 2) ==> NextGain(c, t, pre) == pre - 2)
  {
  }

  /** The bounds in numbers: from the weakest station's RSSI, at least the chip's lowest gain and at most 0x40,
      up to 15 above; not linked, 0x1c to 0x2a. */
  lemma BoundsByNumber(c: Chip, t: Tick)
    requires ChipOk(c) && TickOk(t) && Ordered(t)
    ensures t.linked ==>
              var low := if t.minRssi < c.digMin then c.digMin else if t.minRssi > 0x40 then 0x40 else t.minRssi;
              Boundary(c, t) == (low, low + 15)
    ensures !t.linked ==> Boundary(c, t) == (0x1c, 0x2a)
  {
  }

  /** A larger false-alarm count never gives a lower gain. */
  lemma MoreAlarmsMoreGain(c: Chip, t: Tick, u: Tick, pre: nat)
    requires ChipOk(c) && TickOk(t) && TickOk(u) && Ordered(t) && 2 <= pre <= 0x5a
    requires u == t.(totalFa := u.totalFa) && t.totalFa <= u.totalFa < 0x1_0000
    ensures NextGain(c, t, pre) <= NextGain(c, u, pre)
  {
    StepGrows(Fa16(t), Fa16(u), t);
    LargerStep(c, t, u, pre);
  }

  /** A falling RSSI never gives a lower gain than a steady one. */
  lemma FallingRssiMoreGain(c: Chip, t: Tick, pre: nat)
    requires ChipOk(c) && TickOk(t) && Ordered(t) && 2 <= pre <= 0x5a
    ensures NextGain(c, t.(preMinRssi := t.minRssi), pre) <= NextGain(c, t, pre)
  {
    StepGrows(Fa16(t), Fa16(t), t);
    LargerStep(c, t.(preMinRssi := t.minRssi), t, pre);
  }

  lemma StepGrows(fa: nat, more: nat, t: Tick)
    requires fa <= more
    ensures StepFor(fa, t) <= StepFor(more, t) && StepFor(fa, t.(preMinRssi := t.minRssi)) <= StepFor(fa, t)
  {
  }

  lemma LargerStep(c: Chip, t: Tick, u: Tick, pre: nat)
    requires ChipOk(c) && TickOk(t) && TickOk(u) && Ordered(t) && 2 <= pre <= 0x5a
    requires t.linked == u.linked && t.minRssi == u.minRssi && StepFor(Fa16(t), t) <= StepFor(Fa16(u), u)
    ensures NextGain(c, t, pre) <= NextGain(c, u, pre)
  {
    var (x, y) := (pre + StepFor(Fa16(t), t) - 2, pre + StepFor(Fa16(u), u) - 2);
    var (lo, hi) := Boundary(c, t);
    assert NextGain(c, t, pre) == Clamp(c, x, lo, hi) by { GainDoesNotWrap(c, t, pre); }
    assert NextGain(c, u, pre) == Clamp(c, y, lo, hi) by {
      SameBounds(c, t, u);
      GainDoesNotWrap(c, u, pre);
    }
    assert lo <= hi by { BoundsOrderedIff(c, t); }
    ClampMonotone(c, x, y, lo, hi);
  }

  lemma SameBounds(c: Chip, t: Tick, u: Tick)
    requires t.linked == u.linked && t.minRssi == u.minRssi
    ensures Boundary(c, t) == Boundary(c, u)
  {
  }

  lemma ClampMonotone(c: Chip, x: nat, y: nat, lo: nat, hi: nat)
    requires lo <= hi && x <= y
    ensures Clamp(c, x, lo, hi) <= Clamp(c, y, lo, hi)
  {
  }

  /** An example: a weakening station and 800 false alarms raise the gain by 4. */
  lemma WeakeningStation(upperFirst: bool)
    ensures NextGain(Chip(0x20, true, upperFirst), Tick(false, true, 50, 60, 800, false), 0x36) == 0x3a
  {
  }

  /** A tick that records, records the computed gain. */
  lemma RecordedGain(c: Chip, s: State, t: Tick)
    requires ChipOk(c) && StateOk(s) && TickOk(t) && Dig(c, s, t).recorded > s.recorded
    ensures Dig(c, s, t).igi == [NextGain(c, t, s.igi[0]), s.igi[0], s.igi[1], s.igi[2]]
    ensures Dig(c, s, t).fa == [Fa16(t), s.fa[0], s.fa[1], s.fa[2]]
  {
  }

  /** The tick gets as far as recording a gain. */
  predicate Records(s: State, t: Tick)
    requires StateOk(s) && TickOk(t)
  {
    !t.disabled && !CheckDamping(s, t.minRssi).0
  }

  /** The ticks of a run that record, newest first. */
  function Recorders(c: Chip, s: State, ts: seq<Tick>): seq<Tick>
    requires ChipOk(c) && StateOk(s) && forall i | 0 <= i < |ts| :: TickOk(ts[i])
    decreases |ts|
  {
    if ts == [] then []
    else Recorders(c, Dig(c, s, ts[0]), ts[1..]) + if Records(s, ts[0]) then [ts[0]] else []
  }

  /** `g` is a gain that tick t may have recorded: within its bounds, or one of them when they cross. */
  predicate Within(c: Chip, t: Tick, g: nat)
  {
    var (lower, upper) := Boundary(c, t);
    if lower <= upper then lower <= g <= upper else g == lower || g == upper
  }

  /** State r follows s by recordings of the ticks `last`, newest first: entry k of the histories is within
      the bounds of the tick that was the k-th last to record, with that tick's false-alarm count; older
      entries are those of s. */
  predicate Follows(c: Chip, s: State, last: seq<Tick>, r: State)
    requires StateOk(s) && StateOk(r)
  {
    && (forall k: nat | k < 4 && k < |last| :: Within(c, last[k], r.igi[k]) && r.fa[k] == Fa16(last[k]))
    && (forall k: nat | |last| <= k < 4 :: r.igi[k] == s.igi[k - |last|] && r.fa[k] == s.fa[k - |last|])
  }

  lemma TickShifts(c: Chip, s: State, t: Tick)
    requires ChipOk(c) && StateOk(s) && TickOk(t)
    ensures var n := Dig(c, s, t);
            if Records(s, t) then
              && n.recorded == s.recorded + 1 && Within(c, t, n.igi[0]) && n.fa[0] == Fa16(t)
              && forall k | 0 < k < 4 :: n.igi[k] == s.igi[k - 1] && n.fa[k] == s.fa[k - 1]
            else n.recorded == s.recorded && n.igi == s.igi && n.fa == s.fa
  {
    if Records(s, t) {
      GainInBounds(c, t, s.igi[0]);
    }
  }

  lemma FollowsFurther(c: Chip, s: State, t: Tick, s1: State, last: seq<Tick>, r: State)
    requires StateOk(s) && StateOk(s1) && StateOk(r) && Follows(c, s1, last, r)
    requires Within(c, t, s1.igi[0]) && s1.fa[0] == Fa16(t)
    requires forall k | 0 < k < 4 :: s1.igi[k] == s.igi[k - 1] && s1.fa[k] == s.fa[k - 1]
    ensures Follows(c, s, last + [t], r)
  {
    var all := last + [t];
    forall k: nat | |all| <= k < 4 ensures r.igi[k] == s.igi[k - |all|] && r.fa[k] == s.fa[k - |all|] {
      assert r.igi[k] == s1.igi[k - |last|];
    }
  }

  lemma TickBefore(c: Chip, s: State, t: Tick, last: seq<Tick>, r: State)
    requires ChipOk(c) && StateOk(s) && TickOk(t) && StateOk(r) && Follows(c, Dig(c, s, t), last, r)
    ensures Follows(c, s, last + if Records(s, t) then [t] else [], r)
    ensures Dig(c, s, t).recorded == s.recorded + if Records(s, t) then 1 else 0
  {
    TickShifts(c, s, t);
    if Records(s, t) {
      FollowsFurther(c, s, t, Dig(c, s, t), last, r);
    } else {
      assert last + [] == last;
    }
  }

  /** The histories hold the last four recordings of a run. */
  lemma {:induction false} HistoryHoldsLastRecordings(c: Chip, s: State, ts: seq<Tick>)
    requires ChipOk(c) && StateOk(s) && forall i | 0 <= i < |ts| :: TickOk(ts[i])
    ensures Run(c, s, ts).recorded == s.recorded + |Recorders(c, s, ts)|
    ensures Follows(c, s, Recorders(c, s, ts), Run(c, s, ts))
    decreases |ts|
  {
    if ts != [] {
      var s1, rest := Dig(c, s, ts[0]), ts[1..];
      HistoryHoldsLastRecordings(c, s1, rest);
      TickBefore(c, s, ts[0], Recorders(c, s1, rest), Run(c, s1, rest));
    }
  }

  predicate AllUsable(ts: seq<Tick>) { forall i | 0 <= i < |ts| :: TickOk(ts[i]) && Usable(ts[i]) }

  /** From the first recorded step on, every gain in the history is a usable one, so the step of -2
      never wraps again. */
  lemma {:induction false} GainStaysUsable(c: Chip, s: State, ts: seq<Tick>)
    requires ChipOk(c) && StateOk(s) && AllUsable(ts)
    requires s.recorded > 0 ==> 2 <= s.igi[0] <= PERF_MAX
    ensures Run(c, s, ts).recorded > 0 ==> 2 <= Run(c, s, ts).igi[0] <= PERF_MAX
    decreases |ts|
  {
    if ts != [] {
      var s1 := Dig(c, s, ts[0]);
      if s1.recorded > s.recorded {
        RecordedGain(c, s, ts[0]);
        GainUsable(c, ts[0], s.igi[0]);
      }
      GainStaysUsable(c, s1, ts[1..]);
    }
  }

  // ---------------------------------------------------------------- the trend cache

  predicate BitSet(bitmap: nat, k: nat)
    requires k < 4
  {
    (if k == 0 then bitmap else if k == 1 then bitmap / 2 else if k == 2 then bitmap / 4 else bitmap / 8) % 2 == 1
  }

  /** After n recorded steps bit k says whether history[k] > history[k+1], for k < min(n, 3). */
  predicate Trend(s: State)
    requires StateOk(s)
  {
    forall k: nat | k < Min(s.recorded, 3) :: BitSet(s.bitmap, k) <==> s.igi[k] > s.igi[k + 1]
  }

  lemma ShiftedBits(bitmap: nat, up: nat, k: nat)
    requires bitmap < 0x100 && up <= 1 && k < 4
    ensures BitSet(bitmap * 2 % 0x100 + up, k) <==> if k == 0 then up == 1 else BitSet(bitmap, k - 1)
  {
    var low, top := bitmap % 0x80, bitmap / 0x80;
    assert bitmap == low + 0x80 * top && bitmap * 2 % 0x100 == 2 * low;
    var b := 2 * low + up;
    if k == 1 {
      assert b / 2 == low && low % 2 == bitmap % 2;
    } else if k == 2 {
      assert b / 4 == low / 2 && bitmap / 2 == low / 2 + 0x40 * top;
    } else if k == 3 {
      assert b / 8 == low / 4 && bitmap / 4 == low / 4 + 0x20 * top;
    }
  }

  lemma RecordKeepsTrend(s: State, igi: nat, fa: nat)
    requires StateOk(s) && Trend(s) && igi < 0x100 && fa < 0x1_0000
    ensures StateOk(Record(s, igi, fa)) && Trend(Record(s, igi, fa))
  {
    var r := Record(s, igi, fa);
    forall k: nat | k < Min(r.recorded, 3) ensures BitSet(r.bitmap, k) <==> r.igi[k] > r.igi[k + 1] {
      ShiftedBits(s.bitmap, if igi > s.igi[0] then 1 else 0, k);
      if k > 0 {
        assert BitSet(s.bitmap, k - 1) <==> s.igi[k - 1] > s.igi[k];
      }
    }
  }

  lemma DigKeepsTrend(c: Chip, s: State, t: Tick)
    requires ChipOk(c) && StateOk(s) && TickOk(t) && Trend(s)
    ensures Trend(Dig(c, s, t))
  {
    var s1 := CheckDamping(s, t.minRssi).1;
    assert Trend(s1);
    RecordKeepsTrend(s1, NextGain(c, t, s1.igi[0]), Fa16(t));
  }

  lemma {:induction false} TrendAlways(c: Chip, s: State, ts: seq<Tick>)
    requires ChipOk(c) && StateOk(s) && Trend(s) && forall i | 0 <= i < |ts| :: TickOk(ts[i])
    ensures Trend(Run(c, s, ts))
    decreases |ts|
  {
    if ts != [] {
      DigKeepsTrend(c, s, ts[0]);
      TrendAlways(c, Dig(c, s, ts[0]), ts[1..]);
    }
  }

  /** What the damping patterns say about the recorded gains, once three have been recorded. */
  lemma PatternsDescribeHistory(s: State)
    requires StateOk(s) && Trend(s) && s.recorded >= 3
    ensures s.bitmap % 16 == 5 ==> s.igi[0] > s.igi[1] && s.igi[1] <= s.igi[2] && s.igi[2] > s.igi[3]
    ensures s.bitmap % 16 == 9 ==> s.igi[0] > s.igi[1] && s.igi[1] <= s.igi[2] && s.igi[2] <= s.igi[3]
    ensures Oscillates(s) ==> s.igi[0] > s.igi[1] && s.igi[1] <= s.igi[2] && s.igi[2] != s.igi[3]
  {
    assert BitSet(s.bitmap, 0) <==> s.igi[0] > s.igi[1];
    assert BitSet(s.bitmap, 1) <==> s.igi[1] > s.igi[2];
    assert BitSet(s.bitmap, 2) <==> s.igi[2] > s.igi[3];
    assert s.bitmap % 16 == 5 ==> s.bitmap % 2 == 1 && s.bitmap / 2 % 2 == 0 && s.bitmap / 4 % 2 == 1;
    assert s.bitmap % 16 == 9 ==> s.bitmap % 2 == 1 && s.bitmap / 2 % 2 == 0 && s.bitmap / 4 % 2 == 0;
  }

  /** When an episode starts, in numbers: the recorded gains went up by at least 2, and up by at least 2 before
      the step down between, with false alarms high, low, high and low; or up by at least 4 after two steps
      down, the first of at least 2, with false alarms high, low, low and high. */
  lemma DampingStartsIff(s: State, minRssi: nat)
    requires StateOk(s) && minRssi < 0x100 && !s.damping
    ensures var (g, f, r) := (s.igi, s.fa, CheckDamping(s, minRssi));
            && (r.0 <==> || (s.bitmap % 16 == 5 && g[0] >= g[1] + 2 && g[2] >= g[3] + 2
                              && f[0] > 500 && f[1] < 250 && f[2] > 500 && f[3] < 250)
                         || (s.bitmap % 16 == 9 && g[0] >= g[1] + 4 && g[3] >= g[2] + 2
                              && f[0] > 500 && f[1] < 250 && f[2] < 250 && f[3] > 500))
            && r.1 == if r.0 then s.(damping := true, cnt := 0, dampingRssi := minRssi) else s
  {
  }

  /** When an episode ends: the RSSI minimum moved by more than 3, or 21 ticks were counted. */
  lemma DampingEndsIff(s: State, minRssi: nat)
    requires StateOk(s) && minRssi < 0x100 && s.damping
    ensures CheckDamping(s, minRssi).0 <==> s.cnt <= 20 && minRssi <= s.dampingRssi + 3 && s.dampingRssi <= minRssi + 3
    ensures CheckDamping(s, minRssi).1.damping <==> CheckDamping(s, minRssi).0
    ensures minRssi > s.dampingRssi + 3 || s.dampingRssi > minRssi + 3 ==> CheckDamping(s, minRssi).1.cnt == s.cnt
    ensures minRssi <= s.dampingRssi + 3 && s.dampingRssi <= minRssi + 3 ==> CheckDamping(s, minRssi).1.cnt == (s.cnt + 1) % 256
  {
  }

  /** rtw_phy_init: the history starts again with the register's gain and no trend; damping goes on. */
  function Initialised(s: State): (n: State)
    requires StateOk(s)
    ensures StateOk(n) && Trend(n)
  {
    s.(igi := [s.hw, 0, 0, 0], fa := [0, 0, 0, 0], bitmap := 0, recorded := 0)
  }

  // ---------------------------------------------------------------- liveness

  /** Enabled ticks within which a gain is recorded at the latest. */
  function Budget(s: State): nat
  {
    if !s.damping then 23 else if s.cnt <= 21 then 22 - s.cnt else 1
  }

  predicate Enabled(ts: seq<Tick>) { forall i | 0 <= i < |ts| :: TickOk(ts[i]) && !ts[i].disabled }

  lemma DigProgress(c: Chip, s: State, t: Tick)
    requires ChipOk(c) && StateOk(s) && TickOk(t) && !t.disabled
    ensures Dig(c, s, t).recorded == s.recorded + 1
         || (Dig(c, s, t).recorded == s.recorded && Budget(Dig(c, s, t)) < Budget(s))
  {
  }

  lemma {:induction false} RecordedGrows(c: Chip, s: State, ts: seq<Tick>)
    requires ChipOk(c) && StateOk(s) && Enabled(ts)
    ensures s.recorded <= Run(c, s, ts).recorded
    decreases |ts|
  {
    if ts != [] {
      DigProgress(c, s, ts[0]);
      RecordedGrows(c, Dig(c, s, ts[0]), ts[1..]);
    }
  }

  /** From any state whatever, enough enabled ticks record a gain; 23 always are. */
  lemma {:induction false} RecordsWithinBudget(c: Chip, s: State, ts: seq<Tick>)
    requires ChipOk(c) && StateOk(s) && Enabled(ts) && |ts| >= Budget(s)
    ensures Run(c, s, ts).recorded > s.recorded
    decreases |ts|
  {
    var s1 := Dig(c, s, ts[0]);
    DigProgress(c, s, ts[0]);
    if s1.recorded > s.recorded {
      RecordedGrows(c, s1, ts[1..]);
    } else {
      RecordsWithinBudget(c, s1, ts[1..]);
    }
  }

  lemma AnyTwentyThreeTicksRecord(c: Chip, s: State, ts: seq<Tick>)
    requires ChipOk(c) && StateOk(s) && Enabled(ts) && |ts| == 23
    ensures Run(c, s, ts).recorded > s.recorded
  {
    RecordsWithinBudget(c, s, ts);
  }

  lemma {:induction false} DampedStaysDamped(c: Chip, s: State, t: Tick, ts: seq<Tick>)
    requires ChipOk(c) && StateOk(s) && TickOk(t) && !t.disabled
    requires s.damping && Distance(t.minRssi, s.dampingRssi) <= 3 && s.cnt + |ts| <= 21
    requires forall i | 0 <= i < |ts| :: ts[i] == t
    ensures Run(c, s, ts) == s.(cnt := s.cnt + |ts|)
    decreases |ts|
  {
    if ts != [] {
      DampedStaysDamped(c, Dig(c, s, t), t, ts[1..]);
    }
  }

  /** The bound is tight: an episode in steady reception suppresses exactly 22 ticks, the 23rd records. */
  lemma DampingLastsTwentyTwoTicks(c: Chip, s: State, t: Tick, ts: seq<Tick>)
    requires ChipOk(c) && StateOk(s) && TickOk(t) && !t.disabled && !s.damping && Oscillates(s)
    requires |ts| == 22 && forall i | 0 <= i < |ts| :: ts[i] == t
    ensures Run(c, s, ts).recorded == s.recorded
    ensures Dig(c, Run(c, s, ts), t).recorded == s.recorded + 1
  {
    DampedStaysDamped(c, Dig(c, s, t), t, ts[1..]);
  }

  // ---------------------------------------------------------------- the hardware register

  /** What a recording tick leaves in the register, by number: 0x1c on chips with the override, with beacon
      loss, linked and fewer than 750 false alarms; else the gain recorded; and nothing is written when that is
      the previous gain. */
  lemma RegisterByNumber(c: Chip, s: State, t: Tick)
    requires ChipOk(c) && StateOk(s) && TickOk(t) && Records(s, t)
    ensures var (n, pre) := (Dig(c, s, t), s.igi[0]);
            && n.fa[0] == t.totalFa % 0x1_0000
            && (c.beaconLossFix && t.beaconLoss && t.linked && t.totalFa < 750 ==>
                  n.hw == if pre == 0x1c then s.hw else 0x1c)
            && (!(c.beaconLossFix && t.beaconLoss && t.linked && t.totalFa < 750) ==>
                  n.hw == if n.igi[0] == pre then s.hw else n.igi[0])
  {
  }

  /** A recording tick leaves register and newest gain equal iff the override does not fire or the gain
      recorded happens to be its value. */
  lemma RegisterTracksIff(c: Chip, s: State, t: Tick)
    requires ChipOk(c) && StateOk(s) && TickOk(t) && Records(s, t) && s.hw == s.igi[0]
    ensures Dig(c, s, t).hw == Dig(c, s, t).igi[0] <==> !Fires(c, t) || NextGain(c, t, s.igi[0]) == CVRG_MIN
  {
  }

  /** What writes the gain register: the loop, and scans, during which the loop is switched off. */
  datatype Event = Watchdog(tick: Tick) | ScanStart | ScanEnd

  datatype Loop = Loop(s: State, scanning: bool)

  predicate EventOk(e: Event) { e.Watchdog? ==> TickOk(e.tick) }

  function TickOf(l: Loop, t: Tick): Tick { t.(disabled := t.disabled || l.scanning) }

  function Next(c: Chip, l: Loop, e: Event): (n: Loop)
    requires ChipOk(c) && StateOk(l.s) && EventOk(e)
    ensures StateOk(n.s)
  {
    match e
    case Watchdog(t) => l.(s := Dig(c, l.s, TickOf(l, t)))
    case ScanStart => Loop(l.s.(hw := CVRG_MIN), true)
    case ScanEnd => Loop(l.s.(hw := l.s.igi[0]), false)
  }

  predicate EventsOk(es: seq<Event>) { forall i | 0 <= i < |es| :: EventOk(es[i]) }

  function RunEvents(c: Chip, l: Loop, es: seq<Event>): (n: Loop)
    requires ChipOk(c) && StateOk(l.s) && EventsOk(es)
    ensures StateOk(n.s)
    decreases |es|
  {
    if es == [] then l else Next(c, RunEvents(c, l, es[..|es| - 1]), es[|es| - 1])
  }

  /** The event neither fires the override nor changes the recorded gain nor scans. */
  predicate Keeps(c: Chip, l: Loop, e: Event)
    requires ChipOk(c) && StateOk(l.s) && EventOk(e)
  {
    match e
    case Watchdog(t) =>
      Records(l.s, TickOf(l, t)) ==> !Fires(c, t) && NextGain(c, t, l.s.igi[0]) == l.s.igi[0]
    case _ => false
  }

  /** The event puts the override's value into the register while another gain is recorded. */
  predicate Displaces(c: Chip, l: Loop, e: Event)
    requires ChipOk(c) && StateOk(l.s) && EventOk(e)
  {
    match e
    case Watchdog(t) => Records(l.s, TickOf(l, t)) && Fires(c, t) && NextGain(c, t, l.s.igi[0]) != CVRG_MIN
    case ScanStart => l.s.igi[0] != CVRG_MIN
    case ScanEnd => false
  }

  /** The last event that does not keep the register is one that displaces it. */
  predicate LastDisplaces(c: Chip, l: Loop, es: seq<Event>)
    requires ChipOk(c) && StateOk(l.s) && EventsOk(es)
    decreases |es|
  {
    es != [] &&
    var front, last := es[..|es| - 1], es[|es| - 1];
    var before := RunEvents(c, l, front);
    Displaces(c, before, last) || (Keeps(c, before, last) && LastDisplaces(c, l, front))
  }

  predicate Held(s: State)
    requires StateOk(s)
  {
    s.hw == s.igi[0] || s.hw == CVRG_MIN
  }

  lemma StepHolds(c: Chip, l: Loop, e: Event)
    requires ChipOk(c) && StateOk(l.s) && EventOk(e) && Held(l.s)
    ensures var n := Next(c, l, e).s;
            && Held(n)
            && (n.hw != n.igi[0] <==> Displaces(c, l, e) || (Keeps(c, l, e) && l.s.hw != l.s.igi[0]))
  {
    if e.Watchdog? {
      TickHolds(c, l.s, TickOf(l, e.tick));
    }
  }

  lemma TickHolds(c: Chip, s: State, t: Tick)
    requires ChipOk(c) && StateOk(s) && TickOk(t) && Held(s)
    ensures var (n, g) := (Dig(c, s, t), NextGain(c, t, s.igi[0]));
            && Held(n)
            && (!Records(s, t) ==> n.hw == s.hw && n.igi == s.igi)
            && (Records(s, t) ==> n.igi[0] == g && n.hw == if Fires(c, t) then CVRG_MIN
                                                      else if g != s.igi[0] then g else s.hw)
  {
  }

  /**
    Over every run of ticks and scans that starts with register and newest recorded gain equal, they
    differ at the end if and only if the last event that moved either of them was a firing override, or
    the start of a scan, with another gain recorded than the override's value.
   */
  lemma {:induction false} RegisterDisplacedIff(c: Chip, l: Loop, es: seq<Event>)
    requires ChipOk(c) && StateOk(l.s) && EventsOk(es) && l.s.hw == l.s.igi[0]
    ensures Held(RunEvents(c, l, es).s)
    ensures RunEvents(c, l, es).s.hw != RunEvents(c, l, es).s.igi[0] <==> LastDisplaces(c, l, es)
    decreases |es|
  {
    if es != [] {
      var front := es[..|es| - 1];
      RegisterDisplacedIff(c, l, front);
      StepHolds(c, RunEvents(c, l, front), es[|es| - 1]);
    }
  }

  /** On chips without the override the register holds the newest recorded gain whenever no scan is on. */
  lemma {:induction false} RegisterTracksAlways(c: Chip, l: Loop, es: seq<Event>)
    requires ChipOk(c) && StateOk(l.s) && EventsOk(es)
    requires !c.beaconLossFix && !l.scanning && l.s.hw == l.s.igi[0]
    ensures var n := RunEvents(c, l, es);
            !n.scanning ==> n.s.hw == n.s.igi[0]
    decreases |es|
  {
    if es != [] {
      var before, e := RunEvents(c, l, es[..|es| - 1]), es[|es| - 1];
      RegisterTracksAlways(c, l, es[..|es| - 1]);
      RegisterDisplacedIff(c, l, es[..|es| - 1]);
      StepHolds(c, before, e);
    }
  }

  /** In every run a recording tick with beacon loss ends with the override in the register, whatever gain
      it records. */
  lemma OverrideWritten(c: Chip, l: Loop, es: seq<Event>, t: Tick)
    requires ChipOk(c) && StateOk(l.s) && EventsOk(es) && TickOk(t) && l.s.hw == l.s.igi[0]
    requires Records(RunEvents(c, l, es).s, t) && Fires(c, t)
    ensures Dig(c, RunEvents(c, l, es).s, t).hw == CVRG_MIN
  {
    RegisterDisplacedIff(c, l, es);
    TickHolds(c, RunEvents(c, l, es).s, t);
  }

  /** Once beacons are back, the override stays in the register for as many ticks as the recorded gain
      does not move. */
  lemma {:induction false} OverrideSticks(upperFirst: bool, s: State, t: Tick, ts: seq<Tick>)
    requires StateOk(s) && !s.damping && s.bitmap == 0 && s.igi[0] == 0x20 && s.hw == CVRG_MIN
    requires t == Tick(false, true, 0x10, 0x10, 0, false) && forall i | 0 <= i < |ts| :: ts[i] == t
    ensures var r := Run(Chip(0x20, true, upperFirst), s, ts);
            r.recorded == s.recorded + |ts| && r.igi[0] == 0x20 && r.hw == CVRG_MIN
    decreases |ts|
  {
    if ts != [] {
      var c := Chip(0x20, true, upperFirst);
      assert NextGain(c, t, 0x20) == 0x20;
      assert Dig(c, s, t) == Record(s, 0x20, 0);
      OverrideSticks(upperFirst, Dig(c, s, t), t, ts[1..]);
    }
  }

  /** An input on which it happens: one tick with beacon loss, then any number without. */
  lemma {:induction false} OneLossSticks(upperFirst: bool, s: State, t: Tick, ts: seq<Tick>)
    requires StateOk(s) && !s.damping && s.bitmap == 0 && s.igi[0] == s.hw == 0x20
    requires t == Tick(false, true, 0x10, 0x10, 0, false) && forall i | 0 <= i < |ts| :: ts[i] == t
    ensures var r := Run(Chip(0x20, true, upperFirst), s, [t.(beaconLoss := true)] + ts);
            r.recorded == s.recorded + 1 + |ts| && r.igi[0] == 0x20 && r.hw == CVRG_MIN
  {
    var c, t0 := Chip(0x20, true, upperFirst), t.(beaconLoss := true);
    assert NextGain(c, t0, 0x20) == 0x20;
    assert Dig(c, s, t0) == Record(s, 0x20, 0).(hw := CVRG_MIN);
    assert ([t0] + ts)[1..] == ts;
    OverrideSticks(upperFirst, Dig(c, s, t0), t, ts);
  }

  // ---------------------------------------------------------------- the driver code

  class DmInfo {
    const chip: Chip
    var igiHistory: seq<nat>
    var faHistory: seq<nat>
    var igiBitmap: nat
    var damping: bool
    var dampingCnt: nat
    var dampingRssi: nat
    var gainRegister: nat
    ghost var recorded: nat

    ghost function Abs(): State
      reads this
    {
      State(igiHistory, faHistory, igiBitmap, damping, dampingCnt, dampingRssi, gainRegister, recorded)
    }

    constructor (chip: Chip, gainRegister: nat)
      requires ChipOk(chip) && gainRegister < 0x100
      ensures this.chip == chip
      ensures StateOk(Abs()) && Trend(Abs()) && !damping && this.gainRegister == igiHistory[0] == gainRegister
    {
      this.chip := chip;
      igiHistory := [gainRegister, 0, 0, 0];
      faHistory := [0, 0, 0, 0];
      igiBitmap, damping, dampingCnt, dampingRssi := 0, false, 0, 0;
      this.gainRegister := gainRegister;
      recorded := 0;
    }

    /** rtw_phy_init. */
    method Init()
      requires StateOk(Abs())
      modifies this
      ensures Abs() == Initialised(old(Abs()))
      ensures igiHistory == [old(gainRegister), 0, 0, 0] && faHistory == [0, 0, 0, 0] && igiBitmap == 0
    {
      faHistory := faHistory[3 := 0];
      faHistory := faHistory[2 := 0];
      faHistory := faHistory[1 := 0];
      faHistory := faHistory[0 := 0];
      igiBitmap := 0;
      igiHistory := igiHistory[3 := 0];
      igiHistory := igiHistory[2 := 0];
      igiHistory := igiHistory[1 := 0];
      igiHistory := igiHistory[0 := gainRegister];
      recorded := 0;
    }

    /** The iteration of rtw_phy_stat_rssi. */
    static method StatRssi(averages: seq<nat>) returns (minRssi: nat)
      ensures minRssi == MinRssi(averages)
    {
      minRssi := 0xff;
      for i := 0 to |averages|
        invariant minRssi == MinRssi(averages[..i])
      {
        assert averages[..i + 1][..i] == averages[..i];
        minRssi := Min(averages[i], minRssi);
      }
      assert averages[..|averages|] == averages;
    }

    /** rtw_phy_dig_set_max_coverage at the start of a scan, rtw_phy_dig_reset at its end. */
    method SetMaxCoverage()
      requires StateOk(Abs())
      modifies this`gainRegister
      ensures Abs() == old(Abs()).(hw := CVRG_MIN)
    {
      gainRegister := CVRG_MIN;
    }

    method Reset()
      requires StateOk(Abs())
      modifies this`gainRegister
      ensures Abs() == old(Abs()).(hw := old(igiHistory[0]))
    {
      var lastIgi := igiHistory[0];
      gainRegister := lastIgi;
    }

    method CheckDampingNow(minRssi: nat) returns (suppressed: bool)
      requires StateOk(Abs()) && minRssi < 0x100
      modifies this
      ensures (suppressed, Abs()) == CheckDamping(old(Abs()), minRssi)
    {
      if damping {
        var diff := if minRssi > dampingRssi then minRssi - dampingRssi else dampingRssi - minRssi;
        if diff > 3 {
          damping := false;
          return false;
        }
        var cnt := dampingCnt;
        dampingCnt := (dampingCnt + 1) % 0x100;
        if cnt > 20 {
          damping := false;
          return false;
        }
        return true;
      }
      var g, f := igiHistory, faHistory;
      var start := false;
      match igiBitmap % 16 {
        case 5 =>
          if g[0] > g[1] && g[2] > g[3] && g[0] - g[1] >= 2 && g[2] - g[3] >= 2
             && f[0] > PERF_FA_HIGH && f[1] < PERF_FA_LOW && f[2] > PERF_FA_HIGH && f[3] < PERF_FA_LOW {
            start := true;
          }
        case 9 =>
          if g[0] > g[1] && g[3] > g[2] && g[0] - g[1] >= 4 && g[3] - g[2] >= 2
             && f[0] > PERF_FA_HIGH && f[1] < PERF_FA_LOW && f[2] < PERF_FA_LOW && f[3] > PERF_FA_HIGH {
            start := true;
          }
        case _ =>
          return false;
      }
      if start {
        damping := true;
        dampingCnt := 0;
        dampingRssi := minRssi;
      }
      return start;
    }

    method RecordNow(igi: nat, fa: nat)
      requires StateOk(Abs())
      modifies this
      ensures Abs() == Record(old(Abs()), igi, fa)
    {
      var bitmap := igiBitmap * 2 % 0x100;
      var up := igi > igiHistory[0];
      bitmap := bitmap + if up then 1 else 0;
      igiHistory := igiHistory[3 := igiHistory[2]];
      igiHistory := igiHistory[2 := igiHistory[1]];
      igiHistory := igiHistory[1 := igiHistory[0]];
      igiHistory := igiHistory[0 := igi];
      faHistory := faHistory[3 := faHistory[2]];
      faHistory := faHistory[2 := faHistory[1]];
      faHistory := faHistory[1 := faHistory[0]];
      faHistory := faHistory[0 := fa];
      igiBitmap := bitmap;
      recorded := recorded + 1;
    }

    /** The threshold loop of rtw_phy_dig: add the step of the first level exceeded. */
    static method StepUp(t: Tick, faCnt: nat, preIgi: nat) returns (curIgi: nat)
      requires preIgi < 0x100
      ensures curIgi == (preIgi + StepFor(faCnt, t)) % 0x100
    {
      var faTh, step := Thresholds(t.linked), Steps(t);
      curIgi := preIgi;
      var level := 0;
      while level < 3
        invariant 0 <= level <= 3 && curIgi == preIgi
        invariant forall l | 0 <= l < level :: faCnt <= faTh[l]
      {
        if faCnt > faTh[level] {
          curIgi := (curIgi + step[level]) % 0x100;
          break;
        }
        level := level + 1;
      }
    }

    /** rtw_phy_dig. */
    method DigNow(t: Tick)
      requires ChipOk(chip) && StateOk(Abs()) && TickOk(t)
      modifies this
      ensures Abs() == Dig(chip, old(Abs()), t)
    {
      if t.disabled {
        return;
      }
      var suppressed := CheckDampingNow(t.minRssi);
      if suppressed {
        return;
      }
      var faCnt, preIgi := t.totalFa % 0x1_0000, igiHistory[0];
      var curIgi := StepUp(t, faCnt, preIgi);
      WrapTwice(preIgi, StepFor(faCnt, t));
      curIgi := (curIgi + 0x100 - 2) % 0x100;
      var (lower, upper) := Boundary(chip, t);
      curIgi := Clamp(chip, curIgi, lower, upper);
      assert curIgi == NextGain(chip, t, preIgi);
      RecordNow(curIgi, faCnt);
      if chip.beaconLossFix && t.beaconLoss && t.linked && t.totalFa < PERF_FA_EXTRA_HIGH {
        curIgi := CVRG_MIN;
      }
      if curIgi != preIgi {
        gainRegister := curIgi;
      }
    }
  }

  lemma WrapTwice(pre: nat, step: nat)
    requires pre < 0x100 && step <= 6
    ensures ((pre + step) % 0x100 + 0x100 - 2) % 0x100 == (pre + step + 0x100 - 2) % 0x100
  {
  }
}
