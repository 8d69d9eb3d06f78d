/**
  Leisure power save (ps.c) and bluetooth coexistence (coex.c), which call each other: entering or
  leaving power save notifies coex, a coex run executes an action, an action programs a TDMA case,
  and programming a TDMA case may leave power save.

  The choice of TDMA cases by the individual coex actions is a parameter; everything between them and
  the power-save flag is modelled.
 */
module PowerSave {

  datatype LpsMode = Active | Lps

  datatype PwrState = AllOn | RfOff

  /** lps_conf, as far as the firmware's SET_PWR_MODE command carries it. */
  datatype LpsConf = LpsConf(mode: LpsMode, state: PwrState, awakeInterval: nat, rlbm: nat, smartPs: nat, portId: nat)

  datatype CoexMode = Link5G | Link2GOnePort | Link2GFree | LinkOther

  /** coex state that TDMA programming reads and writes: the current case and who controls LPS. */
  datatype Tdma = Tdma(on: bool, kind: nat, force: bool, mode: CoexMode)

  /** An action's request for a TDMA case, with the link mode it has set by then. */
  datatype Request = Request(always: bool, kind: nat, mode: CoexMode)

  /** Inputs that change between the operations modelled here, never during one. */
  datatype Config = Config(running: bool, manualControl: bool, stopDm: bool, underIps: bool, freeze: bool,
                           btSetupLink: bool, under5G: bool, btDisabled: bool, btGameHid: bool)

  datatype Reason = RsnLps | RsnBtInfo | RsnOther

  /** What a coex action can look at. The counter makes its choices independent from run to run. */
  datatype View = View(config: Config, tdma: Tdma, underLps: bool, inLps: bool, reason: Reason, run: nat)

  /** The chip: its TDMA table (first byte of each case), its policy and its coex actions. */
  datatype Chip = Chip(tdmaTable: map<nat, bv8>, shareAnt: bool, forceLpsOff: bool, action: View -> seq<Request>)

  /** TDMA is off in case 0 of the shared-antenna table and case 100 of the other one. */
  predicate TurnsOn(kind: nat) { kind != 0 && kind != 100 }

  function OffKind(chip: Chip): nat { if chip.shareAnt then 0 else 100 }

  predicate Skips(t: Tdma, r: Request)
  {
    !r.always && t.on == TurnsOn(r.kind) && t.kind == r.kind
  }

  datatype PsType = WifiNative | LpsOn | LpsOff

  /** rtw_coex_set_tdma's choice between forced and native power save. */
  function PsTypeOf(chip: Chip, byte1: bv8, mode: CoexMode): PsType
  {
    if (byte1 & 0x10 != 0 && byte1 & 0x20 == 0) || mode == Link2GFree then
      if chip.forceLpsOff then LpsOff else LpsOn
    else WifiNative
  }

  /** A request's effect on the TDMA state when the device is not in LPS. */
  function Apply(chip: Chip, t: Tdma, r: Request): Tdma
  {
    var u := t.(mode := r.mode);
    if Skips(u, r) then u
    else
      var v := u.(on := TurnsOn(r.kind), kind := r.kind);
      if r.kind !in chip.tdmaTable then v
      else match PsTypeOf(chip, chip.tdmaTable[r.kind], r.mode)
           case WifiNative => v.(force := false)
           case LpsOff => v.(force := true)
           case LpsOn => v
  }

  function ApplyAll(chip: Chip, t: Tdma, rs: seq<Request>): Tdma
    decreases |rs|
  {
    if rs == [] then t else ApplyAll(chip, Apply(chip, t, rs[0]), rs[1..])
  }

  lemma {:induction false} ApplyAllSnoc(chip: Chip, t: Tdma, rs: seq<Request>, r: Request)
    ensures ApplyAll(chip, t, rs + [r]) == Apply(chip, ApplyAll(chip, t, rs), r)
    decreases |rs|
  {
    if rs == [] {
      assert [r][1..] == [];
    } else {
      assert (rs + [r])[0] == rs[0] && (rs + [r])[1..] == rs[1..] + [r];
      ApplyAllSnoc(chip, Apply(chip, t, rs[0]), rs[1..], r);
    }
  }

  /** rtw_coex_run_coex goes on to an action. */
  predicate RunsAction(c: Config, reason: Reason)
  {
    c.running && !c.manualControl && !c.stopDm && !c.underIps
    && !(c.freeze && reason == RsnBtInfo && !c.btSetupLink)
  }

  function LinkMode(c: Config): CoexMode { if c.under5G then Link5G else Link2GOnePort }

  /** The requests a coex run makes. Native LPS is spelled out; the other actions are the chip's. */
  function Requests(chip: Chip, v: View): seq<Request>
  {
    if !v.config.under5G && !v.config.btDisabled && v.underLps && !v.tdma.force then
      [Request(false, OffKind(chip), if v.config.btGameHid then Link2GFree else Link2GOnePort)]
    else chip.action(v)
  }

  class Driver {
    const chip: Chip
    var config: Config
    var leisurePs: bool
    var leisurePsDeep: bool
    var conf: LpsConf
    var tdma: Tdma
    var underLps: bool
    var runs: nat
    /** The SET_PWR_MODE commands sent to the firmware, in order. */
    var pwrLog: seq<LpsConf>

    /** Between top-level operations: the flag says what the configuration says and the firmware was told;
        and it was told to sleep in LPS and to stay awake outside. */
    ghost predicate Consistent()
      reads this
    {
      && (leisurePs <==> conf.mode == Lps)
      && (pwrLog != [] ==> pwrLog[|pwrLog| - 1] == conf)
      && (pwrLog != [] && !leisurePs ==> conf == LpsConf(Active, AllOn, 1, 0, 0, conf.portId))
      && (leisurePs ==> pwrLog != [] && conf == LpsConf(Lps, RfOff, 1, 1, 2, conf.portId))
    }

    constructor (chip: Chip, config: Config)
      ensures this.chip == chip && this.config == config && Consistent() && !leisurePs && pwrLog == []
    {
      this.chip := chip;
      this.config := config;
      leisurePs, leisurePsDeep, underLps := false, false, false;
      conf := LpsConf(Active, AllOn, 0, 0, 0, 0);
      tdma := Tdma(false, 0, false, LinkOther);
      runs := 0;
      pwrLog := [];
    }

    function LeftConf(c: LpsConf): LpsConf { LpsConf(Active, AllOn, 1, 0, 0, c.portId) }

    /**
      What any part of the recursion may do: stay in or out of LPS and send nothing, or leave LPS
      once, sending exactly the one command for it. At most `own` coex runs happen, and one more only
      if LPS was left.
     */
    twostate predicate Effect(own: nat)
      reads this
    {
      && config == old(config) && (leisurePs ==> old(leisurePs)) && (leisurePsDeep ==> old(leisurePsDeep))
      && (leisurePs == old(leisurePs) ==>
            conf == old(conf) && pwrLog == old(pwrLog) && underLps == old(underLps)
            && old(runs) <= runs <= old(runs) + own)
      && (leisurePs != old(leisurePs) ==>
            conf == LeftConf(old(conf)) && pwrLog == old(pwrLog) + [conf]
            && underLps == (old(underLps) && (config.manualControl || config.stopDm))
            && old(runs) <= runs <= old(runs) + own + 1)
    }

    ghost function Flag(): nat
      reads this
    {
      if leisurePs then 1 else 0
    }

    /** rtw_leave_lps; the deep part is an empty operation on USB. */
    method LeaveLps()
      modifies this
      ensures Effect(0) && !leisurePs && !leisurePsDeep
      ensures !old(leisurePs) ==> tdma == old(tdma)
      decreases Flag(), 2
    {
      if leisurePsDeep {
        leisurePsDeep := false;
      }
      if !leisurePs {
        return;
      }
      conf := conf.(mode := Active);
      LeaveLpsCore();
    }

    /** rtw_leave_lps_core: the flag is cleared before coex is told. */
    method LeaveLpsCore()
      requires leisurePs && conf.mode == Active
      modifies this
      ensures config == old(config) && !leisurePs && (leisurePsDeep ==> old(leisurePsDeep))
      ensures conf == LpsConf(Active, AllOn, 1, 0, 0, old(conf.portId)) && pwrLog == old(pwrLog) + [conf]
      ensures underLps == (old(underLps) && (config.manualControl || config.stopDm))
      ensures old(runs) <= runs <= old(runs) + 1
      decreases Flag(), 1
    {
      conf := conf.(state := AllOn, awakeInterval := 1, rlbm := 0, smartPs := 0);
      pwrLog := pwrLog + [conf];
      leisurePs := false;
      LpsDisabledNotify();
    }

    /** rtw_coex_lps_notify with COEX_LPS_DISABLE. */
    method LpsDisabledNotify()
      requires !leisurePs
      modifies this
      ensures config == old(config) && !leisurePs && (leisurePsDeep ==> old(leisurePsDeep))
      ensures conf == old(conf) && pwrLog == old(pwrLog)
      ensures old(runs) <= runs <= old(runs) + 1
      ensures underLps == (old(underLps) && (config.manualControl || config.stopDm))
      decreases Flag(), 7
    {
      if config.manualControl || config.stopDm {
        return;
      }
      underLps := false;
      RunCoex(RsnLps);
    }

    /** rtw_coex_lps_notify with COEX_LPS_ENABLE, as called on the way into LPS. */
    method LpsEnabledNotify()
      requires !leisurePs
      modifies this
      ensures config == old(config) && !leisurePs && (leisurePsDeep ==> old(leisurePsDeep))
      ensures conf == old(conf) && pwrLog == old(pwrLog)
      ensures old(runs) <= runs <= old(runs) + 1
      ensures var told := !config.manualControl && !config.stopDm;
              && underLps == (told || old(underLps))
              && tdma == if !told || old(tdma).force || !RunsAction(config, RsnLps) then old(tdma)
                         else RunTdma(chip, config, old(tdma), true, RsnLps, old(runs))
    {
      if config.manualControl || config.stopDm {
        return;
      }
      underLps := true;
      if !tdma.force {
        RunCoex(RsnLps);
      }
    }

    /** rtw_coex_run_coex: the gates, then the requests of the chosen action one by one. */
    method RunCoex(reason: Reason)
      modifies this
      ensures Effect(1)
      ensures (config.running && !config.manualControl && !config.stopDm && !config.underIps
               && (!config.freeze || reason != RsnBtInfo || config.btSetupLink))
         <==> runs > old(runs)
      ensures runs == old(runs) ==> tdma == old(tdma) && leisurePs == old(leisurePs)
      ensures !old(leisurePs) ==>
                tdma == if RunsAction(config, reason)
                        then RunTdma(chip, config, old(tdma), old(underLps), reason, old(runs)) else old(tdma)
      decreases Flag(), 6
    {
      if !RunsAction(config, reason) {
        return;
      }
      runs := runs + 1;
      tdma := tdma.(mode := LinkMode(config));
      var rs := Requests(chip, View(config, tdma, underLps, leisurePs, reason, runs));
      ghost var start := tdma;
      var i := 0;
      while i < |rs|
        invariant 0 <= i <= |rs| && Effect(1) && runs > old(runs)
        invariant runs <= old(runs) + 1 + if leisurePs != old(leisurePs) then 1 else 0
        invariant !old(leisurePs) ==> tdma == ApplyAll(chip, start, rs[..i]) && runs == old(runs) + 1
      {
        assert rs[..i + 1] == rs[..i] + [rs[i]];
        ApplyAllSnoc(chip, start, rs[..i], rs[i]);
        CoexTdma(rs[i]);
        i := i + 1;
      }
      assert rs[..|rs|] == rs;
    }

    /** rtw_coex_tdma: nothing to do when the case does not change, else remember it and program it. */
    method CoexTdma(r: Request)
      modifies this
      ensures Effect(0)
      ensures !old(leisurePs) ==> tdma == Apply(chip, old(tdma), r)
      decreases Flag(), 5
    {
      tdma := tdma.(mode := r.mode);
      var turnOn := TurnsOn(r.kind);
      if !r.always && turnOn == tdma.on && r.kind == tdma.kind {
        return;
      }
      tdma := tdma.(on := turnOn, kind := r.kind);
      if r.kind in chip.tdmaTable {
        SetTdma(chip.tdmaTable[r.kind]);
      }
    }

    /** rtw_coex_set_tdma. */
    method SetTdma(byte1: bv8)
      modifies this
      ensures Effect(0)
      ensures !old(leisurePs) ==>
                tdma == match PsTypeOf(chip, byte1, old(tdma).mode)
                        case WifiNative => old(tdma).(force := false)
                        case LpsOff => old(tdma).(force := true)
                        case LpsOn => old(tdma)
      decreases Flag(), 4
    {
      PowerSaveState(PsTypeOf(chip, byte1, tdma.mode));
    }

    /** rtw_coex_power_save_state. */
    method PowerSaveState(psType: PsType)
      modifies this
      ensures Effect(0) && (psType != LpsOn ==> !leisurePs)
      ensures !old(leisurePs) ==>
                tdma == match psType
                        case WifiNative => old(tdma).(force := false)
                        case LpsOff => old(tdma).(force := true)
                        case LpsOn => old(tdma)
      decreases Flag(), 3
    {
      match psType {
        case WifiNative =>
          tdma := tdma.(force := false);
          LeaveLps();
        case LpsOff =>
          tdma := tdma.(force := true);
          LeaveLps();
        case LpsOn =>
      }
    }

    /** rtw_enter_lps and rtw_enter_lps_core: the flag is set last, after coex and firmware were told. */
    method EnterLps(portId: nat)
      requires Consistent()
      modifies this
      ensures Consistent() && config == old(config)
      ensures old(tdma).force || old(leisurePs) ==>
                leisurePs == old(leisurePs) && conf == old(conf) && pwrLog == old(pwrLog)
                && tdma == old(tdma) && runs == old(runs)
      ensures !old(tdma).force && !old(leisurePs) ==>
                && leisurePs && conf == LpsConf(Lps, RfOff, 1, 1, 2, portId) && pwrLog == old(pwrLog) + [conf]
                && underLps == (old(underLps) || !(config.manualControl || config.stopDm))
                && old(runs) <= runs <= old(runs) + 1
                && tdma == EntryTdma(chip, config, old(tdma), old(runs))
    {
      if tdma.force {
        return;
      }
      if leisurePs {
        return;
      }
      conf := conf.(mode := Lps, portId := portId);
      conf := conf.(state := RfOff, awakeInterval := 1, rlbm := 1, smartPs := 2);
      LpsEnabledNotify();
      pwrLog := pwrLog + [conf];
      leisurePs := true;
    }

    /** rtw_leave_lps as a top-level operation. */
    method Leave()
      requires Consistent()
      modifies this
      ensures Consistent() && config == old(config) && !leisurePs && conf.mode == Active
      ensures pwrLog == old(pwrLog)
                      + if old(leisurePs) then [LpsConf(Active, AllOn, 1, 0, 0, old(conf.portId))] else []
      ensures old(leisurePs) ==> underLps == (old(underLps) && (config.manualControl || config.stopDm))
      ensures runs <= old(runs) + if old(leisurePs) then 1 else 0
    {
      LeaveLps();
    }

    /** A coex run started by a scan, connect, media or bluetooth event. */
    method CoexEvent(reason: Reason)
      requires Consistent()
      modifies this
      ensures Consistent() && config == old(config) && (leisurePs ==> old(leisurePs))
      ensures runs <= old(runs) + 2 && (runs == old(runs) + 2 ==> old(leisurePs) && !leisurePs)
      ensures pwrLog == old(pwrLog)
                      + if leisurePs == old(leisurePs) then [] else [LpsConf(Active, AllOn, 1, 0, 0, old(conf.portId))]
      ensures runs > old(runs)
         <==> && config.running && !config.manualControl && !config.stopDm && !config.underIps
              && (!config.freeze || reason != RsnBtInfo || config.btSetupLink)
    {
      RunCoex(reason);
    }
  }

  /** The TDMA state after a coex run outside LPS. */
  function RunTdma(chip: Chip, c: Config, t: Tdma, underLps: bool, reason: Reason, runs: nat): Tdma
  {
    var u := t.(mode := LinkMode(c));
    ApplyAll(chip, u, Requests(chip, View(c, u, underLps, false, reason, runs + 1)))
  }

  /** The TDMA state after entering LPS. */
  function EntryTdma(chip: Chip, c: Config, t: Tdma, runs: nat): Tdma
  {
    if c.manualControl || c.stopDm || !RunsAction(c, RsnLps) then t
    else RunTdma(chip, c, t, true, RsnLps, runs)
  }

  /** What a request leaves behind: its case and link mode, always; and who controls LPS, as the case's first
      byte says in bits 4 and 5, unless the case is unchanged and not insisted on, or not in the table. */
  lemma ApplyByCase(chip: Chip, t: Tdma, r: Request)
    ensures var n := Apply(chip, t, r);
            && n.kind == r.kind && n.mode == r.mode && (n.on <==> r.kind != 0 && r.kind != 100)
            && n.force == if (!r.always && t.kind == r.kind && (t.on <==> r.kind != 0 && r.kind != 100))
                             || r.kind !in chip.tdmaTable then t.force
                          else if chip.tdmaTable[r.kind] & 0x30 == 0x10 || r.mode == Link2GFree then
                            chip.forceLpsOff || t.force
                          else false
  {
    if r.kind in chip.tdmaTable {
      FirstByte(chip.tdmaTable[r.kind]);
    }
  }

  lemma FirstByte(b: bv8)
    ensures b & 0x30 == 0x10 <==> b & 0x10 != 0 && b & 0x20 == 0
  {
  }

  /** The link mode a run sets before its requests. */
  lemma RunSetsMode(chip: Chip, c: Config, t: Tdma, underLps: bool, reason: Reason, runs: nat)
    requires Requests(chip, View(c, t.(mode := if c.under5G then Link5G else Link2GOnePort), underLps, false, reason, runs + 1)) == []
    ensures RunTdma(chip, c, t, underLps, reason, runs) == t.(mode := if c.under5G then Link5G else Link2GOnePort)
  {
  }

  /** The request is not skipped and its case is in the chip's table. */
  predicate Programs(chip: Chip, t: Tdma, r: Request) { !Skips(t.(mode := r.mode), r) && r.kind in chip.tdmaTable }

  /** The request programs a case that demands LPS off. */
  predicate Demands(chip: Chip, t: Tdma, r: Request)
  {
    Programs(chip, t, r) && PsTypeOf(chip, chip.tdmaTable[r.kind], r.mode) == LpsOff
  }

  /** The request programs a case that hands LPS back to wifi. */
  predicate HandsBack(chip: Chip, t: Tdma, r: Request)
  {
    Programs(chip, t, r) && PsTypeOf(chip, chip.tdmaTable[r.kind], r.mode) == WifiNative
  }

  /** The last of some requests to demand LPS off or to hand it back demands it off. */
  predicate LastDemands(chip: Chip, t: Tdma, rs: seq<Request>)
    decreases |rs|
  {
    rs != [] &&
    var front, last := rs[..|rs| - 1], rs[|rs| - 1];
    var u := ApplyAll(chip, t, front);
    Demands(chip, u, last) || (!HandsBack(chip, u, last) && LastDemands(chip, t, front))
  }

  lemma {:induction false} ForcedIff(chip: Chip, t: Tdma, rs: seq<Request>)
    requires !t.force
    ensures ApplyAll(chip, t, rs).force <==> LastDemands(chip, t, rs)
    decreases |rs|
  {
    if rs != [] {
      var front, last := rs[..|rs| - 1], rs[|rs| - 1];
      assert rs == front + [last];
      ApplyAllSnoc(chip, t, front, last);
      ForcedIff(chip, t, front);
    }
  }

  /** The requests of the coex run on the way into LPS, and the TDMA state it starts from. */
  function EntryStart(c: Config, t: Tdma): Tdma { t.(mode := LinkMode(c)) }

  function EntryRequests(chip: Chip, c: Config, t: Tdma, runs: nat): seq<Request>
  {
    Requests(chip, View(c, EntryStart(c, t), true, false, RsnLps, runs + 1))
  }

  /**
    LPS can be entered although coex, told about it on the way in, has just demanded that LPS be off: the
    nested leave finds the flag still clear. On any chip and link this happens exactly when the coex run is
    not gated off and the last of its requests to decide about LPS demands it off.
   */
  lemma EnteredAgainstCoexIff(chip: Chip, c: Config, t: Tdma, runs: nat)
    requires !t.force
    ensures EntryTdma(chip, c, t, runs).force
       <==> RunsAction(c, RsnLps) && LastDemands(chip, EntryStart(c, t), EntryRequests(chip, c, t, runs))
  {
    ForcedIff(chip, EntryStart(c, t), EntryRequests(chip, c, t, runs));
  }

  /**
    On 2G with bluetooth enabled, where native LPS is the action: exactly when the TDMA case changes and
    either a game controller is paired or the chip's off case is itself a forced one, on a chip that forces
    LPS off.
   */
  lemma NativeLpsForcesIff(chip: Chip, c: Config, t: Tdma, runs: nat)
    requires !t.force && !c.under5G && !c.btDisabled
    ensures EntryTdma(chip, c, t, runs).force
       <==> && RunsAction(c, RsnLps)
            && (t.on || t.kind != OffKind(chip)) && OffKind(chip) in chip.tdmaTable
            && chip.forceLpsOff
            && var b := chip.tdmaTable[OffKind(chip)];
               (c.btGameHid || (b & 0x10 != 0 && b & 0x20 == 0))
  {
    if RunsAction(c, RsnLps) {
      var u := t.(mode := LinkMode(c));
      var r := Request(false, OffKind(chip), if c.btGameHid then Link2GFree else Link2GOnePort);
      var rs := Requests(chip, View(c, u, true, false, RsnLps, runs + 1));
      assert rs == [r] && rs[1..] == [];
      assert ApplyAll(chip, u, rs) == Apply(chip, u, r);
    }
  }

  /** A chip with an off case and a paired game controller: LPS is entered, forced off. */
  method EnterAgainstCoex(d: Driver)
    requires d.chip.tdmaTable == map[0 := 0 as bv8] && d.chip.shareAnt && d.chip.forceLpsOff && d.Consistent()
    requires d.config == Config(true, false, false, false, false, false, false, false, true)
    requires !d.leisurePs && !d.tdma.force && d.tdma.kind == 8
    modifies d
    ensures d.leisurePs && d.tdma.force
  {
    NativeLpsForcesIff(d.chip, d.config, d.tdma, d.runs);
    d.EnterLps(0);
  }

  /** A chip without TDMA cases, such as the 8812A, never forces LPS off, whatever its actions ask for. */
  lemma {:induction false} EmptyTableNeverForces(chip: Chip, t: Tdma, rs: seq<Request>)
    requires chip.tdmaTable == map[]
    ensures ApplyAll(chip, t, rs).force == t.force
    decreases |rs|
  {
    if rs != [] {
      EmptyTableNeverForces(chip, Apply(chip, t, rs[0]), rs[1..]);
    }
  }

  /** The operations of a run, and changes of the inputs between them. */
  datatype Op = Enter(portId: nat) | LeaveOp | Coex(reason: Reason) | Reconfigure(config: Config)

  /**
    Any run of operations: the flag, the configuration and the firmware's last order agree after each
    of them, and every operation sends at most one order and starts at most two coex runs.
   */
  method RunAll(d: Driver, ops: seq<Op>)
    requires d.Consistent()
    modifies d
    ensures d.Consistent()
    ensures |d.pwrLog| <= |old(d.pwrLog)| + |ops| && d.runs <= old(d.runs) + 2 * |ops|
  {
    for i := 0 to |ops|
      invariant d.Consistent()
      invariant |d.pwrLog| <= |old(d.pwrLog)| + i && d.runs <= old(d.runs) + 2 * i
    {
      match ops[i] {
        case Enter(portId) => d.EnterLps(portId);
        case LeaveOp => d.Leave();
        case Coex(reason) => d.CoexEvent(reason);
        case Reconfigure(c) => d.config := c;
      }
    }
  }
}
