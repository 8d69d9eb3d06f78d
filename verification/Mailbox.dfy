/**
  The host-to-card mailbox of fw.c: four boxes used in rotation by the driver, drained in rotation by
  the firmware. Both senders poll the busy bit of the next box, write its extension word, write its
  main word (which hands the box over) and advance. The firmware runs concurrently.
 */
module Mailbox {

  type u32 = x: int | 0 <= x < 0x1_0000_0000

  datatype Msg = Msg(ex: u32, main: u32)

  /** The box registers, the busy bits of REG_HMETFR, and the firmware's side. */
  datatype Boxes = Boxes(busy: seq<bool>, ex: seq<u32>, main: seq<u32>, next: nat, received: seq<Msg>)

  predicate BoxesOk(b: Boxes) { |b.busy| == |b.ex| == |b.main| == 4 && b.next < 4 }

  /** The firmware takes the command out of the next box in rotation, if there is one. */
  function DrainBoxes(b: Boxes): Boxes
    requires BoxesOk(b)
  {
    if !b.busy[b.next] then b
    else b.(busy := b.busy[b.next := false], next := (b.next + 1) % 4,
            received := b.received + [Msg(b.ex[b.next], b.main[b.next])])
  }

  // ---------------------------------------------------------------- sender steps and firmware steps

  /** Where the sender is. The mutex held by both senders means that there is one of it. */
  datatype Pc = Idle | Polling(msg: Msg) | ToWriteEx(msg: Msg) | ToWriteMain(msg: Msg) | ToAdvance

  /** `accepted` lists the commands handed over so far. */
  datatype State = State(lastBox: nat, pc: Pc, boxes: Boxes, accepted: seq<Msg>)

  datatype Event = Begin(msg: Msg) | Poll | TimeOut | WriteEx | WriteMain | Advance | Drain

  predicate StateOk(s: State) { s.lastBox < 4 && BoxesOk(s.boxes) }

  /** One step; an event that the sender is not ready for changes nothing. */
  function Step(s: State, e: Event): (r: State)
    requires StateOk(s)
    ensures StateOk(r)
  {
    match (e, s.pc)
    case (Begin(m), Idle) => s.(pc := Polling(m))
    case (Poll, Polling(m)) => if s.boxes.busy[s.lastBox] then s else s.(pc := ToWriteEx(m))
    case (TimeOut, Polling(_)) => s.(pc := Idle)
    case (WriteEx, ToWriteEx(m)) =>
      s.(boxes := s.boxes.(ex := s.boxes.ex[s.lastBox := m.ex]), pc := ToWriteMain(m))
    case (WriteMain, ToWriteMain(m)) =>
      s.(boxes := s.boxes.(main := s.boxes.main[s.lastBox := m.main], busy := s.boxes.busy[s.lastBox := true]),
         pc := ToAdvance, accepted := s.accepted + [m])
    case (Advance, ToAdvance) => s.(lastBox := if s.lastBox + 1 >= 4 then 0 else s.lastBox + 1, pc := Idle)
    case (Drain, _) => s.(boxes := DrainBoxes(s.boxes))
    case _ => s
  }

  function Run(s: State, es: seq<Event>): (r: State)
    requires StateOk(s)
    ensures StateOk(r)
    decreases |es|
  {
    if es == [] then s else Run(Step(s, es[0]), es[1..])
  }

  const EMPTY_BOXES := Boxes([false, false, false, false], [0, 0, 0, 0], [0, 0, 0, 0], 0, [])

  /** After a firmware download: no box busy, the rotation restarted on both sides. */
  const FRESH := State(0, Idle, EMPTY_BOXES, [])

  // ---------------------------------------------------------------- the invariant

  /** The box j places after the firmware's position. */
  function Slot(b: Boxes, j: nat): nat { (b.next + j) % 4 }

  /** Exactly the k boxes from the firmware's position on are busy. */
  predicate Window(b: Boxes, k: nat)
    requires BoxesOk(b)
  {
    k <= 4 && forall j: nat | j < 4 :: b.busy[Slot(b, j)] <==> j < k
  }

  function Pending(b: Boxes, k: nat): seq<Msg>
    requires BoxesOk(b)
  {
    seq(k, j requires 0 <= j < k => Msg(b.ex[Slot(b, j)], b.main[Slot(b, j)]))
  }

  /** The box that the next completed send uses or used up. */
  function Frontier(s: State): nat { if s.pc.ToAdvance? then (s.lastBox + 1) % 4 else s.lastBox }

  /**
    k commands are pending, in a contiguous cyclic window that ends just before the frontier; the box
    being written is not busy and holds the extension word already written; and what was handed over
    is what was received followed by what is pending.
   */
  ghost predicate Inv(s: State, k: nat)
  {
    && StateOk(s) && Window(s.boxes, k)
    && Frontier(s) == Slot(s.boxes, k)
    && (s.pc.ToWriteEx? || s.pc.ToWriteMain? ==> k < 4)
    && (s.pc.ToWriteMain? ==> s.boxes.ex[s.lastBox] == s.pc.msg.ex)
    && s.accepted == s.boxes.received + Pending(s.boxes, k)
  }

  lemma DrainKeepsInv(s: State, k: nat)
    requires Inv(s, k)
    ensures Inv(Step(s, Drain), if k == 0 then 0 else k - 1)
  {
    var b := s.boxes;
    assert Slot(b, 0) == b.next;
    if k > 0 {
      var c := DrainBoxes(b);
      forall j: nat | j < 4 ensures Slot(c, j) == Slot(b, j + 1) {}
      assert Slot(c, 3) == b.next;
      assert Pending(b, k) == [Msg(b.ex[b.next], b.main[b.next])] + Pending(c, k - 1);
    }
  }

  lemma WriteMainKeepsInv(s: State, k: nat)
    requires Inv(s, k) && s.pc.ToWriteMain?
    ensures Inv(Step(s, WriteMain), k + 1)
  {
    var b := s.boxes;
    var c := Step(s, WriteMain).boxes;
    assert s.lastBox == Slot(b, k);
    forall j: nat | j < 4 ensures Slot(c, j) == Slot(b, j) && (Slot(b, j) == s.lastBox <==> j == k) {}
    assert Pending(c, k + 1) == Pending(b, k) + [s.pc.msg];
  }

  lemma WriteExKeepsInv(s: State, k: nat)
    requires Inv(s, k) && s.pc.ToWriteEx?
    ensures Inv(Step(s, WriteEx), k)
  {
    var b := s.boxes;
    var c := Step(s, WriteEx).boxes;
    forall j: nat | j < 4 ensures Slot(c, j) == Slot(b, j) && (j < k ==> Slot(b, j) != s.lastBox) {}
    assert Pending(c, k) == Pending(b, k);
  }

  /** How many commands are pending after a step. */
  function After(s: State, k: nat, e: Event): nat
  {
    if e == Drain then (if k == 0 then 0 else k - 1)
    else if e == WriteMain && s.pc.ToWriteMain? then k + 1 else k
  }

  lemma StepKeepsInv(s: State, k: nat, e: Event)
    requires Inv(s, k)
    ensures Inv(Step(s, e), After(s, k, e))
  {
    match (e, s.pc) {
      case (Drain, _) => DrainKeepsInv(s, k);
      case (WriteMain, ToWriteMain(_)) => WriteMainKeepsInv(s, k);
      case (WriteEx, ToWriteEx(_)) => WriteExKeepsInv(s, k);
      case (Poll, Polling(_)) =>
        assert Slot(s.boxes, 4) == Slot(s.boxes, 0);
      case _ =>
    }
  }

  /** Every interleaving of sender steps and firmware steps keeps the invariant. */
  lemma {:induction false} RunKeepsInv(s: State, k: nat, es: seq<Event>) returns (k': nat)
    requires Inv(s, k)
    ensures Inv(Run(s, es), k')
    decreases |es|
  {
    if es == [] {
      k' := k;
    } else {
      StepKeepsInv(s, k, es[0]);
      k' := RunKeepsInv(Step(s, es[0]), After(s, k, es[0]), es[1..]);
    }
  }

  lemma FreshInv()
    ensures Inv(FRESH, 0)
  {
    assert Pending(EMPTY_BOXES, 0) == [];
  }

  /**
    Safety over every run from a fresh firmware: the firmware has received exactly the commands handed
    over, whole and in order, up to at most four that are still in the boxes; and whenever the sender
    is about to write a box, that box is not busy.
   */
  lemma EveryRunIsSafe(es: seq<Event>)
    ensures var s := Run(FRESH, es);
            && s.boxes.received <= s.accepted
            && |s.accepted| - |s.boxes.received| <= 4
            && (s.pc.ToWriteEx? || s.pc.ToWriteMain? ==> !s.boxes.busy[s.lastBox])
            && exists k: nat {:trigger Window(s.boxes, k)} ::
                 && Window(s.boxes, k) && Frontier(s) == Slot(s.boxes, k)
                 && k == |s.accepted| - |s.boxes.received|
                 && s.accepted[|s.boxes.received|..] == Pending(s.boxes, k)
  {
    FreshInv();
    var k := RunKeepsInv(FRESH, 0, es);
    var s := Run(FRESH, es);
    assert s.accepted[|s.boxes.received|..] == Pending(s.boxes, k);
    assert Window(s.boxes, k);
  }

  /** How many commands are pending. */
  function Queued(s: State): int { |s.accepted| - |s.boxes.received| }

  /** In every run the box that a sender polls is busy iff four commands are pending, and a firmware step
      takes one of them. */
  lemma BusyIffFull(es: seq<Event>)
    ensures var s := Run(FRESH, es);
            && 0 <= Queued(s) <= 4
            && (s.pc.Polling? ==> (s.boxes.busy[s.lastBox] <==> Queued(s) == 4))
            && Queued(Step(s, Drain)) == if Queued(s) == 0 then 0 else Queued(s) - 1
  {
    FreshInv();
    var k := RunKeepsInv(FRESH, 0, es);
    var s := Run(FRESH, es);
    assert Queued(s) == k;
    assert Slot(s.boxes, 4) == Slot(s.boxes, 0);
    assert Queued(Step(s, Drain)) == if k == 0 then 0 else k - 1 by { DrainKeepsInv(s, k); }
  }

  /** Left alone, the firmware receives everything that was handed over within four steps. */
  lemma FourDrainsSuffice(es: seq<Event>)
    ensures var s := Run(Run(FRESH, es), [Drain, Drain, Drain, Drain]);
            s.boxes.received == s.accepted == Run(FRESH, es).accepted
  {
    FreshInv();
    var k := RunKeepsInv(FRESH, 0, es);
    var s0 := Run(FRESH, es);
    var s1 := Step(s0, Drain);
    var s2 := Step(s1, Drain);
    var s3 := Step(s2, Drain);
    var s4 := Step(s3, Drain);
    var k1, k2, k3 := After(s0, k, Drain), After(s1, After(s0, k, Drain), Drain), 0;
    DrainKeepsInv(s0, k);
    DrainKeepsInv(s1, k1);
    DrainKeepsInv(s2, k2);
    k3 := After(s2, k2, Drain);
    DrainKeepsInv(s3, k3);
    assert Pending(s4.boxes, 0) == [];
    RunFour(s0);
  }

  lemma RunFour(s: State)
    requires StateOk(s)
    ensures Run(s, [Drain, Drain, Drain, Drain]) == Step(Step(Step(Step(s, Drain), Drain), Drain), Drain)
  {
    var es := [Drain, Drain, Drain, Drain];
    assert es[1..] == [Drain, Drain, Drain] && es[1..][1..] == [Drain, Drain];
    assert es[1..][1..][1..] == [Drain] && es[1..][1..][1..][1..] == [];
    var s2 := Step(Step(s, Drain), Drain);
    assert Run(s, es) == Run(s2, [Drain, Drain]);
    assert [Drain, Drain][1..] == [Drain] && [Drain][1..] == [];
  }

  lemma {:induction false} RunConcat(s: State, a: seq<Event>, b: seq<Event>)
    requires StateOk(s)
    ensures Run(s, a + b) == Run(Run(s, a), b)
    decreases |a|
  {
    if a == [] {
      assert a + b == b;
    } else {
      assert (a + b)[0] == a[0] && (a + b)[1..] == a[1..] + b;
      RunConcat(Step(s, a[0]), a[1..], b);
    }
  }

  predicate Waiting(es: seq<Event>) { forall i | 0 <= i < |es| :: es[i] == Poll || es[i] == Drain }

  function DrainsOf(es: seq<Event>): seq<Event>
  {
    if es == [] then [] else (if es[0] == Drain then [Drain] else []) + DrainsOf(es[1..])
  }

  lemma {:induction false} PollsAreInvisible(s: State, m: Msg, es: seq<Event>)
    requires StateOk(s) && s.pc == Polling(m) && Waiting(es) && Run(s, es).pc == Polling(m)
    ensures Run(s, es) == Run(s.(pc := Idle), DrainsOf(es)).(pc := Polling(m))
    decreases |es|
  {
    if es != [] {
      var rest := es[1..];
      var s1 := Step(s, es[0]);
      if s1.pc != Polling(m) {
        NeverBack(s1, m, rest);
      }
      PollsAreInvisible(s1, m, rest);
      if es[0] == Drain {
        assert DrainsOf(es)[0] == Drain && DrainsOf(es)[1..] == DrainsOf(rest);
      } else {
        assert DrainsOf(es) == DrainsOf(rest);
      }
    }
  }

  lemma {:induction false} NeverBack(s: State, m: Msg, es: seq<Event>)
    requires StateOk(s) && s.pc == ToWriteEx(m) && Waiting(es)
    ensures Run(s, es).pc == ToWriteEx(m)
    decreases |es|
  {
    if es != [] {
      NeverBack(Step(s, es[0]), m, es[1..]);
    }
  }

  /** A send that times out leaves nothing behind: only the firmware's own steps have happened. */
  lemma TimedOutSendChangesNothing(s: State, m: Msg, es: seq<Event>)
    requires StateOk(s) && s.pc == Idle && Waiting(es)
    requires Run(Step(s, Begin(m)), es).pc == Polling(m)
    ensures Step(Run(Step(s, Begin(m)), es), TimeOut) == Run(s, DrainsOf(es))
  {
    PollsAreInvisible(Step(s, Begin(m)), m, es);
    OnlyDrainsKeepIdle(s, es);
  }

  lemma {:induction false} OnlyDrainsKeepIdle(s: State, es: seq<Event>)
    requires StateOk(s)
    ensures Run(s, DrainsOf(es)).pc == s.pc
    decreases |es|
  {
    if es != [] {
      var rest := es[1..];
      if es[0] == Drain {
        assert DrainsOf(es)[0] == Drain && DrainsOf(es)[1..] == DrainsOf(rest);
        OnlyDrainsKeepIdle(Step(s, Drain), rest);
      } else {
        assert DrainsOf(es) == DrainsOf(rest);
        OnlyDrainsKeepIdle(s, rest);
      }
    }
  }

  // ---------------------------------------------------------------- the driver code

  /** The driver's rotation counter and the device, with the history that led here. */
  class H2cDriver {
    var lastBoxNum: nat
    var boxes: Boxes
    ghost var accepted: seq<Msg>
    ghost var history: seq<Event>

    ghost predicate At(pc: Pc)
      reads this
    {
      Run(FRESH, history) == State(lastBoxNum, pc, boxes, accepted)
    }

    ghost function Pending(): int
      reads this
    {
      |accepted| - |boxes.received|
    }

    constructor ()
      ensures At(Idle) && accepted == [] && boxes == EMPTY_BOXES
    {
      lastBoxNum := 0;
      boxes := EMPTY_BOXES;
      accepted := [];
      history := [];
    }

    ghost method Happened(e: Event, pc: Pc)
      requires At(pc)
      modifies this`history
      ensures StateOk(State(lastBoxNum, pc, boxes, accepted))
      ensures history == old(history) + [e]
      ensures Run(FRESH, history) == Step(State(lastBoxNum, pc, boxes, accepted), e)
    {
      history := history + [e];
      RunConcat(FRESH, old(history), [e]);
      assert [e][1..] == [];
    }

    /** The firmware gets the chance to take up to n commands. */
    method FirmwareRuns(n: nat, ghost pc: Pc)
      requires At(pc)
      modifies this
      ensures At(pc) && lastBoxNum == old(lastBoxNum) && accepted == old(accepted)
      ensures old(history) <= history
      ensures Pending() == if old(Pending()) > n then old(Pending()) - n else 0
    {
      BusyIffFull(history);
      for i := 0 to n
        invariant At(pc) && lastBoxNum == old(lastBoxNum) && accepted == old(accepted)
        invariant old(history) <= history
        invariant Pending() == if old(Pending()) > i then old(Pending()) - i else 0
      {
        assert StateOk(Run(FRESH, history));
        BusyIffFull(history);
        Happened(Drain, pc);
        boxes := DrainBoxes(boxes);
      }
    }

    /** The polls find the box free, sooner or later, iff there is a poll at all and either fewer than four
        commands were pending or the firmware takes one before some poll. */
    ghost predicate FreesUp(polls: seq<nat>)
      reads this
    {
      polls != [] && (Pending() < 4 || exists i :: 0 <= i < |polls| && polls[i] > 0)
    }

    /** The poll loop: wait, within the timeout, until the box to be used is not busy. */
    method WaitForBox(ghost m: Msg, polls: seq<nat>) returns (clear: bool)
      requires At(Polling(m))
      modifies this
      ensures lastBoxNum == old(lastBoxNum) && accepted == old(accepted)
      ensures old(history) <= history && At(if clear then ToWriteEx(m) else Polling(m))
      ensures clear <==> old(FreesUp(polls))
    {
      clear := false;
      ghost var before := Pending();
      var i := 0;
      while i < |polls| && !clear
        invariant 0 <= i <= |polls| && lastBoxNum == old(lastBoxNum) && accepted == old(accepted)
        invariant old(history) <= history && At(if clear then ToWriteEx(m) else Polling(m))
        invariant clear ==> i > 0 && (before < 4 || polls[i - 1] > 0)
        invariant !clear ==> Pending() == before && (i == 0 || before == 4) && forall j | 0 <= j < i :: polls[j] == 0
      {
        clear := PollOnce(m, polls[i]);
        i := i + 1;
      }
    }

    /** The firmware's progress up to a poll, and the poll. */
    method PollOnce(ghost m: Msg, progress: nat) returns (clear: bool)
      requires At(Polling(m))
      modifies this
      ensures lastBoxNum == old(lastBoxNum) && accepted == old(accepted)
      ensures old(history) <= history && At(if clear then ToWriteEx(m) else Polling(m))
      ensures old(Pending()) <= 4 && (clear <==> old(Pending()) < 4 || progress > 0)
      ensures !clear ==> Pending() == 4
    {
      BusyIffFull(history);
      FirmwareRuns(progress, Polling(m));
      BusyIffFull(history);
      assert StateOk(Run(FRESH, history));
      Happened(Poll, Polling(m));
      clear := !boxes.busy[lastBoxNum];
    }

    /**
      rtw_fw_send_h2c_command_register and rtw_fw_send_h2c_command. `polls` says how far the firmware
      gets before each of the polls that fit in the timeout, `gap1` and `gap2` how far it gets before
      the two box writes.
     */
    method Send(m: Msg, polls: seq<nat>, gap1: nat, gap2: nat) returns (ok: bool)
      requires At(Idle)
      modifies this
      ensures At(Idle) && old(history) <= history
      ensures ok <==> old(FreesUp(polls))
      ensures accepted == old(accepted) + if ok then [m] else []
      ensures lastBoxNum == if ok then (old(lastBoxNum) + 1) % 4 else old(lastBoxNum)
    {
      assert StateOk(Run(FRESH, history));
      Happened(Begin(m), Idle);
      ok := WaitForBox(m, polls);
      if ok {
        WriteBox(m, gap1, gap2);
        AdvanceBox();
      } else {
        Happened(TimeOut, Polling(m));
      }
    }

    /** The two box writes. */
    method WriteBox(m: Msg, gap1: nat, gap2: nat)
      requires At(ToWriteEx(m))
      modifies this
      ensures At(ToAdvance) && old(history) <= history
      ensures accepted == old(accepted) + [m] && lastBoxNum == old(lastBoxNum)
    {
      var box := lastBoxNum;
      FirmwareRuns(gap1, ToWriteEx(m));
      Happened(WriteEx, ToWriteEx(m));
      assert StateOk(Run(FRESH, history));
      boxes := boxes.(ex := boxes.ex[box := m.ex]);
      FirmwareRuns(gap2, ToWriteMain(m));
      Happened(WriteMain, ToWriteMain(m));
      boxes := boxes.(main := boxes.main[box := m.main], busy := boxes.busy[box := true]);
      accepted := accepted + [m];
    }

    method AdvanceBox()
      requires At(ToAdvance)
      modifies this
      ensures At(Idle) && old(history) <= history && accepted == old(accepted)
      ensures lastBoxNum == (old(lastBoxNum) + 1) % 4
    {
      Happened(Advance, ToAdvance);
      lastBoxNum := lastBoxNum + 1;
      if lastBoxNum >= 4 {
        lastBoxNum := 0;
      }
    }

    /** A firmware download restarts the rotation. */
    method FirmwareDownloaded()
      modifies this
      ensures At(Idle) && lastBoxNum == 0 && accepted == [] && boxes == EMPTY_BOXES
    {
      lastBoxNum := 0;
      boxes := EMPTY_BOXES;
      accepted := [];
      history := [];
    }
  }
}
