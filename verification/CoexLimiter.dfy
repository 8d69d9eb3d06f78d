/**
  The coexistence tx limiter (coex.c): while bluetooth is busy, retry limit, rate fallback tables and
  A-MPDU time are replaced by small values; the originals are saved when a limit goes on and written
  back when it goes off.
 */
module CoexLimiter {

  const RETRY_LIMITED := 0x0808
  const DARFRC_LIMITED := 0x1000000
  const DARFRCH_LIMITED := 0x4030201
  const AMPDU_LIMITED := 0x20

  /** The registers the limiter writes: four whole ones, the lifetime enable nibble, and the grant bit. */
  datatype Regs = Regs(retry: nat, darfrc: nat, darfrch: nat, ampdu: nat, lifetime: nat, gntAwake: bool)

  /** coex_stat: which limits are on, and the saved register contents. */
  datatype Stat = Stat(txOn: bool, ampduOn: bool, retry: nat, darfrc: nat, darfrch: nat, ampdu: nat)

  datatype State = State(regs: Regs, stat: Stat)

  /** rtw_coex_init_coex_var clears the whole of coex_stat. */
  const CLEARED := Stat(false, false, 0, 0, 0, 0)

  function Save(s: State): Stat
  {
    var t := s.stat;
    var t1 := if t.txOn then t else t.(retry := s.regs.retry, darfrc := s.regs.darfrc, darfrch := s.regs.darfrch);
    if t.ampduOn then t1 else t1.(ampdu := s.regs.ampdu)
  }

  /** rtw_coex_limited_tx. */
  function LimitedTx(s: State, scbd: bool, tx: bool, ampdu: bool): State
  {
    if !scbd || (s.stat.txOn == tx && s.stat.ampduOn == ampdu) then s
    else
      var t := Save(s).(txOn := tx, ampduOn := ampdu);
      var r := if tx then s.regs.(gntAwake := true, lifetime := 0xf, retry := RETRY_LIMITED,
                                  darfrc := DARFRC_LIMITED, darfrch := DARFRCH_LIMITED)
               else s.regs.(gntAwake := false, lifetime := 0, retry := t.retry, darfrc := t.darfrc,
                            darfrch := t.darfrch);
      State(r.(ampdu := if ampdu then AMPDU_LIMITED else t.ampdu), t)
  }

  /** Registers hold the originals while their limit is off; the saved copies hold them while it is on. */
  predicate Restores(s: State, o: Regs)
  {
    && (if s.stat.txOn then
          && (s.stat.retry, s.stat.darfrc, s.stat.darfrch) == (o.retry, o.darfrc, o.darfrch)
          && (s.regs.retry, s.regs.darfrc, s.regs.darfrch) == (RETRY_LIMITED, DARFRC_LIMITED, DARFRCH_LIMITED)
        else (s.regs.retry, s.regs.darfrc, s.regs.darfrch) == (o.retry, o.darfrc, o.darfrch))
    && (if s.stat.ampduOn then s.stat.ampdu == o.ampdu && s.regs.ampdu == AMPDU_LIMITED
        else s.regs.ampdu == o.ampdu)
  }

  function Run(s: State, scbd: bool, requests: seq<(bool, bool)>): State
    decreases |requests|
  {
    if requests == [] then s
    else Run(LimitedTx(s, scbd, requests[0].0, requests[0].1), scbd, requests[1..])
  }

  /** Every sequence of requests can be undone: the originals are either in place or saved, always. */
  lemma {:induction false} OriginalsSurvive(s: State, o: Regs, scbd: bool, requests: seq<(bool, bool)>)
    requires Restores(s, o)
    ensures Restores(Run(s, scbd, requests), o)
    decreases |requests|
  {
    if requests != [] {
      OriginalsSurvive(LimitedTx(s, scbd, requests[0].0, requests[0].1), o, scbd, requests[1..]);
    }
  }

  /** After any requests from the initial state, switching both limits off gives the original registers. */
  lemma SwitchingOffRestores(o: Regs, requests: seq<(bool, bool)>)
    ensures var s := LimitedTx(Run(State(o, CLEARED), true, requests), true, false, false);
            s.regs.(lifetime := 0, gntAwake := false) == o.(lifetime := 0, gntAwake := false)
  {
    OriginalsSurvive(State(o, CLEARED), o, true, requests);
  }

  /** The two fields that are not saved follow the tx limit. */
  predicate Follows(s: State) { s.regs.gntAwake == s.stat.txOn && s.regs.lifetime == if s.stat.txOn then 0xf else 0 }

  predicate AllOff(requests: seq<(bool, bool)>) { forall i | 0 <= i < |requests| :: requests[i] == (false, false) }

  /** They do so from the first request on that asks for any limit. */
  lemma {:induction false} FollowsFromFirst(s: State, requests: seq<(bool, bool)>)
    requires Follows(s) || (!s.stat.txOn && !s.stat.ampduOn && !AllOff(requests))
    ensures Follows(Run(s, true, requests))
    decreases |requests|
  {
    if requests != [] {
      var rest := requests[1..];
      if requests[0] == (false, false) && AllOff(rest) {
        assert forall i | 0 < i < |requests| :: requests[i] == rest[i - 1];
      }
      FollowsFromFirst(LimitedTx(s, true, requests[0].0, requests[0].1), rest);
    }
  }

  lemma {:induction false} OffStaysOff(s: State, requests: seq<(bool, bool)>)
    requires !s.stat.txOn && !s.stat.ampduOn && AllOff(requests)
    ensures Run(s, true, requests) == s
    decreases |requests|
  {
    if requests != [] {
      OffStaysOff(s, requests[1..]);
    }
  }

  /** The lifetime nibble and the grant bit are not saved: after any requests, switching both limits off gives
      back all registers iff no limit was ever asked for, or the two fields were clear before. */
  lemma LifetimeRestoredIff(o: Regs, requests: seq<(bool, bool)>)
    ensures LimitedTx(Run(State(o, CLEARED), true, requests), true, false, false).regs == o
       <==> AllOff(requests) || (o.lifetime == 0 && !o.gntAwake)
  {
    if AllOff(requests) {
      OffStaysOff(State(o, CLEARED), requests);
    } else {
      FollowsFromFirst(State(o, CLEARED), requests);
      SwitchingOffRestores(o, requests);
    }
  }

  /** A requested limit is on afterwards, in numbers, and one not requested leaves the original; after any
      earlier requests. */
  lemma RequestedLimits(o: Regs, requests: seq<(bool, bool)>, tx: bool, ampdu: bool)
    ensures var n := LimitedTx(Run(State(o, CLEARED), true, requests), true, tx, ampdu);
            && n.stat.txOn == tx && n.stat.ampduOn == ampdu
            && (tx ==> n.regs.retry == 0x0808 && n.regs.darfrc == 0x1000000 && n.regs.darfrch == 0x4030201)
            && (!tx ==> n.regs.retry == o.retry && n.regs.darfrc == o.darfrc && n.regs.darfrch == o.darfrch)
            && n.regs.ampdu == (if ampdu then 0x20 else o.ampdu)
            && (tx || ampdu ==> n.regs.gntAwake == tx && n.regs.lifetime == if tx then 0xf else 0)
  {
    var s := Run(State(o, CLEARED), true, requests);
    OriginalsSurvive(State(o, CLEARED), o, true, requests);
    if AllOff(requests) {
      OffStaysOff(State(o, CLEARED), requests);
    } else {
      FollowsFromFirst(State(o, CLEARED), requests);
    }
  }

  /** Re-initialising coex while a limit is on forgets the originals: they survive iff no limit was on, or
      they happen to be the limited values. */
  lemma ReinitialisationKeepsIff(s: State, o: Regs)
    requires Restores(s, o)
    ensures Restores(s.(stat := CLEARED), o)
       <==> && (s.stat.txOn ==> (o.retry, o.darfrc, o.darfrch) == (RETRY_LIMITED, DARFRC_LIMITED, DARFRCH_LIMITED))
            && (s.stat.ampduOn ==> o.ampdu == AMPDU_LIMITED)
  {
  }

  /** An input for each: the A-MPDU limit alone, with the lifetime nibble set before, and a coex
      re-initialisation while limits are on. */
  lemma LifetimeLost(o: Regs)
    requires o.lifetime == 0xf
    ensures LimitedTx(State(o, CLEARED), true, false, true).regs.lifetime == 0
  {
  }

  lemma OriginalLost(o: Regs)
    requires o.retry == 0x3030
    ensures var s := LimitedTx(State(o, CLEARED), true, true, true);
            LimitedTx(LimitedTx(s.(stat := CLEARED), true, true, true), true, false, false).regs.retry == RETRY_LIMITED
  {
  }

  /** Chips without a scoreboard, such as the 8812A, are not limited at all: nothing ever changes. */
  lemma {:induction false} NoScoreboardNoChange(s: State, requests: seq<(bool, bool)>)
    ensures Run(s, false, requests) == s
    decreases |requests|
  {
    if requests != [] {
      NoScoreboardNoChange(s, requests[1..]);
    }
  }

  class Coex {
    const scbdSupport: bool
    var regs: Regs
    var stat: Stat

    constructor (scbdSupport: bool, regs: Regs)
      ensures this.scbdSupport == scbdSupport && this.regs == regs && stat == CLEARED
    {
      this.scbdSupport, this.regs, stat := scbdSupport, regs, CLEARED;
    }

    /** rtw_coex_limited_tx, register by register. */
    method LimitTx(txLimit: bool, ampduLimit: bool)
      modifies this
      ensures State(regs, stat) == LimitedTx(old(State(regs, stat)), scbdSupport, txLimit, ampduLimit)
    {
      if !scbdSupport {
        return;
      }
      if stat.txOn == txLimit && stat.ampduOn == ampduLimit {
        return;
      }
      if !stat.txOn {
        stat := stat.(darfrc := regs.darfrc);
        stat := stat.(darfrch := regs.darfrch);
        stat := stat.(retry := regs.retry);
      }
      if !stat.ampduOn {
        stat := stat.(ampdu := regs.ampdu);
      }
      stat := stat.(txOn := txLimit, ampduOn := ampduLimit);
      if txLimit {
        regs := regs.(gntAwake := true);
        regs := regs.(lifetime := 0xf);
        regs := regs.(retry := RETRY_LIMITED);
        regs := regs.(darfrc := DARFRC_LIMITED);
        regs := regs.(darfrch := DARFRCH_LIMITED);
      } else {
        regs := regs.(gntAwake := false);
        regs := regs.(lifetime := 0);
        regs := regs.(retry := stat.retry);
        regs := regs.(darfrc := stat.darfrc);
        regs := regs.(darfrch := stat.darfrch);
      }
      if ampduLimit {
        regs := regs.(ampdu := AMPDU_LIMITED);
      } else {
        regs := regs.(ampdu := stat.ampdu);
      }
    }
  }
}
