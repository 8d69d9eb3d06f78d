/**
  The conditional PHY table interpreter of phy.c.

  A table is a flat array of 32-bit words read two at a time as tiles. Some tiles are register
  entries; the others are control tiles that open, test, switch and close IF/ELIF/ELSE/ENDIF
  blocks. The driver interprets the stream in one pass with two flags and one remembered condition.
 */
module PhyTable {

  /** The fields of a condition that matter, as the two words of an IF or ELIF tile hold them. */
  datatype Cond = Cond(cut: bv4, pkg: bv4, intf: bv4, rfe: bv8, glna: bv8, gpa: bv8, alna: bv8, apa: bv8)

  /** The hardware description that conditions are compared with. */
  datatype Hardware = Hardware(jaguar1: bool, cond: Cond)

  /** One table tile: two words, read as what their top four bits say they are. */
  datatype Tile =
    | If(cond: Cond)
    | Elif(cond: Cond)
    | ElseMark
    | EndIf
    | Test
    | Entry(addr: bv32, data: bv32)

  function DecodeCond(w0: bv32, w1: bv32): Cond
  {
    Cond(((w0 >> 24) & 0xf) as bv4, ((w0 >> 12) & 0xf) as bv4, ((w0 >> 8) & 0xf) as bv4, (w0 & 0xff) as bv8,
         (w1 & 0xff) as bv8, ((w1 >> 8) & 0xff) as bv8, ((w1 >> 16) & 0xff) as bv8, ((w1 >> 24) & 0xff) as bv8)
  }

  /** The bit layout of a tile: bit 31 `pos`, bit 30 `neg`, bits 29..28 `branch`. */
  function Decode(w0: bv32, w1: bv32): Tile
  {
    if w0 & 0x8000_0000 != 0 then
      var branch := (w0 >> 28) & 3;
      if branch == 3 then EndIf
      else if branch == 2 then ElseMark
      else if branch == 1 then Elif(DecodeCond(w0, w1))
      else If(DecodeCond(w0, w1))
    else if w0 & 0x4000_0000 != 0 then Test
    else Entry(w0, w1)
  }

  function EncodeCond(c: Cond): (bv32, bv32)
  {
    (((c.cut as bv32) << 24) | ((c.pkg as bv32) << 12) | ((c.intf as bv32) << 8) | (c.rfe as bv32),
     (c.glna as bv32) | ((c.gpa as bv32) << 8) | ((c.alna as bv32) << 16) | ((c.apa as bv32) << 24))
  }

  /** The two words a tile is written with in the shipped tables. */
  function Encode(t: Tile): (bv32, bv32)
  {
    match t
    case If(c) => (0x8000_0000 | EncodeCond(c).0, EncodeCond(c).1)
    case Elif(c) => (0x9000_0000 | EncodeCond(c).0, EncodeCond(c).1)
    case ElseMark => (0xA000_0000, 0)
    case EndIf => (0xB000_0000, 0)
    case Test => (0x4000_0000, 0)
    case Entry(addr, data) => (addr, data)
  }

  lemma CondRoundTrip(c: Cond, branch: bv32)
    requires branch == 0x8000_0000 || branch == 0x9000_0000
    ensures DecodeCond(branch | EncodeCond(c).0, EncodeCond(c).1) == c
  {
  }

  lemma ControlBits(w: bv32)
    ensures w & 0xC000_0000 == 0 <==> w & 0x8000_0000 == 0 && w & 0x4000_0000 == 0
  {
  }

  /** An entry whose address uses the two control bits cannot be written as words. */
  predicate Clean(t: Tile) { t.Entry? ==> t.addr & 0xC000_0000 == 0 }

  lemma ArmRoundTrip(t: Tile)
    requires t.If? || t.Elif?
    ensures Decode(Encode(t).0, Encode(t).1) == t
  {
    match t {
      case If(c) => CondRoundTrip(c, 0x8000_0000);
      case Elif(c) => CondRoundTrip(c, 0x9000_0000);
    }
  }

  /** Every tile can be written as two words and is read back, except those entries. */
  lemma TileRoundTrip(t: Tile)
    ensures Decode(Encode(t).0, Encode(t).1) == t <==> Clean(t)
  {
    match t {
      case If(c) => ArmRoundTrip(t);
      case Elif(c) => ArmRoundTrip(t);
      case Entry(addr, data) => ControlBits(addr);
      case _ =>
    }
  }

  /** check_positive: does the remembered condition hold of this hardware? */
  predicate Holds(hw: Hardware, c: Cond)
  {
    if c.cut != 0 && c.cut != hw.cond.cut then false
    else if c.pkg != 0 && c.pkg != hw.cond.pkg then false
    else if c.intf != 0 && c.intf != hw.cond.intf then false
    else if hw.jaguar1 then
      if c.rfe & 0x0f == 0 then true
      else if c.rfe & hw.cond.rfe != c.rfe then false
      else if c.rfe & 1 != 0 && c.glna != hw.cond.glna then false
      else if c.rfe & 2 != 0 && c.gpa != hw.cond.gpa then false
      else if c.rfe & 4 != 0 && c.alna != hw.cond.alna then false
      else if c.rfe & 8 != 0 && c.apa != hw.cond.apa then false
      else true
    else
      c.rfe == hw.cond.rfe
  }

  const NO_COND := Cond(0, 0, 0, 0, 0, 0, 0, 0)

  // ---------------------------------------------------------------- the interpreter

  /** The interpreter's variables, with the entries applied so far. */
  datatype State = State(matched: bool, skipped: bool, cond: Cond, applied: seq<Tile>)

  const START := State(true, false, NO_COND, [])

  /** The effect of one tile. */
  function Step(hw: Hardware, s: State, t: Tile): State
  {
    match t
    case EndIf => s.(matched := true, skipped := false)
    case ElseMark => s.(matched := !s.skipped)
    case If(c) => s.(cond := c)
    case Elif(c) => s.(cond := c)
    case Test =>
      if s.skipped then s.(matched := false)
      else s.(matched := Holds(hw, s.cond), skipped := Holds(hw, s.cond))
    case Entry(_, _) => if s.matched then s.(applied := s.applied + [t]) else s
  }

  function Run(hw: Hardware, s: State, ts: seq<Tile>): State
    decreases |ts|
  {
    if ts == [] then s else Run(hw, Step(hw, s, ts[0]), ts[1..])
  }

  /** The tiles of a word array; a trailing odd word is not looked at. */
  function Tiles(words: seq<bv32>): (ts: seq<Tile>)
  {
    seq(|words| / 2, i requires 0 <= i < |words| / 2 => Decode(words[2 * i], words[2 * i + 1]))
  }

  lemma {:induction false} RunConcat(hw: Hardware, s: State, a: seq<Tile>, b: seq<Tile>)
    ensures Run(hw, s, a + b) == Run(hw, Run(hw, s, a), b)
    decreases |a|
  {
    if a == [] {
      assert a + b == b;
    } else {
      assert (a + b)[0] == a[0] && (a + b)[1..] == a[1..] + b;
      RunConcat(hw, Step(hw, s, a[0]), a[1..], b);
    }
  }

  /** The device as far as table loading goes: the register entries written, in order. */
  class PhyDevice {
    const hw: Hardware
    var written: seq<Tile>

    constructor (hw: Hardware)
      ensures this.hw == hw && written == []
    {
      this.hw := hw;
      written := [];
    }

    /** rtw_parse_tbl_phy_cond. */
    method ParseTblPhyCond(words: seq<bv32>)
      modifies this
      ensures written == old(written) + Run(hw, START, Tiles(words)).applied
    {
      var posCond := NO_COND;
      var isMatched, isSkipped := true, false;
      ghost var ts := Tiles(words);
      for i := 0 to |words| / 2
        invariant old(written) <= written
        invariant Run(hw, START, ts[..i])
               == State(isMatched, isSkipped, posCond, written[|old(written)|..])
      {
        var t := Decode(words[2 * i], words[2 * i + 1]);
        ghost var before := written;
        RunConcat(hw, START, ts[..i], [t]);
        assert ts[..i + 1] == ts[..i] + [t];
        match t {
          case EndIf =>
            isMatched := true;
            isSkipped := false;
          case ElseMark =>
            isMatched := if isSkipped then false else true;
          case If(c) =>
            posCond := c;
          case Elif(c) =>
            posCond := c;
          case Test =>
            if !isSkipped {
              if Holds(hw, posCond) {
                isMatched := true;
                isSkipped := true;
              } else {
                isMatched := false;
                isSkipped := false;
              }
            } else {
              isMatched := false;
            }
          case Entry(_, _) =>
            if isMatched {
              written := written + [t];
              assert written[|old(written)|..] == before[|old(written)|..] + [t];
            }
        }
      }
      assert ts[..|words| / 2] == ts;
    }
  }

  // ---------------------------------------------------------------- the meaning of a table

  /** One IF or ELIF arm: a condition and the entries it guards. */
  datatype Arm = Arm(cond: Cond, body: seq<Tile>)

  datatype Otherwise = NoElse | Else(body: seq<Tile>)

  datatype Item = Plain(entry: Tile) | Block(arms: seq<Arm>, otherwise: Otherwise)

  predicate AllEntries(ts: seq<Tile>) { forall i | 0 <= i < |ts| :: ts[i].Entry? }

  predicate ArmsOk(arms: seq<Arm>) { forall i | 0 <= i < |arms| :: AllEntries(arms[i].body) }

  /** Blocks have at least one arm and do not nest. */
  predicate ItemOk(it: Item)
  {
    match it
    case Plain(t) => t.Entry?
    case Block(arms, otherwise) =>
      |arms| > 0 && ArmsOk(arms) && (otherwise.Else? ==> AllEntries(otherwise.body))
  }

  predicate TableOk(p: seq<Item>) { forall i | 0 <= i < |p| :: ItemOk(p[i]) }

  function FlattenArms(arms: seq<Arm>, first: bool): seq<Tile>
  {
    if arms == [] then []
    else
      [if first then If(arms[0].cond) else Elif(arms[0].cond), Test]
      + arms[0].body + FlattenArms(arms[1..], false)
  }

  function FlattenOtherwise(o: Otherwise): seq<Tile>
  {
    if o.NoElse? then [] else [ElseMark] + o.body
  }

  /** The tiles a table is written with. */
  function FlattenItem(it: Item): seq<Tile>
  {
    match it
    case Plain(t) => [t]
    case Block(arms, otherwise) => FlattenArms(arms, true) + FlattenOtherwise(otherwise) + [EndIf]
  }

  function Flatten(p: seq<Item>): seq<Tile>
  {
    if p == [] then [] else FlattenItem(p[0]) + Flatten(p[1..])
  }

  /** The body of the first arm whose condition holds, or else the ELSE body. */
  function Chosen(hw: Hardware, arms: seq<Arm>, otherwise: Otherwise): seq<Tile>
  {
    if arms == [] then (if otherwise.Else? then otherwise.body else [])
    else if Holds(hw, arms[0].cond) then arms[0].body
    else Chosen(hw, arms[1..], otherwise)
  }

  function Meaning(hw: Hardware, p: seq<Item>): seq<Tile>
  {
    if p == [] then []
    else ItemMeaning(hw, p[0]) + Meaning(hw, p[1..])
  }

  // ---------------------------------------------------------------- correctness

  predicate Neutral(s: State) { s.matched && !s.skipped }

  lemma {:induction false} RunEntries(hw: Hardware, s: State, ts: seq<Tile>)
    requires AllEntries(ts)
    ensures Run(hw, s, ts) == s.(applied := s.applied + if s.matched then ts else [])
    decreases |ts|
  {
    if ts == [] {
      assert s.applied + [] == s.applied;
    } else {
      var s' := Step(hw, s, ts[0]);
      RunEntries(hw, s', ts[1..]);
      if s.matched {
        assert s.applied + [ts[0]] + ts[1..] == s.applied + ts;
      }
    }
  }

  /** One arm, entered with either value of `skipped`. */
  lemma RunArm(hw: Hardware, s: State, open: Tile, a: Arm)
    requires (open == If(a.cond) || open == Elif(a.cond)) && AllEntries(a.body)
    ensures var hit := !s.skipped && Holds(hw, a.cond);
            Run(hw, s, [open, Test] + a.body)
            == State(hit, s.skipped || hit, a.cond, s.applied + if hit then a.body else [])
  {
    var head := [open, Test];
    assert head[1..] == [Test] && head[1..][1..] == [];
    var s1 := Step(hw, s, open);
    assert Run(hw, s1, head[1..]) == Step(hw, s1, Test);
    RunConcat(hw, s, head, a.body);
    RunEntries(hw, Step(hw, s1, Test), a.body);
  }

  predicate SomeHolds(hw: Hardware, arms: seq<Arm>)
  {
    arms != [] && (Holds(hw, arms[0].cond) || SomeHolds(hw, arms[1..]))
  }

  /** All arms in a row: once an arm was taken the rest is passed over. */
  lemma {:induction false} RunArms(hw: Hardware, s: State, arms: seq<Arm>, first: bool)
    requires ArmsOk(arms)
    ensures var r := Run(hw, s, FlattenArms(arms, first));
            && r.skipped == (s.skipped || SomeHolds(hw, arms))
            && r.applied == s.applied + if s.skipped then [] else Chosen(hw, arms, NoElse)
    decreases |arms|
  {
    if arms == [] {
      assert s.applied + [] == s.applied;
    } else {
      var open := if first then If(arms[0].cond) else Elif(arms[0].cond);
      var head := [open, Test] + arms[0].body;
      RunConcat(hw, s, head, FlattenArms(arms[1..], false));
      RunArm(hw, s, open, arms[0]);
      RunArms(hw, Run(hw, s, head), arms[1..], false);
      assert s.applied + [] == s.applied;
    }
  }

  lemma {:induction false} ChosenSplit(hw: Hardware, arms: seq<Arm>, o: Otherwise)
    ensures SomeHolds(hw, arms) ==> Chosen(hw, arms, o) == Chosen(hw, arms, NoElse)
    ensures !SomeHolds(hw, arms) ==> Chosen(hw, arms, o) == Chosen(hw, [], o)
    ensures !SomeHolds(hw, arms) ==> Chosen(hw, arms, NoElse) == []
  {
    if arms != [] {
      ChosenSplit(hw, arms[1..], o);
    }
  }

  lemma RunOtherwise(hw: Hardware, s: State, o: Otherwise)
    requires o.Else? ==> AllEntries(o.body)
    ensures var r := Run(hw, s, FlattenOtherwise(o) + [EndIf]);
            && Neutral(r)
            && r.applied == s.applied + if s.skipped || o.NoElse? then [] else o.body
  {
    var s1 := Run(hw, s, FlattenOtherwise(o));
    if o.Else? {
      RunConcat(hw, s, [ElseMark], o.body);
      assert Run(hw, s, [ElseMark]) == Step(hw, s, ElseMark);
      RunEntries(hw, Step(hw, s, ElseMark), o.body);
    }
    RunConcat(hw, s, FlattenOtherwise(o), [EndIf]);
    assert Run(hw, s1, [EndIf]) == Step(hw, s1, EndIf);
    assert s.applied + [] == s.applied;
  }

  /** What one item contributes. */
  function ItemMeaning(hw: Hardware, it: Item): seq<Tile>
  {
    match it
    case Plain(t) => [t]
    case Block(arms, o) => Chosen(hw, arms, o)
  }

  lemma RunItem(hw: Hardware, s: State, it: Item)
    requires ItemOk(it) && Neutral(s)
    ensures var r := Run(hw, s, FlattenItem(it));
            Neutral(r) && r.applied == s.applied + ItemMeaning(hw, it)
  {
    match it
    case Plain(t) =>
      assert Run(hw, s, [t]) == Step(hw, s, t);
    case Block(arms, o) =>
      var s1 := Run(hw, s, FlattenArms(arms, true));
      RunArms(hw, s, arms, true);
      ChosenSplit(hw, arms, o);
      RunOtherwise(hw, s1, o);
      RunConcat(hw, s, FlattenArms(arms, true), FlattenOtherwise(o) + [EndIf]);
      assert FlattenItem(it) == FlattenArms(arms, true) + (FlattenOtherwise(o) + [EndIf]);
      assert Chosen(hw, [], o) == if o.NoElse? then [] else o.body;
      assert s.applied + [] == s.applied;
  }

  lemma RunTwo(hw: Hardware, s: State, a: seq<Tile>, b: seq<Tile>, m: seq<Tile>, n: seq<Tile>)
    requires Run(hw, s, a).applied == s.applied + m
    requires Run(hw, Run(hw, s, a), b).applied == Run(hw, s, a).applied + n
    ensures Run(hw, s, a + b) == Run(hw, Run(hw, s, a), b)
    ensures Run(hw, s, a + b).applied == s.applied + (m + n)
  {
    RunConcat(hw, s, a, b);
  }

  /**
    The one-pass two-flag interpreter computes the block meaning: from any neutral state it applies
    exactly the plain entries and, per block, the body of the first arm that holds, in order. It ends
    in a neutral state again.
   */
  lemma {:induction false} InterpreterCorrect(hw: Hardware, s: State, p: seq<Item>)
    requires TableOk(p) && Neutral(s)
    ensures var r := Run(hw, s, Flatten(p));
            Neutral(r) && r.applied == s.applied + Meaning(hw, p)
    decreases |p|
  {
    if p == [] {
      assert s.applied + [] == s.applied;
    } else {
      var a, b := FlattenItem(p[0]), Flatten(p[1..]);
      var m, n := ItemMeaning(hw, p[0]), Meaning(hw, p[1..]);
      RunItem(hw, s, p[0]);
      InterpreterCorrect(hw, Run(hw, s, a), p[1..]);
      RunTwo(hw, s, a, b, m, n);
    }
  }

  // ---------------------------------------------------------------- when a body is applied

  /** The tiles of a table with one IF that guards a body. */
  function OneArm(c: Cond, body: seq<Tile>): seq<Tile> { [If(c), Test] + body + [EndIf] }

  lemma OneArmRun(hw: Hardware, c: Cond, body: seq<Tile>)
    requires AllEntries(body)
    ensures Run(hw, START, OneArm(c, body)).applied == if Holds(hw, c) then body else []
  {
    var s := Run(hw, START, [If(c), Test] + body);
    RunArm(hw, START, If(c), Arm(c, body));
    RunConcat(hw, START, [If(c), Test] + body, [EndIf]);
    assert Run(hw, s, [EndIf]) == Step(hw, s, EndIf);
    assert START.applied + body == body && START.applied + [] == [];
  }

  /**
    8812A and 8821A: each of the four low bits of a condition's rfe asks for that bit in the hardware's and
    for one amplifier type, whatever the other types are: bit 0 for the 2 GHz LNA, bit 1 for the 2 GHz PA,
    bit 2 for the 5 GHz LNA, bit 3 for the 5 GHz PA.
   */
  lemma AmplifierBits(hw: Hardware, glna: bv8, gpa: bv8, alna: bv8, apa: bv8, body: seq<Tile>)
    requires hw.jaguar1 && AllEntries(body)
    ensures Run(hw, START, OneArm(Cond(0, 0, 0, 1, glna, gpa, alna, apa), body)).applied
         == if hw.cond.rfe & 1 != 0 && hw.cond.glna == glna then body else []
    ensures Run(hw, START, OneArm(Cond(0, 0, 0, 2, glna, gpa, alna, apa), body)).applied
         == if hw.cond.rfe & 2 != 0 && hw.cond.gpa == gpa then body else []
    ensures Run(hw, START, OneArm(Cond(0, 0, 0, 4, glna, gpa, alna, apa), body)).applied
         == if hw.cond.rfe & 4 != 0 && hw.cond.alna == alna then body else []
    ensures Run(hw, START, OneArm(Cond(0, 0, 0, 8, glna, gpa, alna, apa), body)).applied
         == if hw.cond.rfe & 8 != 0 && hw.cond.apa == apa then body else []
  {
    OneArmRun(hw, Cond(0, 0, 0, 1, glna, gpa, alna, apa), body);
    OneArmRun(hw, Cond(0, 0, 0, 2, glna, gpa, alna, apa), body);
    OneArmRun(hw, Cond(0, 0, 0, 4, glna, gpa, alna, apa), body);
    OneArmRun(hw, Cond(0, 0, 0, 8, glna, gpa, alna, apa), body);
  }

  /** Any of them together, with the upper bits just as required; without any of the four the front end does
      not matter. */
  lemma AmplifierBitsTogether(hw: Hardware, c: Cond, body: seq<Tile>)
    requires hw.jaguar1 && AllEntries(body) && c.cut == 0 && c.pkg == 0 && c.intf == 0
    ensures c.rfe & 15 != 0 ==>
              Run(hw, START, OneArm(c, body)).applied
              == if hw.cond.rfe & c.rfe == c.rfe
                    && (c.rfe & 1 == 0 || hw.cond.glna == c.glna) && (c.rfe & 2 == 0 || hw.cond.gpa == c.gpa)
                    && (c.rfe & 4 == 0 || hw.cond.alna == c.alna) && (c.rfe & 8 == 0 || hw.cond.apa == c.apa)
                 then body else []
    ensures c.rfe & 15 == 0 ==> Run(hw, START, OneArm(c, body)).applied == body
  {
    OneArmRun(hw, c, body);
  }

  /** All other chips: the rfe type has to be equal, and the amplifiers do not matter. */
  lemma OtherChipsCompareType(hw: Hardware, c: Cond, body: seq<Tile>)
    requires !hw.jaguar1 && AllEntries(body) && c.cut == 0 && c.pkg == 0 && c.intf == 0
    ensures Run(hw, START, OneArm(c, body)).applied == if c.rfe == hw.cond.rfe then body else []
  {
    OneArmRun(hw, c, body);
  }

  /** On all chips a cut, package or interface that is asked for and differs switches the body off; one that
      is not asked for, or agrees, is as good as zero. */
  lemma CutPackageInterface(hw: Hardware, c: Cond, body: seq<Tile>)
    requires AllEntries(body)
    ensures Run(hw, START, OneArm(c, body)).applied
         == if (c.cut != 0 && c.cut != hw.cond.cut) || (c.pkg != 0 && c.pkg != hw.cond.pkg)
               || (c.intf != 0 && c.intf != hw.cond.intf)
            then [] else Run(hw, START, OneArm(c.(cut := 0, pkg := 0, intf := 0), body)).applied
  {
    OneArmRun(hw, c, body);
    OneArmRun(hw, c.(cut := 0, pkg := 0, intf := 0), body);
  }

  /** The words of the tiles: what a table's hexadecimal says. */
  lemma WordsByNumber(data: bv32)
    ensures Decode(0x8A00_7361, 0x0403_0201) == If(Cond(0xA, 7, 3, 0x61, 1, 2, 3, 4))
    ensures Decode(0x9A00_7361, 0x0403_0201) == Elif(Cond(0xA, 7, 3, 0x61, 1, 2, 3, 4))
    ensures Decode(0xA000_0000, data) == ElseMark && Decode(0xB000_0000, data) == EndIf
    ensures Decode(0x4000_0000, data) == Test && Decode(0x81C, data) == Entry(0x81C, data)
  {
  }

  /** A test without an IF before it tests the condition that asks for nothing. */
  lemma TestAlone(hw: Hardware, e: Tile)
    requires e.Entry?
    ensures Run(hw, START, [Test, e]).applied == if hw.jaguar1 || hw.cond.rfe == 0 then [e] else []
  {
    var s := Step(hw, START, Test);
    assert Run(hw, s, [e]) == Step(hw, s, e) by { assert [e][1..] == []; }
    assert Run(hw, START, [Test, e]) == Run(hw, s, [e]) by { assert [Test, e][1..] == [e]; }
  }

  /** The beginning of the AGC table of the 8812A, on one with a 2 GHz LNA of type 5: the IF, for type 0, is
      rejected, and the ELIF arm is taken. */
  lemma ExternalLnaTakesElif(cut: bv4, pkg: bv4, intf: bv4)
    ensures var hw := Hardware(true, Cond(cut, pkg, intf, 1, 5, 0, 0, 0));
            var (e, f) := (Entry(0x81C, 0xFC00_0001), Entry(0x81C, 0xF900_0001));
            Run(hw, START, [If(Cond(0, 0, 0, 1, 0, 0, 0, 0)), Test, e, Elif(Cond(0, 0, 0, 1, 5, 0, 0, 0)), Test, f, EndIf]).applied
            == [f]
  {
    var hw := Hardware(true, Cond(cut, pkg, intf, 1, 5, 0, 0, 0));
    var (e, f) := (Entry(0x81C, 0xFC00_0001), Entry(0x81C, 0xF900_0001));
    var (a, b) := (Arm(Cond(0, 0, 0, 1, 0, 0, 0, 0), [e]), Arm(Cond(0, 0, 0, 1, 5, 0, 0, 0), [f]));
    var s := Run(hw, START, [If(a.cond), Test] + [e]);
    RunArm(hw, START, If(a.cond), a);
    RunArm(hw, s, Elif(b.cond), b);
    RunConcat(hw, START, [If(a.cond), Test] + [e], [Elif(b.cond), Test] + [f]);
    var t := Run(hw, START, ([If(a.cond), Test] + [e]) + ([Elif(b.cond), Test] + [f]));
    RunConcat(hw, START, ([If(a.cond), Test] + [e]) + ([Elif(b.cond), Test] + [f]), [EndIf]);
    assert Run(hw, t, [EndIf]) == Step(hw, t, EndIf);
    assert [If(a.cond), Test, e, Elif(b.cond), Test, f, EndIf]
        == ([If(a.cond), Test] + [e]) + ([Elif(b.cond), Test] + [f]) + [EndIf];
  }

  // ---------------------------------------------------------------- loading tables back to back

  /** Any well-formed table can be appended to `a` and means after it what it means on its own. */
  ghost predicate SafePrefix(hw: Hardware, a: seq<Tile>)
  {
    forall p: seq<Item> | TableOk(p) ::
      Run(hw, START, a + Flatten(p)).applied == Run(hw, START, a).applied + Meaning(hw, p)
  }

  /** A table of one item: an IF whose condition is that of `hw` itself, guarding one entry. */
  function Probe(hw: Hardware): seq<Item>
  {
    [Block([Arm(hw.cond, [Entry(0, 0)])], NoElse)]
  }

  lemma ProbeRun(hw: Hardware, s: State)
    requires s.matched
    ensures TableOk(Probe(hw)) && Meaning(hw, Probe(hw)) == [Entry(0, 0)]
    ensures s.skipped ==> Run(hw, s, Flatten(Probe(hw))).applied == s.applied
  {
    var p := Probe(hw);
    var arms := p[0].arms;
    assert Holds(hw, hw.cond);
    assert Flatten(p[1..]) == [] && Meaning(hw, p[1..]) == [];
    assert Flatten(p) == FlattenArms(arms, true) + (FlattenOtherwise(NoElse) + [EndIf]);
    RunConcat(hw, s, FlattenArms(arms, true), FlattenOtherwise(NoElse) + [EndIf]);
    RunArms(hw, s, arms, true);
    RunOtherwise(hw, Run(hw, s, FlattenArms(arms, true)), NoElse);
  }

  /** On given hardware: the streams that leave the two flags neutral. */
  lemma SafePrefixIff(hw: Hardware, a: seq<Tile>)
    ensures SafePrefix(hw, a) <==> Neutral(Run(hw, START, a))
  {
    var s := Run(hw, START, a);
    if Neutral(s) {
      forall p: seq<Item> | TableOk(p)
        ensures Run(hw, START, a + Flatten(p)).applied == s.applied + Meaning(hw, p)
      {
        RunConcat(hw, START, a, Flatten(p));
        InterpreterCorrect(hw, s, p);
      }
    } else if s.matched {
      ProbeRun(hw, s);
      RunConcat(hw, START, a, Flatten(Probe(hw)));
      assert !SafePrefix(hw, a);
    } else {
      var e := Entry(0, 0);
      var p := [Plain(e)];
      assert TableOk(p) && Flatten(p[1..]) == [] && Meaning(hw, p[1..]) == [];
      assert Flatten(p) == [e] && Meaning(hw, p) == [e];
      assert Run(hw, s, [e]) == Step(hw, s, e) == s;
      RunConcat(hw, START, a, [e]);
      assert !SafePrefix(hw, a);
    }
  }

  /** Every Test tile is followed by an EndIf tile, somewhere. */
  predicate Closed(a: seq<Tile>)
  {
    forall i | 0 <= i < |a| && a[i].Test? :: exists j | i < j < |a| :: a[j].EndIf?
  }

  lemma RunSnoc(hw: Hardware, a: seq<Tile>)
    requires a != []
    ensures Run(hw, START, a) == Step(hw, Run(hw, START, a[..|a| - 1]), a[|a| - 1])
  {
    var front, last := a[..|a| - 1], a[|a| - 1];
    assert a == front + [last];
    RunConcat(hw, START, front, [last]);
    assert [last][1..] == [];
  }

  lemma ClosedFront(a: seq<Tile>)
    requires a != [] && !a[|a| - 1].EndIf?
    ensures Closed(a) <==> !a[|a| - 1].Test? && Closed(a[..|a| - 1])
  {
    var front := a[..|a| - 1];
    assert forall i | 0 <= i < |front| :: front[i] == a[i];
    if Closed(a) {
      forall i | 0 <= i < |front| && front[i].Test? ensures exists j | i < j < |front| :: front[j].EndIf? {
        var j :| i < j < |a| && a[j].EndIf?;
        assert front[j].EndIf?;
      }
    }
    if !a[|a| - 1].Test? && Closed(front) {
      forall i | 0 <= i < |a| && a[i].Test? ensures exists j | i < j < |a| :: a[j].EndIf? {
        assert front[i].Test?;
        var j :| i < j < |front| && front[j].EndIf?;
        assert a[j].EndIf?;
      }
    }
  }

  lemma {:induction false} ClosedIsNeutral(hw: Hardware, a: seq<Tile>)
    requires Closed(a)
    ensures Neutral(Run(hw, START, a))
    decreases |a|
  {
    if a != [] {
      RunSnoc(hw, a);
      if !a[|a| - 1].EndIf? {
        ClosedFront(a);
        ClosedIsNeutral(hw, a[..|a| - 1]);
      }
    }
  }

  /** The condition remembered after a stream, on any hardware. */
  function Remembered(a: seq<Tile>): Cond
  {
    if a == [] then NO_COND
    else match a[|a| - 1]
         case If(c) => c
         case Elif(c) => c
         case _ => Remembered(a[..|a| - 1])
  }

  lemma {:induction false} RememberedCond(hw: Hardware, a: seq<Tile>)
    ensures Run(hw, START, a).cond == Remembered(a)
    decreases |a|
  {
    if a != [] {
      RunSnoc(hw, a);
      RememberedCond(hw, a[..|a| - 1]);
    }
  }

  /** The condition under which the first open Test tile tests. */
  function OpenCond(a: seq<Tile>): Cond
    requires !Closed(a)
    decreases |a|
  {
    assert a != [];
    assert a[|a| - 1].EndIf? ==> Closed(a);
    ClosedFront(a);
    if Closed(a[..|a| - 1]) then Remembered(a[..|a| - 1]) else OpenCond(a[..|a| - 1])
  }

  /** Hardware of just that condition takes the open arm and stays inside the block. */
  lemma {:induction false} OpenIsNotNeutral(a: seq<Tile>)
    requires !Closed(a)
    ensures Run(Hardware(false, OpenCond(a)), START, a).skipped
    decreases |a|
  {
    var front, hw := a[..|a| - 1], Hardware(false, OpenCond(a));
    assert a[|a| - 1].EndIf? ==> Closed(a);
    ClosedFront(a);
    RunSnoc(hw, a);
    if Closed(front) {
      ClosedIsNeutral(hw, front);
      RememberedCond(hw, front);
    } else {
      OpenIsNotNeutral(front);
    }
  }

  /**
    One array: a stream may be followed by any well-formed table, on all hardware, if and only if every
    test in it is followed by an ENDIF. A block left open would decide about the tiles behind it.
   */
  lemma SafeOnAllHardwareIff(a: seq<Tile>)
    ensures (forall hw :: SafePrefix(hw, a)) <==> Closed(a)
  {
    if Closed(a) {
      forall hw ensures SafePrefix(hw, a) {
        ClosedIsNeutral(hw, a);
        SafePrefixIff(hw, a);
      }
    } else {
      var hw := Hardware(false, OpenCond(a));
      OpenIsNotNeutral(a);
      SafePrefixIff(hw, a);
      assert !SafePrefix(hw, a);
    }
  }

  /** Such a stream: an IF and its test alone, on hardware for which the condition holds, switch off the
      first block behind them. */
  lemma OpenBlockDecides(hw: Hardware)
    ensures Run(hw, START, [If(hw.cond), Test] + Flatten(Probe(hw))).applied == []
    ensures Meaning(hw, Probe(hw)) == [Entry(0, 0)]
  {
    var a := [If(hw.cond), Test];
    var s := Run(hw, START, a);
    assert Holds(hw, hw.cond) && a + [] == a;
    RunArm(hw, START, If(hw.cond), Arm(hw.cond, []));
    ProbeRun(hw, s);
    RunConcat(hw, START, a, Flatten(Probe(hw)));
  }

  /** A separate call starts afresh: whatever array was loaded before, the next well-formed table means
      what it says. */
  method LoadTwo(d: PhyDevice, words: seq<bv32>, p: seq<Item>)
    requires TableOk(p) && CleanAddresses(Flatten(p))
    modifies d
    ensures d.written == old(d.written) + Run(d.hw, START, Tiles(words)).applied + Meaning(d.hw, p)
  {
    d.ParseTblPhyCond(words);
    WordTableCorrect(d.hw, p);
    d.ParseTblPhyCond(EncodeAll(Flatten(p)));
  }

  /** Loading two tables as one array does what loading them one after another does. */
  lemma LoadingIsCompositional(hw: Hardware, p: seq<Item>, q: seq<Item>)
    requires TableOk(p) && TableOk(q)
    ensures Run(hw, START, Flatten(p) + Flatten(q)).applied
         == Run(hw, START, Flatten(p)).applied + Run(hw, START, Flatten(q)).applied
  {
    var a, b := Flatten(p), Flatten(q);
    var mid := Run(hw, START, a);
    RunConcat(hw, START, a, b);
    assert Neutral(mid) by { InterpreterCorrect(hw, START, p); }
    var m := Meaning(hw, q);
    assert Run(hw, mid, b).applied == mid.applied + m by { InterpreterCorrect(hw, mid, q); }
    assert Run(hw, START, b).applied == m by {
      InterpreterCorrect(hw, START, q);
      assert START.applied + m == m;
    }
  }

  // ---------------------------------------------------------------- down to the words

  function EncodeAll(ts: seq<Tile>): seq<bv32>
  {
    seq(2 * |ts|, k requires 0 <= k < 2 * |ts| =>
      if k % 2 == 0 then Encode(ts[k / 2]).0 else Encode(ts[k / 2]).1)
  }

  predicate CleanAddresses(ts: seq<Tile>)
  {
    forall i | 0 <= i < |ts| :: Clean(ts[i])
  }

  lemma WordPair(ts: seq<Tile>, i: nat)
    requires i < |ts|
    ensures EncodeAll(ts)[2 * i] == Encode(ts[i]).0 && EncodeAll(ts)[2 * i + 1] == Encode(ts[i]).1
  {
    assert 2 * i / 2 == i && (2 * i + 1) / 2 == i;
  }

  lemma WordsRoundTrip(ts: seq<Tile>)
    ensures Tiles(EncodeAll(ts)) == ts <==> CleanAddresses(ts)
  {
    var us := Tiles(EncodeAll(ts));
    forall i | 0 <= i < |ts| ensures us[i] == ts[i] <==> Clean(ts[i]) {
      TileBack(ts, i);
    }
  }

  lemma TileBack(ts: seq<Tile>, i: nat)
    requires i < |ts|
    ensures |Tiles(EncodeAll(ts))| == |ts| && (Tiles(EncodeAll(ts))[i] == ts[i] <==> Clean(ts[i]))
  {
    WordPair(ts, i);
    TileRoundTrip(ts[i]);
  }

  /** The words of a table, loaded by the driver on hardware `hw`, apply what the blocks mean. */
  lemma WordTableCorrect(hw: Hardware, p: seq<Item>)
    requires TableOk(p) && CleanAddresses(Flatten(p))
    ensures Run(hw, START, Tiles(EncodeAll(Flatten(p)))).applied == Meaning(hw, p)
  {
    var ts := Flatten(p);
    assert Tiles(EncodeAll(ts)) == ts by { WordsRoundTrip(ts); }
    var m := Meaning(hw, p);
    assert Run(hw, START, ts).applied == START.applied + m by { InterpreterCorrect(hw, START, p); }
  }
}
