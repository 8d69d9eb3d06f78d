/**
  MAC ids and ports (main.c, mac80211.c): two bitmaps from which interfaces and stations take numbers,
  across interface and station changes and firmware recovery.
 */
module Ids {

  const MAX_MAC_ID := 32
  const PORT_NUM := 5

  /** Interface types: station, access point, those that beacon among equals (mesh, ad hoc), any other. */
  datatype IfType = Station | AccessPoint | Peering | Unsupported

  datatype Vif = Vif(kind: IfType, macId: nat, port: nat)

  /** A station; `managed` ones (the peer of a station interface) use their interface's MAC id. */
  datatype Sta = Sta(vif: nat, tdls: bool, macId: nat)

  /** What a MAC id is held by. */
  datatype Owner = OfVif(v: nat) | OfSta(x: nat)

  /** Who holds what: MAC ids and ports by owner, and the MAC ids that failed attempts to add an
      interface have taken and not returned. */
  datatype Ledger = Ledger(ids: map<Owner, nat>, ports: map<nat, nat>, lost: set<nat>)

  /** The bitmaps, the live interfaces and stations, the station count, and the ledger of it all. */
  datatype State = State(macIds: set<nat>, ports: set<nat>, vifs: map<nat, Vif>, stas: map<nat, Sta>,
                         staCnt: int, ledger: Ledger)

  /** find_first_zero_bit. */
  function FirstZero(bits: set<nat>, size: nat, from: nat): (r: nat)
    requires from <= size
    ensures from <= r <= size && (r < size ==> r !in bits) && forall i | from <= i < r :: i in bits
    decreases size - from
  {
    if from == size || from !in bits then from else FirstZero(bits, size, from + 1)
  }

  predicate Managed(s: State, x: Sta) { x.vif in s.vifs && s.vifs[x.vif].kind == Station && !x.tdls }

  /** Live owners: interfaces, and the stations that are not managed. */
  predicate Live(s: State, o: Owner)
  {
    match o
    case OfVif(v) => v in s.vifs
    case OfSta(x) => x in s.stas && !Managed(s, s.stas[x])
  }

  function MacIdOf(s: State, o: Owner): nat
    requires Live(s, o)
  {
    match o
    case OfVif(v) => s.vifs[v].macId
    case OfSta(x) => s.stas[x].macId
  }

  /** The ledger lists exactly the live owners, with the numbers stored in their records. */
  ghost predicate LedgerOk(s: State)
  {
    && (forall o :: o in s.ledger.ids <==> Live(s, o))
    && (forall o | Live(s, o) :: s.ledger.ids[o] == MacIdOf(s, o))
    && (forall v :: v in s.ledger.ports <==> v in s.vifs)
    && (forall v | v in s.vifs :: s.ledger.ports[v] == s.vifs[v].port)
  }

  /** A bitmap is exact for its holders: no two hold the same number, and what is marked is what is held
      or was lost. */
  ghost predicate Exact<K(!new)>(h: map<K, nat>, marked: set<nat>, lost: set<nat>, size: nat)
  {
    && (forall k, l | k in h && l in h && h[k] == h[l] :: k == l)
    && marked == h.Values + lost && h.Values !! lost
    && forall m | m in marked :: m < size
  }

  lemma TakeNumber<K(!new)>(h: map<K, nat>, marked: set<nat>, lost: set<nat>, size: nat, k: K, m: nat)
    requires Exact(h, marked, lost, size) && k !in h && m !in marked && m < size
    ensures Exact(h[k := m], marked + {m}, lost, size)
  {
    var n := h[k := m];
    assert n[k] == m;
    forall x ensures x in n.Values <==> x in h.Values + {m} {
      if x in h.Values {
        var l :| l in h && h[l] == x;
        assert n[l] == x;
      }
    }
  }

  lemma ReleaseNumber<K(!new)>(h: map<K, nat>, marked: set<nat>, lost: set<nat>, size: nat, k: K)
    requires Exact(h, marked, lost, size) && k in h
    ensures Exact(h - {k}, marked - {h[k]}, lost, size)
  {
    var n := h - {k};
    assert h[k] in h.Values;
    forall x ensures x in n.Values <==> x in h.Values - {h[k]} {
      if x in h.Values && x != h[k] {
        var l :| l in h && h[l] == x;
        assert n[l] == x;
      }
    }
  }

  lemma ExchangeNumbers<K(!new)>(h: map<K, nat>, marked: set<nat>, lost: set<nat>, size: nat, k: K, l: K)
    requires Exact(h, marked, lost, size) && k in h && l in h
    ensures Exact(h[k := h[l]][l := h[k]], marked, lost, size)
  {
    var n := h[k := h[l]][l := h[k]];
    forall x ensures x in n.Values <==> x in h.Values {
      if x in h.Values {
        var j :| j in h && h[j] == x;
        assert n[if j == k then l else if j == l then k else j] == x;
      }
    }
  }

  lemma LoseNumber<K(!new)>(h: map<K, nat>, marked: set<nat>, lost: set<nat>, size: nat, m: nat)
    requires Exact(h, marked, lost, size) && m !in marked && m < size
    ensures Exact(h, marked + {m}, lost + {m}, size)
  {
  }

  ghost predicate IdsOk(s: State) { Exact(s.ledger.ids, s.macIds, s.ledger.lost, MAX_MAC_ID) }

  ghost predicate PortsOk(s: State) { Exact(s.ledger.ports, s.ports, {}, PORT_NUM) }

  /** The count is right, stations are on live interfaces, and managed ones share the interface's MAC id. */
  ghost predicate StasOk(s: State)
  {
    && s.staCnt == |s.stas|
    && forall x | x in s.stas :: s.stas[x].vif in s.vifs
         && (Managed(s, s.stas[x]) ==> s.stas[x].macId == s.vifs[s.stas[x].vif].macId)
  }

  ghost predicate Ok(s: State) { LedgerOk(s) && IdsOk(s) && PortsOk(s) && StasOk(s) }

  // ---------------------------------------------------------------- the operations

  function WithInterface(s: State, v: nat, kind: IfType, m: nat, p: nat): State
  {
    s.(macIds := s.macIds + {m}, ports := s.ports + {p}, vifs := s.vifs[v := Vif(kind, m, p)],
       ledger := s.ledger.(ids := s.ledger.ids[OfVif(v) := m], ports := s.ledger.ports[v := p]))
  }

  function WithLost(s: State, m: nat): State
  {
    s.(macIds := s.macIds + {m}, ledger := s.ledger.(lost := s.ledger.lost + {m}))
  }

  /** Two interfaces exchange ports. */
  function Exchange(s: State, a: nat, t: nat): State
    requires a in s.vifs && t in s.vifs
  {
    var (p, q) := (s.vifs[a].port, s.vifs[t].port);
    s.(vifs := s.vifs[a := s.vifs[a].(port := q)][t := s.vifs[t].(port := p)],
       ledger := s.ledger.(ports := s.ledger.ports[a := q][t := p]))
  }

  /** rtw_port_switch_iter over some interfaces: whoever has port 0 then exchanges ports with `a`. */
  function SwitchVisits(s: State, a: nat, order: seq<nat>): (n: State)
    requires a in s.vifs
    ensures n.vifs.Keys == s.vifs.Keys && n.ledger.lost == s.ledger.lost
    ensures n.macIds == s.macIds && n.ports == s.ports && n.stas == s.stas
    decreases |order|
  {
    if order == [] then s
    else if order[0] in s.vifs && s.vifs[order[0]].port == 0 then
      SwitchVisits(Exchange(s, a, order[0]), a, order[1..])
    else SwitchVisits(s, a, order[1..])
  }

  /** rtw_core_port_switch: an access point tries to get port 0. */
  function PortSwitch(s: State, a: nat, order: seq<nat>): (n: State)
    requires a in s.vifs
    ensures n.vifs.Keys == s.vifs.Keys && n.ledger.lost == s.ledger.lost
    ensures n.macIds == s.macIds && n.ports == s.ports && n.stas == s.stas
  {
    if s.vifs[a].kind != AccessPoint || s.vifs[a].port == 0 then s else SwitchVisits(s, a, order)
  }

  /** rtw_ops_add_interface: the MAC id is taken first and not given back on a later failure. `order` lists
      the interfaces that the port switch of an access point iterates over. */
  function AddInterface(s: State, v: nat, kind: IfType, order: seq<nat>): (bool, State)
  {
    var m := FirstZero(s.macIds, MAX_MAC_ID, 0);
    if m >= MAX_MAC_ID then (false, s)
    else
      var p := FirstZero(s.ports, PORT_NUM, 0);
      if p >= PORT_NUM || kind == Unsupported then (false, WithLost(s, m))
      else (true, PortSwitch(WithInterface(s, v, kind, m, p), v, order))
  }

  /** rtw_ops_remove_interface. */
  function RemoveInterface(s: State, v: nat): State
    requires v in s.vifs
  {
    s.(macIds := s.macIds - {s.vifs[v].macId}, ports := s.ports - {s.vifs[v].port}, vifs := s.vifs - {v},
       ledger := s.ledger.(ids := s.ledger.ids - {OfVif(v)}, ports := s.ledger.ports - {v}))
  }

  function WithStation(s: State, x: nat, v: nat, tdls: bool, m: nat): State
    requires v in s.vifs
  {
    var n := s.(stas := s.stas[x := Sta(v, tdls, m)], staCnt := s.staCnt + 1);
    if s.vifs[v].kind == Station && !tdls then n
    else n.(macIds := s.macIds + {m}, ledger := s.ledger.(ids := s.ledger.ids[OfSta(x) := m]))
  }

  /** rtw_sta_add. */
  function AddStation(s: State, x: nat, v: nat, tdls: bool): (bool, State)
    requires v in s.vifs
  {
    if s.vifs[v].kind == Station && !tdls then (true, WithStation(s, x, v, tdls, s.vifs[v].macId))
    else
      var m := FirstZero(s.macIds, MAX_MAC_ID, 0);
      if m >= MAX_MAC_ID then (false, s) else (true, WithStation(s, x, v, tdls, m))
  }

  /** rtw_sta_remove. */
  function RemoveStation(s: State, x: nat): State
    requires x in s.stas && s.stas[x].vif in s.vifs
  {
    var y := s.stas[x];
    var n := s.(stas := s.stas - {x}, staCnt := s.staCnt - 1);
    if s.vifs[y.vif].kind != Station || y.tdls then
      n.(macIds := s.macIds - {y.macId}, ledger := s.ledger.(ids := s.ledger.ids - {OfSta(x)}))
    else n
  }

  /** Peers of a station interface, tunnelled ones aside, share its MAC id and mark none; any other station
      takes the least free one, and there has to be one. */
  lemma StationIdByCase(s: State, x: nat, v: nat, tdls: bool)
    requires v in s.vifs
    ensures var (ok, n) := AddStation(s, x, v, tdls);
            && (s.vifs[v].kind == Station && !tdls ==> ok && n.stas[x].macId == s.vifs[v].macId && n.macIds == s.macIds)
            && (s.vifs[v].kind != Station || tdls ==>
                  && (ok <==> exists m: nat :: m < 32 && m !in s.macIds)
                  && (ok ==>
                        && n.stas[x].macId < 32 && n.stas[x].macId !in s.macIds
                        && (forall m: nat | m < n.stas[x].macId :: m in s.macIds)
                        && n.macIds == s.macIds + {n.stas[x].macId}))
  {
    var m := FirstZero(s.macIds, MAX_MAC_ID, 0);
    assert m < 32 ==> m !in s.macIds;
  }

  /** A new interface has the least free MAC id and the least free port of five, until an access point
      switches ports. */
  lemma InterfaceNumbers(s: State, v: nat, kind: IfType, order: seq<nat>)
    ensures var (ok, n) := AddInterface(s, v, kind, order);
            && (ok ==> && kind != Unsupported
                       && n.vifs[v].macId < 32 && n.vifs[v].macId !in s.macIds
                       && (forall m: nat | m < n.vifs[v].macId :: m in s.macIds)
                       && n.macIds == s.macIds + {n.vifs[v].macId}
                       && (kind != AccessPoint ==>
                             && n.vifs[v].port < 5 && n.vifs[v].port !in s.ports
                             && (forall p: nat | p < n.vifs[v].port :: p in s.ports)
                             && n.ports == s.ports + {n.vifs[v].port}))
  {
    var (m, p) := (FirstZero(s.macIds, MAX_MAC_ID, 0), FirstZero(s.ports, PORT_NUM, 0));
    if m < MAX_MAC_ID && p < PORT_NUM && kind != Unsupported {
      SwitchKeepsIds(WithInterface(s, v, kind, m, p), v, order, v);
    }
  }

  lemma {:induction false} SwitchKeepsIds(s: State, a: nat, order: seq<nat>, v: nat)
    requires a in s.vifs && v in s.vifs
    ensures SwitchVisits(s, a, order).vifs[v].macId == s.vifs[v].macId
    decreases |order|
  {
    if order != [] {
      if order[0] in s.vifs && s.vifs[order[0]].port == 0 {
        SwitchKeepsIds(Exchange(s, a, order[0]), a, order[1..], v);
      } else {
        SwitchKeepsIds(s, a, order[1..], v);
      }
    }
  }

  /** No station is left on the interface; the stack above removes stations before their interface. */
  predicate NoStations(s: State, v: nat) { forall x | x in s.stas :: s.stas[x].vif != v }

  lemma NewInterfaceLedger(s: State, v: nat, kind: IfType, m: nat, p: nat)
    requires LedgerOk(s) && StasOk(s) && v !in s.vifs
    ensures LedgerOk(WithInterface(s, v, kind, m, p))
  {
    var n := WithInterface(s, v, kind, m, p);
    assert !Live(s, OfVif(v));
    forall o | o != OfVif(v)
      ensures Live(n, o) <==> Live(s, o)
      ensures Live(n, o) ==> MacIdOf(n, o) == MacIdOf(s, o)
    {
    }
  }

  lemma NewInterfaceKeepsOk(s: State, v: nat, kind: IfType, m: nat, p: nat)
    requires Ok(s) && v !in s.vifs && m !in s.macIds && m < MAX_MAC_ID && p !in s.ports && p < PORT_NUM
    ensures Ok(WithInterface(s, v, kind, m, p))
  {
    var n := WithInterface(s, v, kind, m, p);
    NewInterfaceLedger(s, v, kind, m, p);
    assert !Live(s, OfVif(v));
    assert IdsOk(n) by { TakeNumber(s.ledger.ids, s.macIds, s.ledger.lost, MAX_MAC_ID, OfVif(v), m); }
    assert PortsOk(n) by { TakeNumber(s.ledger.ports, s.ports, {}, PORT_NUM, v, p); }
    assert StasOk(n);
  }

  lemma ExchangeKeepsOk(s: State, a: nat, t: nat)
    requires Ok(s) && a in s.vifs && t in s.vifs
    ensures Ok(Exchange(s, a, t))
  {
    var n := Exchange(s, a, t);
    assert LedgerOk(n) && StasOk(n) by { ExchangeLedger(s, a, t); }
    assert PortsOk(n) by { ExchangeNumbers(s.ledger.ports, s.ports, {}, PORT_NUM, a, t); }
  }

  lemma ExchangeLedger(s: State, a: nat, t: nat)
    requires LedgerOk(s) && StasOk(s) && a in s.vifs && t in s.vifs
    ensures LedgerOk(Exchange(s, a, t)) && StasOk(Exchange(s, a, t))
  {
    var n := Exchange(s, a, t);
    forall o
      ensures Live(n, o) <==> Live(s, o)
      ensures Live(n, o) ==> MacIdOf(n, o) == MacIdOf(s, o)
    {
    }
  }

  lemma {:induction false} SwitchVisitsKeepOk(s: State, a: nat, order: seq<nat>)
    requires Ok(s) && a in s.vifs
    ensures Ok(SwitchVisits(s, a, order))
    decreases |order|
  {
    if order != [] {
      if order[0] in s.vifs && s.vifs[order[0]].port == 0 {
        ExchangeKeepsOk(s, a, order[0]);
        SwitchVisitsKeepOk(Exchange(s, a, order[0]), a, order[1..]);
      } else {
        SwitchVisitsKeepOk(s, a, order[1..]);
      }
    }
  }

  lemma PortsDistinct(s: State, v: nat, w: nat)
    requires LedgerOk(s) && PortsOk(s) && v in s.vifs && w in s.vifs && s.vifs[v].port == s.vifs[w].port
    ensures v == w
  {
  }

  lemma SelfExchange(s: State, a: nat)
    requires LedgerOk(s) && a in s.vifs
    ensures Exchange(s, a, a) == s
  {
    assert Exchange(s, a, a).vifs == s.vifs && Exchange(s, a, a).ledger.ports == s.ledger.ports;
  }

  /** Once an access point has port 0, the rest of the iteration exchanges it with itself at most. */
  lemma {:induction false} ZeroStays(s: State, a: nat, order: seq<nat>)
    requires LedgerOk(s) && PortsOk(s) && a in s.vifs && s.vifs[a].port == 0
    ensures SwitchVisits(s, a, order) == s
    decreases |order|
  {
    if order != [] {
      var t := order[0];
      if t in s.vifs && s.vifs[t].port == 0 {
        assert t == a by { PortsDistinct(s, a, t); }
        assert Exchange(s, a, t) == s by { SelfExchange(s, a); }
      }
      ZeroStays(s, a, order[1..]);
    }
  }

  /** An access point ends on port 0 if and only if it was there already or another listed interface was;
      then just these two have exchanged ports, in any order of visits. */
  lemma {:induction false} SwitchGetsZeroIff(s: State, a: nat, order: seq<nat>)
    requires Ok(s) && a in s.vifs && s.vifs[a].kind == AccessPoint
    ensures PortSwitch(s, a, order).vifs[a].port == 0
       <==> s.vifs[a].port == 0 || exists t :: t in order && t in s.vifs && s.vifs[t].port == 0
    ensures forall t | t in order && t in s.vifs && s.vifs[t].port == 0 && t != a ::
              PortSwitch(s, a, order) == Exchange(s, a, t)
    decreases |order|
  {
    if s.vifs[a].port != 0 && order != [] {
      var t, rest := order[0], order[1..];
      assert forall u :: u in order <==> u == t || u in rest;
      if t in s.vifs && s.vifs[t].port == 0 {
        ExchangeKeepsOk(s, a, t);
        ZeroStays(Exchange(s, a, t), a, rest);
        forall u | u in s.vifs && s.vifs[u].port == 0 ensures u == t { PortsDistinct(s, u, t); }
      } else {
        SwitchGetsZeroIff(s, a, rest);
      }
    }
  }

  lemma AddInterfaceKeepsOk(s: State, v: nat, kind: IfType, order: seq<nat>)
    requires Ok(s) && v !in s.vifs
    ensures Ok(AddInterface(s, v, kind, order).1)
  {
    var m, p := FirstZero(s.macIds, MAX_MAC_ID, 0), FirstZero(s.ports, PORT_NUM, 0);
    if m >= MAX_MAC_ID {
      assert AddInterface(s, v, kind, order).1 == s;
    } else if p >= PORT_NUM || kind == Unsupported {
      LostIdKeepsOk(s, m);
    } else {
      NewInterfaceKeepsOk(s, v, kind, m, p);
      PortSwitchKeepsOk(WithInterface(s, v, kind, m, p), v, order);
    }
  }

  lemma PortSwitchKeepsOk(s: State, a: nat, order: seq<nat>)
    requires Ok(s) && a in s.vifs
    ensures Ok(PortSwitch(s, a, order))
  {
    SwitchVisitsKeepOk(s, a, order);
  }

  /** A successful add hands out unmarked numbers; a failed one marks at most one MAC id, for good. */
  lemma AddInterfaceOutcome(s: State, v: nat, kind: IfType, order: seq<nat>)
    ensures var (ok, n) := AddInterface(s, v, kind, order);
            && (ok ==> exists m, p :: m !in s.macIds && p !in s.ports
                         && n == PortSwitch(WithInterface(s, v, kind, m, p), v, order))
            && (!ok ==> n == s || exists m :: m !in s.macIds && n == WithLost(s, m))
  {
    var m, p := FirstZero(s.macIds, MAX_MAC_ID, 0), FirstZero(s.ports, PORT_NUM, 0);
    assert m < MAX_MAC_ID ==> m !in s.macIds;
    assert p < PORT_NUM ==> p !in s.ports;
    assert AddInterface(s, v, kind, order)
        == if m >= MAX_MAC_ID then (false, s)
           else if p >= PORT_NUM || kind == Unsupported then (false, WithLost(s, m))
           else (true, PortSwitch(WithInterface(s, v, kind, m, p), v, order));
  }

  /** An add loses no MAC id if and only if none is free, or a port is free and the type is supported. (Lost
      ids are marked, in every exact state.) */
  lemma LosesNoneIff(s: State, v: nat, kind: IfType, order: seq<nat>)
    requires s.ledger.lost <= s.macIds
    ensures AddInterface(s, v, kind, order).1.ledger.lost == s.ledger.lost
       <==> || (forall m: nat | m < MAX_MAC_ID :: m in s.macIds)
            || (kind != Unsupported && exists p: nat :: p < PORT_NUM && p !in s.ports)
  {
    var m, p := FirstZero(s.macIds, MAX_MAC_ID, 0), FirstZero(s.ports, PORT_NUM, 0);
    assert m < MAX_MAC_ID ==> m !in s.macIds && m !in s.ledger.lost;
    assert p < PORT_NUM ==> p !in s.ports;
  }

  /** An interface more than there are ports: its MAC id is lost, and it stays lost when all interfaces are
      gone. */
  lemma OnePortShort(s: State, v: nat, kind: IfType, order: seq<nat>)
    requires Ok(s) && (forall p: nat | p < PORT_NUM :: p in s.ports) && 31 !in s.macIds
    ensures var (ok, n) := AddInterface(s, v, kind, order);
            !ok && exists m :: m !in s.ledger.lost && n.ledger.lost == s.ledger.lost + {m}
  {
    var m := FirstZero(s.macIds, MAX_MAC_ID, 0);
    assert m < MAX_MAC_ID && m !in s.ledger.lost;
    assert AddInterface(s, v, kind, order).1.ledger.lost == s.ledger.lost + {m};
  }

  /** An interface of a type the driver does not know, as the first one. */
  lemma UnsupportedFirst(v: nat)
    ensures Ok(Empty({})) && AddInterface(Empty({}), v, Unsupported, []) == (false, Empty({0}))
  {
    EmptyOk({});
    assert FirstZero({}, MAX_MAC_ID, 0) == 0;
  }

  lemma LostIdLedger(s: State, m: nat)
    requires LedgerOk(s) && StasOk(s)
    ensures LedgerOk(WithLost(s, m)) && StasOk(WithLost(s, m))
  {
    var n := WithLost(s, m);
    forall o
      ensures Live(n, o) <==> Live(s, o)
      ensures Live(n, o) ==> MacIdOf(n, o) == MacIdOf(s, o)
    {
    }
  }

  lemma LostIdKeepsOk(s: State, m: nat)
    requires Ok(s) && m !in s.macIds && m < MAX_MAC_ID
    ensures Ok(WithLost(s, m))
  {
    var n := WithLost(s, m);
    assert LedgerOk(n) && StasOk(n) by { LostIdLedger(s, m); }
    assert IdsOk(n) by { LoseNumber(s.ledger.ids, s.macIds, s.ledger.lost, MAX_MAC_ID, m); }
    assert PortsOk(n);
  }

  lemma RemoveInterfaceLedger(s: State, v: nat)
    requires LedgerOk(s) && StasOk(s) && v in s.vifs && NoStations(s, v)
    ensures LedgerOk(RemoveInterface(s, v)) && StasOk(RemoveInterface(s, v))
  {
    var n := RemoveInterface(s, v);
    assert !Live(n, OfVif(v));
    forall o | o != OfVif(v)
      ensures Live(n, o) <==> Live(s, o)
      ensures Live(n, o) ==> MacIdOf(n, o) == MacIdOf(s, o)
    {
    }
  }

  lemma RemoveInterfaceKeepsOk(s: State, v: nat)
    requires Ok(s) && v in s.vifs && NoStations(s, v)
    ensures Ok(RemoveInterface(s, v))
  {
    var n := RemoveInterface(s, v);
    assert LedgerOk(n) && StasOk(n) by { RemoveInterfaceLedger(s, v); }
    assert IdsOk(n) by {
      assert Live(s, OfVif(v));
      ReleaseNumber(s.ledger.ids, s.macIds, s.ledger.lost, MAX_MAC_ID, OfVif(v));
    }
    assert PortsOk(n) by { ReleaseNumber(s.ledger.ports, s.ports, {}, PORT_NUM, v); }
  }

  lemma RemovalFreesNumbers(s: State, v: nat)
    requires Ok(s) && v in s.vifs
    ensures var n := RemoveInterface(s, v);
            FirstZero(n.macIds, MAX_MAC_ID, 0) < MAX_MAC_ID && FirstZero(n.ports, PORT_NUM, 0) < PORT_NUM
  {
    assert Live(s, OfVif(v)) && s.ledger.ids[OfVif(v)] == s.vifs[v].macId && s.ledger.ports[v] == s.vifs[v].port;
    assert s.vifs[v].macId in s.macIds && s.vifs[v].port in s.ports;
  }

  lemma ChangeInterfaceKeepsOk(s: State, v: nat, kind: IfType, order: seq<nat>)
    requires Ok(s) && v in s.vifs && NoStations(s, v)
    ensures Ok(AddInterface(RemoveInterface(s, v), v, kind, order).1)
  {
    RemoveInterfaceKeepsOk(s, v);
    AddInterfaceKeepsOk(RemoveInterface(s, v), v, kind, order);
  }

  /** A change of type fails iff the new type is not supported, and only then loses the interface's
      MAC id. */
  lemma ChangeFailsIff(s: State, v: nat, kind: IfType, order: seq<nat>)
    requires Ok(s) && v in s.vifs
    ensures var (ok, n) := AddInterface(RemoveInterface(s, v), v, kind, order);
            (ok <==> kind != Unsupported) && (ok <==> n.ledger.lost == s.ledger.lost)
  {
    RemovalFreesNumbers(s, v);
    LostStaysMarked(s, v);
    FailsWhenUnsupported(RemoveInterface(s, v), v, kind, order);
  }

  lemma FailsWhenUnsupported(s: State, v: nat, kind: IfType, order: seq<nat>)
    requires FirstZero(s.macIds, MAX_MAC_ID, 0) < MAX_MAC_ID && FirstZero(s.ports, PORT_NUM, 0) < PORT_NUM
    requires s.ledger.lost <= s.macIds
    ensures var (ok, n) := AddInterface(s, v, kind, order);
            (ok <==> kind != Unsupported) && (ok <==> n.ledger.lost == s.ledger.lost)
  {
    assert FirstZero(s.macIds, MAX_MAC_ID, 0) !in s.ledger.lost;
  }

  lemma LostStaysMarked(s: State, v: nat)
    requires Ok(s) && v in s.vifs
    ensures s.ledger.lost <= RemoveInterface(s, v).macIds
  {
    assert Live(s, OfVif(v)) && s.ledger.ids[OfVif(v)] == s.vifs[v].macId;
    assert s.vifs[v].macId in s.ledger.ids.Values;
  }

  lemma NewStationLedger(s: State, x: nat, v: nat, tdls: bool, m: nat)
    requires LedgerOk(s) && v in s.vifs && x !in s.stas
    ensures LedgerOk(WithStation(s, x, v, tdls, m))
  {
    var n := WithStation(s, x, v, tdls, m);
    assert !Live(s, OfSta(x));
    forall o | o != OfSta(x)
      ensures Live(n, o) <==> Live(s, o)
      ensures Live(n, o) ==> MacIdOf(n, o) == MacIdOf(s, o)
    {
    }
  }

  /** A station record appears; unless managed it takes the MAC id m. */
  lemma NewStationKeepsOk(s: State, x: nat, v: nat, tdls: bool, m: nat)
    requires Ok(s) && v in s.vifs && x !in s.stas
    requires if s.vifs[v].kind == Station && !tdls then m == s.vifs[v].macId else m !in s.macIds && m < MAX_MAC_ID
    ensures Ok(WithStation(s, x, v, tdls, m))
  {
    var n := WithStation(s, x, v, tdls, m);
    assert LedgerOk(n) by { NewStationLedger(s, x, v, tdls, m); }
    assert StasOk(n) by { NewStationStas(s, x, v, tdls, m); }
    assert IdsOk(n) by {
      if !(s.vifs[v].kind == Station && !tdls) {
        assert !Live(s, OfSta(x));
        TakeNumber(s.ledger.ids, s.macIds, s.ledger.lost, MAX_MAC_ID, OfSta(x), m);
      }
    }
    assert PortsOk(n);
  }

  lemma NewStationStas(s: State, x: nat, v: nat, tdls: bool, m: nat)
    requires StasOk(s) && v in s.vifs && x !in s.stas
    requires s.vifs[v].kind == Station && !tdls ==> m == s.vifs[v].macId
    ensures StasOk(WithStation(s, x, v, tdls, m))
  {
  }

  lemma AddStationKeepsOk(s: State, x: nat, v: nat, tdls: bool)
    requires Ok(s) && v in s.vifs && x !in s.stas
    ensures var (ok, n) := AddStation(s, x, v, tdls);
            Ok(n) && n.vifs == s.vifs && n.ledger.lost == s.ledger.lost && (!ok ==> n == s)
  {
    if s.vifs[v].kind == Station && !tdls {
      NewStationKeepsOk(s, x, v, tdls, s.vifs[v].macId);
    } else {
      var m := FirstZero(s.macIds, MAX_MAC_ID, 0);
      if m < MAX_MAC_ID {
        NewStationKeepsOk(s, x, v, tdls, m);
      }
    }
  }

  lemma RemoveStationLedger(s: State, x: nat)
    requires LedgerOk(s) && StasOk(s) && x in s.stas
    ensures LedgerOk(RemoveStation(s, x))
  {
    var n := RemoveStation(s, x);
    assert !Live(n, OfSta(x));
    forall o | o != OfSta(x)
      ensures Live(n, o) <==> Live(s, o)
      ensures Live(n, o) ==> MacIdOf(n, o) == MacIdOf(s, o)
    {
    }
  }

  lemma RemoveStationKeepsOk(s: State, x: nat)
    requires Ok(s) && x in s.stas
    ensures Ok(RemoveStation(s, x))
  {
    var n := RemoveStation(s, x);
    assert LedgerOk(n) by { RemoveStationLedger(s, x); }
    assert StasOk(n);
    assert IdsOk(n) by {
      if !Managed(s, s.stas[x]) {
        assert Live(s, OfSta(x));
        ReleaseNumber(s.ledger.ids, s.macIds, s.ledger.lost, MAX_MAC_ID, OfSta(x));
      }
    }
  }

  /** With nobody live, exactly the lost MAC ids are marked and no port is. */
  lemma EmptyMeansOnlyLost(s: State)
    requires Ok(s) && s.vifs == map[] && s.stas == map[]
    ensures s.macIds == s.ledger.lost && s.ports == {} && s.staCnt == 0
  {
    assert s.ledger.ids == map[] by {
      forall o ensures o !in s.ledger.ids { assert !Live(s, o); }
    }
    assert s.ledger.ports == map[];
  }

  /** No two live owners share a MAC id and no two interfaces a port; a station with an interface's MAC id
      is that interface's managed station. */
  lemma NoSharing(s: State, v: nat, w: nat)
    requires Ok(s) && v in s.vifs && w in s.vifs && v != w
    ensures s.vifs[v].macId != s.vifs[w].macId && s.vifs[v].port != s.vifs[w].port
    ensures forall x | x in s.stas && s.stas[x].macId == s.vifs[v].macId :: s.stas[x].vif == v && Managed(s, s.stas[x])
  {
    assert Live(s, OfVif(v)) && Live(s, OfVif(w));
    forall x | x in s.stas && s.stas[x].macId == s.vifs[v].macId
      ensures s.stas[x].vif == v && Managed(s, s.stas[x])
    {
      if Managed(s, s.stas[x]) {
        assert Live(s, OfVif(s.stas[x].vif));
      } else {
        assert Live(s, OfSta(x));
      }
    }
  }

  // ---------------------------------------------------------------- firmware recovery

  /** rtw_reset_sta_iter over all stations; it skips when the count is already zero. */
  function ResetStations(s: State, order: seq<nat>): State
    decreases |order|
  {
    if order == [] then s
    else
      var x := order[0];
      ResetStations(if s.staCnt != 0 && x in s.stas && s.stas[x].vif in s.vifs then RemoveStation(s, x) else s,
                    order[1..])
  }

  /** Every station, each once. */
  predicate Enumerates(order: seq<nat>, keys: set<nat>)
  {
    && (forall k | k in order :: k in keys) && (forall k | k in keys :: k in order)
    && forall i, j | 0 <= i < j < |order| :: order[i] != order[j]
  }

  lemma {:induction false} ResetStationsRemovesAll(s: State, order: seq<nat>)
    requires Ok(s) && Enumerates(order, s.stas.Keys)
    ensures var n := ResetStations(s, order);
            Ok(n) && n.stas == map[] && n.vifs == s.vifs && n.ledger.lost == s.ledger.lost && n.ports == s.ports
    decreases |order|
  {
    if order != [] {
      var x, rest := order[0], order[1..];
      assert x in order;
      ResetOne(s, x);
      var n := RemoveStation(s, x);
      assert Enumerates(rest, n.stas.Keys) by { EnumeratesRest(order, s.stas.Keys); }
      ResetStationsRemovesAll(n, rest);
    } else {
      assert s.stas.Keys == {};
    }
  }

  lemma ResetOne(s: State, x: nat)
    requires Ok(s) && x in s.stas
    ensures s.staCnt != 0 && s.stas[x].vif in s.vifs
    ensures var n := RemoveStation(s, x);
            && Ok(n) && n.stas.Keys == s.stas.Keys - {x}
            && n.vifs == s.vifs && n.ledger.lost == s.ledger.lost && n.ports == s.ports
  {
    assert s.stas.Keys != {};
    assert |s.stas| > 0;
    RemoveStationKeepsOk(s, x);
  }

  lemma EnumeratesRest(order: seq<nat>, keys: set<nat>)
    requires order != [] && Enumerates(order, keys)
    ensures Enumerates(order[1..], keys - {order[0]})
  {
    var rest := order[1..];
    assert forall i | 0 <= i < |rest| :: rest[i] == order[i + 1];
    forall k ensures k in rest <==> k in keys - {order[0]} {
      assert k in order <==> k == order[0] || k in rest;
    }
  }

  /** rtw_reset_vif_iter over all interfaces releases their MAC ids. */
  function ReleaseAll(macIds: set<nat>, vifs: map<nat, Vif>, order: seq<nat>): set<nat>
    requires forall i | 0 <= i < |order| :: order[i] in vifs
    decreases |order|
  {
    if order == [] then macIds else ReleaseAll(macIds - {vifs[order[0]].macId}, vifs, order[1..])
  }

  lemma {:induction false} ReleaseAllEffect(macIds: set<nat>, vifs: map<nat, Vif>, order: seq<nat>, m: nat)
    requires forall i | 0 <= i < |order| :: order[i] in vifs
    ensures m in ReleaseAll(macIds, vifs, order)
       <==> m in macIds && forall i | 0 <= i < |order| :: vifs[order[i]].macId != m
    decreases |order|
  {
    if order != [] {
      var rest := order[1..];
      ReleaseAllEffect(macIds - {vifs[order[0]].macId}, vifs, rest, m);
      assert forall i | 0 < i < |order| :: order[i] == rest[i - 1];
    }
  }

  /** The resetting part of __fw_recovery_work: stations, interfaces, then all ports. The owners are
      gone; the stack adds interfaces and stations anew. */
  function Recover(s: State, staOrder: seq<nat>, vifOrder: seq<nat>): State
    requires forall i | 0 <= i < |vifOrder| :: vifOrder[i] in s.vifs
  {
    var n := ResetStations(s, staOrder);
    State(ReleaseAll(n.macIds, s.vifs, vifOrder), {}, map[], n.stas, n.staCnt, Ledger(map[], map[], n.ledger.lost))
  }

  /** Nobody live, with some MAC ids lost. */
  function Empty(lost: set<nat>): State { State(lost, {}, map[], map[], 0, Ledger(map[], map[], lost)) }

  lemma ReleasedIds(n: State, vifOrder: seq<nat>, m: nat)
    requires Ok(n) && n.stas == map[] && Enumerates(vifOrder, n.vifs.Keys)
    requires forall i | 0 <= i < |vifOrder| :: vifOrder[i] in n.vifs
    ensures m in ReleaseAll(n.macIds, n.vifs, vifOrder) <==> m in n.ledger.lost
  {
    ReleaseAllEffect(n.macIds, n.vifs, vifOrder, m);
    var ids := n.ledger.ids;
    if m in ids.Values {
      var o :| o in ids && ids[o] == m;
      assert Live(n, o) && o.v in vifOrder;
    }
    if i :| 0 <= i < |vifOrder| && n.vifs[vifOrder[i]].macId == m {
      assert Live(n, OfVif(vifOrder[i])) && ids[OfVif(vifOrder[i])] == m;
    }
  }

  lemma EmptyOk(lost: set<nat>)
    requires forall m | m in lost :: m < MAX_MAC_ID
    ensures Ok(Empty(lost))
  {
    var s := Empty(lost);
    assert s.ledger.ids.Values == {} && s.ledger.ports.Values == {};
  }

  /** Recovery empties both maps, except for MAC ids lost by failed adds, whatever was live. */
  lemma RecoveryEmptiesMaps(s: State, staOrder: seq<nat>, vifOrder: seq<nat>)
    requires Ok(s) && Enumerates(staOrder, s.stas.Keys) && Enumerates(vifOrder, s.vifs.Keys)
    ensures forall i | 0 <= i < |vifOrder| :: vifOrder[i] in s.vifs
    ensures Recover(s, staOrder, vifOrder) == Empty(s.ledger.lost) && Ok(Empty(s.ledger.lost))
  {
    assert forall i | 0 <= i < |vifOrder| :: vifOrder[i] in vifOrder;
    StationsReset(s, staOrder);
    AllReleased(ResetStations(s, staOrder), vifOrder);
    EmptyOk(s.ledger.lost);
  }

  lemma AllReleased(n: State, vifOrder: seq<nat>)
    requires Ok(n) && n.stas == map[] && Enumerates(vifOrder, n.vifs.Keys)
    requires forall i | 0 <= i < |vifOrder| :: vifOrder[i] in n.vifs
    ensures ReleaseAll(n.macIds, n.vifs, vifOrder) == n.ledger.lost
  {
    forall m ensures m in ReleaseAll(n.macIds, n.vifs, vifOrder) <==> m in n.ledger.lost {
      ReleasedIds(n, vifOrder, m);
    }
  }

  lemma StationsReset(s: State, staOrder: seq<nat>)
    requires Ok(s) && Enumerates(staOrder, s.stas.Keys)
    ensures var n := ResetStations(s, staOrder);
            Ok(n) && n.stas == map[] && n.vifs == s.vifs && n.ledger.lost == s.ledger.lost && n.staCnt == 0
  {
    ResetStationsRemovesAll(s, staOrder);
    assert |ResetStations(s, staOrder).stas| == 0;
  }

  // ---------------------------------------------------------------- the driver code

  class Device {
    var macIdMap: set<nat>
    var hwPort: set<nat>
    var vifs: map<nat, Vif>
    var stas: map<nat, Sta>
    var staCnt: int
    ghost var ledger: Ledger

    ghost function Abs(): State
      reads this
    {
      State(macIdMap, hwPort, vifs, stas, staCnt, ledger)
    }

    constructor ()
      ensures Ok(Abs()) && Abs() == Empty({})
    {
      macIdMap, hwPort, vifs, stas, staCnt := {}, {}, map[], map[], 0;
      ledger := Ledger(map[], map[], {});
    }

    /** rtw_acquire_macid. */
    method AcquireMacId() returns (macId: nat)
      modifies this`macIdMap
      ensures macId == FirstZero(old(macIdMap), MAX_MAC_ID, 0)
      ensures macIdMap == if macId < MAX_MAC_ID then old(macIdMap) + {macId} else old(macIdMap)
    {
      macId := FirstZero(macIdMap, MAX_MAC_ID, 0);
      if macId < MAX_MAC_ID {
        macIdMap := macIdMap + {macId};
      }
    }

    method OpsAddInterface(v: nat, kind: IfType, order: seq<nat>) returns (ok: bool)
      modifies this
      ensures (ok, Abs()) == AddInterface(old(Abs()), v, kind, order)
    {
      var macId := AcquireMacId();
      if macId >= MAX_MAC_ID {
        return false;
      }
      var port := FirstZero(hwPort, PORT_NUM, 0);
      if port >= PORT_NUM {
        ledger := ledger.(lost := ledger.lost + {macId});
        return false;
      }
      hwPort := hwPort + {port};
      if kind == Unsupported {
        hwPort := hwPort - {port};
        assert hwPort == old(hwPort);
        ledger := ledger.(lost := ledger.lost + {macId});
        return false;
      }
      vifs := vifs[v := Vif(kind, macId, port)];
      ledger := ledger.(ids := ledger.ids[OfVif(v) := macId], ports := ledger.ports[v := port]);
      CorePortSwitch(v, order);
      return true;
    }

    /** rtw_core_port_switch, as far as ports go. */
    method CorePortSwitch(a: nat, order: seq<nat>)
      requires a in vifs
      modifies this
      ensures Abs() == PortSwitch(old(Abs()), a, order)
    {
      if vifs[a].kind != AccessPoint || vifs[a].port == 0 {
        return;
      }
      for i := 0 to |order|
        invariant a in vifs && SwitchVisits(Abs(), a, order[i..]) == SwitchVisits(old(Abs()), a, order)
      {
        var t := order[i];
        assert order[i..][1..] == order[i + 1..];
        if t in vifs && vifs[t].port == 0 {
          var p, q := vifs[a].port, vifs[t].port;
          vifs := vifs[a := vifs[a].(port := q)][t := vifs[t].(port := p)];
          ledger := ledger.(ports := ledger.ports[a := q][t := p]);
        }
      }
    }

    method OpsRemoveInterface(v: nat)
      requires v in vifs
      modifies this
      ensures Abs() == RemoveInterface(old(Abs()), v)
    {
      hwPort := hwPort - {vifs[v].port};
      macIdMap := macIdMap - {vifs[v].macId};
      vifs := vifs - {v};
      ledger := ledger.(ids := ledger.ids - {OfVif(v)}, ports := ledger.ports - {v});
    }

    /** rtw_ops_change_interface. */
    method OpsChangeInterface(v: nat, kind: IfType, order: seq<nat>) returns (ok: bool)
      requires v in vifs
      modifies this
      ensures (ok, Abs()) == AddInterface(RemoveInterface(old(Abs()), v), v, kind, order)
    {
      OpsRemoveInterface(v);
      ok := OpsAddInterface(v, kind, order);
    }

    method StaAdd(x: nat, v: nat, tdls: bool) returns (ok: bool)
      requires v in vifs
      modifies this
      ensures (ok, Abs()) == AddStation(old(Abs()), x, v, tdls)
    {
      var macId;
      if vifs[v].kind == Station && !tdls {
        macId := vifs[v].macId;
      } else {
        macId := AcquireMacId();
        if macId >= MAX_MAC_ID {
          return false;
        }
        ledger := ledger.(ids := ledger.ids[OfSta(x) := macId]);
      }
      stas := stas[x := Sta(v, tdls, macId)];
      staCnt := staCnt + 1;
      return true;
    }

    method StaRemove(x: nat)
      requires x in stas && stas[x].vif in vifs
      modifies this
      ensures Abs() == RemoveStation(old(Abs()), x)
    {
      var y := stas[x];
      if vifs[y.vif].kind != Station || y.tdls {
        macIdMap := macIdMap - {y.macId};
        ledger := ledger.(ids := ledger.ids - {OfSta(x)});
      }
      stas := stas - {x};
      staCnt := staCnt - 1;
    }

    /** The resetting part of __fw_recovery_work, over the stations and interfaces in any order. */
    method FwRecovery(staOrder: seq<nat>, vifOrder: seq<nat>)
      requires Ok(Abs()) && Enumerates(staOrder, stas.Keys) && Enumerates(vifOrder, vifs.Keys)
      modifies this
      ensures Ok(Abs()) && Abs() == Empty(old(ledger.lost))
    {
      RecoveryEmptiesMaps(Abs(), staOrder, vifOrder);
      ResetStationsRemovesAll(Abs(), staOrder);
      ResetAllStations(staOrder);
      ReleaseAllInterfaces(vifOrder);
      hwPort := {};
      vifs := map[];
      ledger := Ledger(map[], map[], ledger.lost);
    }

    method ResetAllStations(staOrder: seq<nat>)
      modifies this
      ensures Abs() == ResetStations(old(Abs()), staOrder)
    {
      for i := 0 to |staOrder|
        invariant ResetStations(Abs(), staOrder[i..]) == ResetStations(old(Abs()), staOrder)
      {
        var x := staOrder[i];
        assert staOrder[i..][1..] == staOrder[i + 1..];
        if staCnt != 0 && x in stas && stas[x].vif in vifs {
          var y := stas[x];
          if vifs[y.vif].kind != Station || y.tdls {
            macIdMap := macIdMap - {y.macId};
            ledger := ledger.(ids := ledger.ids - {OfSta(x)});
          }
          stas := stas - {x};
          staCnt := staCnt - 1;
        }
      }
    }

    method ReleaseAllInterfaces(vifOrder: seq<nat>)
      requires forall i | 0 <= i < |vifOrder| :: vifOrder[i] in vifs
      modifies this`macIdMap
      ensures macIdMap == ReleaseAll(old(macIdMap), vifs, vifOrder)
    {
      for j := 0 to |vifOrder|
        invariant ReleaseAll(macIdMap, vifs, vifOrder[j..]) == ReleaseAll(old(macIdMap), vifs, vifOrder)
      {
        assert vifOrder[j..][1..] == vifOrder[j + 1..];
        macIdMap := macIdMap - {vifs[vifOrder[j]].macId};
      }
    }
  }

  // ---------------------------------------------------------------- runs

  datatype Op =
    | AddIf(v: nat, kind: IfType, order: seq<nat>)
    | RemoveIf(v: nat)
    | ChangeIf(v: nat, kind: IfType, order: seq<nat>)
    | AddSta(x: nat, v: nat, tdls: bool)
    | RemoveSta(x: nat)
    | Recovery(staOrder: seq<nat>, vifOrder: seq<nat>)

  /** The stack above adds what is not there, removes what is, and stations before their interface. */
  predicate Applicable(s: State, op: Op)
  {
    match op
    case AddIf(v, _, _) => v !in s.vifs
    case RemoveIf(v) => v in s.vifs && NoStations(s, v)
    case ChangeIf(v, _, _) => v in s.vifs && NoStations(s, v)
    case AddSta(x, v, _) => v in s.vifs && x !in s.stas
    case RemoveSta(x) => x in s.stas && s.stas[x].vif in s.vifs
    case Recovery(staOrder, vifOrder) => Enumerates(staOrder, s.stas.Keys) && Enumerates(vifOrder, s.vifs.Keys)
  }

  /** Allocation is exact after every run of applicable operations from any exact state, recovery
      included; and MAC ids are lost only when an operation fails. */
  method RunAll(d: Device, ops: seq<Op>) returns (allDone: bool)
    requires Ok(d.Abs())
    modifies d
    ensures Ok(d.Abs())
    ensures allDone ==> d.ledger.lost == old(d.ledger.lost)
  {
    allDone := true;
    for i := 0 to |ops|
      invariant Ok(d.Abs())
      invariant allDone ==> d.ledger.lost == old(d.ledger.lost)
    {
      if Applicable(State(d.macIdMap, d.hwPort, d.vifs, d.stas, d.staCnt, Ledger(map[], map[], {})), ops[i]) {
        var ok := RunOne(d, ops[i]);
        allDone := allDone && ok;
      }
    }
  }

  method RunOne(d: Device, op: Op) returns (ok: bool)
    requires Ok(d.Abs()) && Applicable(d.Abs(), op)
    modifies d
    ensures Ok(d.Abs())
    ensures ok ==> d.ledger.lost == old(d.ledger.lost)
  {
    ok := true;
    match op {
      case AddIf(v, kind, order) =>
        AddInterfaceKeepsOk(d.Abs(), v, kind, order);
        ok := d.OpsAddInterface(v, kind, order);
      case RemoveIf(v) =>
        RemoveInterfaceKeepsOk(d.Abs(), v);
        d.OpsRemoveInterface(v);
      case ChangeIf(v, kind, order) =>
        ChangeInterfaceKeepsOk(d.Abs(), v, kind, order);
        ok := d.OpsChangeInterface(v, kind, order);
      case AddSta(x, v, tdls) =>
        AddStationKeepsOk(d.Abs(), x, v, tdls);
        ok := d.StaAdd(x, v, tdls);
      case RemoveSta(x) =>
        RemoveStationKeepsOk(d.Abs(), x);
        d.StaRemove(x);
      case Recovery(staOrder, vifOrder) =>
        d.FwRecovery(staOrder, vifOrder);
    }
  }
}
