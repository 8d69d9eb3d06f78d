/**
  Ownership of reserved pages (fw.c). Every page is on the list of the interface it was made for, and
  between rebuilds also on the device's build list; a dummy page, needed when no beacon comes first,
  is on the build list only. Interfaces free their own pages, the build list frees its dummy.
 */
module RsvdList {

  datatype Kind = Beacon | Dummy | Other

  /** A page: its identity (address), its kind, and the interface it was made for. */
  datatype Page = Page(id: nat, kind: Kind, owner: nat)

  /** The interface lists and the build list, the pages made so far, those freed, in order, and those that no
      interface has any more although they were not freed. */
  datatype Own = Own(lists: map<nat, seq<Page>>, build: seq<Page>, nextId: nat, made: set<Page>, freed: seq<Page>,
                     leaked: set<Page>)

  predicate NoDup(s: seq<Page>) { forall i, j | 0 <= i < j < |s| :: s[i] != s[j] }

  predicate Owned(o: Own, p: Page) { p.owner in o.lists && p in o.lists[p.owner] }

  ghost predicate ListsOk(o: Own)
  {
    && (forall v | v in o.lists :: NoDup(o.lists[v]))
    && (forall v, p | v in o.lists && p in o.lists[v] :: p.owner == v && p.kind != Dummy && p in o.made)
  }

  /** A page of an interface, or leaked by one. */
  predicate Kept(o: Own, p: Page) { Owned(o, p) || p in o.leaked }

  /** At most one dummy, in front and belonging to nobody; every other page is or was its interface's. */
  ghost predicate BuildOk(o: Own)
  {
    && NoDup(o.build)
    && forall i | 0 <= i < |o.build| ::
         if o.build[i].kind == Dummy then i == 0 && o.build[i] in o.made else Kept(o, o.build[i])
  }

  /** No page is freed twice, and no freed page is still on a list. */
  ghost predicate FreedOk(o: Own)
  {
    NoDup(o.freed) && forall p | p in o.freed :: p in o.made && !Kept(o, p) && p !in o.build
  }

  ghost predicate LeakedOk(o: Own) { forall p | p in o.leaked :: p in o.made && p.kind != Dummy && !Owned(o, p) }

  /** Every page ever made is owned by its interface or leaked, is the dummy, or has been freed. */
  ghost predicate Accounted(o: Own)
  {
    forall p | p in o.made :: Kept(o, p) || (p.kind == Dummy && p in o.build) || p in o.freed
  }

  ghost predicate Ok(o: Own)
  {
    && ListsOk(o) && BuildOk(o) && FreedOk(o) && LeakedOk(o) && Accounted(o)
    && forall p | p in o.made :: p.id < o.nextId
  }

  // ---------------------------------------------------------------- the list operations

  /** list_del. */
  function Without(s: seq<Page>, p: Page): (r: seq<Page>)
    ensures forall q :: q in r <==> q in s && q != p
    ensures NoDup(s) ==> NoDup(r)
    ensures s != [] && s[0] != p ==> r != [] && r[0] == s[0]
    ensures p !in s ==> r == s
  {
    if s == [] then []
    else if s[0] == p then Without(s[1..], p)
    else
      var r := Without(s[1..], p);
      assert forall q :: q in s <==> q == s[0] || q in s[1..];
      assert NoDup(s) ==> NoDup(s[1..]) && s[0] !in s[1..];
      [s[0]] + r
  }

  /** A page is made for an interface. */
  function MakePage(o: Own, v: nat, kind: Kind): Own
    requires v in o.lists
  {
    var p := Page(o.nextId, kind, v);
    o.(lists := o.lists[v := o.lists[v] + [p]], nextId := o.nextId + 1, made := o.made + {p})
  }

  /** One step of rtw_remove_rsvd_page. */
  function DropFirst(o: Own, v: nat): Own
    requires v in o.lists && o.lists[v] != []
  {
    var p := o.lists[v][0];
    o.(lists := o.lists[v := o.lists[v][1..]], build := Without(o.build, p), freed := o.freed + [p])
  }

  function DropAll(o: Own, v: nat): Own
    requires v in o.lists
    decreases if v in o.lists then |o.lists[v]| else 0
  {
    if o.lists[v] == [] then o else DropAll(DropFirst(o, v), v)
  }

  /** One step of __rtw_build_rsvd_page_reset. */
  function Pop(o: Own): Own
    requires o.build != []
  {
    var p := o.build[0];
    o.(build := o.build[1..], freed := if p.kind == Dummy then o.freed + [p] else o.freed)
  }

  function PopAll(o: Own): Own
    decreases |o.build|
  {
    if o.build == [] then o else PopAll(Pop(o))
  }

  function PutInto(s: seq<Page>, p: Page): seq<Page> { if p.kind == Beacon then [p] + s else s + [p] }

  /** One step of rtw_build_rsvd_page_iter: beacons to the front, other pages to the back. */
  function Put(o: Own, p: Page): Own
  {
    o.(build := PutInto(o.build, p))
  }

  /** A dummy page in front. */
  function PutDummy(o: Own): Own
  {
    var d := Page(o.nextId, Dummy, 0);
    o.(build := [d] + o.build, nextId := o.nextId + 1, made := o.made + {d})
  }

  // ---------------------------------------------------------------- every operation keeps ownership

  lemma MakeKeepsOk(o: Own, v: nat, kind: Kind)
    requires Ok(o) && v in o.lists && kind != Dummy
    ensures Ok(MakePage(o, v, kind)) && Page(o.nextId, kind, v) !in o.made
  {
    var p := Page(o.nextId, kind, v);
    var n := MakePage(o, v, kind);
    assert p !in o.made;
    assert forall q | q != p :: Owned(n, q) <==> Owned(o, q);
  }

  lemma DropKeepsOk(o: Own, v: nat)
    requires Ok(o) && v in o.lists && o.lists[v] != []
    ensures Ok(DropFirst(o, v))
  {
    var p, n := o.lists[v][0], DropFirst(o, v);
    assert p in o.lists[v] && p.owner == v && p.kind != Dummy && p !in o.freed;
    assert forall q :: q in o.lists[v] <==> q == p || q in n.lists[v];
    assert p !in n.lists[v];
    assert forall q | q != p :: Owned(n, q) <==> Owned(o, q);
    assert BuildOk(n) by {
      forall i | 0 <= i < |n.build|
        ensures if n.build[i].kind == Dummy then i == 0 && n.build[i] in n.made else Kept(n, n.build[i])
      {
        var q := n.build[i];
        assert q in o.build && q != p;
        if q.kind == Dummy {
          assert q == o.build[0];
          assert n.build[0] == q;
        } else {
          assert Kept(o, q);
        }
      }
    }
  }

  lemma PopKeepsOk(o: Own)
    requires Ok(o) && o.build != []
    ensures Ok(Pop(o)) && forall i | 0 <= i < |o.build| - 1 :: Pop(o).build[i].kind != Dummy
  {
    var p, n := o.build[0], Pop(o);
    assert forall i | 0 <= i < |n.build| :: n.build[i] == o.build[i + 1];
    assert forall q :: q in o.build <==> q == p || q in n.build;
    assert p !in n.build && p !in o.freed;
    assert p.kind == Dummy ==> !Owned(o, p);
  }

  lemma PutKeepsOk(o: Own, p: Page)
    requires Ok(o) && Owned(o, p) && p !in o.build && forall q | q in o.build :: q.kind != Dummy
    ensures Ok(Put(o, p)) && forall q :: q in Put(o, p).build <==> q in o.build || q == p
  {
    var n := Put(o, p);
    PutMembers(o.build, p);
    assert p.kind != Dummy && p !in o.freed;
    assert Accounted(n) && FreedOk(n) && ListsOk(n) && LeakedOk(n);
    assert BuildOk(n) by {
      forall i | 0 <= i < |n.build| ensures n.build[i].kind != Dummy && Kept(n, n.build[i]) {
        InBuild(o, n.build[i], p);
      }
    }
  }

  lemma InBuild(o: Own, q: Page, p: Page)
    requires BuildOk(o) && Owned(o, p) && p.kind != Dummy && (q == p || q in o.build)
    requires forall r | r in o.build :: r.kind != Dummy
    ensures q.kind != Dummy && Kept(o, q)
  {
    if q != p {
      var j :| 0 <= j < |o.build| && o.build[j] == q;
    }
  }

  lemma PutMembers(s: seq<Page>, p: Page)
    requires NoDup(s) && p !in s
    ensures NoDup([p] + s) && NoDup(s + [p])
    ensures forall q :: q in [p] + s <==> q in s || q == p
    ensures forall q :: q in s + [p] <==> q in s || q == p
  {
  }

  lemma ForgetKeepsOk(o: Own, v: nat)
    requires Ok(o) && v in o.lists && o.lists[v] == []
    ensures Ok(o.(lists := o.lists - {v}))
  {
    var n := o.(lists := o.lists - {v});
    assert forall p :: Owned(n, p) <==> Owned(o, p);
  }

  /** An interface's list is emptied without freeing its pages. */
  function Leak(o: Own, v: nat): Own
    requires v in o.lists
  {
    o.(lists := o.lists[v := []], leaked := o.leaked + set p | p in o.lists[v])
  }

  lemma LeakKeepsOk(o: Own, v: nat)
    requires Ok(o) && v in o.lists
    ensures Ok(Leak(o, v)) && (Leak(o, v).leaked == o.leaked <==> o.lists[v] == [])
  {
    var n := Leak(o, v);
    assert forall p :: Kept(n, p) <==> Kept(o, p);
    assert forall p: Page | p.owner != v :: Owned(n, p) <==> Owned(o, p);
    if o.lists[v] != [] {
      assert o.lists[v][0] in o.lists[v] && Owned(o, o.lists[v][0]);
      assert o.lists[v][0] in n.leaked;
    }
  }

  lemma DummyKeepsOk(o: Own)
    requires Ok(o) && forall q | q in o.build :: q.kind != Dummy
    ensures Ok(PutDummy(o)) && PutDummy(o).build[1..] == o.build
  {
    var d, n := Page(o.nextId, Dummy, 0), PutDummy(o);
    assert forall q :: q in n.build <==> q in o.build || q == d;
    assert d !in o.made && d !in o.freed && d !in o.build;
    assert forall i | 0 < i < |n.build| :: n.build[i] == o.build[i - 1];
  }

  lemma {:induction false} DropAllKeepsOk(o: Own, v: nat)
    requires Ok(o) && v in o.lists
    ensures Ok(DropAll(o, v))
    decreases |o.lists[v]|
  {
    if o.lists[v] != [] {
      DropKeepsOk(o, v);
      DropAllKeepsOk(DropFirst(o, v), v);
    }
  }

  /** Removing an interface's pages frees each of them, in order, and takes just them off the build list. */
  lemma {:induction false} DropAllEffect(o: Own, v: nat)
    requires v in o.lists
    ensures var n := DropAll(o, v);
            && n == o.(lists := o.lists[v := []], freed := o.freed + o.lists[v], build := n.build)
            && forall p :: p in n.build <==> p in o.build && p !in o.lists[v]
    decreases |o.lists[v]|
  {
    if o.lists[v] == [] {
      assert o.freed + [] == o.freed && o.lists[v := []] == o.lists;
    } else {
      var n, p, rest := DropFirst(o, v), o.lists[v][0], o.lists[v][1..];
      DropAllEffect(n, v);
      assert n.lists[v := []] == o.lists[v := []];
      assert o.lists[v] == [p] + rest;
      assert (o.freed + [p]) + rest == o.freed + o.lists[v];
    }
    DropAllBuild(o, v);
  }

  lemma {:induction false} DropAllBuild(o: Own, v: nat)
    requires v in o.lists
    ensures forall p :: p in DropAll(o, v).build <==> p in o.build && p !in o.lists[v]
    decreases |o.lists[v]|
  {
    if o.lists[v] != [] {
      var n := DropFirst(o, v);
      DropAllBuild(n, v);
      assert forall q :: q in o.lists[v] <==> q == o.lists[v][0] || q in n.lists[v];
    }
  }

  /** Emptying the build list frees the dummy, if there is one, and nothing else. */
  lemma {:induction false} PopAllEffect(o: Own)
    requires Ok(o)
    ensures var n := PopAll(o);
            && Ok(n) && n.build == [] && n.lists == o.lists && n.made == o.made && n.nextId == o.nextId && n.leaked == o.leaked
            && n.freed == o.freed + if o.build != [] && o.build[0].kind == Dummy then [o.build[0]] else []
    decreases |o.build|
  {
    if o.build == [] {
      assert o.freed + [] == o.freed;
    } else {
      PopKeepsOk(o);
      PopAllEffect(Pop(o));
      assert o.freed + [] == o.freed && (o.freed + [o.build[0]]) + [] == o.freed + [o.build[0]];
    }
  }

  // ---------------------------------------------------------------- gathering and rebuilding

  /** The interfaces as the rebuild meets them. */
  datatype Vif = Vif(id: nat, accessPoint: bool)

  predicate Gathers(v: Vif, apActive: bool) { !v.accessPoint || apActive }

  /** p is a page of one of the first n interfaces, and that interface takes part. */
  ghost predicate Gathered(o: Own, vifs: seq<Vif>, n: nat, apActive: bool, p: Page)
    requires n <= |vifs|
  {
    Owned(o, p) && exists i :: 0 <= i < n && vifs[i].id == p.owner && Gathers(vifs[i], apActive)
  }

  /** A beacon comes first if there is any. */
  predicate BeaconFirst(s: seq<Page>) { s == [] || s[0].kind == Beacon || forall p | p in s :: p.kind != Beacon }

  predicate Plain(p: Page) { p.kind != Beacon && p.kind != Dummy }

  /** The pages that are neither beacon nor dummy, in order. */
  ghost function Plains(s: seq<Page>): seq<Page>
  {
    if s == [] then []
    else Plains(s[..|s| - 1]) + if Plain(s[|s| - 1]) then [s[|s| - 1]] else []
  }

  lemma {:induction false} PlainsBehind(p: Page, s: seq<Page>)
    requires !Plain(p)
    ensures Plains([p] + s) == Plains(s)
    decreases |s|
  {
    if s == [] {
      assert [p][..0] == [];
    } else {
      assert ([p] + s)[..|s|] == [p] + s[..|s| - 1];
      PlainsBehind(p, s[..|s| - 1]);
    }
  }

  lemma PlainsPut(s: seq<Page>, p: Page)
    ensures Plains(s + [p]) == Plains(s) + if Plain(p) then [p] else []
  {
    assert (s + [p])[..|s|] == s;
  }

  function PutAll(s: seq<Page>, l: seq<Page>): seq<Page>
  {
    if l == [] then s else PutInto(PutAll(s, l[..|l| - 1]), l[|l| - 1])
  }

  /** Gathering a list adds its pages, keeps any beacon in front and the others in order. */
  lemma {:induction false} PutAllEffect(s: seq<Page>, l: seq<Page>)
    requires BeaconFirst(s)
    ensures BeaconFirst(PutAll(s, l)) && Plains(PutAll(s, l)) == Plains(s) + Plains(l)
    ensures forall p: Page :: p in PutAll(s, l) <==> p in s || p in l
    decreases |l|
  {
    if l != [] {
      var (front, p) := (l[..|l| - 1], l[|l| - 1]);
      PutAllEffect(s, front);
      assert l == front + [p];
      PutLast(s, PutAll(s, front), front, p);
    }
  }

  lemma PutLast(s: seq<Page>, m: seq<Page>, front: seq<Page>, p: Page)
    requires BeaconFirst(m) && Plains(m) == Plains(s) + Plains(front)
    requires forall q: Page :: q in m <==> q in s || q in front
    ensures BeaconFirst(PutInto(m, p)) && Plains(PutInto(m, p)) == Plains(s) + Plains(front + [p])
    ensures forall q: Page :: q in PutInto(m, p) <==> q in s || q in front + [p]
  {
    PutIntoEffect(m, p);
    PlainsPut(front, p);
    var last := if Plain(p) then [p] else [];
    assert (Plains(s) + Plains(front)) + last == Plains(s) + (Plains(front) + last);
  }

  lemma PutIntoEffect(s: seq<Page>, p: Page)
    requires BeaconFirst(s)
    ensures BeaconFirst(PutInto(s, p)) && Plains(PutInto(s, p)) == Plains(s) + if Plain(p) then [p] else []
    ensures forall q: Page :: q in PutInto(s, p) <==> q in s || q == p
  {
    if p.kind == Beacon {
      PlainsBehind(p, s);
    } else {
      PlainsPut(s, p);
    }
  }

  lemma {:induction false} PutAllKeepsOk(o: Own, v: nat, n: nat)
    requires Ok(o) && BeaconFirst(o.build) && v in o.lists && n <= |o.lists[v]|
    requires forall p | p in o.build :: p.kind != Dummy && p.owner != v
    ensures Ok(o.(build := PutAll(o.build, o.lists[v][..n])))
  {
    if n > 0 {
      var (front, p) := (o.lists[v][..n - 1], o.lists[v][n - 1]);
      var m := o.(build := PutAll(o.build, front));
      assert o.(build := PutAll(o.build, o.lists[v][..n])) == Put(m, p) by {
        assert o.lists[v][..n][..n - 1] == front;
      }
      assert Ok(m) by { PutAllKeepsOk(o, v, n - 1); }
      assert Owned(m, p) && p !in m.build && forall q | q in m.build :: q.kind != Dummy by {
        PutAllEffect(o.build, front);
        assert p !in front && p.owner == v;
      }
      PutKeepsOk(m, p);
    }
  }

  /** The lists of the first n interfaces one after another, access points only when one is active. */
  ghost function InTurn(lists: map<nat, seq<Page>>, vifs: seq<Vif>, n: nat, apActive: bool): seq<Page>
    requires n <= |vifs| && forall i | 0 <= i < n :: vifs[i].id in lists
  {
    if n == 0 then []
    else if vifs[n - 1].accessPoint && !apActive then InTurn(lists, vifs, n - 1, apActive)
    else InTurn(lists, vifs, n - 1, apActive) + Plains(lists[vifs[n - 1].id])
  }

  /** The build list after the first n interfaces. */
  function PutTurns(lists: map<nat, seq<Page>>, vifs: seq<Vif>, n: nat, apActive: bool): seq<Page>
    requires n <= |vifs| && forall i | 0 <= i < n :: vifs[i].id in lists
  {
    if n == 0 then []
    else if Gathers(vifs[n - 1], apActive) then PutAll(PutTurns(lists, vifs, n - 1, apActive), lists[vifs[n - 1].id])
    else PutTurns(lists, vifs, n - 1, apActive)
  }

  /** Gathering keeps ownership, gathers exactly the pages of the interfaces taking part, a beacon in front if
      there is any, and the others in turn. */
  lemma {:induction false} PutTurnsEffect(o: Own, vifs: seq<Vif>, n: nat, apActive: bool)
    requires Ok(o) && o.build == [] && n <= |vifs| && forall i | 0 <= i < |vifs| :: vifs[i].id in o.lists
    requires forall i, j | 0 <= i < j < |vifs| :: vifs[i].id != vifs[j].id
    ensures var build := PutTurns(o.lists, vifs, n, apActive);
            && Ok(o.(build := build)) && BeaconFirst(build) && Plains(build) == InTurn(o.lists, vifs, n, apActive)
            && forall p: Page :: p in build <==> Gathered(o, vifs, n, apActive, p)
  {
    if n == 0 {
      assert o.(build := []) == o;
    } else {
      PutTurnsEffect(o, vifs, n - 1, apActive);
      var (build, v) := (PutTurns(o.lists, vifs, n - 1, apActive), vifs[n - 1].id);
      NextVif(o, vifs, n - 1, apActive, build);
      if Gathers(vifs[n - 1], apActive) {
        PutAllEffect(build, o.lists[v]);
        PutAllKeepsOk(o.(build := build), v, |o.lists[v]|);
        assert o.lists[v][..|o.lists[v]|] == o.lists[v];
      }
    }
  }

  /** What membership of the gathered pages comes to for one interface's page. */
  lemma GatheredByCase(o: Own, vifs: seq<Vif>, apActive: bool, build: seq<Page>)
    requires Ok(o) && forall i | 0 <= i < |vifs| :: vifs[i].id in o.lists
    requires forall i, j | 0 <= i < j < |vifs| :: vifs[i].id != vifs[j].id
    requires forall p: Page | p.kind != Dummy :: p in build <==> Gathered(o, vifs, |vifs|, apActive, p)
    ensures forall i, p: Page | 0 <= i < |vifs| && p in o.lists[vifs[i].id] ::
              p in build <==> !vifs[i].accessPoint || apActive
  {
    forall i, p: Page | 0 <= i < |vifs| && p in o.lists[vifs[i].id]
      ensures p in build <==> !vifs[i].accessPoint || apActive
    {
      assert p.owner == vifs[i].id && p.kind != Dummy;
    }
  }

  /** One interface more: its pages, if it takes part, none of which is gathered yet. */
  lemma NextVif(o: Own, vifs: seq<Vif>, n: nat, apActive: bool, build: seq<Page>)
    requires Ok(o) && n < |vifs| && forall i | 0 <= i < |vifs| :: vifs[i].id in o.lists
    requires forall i, j | 0 <= i < j < |vifs| :: vifs[i].id != vifs[j].id
    requires forall p: Page :: p in build <==> Gathered(o, vifs, n, apActive, p)
    ensures forall p: Page | p in build :: p.kind != Dummy && p.owner != vifs[n].id
    ensures forall p: Page :: Gathered(o, vifs, n + 1, apActive, p)
                         <==> p in build || (Gathers(vifs[n], apActive) && p in o.lists[vifs[n].id])
  {
    forall p: Page
      ensures Gathered(o, vifs, n + 1, apActive, p)
         <==> p in build || (Gathers(vifs[n], apActive) && p in o.lists[vifs[n].id])
    {
      if p in o.lists[vifs[n].id] {
        assert p.owner == vifs[n].id;
      }
    }
  }

  class Device {
    var lists: map<nat, seq<Page>>
    var buildList: seq<Page>
    var nextId: nat
    ghost var made: set<Page>
    ghost var freed: seq<Page>
    ghost var leaked: set<Page>

    ghost function Abs(): Own
      reads this
    {
      Own(lists, buildList, nextId, made, freed, leaked)
    }

    constructor ()
      ensures Ok(Abs()) && lists == map[] && buildList == [] && freed == [] && leaked == {}
    {
      lists := map[];
      buildList := [];
      nextId := 0;
      made := {};
      freed := [];
      leaked := {};
    }

    /** An interface comes up with an empty list. */
    method AddInterface(v: nat)
      requires Ok(Abs()) && v !in lists
      modifies this
      ensures Ok(Abs()) && Abs() == old(Abs()).(lists := old(lists)[v := []])
    {
      lists := lists[v := []];
      assert forall p :: Owned(Abs(), p) <==> old(Owned(Abs(), p));
    }

    /** rtw_add_rsvd_page; the allocation may fail. */
    method AddPage(v: nat, kind: Kind, allocOk: bool)
      requires Ok(Abs()) && v in lists && kind != Dummy
      modifies this
      ensures Ok(Abs()) && Abs() == if allocOk then MakePage(old(Abs()), v, kind) else old(Abs())
    {
      if !allocOk {
        return;
      }
      MakeKeepsOk(Abs(), v, kind);
      var p := Page(nextId, kind, v);
      nextId := nextId + 1;
      made := made + {p};
      lists := lists[v := lists[v] + [p]];
    }

    /** rtw_remove_rsvd_page: every page of the interface leaves both lists and is freed. */
    method RemovePages(v: nat)
      requires Ok(Abs()) && v in lists
      modifies this
      ensures Ok(Abs()) && Abs() == DropAll(old(Abs()), v)
    {
      while lists[v] != []
        invariant v in lists && Ok(Abs()) && DropAll(Abs(), v) == DropAll(old(Abs()), v)
        decreases |lists[v]|
      {
        DropKeepsOk(Abs(), v);
        var p := lists[v][0];
        lists := lists[v := lists[v][1..]];
        if p in buildList {
          buildList := Without(buildList, p);
        }
        freed := freed + [p];
      }
    }

    /** __rtw_build_rsvd_page_reset: empty the build list, freeing only the dummy. */
    method Reset()
      requires Ok(Abs())
      modifies this
      ensures Ok(Abs()) && Abs() == PopAll(old(Abs()))
    {
      while buildList != []
        invariant Ok(Abs()) && PopAll(Abs()) == PopAll(old(Abs()))
        decreases |buildList|
      {
        PopKeepsOk(Abs());
        var p := buildList[0];
        buildList := buildList[1..];
        if p.kind == Dummy {
          freed := freed + [p];
        }
      }
    }

    /** rtw_build_rsvd_page_iter for one interface. */
    method Gather(v: nat)
      requires v in lists
      modifies this`buildList
      ensures buildList == PutAll(old(buildList), lists[v])
    {
      for i := 0 to |lists[v]|
        invariant buildList == PutAll(old(buildList), lists[v][..i])
      {
        var p := lists[v][i];
        assert lists[v][..i + 1][..i] == lists[v][..i];
        if p.kind == Beacon {
          buildList := [p] + buildList;
        } else {
          buildList := buildList + [p];
        }
      }
      assert lists[v][..|lists[v]|] == lists[v];
    }

    /**
      __rtw_build_rsvd_page_from_vifs: gather the pages of all interfaces, those of access points only when
      one is active, and put a dummy in front if no beacon is there. Pages other than beacons and the dummy
      come in the order of the interfaces and their lists. It fails iff there is nothing to gather, or a dummy is needed and cannot be made.
     */
    method Rebuild(vifs: seq<Vif>, apActive: bool, dummyOk: bool) returns (ok: bool)
      requires Ok(Abs())
      requires forall i | 0 <= i < |vifs| :: vifs[i].id in lists
      requires forall i, j | 0 <= i < j < |vifs| :: vifs[i].id != vifs[j].id
      modifies this
      ensures Ok(Abs()) && lists == old(lists) && leaked == old(leaked)
      ensures freed == old(freed) + if old(buildList) != [] && old(buildList)[0].kind == Dummy
                                    then [old(buildList)[0]] else []
      ensures forall p: Page | p.kind != Dummy :: p in buildList <==> Gathered(old(Abs()), vifs, |vifs|, apActive, p)
      ensures forall i, p: Page | 0 <= i < |vifs| && p in old(lists)[vifs[i].id] ::
                p in buildList <==> !vifs[i].accessPoint || apActive
      ensures Plains(buildList) == InTurn(lists, vifs, |vifs|, apActive)
      ensures ok ==> buildList != [] && (buildList[0].kind == Beacon || buildList[0].kind == Dummy)
      ensures ok ==> (buildList[0].kind == Dummy <==> forall p | p in buildList :: p.kind != Beacon)
      ensures !ok <==> buildList == [] || (!dummyOk && forall p | p in buildList :: p.kind != Beacon)
    {
      ghost var start := Abs();
      FromVifs(vifs, apActive);
      assert forall i, p: Page | 0 <= i < |vifs| && p in start.lists[vifs[i].id] :: p.kind != Dummy;
      ok := EnsureHead(dummyOk);
    }

    /** The reset and the iteration over the interfaces. */
    method FromVifs(vifs: seq<Vif>, apActive: bool)
      requires Ok(Abs())
      requires forall i | 0 <= i < |vifs| :: vifs[i].id in lists
      requires forall i, j | 0 <= i < j < |vifs| :: vifs[i].id != vifs[j].id
      modifies this
      ensures Ok(Abs()) && lists == old(lists) && leaked == old(leaked)
      ensures freed == old(freed) + if old(buildList) != [] && old(buildList)[0].kind == Dummy
                                    then [old(buildList)[0]] else []
      ensures BeaconFirst(buildList) && forall p | p in buildList :: p.kind != Dummy
      ensures forall p: Page :: p in buildList <==> Gathered(old(Abs()), vifs, |vifs|, apActive, p)
      ensures forall i, p: Page | 0 <= i < |vifs| && p in lists[vifs[i].id] ::
                p in buildList <==> !vifs[i].accessPoint || apActive
      ensures Plains(buildList) == InTurn(lists, vifs, |vifs|, apActive)
    {
      PopAllEffect(Abs());
      Reset();
      ghost var start := Abs();
      GatherAll(vifs, apActive);
      GatheredByCase(start, vifs, apActive, buildList);
    }

    /** The end of __rtw_build_rsvd_page_from_vifs. */
    method EnsureHead(dummyOk: bool) returns (ok: bool)
      requires Ok(Abs()) && BeaconFirst(buildList) && forall p | p in buildList :: p.kind != Dummy
      modifies this`buildList, this`nextId, this`made
      ensures Ok(Abs())
      ensures forall p: Page | p.kind != Dummy :: p in buildList <==> p in old(buildList)
      ensures Plains(buildList) == Plains(old(buildList))
      ensures ok ==> buildList != [] && (buildList[0].kind == Beacon || buildList[0].kind == Dummy)
      ensures ok ==> (buildList[0].kind == Dummy <==> forall p | p in buildList :: p.kind != Beacon)
      ensures !ok <==> buildList == [] || (!dummyOk && forall p | p in buildList :: p.kind != Beacon)
    {
      if buildList == [] {
        return false;
      }
      assert buildList[0] in buildList;
      if buildList[0].kind != Beacon {
        if !dummyOk {
          return false;
        }
        DummyKeepsOk(Abs());
        var d := Page(nextId, Dummy, 0);
        ghost var before := buildList;
        PlainsBehind(d, before);
        nextId := nextId + 1;
        made := made + {d};
        buildList := [d] + buildList;
        assert forall q: Page :: q in buildList <==> q in before || q == d;
      }
      return true;
    }

    /** The iteration over the interfaces. */
    method GatherAll(vifs: seq<Vif>, apActive: bool)
      requires Ok(Abs()) && buildList == []
      requires forall i | 0 <= i < |vifs| :: vifs[i].id in lists
      requires forall i, j | 0 <= i < j < |vifs| :: vifs[i].id != vifs[j].id
      modifies this`buildList
      ensures Ok(Abs()) && BeaconFirst(buildList)
      ensures forall p: Page :: p in buildList <==> Gathered(old(Abs()), vifs, |vifs|, apActive, p)
      ensures Plains(buildList) == InTurn(lists, vifs, |vifs|, apActive)
    {
      for i := 0 to |vifs|
        invariant buildList == PutTurns(lists, vifs, i, apActive)
      {
        if Gathers(vifs[i], apActive) {
          Gather(vifs[i].id);
        }
      }
      PutTurnsEffect(old(Abs()), vifs, |vifs|, apActive);
    }

    /** An interface goes away for good. */
    method RemoveInterface(v: nat)
      requires Ok(Abs()) && v in lists
      modifies this
      ensures Ok(Abs()) && lists == old(lists) - {v} && made == old(made) && leaked == old(leaked)
      ensures freed == old(freed) + old(lists)[v]
    {
      DropAllEffect(Abs(), v);
      DropAllKeepsOk(Abs(), v);
      RemovePages(v);
      ForgetKeepsOk(Abs(), v);
      lists := lists - {v};
    }

    /** The end of rtw_core_deinit, when no interface is left: whatever is on the build list is freed.
        Over the whole run every page made has then been freed exactly once, but for the pages leaked and
        not on the build list. */
    method Deinit()
      requires Ok(Abs()) && lists == map[]
      modifies this
      ensures buildList == [] && NoDup(freed) && made == old(made)
      ensures forall p :: p in made <==> p in freed || (p in old(leaked) && p !in old(buildList))
      ensures forall p :: p in freed <==> p in old(freed) || p in old(buildList)
    {
      freed := freed + buildList;
      buildList := [];
    }

    /**
      Adding an interface again after a firmware restart starts with INIT_LIST_HEAD on its list, without
      removing it first. Pages are leaked iff the list was not empty; still no page is freed twice and no
      freed page is on a list.
     */
    method Reinitialise(v: nat)
      requires Ok(Abs()) && v in lists
      modifies this
      ensures Ok(Abs()) && Abs() == Leak(old(Abs()), v)
      ensures leaked == old(leaked) <==> old(lists)[v] == []
    {
      LeakKeepsOk(Abs(), v);
      leaked := leaked + set p | p in lists[v];
      lists := lists[v := []];
    }
  }

  /** What a run is made of. */
  datatype Op =
    | Add(v: nat)
    | Make(v: nat, kind: Kind, allocOk: bool)
    | Remake(v: nat)
    | Remove(v: nat)
    | Reinit(v: nat)
    | RebuildOp(vifs: seq<Vif>, apActive: bool, dummyOk: bool)

  predicate Applicable(lists: map<nat, seq<Page>>, op: Op)
  {
    match op
    case Add(v) => v !in lists
    case Make(v, kind, _) => v in lists && kind != Dummy
    case Remake(v) => v in lists
    case Remove(v) => v in lists
    case Reinit(v) => v in lists
    case RebuildOp(vifs, _, _) =>
      (forall i | 0 <= i < |vifs| :: vifs[i].id in lists)
      && forall i, j | 0 <= i < j < |vifs| :: vifs[i].id != vifs[j].id
  }

  /** Ownership holds after every run of applicable operations, restarts included and however allocations
      turn out; pages once freed stay freed; and without a restart that meets a page, none is leaked. */
  method RunAll(d: Device, ops: seq<Op>) returns (clean: bool)
    requires Ok(d.Abs())
    modifies d
    ensures Ok(d.Abs()) && old(d.freed) <= d.freed
    ensures clean ==> d.leaked == old(d.leaked)
  {
    clean := true;
    for i := 0 to |ops|
      invariant Ok(d.Abs()) && old(d.freed) <= d.freed
      invariant clean ==> d.leaked == old(d.leaked)
    {
      if Applicable(d.lists, ops[i]) {
        clean := clean && (ops[i].Reinit? ==> d.lists[ops[i].v] == []);
        RunOne(d, ops[i]);
      }
    }
  }

  method RunOne(d: Device, op: Op)
    requires Ok(d.Abs()) && Applicable(d.lists, op)
    modifies d
    ensures Ok(d.Abs()) && old(d.freed) <= d.freed
    ensures d.leaked == old(d.leaked) <==> !(op.Reinit? && old(d.lists)[op.v] != [])
  {
    match op {
      case Add(v) => d.AddInterface(v);
      case Make(v, kind, allocOk) => d.AddPage(v, kind, allocOk);
      case Remake(v) =>
        DropAllEffect(d.Abs(), v);
        d.RemovePages(v);
      case Remove(v) => d.RemoveInterface(v);
      case Reinit(v) => d.Reinitialise(v);
      case RebuildOp(vifs, apActive, dummyOk) =>
        var _ := d.Rebuild(vifs, apActive, dummyOk);
    }
  }
}
