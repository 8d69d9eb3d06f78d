/**
  The reserved-page image (fw.c): templates that the firmware sends on its own, laid out page by page in
  one buffer. A first pass assigns pages, a second pass copies. The TX path later puts a descriptor in
  front of the buffer, which is why everything but page 0 is shifted down by the descriptor's size.
 */
module RsvdImage {
  import opened Quotients

  type byte = x: int | 0 <= x < 0x100

  datatype Kind = Beacon | Dummy | Other

  /** A template: its kind and the bytes of its skb (with its own descriptor, if it has one). */
  datatype Packet = Packet(kind: Kind, data: seq<byte>)

  /** Page size and descriptor size of a chip. */
  datatype Geometry = Geometry(pageSize: nat, descSize: nat)

  predicate GeometryOk(g: Geometry) { 0 < g.descSize < g.pageSize < 0x1_0000 }

  /** The number of d-sized pieces that n bytes take. */
  function CeilDiv(n: nat, d: nat): nat
    requires d > 0
  {
    if n == 0 then 0 else if n <= d then 1 else 1 + CeilDiv(n - d, d)
  }

  /** n pieces of d bytes, as a sum. */
  function Bytes(n: nat, d: nat): nat { if n == 0 then 0 else Bytes(n - 1, d) + d }

  lemma {:induction false} BytesIsProduct(n: nat, d: nat)
    ensures Bytes(n, d) == n * d
  {
    if n > 0 {
      BytesIsProduct(n - 1, d);
      assert n * d == (n - 1) * d + d;
    }
  }

  lemma {:induction false} BytesAdd(m: nat, n: nat, d: nat)
    ensures Bytes(m + n, d) == Bytes(m, d) + Bytes(n, d)
  {
    if n > 0 {
      BytesAdd(m, n - 1, d);
    }
  }

  lemma {:induction false} CeilDivBounds(n: nat, d: nat)
    requires d > 0
    ensures n <= Bytes(CeilDiv(n, d), d) < n + d
  {
    if n > d {
      CeilDivBounds(n - d, d);
    }
  }

  /** CeilDiv is what DIV_ROUND_UP computes. */
  lemma CeilDivIsRoundedUp(n: nat, d: nat)
    requires d > 0
    ensures CeilDiv(n, d) == (n + d - 1) / d
  {
    CeilDivBounds(n, d);
    var q := CeilDiv(n, d);
    BytesIsProduct(q, d);
    QuotientUnique(n + d - 1, d, q, n + d - 1 - q * d);
  }

  // ---------------------------------------------------------------- the layout, in unbounded numbers

  /** Pages taken by packet i; the TX descriptor in front of the buffer counts for the first. */
  function PageCount(g: Geometry, ps: seq<Packet>, i: nat): nat
    requires GeometryOk(g) && i < |ps|
  {
    CeilDiv(|ps[i].data| + if i == 0 then g.descSize else 0, g.pageSize)
  }

  /** The page packet i starts on; for i == |ps|, the number of pages. */
  function StartPage(g: Geometry, ps: seq<Packet>, i: nat): nat
    requires GeometryOk(g) && i <= |ps|
  {
    if i == 0 then 0 else StartPage(g, ps, i - 1) + PageCount(g, ps, i - 1)
  }

  function TotalPages(g: Geometry, ps: seq<Packet>): nat
    requires GeometryOk(g)
  {
    StartPage(g, ps, |ps|)
  }

  /** How many pages a packet takes, in bytes: only the first one's are counted with the descriptor. */
  lemma PagesByLength(g: Geometry, ps: seq<Packet>, i: nat)
    requires GeometryOk(g) && i < |ps|
    ensures StartPage(g, ps, 0) == 0
    ensures StartPage(g, ps, i + 1) - StartPage(g, ps, i)
         == (|ps[i].data| + (if i == 0 then g.descSize else 0) + g.pageSize - 1) / g.pageSize
  {
    CeilDivIsRoundedUp(|ps[i].data| + if i == 0 then g.descSize else 0, g.pageSize);
  }

  /** Where the second pass copies a packet on page p to. */
  function CopyOffset(g: Geometry, p: nat): (o: nat)
    requires GeometryOk(g)
  {
    if p >= 1 then (g.pageSize - g.descSize) + Bytes(p - 1, g.pageSize) else 0
  }

  function BufferSize(g: Geometry, total: nat): nat
    requires GeometryOk(g) && total >= 1
  {
    Bytes(total - 1, g.pageSize) + (g.pageSize - g.descSize)
  }

  lemma OffsetIsShifted(g: Geometry, p: nat)
    requires GeometryOk(g) && p >= 1
    ensures CopyOffset(g, p) + g.descSize == Bytes(p, g.pageSize)
    ensures BufferSize(g, p) == CopyOffset(g, p)
  {
  }

  lemma OffsetMonotone(g: Geometry, p: nat, q: nat)
    requires GeometryOk(g) && p <= q
    ensures CopyOffset(g, p) <= CopyOffset(g, q)
  {
    if 1 <= p {
      BytesAdd(p - 1, q - p, g.pageSize);
    }
  }

  lemma {:induction false} StartPageMonotone(g: Geometry, ps: seq<Packet>, i: nat, j: nat)
    requires GeometryOk(g) && i <= j <= |ps|
    ensures StartPage(g, ps, i) <= StartPage(g, ps, j)
    decreases j
  {
    if i < j {
      StartPageMonotone(g, ps, i, j - 1);
    }
  }

  lemma LaterPacketsStartLater(g: Geometry, ps: seq<Packet>, i: nat)
    requires GeometryOk(g) && 1 <= i <= |ps|
    ensures StartPage(g, ps, i) >= 1
  {
    CeilDivBounds(|ps[0].data| + g.descSize, g.pageSize);
    assert StartPage(g, ps, 1) == StartPage(g, ps, 0) + PageCount(g, ps, 0) == PageCount(g, ps, 0);
    StartPageMonotone(g, ps, 1, i);
  }

  /** Packet i ends before the place of packet i + 1, or before the buffer's end. */
  lemma EndsBeforeNext(g: Geometry, ps: seq<Packet>, i: nat)
    requires GeometryOk(g) && i < |ps|
    ensures CopyOffset(g, StartPage(g, ps, i)) + |ps[i].data| <= CopyOffset(g, StartPage(g, ps, i + 1))
  {
    var p, n := StartPage(g, ps, i), PageCount(g, ps, i);
    assert StartPage(g, ps, i + 1) == p + n;
    BytesAdd(p, n, g.pageSize);
    LaterPacketsStartLater(g, ps, i + 1);
    OffsetIsShifted(g, p + n);
    CeilDivBounds(|ps[i].data| + if i == 0 then g.descSize else 0, g.pageSize);
    if i > 0 {
      LaterPacketsStartLater(g, ps, i);
      OffsetIsShifted(g, p);
    }
  }

  /** The copied ranges are pairwise disjoint, in order, and inside the buffer. */
  lemma {:induction false} CopiesDisjoint(g: Geometry, ps: seq<Packet>, i: nat, j: nat)
    requires GeometryOk(g) && i < j < |ps|
    ensures CopyOffset(g, StartPage(g, ps, i)) + |ps[i].data| <= CopyOffset(g, StartPage(g, ps, j))
  {
    var (p, q) := (StartPage(g, ps, i + 1), StartPage(g, ps, j));
    assert p <= q by { StartPageMonotone(g, ps, i + 1, j); }
    assert CopyOffset(g, p) <= CopyOffset(g, q) by { OffsetMonotone(g, p, q); }
    assert CopyOffset(g, StartPage(g, ps, i)) + |ps[i].data| <= CopyOffset(g, p) by { EndsBeforeNext(g, ps, i); }
  }

  lemma CopyInsideBuffer(g: Geometry, ps: seq<Packet>, i: nat)
    requires GeometryOk(g) && i < |ps|
    ensures TotalPages(g, ps) >= 1
    ensures CopyOffset(g, StartPage(g, ps, i)) + |ps[i].data| <= BufferSize(g, TotalPages(g, ps))
  {
    EndsBeforeNext(g, ps, i);
    StartPageMonotone(g, ps, i + 1, |ps|);
    LaterPacketsStartLater(g, ps, |ps|);
    OffsetMonotone(g, StartPage(g, ps, i + 1), TotalPages(g, ps));
    OffsetIsShifted(g, TotalPages(g, ps));
  }

  // ---------------------------------------------------------------- the driver's byte-sized counters

  /** rtw_len_to_page returns a byte. */
  function LenToPage(len: nat, pageSize: nat): nat
    requires pageSize > 0
  {
    CeilDiv(len, pageSize) % 0x100
  }

  /** Pages below which all byte counters are exact. */
  predicate FitsByte(g: Geometry, ps: seq<Packet>)
    requires GeometryOk(g)
  {
    TotalPages(g, ps) <= 0xff
  }

  lemma {:induction false} PageCountIsByte(g: Geometry, ps: seq<Packet>, i: nat)
    requires GeometryOk(g) && FitsByte(g, ps) && i < |ps|
    ensures StartPage(g, ps, i) + PageCount(g, ps, i) <= 0xff
    ensures LenToPage(|ps[i].data| + if i == 0 then g.descSize else 0, g.pageSize) == PageCount(g, ps, i)
  {
    assert StartPage(g, ps, i + 1) == StartPage(g, ps, i) + PageCount(g, ps, i);
    StartPageMonotone(g, ps, i + 1, |ps|);
  }

  /** One packet more on a byte counter; at 0 the TX descriptor counts too. */
  function NextTotal(g: Geometry, total: nat, p: Packet): nat
    requires GeometryOk(g)
  {
    (total + LenToPage(|p.data| + if total == 0 then g.descSize else 0, g.pageSize)) % 0x100
  }

  /** The byte counter in bytes: rounded up, and cut to a byte after adding. */
  lemma NextByLength(g: Geometry, total: nat, p: Packet)
    requires GeometryOk(g)
    ensures NextTotal(g, total, p)
         == (total + (|p.data| + (if total == 0 then g.descSize else 0) + g.pageSize - 1) / g.pageSize) % 256
  {
    CeilDivIsRoundedUp(|p.data| + if total == 0 then g.descSize else 0, g.pageSize);
  }

  /** `total_page` after i packets. */
  function Total8(g: Geometry, ps: seq<Packet>, i: nat): nat
    requires GeometryOk(g) && i <= |ps|
  {
    if i == 0 then 0
    else NextTotal(g, Total8(g, ps, i - 1), ps[i - 1])
  }

  lemma ZeroIffFirst(g: Geometry, ps: seq<Packet>, i: nat)
    requires GeometryOk(g) && i <= |ps|
    ensures StartPage(g, ps, i) == 0 <==> i == 0
  {
    if i > 0 {
      LaterPacketsStartLater(g, ps, i);
    }
  }

  lemma NextIsExact(g: Geometry, ps: seq<Packet>, i: nat)
    requires GeometryOk(g) && FitsByte(g, ps) && i < |ps|
    ensures NextTotal(g, StartPage(g, ps, i), ps[i]) == StartPage(g, ps, i + 1)
  {
    ZeroIffFirst(g, ps, i);
    PageCountIsByte(g, ps, i);
  }

  lemma {:induction false} Total8Exact(g: Geometry, ps: seq<Packet>, i: nat)
    requires GeometryOk(g) && FitsByte(g, ps) && i <= |ps|
    ensures Total8(g, ps, i) == StartPage(g, ps, i)
  {
    if i > 0 {
      Total8Exact(g, ps, i - 1);
      NextIsExact(g, ps, i - 1);
    }
  }

  /** The byte counter is exact for a list iff the list takes at most 255 pages. */
  lemma CounterExactIff(g: Geometry, ps: seq<Packet>)
    requires GeometryOk(g)
    ensures Total8(g, ps, |ps|) == TotalPages(g, ps) <==> FitsByte(g, ps)
  {
    if FitsByte(g, ps) {
      Total8Exact(g, ps, |ps|);
    } else {
      assert Total8(g, ps, |ps|) <= 0xff;
    }
  }

  /** A list of 257 one-page packets passes the size check of any driver region as a single page. The lists
      that interfaces make are far shorter. */
  lemma {:induction false} WrappedListPasses(g: Geometry, ps: seq<Packet>, i: nat)
    requires GeometryOk(g) && 1 <= i <= |ps| && i <= 257 && i != 256
    requires forall k | 0 <= k < |ps| :: 0 < |ps[k].data| <= g.pageSize - g.descSize
    ensures Total8(g, ps, i) == if i == 257 then 1 else i
  {
    assert forall len | 0 < len <= g.pageSize :: LenToPage(len, g.pageSize) == 1;
    if i == 257 {
      WrappedListPasses(g, ps, 255);
      assert Total8(g, ps, 256) == 0;
    } else if i > 1 {
      WrappedListPasses(g, ps, i - 1);
    }
  }

  // ---------------------------------------------------------------- the two passes

  /** `Overrun`: some packet was copied past the end of the buffer. */
  datatype Result = NoImage | Image(pages: seq<nat>) | Overrun

  /** Packet i of the list is where the recorded pages say. */
  ghost predicate Holds(buf: seq<byte>, g: Geometry, ps: seq<Packet>, i: nat)
    requires GeometryOk(g) && i < |ps|
  {
    var o := CopyOffset(g, StartPage(g, ps, i));
    o + |ps[i].data| <= |buf| && buf[o..o + |ps[i].data|] == ps[i].data
  }

  /** Position k belongs to one of the first n packets. */
  ghost predicate Covered(g: Geometry, ps: seq<Packet>, n: nat, k: nat)
    requires GeometryOk(g) && n <= |ps|
  {
    exists i: nat :: i < n && Within(g, ps, i, k)
  }

  predicate Within(g: Geometry, ps: seq<Packet>, i: nat, k: nat)
    requires GeometryOk(g) && i < |ps|
  {
    CopyOffset(g, StartPage(g, ps, i)) <= k < CopyOffset(g, StartPage(g, ps, i)) + |ps[i].data|
  }

  /** The counter before each of the first n packets and after them. */
  function Counters(g: Geometry, ps: seq<Packet>, n: nat): (cs: seq<nat>)
    requires GeometryOk(g) && n <= |ps|
    ensures |cs| == n + 1
  {
    if n == 0 then [0] else Counters(g, ps, n - 1) + [Total8(g, ps, n)]
  }

  lemma {:induction false} CountersAt(g: Geometry, ps: seq<Packet>, n: nat, i: nat)
    requires GeometryOk(g) && i <= n <= |ps|
    ensures Counters(g, ps, n)[i] == Total8(g, ps, i)
  {
    if i < n {
      CountersAt(g, ps, n - 1, i);
    }
  }

  /** The first pass of rtw_build_rsvd_page: record the page of every packet. A packet at counter 0 has to
      be a beacon or a dummy. */
  method AssignPages(g: Geometry, ps: seq<Packet>) returns (ok: bool, total: nat, pages: seq<nat>)
    requires GeometryOk(g)
    ensures var cs := Counters(g, ps, |ps|);
            && (ok <==> forall i | 0 <= i < |ps| && cs[i] == 0 :: ps[i].kind != Other)
            && (ok ==> pages + [total] == cs)
  {
    ghost var cs := Counters(g, ps, |ps|);
    total, pages := 0, [];
    CountersAt(g, ps, |ps|, 0);
    for i := 0 to |ps|
      invariant pages + [total] == cs[..i + 1]
      invariant forall j | 0 <= j < i && cs[j] == 0 :: ps[j].kind != Other
    {
      assert total == (pages + [total])[i] == cs[i];
      if total == 0 && ps[i].kind != Beacon && ps[i].kind != Dummy {
        return false, total, pages;
      }
      pages := pages + [total];
      total := CountPages(g, ps, i, total);
      assert pages + [total] == cs[..i + 1] + [cs[i + 1]] == cs[..i + 2];
    }
    assert cs[..|ps| + 1] == cs;
    return true, total, pages;
  }

  method CountPages(g: Geometry, ps: seq<Packet>, i: nat, total: nat) returns (next: nat)
    requires GeometryOk(g) && i < |ps| && total == Counters(g, ps, |ps|)[i]
    ensures next == Counters(g, ps, |ps|)[i + 1]
  {
    CountersAt(g, ps, |ps|, i);
    CountersAt(g, ps, |ps|, i + 1);
    if total == 0 {
      next := (total + LenToPage(|ps[i].data| + g.descSize, g.pageSize)) % 0x100;
    } else {
      next := (total + LenToPage(|ps[i].data|, g.pageSize)) % 0x100;
    }
  }

  /** The first n packets are in place and all other bytes are zero. */
  ghost predicate Copied(buf: seq<byte>, g: Geometry, ps: seq<Packet>, n: nat)
    requires GeometryOk(g) && n <= |ps|
  {
    && (forall i: nat | i < n :: Holds(buf, g, ps, i))
    && (forall k: nat | k < |buf| && !Covered(g, ps, n, k) :: buf[k] == 0)
  }

  lemma CopyStep(g: Geometry, ps: seq<Packet>, i: nat, before: seq<byte>, after: seq<byte>)
    requires GeometryOk(g) && i < |ps| && Copied(before, g, ps, i) && |after| == |before|
    requires CopyOffset(g, StartPage(g, ps, i)) + |ps[i].data| <= |before|
    requires forall k: nat | k < |before| ::
               after[k] == if Within(g, ps, i, k) then ps[i].data[k - CopyOffset(g, StartPage(g, ps, i))] else before[k]
    ensures Copied(after, g, ps, i + 1)
  {
    assert Holds(after, g, ps, i);
    forall j: nat | j < i ensures Holds(after, g, ps, j) {
      CopiesDisjoint(g, ps, j, i);
      assert Holds(before, g, ps, j);
      var o := CopyOffset(g, StartPage(g, ps, j));
      assert after[o..o + |ps[j].data|] == before[o..o + |ps[j].data|];
    }
    forall k: nat | k < |after| && !Covered(g, ps, i + 1, k) ensures after[k] == 0 {
      assert !Within(g, ps, i, k);
      assert !Covered(g, ps, i, k);
    }
  }

  // ---------------------------------------------------------------- the second pass

  /** `page` of the copying pass before packet i: a 32-bit counter that byte-sized page counts are added to. */
  function CopyPage(g: Geometry, ps: seq<Packet>, i: nat): nat
    requires GeometryOk(g) && i <= |ps|
  {
    if i == 0 then 0
    else
      var p := CopyPage(g, ps, i - 1);
      p + LenToPage(|ps[i - 1].data| + if p == 0 then g.descSize else 0, g.pageSize)
  }

  /** Packet i is copied inside a buffer of `size` bytes. */
  predicate Inside(g: Geometry, ps: seq<Packet>, i: nat, size: nat)
    requires GeometryOk(g) && i < |ps|
  {
    CopyOffset(g, CopyPage(g, ps, i)) + |ps[i].data| <= size
  }

  /** No packet takes more than 255 pages. */
  predicate AllNarrow(g: Geometry, ps: seq<Packet>)
    requires GeometryOk(g)
  {
    forall i: nat | i < |ps| :: PageCount(g, ps, i) <= 0xff
  }

  lemma {:induction false} NarrowPagesExact(g: Geometry, ps: seq<Packet>, i: nat)
    requires GeometryOk(g) && AllNarrow(g, ps) && i <= |ps|
    ensures CopyPage(g, ps, i) == StartPage(g, ps, i)
  {
    if i > 0 {
      NarrowPagesExact(g, ps, i - 1);
      ZeroIffFirst(g, ps, i - 1);
      assert PageCount(g, ps, i - 1) <= 0xff;
    }
  }

  lemma FittingIsNarrow(g: Geometry, ps: seq<Packet>)
    requires GeometryOk(g) && FitsByte(g, ps)
    ensures AllNarrow(g, ps)
  {
    forall i: nat | i < |ps| ensures PageCount(g, ps, i) <= 0xff {
      PageCountIsByte(g, ps, i);
    }
  }

  /** A packet of more than 255 pages does not fit any buffer. */
  lemma WideOverruns(g: Geometry, ps: seq<Packet>, i: nat, total: nat)
    requires GeometryOk(g) && i < |ps| && PageCount(g, ps, i) > 0xff && 1 <= total <= 0xff
    ensures !Inside(g, ps, i, BufferSize(g, total))
  {
    var len := |ps[i].data| + if i == 0 then g.descSize else 0;
    var c := CeilDiv(len, g.pageSize);
    CeilDivBounds(len, g.pageSize);
    BytesAdd(total, c - 1 - total, g.pageSize);
    OffsetIsShifted(g, total);
  }

  /** Some packet ends in the last of the first k packets' pages. */
  lemma {:induction false} LastUsed(g: Geometry, ps: seq<Packet>, k: nat) returns (n: nat)
    requires GeometryOk(g) && 1 <= k <= |ps|
    ensures n < k && PageCount(g, ps, n) > 0 && StartPage(g, ps, k) == StartPage(g, ps, n) + PageCount(g, ps, n)
  {
    n := k - 1;
    if PageCount(g, ps, n) == 0 {
      ZeroIffFirst(g, ps, k);
      n := LastUsed(g, ps, k - 1);
    }
  }

  /** It reaches into the last page. */
  lemma ReachesLastPage(g: Geometry, ps: seq<Packet>, n: nat)
    requires GeometryOk(g) && n < |ps| && PageCount(g, ps, n) > 0 && (n > 0 || |ps[n].data| > 0)
    ensures CopyOffset(g, StartPage(g, ps, n)) + |ps[n].data| + g.descSize
          > Bytes(StartPage(g, ps, n) + PageCount(g, ps, n) - 1, g.pageSize)
  {
    var p, c := StartPage(g, ps, n), PageCount(g, ps, n);
    CeilDivBounds(|ps[n].data| + if n == 0 then g.descSize else 0, g.pageSize);
    BytesAdd(p, c - 1, g.pageSize);
    if n > 0 {
      LaterPacketsStartLater(g, ps, n);
      OffsetIsShifted(g, p);
    }
  }

  /** More than 255 pages: whatever single packets take, one of them is copied past the buffer. */
  lemma TooManyOverrun(g: Geometry, ps: seq<Packet>, total: nat) returns (n: nat)
    requires GeometryOk(g) && |ps| >= 1 && !FitsByte(g, ps) && 1 <= total <= 0xff
    ensures n < |ps| && !Inside(g, ps, n, BufferSize(g, total))
  {
    if !AllNarrow(g, ps) {
      n :| n < |ps| && PageCount(g, ps, n) > 0xff;
      WideOverruns(g, ps, n, total);
    } else {
      n := LastUsed(g, ps, |ps|);
      NarrowPagesExact(g, ps, n);
      ReachesLastPage(g, ps, n);
      OffsetIsShifted(g, total);
      BytesAdd(total, TotalPages(g, ps) - 1 - total, g.pageSize);
    }
  }

  /** The buffer is sized by the byte counter: all packets are copied inside it if and only if the list takes
      at most 255 pages. */
  lemma CopiesInsideIff(g: Geometry, ps: seq<Packet>)
    requires GeometryOk(g) && |ps| >= 1 && Total8(g, ps, |ps|) >= 1
    ensures (forall i: nat | i < |ps| :: Inside(g, ps, i, BufferSize(g, Total8(g, ps, |ps|)))) <==> FitsByte(g, ps)
  {
    if FitsByte(g, ps) {
      Total8Exact(g, ps, |ps|);
      FittingIsNarrow(g, ps);
      forall i: nat | i < |ps| ensures Inside(g, ps, i, BufferSize(g, TotalPages(g, ps))) {
        NarrowPagesExact(g, ps, i);
        CopyInsideBuffer(g, ps, i);
      }
    } else {
      assert Total8(g, ps, |ps|) <= 0xff;
      var n := TooManyOverrun(g, ps, Total8(g, ps, |ps|));
    }
  }

  /** What the driver asks an allocation for, in 32 bits: at counter 0 nearly 4 GiB. */
  function AllocSize(g: Geometry, total: nat): nat
    requires GeometryOk(g)
  {
    if total == 0 then 0x1_0000_0000 - g.descSize else BufferSize(g, total)
  }

  /** It is one expression in 32 bits: a page less than counted, and a page without its descriptor. */
  lemma AllocSizeIn32Bits(g: Geometry, total: nat)
    requires GeometryOk(g) && total < 0x100
    ensures AllocSize(g, total) == ((total - 1) * g.pageSize + (g.pageSize - g.descSize)) % 0x1_0000_0000
  {
    if total > 0 {
      BytesIsProduct(total - 1, g.pageSize);
      BytesAdd(total - 1, 0xff - total + 1, g.pageSize);
      BytesIsProduct(0xff, g.pageSize);
    }
  }

  /** The counter of a list ends at 0 only when it has wrapped. */
  lemma ZeroIsWrapped(g: Geometry, ps: seq<Packet>)
    requires GeometryOk(g) && |ps| >= 1 && Total8(g, ps, |ps|) == 0
    ensures !FitsByte(g, ps)
  {
    if FitsByte(g, ps) {
      Total8Exact(g, ps, |ps|);
      ZeroIffFirst(g, ps, |ps|);
    }
  }

  /** The second pass: copy every packet to its page of a zeroed buffer. All copies are inside if and only if
      the list takes at most 255 pages, and then every packet is in place. */
  method CopyPackets(g: Geometry, ps: seq<Packet>, buf: array<byte>) returns (inside: bool)
    requires GeometryOk(g) && |ps| >= 1 && Total8(g, ps, |ps|) >= 1
    requires buf.Length == BufferSize(g, Total8(g, ps, |ps|))
    requires forall k | 0 <= k < buf.Length :: buf[k] == 0
    modifies buf
    ensures inside <==> FitsByte(g, ps)
    ensures inside ==> Copied(buf[..], g, ps, |ps|)
  {
    CopiesInsideIff(g, ps);
    var page := 0;
    for i := 0 to |ps|
      invariant page == CopyPage(g, ps, i)
      invariant forall j: nat | j < i :: Inside(g, ps, j, buf.Length)
      invariant FitsByte(g, ps) ==> Copied(buf[..], g, ps, i)
    {
      if CopyOffset(g, page) + |ps[i].data| > buf.Length {
        assert !Inside(g, ps, i, buf.Length);
        return false;
      }
      assert Inside(g, ps, i, buf.Length);
      CopyOne(g, ps, i, page, buf);
      if page == 0 {
        page := page + LenToPage(|ps[i].data| + g.descSize, g.pageSize);
      } else {
        page := page + LenToPage(|ps[i].data|, g.pageSize);
      }
    }
    return true;
  }

  /** rtw_rsvd_page_list_to_buf. */
  method CopyOne(g: Geometry, ps: seq<Packet>, i: nat, page: nat, buf: array<byte>)
    requires GeometryOk(g) && i < |ps| && page == CopyPage(g, ps, i)
    requires CopyOffset(g, page) + |ps[i].data| <= buf.Length
    modifies buf
    ensures FitsByte(g, ps) && old(Copied(buf[..], g, ps, i)) ==> Copied(buf[..], g, ps, i + 1)
  {
    ghost var before := buf[..];
    var data := ps[i].data;
    var offset := CopyOffset(g, page);
    forall k | 0 <= k < |data| {
      buf[offset + k] := data[k];
    }
    if FitsByte(g, ps) && Copied(before, g, ps, i) {
      FittingIsNarrow(g, ps);
      NarrowPagesExact(g, ps, i);
      CopyStep(g, ps, i, before, buf[..]);
    }
  }

  /** All packets met at counter 0 are beacons or dummies. */
  predicate HeadsOk(g: Geometry, ps: seq<Packet>)
    requires GeometryOk(g)
  {
    forall i: nat | i < |ps| && Total8(g, ps, i) == 0 :: ps[i].kind != Other
  }

  lemma HeadOnly(g: Geometry, ps: seq<Packet>)
    requires GeometryOk(g) && FitsByte(g, ps) && |ps| >= 1
    ensures HeadsOk(g, ps) <==> ps[0].kind != Other
  {
    forall i: nat | i < |ps| ensures Total8(g, ps, i) == 0 <==> i == 0 {
      Total8Exact(g, ps, i);
      ZeroIffFirst(g, ps, i);
    }
  }

  /** rtw_build_rsvd_page, from the gathered packet list on. An allocation of nearly 4 GiB fails. */
  method Build(g: Geometry, ps: seq<Packet>, drvPages: nat) returns (r: Result, buf: array?<byte>)
    requires GeometryOk(g) && |ps| >= 1
    ensures r.NoImage? <==> !HeadsOk(g, ps) || !(1 <= Total8(g, ps, |ps|) <= drvPages)
    ensures r.Overrun? ==> !FitsByte(g, ps)
    ensures r.Image? ==>
              && FitsByte(g, ps) && ps[0].kind != Other && TotalPages(g, ps) <= drvPages
              && buf != null && fresh(buf) && TotalPages(g, ps) >= 1
              && buf.Length == BufferSize(g, TotalPages(g, ps)) && |r.pages| == |ps|
              && (forall i: nat | i < |ps| :: r.pages[i] == StartPage(g, ps, i)) && Copied(buf[..], g, ps, |ps|)
  {
    ghost var cs := Counters(g, ps, |ps|);
    forall i: nat | i <= |ps| ensures cs[i] == Total8(g, ps, i) {
      CountersAt(g, ps, |ps|, i);
    }
    var ok, total, pages := AssignPages(g, ps);
    assert ok <==> HeadsOk(g, ps);
    if !ok {
      return NoImage, null;
    }
    assert total == (pages + [total])[|ps|] == cs[|ps|] && pages == (pages + [total])[..|ps|];
    if total > drvPages || total == 0 {
      return NoImage, null;
    }
    var b := new byte[AllocSize(g, total)](_ => 0);
    var inside := CopyPackets(g, ps, b);
    if !inside {
      return Overrun, null;
    }
    HeadOnly(g, ps);
    forall i: nat | i <= |ps| ensures cs[i] == StartPage(g, ps, i) {
      Total8Exact(g, ps, i);
    }
    return Image(pages), b;
  }

  /** What the TX path sends: its descriptor, then the buffer. */
  function Sent(desc: seq<byte>, buf: seq<byte>): seq<byte> { desc + buf }

  /** Every packet but the first starts exactly at the byte of its recorded page; the first, right behind
      the descriptor that the TX path made for it. */
  lemma PacketsArePageAligned(g: Geometry, ps: seq<Packet>, desc: seq<byte>, buf: seq<byte>, i: nat)
    requires GeometryOk(g) && |desc| == g.descSize && i < |ps| && Holds(buf, g, ps, i)
    ensures var at := if i == 0 then g.descSize else StartPage(g, ps, i) * g.pageSize;
            at + |ps[i].data| <= |Sent(desc, buf)| && Sent(desc, buf)[at..at + |ps[i].data|] == ps[i].data
  {
    var p := StartPage(g, ps, i);
    if i > 0 {
      LaterPacketsStartLater(g, ps, i);
      OffsetIsShifted(g, p);
      BytesIsProduct(p, g.pageSize);
    }
    var o := CopyOffset(g, p);
    var at := o + g.descSize;
    assert Sent(desc, buf)[at..at + |ps[i].data|] == buf[o..o + |ps[i].data|];
  }

  // ---------------------------------------------------------------- downloading the image

  function Pow2(k: nat): nat { if k == 0 then 1 else 2 * Pow2(k - 1) }

  /** Bitwise and. */
  function And(a: nat, b: nat): nat
    decreases b
  {
    if b == 0 then 0 else (if a % 2 == 1 && b % 2 == 1 then 1 else 0) + 2 * And(a / 2, b / 2)
  }

  lemma {:induction false} AndMask(a: nat, k: nat)
    ensures Pow2(k) >= 1 && And(a, Pow2(k) - 1) == a % Pow2(k)
  {
    if k > 0 {
      var h := Pow2(k - 1);
      AndMask(a / 2, k - 1);
      ModTwice(a, h);
      AndOdd(a, h - 1);
    }
  }

  lemma AndOdd(a: nat, m: nat)
    ensures And(a, 2 * m + 1) == a % 2 + 2 * And(a / 2, m)
  {
    assert (2 * m + 1) / 2 == m && (2 * m + 1) % 2 == 1;
  }

  lemma ModTwice(a: nat, h: nat)
    requires h >= 1
    ensures a % (2 * h) == a % 2 + 2 * (a / 2 % h)
  {
    var q, r := a / 2 / h, a / 2 % h;
    assert a / 2 == q * h + r;
    assert a == q * (2 * h) + (a % 2 + 2 * r);
    QuotientUnique(a, 2 * h, q, a % 2 + 2 * r);
  }

  /** The page count that rtw_download_drv_rsvd_page computes from a size in bytes. */
  function DownloadPages(size: nat, pageSize: nat): nat
    requires pageSize > 0
  {
    size / pageSize + if And(size, pageSize - 1) != 0 then 1 else 0
  }

  /** Shift and mask round up, for every size. */
  lemma DownloadRoundsUp(size: nat, k: nat)
    ensures Pow2(k) >= 1 && DownloadPages(size, Pow2(k)) == (size + Pow2(k) - 1) / Pow2(k)
  {
    AndMask(size, k);
    RoundedUpQuotient(size, Pow2(k));
  }

  /** An image that passed the check while being built passes the check while being downloaded: both
      count the same pages. */
  lemma DownloadCountsTheSame(g: Geometry, k: nat, total: nat)
    requires GeometryOk(g) && g.pageSize == Pow2(k) && total >= 1
    ensures DownloadPages(BufferSize(g, total), g.pageSize) == total
  {
    var margin := g.pageSize - g.descSize;
    BytesIsProduct(total - 1, g.pageSize);
    QuotientUnique(BufferSize(g, total), g.pageSize, total - 1, margin);
    AndMask(BufferSize(g, total), k);
  }
}
