/**
  The layout of the transmit FIFO's reserved pages (mac.c), computed downwards from the end in 16-bit
  numbers: on chips with the 3081 core CSI buffer, firmware tx buffer, CPU instructions, H2C queue,
  static and extra H2C info, and on all chips the driver's region.
 */
module FifoLayout {
  import RsvdImage

  const H2C_EXTRAINFO := 24
  const H2C_STATICINFO := 8
  const H2CQ := 8
  const CPU_INSTRUCTION := 0
  const FW_TXBUF := 4

  /** Chip constants; `wcpu3081` is false for the 8051 core. */
  datatype Chip = Chip(wcpu3081: bool, txffSize: nat, pageSize: nat, rsvdDrvPages: nat, csiBufPages: nat)

  predicate ChipOk(c: Chip)
  {
    c.pageSize > 0 && c.txffSize / c.pageSize < 0x1_0000 && c.rsvdDrvPages < 0x1_0000 && c.csiBufPages < 0x100
  }

  /** The first page of each region, from the start of the FIFO. */
  datatype Layout = NoMemory | WrongAddress | Layout(boundary: nat, drvAddr: nat, drvPages: nat, h2cInfo: nat,
                                                     h2cSta: nat, h2cq: nat, cpuInstr: nat, fwTxbuf: nat, csiBuf: nat,
                                                     total: nat)

  function U16(x: int): nat { x % 0x1_0000 }

  lemma U16Chain(x: int, n: nat)
    ensures U16(U16(x) - n) == U16(x - n) && U16(x - U16(n)) == U16(x - n)
  {
    var q, p := x / 0x1_0000, n / 0x1_0000;
    assert x == q * 0x1_0000 + U16(x) && n == p * 0x1_0000 + U16(n);
    Shifted(U16(x) - n, q);
    Shifted(x - n, p);
  }

  lemma Shifted(x: int, q: int)
    ensures U16(x + q * 0x1_0000) == U16(x)
  {
  }

  function TxffPages(c: Chip): nat
    requires ChipOk(c)
    ensures TxffPages(c) < 0x1_0000
  {
    c.txffSize / c.pageSize
  }

  function ReservedPages(c: Chip): nat
  {
    if !c.wcpu3081 then c.rsvdDrvPages
    else U16(c.rsvdDrvPages + H2C_EXTRAINFO + H2C_STATICINFO + H2CQ + CPU_INSTRUCTION + FW_TXBUF + c.csiBufPages)
  }

  /** The sum of all reserved regions, not cut to 16 bits. */
  function ReservedSum(c: Chip): nat
  {
    if !c.wcpu3081 then c.rsvdDrvPages
    else c.rsvdDrvPages + H2C_EXTRAINFO + H2C_STATICINFO + H2CQ + CPU_INSTRUCTION + FW_TXBUF + c.csiBufPages
  }

  /** The page n pages before the end, in 16 bits. */
  function FromEnd(c: Chip, n: nat): nat
    requires ChipOk(c)
  {
    U16(TxffPages(c) - n)
  }

  /** Every region where the sum of the regions from it to the end puts it. */
  function Stacked(c: Chip): Layout
    requires ChipOk(c)
  {
    var sum := ReservedSum(c);
    if !c.wcpu3081 then Layout(FromEnd(c, sum), FromEnd(c, sum), c.rsvdDrvPages, 0, 0, 0, 0, 0, 0, TxffPages(c))
    else
      var csi := c.csiBufPages;
      var tx := csi + FW_TXBUF;
      var cpu := tx + CPU_INSTRUCTION;
      var h2cq := cpu + H2CQ;
      var sta := h2cq + H2C_STATICINFO;
      var extra := sta + H2C_EXTRAINFO;
      Layout(FromEnd(c, sum), FromEnd(c, sum), c.rsvdDrvPages, FromEnd(c, extra), FromEnd(c, sta),
             FromEnd(c, h2cq), FromEnd(c, cpu), FromEnd(c, tx), FromEnd(c, csi), TxffPages(c))
  }

  /** The regions tile the reserved pages, from the boundary to the end, without gap or overlap. */
  predicate Tiled(c: Chip, l: Layout)
  {
    && l.Layout? && l.boundary == l.drvAddr && l.drvPages == c.rsvdDrvPages
    && (c.wcpu3081 ==>
          && l.drvAddr + l.drvPages == l.h2cInfo && l.h2cInfo + H2C_EXTRAINFO == l.h2cSta
          && l.h2cSta + H2C_STATICINFO == l.h2cq && l.h2cq + H2CQ == l.cpuInstr
          && l.cpuInstr + CPU_INSTRUCTION == l.fwTxbuf && l.fwTxbuf + FW_TXBUF == l.csiBuf
          && l.csiBuf + c.csiBufPages == l.total)
    && (!c.wcpu3081 ==> l.drvAddr + l.drvPages == l.total)
  }

  lemma FromEndExact(c: Chip, n: nat)
    requires ChipOk(c) && n <= TxffPages(c)
    ensures FromEnd(c, n) == TxffPages(c) - n
  {
  }

  lemma ExactSumTiles(c: Chip)
    requires ChipOk(c) && ReservedSum(c) <= TxffPages(c)
    ensures Tiled(c, Stacked(c))
  {
    var csi := c.csiBufPages;
    FromEndExact(c, ReservedSum(c));
    if c.wcpu3081 {
      FromEndExact(c, csi);
      FromEndExact(c, csi + 4);
      FromEndExact(c, csi + 12);
      FromEndExact(c, csi + 20);
      FromEndExact(c, csi + 44);
    }
  }

  lemma TiledOnlyIfExact(c: Chip)
    requires ChipOk(c) && Tiled(c, Stacked(c))
    ensures ReservedSum(c) < 0x1_0000
  {
    var l := Stacked(c);
    assert ReservedSum(c) == l.total - l.drvAddr;
  }

  lemma ExactSumFits(c: Chip)
    requires ChipOk(c) && ReservedPages(c) <= TxffPages(c) && ReservedSum(c) < 0x1_0000
    ensures ReservedSum(c) <= TxffPages(c)
  {
  }

  /** An accepted layout tiles the reserved pages if and only if the 16-bit sum of the regions is exact. */
  lemma TiledIff(c: Chip)
    requires ChipOk(c) && ReservedPages(c) <= TxffPages(c)
    ensures Tiled(c, Stacked(c)) <==> ReservedSum(c) < 0x1_0000
  {
    if ReservedSum(c) < 0x1_0000 {
      ExactSumFits(c);
      ExactSumTiles(c);
    } else if Tiled(c, Stacked(c)) {
      TiledOnlyIfExact(c);
    }
  }

  /** Where the regions of a tiled layout begin, in pages before the end. */
  lemma AddressesByNumber(c: Chip)
    requires ChipOk(c) && Tiled(c, Stacked(c)) && c.wcpu3081
    ensures var (l, t, csi) := (Stacked(c), c.txffSize / c.pageSize, c.csiBufPages);
            && l.total == t && l.csiBuf == t - csi && l.fwTxbuf == t - csi - 4 && l.cpuInstr == t - csi - 4
            && l.h2cq == t - csi - 12 && l.h2cSta == t - csi - 20 && l.h2cInfo == t - csi - 44
            && l.drvAddr == l.boundary == t - csi - 44 - c.rsvdDrvPages
  {
  }

  /** A chip whose regions sum to 65579 pages, 43 in 16 bits: accepted with 2048 pages, and not tiled. */
  lemma OverflowIsAccepted(c: Chip)
    requires c == Chip(true, 0x4_0000, 128, 0xffff, 0)
    ensures ChipOk(c) && ReservedPages(c) == 43 <= TxffPages(c) == 2048 && !Tiled(c, Stacked(c))
  {
    TiledIff(c);
  }

  /** One step down: `cur` after `taken` of `total` pages. */
  method Carve(c: Chip, cur: nat, ghost taken: nat, pages: nat) returns (next: nat)
    requires ChipOk(c) && cur == FromEnd(c, taken)
    ensures next == FromEnd(c, taken + pages)
  {
    U16Chain(TxffPages(c) - taken, pages);
    next := U16(cur - pages);
  }

  /** rtw_set_trx_fifo_info. The region addresses of the 8051 core are unset; they read 0 here. */
  method SetTrxFifoInfo(c: Chip) returns (l: Layout)
    requires ChipOk(c)
    ensures l == if U16(ReservedSum(c)) > TxffPages(c) then NoMemory else Stacked(c)
    ensures l.Layout? ==> (Tiled(c, l) <==> ReservedSum(c) < 0x1_0000)
  {
    var txffPages := TxffPages(c);
    var rsvdPages := ReservedPages(c);
    if rsvdPages > txffPages {
      return NoMemory;
    }
    var boundary := U16(txffPages - rsvdPages);
    var csiBuf, fwTxbuf, cpuInstr, h2cq, h2cSta, h2cInfo := 0, 0, 0, 0, 0, 0;
    var cur := txffPages;
    ghost var taken := 0;
    assert cur == FromEnd(c, 0);
    if c.wcpu3081 {
      csiBuf := Carve(c, cur, 0, c.csiBufPages);
      fwTxbuf := Carve(c, csiBuf, c.csiBufPages, FW_TXBUF);
      cpuInstr := Carve(c, fwTxbuf, c.csiBufPages + 4, CPU_INSTRUCTION);
      h2cq := Carve(c, cpuInstr, c.csiBufPages + 4, H2CQ);
      h2cSta := Carve(c, h2cq, c.csiBufPages + 12, H2C_STATICINFO);
      h2cInfo := Carve(c, h2cSta, c.csiBufPages + 20, H2C_EXTRAINFO);
      cur := h2cInfo;
      taken := c.csiBufPages + 44;
    }
    var drvAddr := Carve(c, cur, taken, c.rsvdDrvPages);
    assert boundary == drvAddr by { U16Chain(txffPages, ReservedSum(c)); }
    if boundary != drvAddr {
      return WrongAddress;
    }
    l := Layout(boundary, drvAddr, c.rsvdDrvPages, h2cInfo, h2cSta, h2cq, cpuInstr, fwTxbuf, csiBuf, txffPages);
    assert l == Stacked(c);
    assert Tiled(c, l) <==> ReservedSum(c) < 0x1_0000 by { TiledIff(c); }
  }

  /**
    An image accepted by the builder lies inside the driver's region of the layout: the FIFO pages that a
    packet takes begin at the boundary or later and end where the next region begins, or the FIFO; and the
    download's own page count passes its check against the same region.
   */
  lemma AcceptedImageFits(c: Chip, l: Layout, g: RsvdImage.Geometry, k: nat,
                                             ps: seq<RsvdImage.Packet>, i: nat)
    requires Tiled(c, l) && RsvdImage.GeometryOk(g) && g.pageSize == RsvdImage.Pow2(k) && i < |ps|
    requires RsvdImage.TotalPages(g, ps) <= l.drvPages
    ensures RsvdImage.TotalPages(g, ps) >= 1
    ensures RsvdImage.DownloadPages(RsvdImage.BufferSize(g, RsvdImage.TotalPages(g, ps)), g.pageSize) <= l.drvPages
    ensures var first := l.drvAddr + RsvdImage.StartPage(g, ps, i);
            var end := first + RsvdImage.PageCount(g, ps, i);
            && l.boundary <= first <= end <= l.total
            && (c.wcpu3081 ==> end <= l.h2cInfo <= l.h2cSta <= l.h2cq <= l.cpuInstr <= l.fwTxbuf <= l.csiBuf)
  {
    RsvdImage.LaterPacketsStartLater(g, ps, |ps|);
    RsvdImage.DownloadCountsTheSame(g, k, RsvdImage.TotalPages(g, ps));
    assert RsvdImage.StartPage(g, ps, i + 1) == RsvdImage.StartPage(g, ps, i) + RsvdImage.PageCount(g, ps, i);
    RsvdImage.StartPageMonotone(g, ps, i + 1, |ps|);
  }
}
