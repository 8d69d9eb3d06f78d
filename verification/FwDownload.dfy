/**
  Firmware download (mac.c, with the page writer of usb.c): the legacy path writes the payload page by
  page through a window selected by a three-bit page register; the other path moves it in chunks by DMA.
 */
module FwDownload {
  import opened Quotients

  type byte = x: int | 0 <= x < 0x100

  const PAGE := 0x1000
  const PAGES := 8
  const MAX_CHUNK := 0x1000

  /** Zeros up to a whole number of words. */
  function Pad(data: seq<byte>): (r: seq<byte>)
    ensures |r| % 4 == 0 && |data| <= |r| < |data| + 4 && r[..|data|] == data
    ensures forall i | |data| <= i < |r| :: r[i] == 0
  {
    seq((|data| + 3) / 4 * 4, k requires 0 <= k => if k < |data| then data[k] else 0)
  }

  /** `data` written at `at`. */
  function Put(mem: seq<byte>, at: nat, data: seq<byte>): (r: seq<byte>)
    requires at + |data| <= |mem|
    ensures |r| == |mem|
  {
    seq(|mem|, k requires 0 <= k < |mem| => if at <= k < at + |data| then data[k - at] else mem[k])
  }

  lemma PutAppends(mem: seq<byte>, done: seq<byte>, more: seq<byte>)
    requires |done| + |more| <= |mem|
    ensures Put(Put(mem, 0, done), |done|, more) == Put(mem, 0, done + more)
  {
  }

  /** How pages get to the device: by 32-bit register writes, the last one padded, or by USB transfers, of
      which the first good(p) of page p succeed: transfers of a block, then of 8 bytes, then of 1. */
  datatype Writer = Words | Usb(blockSize: nat, good: nat -> nat)

  predicate WriterOk(w: Writer) { w.Usb? ==> w.blockSize > 0 }

  /** Every transfer of every page succeeds. */
  ghost predicate Reliable(w: Writer) { WriterOk(w) && (w.Usb? ==> forall p: nat :: w.good(p) >= PAGE) }

  /** How much of a page of `size` bytes arrives when the first `good` transfers succeed. */
  function Sent(size: nat, blockSize: nat, good: nat): (n: nat)
    requires blockSize > 0
    ensures n <= size
  {
    if size == 0 || good == 0 then 0
    else
      var n := if size >= blockSize then blockSize else if size >= 8 then 8 else 1;
      n + Sent(size - n, blockSize, good - 1)
  }

  /** Whole pages arrive iff every transfer succeeds; as many as bytes are certainly enough. */
  lemma {:induction false} AllSent(size: nat, blockSize: nat, good: nat)
    requires blockSize > 0
    ensures good >= size ==> Sent(size, blockSize, good) == size
    ensures good < Transfers(size, blockSize) <==> Sent(size, blockSize, good) < size
  {
    if size > 0 && good > 0 {
      AllSent(size - (if size >= blockSize then blockSize else if size >= 8 then 8 else 1), blockSize, good - 1);
    }
  }

  function Transfers(size: nat, blockSize: nat): nat
    requires blockSize > 0
  {
    if size == 0 then 0
    else 1 + Transfers(size - (if size >= blockSize then blockSize else if size >= 8 then 8 else 1), blockSize)
  }

  /** How many transfers that is: blocks, then eights of what is left, then ones. */
  lemma {:induction false} TransfersByNumber(size: nat, blockSize: nat)
    requires blockSize > 0
    ensures Transfers(size, blockSize) == size / blockSize + size % blockSize / 8 + size % blockSize % 8
  {
    if size >= blockSize {
      TransfersByNumber(size - blockSize, blockSize);
      assert size / blockSize == (size - blockSize) / blockSize + 1 && size % blockSize == (size - blockSize) % blockSize by {
        OneLess(size, blockSize);
      }
    } else {
      TransfersBelowBlock(size, blockSize);
      assert size / blockSize == 0 && size % blockSize == size by { QuotientUnique(size, blockSize, 0, size); }
    }
  }

  lemma {:induction false} TransfersBelowBlock(size: nat, blockSize: nat)
    requires size < blockSize
    ensures Transfers(size, blockSize) == size / 8 + size % 8
  {
    if size > 0 {
      TransfersBelowBlock(size - (if size >= 8 then 8 else 1), blockSize);
    }
  }

  lemma OneLess(n: nat, d: nat)
    requires n >= d > 0
    ensures n / d == (n - d) / d + 1 && n % d == (n - d) % d
  {
    Division(n - d, d);
    QuotientUnique(n, d, (n - d) / d + 1, (n - d) % d);
  }

  /** What arrives of page p when `data` is sent for it. */
  function OnWire(w: Writer, data: seq<byte>, p: nat): (r: seq<byte>)
    requires WriterOk(w) && |data| <= PAGE
    ensures |r| <= PAGE
  {
    if w.Words? then Pad(data) else data[..Sent(|data|, w.blockSize, w.good(p))]
  }

  /** Page p of a payload. */
  function PageOf(data: seq<byte>, p: nat): (r: seq<byte>)
    requires p * PAGE <= |data|
    ensures |r| == if (p + 1) * PAGE <= |data| then PAGE else |data| - p * PAGE
    ensures forall off | 0 <= off < |r| :: r[off] == data[p * PAGE + off]
  {
    if (p + 1) * PAGE <= |data| then data[p * PAGE..(p + 1) * PAGE] else data[p * PAGE..]
  }

  function PageCount(data: seq<byte>): (n: nat)
    ensures n > 0 ==> (n - 1) * PAGE < |data|
    ensures |data| <= n * PAGE
  {
    |data| / PAGE + if |data| % PAGE != 0 then 1 else 0
  }

  function Wire(w: Writer, data: seq<byte>, p: nat): (r: seq<byte>)
    requires WriterOk(w) && p * PAGE <= |data|
    ensures |r| <= PAGE
  {
    OnWire(w, PageOf(data, p), p)
  }

  /** The page a page number selects: the page register keeps three bits. */
  function Slot(page: nat): (r: nat)
    ensures r < PAGES && (page < PAGES ==> r == page)
  {
    page % 8
  }

  /** A payload has bytes on each of its first n pages. */
  predicate Reaches(data: seq<byte>, n: nat) { n > 0 ==> (n - 1) * PAGE < |data| }

  /** The device's program memory: eight pages. */
  predicate Memory(pages: seq<seq<byte>>)
  {
    |pages| == PAGES && forall p | 0 <= p < PAGES :: |pages[p]| == PAGE
  }

  function Store(pages: seq<seq<byte>>, p: nat, data: seq<byte>): (r: seq<seq<byte>>)
    requires Memory(pages) && p < PAGES && |data| <= PAGE
    ensures Memory(r)
  {
    pages[p := Put(pages[p], 0, data)]
  }

  /** The memory after the first n pages of a payload; the page register keeps three bits. */
  function Loaded(w: Writer, pages: seq<seq<byte>>, data: seq<byte>, n: nat): (r: seq<seq<byte>>)
    requires WriterOk(w) && Memory(pages) && Reaches(data, n)
    ensures Memory(r)
  {
    if n == 0 then pages
    else Store(Loaded(w, pages, data, n - 1), Slot(n - 1), Wire(w, data, n - 1))
  }

  /** The memory holds the payload, loaded over something. */
  ghost predicate Holds(w: Writer, pages: seq<seq<byte>>, data: seq<byte>)
    requires WriterOk(w)
  {
    exists start :: Memory(start) && pages == Loaded(w, start, data, PageCount(data))
  }

  // ---------------------------------------------------------------- the writers

  class Device {
    var pages: seq<seq<byte>>
    /** The page register: which page the 4 KiB window shows. */
    var window: nat

    predicate Ok()
      reads this
    {
      Memory(pages) && window < PAGES
    }

    constructor (pages: seq<seq<byte>>)
      requires Memory(pages)
      ensures Ok() && this.pages == pages
    {
      this.pages, window := pages, 0;
    }

    method SetWindow(page: nat)
      requires Ok()
      modifies this
      ensures Ok() && window == Slot(page) && pages == old(pages)
    {
      window := Slot(page);
    }

    /** A write of some bytes behind the window. */
    method Write(at: nat, bytes: seq<byte>)
      requires Ok() && at + |bytes| <= PAGE
      modifies this
      ensures Ok() && window == old(window)
      ensures pages == old(pages)[window := Put(old(pages)[window], at, bytes)]
    {
      pages := pages[window := Put(pages[window], at, bytes)];
    }

    /** A write that continues what the window already holds. */
    method Continue(ghost was: seq<seq<byte>>, ghost done: seq<byte>, at: nat, bytes: seq<byte>)
      requires Ok() && Memory(was) && at == |done| && at + |bytes| <= PAGE
      requires pages == Store(was, window, done)
      modifies this
      ensures Ok() && window == old(window) && pages == Store(was, window, done + bytes)
    {
      PutAppends(was[window], done, bytes);
      Write(at, bytes);
    }

    /** rtw_write_firmware_page: whole words, then the rest in a zero-padded word. */
    method WriteFirmwarePage(page: nat, data: seq<byte>)
      requires Ok() && |data| <= PAGE
      modifies this
      ensures Ok() && pages == Store(old(pages), Slot(page), Pad(data))
    {
      var blockNr, remain := |data| / 4, |data| % 4;
      SetWindow(page);
      StoreNothing(pages, window);
      var writeAddr: nat := 0;
      for block := 0 to blockNr
        invariant Ok() && window == Slot(page) && writeAddr == 4 * block
        invariant pages == Store(old(pages), window, data[..4 * block])
      {
        assert data[..4 * block] + data[4 * block..4 * block + 4] == data[..4 * (block + 1)];
        Continue(old(pages), data[..4 * block], writeAddr, data[4 * block..4 * block + 4]);
        writeAddr := writeAddr + 4;
      }
      if remain != 0 {
        var last := data[4 * blockNr..] + seq(4 - remain, _ => 0);
        assert data[..4 * blockNr] + last == Pad(data);
        Continue(old(pages), data[..4 * blockNr], writeAddr, last);
      } else {
        assert data[..4 * blockNr] == Pad(data);
      }
    }

    /** rtw_usb_write_firmware_page. The first `good` transfers succeed; a failed one silently ends the page. */
    method UsbWriteFirmwarePage(page: nat, data: seq<byte>, blockSize: nat, good: nat)
      requires Ok() && |data| <= PAGE && blockSize > 0
      modifies this
      ensures Ok() && Sent(|data|, blockSize, good) <= |data|
      ensures pages == Store(old(pages), Slot(page), data[..Sent(|data|, blockSize, good)])
    {
      SetWindow(page);
      StoreNothing(pages, window);
      var addr: nat, size: nat := 0, |data|;
      ghost var left := good;
      var i := 0;
      while size > 0
        invariant Ok() && window == Slot(page) && addr + size == |data| && i + left == good
        invariant addr + Sent(size, blockSize, left) == Sent(|data|, blockSize, good)
        invariant pages == Store(old(pages), window, data[..addr])
        decreases size
      {
        var n := if size >= blockSize then blockSize else if size >= 8 then 8 else 1;
        if i == good {
          break;
        }
        assert data[..addr] + data[addr..addr + n] == data[..addr + n];
        Continue(old(pages), data[..addr], addr, data[addr..addr + n]);
        addr, size := addr + n, size - n;
        i, left := i + 1, left - 1;
      }
    }

    method WritePage(w: Writer, page: nat, data: seq<byte>)
      requires Ok() && |data| <= PAGE && WriterOk(w)
      modifies this
      ensures Ok() && pages == Store(old(pages), Slot(page), OnWire(w, data, page))
    {
      if w.Words? {
        WriteFirmwarePage(page, data);
      } else {
        UsbWriteFirmwarePage(page, data, w.blockSize, w.good(page));
      }
    }

    /** Page `page` of a payload whose earlier pages are written. */
    method WriteNext(w: Writer, ghost start: seq<seq<byte>>, data: seq<byte>, page: nat, at: nat, size: nat)
      requires Ok() && WriterOk(w) && Memory(start)
      requires at == page * PAGE && 0 < size <= PAGE && at + size <= |data|
      requires size < PAGE ==> at + size == |data|
      requires Reaches(data, page) && pages == Loaded(w, start, data, page)
      modifies this
      ensures Ok() && Reaches(data, page + 1) && pages == Loaded(w, start, data, page + 1)
    {
      LoadedStep(w, start, data, page, data[at..at + size]);
      WritePage(w, page, data[at..at + size]);
    }

    /** One attempt: all whole pages, then the rest. */
    method WritePages(w: Writer, data: seq<byte>)
      requires Ok() && WriterOk(w)
      modifies this
      ensures Ok() && pages == Loaded(w, old(pages), data, PageCount(data))
    {
      var totalPage, lastPageSize := |data| / PAGE, |data| % PAGE;
      var at: nat := 0;
      for page := 0 to totalPage
        invariant Ok() && at == page * PAGE && at <= |data| && Reaches(data, page)
        invariant pages == Loaded(w, old(pages), data, page)
      {
        WriteNext(w, old(pages), data, page, at, PAGE);
        at := at + PAGE;
      }
      if lastPageSize != 0 {
        WriteNext(w, old(pages), data, totalPage, at, lastPageSize);
      }
    }

    /**
      download_firmware_legacy without its header: up to five attempts, each writing all pages, with its own
      luck at transfers, and asking the device for its verdict. It stops at the first good verdict; whatever
      was there before, the memory then holds what the last attempt loaded.
     */
    method DownloadLegacy(ws: seq<Writer>, data: seq<byte>, verdicts: seq<bool>) returns (ok: bool, last: nat)
      requires Ok() && |verdicts| == |ws| == 5 && forall i | 0 <= i < 5 :: WriterOk(ws[i])
      modifies this
      ensures Ok() && last < 5 && WriterOk(ws[last]) && Holds(ws[last], pages, data)
      ensures ok == verdicts[last] && (!ok ==> last == 4) && forall k | 0 <= k < last :: !verdicts[k]
    {
      ok, last := false, 0;
      var i := 0;
      while i < 5 && !ok
        invariant Ok() && 0 <= i <= 5 && last == (if i == 0 then 0 else i - 1)
        invariant i == 0 ==> !ok
        invariant i > 0 ==> ok == verdicts[last] && Holds(ws[last], pages, data)
        invariant forall k | 0 <= k < last :: !verdicts[k]
      {
        Attempt(ws[i], data);
        last := i;
        ok := verdicts[i];
        i := i + 1;
      }
    }

    method Attempt(w: Writer, data: seq<byte>)
      requires Ok() && WriterOk(w)
      modifies this
      ensures Ok() && Holds(w, pages, data)
    {
      WritePages(w, data);
    }
  }

  /** What writing one more page adds, given as the payload's bytes from that page on or its next 4 KiB. */
  lemma LoadedStep(w: Writer, pages: seq<seq<byte>>, data: seq<byte>, n: nat, chunk: seq<byte>)
    requires WriterOk(w) && Memory(pages) && n * PAGE + |chunk| <= |data| && 0 < |chunk| <= PAGE
    requires chunk == data[n * PAGE..n * PAGE + |chunk|]
    requires |chunk| < PAGE ==> n * PAGE + |chunk| == |data|
    ensures Reaches(data, n) && Reaches(data, n + 1)
    ensures Loaded(w, pages, data, n + 1) == Store(Loaded(w, pages, data, n), Slot(n), OnWire(w, chunk, n))
  {
    assert PageOf(data, n) == chunk;
  }

  lemma StoreNothing(pages: seq<seq<byte>>, p: nat)
    requires Memory(pages) && p < PAGES
    ensures Store(pages, p, []) == pages
  {
    assert Put(pages[p], 0, []) == pages[p];
  }

  // ---------------------------------------------------------------- what the memory then holds

  lemma LoadedStepAt(w: Writer, pages: seq<seq<byte>>, data: seq<byte>, n: nat, q: nat)
    requires WriterOk(w) && Memory(pages) && n > 0 && Reaches(data, n) && q < PAGES
    ensures Slot(n - 1) != q ==> Loaded(w, pages, data, n)[q] == Loaded(w, pages, data, n - 1)[q]
    ensures Slot(n - 1) == q ==>
              Loaded(w, pages, data, n)[q] == Put(Loaded(w, pages, data, n - 1)[q], 0, Wire(w, data, n - 1))
  {
  }

  /** Up to eight pages, each page holds what went over the wire, from the moment it was written. */
  lemma {:induction false} LoadedPage(w: Writer, pages: seq<seq<byte>>, data: seq<byte>, n: nat, q: nat)
    requires WriterOk(w) && Memory(pages) && q < n <= PAGES && Reaches(data, n)
    ensures Loaded(w, pages, data, n)[q] == Put(pages[q], 0, Wire(w, data, q))
  {
    if q == n - 1 {
      LastPage(w, pages, data, n);
    } else {
      LoadedPage(w, pages, data, n - 1, q);
      LoadedStepAt(w, pages, data, n, q);
    }
  }

  lemma LastPage(w: Writer, pages: seq<seq<byte>>, data: seq<byte>, n: nat)
    requires WriterOk(w) && Memory(pages) && 0 < n <= PAGES && Reaches(data, n)
    ensures Loaded(w, pages, data, n)[n - 1] == Put(pages[n - 1], 0, Wire(w, data, n - 1))
  {
    NotYetLoaded(w, pages, data, n - 1, n - 1);
    LoadedStepAt(w, pages, data, n, n - 1);
  }

  lemma {:induction false} NotYetLoaded(w: Writer, pages: seq<seq<byte>>, data: seq<byte>, n: nat, q: nat)
    requires WriterOk(w) && Memory(pages) && Reaches(data, n) && n <= q < PAGES
    ensures Loaded(w, pages, data, n)[q] == pages[q]
  {
    if n > 0 {
      LoadedStepAt(w, pages, data, n, q);
      NotYetLoaded(w, pages, data, n - 1, q);
    }
  }

  /** A payload of at most eight pages is all there: the byte at offset `off` of page q is the payload's
      byte 4096 q + off. */
  lemma PayloadInPlace(w: Writer, pages: seq<seq<byte>>, data: seq<byte>, q: nat, off: nat)
    requires Reliable(w) && Memory(pages) && |data| <= PAGES * PAGE && q < PAGES && off < PAGE && q * PAGE + off < |data|
    ensures Loaded(w, pages, data, PageCount(data))[q][off] == data[q * PAGE + off]
  {
    LoadedPage(w, pages, data, PageCount(data), q);
    WireCarries(w, pages[q], PageOf(data, q), q, off);
  }

  lemma WireCarries(w: Writer, mem: seq<byte>, data: seq<byte>, p: nat, off: nat)
    requires Reliable(w) && |mem| == PAGE && off < |data| <= PAGE
    ensures Put(mem, 0, OnWire(w, data, p))[off] == data[off]
  {
    if w.Usb? {
      AllSent(|data|, w.blockSize, w.good(p));
    } else {
      assert Pad(data)[..|data|][off] == data[off];
    }
  }

  /** The rest of a last word written as a word is zero. */
  lemma LastWordPadded(pages: seq<seq<byte>>, data: seq<byte>, q: nat, off: nat)
    requires Memory(pages) && |data| <= PAGES * PAGE && off < PAGE
    requires q + 1 == PageCount(data) && |PageOf(data, q)| <= off < |Pad(PageOf(data, q))|
    ensures Loaded(Words, pages, data, PageCount(data))[q][off] == 0
  {
    LoadedPage(Words, pages, data, PageCount(data), q);
  }

  /** The last page up to page k that goes to slot 0. */
  function RoundStart(k: nat): (r: nat)
    ensures r <= k && (PAGES <= k ==> PAGES <= r)
  {
    k - k % 8
  }

  lemma RoundGoesOn(k: nat)
    ensures Slot(k) == 0 ==> RoundStart(k) == k
    ensures Slot(k) != 0 ==> k > 0 && RoundStart(k) == RoundStart(k - 1)
  {
  }

  /** A byte that changes only with every eighth page. */
  lemma {:induction false} LastRound(seen: seq<byte>, first: nat -> byte, n: nat)
    requires 0 < n < |seen|
    requires forall k | 0 < k < |seen| :: seen[k] == if Slot(k - 1) == 0 then first(k - 1) else seen[k - 1]
    ensures seen[n] == first(RoundStart(n - 1))
  {
    RoundGoesOn(n - 1);
    if Slot(n - 1) != 0 {
      LastRound(seen, first, n - 1);
    }
  }

  /** The byte at which a page of the payload begins, if there is one. */
  function FirstByte(data: seq<byte>): nat -> byte { (k: nat) => if k * PAGE < |data| then data[k * PAGE] else 0 }

  /** What page 0 begins with, after 0 to n pages. */
  ghost function PageZero(w: Writer, pages: seq<seq<byte>>, data: seq<byte>, n: nat): (seen: seq<byte>)
    requires WriterOk(w) && Memory(pages) && Reaches(data, n)
    ensures |seen| == n + 1
  {
    seq(n + 1, k requires 0 <= k <= n => ZeroByte(w, pages, data, k))
  }

  lemma {:induction false} PageZeroSteps(w: Writer, pages: seq<seq<byte>>, data: seq<byte>, n: nat, k: nat)
    requires Reliable(w) && Memory(pages) && Reaches(data, n) && 0 < k <= n
    ensures var seen := PageZero(w, pages, data, n);
            seen[k] == if Slot(k - 1) == 0 then FirstByte(data)(k - 1) else seen[k - 1]
  {
    assert (k - 1) * PAGE < |data|;
    var seen, now, before := PageZero(w, pages, data, n), ZeroByte(w, pages, data, k), ZeroByte(w, pages, data, k - 1);
    assert seen[k] == now by { PageZeroAt(w, pages, data, n, k); }
    assert seen[k - 1] == before by { PageZeroAt(w, pages, data, n, k - 1); }
    assert now == if Slot(k - 1) == 0 then FirstByte(data)(k - 1) else before by { ZeroStep(w, pages, data, k); }
  }

  /** What page 0 begins with after n pages. */
  ghost function ZeroByte(w: Writer, pages: seq<seq<byte>>, data: seq<byte>, n: nat): byte
    requires WriterOk(w) && Memory(pages) && Reaches(data, n)
  {
    Loaded(w, pages, data, n)[0][0]
  }

  lemma PageZeroAt(w: Writer, pages: seq<seq<byte>>, data: seq<byte>, n: nat, k: nat)
    requires WriterOk(w) && Memory(pages) && Reaches(data, n) && k <= n
    ensures PageZero(w, pages, data, n)[k] == ZeroByte(w, pages, data, k)
  {
  }

  /** Page 0 begins like the last of the payload's pages that went there. */
  lemma {:induction false} PageZeroOverwritten(w: Writer, pages: seq<seq<byte>>, data: seq<byte>, n: nat)
    requires Reliable(w) && Memory(pages) && n > 0 && Reaches(data, n)
    ensures Loaded(w, pages, data, n)[0][0] == data[RoundStart(n - 1) * PAGE]
  {
    var seen := PageZero(w, pages, data, n);
    forall k | 0 < k < |seen|
      ensures seen[k] == if Slot(k - 1) == 0 then FirstByte(data)(k - 1) else seen[k - 1]
    {
      PageZeroSteps(w, pages, data, n, k);
    }
    LastRound(seen, FirstByte(data), n);
  }

  lemma ZeroStep(w: Writer, pages: seq<seq<byte>>, data: seq<byte>, n: nat)
    requires Reliable(w) && Memory(pages) && n > 0 && Reaches(data, n)
    ensures Loaded(w, pages, data, n)[0][0]
         == if Slot(n - 1) == 0 then data[(n - 1) * PAGE] else Loaded(w, pages, data, n - 1)[0][0]
  {
    LoadedStepAt(w, pages, data, n, 0);
    if Slot(n - 1) == 0 {
      WireCarries(w, Loaded(w, pages, data, n - 1)[0], PageOf(data, n - 1), n - 1, 0);
    }
  }

  /** Downloads of at most eight pages therefore leave the whole payload in place. */
  lemma DownloadedPayload(w: Writer, pages: seq<seq<byte>>, data: seq<byte>, q: nat, off: nat)
    requires Reliable(w) && Memory(pages) && Holds(w, pages, data)
    requires |data| <= PAGES * PAGE && q < PAGES && off < PAGE && q * PAGE + off < |data|
    ensures pages[q][off] == data[q * PAGE + off]
  {
    var start :| Memory(start) && pages == Loaded(w, start, data, PageCount(data));
    PayloadInPlace(w, start, data, q, off);
  }

  /** For all payloads of a size to be in place, eight pages are the limit: from the ninth page on, page 0
      is written again. */
  lemma PayloadInPlaceIff(w: Writer, pages: seq<seq<byte>>, size: nat)
    requires Reliable(w) && Memory(pages)
    ensures (forall d: seq<byte>, q: nat, off: nat | |d| == size && off < PAGE && q * PAGE + off < size ::
               Loaded(w, pages, d, PageCount(d))[Slot(q)][off] == d[q * PAGE + off])
       <==> size <= PAGES * PAGE
  {
    if size <= PAGES * PAGE {
      forall d: seq<byte>, q: nat, off: nat | |d| == size && off < PAGE && q * PAGE + off < size
        ensures Loaded(w, pages, d, PageCount(d))[Slot(q)][off] == d[q * PAGE + off]
      {
        PayloadInPlace(w, pages, d, q, off);
      }
    } else {
      var d: seq<byte> := seq(size, k => if k < PAGES * PAGE then 0 else 1);
      LongPayload(w, pages, d, PageCount(d));
      assert Loaded(w, pages, d, PageCount(d))[Slot(0)][0] != d[0];
    }
  }

  lemma LongPayload(w: Writer, pages: seq<seq<byte>>, data: seq<byte>, n: nat)
    requires Reliable(w) && Memory(pages) && PAGES < n && Reaches(data, n)
    requires forall k | PAGES * PAGE <= k < |data| :: data[k] == 1
    ensures Loaded(w, pages, data, n)[0][0] == 1
  {
    PageZeroOverwritten(w, pages, data, n);
  }

  // ---------------------------------------------------------------- download by DMA

  /** One DMA transfer: its place in the payload and behind the target address, and whether it starts a
      first checksum. */
  datatype Transfer = Transfer(offset: nat, target: nat, length: nat, first: bool)

  /** Transfers that tile [0, upTo) in order. */
  predicate Tiles(ts: seq<Transfer>, target: nat, upTo: nat)
  {
    if ts == [] then upTo == 0
    else
      var t := ts[|ts| - 1];
      t.offset + t.length == upTo && 1 <= t.length <= MAX_CHUNK && t.target == target + t.offset
      && (t.first <==> |ts| == 1) && Tiles(ts[..|ts| - 1], target, t.offset)
  }

  /** download_firmware_to_mem up to the checksum, when the device refuses chunk `refused` (or none, when
      there are no more than that). */
  method DownloadToMem(size: nat, target: nat, refused: nat) returns (ok: bool, ts: seq<Transfer>)
    ensures ok <==> size <= refused * MAX_CHUNK
    ensures ok ==> Tiles(ts, target, size) && size <= |ts| * MAX_CHUNK < size + MAX_CHUNK
    ensures !ok ==> |ts| == refused && Tiles(ts, target, refused * MAX_CHUNK)
  {
    var memOffset: nat, residue: nat, firstPart := 0, size, true;
    ts := [];
    while residue > 0
      invariant memOffset + residue == size && Tiles(ts, target, memOffset)
      invariant firstPart <==> ts == []
      invariant residue > 0 ==> memOffset == |ts| * MAX_CHUNK
      invariant memOffset <= |ts| * MAX_CHUNK < memOffset + MAX_CHUNK
      invariant |ts| <= refused
      decreases residue
    {
      var pktSize := if residue >= MAX_CHUNK then MAX_CHUNK else residue;
      if |ts| == refused {
        return false, ts;
      }
      TilesSnoc(ts, target, memOffset, pktSize);
      ts := ts + [Transfer(memOffset, target + memOffset, pktSize, firstPart)];
      firstPart := false;
      memOffset := memOffset + pktSize;
      residue := residue - pktSize;
    }
    return true, ts;
  }

  lemma TilesSnoc(ts: seq<Transfer>, target: nat, upTo: nat, length: nat)
    requires Tiles(ts, target, upTo) && 1 <= length <= MAX_CHUNK
    ensures Tiles(ts + [Transfer(upTo, target + upTo, length, ts == [])], target, upTo + length)
  {
    var t := Transfer(upTo, target + upTo, length, ts == []);
    assert (ts + [t])[..|ts|] == ts;
  }

  /** Tiling transfers neither overlap nor leave gaps: every byte is in exactly one of them. */
  lemma {:induction false} TilesCoverOnce(ts: seq<Transfer>, target: nat, upTo: nat, j: nat)
    requires Tiles(ts, target, upTo) && j < upTo
    ensures exists i | 0 <= i < |ts| :: ts[i].offset <= j < ts[i].offset + ts[i].length
    ensures forall i, k | 0 <= i < k < |ts| :: ts[i].offset + ts[i].length <= ts[k].offset
    ensures forall i | 0 <= i < |ts| :: ts[i].target == target + ts[i].offset && (ts[i].first <==> i == 0)
    decreases |ts|
  {
    var front, t := ts[..|ts| - 1], ts[|ts| - 1];
    TilesOrdered(ts, target, upTo);
    if j < t.offset {
      TilesCoverOnce(front, target, t.offset, j);
      var i :| 0 <= i < |front| && front[i].offset <= j < front[i].offset + front[i].length;
      assert ts[i] == front[i];
    } else {
      assert ts[|ts| - 1].offset <= j;
    }
  }

  lemma {:induction false} TilesOrdered(ts: seq<Transfer>, target: nat, upTo: nat)
    requires Tiles(ts, target, upTo)
    ensures forall i | 0 <= i < |ts| :: ts[i].offset + ts[i].length <= upTo
    ensures forall i, k | 0 <= i < k < |ts| :: ts[i].offset + ts[i].length <= ts[k].offset
    ensures forall i | 0 <= i < |ts| :: ts[i].target == target + ts[i].offset && (ts[i].first <==> i == 0)
    decreases |ts|
  {
    if ts != [] {
      var front := ts[..|ts| - 1];
      TilesOrdered(front, target, ts[|ts| - 1].offset);
      forall i | 0 <= i < |front| ensures front[i] == ts[i] {}
    }
  }
}
