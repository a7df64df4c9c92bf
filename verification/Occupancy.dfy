/** The queue of the running journal on a chip where nothing goes wrong, page by page: how it
    follows the abstract queue of module Space, and why the head never reaches the tail. */
module Occupancy {
  import opened Arithmetic
  import opened Bits
  import opened Geometry
  import opened PageNumbers
  import opened Tree
  import opened Nand
  import opened JournalState
  import opened MapState
  import Space

  function SlotOf(id: Sector): Space.Slot {
    if id == SECTOR_NONE then Space.Filler else Space.Of(id)
  }

  /** Page `p` of the log holds what the queue says. */
  ghost predicate Holding(log: Log, p: Page, slot: Space.Slot) {
    p in log && slot == SlotOf(log[p].meta.id)
  }

  /** The queue's pages are the user pages from tail to head. */
  ghost predicate Lined(g: Geo, tail: Page, head: Page, log: Log, pages: seq<Space.Entry>) {
    g.Ok() && g.UserPage(tail) && |pages| < UserPages(g) && Walk(g, tail, |pages|) == head &&
    forall i: nat :: i < |pages| ==> Holding(log, Walk(g, tail, i), pages[i].slot)
  }

  /** A page with a later page for the same sector behind it is not where the sector is found. */
  ghost predicate Newest(g: Geo, tail: Page, log: Log, root: Page, pages: seq<Space.Entry>)
    requires g.Ok() && g.UserPage(tail)
  {
    forall i: nat :: i < |pages| ==> Superseded(log, root, Walk(g, tail, i), pages[i].slot, pages[i + 1..])
  }

  ghost predicate Superseded(log: Log, root: Page, p: Page, slot: Space.Slot, behind: seq<Space.Entry>) {
    slot.Of? && slot.sector in Space.Sectors(behind) ==> Find(Metas(log), root, slot.sector) != p
  }

  ghost predicate Occupied(g: Geo, tail: Page, head: Page, root: Page, log: Log, mapped: set<Sector>, q: Space.Queue) {
    Lined(g, tail, head, log, q.pages) && Newest(g, tail, log, root, q.pages) && q.mapped == mapped
  }

  // ---------------------------------------------------------------- walking along the queue

  lemma {:induction false} WalkNext(g: Geo, p: Page, k: nat)
    requires g.Ok() && g.UserPage(p)
    ensures Walk(g, g.NextUpage(p), k) == Walk(g, p, k + 1)
  {
    if k > 0 { WalkNext(g, p, k - 1); }
  }

  lemma WalkDistinct(g: Geo, p: Page, i: nat, j: nat)
    requires g.Ok() && g.UserPage(p) && i < j < UserPages(g)
    ensures Walk(g, p, i) != Walk(g, p, j)
  {
    hide Ordinal, UserPages, Walk;
    OrdinalBelow(g, p);
    WalkOrdinal(g, p, i);
    WalkOrdinal(g, p, j);
  }

  /** The size of a queue is its number of pages. */
  lemma WalkSize(g: Geo, p: Page, n: nat)
    requires g.Ok() && g.UserPage(p) && n < UserPages(g)
    ensures JournalSize(g, p, Walk(g, p, n)) == n
  {
    hide Ordinal, UserPages, Walk, JournalSize;
    OrdinalBelow(g, p);
    WalkOrdinal(g, p, n);
    SizeOrdinal(g, p, Walk(g, p, n));
  }

  /** A user page of the window is reached by walking. */
  lemma WindowWalk(g: Geo, tail: Page, head: Page, p: Page)
    requires g.Ok() && g.UserPage(tail) && g.UserPage(head) && g.UserPage(p) && InWindow(tail, p, head)
    ensures 0 <= JournalSize(g, tail, p) < JournalSize(g, tail, head)
    ensures Walk(g, tail, JournalSize(g, tail, p)) == p
  {
    hide Ordinal, UserPages, Walk, JournalSize;
    JournalSizeIsSteps(g, tail, p);
    SizeOrdinal(g, tail, p);
    SizeOrdinal(g, tail, head);
    OrdinalBelow(g, tail);
    OrdinalBelow(g, p);
    OrdinalBelow(g, head);
    if tail != p { OrdinalOrder(g, tail, p); OrdinalOrder(g, p, tail); }
    if p != head { OrdinalOrder(g, p, head); OrdinalOrder(g, head, p); }
    if tail != head { OrdinalOrder(g, tail, head); OrdinalOrder(g, head, tail); }
  }

  /** The size counted from the synchronised tail covers the queue. */
  lemma RingSizes(g: Geo, sync: Page, tail: Page, head: Page)
    requires g.Ok() && Ring(g, sync, tail, head)
    ensures JournalSize(g, tail, head) <= JournalSize(g, sync, head)
  {
    hide Ordinal, UserPages, Walk, JournalSize;
    SizeOrdinal(g, sync, head);
    SizeOrdinal(g, tail, head);
    OrdinalBelow(g, sync);
    OrdinalBelow(g, tail);
    OrdinalBelow(g, head);
    if tail != sync { OrdinalOrder(g, tail, sync); OrdinalOrder(g, sync, tail); }
    if sync != head { OrdinalOrder(g, sync, head); OrdinalOrder(g, head, sync); }
    if tail != head { OrdinalOrder(g, tail, head); OrdinalOrder(g, head, tail); }
  }

  // ---------------------------------------------------------------- the tail page

  lemma LinedAt(g: Geo, tail: Page, head: Page, log: Log, pages: seq<Space.Entry>, i: nat)
    requires Lined(g, tail, head, log, pages) && i < |pages|
    ensures Holding(log, Walk(g, tail, i), pages[i].slot)
  {}

  lemma LinedSize(g: Geo, tail: Page, head: Page, log: Log, pages: seq<Space.Entry>)
    requires Lined(g, tail, head, log, pages)
    ensures g.Ok() && g.UserPage(tail) && g.UserPage(head) && |pages| == JournalSize(g, tail, head)
    ensures pages == [] <==> tail == head
  {
    hide Holding, Walk, JournalSize, UserPages;
    WalkSize(g, tail, |pages|);
    WalkSize(g, tail, 0);
    WalkNone(g, tail);
  }

  lemma WalkNone(g: Geo, p: Page)
    requires g.Ok() && g.UserPage(p)
    ensures Walk(g, p, 0) == p
  {}

  /** Where a page of the log stands in the queue. */
  lemma Standing(g: Geo, tail: Page, head: Page, log: Log, pages: seq<Space.Entry>, p: Page) returns (i: nat)
    requires Lined(g, tail, head, log, pages) && p in log && g.UserPage(p) && InWindow(tail, p, head)
    ensures i < |pages| && Walk(g, tail, i) == p && pages[i].slot == SlotOf(log[p].meta.id)
  {
    hide Walk, JournalSize, UserPages, InWindow;
    LinedSize(g, tail, head, log, pages);
    WindowWalk(g, tail, head, p);
    i := JournalSize(g, tail, p);
    LinedAt(g, tail, head, log, pages, i);
  }

  /** The tail page is the last of its sector in the queue, and the sector mapped, exactly when a
      lookup of the sector ends there. */
  lemma TailIsLive(g: Geo, bad: seq<bool>, tail: Page, head: Page, root: Page, log: Log, view: View, q: Space.Queue)
    requires Occupied(g, tail, head, root, log, view.Keys, q) && Maps(log, root, view) &&
      Placed(g, bad, tail, head, log)
    requires q.pages != []
    ensures tail in log
    ensures Space.TailLive(q) <==> log[tail].meta.id != SECTOR_NONE && Find(Metas(log), root, log[tail].meta.id) == tail
  {
    hide Maps, Walk, UserPages, InWindow, Find;
    WalkNone(g, tail);
    LinedAt(g, tail, head, log, q.pages, 0);
    var t := log[tail].meta.id;
    if t != SECTOR_NONE {
      MapsFind(log, root, view, t);
      var p := Find(Metas(log), root, t);
      if t in view {
        var i := Standing(g, tail, head, log, q.pages, p);
        if i > 0 {
          assert q.pages[i] == q.pages[1..][i - 1];
        }
        assert Superseded(log, root, Walk(g, tail, 0), q.pages[0].slot, q.pages[1..]);
      }
    }
  }

  // ---------------------------------------------------------------- a page more, a page less

  lemma PushLined(g: Geo, tail: Page, head: Page, log: Log, pages: seq<Space.Entry>, entry: Entry, e: Space.Entry)
    requires Lined(g, tail, head, log, pages) && g.UserPage(head) && head !in log && |pages| + 1 < UserPages(g)
    requires e.slot == SlotOf(entry.meta.id)
    ensures Lined(g, tail, g.NextUpage(head), log[head := entry], pages + [e])
  {
    hide UserPages, Walk;
    WalkMore(g, tail, |pages|);
    forall i: nat | i < |pages| + 1
      ensures Holding(log[head := entry], Walk(g, tail, i), (pages + [e])[i].slot)
    {
      if i < |pages| { LinedAt(g, tail, head, log, pages, i); }
    }
  }

  lemma WalkMore(g: Geo, p: Page, k: nat)
    requires g.Ok() && g.UserPage(p)
    ensures Walk(g, p, k + 1) == g.NextUpage(Walk(g, p, k))
  {}

  /** A page that joins takes over its sector; no other sector comes to be found at a page of the
      queue where it was not. */
  ghost predicate TakesOver(m: Store, root: Page, m': Store, head: Page, slot: Space.Slot) {
    forall u: Sector :: if slot == Space.Of(u) then Find(m', head, u) == head
                        else Find(m', head, u) in {Page.None, Find(m, root, u)}
  }

  lemma PushNewest(g: Geo, tail: Page, head: Page, root: Page, log: Log, pages: seq<Space.Entry>, entry: Entry,
                   e: Space.Entry)
    requires Lined(g, tail, head, log, pages) && Newest(g, tail, log, root, pages) && head !in log &&
      |pages| + 1 < UserPages(g)
    requires TakesOver(Metas(log), root, Metas(log[head := entry]), head, e.slot)
    ensures Newest(g, tail, log[head := entry], head, pages + [e])
  {
    hide UserPages, Walk, Find;
    var log' := log[head := entry];
    forall i: nat | i < |pages| + 1
      ensures Superseded(log', head, Walk(g, tail, i), (pages + [e])[i].slot, (pages + [e])[i + 1..])
    {
      if i < |pages| {
        LinedAt(g, tail, head, log, pages, i);
        assert (pages + [e])[i + 1..] == pages[i + 1..] + [e];
        Space.SectorsAppend(pages[i + 1..], e);
        assert Superseded(log, root, Walk(g, tail, i), pages[i].slot, pages[i + 1..]);
      }
    }
  }

  lemma PopLined(g: Geo, tail: Page, head: Page, log: Log, pages: seq<Space.Entry>)
    requires Lined(g, tail, head, log, pages) && pages != []
    ensures Lined(g, g.NextUpage(tail), head, log - {tail}, pages[1..])
  {
    hide UserPages, Walk;
    WalkNone(g, tail);
    WalkNext(g, tail, |pages| - 1);
    forall i: nat | i < |pages| - 1
      ensures Holding(log - {tail}, Walk(g, g.NextUpage(tail), i), pages[1..][i].slot)
    {
      WalkNext(g, tail, i);
      LinedAt(g, tail, head, log, pages, i + 1);
      WalkDistinct(g, tail, 0, i + 1);
    }
  }

  lemma PopNewest(g: Geo, tail: Page, log: Log, root: Page, log': Log, root': Page, pages: seq<Space.Entry>)
    requires g.Ok() && g.UserPage(tail) && Newest(g, tail, log, root, pages) && pages != []
    requires forall u: Sector :: Find(Metas(log'), root', u) == Find(Metas(log), root, u)
    ensures Newest(g, g.NextUpage(tail), log', root', pages[1..])
  {
    hide UserPages, Walk, Find;
    forall i: nat | i < |pages| - 1
      ensures Superseded(log', root', Walk(g, g.NextUpage(tail), i), pages[1..][i].slot, pages[1..][i + 1..])
    {
      WalkNext(g, tail, i);
      var j := i + 1;
      assert Superseded(log, root, Walk(g, tail, j), pages[j].slot, pages[j + 1..]);
      assert pages[1..][i + 1..] == pages[j + 1..];
    }
  }

  /** A dead tail page leaves; if it was the root, nothing was mapped. */
  lemma DequeueFinds(log: Log, root: Page, view: View, src: Page)
    requires Maps(log, root, view) && !Live(Metas(log), root, src)
    ensures forall u: Sector ::
      Find(Metas(log - {src}), if root == src then Page.None else root, u) == Find(Metas(log), root, u)
  {
    hide Live, Find;
    var log' := log - {src};
    var root' := if root == src then Page.None else root;
    if root == src {
      DequeueStep(log, root, view, src);
      if Holds(Metas(log), root) {
        GoodOf(log, root, view);
        RootLive(log, root);
      }
      MapsFiller(log, root, view);
      forall u: Sector
        ensures Find(Metas(log'), root', u) == Page.None && Find(Metas(log), root, u) == Page.None
      {
        MapsFind(log, root, view, u);
        MapsFind(log', root', view, u);
      }
    } else {
      DequeueSame(log, root, view, src);
    }
  }

  lemma DequeueSame(log: Log, root: Page, view: View, src: Page)
    requires Maps(log, root, view) && !Live(Metas(log), root, src)
    ensures forall u: Sector :: Find(Metas(log - {src}), root, u) == Find(Metas(log), root, u)
  {
    hide Live, Find;
    GoodOf(log, root, view);
    var m, m' := Metas(log), Metas(log - {src});
    forall p | Live(m, root, p)
      ensures p in m' && m'[p] == m[p]
    {
      LiveIsCurrent(m, root, p);
    }
    Frame(m, m', root);
  }

  // ---------------------------------------------------------------- room for the head

  /** The limits of a map whose journal has met no bad block. */
  function LimitsOf(g: Geo, bbLast: nat, gcRatio: nat): Space.Limits {
    Space.MapLimits(g, JournalCapacity(g, bbLast, 0), gcRatio)
  }

  /** The capacity that a map has at least, on a chip where nothing goes wrong. */
  function LeastCapacity(g: Geo, gcRatio: nat): nat {
    LimitsOf(g, g.blocks / 64, gcRatio).capacity
  }

  /** User pages of one block. */
  function BlockPages(g: Geo): int {
    g.cpb * (g.ppc - 1)
  }

  lemma Unwrapped(n: nat)
    requires n < TWO32
    ensures n % TWO32 == n
  {}

  lemma GroupsFit(g: Geo, good: nat)
    requires Fits(g) && good < g.blocks
    ensures good * g.cpb <= good * g.cpb * g.ppc <= ChipSize(g) && good <= ChipSize(g)
  {
    MulLe(good, g.blocks, g.cpb);
    MulLe(good * g.cpb, g.blocks * g.cpb, g.ppc);
    Assoc(g.blocks, g.cpb, g.ppc);
    MulLe(1, g.ppc, good * g.cpb);
    MulLe(1, g.cpb, good);
  }

  /** The capacity of a journal that has met no bad block: the user pages of all blocks but one and
      those that the estimate takes for bad. */
  lemma CapacityIs(g: Geo, bbLast: nat)
    requires Fits(g) && bbLast < g.blocks
    ensures JournalCapacity(g, bbLast, 0) == (g.blocks - bbLast - 1) * BlockPages(g)
  {
    var good: nat := g.blocks - bbLast - 1;
    GroupsFit(g, good);
    SmallChip(g);
    Unwrapped(good);
    var checks: nat := good * g.cpb;
    Unwrapped(checks);
    hide ChipSize, Fits;
    assert checks * g.ppc - checks == checks * (g.ppc - 1);
    assert checks * (g.ppc - 1) == good * BlockPages(g);
    Unwrapped(checks * g.ppc - checks);
  }

  /** One block fewer than the chip has. */
  lemma CapacityBelow(g: Geo, bbLast: nat)
    requires Fits(g) && bbLast < g.blocks
    ensures JournalCapacity(g, bbLast, 0) == (g.blocks - bbLast - 1) * BlockPages(g) <= UserPages(g) - BlockPages(g)
  {
    CapacityIs(g, bbLast);
    BlocksOfPages(g);
    BlockPagesPositive(g);
    hide JournalCapacity, Fits, UserPages, BlockPages;
    var b := BlockPages(g);
    MulLe(g.blocks - bbLast - 1, g.blocks - 1, b);
    assert g.blocks * b == (g.blocks - 1) * b + b;
  }

  lemma BlocksOfPages(g: Geo)
    requires g.Ok()
    ensures UserPages(g) == g.blocks * BlockPages(g)
  {
    var n: nat := g.ppc - 1;
    assert g.blocks * g.cpb * n == g.blocks * (g.cpb * n);
  }

  lemma LimitsFit(g: Geo, bbLast: nat, gcRatio: nat)
    requires Fits(g) && bbLast < g.blocks && LimitsOf(g, bbLast, gcRatio).capacity > 0
    ensures LimitsOf(g, bbLast, gcRatio).Ok()
    ensures LimitsOf(g, bbLast, gcRatio).Bound() + g.ppc < UserPages(g) - BlockPages(g)
  {
    var cap := JournalCapacity(g, bbLast, 0);
    var k := gcRatio + 1;
    CapacityBelow(g, bbLast);
    Quotients(cap, k);
    MulLe(1, g.cpb, g.ppc);
    hide JournalCapacity, UserPages, BlockPages;
    assert 8 * Ppb(g) >= 8 * g.ppc;
  }

  lemma Quotients(a: nat, k: nat)
    requires k > 0
    ensures a < (a / k + 1) * k
  {}

  /** With a lower estimate of bad blocks the limits are looser. */
  lemma LimitsGrow(g: Geo, bbLast: nat, bbLast': nat, gcRatio: nat)
    requires Fits(g) && bbLast' <= bbLast < g.blocks && LimitsOf(g, bbLast, gcRatio).capacity > 0
    ensures var l, l' := LimitsOf(g, bbLast, gcRatio), LimitsOf(g, bbLast', gcRatio);
      l.capacity <= l'.capacity && l.reserve <= l'.reserve && l.steps == l'.steps
  {
    MoreCapacity(g, bbLast, bbLast');
    hide JournalCapacity, Fits;
    MoreRoom(JournalCapacity(g, bbLast, 0), JournalCapacity(g, bbLast', 0), gcRatio + 1);
  }

  lemma MoreCapacity(g: Geo, bbLast: nat, bbLast': nat)
    requires Fits(g) && bbLast' <= bbLast < g.blocks
    ensures JournalCapacity(g, bbLast, 0) <= JournalCapacity(g, bbLast', 0)
  {
    CapacityIs(g, bbLast);
    CapacityIs(g, bbLast');
    BlockPagesPositive(g);
    hide JournalCapacity, Fits, BlockPages;
    MulLe(g.blocks - bbLast - 1, g.blocks - bbLast' - 1, BlockPages(g));
  }

  lemma MoreRoom(a: nat, b: nat, k: nat)
    requires a <= b && k > 0
    ensures a / k <= b / k && a - a / k <= b - b / k
  {
    if a < b {
      MoreRoom(a, b - 1, k);
      var q, r := (b - 1) / k, (b - 1) % k;
      assert q * k + r == b - 1;
      if r + 1 < k {
        DivMod(q, k, r + 1);
      } else {
        assert b == (q + 1) * k;
        DivMod(q + 1, k, 0);
      }
    }
  }

  /** A queue that leaves a whole block free never brings the head up to the synchronised tail. */
  lemma RoomAhead(g: Geo, sync: Page, head: Page)
    requires Fits(g) && g.UserPage(sync) && g.UserPage(head)
    requires JournalSize(g, sync, head) < UserPages(g) - BlockPages(g)
    ensures NextClear(g, sync, head)
  {
    hide JournalSize, UserPages;
    var next := g.NextUpage(head);
    if SameBlock(next, sync) && !SameBlock(next, head) {
      SizeOrdinal(g, sync, head);
      OrdinalNext(g, head);
      OrdinalBelow(g, sync);
      OrdinalBelow(g, head);
      BlockOrdinal(g, sync);
      NextStartsBlock(g, head);
    }
  }

  lemma NextStartsBlock(g: Geo, head: Page)
    requires g.Ok() && g.UserPage(head)
    ensures var next := g.NextUpage(head); SameBlock(next, head) || next == FirstPage(next.blk)
  {}

  /** The ordinal of a page lies in the range of its block. */
  lemma BlockOrdinal(g: Geo, p: Page)
    requires g.Ok() && g.UserPage(p)
    ensures Ordinal(g, FirstPage(p.blk)) <= Ordinal(g, p) < Ordinal(g, FirstPage(p.blk)) + BlockPages(g)
  {
    MulLt(p.grp, g.cpb, g.ppc - 1);
    assert (p.blk * g.cpb + p.grp) * (g.ppc - 1) == p.blk * g.cpb * (g.ppc - 1) + p.grp * (g.ppc - 1);
  }

  // ---------------------------------------------------------------- what every operation keeps

  /** The running journal on a chip where nothing goes wrong: its pages are those of the abstract
      queue, which is within its limits, and so is the size counted from the synchronised tail, but
      for the pages written since the last checkpoint. */
  ghost predicate Counts(g: Geo, gcRatio: nat, bbLast: nat, bbCurrent: nat, sync: Page, tail: Page, head: Page,
                         root: Page, log: Log, mapped: set<Sector>, q: Space.Queue)
  {
    Fits(g) && g.UserPage(sync) && g.UserPage(head) && bbCurrent == 0 && bbLast <= g.blocks / 64 &&
    LimitsOf(g, bbLast, gcRatio).capacity > 0 &&
    Occupied(g, tail, head, root, log, mapped, q) && Space.Inv(LimitsOf(g, bbLast, gcRatio), q) &&
    JournalSize(g, sync, head) <= LimitsOf(g, bbLast, gcRatio).Bound() + head.idx
  }

  lemma Starts(g: Geo, gcRatio: nat, bbLast: nat, sync: Page, head: Page)
    requires Fits(g) && bbLast <= g.blocks / 64 && LimitsOf(g, bbLast, gcRatio).capacity > 0
    requires g.UserPage(head) && sync == head
    ensures Counts(g, gcRatio, bbLast, 0, sync, head, head, Page.None, map[], {}, Space.Start())
  {
    hide UserPages;
    WalkNone(g, head);
    OrdinalBelow(g, head);
  }

  /** There is room for the next page. */
  lemma CountsClear(g: Geo, gcRatio: nat, bbLast: nat, bbCurrent: nat, sync: Page, tail: Page, head: Page, root: Page,
                    log: Log, mapped: set<Sector>, q: Space.Queue)
    requires Counts(g, gcRatio, bbLast, bbCurrent, sync, tail, head, root, log, mapped, q)
    ensures NextClear(g, sync, head)
  {
    hide Occupied, Space.Inv, LimitsOf, JournalSize, UserPages, BlockPages;
    LimitsFit(g, bbLast, gcRatio);
    RoomAhead(g, sync, head);
  }

  /** How far the queue stays below the journal's capacity: by almost the whole safety margin, and
      counted from the synchronised tail by that less the group that is being filled. */
  lemma BelowCapacity(g: Geo, gcRatio: nat, bbLast: nat, bbCurrent: nat, sync: Page, tail: Page, head: Page, root: Page,
                      log: Log, mapped: set<Sector>, q: Space.Queue)
    requires Counts(g, gcRatio, bbLast, bbCurrent, sync, tail, head, root, log, mapped, q)
    ensures JournalSize(g, tail, head) <= JournalCapacity(g, bbLast, bbCurrent) - 8 * Ppb(g) + 1
    ensures JournalSize(g, sync, head) <= JournalCapacity(g, bbLast, bbCurrent) - 8 * Ppb(g) + g.ppc - 1
    ensures JournalSize(g, sync, head) < JournalCapacity(g, bbLast, bbCurrent)
  {
    hide Space.Inv, JournalSize, JournalCapacity, Newest, Walk, UserPages;
    WithinBound(LimitsOf(g, bbLast, gcRatio), q);
    LinedSize(g, tail, head, log, q.pages);
    MulLe(1, g.cpb, g.ppc);
  }

  /** The map's capacity never falls below what it was on the blank chip. */
  lemma AboveLeast(g: Geo, gcRatio: nat, bbLast: nat, bbCurrent: nat, sync: Page, tail: Page, head: Page, root: Page,
                   log: Log, mapped: set<Sector>, q: Space.Queue)
    requires Counts(g, gcRatio, bbLast, bbCurrent, sync, tail, head, root, log, mapped, q)
    ensures MapCapacity(g, JournalCapacity(g, bbLast, bbCurrent), gcRatio) >= LeastCapacity(g, gcRatio)
  {
    hide Occupied, Space.Inv, JournalSize, UserPages;
    if LeastCapacity(g, gcRatio) > 0 { LimitsGrow(g, g.blocks / 64, bbLast, gcRatio); }
  }

  lemma PushSize(g: Geo, sync: Page, head: Page)
    requires g.Ok() && g.UserPage(sync) && g.UserPage(head) && JournalSize(g, sync, head) + 1 < UserPages(g)
    ensures JournalSize(g, sync, g.NextUpage(head)) == JournalSize(g, sync, head) + 1
  {
    hide JournalSize, UserPages, Ordinal;
    OrdinalNext(g, head);
    OrdinalBelow(g, sync);
    OrdinalBelow(g, head);
    SizeOrdinal(g, sync, head);
    SizeOrdinal(g, sync, g.NextUpage(head));
  }

  /** The size after a page has joined; a checkpoint brings up the synchronised tail. */
  lemma SizeKept(g: Geo, bound: nat, sync: Page, tail: Page, head: Page, dirty: bool, bound': nat)
    requires g.Ok() && g.UserPage(sync) && g.UserPage(tail) && g.UserPage(head) && bound <= bound'
    requires JournalSize(g, sync, head) <= bound + head.idx && bound + g.ppc < UserPages(g) - BlockPages(g)
    requires dirty <==> !GroupStart(g.NextUpage(head))
    requires JournalSize(g, tail, g.NextUpage(head)) <= bound
    ensures JournalSize(g, if dirty then sync else tail, g.NextUpage(head)) <= bound' + g.NextUpage(head).idx
  {
    hide JournalSize, UserPages;
    MulLe(0, g.cpb, g.ppc - 1);
    PushSize(g, sync, head);
  }

  /** Limits at the same or a later time. */
  ghost predicate Later(bbLast: nat, bbLast': nat) {
    bbLast' == bbLast || bbLast' == 0
  }

  lemma LaterLimits(g: Geo, gcRatio: nat, bbLast: nat, bbLast': nat, o: Space.Queue, q: Space.Queue)
    requires Fits(g) && bbLast < g.blocks && LimitsOf(g, bbLast, gcRatio).capacity > 0 && Later(bbLast, bbLast')
    requires Space.Inv(LimitsOf(g, bbLast, gcRatio), q)
    ensures bbLast' < g.blocks && LimitsOf(g, bbLast', gcRatio).capacity > 0
    ensures Space.Inv(LimitsOf(g, bbLast', gcRatio), q)
    ensures LimitsOf(g, bbLast, gcRatio).Bound() <= LimitsOf(g, bbLast', gcRatio).Bound()
    ensures Space.CaughtUp(LimitsOf(g, bbLast, gcRatio), o, q) ==> Space.CaughtUp(LimitsOf(g, bbLast', gcRatio), o, q)
  {
    hide Space.Inv, Space.CaughtUp, LimitsOf;
    LimitsGrow(g, bbLast, bbLast', gcRatio);
    Space.Loosened(LimitsOf(g, bbLast, gcRatio), LimitsOf(g, bbLast', gcRatio), o, q);
  }

  /** A page joins the queue. */
  lemma CountsAppend(g: Geo, gcRatio: nat, bbLast: nat, bbLast': nat, o: State, n: State, dirty: bool, entry: Entry,
                     mapped: set<Sector>, mapped': set<Sector>, q0: Space.Queue, q: Space.Queue)
    requires Counts(g, gcRatio, bbLast, 0, o.tailSync, o.tail, o.head, o.root, o.log, mapped, q)
    requires Smooth(g, o, n, dirty) && n.log == o.log[o.head := entry] && o.head !in o.log && Later(bbLast, bbLast')
    requires TakesOver(Metas(o.log), o.root, Metas(n.log), o.head, SlotOf(entry.meta.id))
    requires Space.CaughtUp(LimitsOf(g, bbLast, gcRatio), q0, q)
    requires |mapped'| <= LimitsOf(g, bbLast, gcRatio).capacity && (mapped' != {} || q.pages == [])
    requires mapped' <= mapped + (if entry.meta.id == SECTOR_NONE then {} else {entry.meta.id})
    ensures var q' := Space.Append(LimitsOf(g, bbLast, gcRatio), q, SlotOf(entry.meta.id), mapped');
      Counts(g, gcRatio, bbLast', 0, n.tailSync, n.tail, n.head, n.root, n.log, mapped', q')
  {
    hide Space.Inv, Space.CaughtUp, LimitsOf, Newest, Lined, Walk, JournalSize, UserPages, TakesOver, BlockPages;
    var l := LimitsOf(g, bbLast, gcRatio);
    var slot := SlotOf(entry.meta.id);
    var q' := Space.Append(l, q, slot, mapped');
    LimitsFit(g, bbLast, gcRatio);
    Space.AppendKeeps(l, q0, q, slot, mapped');
    WithinBound(l, q);
    WithinBound(l, q');
    BlockPagesPositive(g);
    PushLined(g, o.tail, o.head, o.log, q.pages, entry, q'.pages[|q.pages|]);
    PushNewest(g, o.tail, o.head, o.root, o.log, q.pages, entry, q'.pages[|q.pages|]);
    LinedSize(g, n.tail, n.head, n.log, q'.pages);
    LaterLimits(g, gcRatio, bbLast, bbLast', q0, q');
    SizeKept(g, l.Bound(), o.tailSync, o.tail, o.head, dirty, LimitsOf(g, bbLast', gcRatio).Bound());
  }

  lemma BlockPagesPositive(g: Geo)
    requires g.Ok()
    ensures BlockPages(g) > 0
  {
    MulLe(1, g.cpb, g.ppc - 1);
  }

  lemma WithinBound(l: Space.Limits, q: Space.Queue)
    requires Space.Inv(l, q)
    ensures |q.pages| <= l.Bound() && |q.mapped| <= l.capacity
  {
    hide Space.PageOk;
  }

  /** The tail page leaves, to be dropped. */
  lemma CountsDrop(g: Geo, gcRatio: nat, bbLast: nat, sync: Page, tail: Page, head: Page, root: Page, log: Log,
                   view: View, q: Space.Queue, dirty: bool, bad: seq<bool>)
    requires Counts(g, gcRatio, bbLast, 0, sync, tail, head, root, log, view.Keys, q) && tail != head
    requires Maps(log, root, view) && !Live(Metas(log), root, tail) && Placed(g, bad, tail, head, log) &&
      Ring(g, sync, tail, head)
    ensures var tail' := g.NextUpage(tail);
      Counts(g, gcRatio, bbLast, 0, if dirty then sync else tail', tail', head,
        if root == tail then Page.None else root, log - {tail}, view.Keys, Space.Collect(q))
  {
    hide Space.Inv, LimitsOf, Newest, Lined, Walk, JournalSize, UserPages, Maps, Live, InWindow, Ring, Find, Placed;
    LinedSize(g, tail, head, log, q.pages);
    DeadIsNotTail(g, bad, tail, head, root, log, view, q);
    DequeueFinds(log, root, view, tail);
    PopLined(g, tail, head, log, q.pages);
    PopNewest(g, tail, log, root, log - {tail}, if root == tail then Page.None else root, q.pages);
    LinedSize(g, g.NextUpage(tail), head, log - {tail}, q.pages[1..]);
    Space.CollectKeeps(LimitsOf(g, bbLast, gcRatio), q);
    WithinBound(LimitsOf(g, bbLast, gcRatio), Space.Collect(q));
  }

  lemma DeadIsNotTail(g: Geo, bad: seq<bool>, tail: Page, head: Page, root: Page, log: Log, view: View, q: Space.Queue)
    requires Occupied(g, tail, head, root, log, view.Keys, q) && Maps(log, root, view) &&
      Placed(g, bad, tail, head, log)
    requires q.pages != [] && !Live(Metas(log), root, tail)
    ensures !Space.TailLive(q) && Space.Collect(q) == Space.Removed(q)
  {
    hide Maps, Live, InWindow, Find, Newest, Lined, Placed, Space.TailLive;
    TailIsLive(g, bad, tail, head, root, log, view, q);
    if Space.TailLive(q) {
      GoodOf(log, root, view);
      FindIsLive(Metas(log), root, log[tail].meta.id);
    }
  }

  /** The tail page leaves after it has been copied to the front. */
  lemma CountsCopy(g: Geo, gcRatio: nat, bbLast: nat, bbLast': nat, o: State, m: State, dirty: bool, entry: Entry,
                   view: View, q: Space.Queue)
    requires Counts(g, gcRatio, bbLast, 0, o.tailSync, o.tail, o.head, o.root, o.log, view.Keys, q) && o.tail != o.head
    requires Smooth(g, o, m, dirty) && m.log == o.log[o.head := entry] && o.head !in o.log && Later(bbLast, bbLast')
    requires TakesOver(Metas(o.log), o.root, Metas(m.log), o.head, SlotOf(entry.meta.id))
    requires Maps(o.log, o.root, view) && Maps(m.log, m.root, view) && Placed(g, o.bad, o.tail, o.head, o.log)
    requires o.tail in o.log && entry.meta.id == o.log[o.tail].meta.id != SECTOR_NONE
    requires Find(Metas(o.log), o.root, entry.meta.id) == o.tail && !Live(Metas(m.log), m.root, o.tail) &&
      m.root != o.tail
    ensures var tail' := g.NextUpage(o.tail);
      Counts(g, gcRatio, bbLast', 0, if dirty then o.tailSync else tail', tail', m.head, m.root, m.log - {o.tail},
        view.Keys, Space.Collect(q))
  {
    hide Space.Inv, LimitsOf, Newest, Lined, Walk, JournalSize, UserPages, TakesOver, BlockPages, Maps, Live, Find,
         Placed, Space.TailLive;
    var l := LimitsOf(g, bbLast, gcRatio);
    var q' := Space.Collect(q);
    LimitsFit(g, bbLast, gcRatio);
    LinedSize(g, o.tail, o.head, o.log, q.pages);
    TailIsLive(g, o.bad, o.tail, o.head, o.root, o.log, view, q);
    Space.CollectKeeps(l, q);
    WithinBound(l, q);
    WithinBound(l, q');
    BlockPagesPositive(g);
    CopiedSlot(q, o.log, o.tail, g, o.head);
    var e := q'.pages[|q.pages| - 1];
    PushLined(g, o.tail, o.head, o.log, q.pages, entry, e);
    PushNewest(g, o.tail, o.head, o.root, o.log, q.pages, entry, e);
    DequeueFinds(m.log, m.root, view, o.tail);
    PopLined(g, o.tail, m.head, m.log, q.pages + [e]);
    PopNewest(g, o.tail, m.log, m.root, m.log - {o.tail}, m.root, q.pages + [e]);
    assert (q.pages + [e])[1..] == q'.pages;
    LinedSize(g, g.NextUpage(o.tail), m.head, m.log - {o.tail}, q'.pages);
    LaterLimits(g, gcRatio, bbLast, bbLast', q, q');
    SizeKept(g, l.Bound(), o.tailSync, g.NextUpage(o.tail), o.head, dirty, LimitsOf(g, bbLast', gcRatio).Bound());
  }

  lemma CopiedSlot(q: Space.Queue, log: Log, tail: Page, g: Geo, head: Page)
    requires Lined(g, tail, head, log, q.pages) && q.pages != [] && Space.TailLive(q)
    ensures var q' := Space.Collect(q);
      |q'.pages| == |q.pages| && q'.pages == q.pages[1..] + [q'.pages[|q.pages| - 1]] &&
      tail in log && q'.pages[|q.pages| - 1].slot == SlotOf(log[tail].meta.id)
  {
    hide Walk, UserPages, Space.TailLive;
    WalkNone(g, tail);
    LinedAt(g, tail, head, log, q.pages, 0);
  }

  /** All pages leave. */
  lemma CountsEmpty(g: Geo, gcRatio: nat, bbLast: nat, sync: Page, tail: Page, head: Page, root: Page, log: Log,
                    mapped: set<Sector>, q: Space.Queue)
    requires Counts(g, gcRatio, bbLast, 0, sync, tail, head, root, log, mapped, q)
    ensures Counts(g, gcRatio, bbLast, 0, sync, head, head, Page.None, map[], {}, Space.Empty(q))
  {
    hide Space.Inv, LimitsOf, JournalSize, UserPages;
    Space.EmptyKeeps(LimitsOf(g, bbLast, gcRatio), q);
    WalkNone(g, head);
    OrdinalBelow(g, head);
  }

  // ---------------------------------------------------------------- steps of the map

  /** A page written with a traced path takes over its sector. */
  lemma WriteTakesOver(log: Log, root: Page, view: View, n: Page, t: Sector, d: PageData)
    requires Maps(log, root, view) && n.Page? && n !in log && t != SECTOR_NONE
    ensures TakesOver(Metas(log), root, Metas(log[n := Entry(WriteMeta(Metas(log), root, t), d)]), n, Space.Of(t))
  {
    hide Find, WriteMeta;
    GoodOf(log, root, view);
    var e := Entry(WriteMeta(Metas(log), root, t), d);
    MetasOf(log, n, e);
    WriteKeepsTree(Metas(log), root, n, t);
  }

  /** The tail page has been dealt with and leaves: it was dead, or has been rewritten. */
  lemma CountsCollect(g: Geo, pageSize: nat, fallible: bool, gcRatio: nat, last: nat, last': nat, s: State, m: State,
                      dirty: bool, view: View, q: Space.Queue)
    requires Counts(g, gcRatio, last, 0, s.tailSync, s.tail, s.head, s.root, s.log, view.Keys, q) && s.tail != s.head
    requires InvBase(g, pageSize, fallible, s) && !s.recovery && Maps(s.log, s.root, view) && Maps(m.log, m.root, view)
    requires !Live(Metas(m.log), m.root, s.tail)
    requires (m == s && last' == last) ||
      (s.tail in s.log && s.log[s.tail].meta.id in view &&
        Find(Metas(s.log), s.root, s.log[s.tail].meta.id) == s.tail &&
       Smooth(g, s, m, dirty) && Later(last, last') &&
       var t := s.log[s.tail].meta.id; Enqueued(s, m, Entry(WriteMeta(Metas(s.log), s.root, t), view[t])))
    ensures var tail' := g.NextUpage(s.tail);
      Counts(g, gcRatio, last', 0, if dirty then m.tailSync else tail', tail', m.head,
        if m.root == s.tail then Page.None else m.root, m.log - {s.tail}, view.Keys, Space.Collect(q))
  {
    hide Counts, Maps, Live, Find, Path, Readable, HeadReady, InWindow, Evacuating, DumpKept, RootLast, BadGrows;
    assert g.UserPage(s.tail);
    if m == s {
      CountsDrop(g, gcRatio, last, s.tailSync, s.tail, s.head, s.root, s.log, view, q, dirty, s.bad);
    } else {
      var t := s.log[s.tail].meta.id;
      MapsFind(s.log, s.root, view, t);
      WriteTakesOver(s.log, s.root, view, s.head, t, view[t]);
      CountsCopy(g, gcRatio, last, last', s, m, dirty, Entry(WriteMeta(Metas(s.log), s.root, t), view[t]), view, q);
    }
  }

  /** The queue has a tail page, and there is room at the head. */
  lemma CountsTail(g: Geo, pageSize: nat, fallible: bool, gcRatio: nat, last: nat, s: State, view: View, q: Space.Queue)
    requires Counts(g, gcRatio, last, 0, s.tailSync, s.tail, s.head, s.root, s.log, view.Keys, q)
    requires InvBase(g, pageSize, fallible, s) && Maps(s.log, s.root, view)
    ensures q.pages == [] <==> s.tail == s.head
    ensures s.tail != s.head ==> s.tail in s.log
    ensures NextClear(g, s.tailSync, s.head) && |q.pages| <= JournalSize(g, s.tailSync, s.head)
  {
    hide Maps, Find, Readable, Recovering, InWindow, Ring, JournalSize, LimitsOf, Space.Inv, Newest, Walk, UserPages;
    CountsClear(g, gcRatio, last, 0, s.tailSync, s.tail, s.head, s.root, s.log, view.Keys, q);
    LinedSize(g, s.tail, s.head, s.log, q.pages);
    RingSizes(g, s.tailSync, s.tail, s.head);
    if s.tail != s.head { TailIsLive(g, s.bad, s.tail, s.head, s.root, s.log, view, q); }
  }

  // ---------------------------------------------------------------- catching up

  /** After `i` collection steps. */
  ghost predicate CatchingUp(l: Space.Limits, q0: Space.Queue, q: Space.Queue, i: nat) {
    Space.SettledBy(l, q0, q) && Space.BaseOk(l, q0) && (|q.pages| <= l.capacity || q.removed >= q0.removed + i)
  }

  lemma CatchUpStart(l: Space.Limits, q: Space.Queue)
    requires Space.Inv(l, q)
    ensures CatchingUp(l, q, q, 0)
    ensures |q.pages| <= l.capacity ==> Space.CaughtUp(l, q, q)
  {
    hide Space.BaseOk, Space.PageOk;
    Space.SettledSelf(l, q);
  }

  /** One step more, while the limits may have become looser. */
  lemma CatchUpStep(g: Geo, gcRatio: nat, last: nat, last': nat, q0: Space.Queue, q: Space.Queue, q': Space.Queue,
                    i: nat)
    requires Fits(g) && last < g.blocks && LimitsOf(g, last, gcRatio).capacity > 0 && Later(last, last')
    requires Space.Inv(LimitsOf(g, last, gcRatio), q) && CatchingUp(LimitsOf(g, last, gcRatio), q0, q, i)
    requires q' == if q.mapped == {} then q else Space.Collect(q)
    ensures CatchingUp(LimitsOf(g, last', gcRatio), q0, q', i + 1)
  {
    hide LimitsOf, Space.Inv, Space.SettledBy, Space.TailLive;
    var l, l' := LimitsOf(g, last, gcRatio), LimitsOf(g, last', gcRatio);
    LimitsGrow(g, last, last', gcRatio);
    Space.SettledCollect(l, q0, q);
    SettledLater(l, l', q0, q');
    BaseOf(l, q);
    if q.pages != [] { Space.CollectBase(l, q); }
  }

  lemma BaseOf(l: Space.Limits, q: Space.Queue)
    requires Space.Inv(l, q)
    ensures Space.BaseOk(l, q)
  {
    hide Space.BaseOk, Space.PageOk;
  }

  lemma SettledLater(l: Space.Limits, l': Space.Limits, q0: Space.Queue, q: Space.Queue)
    requires l.steps == l'.steps && Space.SettledBy(l, q0, q)
    ensures Space.SettledBy(l', q0, q)
  {}

  lemma CaughtUpNow(l: Space.Limits, q0: Space.Queue, q: Space.Queue)
    requires CatchingUp(l, q0, q, l.steps)
    ensures Space.CaughtUp(l, q0, q)
  {
    hide Space.BaseOk, Space.SettledBy;
  }

  // ---------------------------------------------------------------- pages that join

  /** A page written for sector `t`. */
  lemma CountsWrite(g: Geo, gcRatio: nat, last: nat, last': nat, s: State, n: State, dirty: bool, view: View,
                    t: Sector, d: PageData, q0: Space.Queue, q: Space.Queue)
    requires Counts(g, gcRatio, last, 0, s.tailSync, s.tail, s.head, s.root, s.log, view.Keys, q)
    requires Maps(s.log, s.root, view) && t != SECTOR_NONE && !s.recovery && Later(last, last')
    requires Smooth(g, s, n, dirty) && Enqueued(s, n, Entry(WriteMeta(Metas(s.log), s.root, t), d))
    requires Space.CaughtUp(LimitsOf(g, last, gcRatio), q0, q)
    requires t in view || |view| < LimitsOf(g, last, gcRatio).capacity
    ensures Counts(g, gcRatio, last', 0, n.tailSync, n.tail, n.head, n.root, n.log, view[t := d].Keys,
                   Space.Append(LimitsOf(g, last, gcRatio), q, Space.Of(t), view[t := d].Keys))
  {
    hide Maps, Find, Path, LimitsOf, Space.Inv, Space.CaughtUp, Lined, Newest, JournalSize, BadGrows;
    WriteTakesOver(s.log, s.root, view, s.head, t, d);
    Space.Room(LimitsOf(g, last, gcRatio), q, t);
    assert view[t := d].Keys == q.mapped + {t};
    CountsAppend(g, gcRatio, last, last', s, n, dirty, Entry(WriteMeta(Metas(s.log), s.root, t), d), view.Keys,
      view[t := d].Keys, q0, q);
  }

  /** The cousin of sector `t` rewritten. */
  lemma CountsTrim(g: Geo, gcRatio: nat, last: nat, last': nat, s: State, n: State, dirty: bool, view: View,
                   t: Sector, level: nat, e: Entry, q0: Space.Queue, q: Space.Queue)
    requires Counts(g, gcRatio, last, 0, s.tailSync, s.tail, s.head, s.root, s.log, view.Keys, q)
    requires Maps(s.log, s.root, view) && t in view && !s.recovery && Later(last, last')
    requires CutLevel(Path(Metas(s.log), s.root, t), level)
    requires var cousin := Path(Metas(s.log), s.root, t)[level];
      cousin in s.log &&
      e == Entry(SpliceMeta(Path(Metas(s.log), s.root, t), level, s.log[cousin].meta), s.log[cousin].data)
    requires Smooth(g, s, n, dirty) && Enqueued(s, n, e)
    requires Space.CaughtUp(LimitsOf(g, last, gcRatio), q0, q)
    ensures Counts(g, gcRatio, last', 0, n.tailSync, n.tail, n.head, n.root, n.log, (view - {t}).Keys,
                   Space.Append(LimitsOf(g, last, gcRatio), q, SlotOf(e.meta.id), (view - {t}).Keys))
  {
    hide Maps, Find, Path, LimitsOf, Space.Inv, Space.CaughtUp, Lined, Newest, JournalSize, BadGrows, CutLevel;
    TrimTakesOver(s.log, s.root, view, s.head, t, level, e);
    WithinBound(LimitsOf(g, last, gcRatio), q);
    assert (view - {t}).Keys == q.mapped - {t};
    Space.Smaller(q.mapped - {t}, q.mapped);
    CountsAppend(g, gcRatio, last, last', s, n, dirty, e, view.Keys, (view - {t}).Keys, q0, q);
  }

  lemma TrimTakesOver(log: Log, root: Page, view: View, n: Page, t: Sector, level: nat, e: Entry)
    requires Maps(log, root, view) && n.Page? && n !in log && t in view
    requires CutLevel(Path(Metas(log), root, t), level)
    requires var cousin := Path(Metas(log), root, t)[level];
      cousin in log && e == Entry(SpliceMeta(Path(Metas(log), root, t), level, log[cousin].meta), log[cousin].data)
    ensures e.meta.id in view && e.meta.id != t && e.meta.id != SECTOR_NONE
    ensures TakesOver(Metas(log), root, Metas(log[n := e]), n, Space.Of(e.meta.id))
  {
    hide Find, Bit, Flip, Maps;
    GoodOf(log, root, view);
    var m := Metas(log);
    var cousin := Path(m, root, t)[level];
    assert cousin == Sibling(m, root, t, level);
    TrimKeepsTree(m, root, n, t, level);
    MetasOf(log, n, e);
    assert e.meta.id == m[cousin].id;
    MapsFind(log, root, view, e.meta.id);
  }

  /** Filler on an empty queue. */
  lemma CountsFill(g: Geo, gcRatio: nat, last: nat, last': nat, s: State, n: State, dirty: bool, view: View, e: Entry,
                   q: Space.Queue)
    requires Counts(g, gcRatio, last, 0, s.tailSync, s.tail, s.head, s.root, s.log, view.Keys, q)
    requires Maps(s.log, s.root, view) && Maps(n.log, n.root, view) && s.log == map[] && !s.recovery &&
      Later(last, last')
    requires q.pages == [] && e.meta.id == SECTOR_NONE && Smooth(g, s, n, dirty) && Enqueued(s, n, e)
    ensures Counts(g, gcRatio, last', 0, n.tailSync, n.tail, n.head, n.root, n.log, view.Keys,
                   Space.Append(LimitsOf(g, last, gcRatio), q, Space.Filler, view.Keys))
  {
    hide Maps, Find, LimitsOf, Lined, Newest, JournalSize, BadGrows;
    FillTakesOver(s, n, view, e);
    var l := LimitsOf(g, last, gcRatio);
    Space.SettledSelf(l, q);
    Space.TidyCaughtUp(l, q);
    CountsAppend(g, gcRatio, last, last', s, n, dirty, e, view.Keys, view.Keys, q, q);
  }

  lemma FillTakesOver(s: State, n: State, view: View, e: Entry)
    requires Maps(s.log, s.root, view) && Maps(n.log, n.root, view) && s.log == map[] && n.root.Page?
    ensures TakesOver(Metas(s.log), s.root, Metas(n.log), n.root, Space.Filler)
  {
    hide Maps, Find;
    forall u: Sector
      ensures Find(Metas(n.log), n.root, u) == Page.None
    {
      MapsFind(s.log, s.root, view, u);
      MapsFind(n.log, n.root, view, u);
    }
  }
}
