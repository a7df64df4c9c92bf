/** Page addresses and the order of user pages around the chip.

    A page number is the concatenation, in binary, of a block number, the number of a
    checkpoint group inside the block and the number of a page inside the group.  Pages are
    kept here as those three coordinates; module PageNumbers proves that every helper agrees
    with the arithmetic done on plain page numbers. */
module Geometry {
  /** `None` is DHARA_PAGE_NONE. */
  datatype Page = None | Page(blk: nat, grp: nat, idx: nat)

  /** ppc: pages per checkpoint group; cpb: groups per block. */
  datatype Geo = Geo(ppc: nat, cpb: nat, blocks: nat) {
    /** At least two blocks, and at least two user pages in every block. */
    predicate Ok() {
      ppc >= 2 && cpb >= 1 && (ppc > 2 || cpb > 1) && blocks >= 2
    }

    predicate OnChip(p: Page) {
      p.Page? && p.blk < blocks && p.grp < cpb && p.idx < ppc
    }

    /** User pages are all but the last page of each group. */
    predicate UserPage(p: Page) {
      OnChip(p) && p.idx + 1 < ppc
    }

    /** The page that holds the metadata of the group of `p`. */
    function CheckPage(p: Page): (r: Page)
      ensures Ok() && OnChip(p) ==> OnChip(r) && SameGroup(p, r) && !UserPage(r)
    {
      if p.Page? && ppc > 0 then Page(p.blk, p.grp, ppc - 1) else Page.None
    }

    function NextBlock(blk: nat): nat {
      if blk + 1 >= blocks then 0 else blk + 1
    }

    /** The next user page around the chip. */
    function NextUpage(p: Page): (r: Page)
      requires Ok() && UserPage(p)
      ensures UserPage(r)
    {
      if p.idx + 2 < ppc then Page(p.blk, p.grp, p.idx + 1)
      else if p.grp + 1 < cpb then Page(p.blk, p.grp + 1, 0)
      else Page(NextBlock(p.blk), 0, 0)
    }

    /** All pages of the chip. */
    ghost predicate Covers<T>(m: map<Page, T>) {
      forall p :: p in m <==> OnChip(p)
    }
  }

  predicate SameBlock(a: Page, b: Page) {
    a.Page? && b.Page? && a.blk == b.blk
  }

  predicate SameGroup(a: Page, b: Page) {
    SameBlock(a, b) && a.grp == b.grp
  }

  predicate BlockStart(p: Page) {
    p.Page? && p.grp == 0 && p.idx == 0
  }

  predicate GroupStart(p: Page) {
    p.Page? && p.idx == 0
  }

  function FirstPage(blk: nat): Page {
    Page(blk, 0, 0)
  }

  /** Address order on the chip. */
  predicate Lt(a: Page, b: Page) {
    a.Page? && b.Page? &&
    (a.blk < b.blk || (a.blk == b.blk && (a.grp < b.grp || (a.grp == b.grp && a.idx < b.idx))))
  }

  predicate Le(a: Page, b: Page) {
    a == b || Lt(a, b)
  }

  /** `p` lies in the part of the ring that starts at `from` and stops just before `to`. */
  predicate InWindow(from: Page, p: Page, to: Page) {
    if Le(from, to) then Le(from, p) && Lt(p, to) else Le(from, p) || Lt(p, to)
  }

  /** The ring invariant: head, tail and synchronised tail are user pages, the tail lies between
      the other two, and the head never comes up from behind into the block of the
      synchronised tail. */
  ghost predicate Ring(g: Geo, sync: Page, tail: Page, head: Page) {
    g.UserPage(sync) && g.UserPage(tail) && g.UserPage(head) &&
    (head.blk == sync.blk ==> Le(sync, head)) &&
    (tail == head || InWindow(sync, tail, head))
  }

  // ---------------------------------------------------------------- moving along the ring

  lemma SubWindow(g: Geo, sync: Page, tail: Page, head: Page, p: Page)
    requires Ring(g, sync, tail, head) && g.OnChip(p) && InWindow(tail, p, head)
    ensures InWindow(sync, p, head)
  {}

  lemma SyncTail(g: Geo, sync: Page, tail: Page, head: Page)
    requires Ring(g, sync, tail, head)
    ensures Ring(g, tail, tail, head)
  {}

  /** A head at the start of a block leaves no page of the window in that block. */
  lemma FreshBlock(g: Geo, sync: Page, tail: Page, head: Page, p: Page)
    requires Ring(g, sync, tail, head) && BlockStart(head)
    requires g.OnChip(p) && InWindow(sync, p, head)
    ensures p.blk != head.blk
  {}

  /** Pages of the window that share the head's block lie below the head. */
  lemma BehindHead(g: Geo, sync: Page, tail: Page, head: Page, p: Page)
    requires Ring(g, sync, tail, head) && g.OnChip(p) && InWindow(sync, p, head) && p.blk == head.blk
    ensures Lt(p, head)
  {}

  lemma AdvanceHead(g: Geo, sync: Page, tail: Page, head: Page, next: Page)
    requires g.Ok() && Ring(g, sync, tail, head)
    requires next == g.NextUpage(head) || next == FirstPage(g.NextBlock(head.blk))
    requires next.blk == sync.blk ==> next.blk == head.blk
    requires SameBlock(next, head) ==> next == g.NextUpage(head)
    ensures Ring(g, sync, tail, next)
    ensures InWindow(sync, head, next) && InWindow(tail, head, next)
  {}

  lemma AdvanceKeeps(g: Geo, sync: Page, tail: Page, head: Page, next: Page, p: Page)
    requires g.Ok() && Ring(g, sync, tail, head)
    requires next == g.NextUpage(head) || next == FirstPage(g.NextBlock(head.blk))
    requires next.blk == sync.blk ==> next.blk == head.blk
    requires SameBlock(next, head) ==> next == g.NextUpage(head)
    requires g.OnChip(p)
    ensures InWindow(sync, p, head) ==> InWindow(sync, p, next)
    ensures InWindow(tail, p, head) ==> InWindow(tail, p, next)
  {}

  lemma AdvanceTail(g: Geo, sync: Page, tail: Page, head: Page)
    requires g.Ok() && Ring(g, sync, tail, head) && tail != head
    ensures Ring(g, sync, g.NextUpage(tail), head)
  {}

  lemma AdvanceTailKeeps(g: Geo, sync: Page, tail: Page, head: Page, p: Page)
    requires g.Ok() && Ring(g, sync, tail, head) && tail != head
    requires g.UserPage(p)
    ensures InWindow(g.NextUpage(tail), p, head) <==> InWindow(tail, p, head) && p != tail
  {}

  lemma SkipTailBlock(g: Geo, sync: Page, tail: Page, head: Page)
    requires g.Ok() && Ring(g, sync, tail, head) && BlockStart(tail) && tail.blk != head.blk
    ensures Ring(g, sync, FirstPage(g.NextBlock(tail.blk)), head)
  {}

  lemma SkipTailBlockKeeps(g: Geo, sync: Page, tail: Page, head: Page, p: Page)
    requires g.Ok() && Ring(g, sync, tail, head) && BlockStart(tail) && tail.blk != head.blk
    requires g.UserPage(p)
    ensures InWindow(FirstPage(g.NextBlock(tail.blk)), p, head)
       <==> InWindow(tail, p, head) && p.blk != tail.blk
  {}
}
