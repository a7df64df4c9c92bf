/** Page numbers as plain integers, the way the journal computes with them, and their agreement
    with page coordinates. */
module PageNumbers {
  import opened Arithmetic
  import opened BitStrings
  import opened Geometry

  const PAGE_NONE: nat := 0xffff_ffff

  /** Pages per block. */
  function Ppb(g: Geo): nat {
    g.ppc * g.cpb
  }

  function ChipSize(g: Geo): nat {
    g.blocks * Ppb(g)
  }

  /** The number of a page: block, group and index concatenated. */
  function Num(g: Geo, p: Page): nat {
    match p
    case None => PAGE_NONE
    case Page(blk, grp, idx) => (blk * g.cpb + grp) * g.ppc + idx
  }

  /** The chip is small enough for distances of page numbers to fit in 32 bits. */
  predicate Fits(g: Geo) {
    g.Ok() && ChipSize(g) < 0x8000_0000
  }

  lemma GroupLt(g: Geo, p: Page, q: Page)
    requires g.OnChip(p) && g.OnChip(q)
    requires p.blk < q.blk || (p.blk == q.blk && p.grp < q.grp)
    ensures p.blk * g.cpb + p.grp < q.blk * g.cpb + q.grp
  {
    if p.blk < q.blk {
      MulLt(p.blk, q.blk, g.cpb);
    }
  }

  /** Numbers order pages as coordinates do. */
  lemma NumOrder(g: Geo, p: Page, q: Page)
    requires g.OnChip(p) && g.OnChip(q) && Lt(p, q)
    ensures Num(g, p) < Num(g, q)
  {
    var a, b := p.blk * g.cpb + p.grp, q.blk * g.cpb + q.grp;
    if p.blk != q.blk || p.grp != q.grp {
      GroupLt(g, p, q);
      MulLt(a, b, g.ppc);
    }
  }

  lemma NumBelow(g: Geo, p: Page)
    requires g.OnChip(p)
    ensures Num(g, p) < ChipSize(g)
  {
    var a := p.blk * g.cpb + p.grp;
    MulLt(p.blk, g.blocks, g.cpb);
    assert a < g.blocks * g.cpb;
    MulLt(a, g.blocks * g.cpb, g.ppc);
    Assoc(g.blocks, g.cpb, g.ppc);
  }

  lemma Assoc(a: nat, b: nat, c: nat)
    ensures a * b * c == a * (c * b)
  {}

  // ---------------------------------------------------------------- alignment

  /** The parts of a page number. */
  lemma NumParts(g: Geo, p: Page)
    requires g.Ok() && g.OnChip(p)
    ensures Num(g, p) % g.ppc == p.idx && Num(g, p) / g.ppc == p.blk * g.cpb + p.grp
    ensures Ppb(g) > 0 && Num(g, p) % Ppb(g) == p.grp * g.ppc + p.idx && Num(g, p) / Ppb(g) == p.blk
  {
    DivMod(p.blk * g.cpb + p.grp, g.ppc, p.idx);
    MulLt(p.grp, g.cpb, g.ppc);
    assert Ppb(g) == g.cpb * g.ppc;
    assert (p.blk * g.cpb + p.grp) * g.ppc == p.blk * g.cpb * g.ppc + p.grp * g.ppc;
    Assoc(p.blk, g.cpb, g.ppc);
    DivMod(p.blk, Ppb(g), p.grp * g.ppc + p.idx);
  }

  predicate IsAligned(n: nat, unit: nat)
    requires unit > 0
  {
    n % unit == 0
  }

  /** The two numbers agree but for their offset inside a unit. */
  predicate AlignEq(a: nat, b: nat, unit: nat)
    requires unit > 0
  {
    a / unit == b / unit
  }

  lemma AlignedPages(g: Geo, p: Page)
    requires g.Ok() && g.OnChip(p)
    ensures IsAligned(Num(g, p), g.ppc) <==> GroupStart(p)
    ensures Ppb(g) > 0 && (IsAligned(Num(g, p), Ppb(g)) <==> BlockStart(p))
  {
    NumParts(g, p);
    if p.grp > 0 { MulLe(1, p.grp, g.ppc); }
  }

  lemma AlignEqPages(g: Geo, p: Page, q: Page)
    requires g.Ok() && g.OnChip(p) && g.OnChip(q)
    ensures AlignEq(Num(g, p), Num(g, q), g.ppc) <==> SameGroup(p, q)
    ensures Ppb(g) > 0 && (AlignEq(Num(g, p), Num(g, q), Ppb(g)) <==> SameBlock(p, q))
  {
    NumParts(g, p);
    NumParts(g, q);
    if p.blk != q.blk {
      MulLt(if p.blk < q.blk then p.blk else q.blk, if p.blk < q.blk then q.blk else p.blk, g.cpb);
    }
  }

  /** The next user page, computed on page numbers (32-bit arithmetic). */
  function NextNum(g: Geo, n: nat): nat
    requires g.Ok()
  {
    var up := (n + 1) % TWO32;
    var user := if IsAligned((up + 1) % TWO32, g.ppc) then (up + 1) % TWO32 else up;
    if user >= ChipSize(g) then 0 else user
  }

  lemma NextNumIsNext(g: Geo, p: Page)
    requires Fits(g) && g.UserPage(p)
    ensures NextNum(g, Num(g, p)) == Num(g, g.NextUpage(p))
  {
    hide Num, ChipSize, IsAligned, Fits;
    if p.idx + 2 < g.ppc { InGroupNum(g, p); } else { NextGroupNum(g, p); }
    NumBelow(g, p);
    SmallChip(g);
    FirstNum(g);
  }

  lemma FirstNum(g: Geo)
    ensures Num(g, FirstPage(0)) == 0
  {}

  lemma SmallChip(g: Geo)
    requires Fits(g)
    ensures g.Ok()
    ensures 0 <= ChipSize(g) < 0x8000_0000
  {}

  lemma InGroupNum(g: Geo, p: Page)
    requires Fits(g) && g.OnChip(p) && p.idx + 2 < g.ppc
    ensures !IsAligned(Num(g, p) + 2, g.ppc)
    ensures Num(g, p) + 1 == Num(g, Page(p.blk, p.grp, p.idx + 1)) < ChipSize(g)
  {
    var group := p.blk * g.cpb + p.grp;
    assert Num(g, p) + 2 == group * g.ppc + (p.idx + 2);
    DivMod(group, g.ppc, p.idx + 2);
    NumBelow(g, Page(p.blk, p.grp, p.idx + 1));
  }

  /** The number after a group's checkpoint page is that of the next group's first page. */
  lemma NextGroupNum(g: Geo, p: Page)
    requires Fits(g) && g.OnChip(p) && p.idx + 2 == g.ppc
    ensures IsAligned(Num(g, p) + 2, g.ppc)
    ensures if p.grp + 1 < g.cpb then Num(g, p) + 2 == Num(g, Page(p.blk, p.grp + 1, 0)) < ChipSize(g)
            else if p.blk + 1 < g.blocks then Num(g, p) + 2 == Num(g, FirstPage(p.blk + 1)) < ChipSize(g)
            else Num(g, p) + 2 == ChipSize(g)
  {
    var group := p.blk * g.cpb + p.grp;
    assert Num(g, p) + 2 == (group + 1) * g.ppc;
    DivMod(group + 1, g.ppc, 0);
    if p.grp + 1 < g.cpb {
      NumBelow(g, Page(p.blk, p.grp + 1, 0));
    } else {
      assert group + 1 == (p.blk + 1) * g.cpb;
      Assoc(p.blk + 1, g.cpb, g.ppc);
      if p.blk + 1 < g.blocks { NumBelow(g, FirstPage(p.blk + 1)); }
    }
  }

  /** The first page of the block of `p`.  For DHARA_PAGE_NONE the arithmetic gives the start of
      a block beyond the chip. */
  function BlockBase(g: Geo, p: Page): Page
    requires g.Ok()
  {
    match p
    case Page(blk, _, _) => FirstPage(blk)
    case None => FirstPage(PAGE_NONE / (g.ppc * g.cpb))
  }

  /** The step to the next user page, taken from a page beyond the chip too. */
  function Onward(g: Geo, p: Page): (r: Page)
    requires g.Ok()
    ensures g.UserPage(r)
  {
    if g.UserPage(p) then g.NextUpage(p) else FirstPage(0)
  }

  lemma OnwardIsNext(g: Geo, p: Page)
    requires Fits(g) && Ppb(g) > 0 && TWO32 % Ppb(g) == 0
    requires g.UserPage(p) || p == BlockBase(g, Page.None)
    ensures Num(g, Onward(g, p)) == NextNum(g, Num(g, p))
  {
    if g.UserPage(p) {
      NextNumIsNext(g, p);
    } else {
      BaseIs(g);
      var b := Ppb(g);
      assert NoneBase(g) >= TWO32 - b && ChipSize(g) >= b by { MulLe(1, g.blocks, b); }
    }
  }

  /** A recovery without a root begins beyond the chip. */
  lemma BaseIs(g: Geo)
    requires Fits(g) && Ppb(g) > 0
    ensures Num(g, BlockBase(g, Page.None)) == NoneBase(g) >= ChipSize(g)
  {
    var b := Ppb(g);
    var q := PAGE_NONE / b;
    Assoc(q, g.cpb, g.ppc);
    assert q * b + PAGE_NONE % b == PAGE_NONE;
    MulLe(2, g.blocks, b);
    SmallChip(g);
  }

  /** The page that the `k`-th round of a recovery without a root handles. */
  function EnumeratedPage(g: Geo, k: nat): (r: Page)
    requires g.Ok()
    ensures k > 0 ==> g.UserPage(r)
  {
    if k == 0 then BlockBase(g, Page.None) else Onward(g, EnumeratedPage(g, k - 1))
  }

  lemma {:induction false} EnumeratedIs(g: Geo, k: nat)
    requires Fits(g) && Ppb(g) > 0 && TWO32 % Ppb(g) == 0
    ensures Num(g, EnumeratedPage(g, k)) == Enumerated(g, k)
  {
    if k == 0 {
      BaseIs(g);
    } else {
      EnumeratedIs(g, k - 1);
      OnwardIsNext(g, EnumeratedPage(g, k - 1));
    }
  }

  /** Where a recovery without a root begins: the start of the block that DHARA_PAGE_NONE would be
      in. */
  function NoneBase(g: Geo): nat
    requires g.Ok() && Ppb(g) > 0
  {
    PAGE_NONE - PAGE_NONE % Ppb(g)
  }

  /** The `k`-th page enumerated by a recovery without a root. */
  function Enumerated(g: Geo, k: nat): nat
    requires g.Ok() && Ppb(g) > 0
  {
    if k == 0 then NoneBase(g) else NextNum(g, Enumerated(g, k - 1))
  }

  /** A recovery without a root never comes to its end, which is when the page enumerated is the
      root. */
  lemma {:induction false} EnumerationNeverEnds(g: Geo, k: nat)
    requires Fits(g) && TWO32 % Ppb(g) == 0 && Ppb(g) > 1
    ensures Enumerated(g, k) != PAGE_NONE
    ensures k > 0 ==> Enumerated(g, k) < ChipSize(g)
  {
    if k == 0 {
      var b := Ppb(g);
      var q := TWO32 / b;
      assert TWO32 == q * b && q > 0;
      assert PAGE_NONE == (q - 1) * b + (b - 1);
      DivMod(q - 1, b, b - 1);
    } else {
      EnumerationNeverEnds(g, k - 1);
    }
  }

  function Wrap(a: nat, b: nat): nat {
    if a >= b then a - b else a
  }

  /** The test by which a dequeue notices that the root has left the journal: distances back from
      the head, in 32-bit arithmetic. */
  predicate RootGone(g: Geo, head: Page, tail: Page, root: Page)
    requires Fits(g) && g.OnChip(head) && g.OnChip(tail) && (root == Page.None || g.OnChip(root))
  {
    NumBelow(g, tail);
    if root == Page.None then
      Wrap((Num(g, head) + ChipSize(g) + 0x1_0000_0000 - PAGE_NONE) % 0x1_0000_0000, ChipSize(g))
        > Wrap(Num(g, head) + ChipSize(g) - Num(g, tail), ChipSize(g))
    else
      NumBelow(g, root);
      Wrap(Num(g, head) + ChipSize(g) - Num(g, root), ChipSize(g))
        > Wrap(Num(g, head) + ChipSize(g) - Num(g, tail), ChipSize(g))
  }

  /** The test is exact: the root has left if and only if it was the page dequeued. */
  lemma RootGoneIsTail(g: Geo, sync: Page, tail: Page, head: Page, root: Page)
    requires Fits(g) && Ring(g, sync, tail, head) && tail != head
    requires g.UserPage(root) && InWindow(tail, root, head)
    ensures RootGone(g, head, g.NextUpage(tail), root) <==> root == tail
  {
    var next := g.NextUpage(tail);
    AdvanceTailKeeps(g, sync, tail, head, root);
    AdvanceTail(g, sync, tail, head);
    NumBelow(g, root);
    NumBelow(g, next);
    NumBelow(g, head);
    if root != head { NumTrichotomy(g, root, head); }
    if next != head { NumTrichotomy(g, next, head); }
    if root != next { NumTrichotomy(g, root, next); }
  }

  lemma NumTrichotomy(g: Geo, p: Page, q: Page)
    requires g.OnChip(p) && g.OnChip(q) && p != q
    ensures Lt(p, q) <==> Num(g, p) < Num(g, q)
    ensures Lt(q, p) <==> Num(g, q) < Num(g, p)
    ensures Lt(p, q) || Lt(q, p)
  {
    if Lt(p, q) {
      NumOrder(g, p, q);
    } else {
      NumOrder(g, q, p);
    }
  }

  // ---------------------------------------------------------------- sizes

  const TWO32: nat := 0x1_0000_0000

  /** The number of user pages from `sync` to `head`, computed from raw pages and checkpoint
      pages. */
  function JournalSize(g: Geo, sync: Page, head: Page): int
    requires g.Ok()
  {
    var wraps := Num(g, head) < Num(g, sync);
    var pages := Num(g, head) + (if wraps then ChipSize(g) else 0) - Num(g, sync);
    var checks := Num(g, head) / g.ppc + (if wraps then ChipSize(g) / g.ppc else 0) - Num(g, sync) / g.ppc;
    pages - checks
  }

  /** How many user pages of the chip come before `p`. */
  function Ordinal(g: Geo, p: Page): int {
    match p
    case None => 0
    case Page(blk, grp, idx) => (blk * g.cpb + grp) * (g.ppc - 1) + idx
  }

  /** The user page `k` steps on from `p`. */
  function Walk(g: Geo, p: Page, k: nat): (r: Page)
    requires g.Ok() && g.UserPage(p)
    ensures g.UserPage(r)
  {
    if k == 0 then p else g.NextUpage(Walk(g, p, k - 1))
  }

  /** The number of user pages of the chip. */
  function UserPages(g: Geo): int {
    g.blocks * g.cpb * (g.ppc - 1)
  }

  lemma OrdinalBelow(g: Geo, p: Page)
    requires g.Ok() && g.UserPage(p)
    ensures 0 <= Ordinal(g, p) < UserPages(g)
  {
    var a := p.blk * g.cpb + p.grp;
    MulLt(p.blk, g.blocks, g.cpb);
    MulLt(a, g.blocks * g.cpb, g.ppc - 1);
  }

  lemma OrdinalInjective(g: Geo, p: Page, q: Page)
    requires g.Ok() && g.UserPage(p) && g.UserPage(q) && Ordinal(g, p) == Ordinal(g, q)
    ensures p == q
  {
    var a, b := p.blk * g.cpb + p.grp, q.blk * g.cpb + q.grp;
    DivMod(a, g.ppc - 1, p.idx);
    DivMod(b, g.ppc - 1, q.idx);
    DivMod(p.blk, g.cpb, p.grp);
    DivMod(q.blk, g.cpb, q.grp);
  }

  lemma OrdinalNext(g: Geo, p: Page)
    requires g.Ok() && g.UserPage(p)
    ensures Ordinal(g, g.NextUpage(p)) == if Ordinal(g, p) + 1 == UserPages(g) then 0 else Ordinal(g, p) + 1
  {
    OrdinalBelow(g, p);
    OrdinalBelow(g, g.NextUpage(p));
    var a := p.blk * g.cpb + p.grp;
    if p.idx + 2 >= g.ppc {
      assert (a + 1) * (g.ppc - 1) == a * (g.ppc - 1) + (g.ppc - 1);
      if p.grp + 1 == g.cpb {
        assert a + 1 == (p.blk + 1) * g.cpb;
      }
    }
  }

  lemma {:induction false} WalkOrdinal(g: Geo, p: Page, k: nat)
    requires g.Ok() && g.UserPage(p) && k <= UserPages(g)
    ensures Ordinal(g, Walk(g, p, k)) ==
      if Ordinal(g, p) + k < UserPages(g) then Ordinal(g, p) + k else Ordinal(g, p) + k - UserPages(g)
  {
    OrdinalBelow(g, p);
    if k > 0 {
      WalkOrdinal(g, p, k - 1);
      OrdinalNext(g, Walk(g, p, k - 1));
    }
  }

  lemma NumOrdinal(g: Geo, p: Page)
    requires g.Ok() && g.OnChip(p)
    ensures Num(g, p) - Num(g, p) / g.ppc == Ordinal(g, p)
  {
    NumParts(g, p);
    var a := p.blk * g.cpb + p.grp;
    assert a * g.ppc - a == a * (g.ppc - 1);
  }

  /** The size computed from page numbers is the number of steps from the synchronised tail to the
      head. */
  lemma JournalSizeIsSteps(g: Geo, sync: Page, head: Page)
    requires g.Ok() && g.UserPage(sync) && g.UserPage(head)
    ensures 0 <= JournalSize(g, sync, head) < UserPages(g)
    ensures Walk(g, sync, JournalSize(g, sync, head)) == head
    ensures forall k: nat :: k < JournalSize(g, sync, head) ==> Walk(g, sync, k) != head
  {
    SizeOrdinal(g, sync, head);
    hide JournalSize, Ordinal, UserPages;
    OrdinalBelow(g, sync);
    OrdinalBelow(g, head);
    var n := JournalSize(g, sync, head);
    WalkOrdinal(g, sync, n);
    OrdinalInjective(g, Walk(g, sync, n), head);
    forall k: nat | k < n
      ensures Walk(g, sync, k) != head
    {
      WalkOrdinal(g, sync, k);
    }
  }

  lemma SizeOrdinal(g: Geo, sync: Page, head: Page)
    requires g.Ok() && g.UserPage(sync) && g.UserPage(head)
    ensures JournalSize(g, sync, head) ==
      Ordinal(g, head) - Ordinal(g, sync) + if Ordinal(g, head) < Ordinal(g, sync) then UserPages(g) else 0
  {
    hide Ordinal, Num, UserPages, ChipSize;
    NumOrdinal(g, sync);
    NumOrdinal(g, head);
    ChipParts(g);
    if sync != head {
      NumTrichotomy(g, sync, head);
      OrdinalOrder(g, head, sync);
    }
  }

  lemma ChipParts(g: Geo)
    requires g.Ok()
    ensures ChipSize(g) / g.ppc == g.blocks * g.cpb && ChipSize(g) - ChipSize(g) / g.ppc == UserPages(g)
  {
    Assoc(g.blocks, g.cpb, g.ppc);
    DivMod(g.blocks * g.cpb, g.ppc, 0);
    var a := g.blocks * g.cpb;
    assert a * g.ppc - a == a * (g.ppc - 1);
  }

  lemma OrdinalOrder(g: Geo, p: Page, q: Page)
    requires g.Ok() && g.UserPage(p) && g.UserPage(q) && p != q
    ensures Lt(p, q) <==> Ordinal(g, p) < Ordinal(g, q)
  {
    var x, y := if Lt(p, q) then p else q, if Lt(p, q) then q else p;
    var a, b := x.blk * g.cpb + x.grp, y.blk * g.cpb + y.grp;
    if x.blk != y.blk || x.grp != y.grp {
      GroupLt(g, x, y);
      MulLt(a, b, g.ppc - 1);
    }
  }

  /** How many user pages fit, given the estimate of bad blocks (32-bit arithmetic). */
  function JournalCapacity(g: Geo, bbLast: nat, bbCurrent: nat): nat {
    var maxBad := if bbLast > bbCurrent then bbLast else bbCurrent;
    var goodBlocks := (g.blocks - maxBad - 1) % TWO32;
    var goodChecks := (goodBlocks * g.cpb) % TWO32;
    (goodChecks * g.ppc - goodChecks) % TWO32
  }

  /** How many sectors fit, after the reserve for collection and the safety margin. */
  function MapCapacity(g: Geo, capacity: nat, gcRatio: nat): nat {
    var reserve := capacity / (gcRatio + 1);
    var margin := 8 * Ppb(g);
    if reserve + margin >= capacity then 0 else capacity - reserve - margin
  }

  // ---------------------------------------------------------------- the checkpoint period

  const HEADER_SIZE: nat := 16
  const COOKIE_SIZE: nat := 4
  const META_SIZE: nat := 132

  /** A page has room for the header, the cookie and the metadata of a group of 2^ppc pages. */
  predicate MetaFits(log2PageSize: nat, ppc: nat) {
    HEADER_SIZE + COOKIE_SIZE + META_SIZE * (Pow2(ppc) - 1) <= Pow2(log2PageSize)
  }

  lemma {:induction false} MetaFitsBelow(log2PageSize: nat, ppc: nat, k: nat)
    requires MetaFits(log2PageSize, k) && ppc <= k
    ensures MetaFits(log2PageSize, ppc)
  {
    if ppc < k { MetaFitsBelow(log2PageSize, ppc, k - 1); }
  }

  /** The binary logarithm of the checkpoint period: the largest that fits, up to `max`.  It is 1
      even where nothing fits. */
  method ChoosePpc(log2PageSize: nat, max: nat) returns (ppc: nat)
    ensures 1 <= ppc && (max >= 1 ==> ppc <= max) && (ppc == 1 || MetaFits(log2PageSize, ppc))
    ensures forall k: nat :: 1 < k <= max && MetaFits(log2PageSize, k) ==> k <= ppc
  {
    var maxMeta := Pow2(log2PageSize) - HEADER_SIZE - COOKIE_SIZE;
    var totalMeta := META_SIZE;
    ppc := 1;
    while ppc < max
      invariant 1 <= ppc && (max >= 1 ==> ppc <= max) && (ppc == 1 || MetaFits(log2PageSize, ppc))
      invariant totalMeta == META_SIZE * (Pow2(ppc) - 1)
    {
      totalMeta := 2 * totalMeta + META_SIZE;
      if totalMeta > maxMeta {
        forall k: nat | 1 < k <= max && MetaFits(log2PageSize, k)
          ensures k <= ppc
        {
          if k > ppc { MetaFitsBelow(log2PageSize, ppc + 1, k); }
        }
        return;
      }
      ppc := ppc + 1;
    }
  }
}
