/** What a resume finds on the chip, and why it is the last checkpoint. */
module Resumption {
  import opened Geometry
  import opened Tree
  import opened Nand
  import opened JournalState
  import opened Durability

  /** No checkpoint of epoch `epoch` can be read from the checkpoint page of the group. */
  ghost predicate NoRoot(g: Geo, cell: Image, blk: nat, grp: nat, epoch: nat) {
    var p := g.CheckPage(Page(blk, grp, 0));
    p in cell && !(cell[p].Check? && cell[p].buf.magic && cell[p].buf.epoch == epoch)
  }

  /** `grp` is the last group in use of block `blk`, or the first group if none is. */
  ghost predicate LastUsed(g: Geo, cell: Image, blk: nat, grp: nat) {
    grp < g.cpb && (grp > 0 ==> !FreeGroup(g, cell, blk, grp)) &&
    forall b: nat :: grp < b < g.cpb ==> FreeGroup(g, cell, blk, b)
  }

  /** What a search for a marked block from `mid` on tells about the last mark of the epoch. */
  lemma MarkSearch(g: Geo, bad: seq<bool>, cell: Image, last: nat, epoch: nat, mid: nat, ok: bool, found: nat)
    requires Epochs(g, bad, cell, last, epoch)
    requires forall b: nat :: mid <= b < (if ok then found else mid + 8) ==> !Marked(g, bad, cell, b)
    requires ok ==> Marked(g, bad, cell, found) && mid <= found < mid + 8
    ensures mid <= last <==> ok && EpochIs(g, cell, found, epoch)
    ensures mid <= last ==> found <= last
  {
    if mid <= last { assert NextMark(g, bad, cell, mid, last); }
  }

  /** What the search from block 0 on tells. */
  lemma FirstFound(g: Geo, pageSize: nat, bad: seq<bool>, cell: Image, ck: Checkpoint, ok: bool, found: nat)
    requires Resumable(g, pageSize, bad, cell, ck)
    requires forall b: nat :: b < (if ok then found else 8) ==> !Marked(g, bad, cell, b)
    requires ok ==> Marked(g, bad, cell, found) && found < 8
    ensures ok <==> ck.Checkpoint?
    ensures ok ==> ck.root.Page?
    ensures ok ==> Epochs(g, bad, cell, ck.root.blk, ck.buf.epoch) && EpochIs(g, cell, found, ck.buf.epoch)
    ensures ok ==> found <= ck.root.blk < g.blocks && Groups(g, cell, ck.root.blk, ck.root.grp)
  {
    hide Epochs, Groups, Full, LogKept, ChecksOk, Marked;
    if ck.Checkpoint? {
      MarkSearch(g, bad, cell, ck.root.blk, ck.buf.epoch, 0, ok, found);
    }
  }

  lemma GroupsOrdered(g: Geo, cell: Image, blk: nat, grp: nat)
    requires Groups(g, cell, blk, grp)
    ensures forall a: nat, b: nat :: a < b < g.cpb && !FreeGroup(g, cell, blk, b) ==> !FreeGroup(g, cell, blk, a)
  {
    hide FreeGroup;
  }

  /** The checkpoint found from the last group in use down is the last one. */
  lemma RootFound(g: Geo, pageSize: nat, bad: seq<bool>, cell: Image, ck: Checkpoint, grp: nat, ok: bool, root: Page,
                  buf: Buffer)
    requires Resumable(g, pageSize, bad, cell, ck) && ck.Checkpoint? && LastUsed(g, cell, ck.root.blk, grp)
    requires ok ==> root.Page? && root.blk == ck.root.blk && root.grp <= grp && root.idx + 2 == g.ppc
    requires ok ==> g.CheckPage(root) in cell && cell[g.CheckPage(root)] == Check(buf)
    requires forall i: nat :: (if ok then root.grp + 1 else 0) <= i <= grp ==>
      NoRoot(g, cell, ck.root.blk, i, ck.buf.epoch)
    ensures ok && root == ck.root && buf == ck.buf && !FreeGroup(g, cell, ck.root.blk, grp)
  {
    hide Marks, Full, LogKept, ChecksOk, Marked;
    var check := g.CheckPage(ck.root);
    assert check == g.CheckPage(Page(ck.root.blk, ck.root.grp, 0));
    assert g.OnChip(check) && cell[check] != Erased && !FreeGroup(g, cell, ck.root.blk, ck.root.grp);
    assert ck.root.grp <= grp;
    assert !NoRoot(g, cell, ck.root.blk, ck.root.grp, ck.buf.epoch);
    assert ok ==> g.CheckPage(root) == g.CheckPage(Page(root.blk, root.grp, 0));
  }

  /** Where writing goes on in block `blk`, whose last group in use is `grp`: on the erased pages
      at the end of that group if there is room for a user page and its checkpoint page, or in the
      next group, or at the start of the next block. */
  ghost predicate HeadFound(g: Geo, cell: Image, blk: nat, grp: nat, head: Page) {
    g.UserPage(head) &&
    if head.blk == blk && head.grp == grp then
      forall p: Page :: g.OnChip(p) && SameGroup(p, head) && head.idx <= p.idx ==> p in cell && cell[p] == Erased
    else
      Spent(g, cell, blk, grp) &&
      head == if grp + 1 < g.cpb then Page(blk, grp + 1, 0) else FirstPage(g.NextBlock(blk))
  }

  /** One of the last two pages of the group is in use. */
  ghost predicate Spent(g: Geo, cell: Image, blk: nat, grp: nat) {
    exists p :: g.OnChip(p) && p.blk == blk && p.grp == grp && p.idx + 2 >= g.ppc && p in cell && cell[p] != Erased
  }

  /** The group after the last one in use is where the head goes if it gets that far. */
  lemma NextFree(g: Geo, cell: Image, blk: nat, grp: nat)
    requires g.Ok() && g.Covers(cell) && blk < g.blocks && LastUsed(g, cell, blk, grp) && grp + 1 < g.cpb
    ensures !Spent(g, cell, blk, grp + 1) && FreeGroup(g, cell, blk, grp + 1)
  {}

  /** The tail moves on if the head has come up to its block. */
  function TailAfter(g: Geo, head: Page, tail: Page): Page {
    if BlockStart(head) && SameBlock(head, tail) then FirstPage(g.NextBlock(tail.blk)) else tail
  }

  /** The epoch once the head has moved to page `head`. */
  function EpochAt(head: Page, epoch: nat): nat {
    if head == FirstPage(0) then (epoch + 1) % 256 else epoch
  }

  ghost predicate UsedGroups(g: Geo, cell: Image, blk: nat, from: nat, to: nat) {
    forall a: nat :: from <= a < to ==> !FreeGroup(g, cell, blk, a)
  }

  /** With a single user page per group: the head is on the first free group from page `start` on in the
      block of that page or, if there is none, at the start of the next block, where the tail gives
      way. */
  ghost predicate FirstFree(g: Geo, cell: Image, start: Page, tail0: Page, epoch0: nat, head: Page, tail: Page,
                            epoch: nat)
  {
    start.Page? && head.Page? && head.idx == 0 &&
    if head.blk == start.blk then
      start.grp <= head.grp < g.cpb && FreeGroup(g, cell, head.blk, head.grp) &&
      UsedGroups(g, cell, start.blk, start.grp, head.grp) && tail == tail0 && epoch == epoch0
    else
      UsedGroups(g, cell, start.blk, start.grp, g.cpb) && head == FirstPage(g.NextBlock(start.blk)) &&
      tail == TailAfter(g, head, tail0) && epoch == EpochAt(head, epoch0)
  }

  /** What a search with a single user page per group finds after group `grp` of block `blk`. */
  ghost predicate SingleFound(g: Geo, cell: Image, blk: nat, grp: nat, tail0: Page, epoch0: nat, head: Page, tail: Page,
                              epoch: nat)
    requires g.Ok() && blk < g.blocks && grp < g.cpb
  {
    var start := g.NextUpage(Page(blk, grp, 0));
    FirstFree(g, cell, start, tail0, EpochAt(start, epoch0), head, tail, epoch)
  }

  /** What the search for the head from group `grp` of block `blk` on finds. */
  ghost predicate HeadSearched(g: Geo, cell: Image, blk: nat, grp: nat, tail0: Page, epoch0: nat, head: Page,
                               tail: Page, epoch: nat)
    requires g.Ok() && blk < g.blocks && grp < g.cpb
  {
    if g.ppc == 2 then SingleFound(g, cell, blk, grp, tail0, epoch0, head, tail, epoch)
    else LastUsed(g, cell, blk, grp) && !FreeGroup(g, cell, blk, grp) ==>
      HeadFound(g, cell, blk, grp, head) && tail == TailAfter(g, head, tail0) && epoch == EpochAt(head, epoch0)
  }

  /** A search for the head from this checkpoint stays on the pages that the checkpoint keeps clear.  Only
      with a single user page per group can it fail to, when the block of the root is full: unless the
      next block is free, it is skipped, and if the tail is there, it does not give way. */
  ghost predicate Lands(g: Geo, cell: Image, ck: Checkpoint) {
    g.ppc == 2 && ck.Checkpoint? && ck.root.Page? && Full(g, cell, ck.root.blk) ==>
      FreeGroup(g, cell, g.NextBlock(ck.root.blk), 0) && !SameBlock(ck.buf.tail, FirstPage(g.NextBlock(ck.root.blk)))
  }

  lemma SingleLands(g: Geo, cell: Image, blk: nat, grp: nat, tail0: Page, epoch0: nat, head: Page, tail: Page,
                    epoch: nat)
    requires g.Ok() && g.ppc == 2 && g.Covers(cell) && blk < g.blocks && LastUsed(g, cell, blk, grp)
    requires !FreeGroup(g, cell, blk, grp) && SingleFound(g, cell, blk, grp, tail0, epoch0, head, tail, epoch)
    requires Full(g, cell, blk) ==>
      FreeGroup(g, cell, g.NextBlock(blk), 0) && !SameBlock(tail0, FirstPage(g.NextBlock(blk)))
    ensures HeadFound(g, cell, blk, grp, head) && tail == TailAfter(g, head, tail0) && epoch == EpochAt(head, epoch0)
  {
    var p: Page :| g.OnChip(p) && p.blk == blk && p.grp == grp && cell[p] != Erased;
    assert Spent(g, cell, blk, grp);
    if grp + 1 == g.cpb {
      assert Full(g, cell, blk);
      assert head.blk == g.NextBlock(blk);
    } else {
      assert FreeGroup(g, cell, blk, grp + 1);
    }
    hide FreeGroup;
  }

  /** The state that a resume sets up. */
  function Resumed(cell: Image, bad: seq<bool>, head: Page, tail: Page, root: Page, buf: Buffer, log: Log): State {
    State(cell, bad, head, tail, tail, root, false, false, false, Page.None, Page.None, Page.None, buf, log, map[])
  }

  /** Facts about the head that a resume has found. */
  lemma FoundStanding(g: Geo, pageSize: nat, bad: seq<bool>, cell: Image, root: Page, buf: Buffer, grp: nat,
                      head: Page, epoch: nat)
    requires g.Ok() && g.Covers(cell) && |bad| == g.blocks
    requires RootKept(g, bad, cell, root, buf) && Groups(g, cell, root.blk, root.grp)
    requires LastUsed(g, cell, root.blk, grp) && HeadFound(g, cell, root.blk, grp, head)
    requires epoch == if head == FirstPage(0) then (buf.epoch + 1) % 256 else buf.epoch
    ensures Standing(g, bad, cell, root, buf.epoch, head, epoch, 0)
    ensures head.blk == root.blk ==> Ready(g, cell, head)
    ensures head.blk == root.blk || (head == FirstPage(g.NextBlock(root.blk)) && Full(g, cell, root.blk))
  {
    var check := g.CheckPage(root);
    assert cell[check] != Erased && !FreeGroup(g, cell, root.blk, root.grp);
    assert root.grp <= grp;
    assert !FreeGroup(g, cell, root.blk, grp);
    assert g.OnChip(check) && (SameGroup(check, head) <==> head.blk == root.blk && head.grp == root.grp);
    var last := root.grp;
    assert SameGroup(check, head) ==> grp != last;
    if head.blk == root.blk {
      FoundReady(g, cell, root.blk, grp, head);
    }
  }

  lemma FoundReady(g: Geo, cell: Image, blk: nat, grp: nat, head: Page)
    requires g.Ok() && g.Covers(cell) && blk < g.blocks && LastUsed(g, cell, blk, grp) &&
      HeadFound(g, cell, blk, grp, head)
    requires head.blk == blk
    ensures Ready(g, cell, head)
  {
    forall q | g.OnChip(q) && SameBlock(head, q) && Le(head, q)
      ensures cell[q] == Erased
    {
      if q.grp == head.grp == grp {
        assert SameGroup(q, head);
      } else {
        assert grp < q.grp;
        assert FreeGroup(g, cell, blk, q.grp);
      }
    }
  }

  /** Pages of the checkpoint in the root's block are not beyond the root. */
  lemma BelowRoot(g: Geo, tail: Page, root: Page, p: Page)
    requires g.UserPage(root) && g.UserPage(tail) && (SameBlock(tail, root) ==> Le(tail, root))
    requires g.UserPage(p) && (p == root || InWindow(tail, p, root)) && p.blk == root.blk
    ensures Le(p, root)
  {}

  lemma FoundRing(g: Geo, tail: Page, root: Page, head: Page)
    requires g.Ok() && g.UserPage(root) && g.UserPage(tail) && g.UserPage(head) &&
      (SameBlock(tail, root) ==> Le(tail, root))
    requires (Lt(root, head) && head.blk == root.blk) || head == FirstPage(g.NextBlock(root.blk))
    ensures Ring(g, TailAfter(g, head, tail), TailAfter(g, head, tail), head)
  {}

  /** The checkpoint's pages lie between the tail and the head that a resume finds. */
  lemma FoundWindow(g: Geo, tail: Page, root: Page, head: Page, p: Page)
    requires g.Ok() && g.UserPage(root) && g.UserPage(tail) && g.UserPage(head) &&
      (SameBlock(tail, root) ==> Le(tail, root))
    requires (Lt(root, head) && head.blk == root.blk) ||
      (head == FirstPage(g.NextBlock(root.blk)) && p.Page? && p.blk != head.blk)
    requires g.UserPage(p) && (p == root || InWindow(tail, p, root))
    ensures InWindow(TailAfter(g, head, tail), p, head)
    ensures !SameGroup(p, head) || p.blk == root.blk
  {}

  lemma FoundPlaced(g: Geo, pageSize: nat, bad: seq<bool>, cell: Image, ck: Checkpoint, head: Page)
    requires Resumable(g, pageSize, bad, cell, ck) && ck.Checkpoint? && g.UserPage(head)
    requires (head.blk == ck.root.blk && ck.root.grp < head.grp) ||
             (head == FirstPage(g.NextBlock(ck.root.blk)) && Full(g, cell, ck.root.blk))
    ensures Placed(g, bad, TailAfter(g, head, ck.buf.tail), head, ck.log)
    ensures forall p :: p in ck.log ==> !SameGroup(p, head) && (SameBlock(p, head) ==> Le(p, ck.root))
    ensures head.blk != ck.root.blk ==> NotInBlock(ck.log, head.blk)
    ensures Ring(g, TailAfter(g, head, ck.buf.tail), TailAfter(g, head, ck.buf.tail), head)
  {
    hide Marks, Groups, Full, FreeGroup, ChecksOk, InWindow, Ring;
    FoundRing(g, ck.buf.tail, ck.root, head);
    forall p | p in ck.log
      ensures g.UserPage(p) && NotBad(bad, p) && InWindow(TailAfter(g, head, ck.buf.tail), p, head)
      ensures !SameGroup(p, head) && (SameBlock(p, head) ==> Le(p, ck.root))
    {
      assert PageKept(g, pageSize, bad, cell, p, ck.log[p]);
      if p.blk == ck.root.blk { BelowRoot(g, ck.buf.tail, ck.root, p); }
      FoundWindow(g, ck.buf.tail, ck.root, head, p);
    }
  }

  lemma FoundReadable(g: Geo, pageSize: nat, bad: seq<bool>, cell: Image, ck: Checkpoint, head: Page, buf: Buffer)
    requires Resumable(g, pageSize, bad, cell, ck) && ck.Checkpoint?
    requires forall p :: p in ck.log ==> !SameGroup(p, head)
    ensures Readable(g, pageSize, cell, buf, head, Page.None, Page.None, ck.log)
  {
    hide Marks, Groups, Full, FreeGroup, ChecksOk;
    forall p | p in ck.log
      ensures p in cell && ReadsAs(pageSize, cell[p], ck.log[p].data) &&
        MetaIs(g, cell, buf, head, Page.None, Page.None, p, ck.log[p].meta)
    {
      assert PageKept(g, pageSize, bad, cell, p, ck.log[p]);
    }
  }

  /** The state set up by a resume is the journal as it was at the checkpoint. */
  lemma ResumedKeeps(g: Geo, pageSize: nat, bad: seq<bool>, cell: Image, ck: Checkpoint, grp: nat,
                     head: Page, epoch: nat, buf: Buffer)
    requires Resumable(g, pageSize, bad, cell, ck) && ck.Checkpoint? && TwoGood(bad)
    requires LastUsed(g, cell, ck.root.blk, grp) && HeadFound(g, cell, ck.root.blk, grp, head) && BufferOk(g, buf)
    requires epoch == if head == FirstPage(0) then (ck.buf.epoch + 1) % 256 else ck.buf.epoch
    ensures Inv(g, pageSize, false, Resumed(cell, bad, head, TailAfter(g, head, ck.buf.tail), ck.root, buf, ck.log))
    ensures Coupled(g, pageSize, bad, cell, ck, head, TailAfter(g, head, ck.buf.tail), epoch, 0)
    ensures Clean(ck, false, TailAfter(g, head, ck.buf.tail), head, ck.root, ck.log)
  {
    FoundStanding(g, pageSize, bad, cell, ck.root, ck.buf, grp, head, epoch);
    hide Standing, Marks, Groups, LastUsed, HeadFound, FreeGroup, Full, Ring, InWindow, ChecksOk;
    StandingAfter(g, bad, cell, ck.root, ck.buf.epoch, head, epoch);
    FoundPlaced(g, pageSize, bad, cell, ck, head);
    RootOfLog(g, pageSize, bad, cell, ck);
    ResumedSound(g, pageSize, bad, cell, ck, head, buf);
    var tail := TailAfter(g, head, ck.buf.tail);
    assert Held(tail, head, ck.root, ck.log) by { PlacedHeld(g, bad, tail, head, ck.root, ck.log); }
    hide Placed, LogKept, Ready, Inv;
  }

  lemma ResumedSound(g: Geo, pageSize: nat, bad: seq<bool>, cell: Image, ck: Checkpoint, head: Page, buf: Buffer)
    requires Resumable(g, pageSize, bad, cell, ck) && ck.Checkpoint? && BufferOk(g, buf) && g.UserPage(head)
    requires head.blk == ck.root.blk ==> ck.root.grp < head.grp && Ready(g, cell, head)
    requires head.blk == ck.root.blk || head == FirstPage(g.NextBlock(ck.root.blk))
    requires Placed(g, bad, TailAfter(g, head, ck.buf.tail), head, ck.log)
    requires Ring(g, TailAfter(g, head, ck.buf.tail), TailAfter(g, head, ck.buf.tail), head)
    requires forall p :: p in ck.log ==> !SameGroup(p, head) && (SameBlock(p, head) ==> Le(p, ck.root))
    ensures Inv(g, pageSize, false, Resumed(cell, bad, head, TailAfter(g, head, ck.buf.tail), ck.root, buf, ck.log))
  {
    FoundReadable(g, pageSize, bad, cell, ck, head, buf);
    RootOfLog(g, pageSize, bad, cell, ck);
    hide Marks, Groups, Full, Ring, InWindow, ChecksOk, Placed, Readable, LogKept, Ready;
  }

  /** The same for what the search for the head finds, where it lands on the pages kept clear. */
  lemma SearchKeeps(g: Geo, pageSize: nat, bad: seq<bool>, cell: Image, ck: Checkpoint, grp: nat,
                    head: Page, tail: Page, epoch: nat, buf: Buffer)
    requires Resumable(g, pageSize, bad, cell, ck) && ck.Checkpoint? && TwoGood(bad) && Lands(g, cell, ck)
    requires ck.root.Page? && ck.root.blk < g.blocks && LastUsed(g, cell, ck.root.blk, grp)
    requires !FreeGroup(g, cell, ck.root.blk, grp) && BufferOk(g, buf)
    requires HeadSearched(g, cell, ck.root.blk, grp, ck.buf.tail, ck.buf.epoch, head, tail, epoch)
    ensures Inv(g, pageSize, false, Resumed(cell, bad, head, tail, ck.root, buf, ck.log))
    ensures Coupled(g, pageSize, bad, cell, ck, head, tail, epoch, 0)
    ensures Clean(ck, false, tail, head, ck.root, ck.log)
  {
    hide Inv, Coupled, Clean, LastUsed, HeadFound, SingleFound, FreeGroup, Marks, Groups, LogKept, ChecksOk, TwoGood;
    hide Full, RootKept;
    if g.ppc == 2 {
      SingleLands(g, cell, ck.root.blk, grp, ck.buf.tail, ck.buf.epoch, head, tail, epoch);
    }
    ResumedKeeps(g, pageSize, bad, cell, ck, grp, head, epoch, buf);
  }

  lemma StandingAfter(g: Geo, bad: seq<bool>, cell: Image, root: Page, rootEpoch: nat, head: Page, epoch: nat)
    requires Standing(g, bad, cell, root, rootEpoch, head, epoch, 0)
    ensures head.blk == root.blk ==> root.grp < head.grp
  {}

  lemma PlacedHeld(g: Geo, bad: seq<bool>, tail: Page, head: Page, root: Page, log: Log)
    requires Placed(g, bad, tail, head, log) && head.Page? && root.Page?
    requires head.blk != root.blk ==> NotInBlock(log, head.blk)
    ensures Held(tail, head, root, log)
  {
    hide InWindow;
  }
}
