/** What a power cut leaves on the chip: images from which the last programmed checkpoint can be
    found again, and how the NAND operations of the journal keep the chip in such a state. */
module Durability {
  import opened Geometry
  import opened Tree
  import opened Nand
  import opened JournalState

  /** Two of the first eight blocks are good. */
  ghost predicate TwoGood(bad: seq<bool>) {
    exists a, b :: 0 <= a < b < 8 && b < |bad| && !bad[a] && !bad[b]
  }

  predicate IsBad(bad: seq<bool>, b: nat) {
    b < |bad| && bad[b]
  }

  predicate IsGood(bad: seq<bool>, b: nat) {
    b < |bad| && !bad[b]
  }

  /** All blocks passed on the way around the chip from block `from` to block `to` are bad. */
  ghost predicate Between(bad: seq<bool>, from: nat, to: nat) {
    from != to &&
    if from < to then forall b: nat :: from < b < to ==> IsBad(bad, b)
    else (forall b: nat :: from < b < |bad| ==> IsBad(bad, b)) && (forall b: nat :: b < to ==> IsBad(bad, b))
  }

  /** How many blocks ahead of `from` block `to` is, going around the chip. */
  function Ahead(g: Geo, from: nat, to: nat): int {
    if from < to then to - from else to + g.blocks - from
  }

  // ---------------------------------------------------------------- marks

  /** The first checkpoint page of a block. */
  function MarkPage(g: Geo, b: nat): Page {
    g.CheckPage(FirstPage(b))
  }

  /** A resume takes the block for one that contains checkpoints. */
  ghost predicate Marked(g: Geo, bad: seq<bool>, cell: Image, b: nat) {
    IsGood(bad, b) && MarkPage(g, b) in cell && cell[MarkPage(g, b)].Check? && cell[MarkPage(g, b)].buf.magic
  }

  ghost predicate EpochIs(g: Geo, cell: Image, b: nat, epoch: nat) {
    MarkPage(g, b) in cell && cell[MarkPage(g, b)].Check? && cell[MarkPage(g, b)].buf.epoch == epoch
  }

  /** There is a marked block among the eight from `mid` on, no further than `last`. */
  ghost predicate NextMark(g: Geo, bad: seq<bool>, cell: Image, mid: nat, last: nat) {
    exists b: nat :: mid <= b < mid + 8 && b <= last && Marked(g, bad, cell, b)
  }

  /** The marks of the current epoch are those up to block `last`, and they are never eight blocks
      apart. */
  ghost predicate Epochs(g: Geo, bad: seq<bool>, cell: Image, last: nat, epoch: nat) {
    Marked(g, bad, cell, last) &&
    (forall b: nat :: Marked(g, bad, cell, b) ==> (b <= last <==> EpochIs(g, cell, b, epoch))) &&
    (forall mid: nat :: mid <= last ==> NextMark(g, bad, cell, mid, last))
  }

  /** Besides, the only good block up to the last that may lack a mark is the next to be written. */
  ghost predicate Marks(g: Geo, bad: seq<bool>, cell: Image, last: nat, epoch: nat) {
    Epochs(g, bad, cell, last, epoch) &&
    (forall b: nat :: b <= last && IsGood(bad, b) ==> Marked(g, bad, cell, b) || Between(bad, last, b))
  }

  // ---------------------------------------------------------------- groups

  ghost predicate FreeGroup(g: Geo, cell: Image, blk: nat, grp: nat) {
    forall p: Page :: g.OnChip(p) && p.blk == blk && p.grp == grp ==> p in cell && cell[p] == Erased
  }

  /** In block `blk` the groups in use are the first ones, and the last checkpoint is in group
      `grp`. */
  ghost predicate Groups(g: Geo, cell: Image, blk: nat, grp: nat) {
    (forall a: nat, b: nat :: a < b < g.cpb && !FreeGroup(g, cell, blk, b) ==> !FreeGroup(g, cell, blk, a)) &&
    (forall b: nat :: grp < b < g.cpb ==>
      g.CheckPage(Page(blk, b, 0)) in cell && !cell[g.CheckPage(Page(blk, b, 0))].Check?)
  }

  /** A resume finds no user page to continue with in block `blk`. */
  ghost predicate Full(g: Geo, cell: Image, blk: nat) {
    exists p :: g.OnChip(p) && p.blk == blk && p.grp + 1 == g.cpb && p.idx + 2 >= g.ppc && p in cell &&
      cell[p] != Erased
  }

  // ---------------------------------------------------------------- pages

  /** A page of the checkpoint's log is on the chip with its data and its metadata. */
  ghost predicate PageKept(g: Geo, pageSize: nat, bad: seq<bool>, cell: Image, p: Page, e: Entry) {
    g.UserPage(p) && NotBad(bad, p) && p in cell && ReadsAs(pageSize, cell[p], e.data) &&
    g.CheckPage(p) in cell && HoldsMeta(cell[g.CheckPage(p)], p.idx, e.meta)
  }

  ghost predicate LogKept(g: Geo, pageSize: nat, bad: seq<bool>, cell: Image, root: Page, tail: Page, log: Log) {
    root in log && g.UserPage(tail) && (SameBlock(tail, root) ==> Le(tail, root)) &&
    forall p :: p in log ==> PageKept(g, pageSize, bad, cell, p, log[p]) && (p == root || InWindow(tail, p, root))
  }

  ghost predicate NotInBlock(log: Log, blk: nat) {
    forall p: Page :: p in log && p.Page? ==> p.blk != blk
  }

  ghost predicate RootKept(g: Geo, bad: seq<bool>, cell: Image, root: Page, buf: Buffer) {
    g.UserPage(root) && root.idx + 2 == g.ppc && NotBad(bad, root) &&
    g.CheckPage(root) in cell && cell[g.CheckPage(root)] == Check(buf) && buf.magic && BufferOk(g, buf)
  }

  /** From this image a resume gets back exactly the checkpoint `ck`. */
  ghost predicate Resumable(g: Geo, pageSize: nat, bad: seq<bool>, cell: Image, ck: Checkpoint) {
    g.Ok() && g.Covers(cell) && |bad| == g.blocks && ChecksOk(g, cell) &&
    match ck
    case NoCheckpoint => forall b: nat :: !Marked(g, bad, cell, b)
    case Checkpoint(root, buf, log) =>
      RootKept(g, bad, cell, root, buf) &&
      Marks(g, bad, cell, root.blk, buf.epoch) &&
      Groups(g, cell, root.blk, root.grp) &&
      LogKept(g, pageSize, bad, cell, root, buf.tail, log) &&
      (Full(g, cell, root.blk) ==> NotInBlock(log, g.NextBlock(root.blk)))
  }

  /** From history `h` to `h'` the chip has only been in states from which checkpoint `a` or
      checkpoint `b` can be resumed. */
  ghost predicate Recorded(g: Geo, pageSize: nat, h: seq<Moment>, h': seq<Moment>, a: Checkpoint, b: Checkpoint) {
    |h| <= |h'| && h'[..|h|] == h &&
    forall i :: |h| <= i < |h'| ==>
      Resumable(g, pageSize, h'[i].bad, h'[i].image, h'[i].durable) && (h'[i].durable == a || h'[i].durable == b)
  }

  lemma RecordedNothing(g: Geo, pageSize: nat, h: seq<Moment>, a: Checkpoint, b: Checkpoint)
    ensures Recorded(g, pageSize, h, h, a, b)
  {}

  lemma RecordedTwo(g: Geo, pageSize: nat, h: seq<Moment>, m: Moment, n: Moment, a: Checkpoint, b: Checkpoint)
    requires Resumable(g, pageSize, m.bad, m.image, m.durable) && m.durable == a
    requires Resumable(g, pageSize, n.bad, n.image, n.durable) && n.durable == b
    ensures Recorded(g, pageSize, h, h + [m, n], a, b)
  {
    hide Resumable;
  }

  lemma RecordedOn(g: Geo, pageSize: nat, h: seq<Moment>, h': seq<Moment>, h'': seq<Moment>, a: Checkpoint,
                   b: Checkpoint)
    requires Recorded(g, pageSize, h, h', a, a) && Recorded(g, pageSize, h', h'', a, b)
    ensures Recorded(g, pageSize, h, h'', a, b)
  {
    hide Resumable;
    assert h''[..|h|] == h''[..|h'|][..|h|];
    forall i | |h| <= i < |h'|
      ensures h''[i] == h'[i]
    {
      assert h''[i] == h''[..|h'|][i];
    }
  }

  // ---------------------------------------------------------------- the running journal

  /** Where the head stands relative to the last checkpoint: further on in its block, or in the
      next good block, at most `steps` bad blocks further. */
  ghost predicate Standing(g: Geo, bad: seq<bool>, cell: Image, root: Page, rootEpoch: nat,
                           head: Page, epoch: nat, steps: nat)
  {
    root.Page? && head.Page? &&
    if head.blk == root.blk then
      root.grp < head.grp && epoch == rootEpoch &&
      forall a: nat :: a < head.grp ==> !FreeGroup(g, cell, root.blk, a)
    else
      head.grp == 0 && Full(g, cell, root.blk) && (forall a: nat :: a < g.cpb ==> !FreeGroup(g, cell, root.blk, a)) &&
      Between(bad, root.blk, head.blk) && Ahead(g, root.blk, head.blk) <= 1 + (if BlockStart(head) then steps else 7) &&
      epoch == if head.blk < root.blk then (rootEpoch + 1) % 256 else rootEpoch
  }

  /** The checkpoint's pages, but for its root, are in the window that the journal keeps clear of
      the head. */
  ghost predicate Held(tailSync: Page, head: Page, root: Page, log: Log) {
    head.Page? && root.Page? &&
    (forall p :: p in log && p != root ==> InWindow(tailSync, p, head)) &&
    (head.blk != root.blk ==> NotInBlock(log, head.blk))
  }

  /** The running journal and the checkpoint on the chip belong together. */
  ghost predicate Coupled(g: Geo, pageSize: nat, bad: seq<bool>, cell: Image, ck: Checkpoint,
                          head: Page, tailSync: Page, epoch: nat, steps: nat)
  {
    Resumable(g, pageSize, bad, cell, ck) && TwoGood(bad) && g.UserPage(head) &&
    match ck
    case NoCheckpoint =>
      head.grp == 0 && tailSync == FirstPage(0) && (forall b: nat :: b < head.blk ==> IsBad(bad, b)) &&
      head.blk <= if BlockStart(head) then steps else 7
    case Checkpoint(root, buf, log) =>
      Standing(g, bad, cell, root, buf.epoch, head, epoch, steps) && Held(tailSync, head, root, log)
  }

  /** While the journal is clean it holds what the checkpoint holds. */
  ghost predicate Clean(ck: Checkpoint, dirty: bool, tail: Page, head: Page, root: Page, log: Log) {
    !dirty ==>
      match ck
      case NoCheckpoint => tail == head && root == Page.None && log == map[]
      case Checkpoint(ckRoot, _, ckLog) =>
        (root == ckRoot && log == ckLog) || (root == Page.None && ckLog.Keys == {ckRoot})
  }

  /** An empty journal on a chip without checkpoints. */
  lemma EmptyCoupled(g: Geo, pageSize: nat, bad: seq<bool>, cell: Image, epoch: nat)
    requires Resumable(g, pageSize, bad, cell, NoCheckpoint) && TwoGood(bad)
    ensures Coupled(g, pageSize, bad, cell, NoCheckpoint, FirstPage(0), FirstPage(0), epoch, 0)
  {}

  // ---------------------------------------------------------------- erasing the head's block

  /** Erased, torn or unchanged pages in block `blk`, and no change elsewhere. */
  ghost predicate Wiped(g: Geo, cell: Image, blk: nat, cell': Image) {
    g.Covers(cell) && PartlyErased(g, cell, blk, cell')
  }

  lemma WipeMarks(g: Geo, bad: seq<bool>, cell: Image, blk: nat, cell': Image, last: nat, epoch: nat)
    requires g.Ok() && |bad| == g.blocks && Wiped(g, cell, blk, cell') && TwoGood(bad)
    requires Marks(g, bad, cell, last, epoch) && IsGood(bad, blk) && Between(bad, last, blk)
    ensures Marks(g, bad, cell', last, epoch)
  {
    forall b: nat | b < g.blocks
      ensures Marked(g, bad, cell', b) ==>
        Marked(g, bad, cell, b) && (EpochIs(g, cell', b, epoch) <==> EpochIs(g, cell, b, epoch))
      ensures b != blk && Marked(g, bad, cell, b) ==> Marked(g, bad, cell', b)
    {
      assert g.OnChip(MarkPage(g, b));
    }
    forall mid: nat | mid <= last
      ensures NextMark(g, bad, cell', mid, last)
    {
      assert NextMark(g, bad, cell, mid, last);
      var b: nat :| mid <= b < mid + 8 && b <= last && Marked(g, bad, cell, b);
      if b == blk {
        var x, y :| 0 <= x < y < 8 && y < |bad| && !bad[x] && !bad[y];
        var c: nat := if x == blk then y else x;
        assert IsGood(bad, c) && !IsBad(bad, c) && blk < c <= last;
        assert !IsBad(bad, blk) && !Between(bad, last, c);
        assert Marked(g, bad, cell', c);
      } else {
        assert Marked(g, bad, cell', b);
      }
    }
  }

  lemma WipeOther(g: Geo, cell: Image, blk: nat, cell': Image, root: Page)
    requires g.Ok() && Wiped(g, cell, blk, cell') && g.OnChip(root) && root.blk != blk
    ensures Full(g, cell', root.blk) <==> Full(g, cell, root.blk)
    ensures forall a: nat :: FreeGroup(g, cell', root.blk, a) <==> FreeGroup(g, cell, root.blk, a)
    ensures Groups(g, cell, root.blk, root.grp) ==> Groups(g, cell', root.blk, root.grp)
  {
    SameBlockSame(g, cell, cell', root.blk);
    if Groups(g, cell, root.blk, root.grp) {
      forall b: nat | root.grp < b < g.cpb
        ensures g.CheckPage(Page(root.blk, b, 0)) in cell' && !cell'[g.CheckPage(Page(root.blk, b, 0))].Check?
      {
        assert g.OnChip(g.CheckPage(Page(root.blk, b, 0)));
      }
    }
  }

  /** Two images that agree on a block. */
  lemma SameBlockSame(g: Geo, cell: Image, cell': Image, blk: nat)
    requires g.Covers(cell) && g.Covers(cell')
    requires forall p: Page :: g.OnChip(p) && p.blk == blk ==> cell'[p] == cell[p]
    ensures Full(g, cell', blk) <==> Full(g, cell, blk)
    ensures forall a: nat :: FreeGroup(g, cell', blk, a) <==> FreeGroup(g, cell, blk, a)
  {}

  lemma WipeLog(g: Geo, pageSize: nat, bad: seq<bool>, cell: Image, blk: nat, cell': Image, root: Page, tail: Page,
                log: Log)
    requires g.Ok() && Wiped(g, cell, blk, cell') && NotInBlock(log, blk)
    requires LogKept(g, pageSize, bad, cell, root, tail, log)
    ensures LogKept(g, pageSize, bad, cell', root, tail, log)
  {
    hide InWindow;
    forall p | p in log
      ensures PageKept(g, pageSize, bad, cell', p, log[p])
    {
      assert PageKept(g, pageSize, bad, cell, p, log[p]);
      assert g.OnChip(p) && g.OnChip(g.CheckPage(p)) && p.blk != blk;
    }
  }

  /** Erasing the next good block, even partly, loses nothing of the checkpoint. */
  lemma EraseKeeps(g: Geo, pageSize: nat, bad: seq<bool>, cell: Image, ck: Checkpoint,
                   head: Page, tailSync: Page, epoch: nat, cell': Image)
    requires Coupled(g, pageSize, bad, cell, ck, head, tailSync, epoch, 7)
    requires BlockStart(head) && IsGood(bad, head.blk) && Wiped(g, cell, head.blk, cell')
    ensures Coupled(g, pageSize, bad, cell', ck, head, tailSync, epoch, 7)
  {
    assert ChecksOk(g, cell');
    hide ChecksOk;
    match ck {
      case NoCheckpoint =>
        forall b: nat ensures !Marked(g, bad, cell', b) {
          assert !Marked(g, bad, cell, b);
          if b < g.blocks { assert g.OnChip(MarkPage(g, b)); }
        }
      case Checkpoint(root, buf, log) =>
        hide Marks, Groups, LogKept, Full, FreeGroup, TwoGood, NotInBlock, InWindow;
        WipeMarks(g, bad, cell, head.blk, cell', root.blk, buf.epoch);
        WipeOther(g, cell, head.blk, cell', root);
        WipeLog(g, pageSize, bad, cell, head.blk, cell', root, buf.tail, log);
        assert g.OnChip(g.CheckPage(root));
    }
  }

  // ---------------------------------------------------------------- programming a page

  /** Pages of the checkpoint lie in other blocks than the head, or in groups below the head's. */
  lemma LogAway(g: Geo, pageSize: nat, bad: seq<bool>, cell: Image, ck: Checkpoint,
                head: Page, tailSync: Page, epoch: nat, p: Page)
    requires Coupled(g, pageSize, bad, cell, ck, head, tailSync, epoch, 7) && ck.Checkpoint? && p in ck.log
    ensures g.UserPage(p) && !SameGroup(p, head)
  {
    hide Marks, Groups, FreeGroup, Full;
    assert PageKept(g, pageSize, bad, cell, p, ck.log[p]);
  }

  lemma ProgramLog(g: Geo, pageSize: nat, bad: seq<bool>, cell: Image, ck: Checkpoint,
                   head: Page, tailSync: Page, epoch: nat, q: Page, c: Content)
    requires Coupled(g, pageSize, bad, cell, ck, head, tailSync, epoch, 7) && ck.Checkpoint?
    requires g.OnChip(q) && SameGroup(q, head)
    ensures LogKept(g, pageSize, bad, cell[q := c], ck.root, ck.buf.tail, ck.log)
  {
    hide Marks, Groups, FreeGroup, Full, InWindow, Standing, Held;
    forall p | p in ck.log
      ensures PageKept(g, pageSize, bad, cell[q := c], p, ck.log[p])
    {
      LogAway(g, pageSize, bad, cell, ck, head, tailSync, epoch, p);
      assert PageKept(g, pageSize, bad, cell, p, ck.log[p]);
    }
  }

  /** What a page that holds no checkpoint does to the marks. */
  lemma ProgramMarks(g: Geo, bad: seq<bool>, cell: Image, q: Page, cell': Image, last: nat, epoch: nat)
    requires g.Ok() && g.Covers(cell) && |bad| == g.blocks && g.OnChip(q)
    requires q in cell' && cell' == cell[q := cell'[q]] && !cell'[q].Check? && !cell[q].Check?
    requires Marks(g, bad, cell, last, epoch)
    ensures Marks(g, bad, cell', last, epoch)
  {
    SameMarks(g, bad, cell, cell', epoch);
    forall mid: nat | mid <= last
      ensures NextMark(g, bad, cell', mid, last)
    {
      assert NextMark(g, bad, cell, mid, last);
      var b: nat :| mid <= b < mid + 8 && b <= last && Marked(g, bad, cell, b);
      assert Marked(g, bad, cell', b);
    }
  }

  /** Only checkpoint pages of first groups matter for the marks. */
  lemma SameMarks(g: Geo, bad: seq<bool>, cell: Image, cell': Image, epoch: nat)
    requires g.Ok() && cell'.Keys == cell.Keys
    requires forall p :: p in cell && p.Page? && p.grp == 0 && (cell[p].Check? || cell'[p].Check?) ==>
      cell'[p] == cell[p]
    ensures forall b: nat :: Marked(g, bad, cell', b) <==> Marked(g, bad, cell, b)
    ensures forall b: nat :: EpochIs(g, cell', b, epoch) <==> EpochIs(g, cell, b, epoch)
  {}

  /** Programming a page uses its group and no other. */
  lemma ProgramUses(g: Geo, cell: Image, q: Page, cell': Image, blk: nat)
    requires g.Covers(cell) && g.OnChip(q) && q in cell' && cell' == cell[q := cell'[q]] && cell'[q] != Erased
    ensures Full(g, cell, blk) ==> Full(g, cell', blk)
    ensures Full(g, cell', blk) ==> Full(g, cell, blk) || (q.blk == blk && q.grp + 1 == g.cpb && q.idx + 2 >= g.ppc)
    ensures forall a: nat :: !FreeGroup(g, cell, blk, a) ==> !FreeGroup(g, cell', blk, a)
    ensures forall a: nat :: !FreeGroup(g, cell', blk, a) ==>
      !FreeGroup(g, cell, blk, a) || (q.blk == blk && q.grp == a)
    ensures !FreeGroup(g, cell', q.blk, q.grp)
  {
    if Full(g, cell, blk) {
      var p :| g.OnChip(p) && p.blk == blk && p.grp + 1 == g.cpb && p.idx + 2 >= g.ppc && p in cell &&
        cell[p] != Erased;
      assert cell'[p] != Erased;
    }
    forall a: nat | !FreeGroup(g, cell, blk, a)
      ensures !FreeGroup(g, cell', blk, a)
    {
      var p: Page :| g.OnChip(p) && p.blk == blk && p.grp == a && cell[p] != Erased;
      assert cell'[p] != Erased;
    }
  }

  /** The groups below the head's are in use, so using the head's group keeps the groups in
      order. */
  lemma ProgramGroups(g: Geo, cell: Image, q: Page, cell': Image, root: Page)
    requires g.Covers(cell) && g.OnChip(q) && g.Ok() && root.Page?
    requires q in cell' && cell' == cell[q := cell'[q]] && cell'[q] != Erased && !cell'[q].Check?
    requires Groups(g, cell, root.blk, root.grp)
    requires q.blk == root.blk ==> forall a: nat :: a < q.grp ==> !FreeGroup(g, cell, root.blk, a)
    ensures Groups(g, cell', root.blk, root.grp)
  {
    hide FreeGroup, Full;
    ProgramUses(g, cell, q, cell', root.blk);
    forall a: nat, b: nat | a < b < g.cpb && !FreeGroup(g, cell', root.blk, b)
      ensures !FreeGroup(g, cell', root.blk, a)
    {
      assert !FreeGroup(g, cell, root.blk, b) || q.grp == b;
      assert !FreeGroup(g, cell, root.blk, a);
    }
  }

  /** A head that is about to leave its block has no page of the checkpoint ahead of it. */
  lemma NextBlockClear(g: Geo, tailSync: Page, tail: Page, head: Page, root: Page, log: Log)
    requires g.Ok() && Ring(g, tailSync, tail, head) && NextClear(g, tailSync, head) && head.idx + 2 == g.ppc &&
      head.grp + 1 == g.cpb
    requires Held(tailSync, head, root, log) && head.blk == root.blk && (forall p :: p in log ==> g.OnChip(p))
    ensures NotInBlock(log, g.NextBlock(root.blk))
  {
    assert g.UserPage(tailSync);
    hide Ring, InWindow;
    var next := g.NextUpage(head);
    assert next == FirstPage(g.NextBlock(head.blk)) && next.blk != root.blk;
    AdvanceHead(g, tailSync, tail, head, next);
    forall p: Page | p in log
      ensures p.blk != next.blk
    {
      if p != root {
        AdvanceKeeps(g, tailSync, tail, head, next, p);
        FreshBlock(g, tailSync, tail, next, p);
      }
    }
  }

  /** Programming the head page, or the checkpoint page of its group, loses nothing of the last
      checkpoint while the page holds no checkpoint itself. */
  lemma ProgramKeeps(g: Geo, pageSize: nat, bad: seq<bool>, cell: Image, ck: Checkpoint,
                     head: Page, tailSync: Page, tail: Page, epoch: nat, q: Page, c: Content)
    requires Coupled(g, pageSize, bad, cell, ck, head, tailSync, epoch, 7)
    requires Ring(g, tailSync, tail, head) && NextClear(g, tailSync, head)
    requires q == head || (q == g.CheckPage(head) && head.idx + 2 == g.ppc)
    requires g.OnChip(q) && q in cell && cell[q] == Erased && !c.Erased? && !c.Check?
    ensures Coupled(g, pageSize, bad, cell[q := c], ck, head, tailSync, epoch, 7)
  {
    var cell' := cell[q := c];
    assert g.Covers(cell') && ChecksOk(g, cell');
    hide ChecksOk;
    match ck {
      case NoCheckpoint =>
        SameMarks(g, bad, cell, cell', epoch);
      case Checkpoint(root, buf, log) =>
        ProgramLog(g, pageSize, bad, cell, ck, head, tailSync, epoch, q, c);
        hide Marks, LogKept, Groups, Full, FreeGroup, TwoGood, NotInBlock, InWindow, Ring;
        ProgramMarks(g, bad, cell, q, cell', root.blk, buf.epoch);
        ProgramGroups(g, cell, q, cell', root);
        ProgramUses(g, cell, q, cell', root.blk);
        assert g.CheckPage(root) != q;
        if Full(g, cell', root.blk) && !Full(g, cell, root.blk) {
          LogOnChip(g, pageSize, bad, cell, root, buf.tail, log);
          NextBlockClear(g, tailSync, tail, head, root, log);
        }
        assert RootKept(g, bad, cell', root, buf);
        assert Standing(g, bad, cell', root, buf.epoch, head, epoch, 7);
    }
  }

  lemma LogOnChip(g: Geo, pageSize: nat, bad: seq<bool>, cell: Image, root: Page, tail: Page, log: Log)
    requires LogKept(g, pageSize, bad, cell, root, tail, log)
    ensures forall p :: p in log ==> g.UserPage(p)
  {
    forall p | p in log ensures g.UserPage(p) {
      assert PageKept(g, pageSize, bad, cell, p, log[p]);
    }
  }

  lemma CoupledFurther(g: Geo, pageSize: nat, bad: seq<bool>, cell: Image, ck: Checkpoint,
                       head: Page, tailSync: Page, epoch: nat, steps: nat)
    requires Coupled(g, pageSize, bad, cell, ck, head, tailSync, epoch, steps) && steps <= 7
    ensures Coupled(g, pageSize, bad, cell, ck, head, tailSync, epoch, 7)
    ensures Resumable(g, pageSize, bad, cell, ck)
  {
    hide Resumable, Held, TwoGood;
  }

  // ---------------------------------------------------------------- moving the head

  /** A bad block is passed. */
  lemma SkipCoupled(g: Geo, pageSize: nat, bad: seq<bool>, cell: Image, ck: Checkpoint,
                    head: Page, tailSync: Page, tail: Page, epoch: nat, steps: nat, next: Page, epoch': nat)
    requires Coupled(g, pageSize, bad, cell, ck, head, tailSync, epoch, steps)
    requires Ring(g, tailSync, tail, head) && BlockStart(head) && IsBad(bad, head.blk)
    requires next == FirstPage(g.NextBlock(head.blk)) && next.blk != tailSync.blk
    requires epoch' == if next == FirstPage(0) then (epoch + 1) % 256 else epoch
    ensures Coupled(g, pageSize, bad, cell, ck, next, tailSync, epoch', steps + 1)
  {
    match ck {
      case NoCheckpoint =>
        assert next.blk != 0;
      case Checkpoint(root, buf, log) =>
        hide Marks, Groups, Full, FreeGroup, Ring, InWindow, Standing, Held, TwoGood;
        LogOnChip(g, pageSize, bad, cell, root, buf.tail, log);
        hide LogKept;
        SkipStanding(g, bad, cell, root, buf.epoch, head, epoch, steps, epoch');
        SkipHeld(g, tailSync, tail, head, next, root, log);
    }
  }

  /** The bad block passed is not the only other block: the head does not come back to the root's
      block. */
  lemma SkipStanding(g: Geo, bad: seq<bool>, cell: Image, root: Page, rootEpoch: nat,
                     head: Page, epoch: nat, steps: nat, epoch': nat)
    requires g.Ok() && |bad| == g.blocks && TwoGood(bad) && g.UserPage(root) && g.UserPage(head)
    requires Standing(g, bad, cell, root, rootEpoch, head, epoch, steps) && BlockStart(head) && IsBad(bad, head.blk)
    requires epoch' == if g.NextBlock(head.blk) == 0 then (epoch + 1) % 256 else epoch
    ensures Standing(g, bad, cell, root, rootEpoch, FirstPage(g.NextBlock(head.blk)), epoch', steps + 1)
    ensures g.NextBlock(head.blk) != root.blk
  {
    hide Full, FreeGroup;
    var x, y :| 0 <= x < y < 8 && y < |bad| && !bad[x] && !bad[y];
    assert IsGood(bad, x) && IsGood(bad, y) && !IsBad(bad, x) && !IsBad(bad, y);
  }

  lemma SkipHeld(g: Geo, tailSync: Page, tail: Page, head: Page, next: Page, root: Page, log: Log)
    requires g.Ok() && Ring(g, tailSync, tail, head) && Held(tailSync, head, root, log)
    requires next == FirstPage(g.NextBlock(head.blk)) && next.blk != tailSync.blk && next.blk != root.blk
    requires forall p :: p in log ==> g.OnChip(p)
    ensures Held(tailSync, next, root, log)
  {
    hide Ring, InWindow;
    forall p: Page | p in log
      ensures p != root ==> InWindow(tailSync, p, next) && p.blk != next.blk
    {
      if p != root {
        SkipFar(g, tailSync, tail, head, next, p);
      }
    }
  }

  /** The head moves to the next page of its group. */
  lemma StepCoupled(g: Geo, pageSize: nat, bad: seq<bool>, cell: Image, ck: Checkpoint,
                    head: Page, tailSync: Page, tail: Page, epoch: nat)
    requires Coupled(g, pageSize, bad, cell, ck, head, tailSync, epoch, 7)
    requires Ring(g, tailSync, tail, head) && NextClear(g, tailSync, head) && head.idx + 2 < g.ppc
    ensures Coupled(g, pageSize, bad, cell, ck, Page(head.blk, head.grp, head.idx + 1), tailSync, epoch, 0)
  {
    if ck.Checkpoint? {
      hide Marks, Groups, Full, FreeGroup, Ring, InWindow, TwoGood;
      LogOnChip(g, pageSize, bad, cell, ck.root, ck.buf.tail, ck.log);
      hide LogKept, RootKept;
      forall p | p in ck.log && p != ck.root
        ensures InWindow(tailSync, p, Page(head.blk, head.grp, head.idx + 1))
      {
        PushWindow(g, tailSync, tail, head, p);
      }
    }
  }

  // ---------------------------------------------------------------- a new checkpoint

  /** The checkpoint page of the head's group has been programmed, with everything above it in the
      block erased. */
  ghost predicate Checked(g: Geo, bad: seq<bool>, cell: Image, head: Page, epoch: nat, buf: Buffer, cell': Image) {
    g.Ok() && g.Covers(cell) && |bad| == g.blocks && g.UserPage(head) && head.idx + 2 == g.ppc && NotBad(bad, head) &&
    ErasedAbove(g, cell, head) && cell' == cell[g.CheckPage(head) := Check(buf)] &&
    buf.magic && buf.epoch == epoch && BufferOk(g, buf)
  }

  lemma PushChecked(g: Geo, pageSize: nat, fallible: bool, s: State, data: PageData, epoch: nat, buf: Buffer,
                    cell': Image)
    requires PushReady(g, pageSize, fallible, s, data) && g.Ok() && g.UserPage(s.head) && s.head.idx + 2 == g.ppc
    requires cell' == s.cell[g.CheckPage(s.head) := Check(buf)] && buf.magic && buf.epoch == epoch && BufferOk(g, buf)
    ensures Checked(g, s.bad, s.cell, s.head, epoch, buf, cell')
  {
    hide Placed, Readable, Recovering, Ring;
  }

  /** The first checkpoint of a block marks it. */
  lemma MarkAdded(g: Geo, bad: seq<bool>, cell: Image, head: Page, epoch: nat, buf: Buffer, cell': Image)
    requires Checked(g, bad, cell, head, epoch, buf, cell') && head.grp == 0
    ensures Marked(g, bad, cell', head.blk) && !Marked(g, bad, cell, head.blk) && EpochIs(g, cell', head.blk, epoch)
    ensures forall b: nat, e: nat :: b != head.blk ==> (EpochIs(g, cell', b, e) <==> EpochIs(g, cell, b, e))
    ensures forall b: nat :: b != head.blk ==> (Marked(g, bad, cell', b) <==> Marked(g, bad, cell, b))
  {
    assert MarkPage(g, head.blk) == g.CheckPage(head);
  }

  /** The marks after the first checkpoint of the next good block. */
  lemma NextMarks(g: Geo, bad: seq<bool>, cell: Image, root: Page, rootEpoch: nat, head: Page, epoch: nat,
                  buf: Buffer, cell': Image)
    requires Checked(g, bad, cell, head, epoch, buf, cell') && root.Page? && head.blk != root.blk
    requires Marks(g, bad, cell, root.blk, rootEpoch) && Standing(g, bad, cell, root, rootEpoch, head, epoch, 7)
    ensures Marks(g, bad, cell', head.blk, epoch)
  {
    hide Full, FreeGroup, ErasedAbove, Checked;
    CheckedBasics(g, bad, cell, head, epoch, buf, cell');
    MarkAdded(g, bad, cell, head, epoch, buf, cell');
    var K, h := root.blk, head.blk;
    assert !IsBad(bad, h) && !IsBad(bad, K);
    forall b: nat | Marked(g, bad, cell', b)
      ensures b <= h <==> EpochIs(g, cell', b, epoch)
    {
      assert !IsBad(bad, b);
      if b != h {
        assert Marked(g, bad, cell, b);
        if rootEpoch != epoch { EpochUnique(g, cell, b, rootEpoch, epoch); }
      }
    }
    forall mid: nat | mid <= h
      ensures NextMark(g, bad, cell', mid, h)
    {
      if K < h && mid <= K {
        assert NextMark(g, bad, cell, mid, K);
        var b: nat :| mid <= b < mid + 8 && b <= K && Marked(g, bad, cell, b);
        assert Marked(g, bad, cell', b);
      }
    }
    forall b: nat | b <= h && IsGood(bad, b)
      ensures Marked(g, bad, cell', b) || Between(bad, h, b)
    {
      assert !IsBad(bad, b);
      if b != h {
        assert !Between(bad, K, b);
      }
    }
  }

  lemma EpochUnique(g: Geo, cell: Image, b: nat, e: nat, e': nat)
    requires e != e'
    ensures !(EpochIs(g, cell, b, e) && EpochIs(g, cell, b, e'))
  {}

  lemma CheckedBasics(g: Geo, bad: seq<bool>, cell: Image, head: Page, epoch: nat, buf: Buffer, cell': Image)
    requires Checked(g, bad, cell, head, epoch, buf, cell')
    ensures g.Ok() && |bad| == g.blocks && g.UserPage(head) && NotBad(bad, head) && IsGood(bad, head.blk)
    ensures g.Covers(cell) && g.Covers(cell') && RootKept(g, bad, cell', head, buf)
    ensures ChecksOk(g, cell) ==> ChecksOk(g, cell')
  {}

  /** The marks after any later checkpoint of a block. */
  lemma LaterMarks(g: Geo, bad: seq<bool>, cell: Image, head: Page, epoch: nat, buf: Buffer, cell': Image)
    requires Checked(g, bad, cell, head, epoch, buf, cell') && head.grp > 0 && Marks(g, bad, cell, head.blk, epoch)
    ensures Marks(g, bad, cell', head.blk, epoch)
  {
    SameMarks(g, bad, cell, cell', epoch);
    forall mid: nat | mid <= head.blk
      ensures NextMark(g, bad, cell', mid, head.blk)
    {
      assert NextMark(g, bad, cell, mid, head.blk);
      var b: nat :| mid <= b < mid + 8 && b <= head.blk && Marked(g, bad, cell, b);
      assert Marked(g, bad, cell', b);
    }
  }

  /** The marks after the very first checkpoint. */
  lemma FirstMarks(g: Geo, bad: seq<bool>, cell: Image, head: Page, epoch: nat, buf: Buffer, cell': Image)
    requires Checked(g, bad, cell, head, epoch, buf, cell') && head.Page? && head.grp == 0 && head.blk < 8
    requires forall b: nat :: !Marked(g, bad, cell, b)
    requires forall b: nat :: b < head.blk ==> IsBad(bad, b)
    ensures Marks(g, bad, cell', head.blk, epoch)
  {
    CheckedBasics(g, bad, cell, head, epoch, buf, cell');
    hide Checked, ErasedAbove;
    MarkAdded(g, bad, cell, head, epoch, buf, cell');
    forall mid: nat | mid <= head.blk
      ensures NextMark(g, bad, cell', mid, head.blk)
    {
      assert Marked(g, bad, cell', head.blk);
    }
    forall b: nat | b <= head.blk && IsGood(bad, b)
      ensures Marked(g, bad, cell', b)
    {
      assert !IsBad(bad, b);
    }
  }

  /** The groups of the head's block once its checkpoint page has been programmed. */
  lemma CheckedGroups(g: Geo, bad: seq<bool>, cell: Image, head: Page, epoch: nat, buf: Buffer, cell': Image)
    requires Checked(g, bad, cell, head, epoch, buf, cell')
    requires forall a: nat :: a < head.grp ==> !FreeGroup(g, cell, head.blk, a)
    ensures Groups(g, cell', head.blk, head.grp)
    ensures forall a: nat :: a <= head.grp ==> !FreeGroup(g, cell', head.blk, a)
    ensures Full(g, cell', head.blk) <==> head.grp + 1 == g.cpb
  {
    var q := g.CheckPage(head);
    ProgramUses(g, cell, q, cell', head.blk);
    assert cell'[q] == Check(buf);
    forall b: nat | head.grp < b < g.cpb
      ensures FreeGroup(g, cell', head.blk, b) && g.CheckPage(Page(head.blk, b, 0)) in cell' &&
        !cell'[g.CheckPage(Page(head.blk, b, 0))].Check?
    {
      assert g.OnChip(g.CheckPage(Page(head.blk, b, 0))) && Lt(head, g.CheckPage(Page(head.blk, b, 0)));
    }
    if head.grp + 1 == g.cpb {
      assert Full(g, cell', head.blk);
    } else {
      forall p: Page | g.OnChip(p) && p.blk == head.blk && p.grp + 1 == g.cpb
        ensures cell'[p] == Erased
      {
        assert Lt(head, p);
      }
    }
  }

  /** The pages that the new checkpoint stands for. */
  lemma CheckedLog(g: Geo, pageSize: nat, s: State, n: State)
    requires InvBase(g, pageSize, false, s) && InvBase(g, pageSize, false, n) && !s.recovery && !n.recovery
    requires g.UserPage(s.head) && s.head.idx + 2 == g.ppc && NextClear(g, s.tailSync, s.head) && s.head !in s.log
    requires n.head == g.NextUpage(s.head) && n.log.Keys == s.log.Keys + {s.head} && n.tail == s.tail
    ensures LogKept(g, pageSize, n.bad, n.cell, s.head, s.tail, n.log)
    ensures Held(s.tail, n.head, s.head, n.log)
    ensures n.head.blk != s.head.blk ==> NotInBlock(n.log, n.head.blk)
  {
    hide RootLast, Ring, InWindow;
    BasicOf(g, pageSize, false, s);
    BasicOf(g, pageSize, false, n);
    forall p | p in n.log
      ensures PageKept(g, pageSize, n.bad, n.cell, p, n.log[p]) && (p == s.head || InWindow(s.tail, p, s.head))
      ensures InWindow(s.tail, p, n.head) && (n.head.blk != s.head.blk ==> p.blk != n.head.blk)
    {
      LogInWindow(g, pageSize, false, n, p);
      CheckedFar(g, pageSize, s, n, p);
      assert MetaIs(g, n.cell, n.buf, n.head, n.recoverRoot, n.recoverMeta, p, n.log[p].meta);
    }
    TailBelow(g, s.tailSync, s.tail, s.head);
  }

  lemma TailBelow(g: Geo, sync: Page, tail: Page, head: Page)
    requires g.Ok() && Ring(g, sync, tail, head)
    ensures SameBlock(tail, head) ==> Le(tail, head)
  {}

  /** A page of the log and the group that the head moves to. */
  lemma CheckedFar(g: Geo, pageSize: nat, s: State, n: State, p: Page)
    requires InvBase(g, pageSize, false, s) && !s.recovery && g.UserPage(s.head) && g.UserPage(p)
    requires s.head.idx + 2 == g.ppc && NextClear(g, s.tailSync, s.head)
    requires n.head == g.NextUpage(s.head) && (p in s.log || p == s.head)
    ensures !SameGroup(p, g.NextUpage(s.head)) && (p == s.head || InWindow(s.tail, p, s.head))
    ensures g.NextUpage(s.head).blk != s.head.blk ==> p.blk != g.NextUpage(s.head).blk
  {
    hide RootLast, Ring, InWindow, Readable;
    if p != s.head {
      LogInWindow(g, pageSize, false, s, p);
      PushFar(g, s.tailSync, s.tail, s.head, p);
    }
  }

  lemma CheckedMarks(g: Geo, pageSize: nat, bad: seq<bool>, cell: Image, ck: Checkpoint, head: Page, tailSync: Page,
                     epoch: nat, buf: Buffer, cell': Image)
    requires Coupled(g, pageSize, bad, cell, ck, head, tailSync, epoch, 7)
    requires Checked(g, bad, cell, head, epoch, buf, cell')
    ensures Marks(g, bad, cell', head.blk, epoch)
    ensures forall a: nat :: a < head.grp ==> !FreeGroup(g, cell, head.blk, a)
  {
    hide Marks, Groups, Full, FreeGroup, LogKept, Checked, Held, Marked, NotInBlock, Between;
    match ck {
      case NoCheckpoint => FirstMarks(g, bad, cell, head, epoch, buf, cell');
      case Checkpoint(root, rbuf, log) =>
        if head.blk == root.blk {
          LaterMarks(g, bad, cell, head, epoch, buf, cell');
        } else {
          NextMarks(g, bad, cell, root, rbuf.epoch, head, epoch, buf, cell');
        }
    }
  }

  /** A new checkpoint has been programmed: from now on a resume gives the journal as it is. */
  lemma NewCheckpoint(g: Geo, pageSize: nat, s: State, n: State, ck: Checkpoint, epoch: nat, epoch': nat, buf: Buffer)
    requires Coupled(g, pageSize, s.bad, s.cell, ck, s.head, s.tailSync, epoch, 7)
    requires Checked(g, s.bad, s.cell, s.head, epoch, buf, n.cell) && buf.tail == s.tail
    requires InvBase(g, pageSize, false, s) && InvBase(g, pageSize, false, n) && !s.recovery && !n.recovery
    requires g.UserPage(s.head) && NextClear(g, s.tailSync, s.head) && s.head !in s.log
    requires n.head == g.NextUpage(s.head) && n.log.Keys == s.log.Keys + {s.head} && n.tail == s.tail && n.bad == s.bad
    requires epoch' == if n.head == FirstPage(0) then (epoch + 1) % 256 else epoch
    ensures Resumable(g, pageSize, s.bad, n.cell, Checkpoint(s.head, buf, n.log))
    ensures Coupled(g, pageSize, s.bad, n.cell, Checkpoint(s.head, buf, n.log), n.head, s.tail, epoch', 0)
    ensures forall dirty :: Clean(Checkpoint(s.head, buf, n.log), dirty, n.tail, n.head, s.head, n.log)
  {
    CheckedBasics(g, s.bad, s.cell, s.head, epoch, buf, n.cell);
    assert s.head.idx + 2 == g.ppc;
    hide InvBase, Checked, Marks, Groups, Full, FreeGroup, LogKept, Held, TwoGood, RootKept, ChecksOk;
    CheckedMarks(g, pageSize, s.bad, s.cell, ck, s.head, s.tailSync, epoch, buf, n.cell);
    CheckedGroups(g, s.bad, s.cell, s.head, epoch, buf, n.cell);
    CheckedLog(g, pageSize, s, n);
    CheckedStanding(g, s.bad, n.cell, s.head, epoch, epoch');
    assert buf.epoch == epoch by { CheckedEpoch(g, s.bad, s.cell, s.head, epoch, buf, n.cell); }
    hide Standing;
    assert Full(g, n.cell, s.head.blk) ==> n.head == FirstPage(g.NextBlock(s.head.blk));
    assert Resumable(g, pageSize, s.bad, n.cell, Checkpoint(s.head, buf, n.log));
  }

  lemma CheckedEpoch(g: Geo, bad: seq<bool>, cell: Image, head: Page, epoch: nat, buf: Buffer, cell': Image)
    requires Checked(g, bad, cell, head, epoch, buf, cell')
    ensures buf.epoch == epoch
  {}

  lemma CheckedStanding(g: Geo, bad: seq<bool>, cell: Image, head: Page, epoch: nat, epoch': nat)
    requires g.Ok() && g.UserPage(head) && head.idx + 2 == g.ppc && |bad| == g.blocks
    requires forall a: nat :: a <= head.grp ==> !FreeGroup(g, cell, head.blk, a)
    requires Full(g, cell, head.blk) <==> head.grp + 1 == g.cpb
    requires epoch' == if g.NextUpage(head) == FirstPage(0) then (epoch + 1) % 256 else epoch
    ensures Standing(g, bad, cell, head, epoch, g.NextUpage(head), epoch', 0)
  {
    hide FreeGroup, Full;
  }

  // ---------------------------------------------------------------- dequeuing

  /** A clean dequeue reuses its page at once, so the checkpoint no longer stands for it.  The
      root's own page stays: the head has yet to leave its block. */
  function Forget(ck: Checkpoint, p: Page): (r: Checkpoint)
    ensures r.NoCheckpoint? <==> ck.NoCheckpoint?
    ensures ck.Checkpoint? ==> r.root == ck.root && r.buf == ck.buf
    ensures ck.Checkpoint? ==> forall q :: q in r.log <==> q in ck.log && (if p == ck.root then q == p else q != p)
    ensures ck.Checkpoint? ==> forall q :: q in r.log ==> r.log[q] == ck.log[q]
  {
    match ck
    case NoCheckpoint => NoCheckpoint
    case Checkpoint(root, buf, log) =>
      Checkpoint(root, buf, map q | q in log && (if p == root then q == p else q != p) :: log[q])
  }

  lemma ForgetResumable(g: Geo, pageSize: nat, bad: seq<bool>, cell: Image, ck: Checkpoint, p: Page)
    requires Resumable(g, pageSize, bad, cell, ck)
    ensures Resumable(g, pageSize, bad, cell, Forget(ck, p))
  {
    hide Marks, Groups, Full, Marked, InWindow;
    if ck.Checkpoint? {
      var log := Forget(ck, p).log;
      forall q | q in log
        ensures PageKept(g, pageSize, bad, cell, q, log[q])
      {
        assert PageKept(g, pageSize, bad, cell, q, ck.log[q]);
      }
    }
  }

  /** Dequeuing from a clean journal. */
  lemma ForgetCoupled(g: Geo, pageSize: nat, s: State, ck: Checkpoint, epoch: nat)
    requires Coupled(g, pageSize, s.bad, s.cell, ck, s.head, s.tailSync, epoch, 0)
    requires Clean(ck, false, s.tail, s.head, s.root, s.log)
    requires Inv(g, pageSize, false, s) && !s.recovery && s.tail != s.head
    ensures Coupled(g, pageSize, s.bad, s.cell, Forget(ck, s.tail), s.head, g.NextUpage(s.tail), epoch, 0)
    ensures Clean(Forget(ck, s.tail), false, g.NextUpage(s.tail), s.head,
                  if s.root == s.tail then Page.None else s.root, s.log - {s.tail})
  {
    ForgetResumable(g, pageSize, s.bad, s.cell, ck, s.tail);
    ForgetHeld(g, pageSize, s, ck);
    if ck.Checkpoint? { RootOfLog(g, pageSize, s.bad, s.cell, ck); }
    ForgetClean(ck, s.tail, g.NextUpage(s.tail), s.head, s.root, s.log);
    hide Resumable, Inv, Standing, Held, TwoGood, Clean;
  }

  lemma ForgetClean(ck: Checkpoint, tail: Page, tail': Page, head: Page, root: Page, log: Log)
    requires Clean(ck, false, tail, head, root, log) && tail != head
    requires ck.Checkpoint? ==> ck.root in ck.log && ck.root != Page.None
    ensures Clean(Forget(ck, tail), false, tail', head, if root == tail then Page.None else root, log - {tail})
  {
    if ck.Checkpoint? && root == ck.root && log == ck.log {
      if tail == root {
        assert Forget(ck, tail).log.Keys == {ck.root};
      } else {
        assert Forget(ck, tail).log == log - {tail};
      }
    } else if ck.Checkpoint? {
      assert Forget(ck, tail).log.Keys == {ck.root};
    }
  }

  /** Forgetting the root of an empty log. */
  lemma RootlessClean(g: Geo, pageSize: nat, bad: seq<bool>, cell: Image, ck: Checkpoint,
                      dirty: bool, tail: Page, head: Page, root: Page, tail': Page)
    requires Resumable(g, pageSize, bad, cell, ck) && Clean(ck, dirty, tail, head, root, map[]) && tail != head
    ensures Clean(ck, dirty, tail', head, root, map[]) && Clean(ck, dirty, tail', head, Page.None, map[])
  {
    if ck.Checkpoint? { RootOfLog(g, pageSize, bad, cell, ck); }
    hide Resumable;
  }

  lemma RootOfLog(g: Geo, pageSize: nat, bad: seq<bool>, cell: Image, ck: Checkpoint)
    requires Resumable(g, pageSize, bad, cell, ck) && ck.Checkpoint?
    ensures ck.root in ck.log && ck.root != Page.None
  {
    hide Marks, Groups, Full, PageKept;
  }

  lemma ForgetHeld(g: Geo, pageSize: nat, s: State, ck: Checkpoint)
    requires Clean(ck, false, s.tail, s.head, s.root, s.log)
    requires Inv(g, pageSize, false, s) && !s.recovery && s.tail != s.head
    requires ck.Checkpoint? ==> Held(s.tailSync, s.head, ck.root, ck.log)
    ensures ck.Checkpoint? ==> Held(g.NextUpage(s.tail), s.head, ck.root, Forget(ck, s.tail).log)
  {
    hide InWindow, Readable, Recovering, HeadReady;
    DequeuePlaced(g, s);
  }

  // ---------------------------------------------------------------- two good blocks

  /** No block that `find_checkblock` looks at from block 0 has a checkpoint in its first group. */
  ghost predicate Unmarked(g: Geo, bad: seq<bool>, cell: Image) {
    forall b: nat :: b < 8 ==> !Marked(g, bad, cell, b)
  }

  /** Once the only good block among the first eight has been erased, none of them is marked, so a
      resume gives up. With a second good block among them a mark remains. */
  lemma WrapNeedsTwoGood(g: Geo, pageSize: nat, bad: seq<bool>, cell: Image, blk: nat, ck: Checkpoint)
    requires g.Ok() && g.Covers(cell) && |bad| == g.blocks && blk < 8 && IsGood(bad, blk)
    ensures !TwoGood(bad) ==> Unmarked(g, bad, EraseBlock(cell, blk))
    ensures Resumable(g, pageSize, bad, EraseBlock(cell, blk), ck) && ck.Checkpoint? ==>
      TwoGood(bad) && !Unmarked(g, bad, EraseBlock(cell, blk))
  {
    hide Groups, Full, LogKept, ChecksOk;
    var cell' := EraseBlock(cell, blk);
    if b: nat :| b < 8 && Marked(g, bad, cell', b) {
      assert b != blk;
      var lo, hi := if b < blk then b else blk, if b < blk then blk else b;
      assert 0 <= lo < hi < 8 && hi < |bad| && !bad[lo] && !bad[hi];
    }
    if Resumable(g, pageSize, bad, cell', ck) && ck.Checkpoint? {
      assert NextMark(g, bad, cell', 0, ck.root.blk);
    }
  }
}
