/** States from which the journal does not keep what it promises when a block fails, with the exact
    condition on which it does. */
module Failures {
  import opened Bits
  import opened Geometry
  import opened PageNumbers
  import opened Tree
  import opened Nand
  import opened JournalState
  import opened Durability
  import opened MapState
  import opened Resumption
  import opened Journal

  // ---------------------------------------------------------------- metadata dumped after a resume

  /** The page buffer holds the metadata of every page of the root's group. */
  ghost predicate BufferServes(s: State) {
    forall p :: p in s.log && SameGroup(p, s.root) ==> p.idx < |s.buf.metas| && s.buf.metas[p.idx] == s.log[p].meta
  }

  /** The head is inside a group that holds no page of the queue: a state that a resume leaves. */
  ghost predicate MidGroup(g: Geo, pageSize: nat, s: State) {
    InvBase(g, pageSize, false, s) && !s.recovery && s.root != Page.None && !GroupStart(s.head) &&
      !SameGroup(s.root, s.head)
  }

  /** The chip after the page buffer has been dumped at the start of another block. */
  ghost predicate DumpedTo(g: Geo, s: State, dump: Page, cell: Image) {
    g.UserPage(dump) && BlockStart(dump) && g.Covers(s.cell) && g.Covers(cell) && cell[dump] == Check(s.buf) &&
    (forall p :: p in s.log ==> !SameBlock(p, dump)) &&
    (forall q :: g.OnChip(q) && !SameBlock(q, dump) ==> cell[q] == s.cell[q])
  }

  /** In such a state no page of the queue is in the head's group. */
  lemma HeadGroupEmpty(g: Geo, pageSize: nat, s: State, p: Page)
    requires MidGroup(g, pageSize, s) && p in s.log
    ensures g.UserPage(p) && !SameGroup(p, s.head)
    ensures s.root in s.log && SameBlock(s.root, s.head)
  {
    hide Readable, InWindow, Ring;
    assert !BlockStart(s.head);
    assert g.UserPage(s.root);
    if SameGroup(p, s.head) { RootBelow(g, pageSize, s); }
  }

  lemma RootBelow(g: Geo, pageSize: nat, s: State)
    requires MidGroup(g, pageSize, s)
    ensures g.UserPage(s.root) && Lt(s.root, s.head)
  {
    hide Readable;
    BelowHead(g, s.tailSync, s.tail, s.head, s.root);
  }

  /** A block fails while the head is in such a group.  The dumped buffer then stands for the group
      of the root; the queue stays readable if and only if the buffer has that group's metadata. */
  lemma DumpServesRoot(g: Geo, pageSize: nat, s: State, dump: Page, cell: Image, buf: Buffer)
    requires MidGroup(g, pageSize, s) && DumpedTo(g, s, dump, cell)
    ensures Readable(g, pageSize, cell, buf, g.NextUpage(dump), s.root, dump, s.log) <==> BufferServes(s)
  {
    hide InWindow, Ring, Placed, RootLast;
    var next := g.NextUpage(dump);
    assert SameBlock(next, dump);
    forall p | p in s.log
      ensures p in cell && ReadsAs(pageSize, cell[p], s.log[p].data)
      ensures MetaIs(g, cell, buf, next, s.root, dump, p, s.log[p].meta) <==>
        (SameGroup(p, s.root) ==> p.idx < |s.buf.metas| && s.buf.metas[p.idx] == s.log[p].meta)
    {
      HeadGroupEmpty(g, pageSize, s, p);
      assert MetaIs(g, s.cell, s.buf, s.head, Page.None, Page.None, p, s.log[p].meta);
    }
  }

  /** What a read of the metadata of a page in the root's group gives: the dumped slot. */
  lemma DumpReadsBuffer(g: Geo, pageSize: nat, s: State, dump: Page, cell: Image, buf: Buffer, p: Page, meta: Meta)
    requires MidGroup(g, pageSize, s) && DumpedTo(g, s, dump, cell) && p in s.log && SameGroup(p, s.root)
    ensures MetaIs(g, cell, buf, g.NextUpage(dump), s.root, dump, p, meta) <==>
      p.idx < |s.buf.metas| && s.buf.metas[p.idx] == meta
  {
    hide InWindow, Ring, Placed, RootLast, Readable;
    assert SameBlock(g.NextUpage(dump), dump);
  }

  /** The metadata is that of filler, all bytes 0xff. */
  predicate IsFiller(m: Meta) {
    m.id == SECTOR_NONE && |m.alts| == RADIX_DEPTH && forall k :: 0 <= k < RADIX_DEPTH ==> m.alts[k] == Page.None
  }

  lemma FillerIs(m: Meta)
    ensures IsFiller(m) <==> m == META_NONE
  {
    if IsFiller(m) { assert m.alts == META_NONE.alts; }
  }

  predicate Blanked(b: Buffer) {
    forall i :: 0 <= i < |b.metas| ==> IsFiller(b.metas[i])
  }

  /** Right after a resume the buffer is blank.  If a block fails before the first page is enqueued, the
      queue stays readable if and only if the root's group holds nothing but filler; otherwise the root
      reads as filler, and no sector is found. */
  lemma ResumedDump(g: Geo, pageSize: nat, bad: seq<bool>, cell0: Image, ck: Checkpoint, grp: nat, head: Page,
                    buf0: Buffer, dump: Page, cell: Image, buf: Buffer)
    requires Resumable(g, pageSize, bad, cell0, ck) && ck.Checkpoint? && g.ppc >= 3 && TwoGood(bad)
    requires LastUsed(g, cell0, ck.root.blk, grp) && HeadFound(g, cell0, ck.root.blk, grp, head)
    requires BufferOk(g, buf0) && Blanked(buf0) && !GroupStart(head)
    requires DumpedTo(g, Resumed(cell0, bad, head, TailAfter(g, head, ck.buf.tail), ck.root, buf0, ck.log), dump, cell)
    ensures Readable(g, pageSize, cell, buf, g.NextUpage(dump), ck.root, dump, ck.log) <==>
      forall p :: p in ck.log && SameGroup(p, ck.root) ==> IsFiller(ck.log[p].meta)
    ensures MetaIs(g, cell, buf, g.NextUpage(dump), ck.root, dump, ck.root, META_NONE)
  {
    var s := Resumed(cell0, bad, head, TailAfter(g, head, ck.buf.tail), ck.root, buf0, ck.log);
    ResumedKeeps(g, pageSize, bad, cell0, ck, grp, head, ck.buf.epoch, buf0);
    ResumedMidGroup(g, pageSize, bad, cell0, ck, grp, head, s);
    hide Resumable, Inv, Coupled, LastUsed, HeadFound, Readable, DumpedTo, MetaIs, TwoGood;
    DumpServesRoot(g, pageSize, s, dump, cell, buf);
    HeadGroupEmpty(g, pageSize, s, ck.root);
    DumpReadsBuffer(g, pageSize, s, dump, cell, buf, ck.root, META_NONE);
    forall p | p in s.log && SameGroup(p, s.root)
      ensures p.idx < |buf0.metas| && (buf0.metas[p.idx] == s.log[p].meta <==> IsFiller(s.log[p].meta))
    {
      HeadGroupEmpty(g, pageSize, s, p);
      FillerIs(buf0.metas[p.idx]);
      FillerIs(s.log[p].meta);
    }
    FillerIs(buf0.metas[ck.root.idx]);
  }

  lemma ResumedMidGroup(g: Geo, pageSize: nat, bad: seq<bool>, cell: Image, ck: Checkpoint, grp: nat, head: Page,
                        s: State)
    requires Resumable(g, pageSize, bad, cell, ck) && ck.Checkpoint? && g.ppc >= 3
    requires LastUsed(g, cell, ck.root.blk, grp) && HeadFound(g, cell, ck.root.blk, grp, head) && !GroupStart(head)
    requires Inv(g, pageSize, false, s) && !s.recovery && s.root == ck.root && s.head == head
    ensures MidGroup(g, pageSize, s)
  {
    FoundStanding(g, pageSize, bad, cell, ck.root, ck.buf, grp, head, ck.buf.epoch);
    hide Marks, Groups, LastUsed, FreeGroup, Full, InvBase;
    StandingAfter(g, bad, cell, ck.root, ck.buf.epoch, head, ck.buf.epoch);
  }

  // ---------------------------------------------------------------- a chip that a power cut leaves

  /** Two blocks of two groups with three user pages each. */
  function Small(): Geo {
    Geo(4, 2, 2)
  }

  /** The checkpoint after three writes. */
  function SmallBuffer(m: Meta): Buffer {
    Buffer(true, 0, Page(0, 0, 2), 0, 0, 1, [m, m, m])
  }

  function SmallCheckpoint(m: Meta, d: PageData): Checkpoint {
    Checkpoint(Page(0, 0, 2), SmallBuffer(m), map[Page(0, 0, 2) := Entry(m, d)])
  }

  /** The power was cut after a fourth write, before the second checkpoint. */
  function SmallImage(m: Meta, d: PageData): Image {
    BlankImage(Small())[Page(0, 0, 0) := Data(d)][Page(0, 0, 1) := Data(d)][Page(0, 0, 2) := Data(d)]
      [Page(0, 0, 3) := Check(SmallBuffer(m))][Page(0, 1, 0) := Data(d)]
  }

  function SmallContent(m: Meta, d: PageData, p: Page): Content {
    if p == Page(0, 0, 3) then Check(SmallBuffer(m))
    else if p.Page? && p.blk == 0 && (p.grp == 0 || p.idx == 0) then Data(d)
    else Erased
  }

  lemma SmallCells(m: Meta, d: PageData, p: Page)
    ensures Small().Covers(SmallImage(m, d))
    ensures Small().OnChip(p) ==> SmallImage(m, d)[p] == SmallContent(m, d, p)
  {
    BlankCovers(Small());
  }

  /** It can be resumed, and the head is found inside the second group. */
  lemma SmallResumes(pageSize: nat, m: Meta, d: PageData)
    ensures var g, cell, bad := Small(), SmallImage(m, d), [false, false];
      Resumable(g, pageSize, bad, cell, SmallCheckpoint(m, d)) && TwoGood(bad) &&
      LastUsed(g, cell, 0, 1) && HeadFound(g, cell, 0, 1, Page(0, 1, 1))
  {
    var g, cell, bad := Small(), SmallImage(m, d), [false, false];
    forall p
      ensures g.Covers(cell) && (g.OnChip(p) ==> cell[p] == SmallContent(m, d, p))
    {
      SmallCells(m, d, p);
    }
    SmallCells(m, d, Page(0, 0, 0));
    hide SmallImage;
    SmallMarks(m, cell);
    assert !bad[0] && !bad[1];
    assert !FreeGroup(g, cell, 0, 0) by { assert g.OnChip(Page(0, 0, 0)); }
    assert !FreeGroup(g, cell, 0, 1) by { assert g.OnChip(Page(0, 1, 0)); }
    hide Marks;
  }

  lemma SmallMarks(m: Meta, cell: Image)
    requires Small().Covers(cell) && cell[Page(0, 0, 3)] == Check(SmallBuffer(m)) && cell[Page(1, 0, 3)] == Erased
    ensures Marks(Small(), [false, false], cell, 0, 0)
  {
    assert Marked(Small(), [false, false], cell, 0);
  }

  /** The next block is erased and the blank buffer dumped there: the page of the sector is still on the
      chip, and the metadata read for it is that of filler. */
  lemma SmallLosesRoot(pageSize: nat, m: Meta, d: PageData, buf0: Buffer, buf: Buffer)
    requires m.id != SECTOR_NONE && BufferOk(Small(), buf0) && Blanked(buf0)
    ensures var root, dump := Page(0, 0, 2), Page(1, 0, 0);
      var cell, log := SmallImage(m, d)[dump := Check(buf0)], SmallCheckpoint(m, d).log;
      !Readable(Small(), pageSize, cell, buf, Page(1, 0, 1), root, dump, log) &&
      MetaIs(Small(), cell, buf, Page(1, 0, 1), root, dump, root, META_NONE)
  {
    var g, ck, bad := Small(), SmallCheckpoint(m, d), [false, false];
    var root, dump := Page(0, 0, 2), Page(1, 0, 0);
    SmallResumes(pageSize, m, d);
    SmallDump(m, d, buf0);
    var cell := SmallImage(m, d)[dump := Check(buf0)];
    assert root in ck.log && !IsFiller(ck.log[root].meta) && SameGroup(root, root);
    hide SmallImage, Readable, Resumable, LastUsed, HeadFound, TwoGood, Blanked, MetaIs, DumpedTo, Resumed, IsFiller;
    ResumedDump(g, pageSize, bad, SmallImage(m, d), ck, 1, Page(0, 1, 1), buf0, dump, cell, buf);
  }

  lemma SmallDump(m: Meta, d: PageData, buf0: Buffer)
    ensures var ck, head, dump := SmallCheckpoint(m, d), Page(0, 1, 1), Page(1, 0, 0);
      var tail := TailAfter(Small(), head, ck.buf.tail);
      var s := Resumed(SmallImage(m, d), [false, false], head, tail, ck.root, buf0, ck.log);
      DumpedTo(Small(), s, dump, SmallImage(m, d)[dump := Check(buf0)])
  {
    SmallCells(m, d, Page(1, 0, 0));
    hide SmallImage;
  }

  // ---------------------------------------------------------------- a power cut during recovery

  /** The metadata of page `p` as it is read without what is known in memory only, the place of the dumped
      metadata. */
  ghost predicate ReadAfterCut(g: Geo, s: State, p: Page, meta: Meta) {
    MetaIs(g, s.cell, s.buf, s.head, Page.None, Page.None, p, meta)
  }

  /** A checkpoint has just been completed during recovery.  After a power cut the metadata of the pages of
      the failed group is on no page where it is looked for, that of all other pages is. */
  lemma CutForgetsDump(g: Geo, pageSize: nat, s: State, p: Page)
    requires InvBase(g, pageSize, true, s) && s.recovery && s.recoverMeta != Page.None && GroupStart(s.head)
    requires p in s.log
    ensures p in s.cell && ReadsAs(pageSize, s.cell[p], s.log[p].data) && p != Page.None
    ensures if SameGroup(p, s.recoverRoot) then forall m :: !ReadAfterCut(g, s, p, m)
            else ReadAfterCut(g, s, p, s.log[p].meta)
  {
    hide InWindow, Ring, HeadReady, Evacuating;
    assert g.UserPage(p) && !SameGroup(p, s.head) by {
      if SameBlock(p, s.head) { BelowHead(g, s.tailSync, s.tail, s.head, p); }
    }
    assert MetaIs(g, s.cell, s.buf, s.head, s.recoverRoot, s.recoverMeta, p, s.log[p].meta);
  }

  /** `part` holds pages of `log`, with what the log says of them. */
  ghost predicate PartOf(part: Log, log: Log) {
    forall p :: p in part ==> p in log && part[p] == log[p]
  }

  /** The pages that a resume can still read make up the sector map. */
  ghost predicate StillMaps(g: Geo, pageSize: nat, s: State, part: Log, view: View) {
    PartOf(part, s.log) && Readable(g, pageSize, s.cell, s.buf, s.head, Page.None, Page.None, part) &&
    Maps(part, s.root, view)
  }

  /** After a power cut at such a moment the sector map is still there if and only if no lookup visits a page
      of the failed group any more. */
  lemma CutKeepsMap(g: Geo, pageSize: nat, s: State, view: View)
    requires InvBase(g, pageSize, true, s) && s.recovery && s.recoverMeta != Page.None && GroupStart(s.head)
    requires Maps(s.log, s.root, view)
    ensures (exists part :: StillMaps(g, pageSize, s, part, view)) <==>
      forall p :: Live(Metas(s.log), s.root, p) ==> !SameGroup(p, s.recoverRoot)
  {
    hide InvBase, Maps, Live, MetaIs;
    if part: Log :| StillMaps(g, pageSize, s, part, view) {
      forall p | Live(Metas(s.log), s.root, p)
        ensures !SameGroup(p, s.recoverRoot)
      {
        PartHasLive(s.log, part, s.root, view, p);
        CutForgetsDump(g, pageSize, s, p);
        assert ReadAfterCut(g, s, p, part[p].meta);
      }
    }
    if forall p :: Live(Metas(s.log), s.root, p) ==> !SameGroup(p, s.recoverRoot) {
      var part := map p | p in s.log && !SameGroup(p, s.recoverRoot) :: s.log[p];
      forall p | p in part
        ensures p in s.cell && ReadsAs(pageSize, s.cell[p], part[p].data) && ReadAfterCut(g, s, p, part[p].meta)
      {
        CutForgetsDump(g, pageSize, s, p);
      }
      MapsFrame(s.log, part, s.root, view);
      assert StillMaps(g, pageSize, s, part, view);
    }
  }

  /** A part of the log that holds the same map holds every page that a lookup visits. */
  lemma PartHasLive(log: Log, part: Log, root: Page, view: View, p: Page)
    requires PartOf(part, log) && Maps(log, root, view) && Maps(part, root, view) && Live(Metas(log), root, p)
    ensures p in part
  {
    hide Live, Maps, Visit;
    var m, m' := Metas(log), Metas(part);
    GoodOf(log, root, view);
    GoodOf(part, root, view);
    if Holds(m, root) { RootMapped(log, part, root, view); }
    forall q | Live(m', root, q)
      ensures q in m' && q in m && m[q] == m'[q]
    {
      LiveIsCurrent(m', root, q);
      assert q in part;
    }
    Frame(m', m, root);
    assert Live(m', root, p);
    LiveIsCurrent(m', root, p);
  }

  /** If the root holds a sector, then it does in every part of the log with the same map. */
  lemma RootMapped(log: Log, part: Log, root: Page, view: View)
    requires Maps(log, root, view) && Maps(part, root, view) && Holds(Metas(log), root)
    ensures Holds(Metas(part), root)
  {
    var m := Metas(log);
    assert Visit(m, root, m[root].id, 0) == root;
    assert root != Page.None;
    assert Live(m, root, root);
    LiveIsCurrent(m, root, root);
    var t := m[root].id;
    assert Located(log, view, t, Find(m, root, t)) && Located(part, view, t, Find(Metas(part), root, t));
    if !Holds(Metas(part), root) { NothingFound(Metas(part), root, t, RADIX_DEPTH); }
  }

  lemma {:induction false} NothingFound(m: Store, root: Page, t: Sector, d: nat)
    requires !Holds(m, root) && Page.None !in m && d <= RADIX_DEPTH
    ensures Visit(m, root, t, d) == Page.None
  {
    if d > 0 { NothingFound(m, root, t, d - 1); }
  }

  /** The first block holds a full group, `e[..3]`, and one more page, `e[3]`, after which it failed.  Its
      metadata is on the first page of the second block, followed by the first two pages rewritten and
      a checkpoint. */
  function CutBuffer(a: Meta, b: Meta, c: Meta): Buffer {
    Buffer(true, 0, FirstPage(0), 0, 0, 0, [a, b, c])
  }

  function CutContent(e: seq<Entry>, p: Page): Content
    requires |e| == 6
  {
    match p
    case None => Erased
    case Page(b, k, i) =>
      if b == 0 && k == 0 then if i < 3 then Data(e[i].data) else Check(CutBuffer(e[0].meta, e[1].meta, e[2].meta))
      else if b == 0 then if i == 0 then Data(e[3].data) else if i == 1 then Torn else Erased
      else if k == 1 then Erased
      else if i == 0 then Check(CutBuffer(e[3].meta, e[3].meta, e[3].meta))
      else if i < 3 then Data(e[i + 3].data)
      else Check(CutBuffer(e[4].meta, e[4].meta, e[5].meta))
  }

  function CutImage(e: seq<Entry>): Image
    requires |e| == 6
  {
    var blank := BlankImage(Small());
    map p | p in blank :: CutContent(e, p)
  }

  function CutBase(e: seq<Entry>): Log
    requires |e| == 6
  {
    map[Page(0, 0, 0) := e[0], Page(0, 0, 1) := e[1], Page(0, 0, 2) := e[2], Page(0, 1, 0) := e[3]]
  }

  function CutState(e: seq<Entry>): State
    requires |e| == 6
  {
    State(CutImage(e), [false, false], Page(1, 1, 0), FirstPage(0), FirstPage(0), Page(1, 0, 2),
          true, false, false, Page(0, 0, 2), Page(0, 1, 0), FirstPage(1),
          CutBuffer(e[4].meta, e[4].meta, e[5].meta),
          CutBase(e)[Page(1, 0, 1) := e[4]][Page(1, 0, 2) := e[5]], CutBase(e))
  }

  lemma CutCells(e: seq<Entry>)
    requires |e| == 6
    ensures Small().Covers(CutImage(e)) && ChecksOk(Small(), CutImage(e))
    ensures forall p :: Small().OnChip(p) ==> CutImage(e)[p] == CutContent(e, p)
  {
    BlankCovers(Small());
  }

  /** The journal is sound, and its checkpoint is the last on the chip.  When the power goes now, a resume
      finds it, but no metadata for the page of the failed group that was still to be rewritten. */
  lemma CutLosesPage(pageSize: nat, e: seq<Entry>)
    requires |e| == 6
    ensures var g, s := Small(), CutState(e);
      Inv(g, pageSize, true, s) && s.recovery && !s.enumDone && GroupStart(s.head) &&
      RootKept(g, s.bad, s.cell, s.root, s.buf) && Marks(g, s.bad, s.cell, s.root.blk, s.buf.epoch) &&
      Groups(g, s.cell, s.root.blk, s.root.grp) &&
      Page(0, 1, 0) in s.log && !PageKept(g, pageSize, s.bad, s.cell, Page(0, 1, 0), e[3]) &&
      !Resumable(g, pageSize, s.bad, s.cell, Checkpoint(s.root, s.buf, s.log))
  {
    var g, s := Small(), CutState(e);
    CutSound(pageSize, e);
    CutMarks(e);
    CutGroups(e);
    CutCells(e);
    hide CutImage, Inv, Marks, Groups;
    assert g.OnChip(Page(0, 1, 3)) && s.log[Page(0, 1, 0)] == e[3];
  }

  lemma CutSound(pageSize: nat, e: seq<Entry>)
    requires |e| == 6
    ensures Inv(Small(), pageSize, true, CutState(e))
  {
    CutCells(e);
    CutReadable(pageSize, e);
    CutPlaced(e);
    CutRecovering(e);
    hide CutImage, CutBase, Readable, Placed, Recovering, InWindow;
  }

  lemma CutReadable(pageSize: nat, e: seq<Entry>)
    requires |e| == 6
    ensures var s := CutState(e);
      Readable(Small(), pageSize, s.cell, s.buf, s.head, s.recoverRoot, s.recoverMeta, s.log)
  {
    CutCells(e);
    hide CutImage;
  }

  lemma CutPlaced(e: seq<Entry>)
    requires |e| == 6
    ensures var g, s := Small(), CutState(e);
      Placed(g, s.bad, s.tail, s.head, s.log) && Ring(g, s.tailSync, s.tail, s.head)
  {
    hide CutImage;
  }

  lemma CutRecovering(e: seq<Entry>)
    requires |e| == 6
    ensures Recovering(Small(), true, CutState(e))
  {
    CutCells(e);
    hide CutImage;
  }

  lemma CutGroups(e: seq<Entry>)
    requires |e| == 6
    ensures Groups(Small(), CutImage(e), 1, 0)
  {
    CutCells(e);
    hide CutImage;
    assert !FreeGroup(Small(), CutImage(e), 1, 0) by { assert Small().OnChip(Page(1, 0, 0)); }
    hide FreeGroup;
  }

  lemma CutMarks(e: seq<Entry>)
    requires |e| == 6
    ensures Marks(Small(), [false, false], CutImage(e), 1, 0)
  {
    CutCells(e);
    hide CutImage;
    assert Marked(Small(), [false, false], CutImage(e), 0);
    assert Marked(Small(), [false, false], CutImage(e), 1);
  }

  // ---------------------------------------------------------------- pages dropped

  /** A page that has been dropped although its enqueue is reported as a success: the journal is sound
      before and after, its queue is the same, and the data is nowhere in it. */
  lemma PageDropped(pageSize: nat, entry: Entry)
    ensures var g := Geo(2, 2, 2);
      var o := Resumed(BlankImage(g), [false, false], FirstPage(0), FirstPage(0), Page.None, BlankBuffer(g), map[]);
      var cell := o.cell[FirstPage(0) := Data(entry.data)][Page(0, 0, 1) := Torn];
      var n := o.(cell := cell, bad := [true, false], head := FirstPage(1));
      LosesPage(g, o) && Inv(g, pageSize, true, o) && Inv(g, pageSize, true, n) && Dropped(g, o, n) &&
      !Enqueued(o, n, entry) && forall p :: p !in n.log
  {
    BlankCovers(Geo(2, 2, 2));
  }

  // ---------------------------------------------------------------- recovery without a root

  /** The journal is cleared while its head is inside a block, and the next page is written: if the
      block fails, recovery begins without a root, beyond the chip. */
  method WriteAfterClear(journal: Journal, data: PageData, meta: Meta) returns (r: Outcome)
    requires journal.Valid() && !journal.recovery && !BlockStart(journal.head)
    modifies journal, journal.nand
    ensures r == Err(Recover) ==>
      journal.Rootless() && journal.recoverNext == BlockBase(journal.g, Page.None) && !journal.nand.reliable
  {
    hide Inv, InvBase, Coupled, Clean, Journal.Accepted;
    journal.Clear();
    ghost var torn;
    r, torn := journal.Enqueue(Option.Some(data), meta);
  }

  /** Such a journal: one page has been written at the start of the chip, and then all is cleared. */
  lemma ClearedInside(pageSize: nat, d: PageData)
    ensures var g := Geo(4, 2, 2);
      var s := Resumed(BlankImage(g)[FirstPage(0) := Data(d)], [false, false], Page(0, 0, 1), Page(0, 0, 1), Page.None,
                       BlankBuffer(g), map[]);
      Inv(g, pageSize, true, s) && !s.recovery && s.root == Page.None && !BlockStart(s.head)
  {
    BlankCovers(Geo(4, 2, 2));
  }

  // ---------------------------------------------------------------- a single user page per group

  /** The journal that a resume sets up keeps the pages of its checkpoint, and its head stands at most
      `steps` bad blocks past the block where it belongs. */
  ghost predicate Stands(g: Geo, bad: seq<bool>, cell: Image, ck: Checkpoint, head: Page, tail: Page, epoch: nat,
                         steps: nat)
    requires ck.Checkpoint?
  {
    Ring(g, tail, tail, head) && Placed(g, bad, tail, head, ck.log) &&
    Standing(g, bad, cell, ck.root, ck.buf.epoch, head, epoch, steps)
  }

  /** The block skipped was a bad one, without room for the head, and the block after it holds nothing. */
  ghost predicate SkipsBad(g: Geo, bad: seq<bool>, cell: Image, ck: Checkpoint)
    requires ck.Checkpoint? && ck.root.Page?
  {
    var next := g.NextBlock(ck.root.blk);
    IsBad(bad, next) && UsedGroups(g, cell, next, 0, g.cpb) && g.NextBlock(next) != ck.root.blk &&
    !SameBlock(ck.buf.tail, FirstPage(next)) && NotInBlock(ck.log, g.NextBlock(next))
  }

  /** With a single user page per group the journal that a resume sets up is that of the checkpoint if
      and only if the search for the head lands, or skips a bad block that it may skip. */
  lemma SingleKeeps(g: Geo, pageSize: nat, bad: seq<bool>, cell: Image, ck: Checkpoint, grp: nat,
                    head: Page, tail: Page, epoch: nat, steps: nat)
    requires Resumable(g, pageSize, bad, cell, ck) && ck.Checkpoint? && g.ppc == 2 && steps <= 7
    requires ck.root.Page? && ck.root.blk < g.blocks && LastUsed(g, cell, ck.root.blk, grp)
    requires SingleFound(g, cell, ck.root.blk, grp, ck.buf.tail, ck.buf.epoch, head, tail, epoch)
    ensures Stands(g, bad, cell, ck, head, tail, epoch, steps) <==>
      Lands(g, cell, ck) || (steps > 0 && SkipsBad(g, bad, cell, ck))
  {
    RootGroupUsed(g, pageSize, bad, cell, ck, grp);
    if Lands(g, cell, ck) {
      SingleLands(g, cell, ck.root.blk, grp, ck.buf.tail, ck.buf.epoch, head, tail, epoch);
      LandedStands(g, pageSize, bad, cell, ck, grp, head, tail, epoch, steps);
    } else {
      SingleMisses(g, pageSize, bad, cell, ck, grp, head, tail, epoch, steps);
    }
  }

  lemma RootGroupUsed(g: Geo, pageSize: nat, bad: seq<bool>, cell: Image, ck: Checkpoint, grp: nat)
    requires Resumable(g, pageSize, bad, cell, ck) && ck.Checkpoint? && ck.root.Page?
    requires LastUsed(g, cell, ck.root.blk, grp)
    ensures ck.root.grp <= grp && !FreeGroup(g, cell, ck.root.blk, grp)
  {
    hide Marks, LogKept, ChecksOk, Full;
    var check := g.CheckPage(ck.root);
    assert g.OnChip(check) && cell[check] != Erased && !FreeGroup(g, cell, ck.root.blk, ck.root.grp);
    assert ck.root.grp <= grp;
  }

  lemma LandedStands(g: Geo, pageSize: nat, bad: seq<bool>, cell: Image, ck: Checkpoint, grp: nat,
                     head: Page, tail: Page, epoch: nat, steps: nat)
    requires Resumable(g, pageSize, bad, cell, ck) && ck.Checkpoint? && ck.root.Page?
    requires LastUsed(g, cell, ck.root.blk, grp) && HeadFound(g, cell, ck.root.blk, grp, head)
    requires tail == TailAfter(g, head, ck.buf.tail) && epoch == EpochAt(head, ck.buf.epoch)
    ensures Stands(g, bad, cell, ck, head, tail, epoch, steps)
  {
    FoundStanding(g, pageSize, bad, cell, ck.root, ck.buf, grp, head, epoch);
    hide Marks, Groups, LastUsed, HeadFound, FreeGroup, Full, Ring, InWindow, ChecksOk, LogKept;
    StandingAfter(g, bad, cell, ck.root, ck.buf.epoch, head, epoch);
    FoundPlaced(g, pageSize, bad, cell, ck, head);
  }

  /** The block of the root is full, and the search does not land in the next. */
  lemma SingleMisses(g: Geo, pageSize: nat, bad: seq<bool>, cell: Image, ck: Checkpoint, grp: nat,
                     head: Page, tail: Page, epoch: nat, steps: nat)
    requires Resumable(g, pageSize, bad, cell, ck) && ck.Checkpoint? && g.ppc == 2 && steps <= 7
    requires ck.root.Page? && ck.root.blk < g.blocks && LastUsed(g, cell, ck.root.blk, grp)
    requires SingleFound(g, cell, ck.root.blk, grp, ck.buf.tail, ck.buf.epoch, head, tail, epoch)
    requires !Lands(g, cell, ck)
    ensures Stands(g, bad, cell, ck, head, tail, epoch, steps) <==> steps > 0 && SkipsBad(g, bad, cell, ck)
  {
    hide Marks, LogKept, ChecksOk;
    var next := FirstPage(g.NextBlock(ck.root.blk));
    FullGroups(g, cell, ck.root.blk, ck.root.grp, grp);
    assert g.NextUpage(Page(ck.root.blk, grp, 0)) == next;
    if head.blk == next.blk {
      StoppedShort(g, pageSize, bad, cell, ck, head, tail, epoch, steps);
    } else {
      var tail0 := ck.buf.tail;
      assert head == FirstPage(g.NextBlock(next.blk)) && tail == TailAfter(g, head, tail0);
      if Stands(g, bad, cell, ck, head, tail, epoch, steps) {
        JumpMeans(g, pageSize, bad, cell, ck, head, tail, epoch, steps);
      }
      if steps > 0 && SkipsBad(g, bad, cell, ck) {
        JumpStands(g, pageSize, bad, cell, ck, head, tail, epoch, steps);
      }
    }
  }

  lemma FullGroups(g: Geo, cell: Image, blk: nat, root: nat, grp: nat)
    requires g.Ok() && g.Covers(cell) && Full(g, cell, blk) && LastUsed(g, cell, blk, grp) && Groups(g, cell, blk, root)
    ensures grp + 1 == g.cpb && UsedGroups(g, cell, blk, 0, g.cpb)
  {
    var p :| g.OnChip(p) && p.blk == blk && p.grp + 1 == g.cpb && p.idx + 2 >= g.ppc && cell[p] != Erased;
    assert !FreeGroup(g, cell, blk, p.grp);
    hide FreeGroup;
  }

  /** The search stops in the next block: on a group that is not the first, or where the tail is. */
  lemma StoppedShort(g: Geo, pageSize: nat, bad: seq<bool>, cell: Image, ck: Checkpoint, head: Page, tail: Page,
                     epoch: nat, steps: nat)
    requires Resumable(g, pageSize, bad, cell, ck) && ck.Checkpoint? && g.ppc == 2 && !Lands(g, cell, ck)
    requires head.Page? && head.blk == g.NextBlock(ck.root.blk) && head.idx == 0 && tail == ck.buf.tail
    requires head.grp < g.cpb && FreeGroup(g, cell, head.blk, head.grp)
    ensures !Stands(g, bad, cell, ck, head, tail, epoch, steps) && !SkipsBad(g, bad, cell, ck)
  {
    hide Marks, Groups, ChecksOk, FreeGroup, Full;
    assert g.UserPage(tail) && ck.root in ck.log;
    if head.grp == 0 { assert SameBlock(tail, head); }
  }

  lemma JumpMeans(g: Geo, pageSize: nat, bad: seq<bool>, cell: Image, ck: Checkpoint, head: Page, tail: Page,
                  epoch: nat, steps: nat)
    requires Resumable(g, pageSize, bad, cell, ck) && ck.Checkpoint?
    requires UsedGroups(g, cell, g.NextBlock(ck.root.blk), 0, g.cpb)
    requires head == FirstPage(g.NextBlock(g.NextBlock(ck.root.blk))) && tail == TailAfter(g, head, ck.buf.tail)
    requires Stands(g, bad, cell, ck, head, tail, epoch, steps)
    ensures steps > 0 && SkipsBad(g, bad, cell, ck)
  {
    hide Marks, Groups, ChecksOk, FreeGroup, Full, UsedGroups;
    assert g.UserPage(ck.buf.tail) && ck.root in ck.log && g.UserPage(ck.root);
  }

  lemma JumpStands(g: Geo, pageSize: nat, bad: seq<bool>, cell: Image, ck: Checkpoint, head: Page, tail: Page,
                   epoch: nat, steps: nat)
    requires Resumable(g, pageSize, bad, cell, ck) && ck.Checkpoint? && steps > 0
    requires Full(g, cell, ck.root.blk) && UsedGroups(g, cell, ck.root.blk, 0, g.cpb)
    requires head == FirstPage(g.NextBlock(g.NextBlock(ck.root.blk))) && tail == TailAfter(g, head, ck.buf.tail)
    requires epoch == EpochAt(head, EpochAt(FirstPage(g.NextBlock(ck.root.blk)), ck.buf.epoch))
    requires SkipsBad(g, bad, cell, ck)
    ensures Stands(g, bad, cell, ck, head, tail, epoch, steps)
  {
    hide Marks, Groups, ChecksOk, FreeGroup, Full;
    forall p | p in ck.log
      ensures g.UserPage(p) && InWindow(tail, p, head) && NotBad(bad, p)
    {
      assert PageKept(g, pageSize, bad, cell, p, ck.log[p]);
    }
  }

  /** Four blocks of two groups with one user page each. */
  function Single(): Geo {
    Geo(2, 2, 4)
  }

  function LapBuffer(epoch: nat, m: Meta): Buffer {
    Buffer(true, epoch, FirstPage(2), 0, 0, 2, [m])
  }

  /** The first block has been written in the current lap, the others in the lap before. */
  function LapContent(e0: Entry, e: Entry, p: Page): Content {
    if p.Page? && p.blk == 0 then if p.idx == 0 then Data(e.data) else Check(LapBuffer(1, e.meta))
    else if p.Page? && p.idx == 0 then Data(e0.data) else Check(LapBuffer(0, e0.meta))
  }

  function LapImage(e0: Entry, e: Entry): Image {
    var blank := BlankImage(Single());
    map p | p in blank :: LapContent(e0, e, p)
  }

  /** Two pages are left in the queue: the tail in the third block, and the root. */
  function LapCheckpoint(e0: Entry, e: Entry): Checkpoint {
    Checkpoint(Page(0, 1, 0), LapBuffer(1, e.meta), map[FirstPage(2) := e0, Page(0, 1, 0) := e])
  }

  lemma LapCells(e0: Entry, e: Entry)
    ensures Single().Covers(LapImage(e0, e)) && ChecksOk(Single(), LapImage(e0, e))
    ensures forall p :: Single().OnChip(p) ==> LapImage(e0, e)[p] == LapContent(e0, e, p)
  {
    BlankCovers(Single());
  }

  lemma LapUsed(e0: Entry, e: Entry, blk: nat, grp: nat)
    requires blk < 4 && grp < 2
    ensures !FreeGroup(Single(), LapImage(e0, e), blk, grp)
  {
    LapCells(e0, e);
    hide LapImage;
    assert Single().OnChip(Page(blk, grp, 0));
  }

  lemma LapMarks(e0: Entry, e: Entry)
    ensures Marks(Single(), [false, false, false, false], LapImage(e0, e), 0, 1)
  {
    LapCells(e0, e);
    hide LapImage;
    assert Marked(Single(), [false, false, false, false], LapImage(e0, e), 0);
  }

  /** The checkpoint is the last on the chip, and can be resumed but for the search for the head. */
  lemma LapResumes(pageSize: nat, e0: Entry, e: Entry)
    ensures var g, bad, cell := Single(), [false, false, false, false], LapImage(e0, e);
      Resumable(g, pageSize, bad, cell, LapCheckpoint(e0, e)) && TwoGood(bad) && LastUsed(g, cell, 0, 1)
  {
    LapCells(e0, e);
    LapMarks(e0, e);
    LapUsed(e0, e, 0, 0);
    LapUsed(e0, e, 0, 1);
    var bad := [false, false, false, false];
    assert !bad[0] && !bad[1];
    hide LapImage, Marks, FreeGroup;
  }

  /** The head goes past the second block to the third, where the page at the tail is.  That page is then
      outside the queue, and the first page written erases it. */
  lemma LapLosesTail(pageSize: nat, e0: Entry, e: Entry, head: Page, tail: Page, epoch: nat)
    requires SingleFound(Single(), LapImage(e0, e), 0, 1, FirstPage(2), 1, head, tail, epoch)
    ensures !Lands(Single(), LapImage(e0, e), LapCheckpoint(e0, e))
    ensures head == FirstPage(2) && tail == FirstPage(3) && !InWindow(tail, FirstPage(2), head)
    ensures !PageKept(Single(), pageSize, [false, false, false, false], EraseBlock(LapImage(e0, e), head.blk),
                      FirstPage(2), e0)
  {
    LapCells(e0, e);
    hide LapImage;
    LapUsed(e0, e, 1, 0);
    LapUsed(e0, e, 1, 1);
    assert Single().OnChip(Page(0, 1, 0)) && Single().OnChip(Page(2, 0, 1));
    hide FreeGroup;
    assert Full(Single(), LapImage(e0, e), 0);
  }

  /** Where a block with an older epoch has been left between two of the current one, no checkpoint of
      that epoch can be resumed. */
  lemma EpochHole(g: Geo, pageSize: nat, bad: seq<bool>, cell: Image, hole: nat, last: nat, ck: Checkpoint)
    requires hole < last && Marked(g, bad, cell, hole) && Marked(g, bad, cell, last)
    requires ck.Checkpoint? && EpochIs(g, cell, last, ck.buf.epoch) && !EpochIs(g, cell, hole, ck.buf.epoch)
    ensures !Resumable(g, pageSize, bad, cell, ck)
  {
    hide Groups, Full, LogKept, ChecksOk;
  }
}
