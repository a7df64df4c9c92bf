/** The state of the journal as a value, and the invariant its operations keep.

    Each part of the invariant names the fields it depends on, so that it carries over to every
    state that agrees on them. */
module JournalState {
  import opened Bits
  import opened Geometry
  import opened Tree
  import opened Nand
  import opened PageNumbers

  /** `log`: the pages between tail and head, with what was enqueued on them.
      `base`: the log at the moment the current recovery began. */
  datatype State = State(cell: Image, bad: seq<bool>,
                         head: Page, tail: Page, tailSync: Page, root: Page,
                         recovery: bool, enumDone: bool, badMeta: bool,
                         recoverNext: Page, recoverRoot: Page, recoverMeta: Page,
                         buf: Buffer, log: Log, base: Log)

  function Metas(log: Log): Store {
    map p | p in log :: log[p].meta
  }

  predicate HoldsMeta(c: Content, idx: nat, meta: Meta) {
    c.Check? && idx < |c.buf.metas| && c.buf.metas[idx] == meta
  }

  /** The metadata of page `p` is where a read looks for it: in the page buffer, on the page it
      was dumped to when recovery began, or on the checkpoint page of its group. */
  ghost predicate MetaIs(g: Geo, cell: Image, buf: Buffer, head: Page, recoverRoot: Page, recoverMeta: Page,
                         p: Page, meta: Meta)
  {
    p.Page? &&
    if SameGroup(p, head) then p.idx < |buf.metas| && buf.metas[p.idx] == meta
    else
      var at := if recoverMeta != Page.None && SameGroup(p, recoverRoot) then recoverMeta else g.CheckPage(p);
      at in cell && HoldsMeta(cell[at], p.idx, meta)
  }

  ghost predicate Shape(g: Geo, cell: Image, bad: seq<bool>, buf: Buffer) {
    g.Ok() && g.Covers(cell) && |bad| == g.blocks && BufferOk(g, buf)
  }

  predicate NotBad(bad: seq<bool>, p: Page) {
    p.Page? && p.blk < |bad| && !bad[p.blk]
  }

  /** Log pages are user pages of the window, in blocks that are not marked bad. */
  ghost predicate Placed(g: Geo, bad: seq<bool>, tail: Page, head: Page, log: Log) {
    forall p :: p in log ==> g.UserPage(p) && InWindow(tail, p, head) && NotBad(bad, p)
  }

  /** Log pages read back as what was enqueued on them. */
  ghost predicate Readable(g: Geo, pageSize: nat, cell: Image, buf: Buffer, head: Page,
                           recoverRoot: Page, recoverMeta: Page, log: Log)
  {
    forall p :: p in log ==>
      p in cell && ReadsAs(pageSize, cell[p], log[p].data) &&
      MetaIs(g, cell, buf, head, recoverRoot, recoverMeta, p, log[p].meta)
  }

  /** Inside a block the head stands on erased pages of a block not marked bad. */
  ghost predicate HeadReady(g: Geo, cell: Image, bad: seq<bool>, head: Page) {
    BlockStart(head) || (NotBad(bad, head) && g.Covers(cell) && Ready(g, cell, head))
  }

  /** The root is the last page of the log.  It lies in the block of the head unless the head is
      at the start of a block; on a chip that may fail it also lies in the group of the head
      unless the head is at the start of a group. */
  ghost predicate RootLast(fallible: bool, root: Page, head: Page, log: Log) {
    (root == Page.None || root in log) &&
    (!BlockStart(head) ==>
      (root != Page.None ==> SameBlock(root, head)) &&
      (root != Page.None && fallible && !GroupStart(head) ==> SameGroup(root, head)) &&
      forall p :: p in log && SameBlock(p, head) ==> root != Page.None && Le(p, root))
  }

  /** While the block of `recoverRoot` is being evacuated. */
  ghost predicate Evacuating(g: Geo, head: Page, root: Page, recoverNext: Page, recoverRoot: Page, log: Log,
                             base: Log) {
    root in log && recoverRoot in base && g.UserPage(recoverRoot) &&
    g.UserPage(recoverNext) && SameBlock(recoverNext, recoverRoot) && Le(recoverNext, recoverRoot) &&
    (forall p :: p in base ==> p in log && log[p] == base[p] && !SameBlock(p, head)) &&
    (forall p :: p in log && SameBlock(p, recoverRoot) ==> p in base && Le(p, recoverRoot))
  }

  /** The group of page `p` has no checkpoint. */
  predicate Unchecked(g: Geo, cell: Image, p: Page) {
    g.CheckPage(p) in cell && !cell[g.CheckPage(p)].Check?
  }

  /** The page holding dumped metadata survives until recovery is over; the failed group has no
      checkpoint page. */
  ghost predicate DumpKept(g: Geo, cell: Image, bad: seq<bool>, tailSync: Page, head: Page,
                           recoverRoot: Page, recoverMeta: Page, badMeta: bool, log: Log, base: Log)
  {
    if recoverMeta == Page.None then !badMeta
    else
      g.UserPage(recoverMeta) && NotBad(bad, recoverMeta) &&
      InWindow(tailSync, recoverMeta, head) && !SameBlock(recoverMeta, recoverRoot) &&
      recoverMeta in cell && cell[recoverMeta].Check? &&
      Unchecked(g, cell, recoverRoot) &&
      (forall p :: p in base ==> !SameBlock(p, recoverMeta)) &&
      (badMeta ==> !SameBlock(recoverMeta, head)) &&
      (badMeta ==> forall p :: p in log ==> !SameBlock(p, recoverMeta))
  }

  ghost predicate Recovering(g: Geo, fallible: bool, s: State) {
    if s.recovery then
      Evacuating(g, s.head, s.root, s.recoverNext, s.recoverRoot, s.log, s.base) &&
      DumpKept(g, s.cell, s.bad, s.tailSync, s.head, s.recoverRoot, s.recoverMeta, s.badMeta, s.log, s.base)
    else
      RootLast(fallible, s.root, s.head, s.log) &&
      !s.enumDone && !s.badMeta &&
      s.recoverNext == Page.None && s.recoverRoot == Page.None && s.recoverMeta == Page.None
  }

  /** Everything but the state of the head's own page. */
  ghost predicate InvBase(g: Geo, pageSize: nat, fallible: bool, s: State) {
    Shape(g, s.cell, s.bad, s.buf) && Ring(g, s.tailSync, s.tail, s.head) &&
    Placed(g, s.bad, s.tail, s.head, s.log) &&
    Readable(g, pageSize, s.cell, s.buf, s.head, s.recoverRoot, s.recoverMeta, s.log) &&
    Recovering(g, fallible, s)
  }

  ghost predicate Inv(g: Geo, pageSize: nat, fallible: bool, s: State) {
    InvBase(g, pageSize, fallible, s) && HeadReady(g, s.cell, s.bad, s.head)
  }

  /** An empty journal at the start of the chip. */
  lemma EmptySound(g: Geo, pageSize: nat, fallible: bool, s: State)
    requires Shape(g, s.cell, s.bad, s.buf) && s.head == s.tail == s.tailSync == FirstPage(0) && s.root == Page.None
    requires !s.recovery && !s.enumDone && !s.badMeta && s.log == map[]
    requires s.recoverNext == s.recoverRoot == s.recoverMeta == Page.None
    ensures Inv(g, pageSize, fallible, s)
  {}

  // ---------------------------------------------------------------- the head's block

  /** Window pages in the head's block, and their checkpoint pages outside the head's group, lie
      below the head. */
  lemma BelowHead(g: Geo, sync: Page, tail: Page, head: Page, p: Page)
    requires g.Ok() && Ring(g, sync, tail, head) && g.UserPage(p)
    requires InWindow(sync, p, head) || InWindow(tail, p, head)
    requires SameBlock(p, head)
    ensures Lt(p, head)
    ensures !SameGroup(p, head) ==> Lt(g.CheckPage(p), head)
  {
    if InWindow(tail, p, head) {
      SubWindow(g, sync, tail, head, p);
    }
    BehindHead(g, sync, tail, head, p);
  }

  /** `cell'` differs from `cell` only in the head's block, from the head on. */
  ghost predicate TouchesHeadOnly(g: Geo, head: Page, cell: Image, cell': Image) {
    g.Covers(cell) && g.Covers(cell') &&
    forall q :: g.OnChip(q) && !(SameBlock(head, q) && Le(head, q)) ==> cell'[q] == cell[q]
  }

  /** What happens to pages of the head's block from the head on does not touch the log. */
  lemma TouchHead(g: Geo, pageSize: nat, fallible: bool, s: State, cell: Image)
    requires InvBase(g, pageSize, fallible, s) && TouchesHeadOnly(g, s.head, s.cell, cell)
    ensures InvBase(g, pageSize, fallible, s.(cell := cell))
  {
    hide Placed, RootLast, Evacuating, Ring, InWindow;
    TouchReadable(g, pageSize, fallible, s, cell);
    if s.recovery && s.recoverMeta != Page.None && SameBlock(s.recoverMeta, s.head) {
      BelowHead(g, s.tailSync, s.tail, s.head, s.recoverMeta);
    }
    if s.recovery { RootAway(g, s); }
  }

  /** The block being evacuated is not the head's. */
  lemma RootAway(g: Geo, s: State)
    requires s.recovery && Evacuating(g, s.head, s.root, s.recoverNext, s.recoverRoot, s.log, s.base)
    ensures g.UserPage(s.recoverRoot) && !SameBlock(s.recoverRoot, s.head)
  {}

  lemma TouchReadable(g: Geo, pageSize: nat, fallible: bool, s: State, cell: Image)
    requires InvBase(g, pageSize, fallible, s) && TouchesHeadOnly(g, s.head, s.cell, cell)
    ensures Readable(g, pageSize, cell, s.buf, s.head, s.recoverRoot, s.recoverMeta, s.log)
  {
    hide Recovering, Ring, InWindow;
    forall p | p in s.log
      ensures p in cell && cell[p] == s.cell[p]
      ensures MetaIs(g, cell, s.buf, s.head, s.recoverRoot, s.recoverMeta, p, s.log[p].meta)
    {
      if SameBlock(p, s.head) {
        BelowHead(g, s.tailSync, s.tail, s.head, p);
      }
      assert g.UserPage(p);
      if s.recoverMeta != Page.None && SameGroup(p, s.recoverRoot) {
        TouchDump(g, pageSize, fallible, s, cell);
      }
      assert MetaIs(g, s.cell, s.buf, s.head, s.recoverRoot, s.recoverMeta, p, s.log[p].meta);
    }
  }

  lemma TouchDump(g: Geo, pageSize: nat, fallible: bool, s: State, cell: Image)
    requires InvBase(g, pageSize, fallible, s) && TouchesHeadOnly(g, s.head, s.cell, cell)
    requires s.recoverMeta != Page.None
    ensures s.recoverMeta in cell && cell[s.recoverMeta] == s.cell[s.recoverMeta]
  {
    hide Placed, RootLast, Evacuating, Readable;
    if SameBlock(s.recoverMeta, s.head) {
      BelowHead(g, s.tailSync, s.tail, s.head, s.recoverMeta);
    }
  }

  /** The window and the next block. */
  lemma SkipFar(g: Geo, sync: Page, tail: Page, head: Page, next: Page, p: Page)
    requires g.Ok() && Ring(g, sync, tail, head) && g.OnChip(p)
    requires InWindow(tail, p, head) || InWindow(sync, p, head)
    requires next == FirstPage(g.NextBlock(head.blk)) && next.blk != sync.blk
    ensures Ring(g, sync, tail, next)
    ensures InWindow(tail, p, head) ==> InWindow(tail, p, next)
    ensures InWindow(sync, p, head) ==> InWindow(sync, p, next)
    ensures !SameBlock(p, next)
    ensures BlockStart(head) ==> !SameBlock(p, head)
  {
    AdvanceHead(g, sync, tail, head, next);
    AdvanceKeeps(g, sync, tail, head, next, p);
    if InWindow(tail, p, head) {
      SubWindow(g, sync, tail, head, p);
      SubWindow(g, sync, tail, next, p);
    }
    FreshBlock(g, sync, tail, next, p);
    if BlockStart(head) {
      FreshBlock(g, sync, tail, head, p);
    }
  }

  /** When the head moves to the next block, log pages stay in the window and out of the new
      block. */
  lemma SkipPlaced(g: Geo, bad: seq<bool>, sync: Page, tail: Page, head: Page, next: Page, log: Log)
    requires g.Ok() && Ring(g, sync, tail, head) && Placed(g, bad, tail, head, log)
    requires next == FirstPage(g.NextBlock(head.blk)) && next.blk != sync.blk
    ensures Ring(g, sync, tail, next) && Placed(g, bad, tail, next, log)
    ensures forall p :: p in log ==> !SameBlock(p, next)
    ensures BlockStart(head) ==> forall p :: p in log ==> !SameBlock(p, head)
  {
    hide Ring, InWindow;
    AdvanceHead(g, sync, tail, head, next);
    forall p | p in log
      ensures InWindow(tail, p, next) && !SameBlock(p, next) && (BlockStart(head) ==> !SameBlock(p, head))
    {
      SkipFar(g, sync, tail, head, next, p);
    }
  }

  /** Metadata outside the page buffer does not depend on where the head is. */
  lemma MovedReadable(g: Geo, pageSize: nat, cell: Image, buf: Buffer, head: Page, next: Page, rroot: Page,
                      rmeta: Page, log: Log)
    requires Readable(g, pageSize, cell, buf, head, rroot, rmeta, log)
    requires forall p :: p in log ==> !SameGroup(p, head) && !SameGroup(p, next)
    ensures Readable(g, pageSize, cell, buf, next, rroot, rmeta, log)
  {
    forall p | p in log
      ensures MetaIs(g, cell, buf, next, rroot, rmeta, p, log[p].meta)
    {
      assert MetaIs(g, cell, buf, head, rroot, rmeta, p, log[p].meta);
    }
  }

  lemma SkipDump(g: Geo, s: State, next: Page)
    requires g.Ok() && Ring(g, s.tailSync, s.tail, s.head)
    requires DumpKept(g, s.cell, s.bad, s.tailSync, s.head, s.recoverRoot, s.recoverMeta, s.badMeta, s.log, s.base)
    requires next == FirstPage(g.NextBlock(s.head.blk)) && next.blk != s.tailSync.blk
    ensures DumpKept(g, s.cell, s.bad, s.tailSync, next, s.recoverRoot, s.recoverMeta, s.badMeta, s.log, s.base)
    ensures s.recoverMeta != Page.None ==> !SameBlock(s.recoverMeta, next)
  {
    hide Ring, InWindow;
    if s.recoverMeta != Page.None {
      SkipFar(g, s.tailSync, s.tail, s.head, next, s.recoverMeta);
    }
  }

  /** A head at the start of a block can move to the start of the next one. */
  lemma SkipKeeps(g: Geo, pageSize: nat, fallible: bool, s: State, next: Page)
    requires InvBase(g, pageSize, fallible, s) && BlockStart(s.head)
    requires next == FirstPage(g.NextBlock(s.head.blk)) && next.blk != s.tailSync.blk
    ensures Inv(g, pageSize, fallible, s.(head := next))
  {
    hide Placed, Readable, DumpKept, Ring;
    SkipPlaced(g, s.bad, s.tailSync, s.tail, s.head, next, s.log);
    MovedReadable(g, pageSize, s.cell, s.buf, s.head, next, s.recoverRoot, s.recoverMeta, s.log);
    if s.recovery {
      SkipDump(g, s, next);
    }
  }

  /** Marking a block that holds nothing of the journal. */
  lemma MarkKeeps(g: Geo, pageSize: nat, fallible: bool, s: State, blk: nat)
    requires InvBase(g, pageSize, fallible, s) && blk < g.blocks
    requires forall p :: p in s.log ==> p.blk != blk
    requires s.recovery && s.recoverMeta != Page.None ==> s.recoverMeta.blk != blk
    ensures InvBase(g, pageSize, fallible, s.(bad := s.bad[blk := true]))
    ensures HeadReady(g, s.cell, s.bad, s.head) && (s.head.blk != blk || BlockStart(s.head))
        ==> HeadReady(g, s.cell, s.bad[blk := true], s.head)
  {
    hide Readable, Ready, Ring, RootLast, Evacuating;
  }

  // ---------------------------------------------------------------- enqueuing a page

  /** The head page has been programmed with `data`, the rest of its block is erased, and the
      next head does not run into the synchronised tail. */
  ghost predicate PushReady(g: Geo, pageSize: nat, fallible: bool, s: State, data: PageData) {
    InvBase(g, pageSize, fallible, s) && NotBad(s.bad, s.head) &&
    ReadsAs(pageSize, s.cell[s.head], data) &&
    ErasedAbove(g, s.cell, s.head) && NextClear(g, s.tailSync, s.head)
  }

  ghost predicate ErasedAbove(g: Geo, cell: Image, head: Page) {
    forall q :: g.OnChip(q) && SameBlock(head, q) && Lt(head, q) ==> q in cell && cell[q] == Erased
  }

  predicate NextClear(g: Geo, tailSync: Page, head: Page) {
    g.Ok() && g.UserPage(head) && (SameBlock(g.NextUpage(head), tailSync) ==> SameBlock(g.NextUpage(head), head))
  }

  /** The state after the metadata has joined the buffer and the head has moved on. */
  function Pushed(g: Geo, s: State, entry: Entry, cell: Image, buf: Buffer): State
    requires g.Ok() && g.UserPage(s.head)
  {
    s.(log := s.log[s.head := entry], root := s.head, head := g.NextUpage(s.head), cell := cell, buf := buf)
  }

  /** The pages of the head's group, the head included, have their metadata in `buf`. */
  ghost predicate GroupBuffered(head: Page, log: Log, entry: Entry, buf: Buffer) {
    forall p :: p in log[head := entry] && SameGroup(p, head) ==>
      p.idx < |buf.metas| && buf.metas[p.idx] == log[head := entry][p].meta
  }

  lemma BufferJoins(g: Geo, pageSize: nat, fallible: bool, s: State, entry: Entry, buf: Buffer)
    requires InvBase(g, pageSize, fallible, s)
    requires buf.metas == s.buf.metas[s.head.idx := entry.meta]
    ensures GroupBuffered(s.head, s.log, entry, buf)
  {
    hide Recovering, InWindow;
    forall p | p in s.log && SameGroup(p, s.head)
      ensures p.idx < |buf.metas| && p != s.head && buf.metas[p.idx] == s.log[p].meta
    {
      BelowHead(g, s.tailSync, s.tail, s.head, p);
      assert MetaIs(g, s.cell, s.buf, s.head, s.recoverRoot, s.recoverMeta, p, s.log[p].meta);
    }
  }

  /** Buffers that differ in one slot at most. */
  ghost predicate SlotOnly(a: seq<Meta>, b: seq<Meta>, slot: nat) {
    |a| == |b| && forall i :: 0 <= i < |a| && i != slot ==> b[i] == a[i]
  }

  /** Only the buffered metadata of the log pages in the head's group matters. */
  lemma BufferKeeps(g: Geo, pageSize: nat, fallible: bool, s: State, buf: Buffer)
    requires InvBase(g, pageSize, fallible, s)
    requires s.head.Page? && SlotOnly(s.buf.metas, buf.metas, s.head.idx)
    ensures InvBase(g, pageSize, fallible, s.(buf := buf))
  {
    hide Recovering, InWindow;
    forall p | p in s.log
      ensures MetaIs(g, s.cell, buf, s.head, s.recoverRoot, s.recoverMeta, p, s.log[p].meta)
    {
      if SameGroup(p, s.head) {
        BelowHead(g, s.tailSync, s.tail, s.head, p);
      }
      assert MetaIs(g, s.cell, s.buf, s.head, s.recoverRoot, s.recoverMeta, p, s.log[p].meta);
    }
    BufferRecovering(g, fallible, s, buf);
  }

  lemma BufferRecovering(g: Geo, fallible: bool, s: State, buf: Buffer)
    requires Recovering(g, fallible, s)
    ensures Recovering(g, fallible, s.(buf := buf))
  {
    hide Evacuating, DumpKept, RootLast;
  }

  /** The window after a push. */
  lemma PushWindow(g: Geo, sync: Page, tail: Page, head: Page, p: Page)
    requires g.Ok() && Ring(g, sync, tail, head) && g.OnChip(p) && NextClear(g, sync, head)
    ensures var next := g.NextUpage(head);
      Ring(g, sync, tail, next) && InWindow(tail, head, next) &&
      (InWindow(sync, p, head) ==> InWindow(sync, p, next)) &&
      (InWindow(tail, p, head) ==> InWindow(tail, p, next))
  {
    AdvanceHead(g, sync, tail, head, g.NextUpage(head));
    AdvanceKeeps(g, sync, tail, head, g.NextUpage(head), p);
  }

  /** A page of the window does not share a block with a head that has just left its own. */
  lemma PushFar(g: Geo, sync: Page, tail: Page, head: Page, p: Page)
    requires g.Ok() && Ring(g, sync, tail, head) && g.UserPage(p) && NextClear(g, sync, head)
    requires InWindow(sync, p, head) || InWindow(tail, p, head)
    ensures var next := g.NextUpage(head);
      (SameBlock(p, next) ==> SameBlock(p, head) && Lt(p, head)) &&
      (SameGroup(p, next) ==> SameGroup(p, head)) && p != head
  {
    PushWindow(g, sync, tail, head, p);
    var next := g.NextUpage(head);
    if InWindow(tail, p, head) {
      SubWindow(g, sync, tail, head, p);
    }
    if SameBlock(p, next) {
      BehindHead(g, sync, tail, next, p);
    }
    if SameBlock(p, head) {
      BehindHead(g, sync, tail, head, p);
    }
  }

  lemma PushPlaced(g: Geo, bad: seq<bool>, sync: Page, tail: Page, head: Page, log: Log, entry: Entry)
    requires g.Ok() && Ring(g, sync, tail, head) && NextClear(g, sync, head)
    requires Placed(g, bad, tail, head, log) && NotBad(bad, head)
    ensures head !in log
    ensures Ring(g, sync, tail, g.NextUpage(head)) && Placed(g, bad, tail, g.NextUpage(head), log[head := entry])
  {
    hide Ring, InWindow;
    PushWindow(g, sync, tail, head, head);
    forall p | p in log
      ensures InWindow(tail, p, g.NextUpage(head)) && p != head
    {
      PushWindow(g, sync, tail, head, p);
      PushFar(g, sync, tail, head, p);
    }
  }

  /** The checkpoint page is programmed exactly when the push fills the group. */
  ghost predicate PushCell(g: Geo, head: Page, cell: Image, cell': Image, buf: Buffer) {
    g.Ok() && g.UserPage(head) && g.Covers(cell) &&
    cell' == if SameGroup(g.NextUpage(head), head) then cell else cell[g.CheckPage(head) := Check(buf)]
  }

  /** A checkpoint page programmed for the head's group leaves all other metadata alone. */
  lemma PushReadable(g: Geo, pageSize: nat, fallible: bool, s: State, entry: Entry, cell: Image, buf: Buffer)
    requires PushReady(g, pageSize, fallible, s, entry.data) && PushCell(g, s.head, s.cell, cell, buf)
    requires BufferOk(g, buf) && GroupBuffered(s.head, s.log, entry, buf)
    ensures Readable(g, pageSize, cell, buf, g.NextUpage(s.head), s.recoverRoot, s.recoverMeta, s.log[s.head := entry])
  {
    hide Ring, InWindow, Evacuating, RootLast;
    PushPlaced(g, s.bad, s.tailSync, s.tail, s.head, s.log, entry);
    var log := s.log[s.head := entry];
    forall p | p in log
      ensures p in cell && ReadsAs(pageSize, cell[p], log[p].data)
      ensures MetaIs(g, cell, buf, g.NextUpage(s.head), s.recoverRoot, s.recoverMeta, p, log[p].meta)
    {
      PushMetaKept(g, pageSize, fallible, s, entry, cell, buf, p);
    }
  }

  lemma PushMetaKept(g: Geo, pageSize: nat, fallible: bool, s: State, entry: Entry, cell: Image, buf: Buffer, p: Page)
    requires PushReady(g, pageSize, fallible, s, entry.data) && PushCell(g, s.head, s.cell, cell, buf)
    requires BufferOk(g, buf) && GroupBuffered(s.head, s.log, entry, buf)
    requires p in s.log[s.head := entry] && s.head !in s.log
    ensures p in cell && ReadsAs(pageSize, cell[p], s.log[s.head := entry][p].data)
    ensures MetaIs(g, cell, buf, g.NextUpage(s.head), s.recoverRoot, s.recoverMeta, p, s.log[s.head := entry][p].meta)
  {
    hide Ring, InWindow, RootLast;
    if p == s.head {
      assert s.recovery ==> !SameBlock(s.recoverRoot, s.head);
    } else {
      PushFar(g, s.tailSync, s.tail, s.head, p);
      assert MetaIs(g, s.cell, s.buf, s.head, s.recoverRoot, s.recoverMeta, p, s.log[p].meta);
    }
  }

  ghost predicate LastPage(root: Page, head: Page, log: Log) {
    root in log && (!BlockStart(head) ==> SameBlock(root, head)) &&
    (!GroupStart(head) ==> SameGroup(root, head)) &&
    forall p :: p in log && SameBlock(p, head) ==> Le(p, root)
  }

  lemma PushLast(g: Geo, s: State, entry: Entry)
    requires g.Ok() && Ring(g, s.tailSync, s.tail, s.head) && NextClear(g, s.tailSync, s.head)
    requires Placed(g, s.bad, s.tail, s.head, s.log)
    ensures LastPage(s.head, g.NextUpage(s.head), s.log[s.head := entry])
  {
    hide Ring, InWindow;
    forall p | p in s.log
      ensures SameBlock(p, g.NextUpage(s.head)) ==> Le(p, s.head)
    {
      PushFar(g, s.tailSync, s.tail, s.head, p);
    }
  }

  lemma PushEvacuating(g: Geo, s: State, entry: Entry)
    requires g.Ok() && Ring(g, s.tailSync, s.tail, s.head) && NextClear(g, s.tailSync, s.head)
    requires Placed(g, s.bad, s.tail, s.head, s.log) && s.head !in s.log
    requires Evacuating(g, s.head, s.root, s.recoverNext, s.recoverRoot, s.log, s.base)
    ensures Evacuating(g, g.NextUpage(s.head), s.head, s.recoverNext, s.recoverRoot, s.log[s.head := entry], s.base)
  {
    hide Ring, InWindow;
    forall p | p in s.base
      ensures !SameBlock(p, g.NextUpage(s.head)) && p != s.head
    {
      PushFar(g, s.tailSync, s.tail, s.head, p);
    }
  }

  lemma PushDumpKept(g: Geo, s: State, entry: Entry, cell: Image, buf: Buffer)
    requires g.Ok() && Ring(g, s.tailSync, s.tail, s.head) && NextClear(g, s.tailSync, s.head)
    requires PushCell(g, s.head, s.cell, cell, buf) && !SameBlock(s.recoverRoot, s.head) && g.UserPage(s.recoverRoot)
    requires DumpKept(g, s.cell, s.bad, s.tailSync, s.head, s.recoverRoot, s.recoverMeta, s.badMeta, s.log, s.base)
    ensures DumpKept(g, cell, s.bad, s.tailSync, g.NextUpage(s.head), s.recoverRoot, s.recoverMeta, s.badMeta,
                     s.log[s.head := entry], s.base)
  {
    hide Ring, InWindow;
    if s.recoverMeta != Page.None {
      PushWindow(g, s.tailSync, s.tail, s.head, s.recoverMeta);
      PushFar(g, s.tailSync, s.tail, s.head, s.recoverMeta);
    }
  }

  lemma PushHeadReady(g: Geo, bad: seq<bool>, head: Page, cell: Image, cell': Image, buf: Buffer)
    requires PushCell(g, head, cell, cell', buf) && ErasedAbove(g, cell, head) && NotBad(bad, head)
    ensures HeadReady(g, cell', bad, g.NextUpage(head))
  {}

  /** A successful push keeps the invariant, with or without a checkpoint. */
  lemma PushKeeps(g: Geo, pageSize: nat, fallible: bool, s: State, entry: Entry, cell: Image, buf: Buffer)
    requires PushReady(g, pageSize, fallible, s, entry.data) && PushCell(g, s.head, s.cell, cell, buf)
    requires BufferOk(g, buf) && GroupBuffered(s.head, s.log, entry, buf)
    ensures s.head !in s.log
    ensures Inv(g, pageSize, fallible, Pushed(g, s, entry, cell, buf))
    ensures LastPage(s.head, g.NextUpage(s.head), s.log[s.head := entry])
  {
    hide Placed, Readable, DumpKept, Evacuating, HeadReady, GroupBuffered, ErasedAbove, InWindow;
    PushPlaced(g, s.bad, s.tailSync, s.tail, s.head, s.log, entry);
    PushReadable(g, pageSize, fallible, s, entry, cell, buf);
    PushHeadReady(g, s.bad, s.head, s.cell, cell, buf);
    PushLast(g, s, entry);
    if s.recovery {
      PushEvacuating(g, s, entry);
      RootAway(g, s);
      PushDumpKept(g, s, entry, cell, buf);
    }

  }

  // ---------------------------------------------------------------- recovery

  /** Recovery is over: the evacuated block is given up, and with it the block of the dumped
      metadata if that went bad too. */
  function Finished(s: State, bad: seq<bool>): State {
    s.(bad := bad, log := WithoutBlock(s.log, s.recoverRoot), base := map[],
       recovery := false, enumDone := false, badMeta := false,
       recoverNext := Page.None, recoverRoot := Page.None, recoverMeta := Page.None)
  }

  function WithoutBlock(log: Log, p: Page): Log {
    map q | q in log && !SameBlock(q, p) :: log[q]
  }

  /** Only pages of the evacuated block, and of the block of the dumped metadata if that went bad
      too, are newly marked. */
  ghost predicate FinishMarks(g: Geo, s: State, bad: seq<bool>) {
    |bad| == g.blocks == |s.bad| &&
    forall p ::
      g.OnChip(p) && NotBad(s.bad, p) && !SameBlock(p, s.recoverRoot) && !(s.badMeta && SameBlock(p, s.recoverMeta)) ==>
      NotBad(bad, p)
  }

  function FirstPageOf(p: Page): Page {
    if p.Page? then FirstPage(p.blk) else Page.None
  }

  lemma FinishReadable(g: Geo, pageSize: nat, s: State)
    requires Readable(g, pageSize, s.cell, s.buf, s.head, s.recoverRoot, s.recoverMeta, s.log)
    ensures Readable(g, pageSize, s.cell, s.buf, s.head, Page.None, Page.None, WithoutBlock(s.log, s.recoverRoot))
  {
    forall p | p in WithoutBlock(s.log, s.recoverRoot)
      ensures MetaIs(g, s.cell, s.buf, s.head, Page.None, Page.None, p, s.log[p].meta)
    {
      assert MetaIs(g, s.cell, s.buf, s.head, s.recoverRoot, s.recoverMeta, p, s.log[p].meta);
    }
  }

  lemma FinishKeeps(g: Geo, pageSize: nat, fallible: bool, s: State, bad: seq<bool>)
    requires Inv(g, pageSize, fallible, s) && s.recovery
    requires LastPage(s.root, s.head, s.log) && !SameBlock(s.root, s.recoverRoot)
    requires FinishMarks(g, s, bad)
    ensures Inv(g, pageSize, fallible, Finished(s, bad))
  {
    hide Readable, Ring, InWindow;
    FinishReadable(g, pageSize, s);
    var log := WithoutBlock(s.log, s.recoverRoot);
    forall p | p in log
      ensures NotBad(bad, p)
    {}
    assert s.recoverRoot in s.base && !SameBlock(s.recoverRoot, s.head);
    assert !BlockStart(s.head) ==> NotBad(bad, s.head);
  }

  /** A block failed during recovery: what was written since its start is given up. */
  function Restarted(s: State, head: Page, bad: seq<bool>, badMeta: bool): State {
    s.(head := head, bad := bad, badMeta := badMeta, log := s.base, root := s.recoverRoot, enumDone := false,
       recoverNext := FirstPageOf(s.recoverRoot))
  }

  /** The failed block is marked bad at once, unless it holds the dumped metadata. */
  ghost predicate RestartMarks(s: State, bad: seq<bool>, badMeta: bool) {
    s.head.Page? && s.head.blk < |s.bad| &&
    if s.recoverMeta != Page.None && SameBlock(s.recoverMeta, s.head)
    then badMeta && bad == s.bad
    else badMeta == s.badMeta && bad == s.bad[s.head.blk := true]
  }

  lemma RestartKeeps(g: Geo, pageSize: nat, fallible: bool, s: State, next: Page, bad: seq<bool>, badMeta: bool)
    requires InvBase(g, pageSize, fallible, s) && s.recovery
    requires next == FirstPage(g.NextBlock(s.head.blk)) && next.blk != s.tailSync.blk
    requires RestartMarks(s, bad, badMeta)
    ensures Inv(g, pageSize, fallible, Restarted(s, next, bad, badMeta))
  {
    hide Readable, Placed, DumpKept, InWindow;
    RestartPlaced(g, s, next, bad, badMeta);
    RestartReadable(g, pageSize, s, next);
    SkipDump(g, s, next);
    RestartDump(g, s, next, bad, badMeta);

  }

  lemma RestartPlaced(g: Geo, s: State, next: Page, bad: seq<bool>, badMeta: bool)
    requires g.Ok() && Ring(g, s.tailSync, s.tail, s.head) && Placed(g, s.bad, s.tail, s.head, s.log)
    requires Evacuating(g, s.head, s.root, s.recoverNext, s.recoverRoot, s.log, s.base)
    requires next == FirstPage(g.NextBlock(s.head.blk)) && next.blk != s.tailSync.blk
    requires RestartMarks(s, bad, badMeta)
    ensures Ring(g, s.tailSync, s.tail, next) && Placed(g, bad, s.tail, next, s.base)
    ensures forall p :: p in s.base ==> !SameBlock(p, next)
  {
    hide Ring, InWindow;
    SkipPlaced(g, s.bad, s.tailSync, s.tail, s.head, next, s.log);
  }

  lemma RestartReadable(g: Geo, pageSize: nat, s: State, next: Page)
    requires Readable(g, pageSize, s.cell, s.buf, s.head, s.recoverRoot, s.recoverMeta, s.log)
    requires Evacuating(g, s.head, s.root, s.recoverNext, s.recoverRoot, s.log, s.base)
    requires forall p :: p in s.base ==> !SameBlock(p, next)
    ensures Readable(g, pageSize, s.cell, s.buf, next, s.recoverRoot, s.recoverMeta, s.base)
  {
    hide MetaIs;
    assert Readable(g, pageSize, s.cell, s.buf, s.head, s.recoverRoot, s.recoverMeta, s.base);
    MovedReadable(g, pageSize, s.cell, s.buf, s.head, next, s.recoverRoot, s.recoverMeta, s.base);
  }

  lemma RestartDump(g: Geo, s: State, next: Page, bad: seq<bool>, badMeta: bool)
    requires DumpKept(g, s.cell, s.bad, s.tailSync, next, s.recoverRoot, s.recoverMeta, s.badMeta, s.log, s.base)
    requires s.recoverMeta != Page.None ==> !SameBlock(s.recoverMeta, next)
    requires RestartMarks(s, bad, badMeta)
    ensures DumpKept(g, s.cell, bad, s.tailSync, next, s.recoverRoot, s.recoverMeta, badMeta, s.base, s.base)
  {
    hide InWindow;
  }

  /** Recovery begins. */
  function Begun(s: State, head: Page, recoverMeta: Page): State {
    s.(head := head, recovery := true, base := s.log, recoverRoot := s.root, recoverMeta := recoverMeta,
       recoverNext := FirstPageOf(s.root))
  }

  /** With no metadata pending in the buffer, recovery begins at once. */
  lemma BeginKeeps(g: Geo, pageSize: nat, fallible: bool, s: State, next: Page)
    requires InvBase(g, pageSize, fallible, s) && !s.recovery && s.root != Page.None
    requires GroupStart(s.head) && !BlockStart(s.head)
    requires next == FirstPage(g.NextBlock(s.head.blk)) && next.blk != s.tailSync.blk
    ensures Inv(g, pageSize, fallible, Begun(s, next, Page.None))
  {
    hide Ring, InWindow;
    SkipPlaced(g, s.bad, s.tailSync, s.tail, s.head, next, s.log);
    forall p | p in s.log
      ensures !SameGroup(p, s.head)
      ensures MetaIs(g, s.cell, s.buf, next, s.root, Page.None, p, s.log[p].meta)
    {
      if SameBlock(p, s.head) {
        BelowHead(g, s.tailSync, s.tail, s.head, p);
      }
      assert MetaIs(g, s.cell, s.buf, s.head, s.recoverRoot, s.recoverMeta, p, s.log[p].meta);
    }
  }

  /** The head has moved to a new block, and the metadata of the root's group is in the buffer
      only. */
  ghost predicate Dumping(g: Geo, pageSize: nat, s: State) {
    Shape(g, s.cell, s.bad, s.buf) && Ring(g, s.tailSync, s.tail, s.head) && BlockStart(s.head) &&
    !s.recovery && !s.enumDone && !s.badMeta &&
    s.recoverNext == Page.None && s.recoverRoot == Page.None && s.recoverMeta == Page.None &&
    (s.root != Page.None ==> DumpLog(g, pageSize, s))
  }

  ghost predicate DumpLog(g: Geo, pageSize: nat, s: State) {
    Placed(g, s.bad, s.tail, s.head, s.log) && s.root in s.log &&
    (forall p :: p in s.log ==> !SameBlock(p, s.head)) &&
    (forall p :: p in s.log && SameBlock(p, s.root) ==> Le(p, s.root)) && Unchecked(g, s.cell, s.root) &&
    Readable(g, pageSize, s.cell, s.buf, s.root, Page.None, Page.None, s.log)
  }

  lemma DumpBegins(g: Geo, pageSize: nat, s: State, next: Page)
    requires InvBase(g, pageSize, true, s) && !s.recovery && !GroupStart(s.head) && Unchecked(g, s.cell, s.head)
    requires next == FirstPage(g.NextBlock(s.head.blk)) && next.blk != s.tailSync.blk
    ensures Dumping(g, pageSize, s.(head := next))
  {
    hide Ring, InWindow;
    SkipPlaced(g, s.bad, s.tailSync, s.tail, s.head, next, s.log);
    forall p | p in s.log
      ensures MetaIs(g, s.cell, s.buf, s.root, Page.None, Page.None, p, s.log[p].meta)
    {
      assert MetaIs(g, s.cell, s.buf, s.head, s.recoverRoot, s.recoverMeta, p, s.log[p].meta);
    }
  }

  /** Erasing or damaging the head's block. */
  lemma DumpTouches(g: Geo, pageSize: nat, s: State, cell: Image)
    requires Dumping(g, pageSize, s) && TouchesHeadOnly(g, s.head, s.cell, cell)
    ensures Dumping(g, pageSize, s.(cell := cell))
  {
    hide InWindow;
    forall p | p in s.log && s.root != Page.None
      ensures p in cell && cell[p] == s.cell[p]
      ensures MetaIs(g, cell, s.buf, s.root, Page.None, Page.None, p, s.log[p].meta)
    {
      assert MetaIs(g, s.cell, s.buf, s.root, Page.None, Page.None, p, s.log[p].meta);
    }
  }

  /** Giving up the head's block and moving on. */
  lemma DumpSkips(g: Geo, pageSize: nat, s: State, next: Page, bad: seq<bool>)
    requires Dumping(g, pageSize, s)
    requires bad == s.bad || bad == s.bad[s.head.blk := true]
    requires next == FirstPage(g.NextBlock(s.head.blk)) && next.blk != s.tailSync.blk
    ensures Dumping(g, pageSize, s.(head := next, bad := bad))
  {
    hide InWindow, Readable;
    AdvanceHead(g, s.tailSync, s.tail, s.head, next);
    if s.root != Page.None {
      SkipPlaced(g, s.bad, s.tailSync, s.tail, s.head, next, s.log);
    }
  }

  /** Programming the head page. */
  lemma HeadProgrammed(g: Geo, cell: Image, head: Page, c: Content)
    requires g.Covers(cell) && g.OnChip(head) && Ready(g, cell, head)
    ensures TouchesHeadOnly(g, head, cell, cell[head := c]) && ErasedAbove(g, cell[head := c], head)
  {}

  /** Where the program of the head page has failed, its group has no checkpoint. */
  lemma FailedUnchecked(g: Geo, cell: Image, head: Page)
    requires g.Ok() && g.Covers(cell) && g.UserPage(head) && Ready(g, cell, head)
    ensures Unchecked(g, cell[head := Torn], head)
  {
    assert g.OnChip(g.CheckPage(head));
  }

  /** An erase of the head's block, finished or not. */
  lemma HeadErased(g: Geo, cell: Image, cell': Image, sync: Page, head: Page)
    requires g.Ok() && g.Covers(cell) && g.Covers(cell') && g.UserPage(head) && BlockStart(head)
    requires forall p :: p in cell' && !(p.Page? && p.blk == head.blk) ==> cell'[p] == cell[p]
    ensures TouchesHeadOnly(g, head, cell, cell') && NextClear(g, sync, head)
    ensures cell' == EraseBlock(cell, head.blk) ==> Ready(g, cell', head)
  {}

  lemma DumpReadable(g: Geo, pageSize: nat, s: State, cell: Image, buf: Buffer, next: Page)
    requires Dumping(g, pageSize, s) && s.root != Page.None && TouchesHeadOnly(g, s.head, s.cell, cell)
    requires cell[s.head] == Check(s.buf) && SameBlock(next, s.head)
    ensures Readable(g, pageSize, cell, buf, next, s.root, s.head, s.log)
  {
    hide InWindow;
    forall p | p in s.log
      ensures p in cell && cell[p] == s.cell[p]
      ensures MetaIs(g, cell, buf, next, s.root, s.head, p, s.log[p].meta)
    {
      assert MetaIs(g, s.cell, s.buf, s.root, Page.None, Page.None, p, s.log[p].meta);
    }
  }

  /** The buffer has been dumped on the first page of the new block. */
  lemma DumpKeeps(g: Geo, pageSize: nat, s: State, cell: Image, buf: Buffer)
    requires Dumping(g, pageSize, s) && s.root != Page.None && TouchesHeadOnly(g, s.head, s.cell, cell)
    requires BufferOk(g, buf) && NotBad(s.bad, s.head)
    requires cell[s.head] == Check(s.buf) && ErasedAbove(g, cell, s.head)
    requires NextClear(g, s.tailSync, s.head)
    ensures Inv(g, pageSize, true, Begun(s, g.NextUpage(s.head), s.head).(cell := cell, buf := buf))
  {
    var next := g.NextUpage(s.head);
    DumpReadable(g, pageSize, s, cell, buf, next);
    PushWindow(g, s.tailSync, s.tail, s.head, s.head);
    DumpPlaced(g, pageSize, s);
    DumpRecovering(g, pageSize, s, cell, buf);
    AdvanceHead(g, s.tailSync, s.tail, s.head, next);
    hide Readable, Ring, InWindow, Placed, Recovering, DumpLog;
  }

  lemma DumpRecovering(g: Geo, pageSize: nat, s: State, cell: Image, buf: Buffer)
    requires Dumping(g, pageSize, s) && s.root != Page.None && TouchesHeadOnly(g, s.head, s.cell, cell)
    requires NotBad(s.bad, s.head) && cell[s.head] == Check(s.buf) && NextClear(g, s.tailSync, s.head)
    ensures Recovering(g, true, Begun(s, g.NextUpage(s.head), s.head).(cell := cell, buf := buf))
  {
    PushWindowSync(g, s.tailSync, s.tail, s.head);
    hide Readable, Ring, InWindow;
    assert g.UserPage(s.root);
    assert g.OnChip(g.CheckPage(s.root));
  }

  lemma DumpPlaced(g: Geo, pageSize: nat, s: State)
    requires Dumping(g, pageSize, s) && s.root != Page.None && NextClear(g, s.tailSync, s.head)
    ensures Placed(g, s.bad, s.tail, g.NextUpage(s.head), s.log)
  {
    hide Ring, InWindow, Readable;
    forall p | p in s.log
      ensures InWindow(s.tail, p, g.NextUpage(s.head))
    {
      PushWindow(g, s.tailSync, s.tail, s.head, p);
    }
  }

  lemma PushWindowSync(g: Geo, sync: Page, tail: Page, head: Page)
    requires g.Ok() && Ring(g, sync, tail, head) && NextClear(g, sync, head)
    ensures InWindow(sync, head, g.NextUpage(head))
  {
    AdvanceHead(g, sync, tail, head, g.NextUpage(head));
  }

  // ---------------------------------------------------------------- the tail

  /** Removing the tail page. */
  lemma DequeueKeeps(g: Geo, pageSize: nat, fallible: bool, s: State, sync: bool, root: Page)
    requires Inv(g, pageSize, fallible, s) && s.tail != s.head
    requires s.recovery ==> !sync && s.tail !in s.base && s.tail != s.root
    requires root == if s.root == s.tail then Page.None else s.root
    ensures var tail := g.NextUpage(s.tail);
      Inv(g, pageSize, fallible,
          s.(tail := tail, tailSync := if sync then tail else s.tailSync, log := s.log - {s.tail}, root := root))
  {
    hide InWindow, HeadReady;
    var tail := g.NextUpage(s.tail);
    AdvanceTail(g, s.tailSync, s.tail, s.head);
    SyncTail(g, s.tailSync, tail, s.head);
    DequeuePlaced(g, s);
    if s.recovery {
      DequeueInRecovery(g, s);
    } else {
      TailRootIsLast(g, fallible, s);
    }
    DequeueReadable(g, pageSize, s);
    hide Placed, Ring, Readable, Evacuating, DumpKept;
  }

  lemma DequeueReadable(g: Geo, pageSize: nat, s: State)
    requires Readable(g, pageSize, s.cell, s.buf, s.head, s.recoverRoot, s.recoverMeta, s.log)
    ensures Readable(g, pageSize, s.cell, s.buf, s.head, s.recoverRoot, s.recoverMeta, s.log - {s.tail})
  {
    hide MetaIs;
  }

  /** During recovery pages that it does not need can go. */
  lemma DequeueInRecovery(g: Geo, s: State)
    requires Evacuating(g, s.head, s.root, s.recoverNext, s.recoverRoot, s.log, s.base)
    requires DumpKept(g, s.cell, s.bad, s.tailSync, s.head, s.recoverRoot, s.recoverMeta, s.badMeta, s.log, s.base)
    requires s.tail !in s.base && s.tail != s.root
    ensures Evacuating(g, s.head, s.root, s.recoverNext, s.recoverRoot, s.log - {s.tail}, s.base)
    ensures DumpKept(g, s.cell, s.bad, s.tailSync, s.head, s.recoverRoot, s.recoverMeta, s.badMeta,
                     s.log - {s.tail}, s.base)
  {
    hide InWindow;
  }

  lemma DequeuePlaced(g: Geo, s: State)
    requires g.Ok() && Ring(g, s.tailSync, s.tail, s.head) && s.tail != s.head
    requires Placed(g, s.bad, s.tail, s.head, s.log)
    ensures Placed(g, s.bad, g.NextUpage(s.tail), s.head, s.log - {s.tail})
  {
    hide InWindow;
    forall p | p in s.log - {s.tail}
      ensures InWindow(g.NextUpage(s.tail), p, s.head)
    {
      AdvanceTailKeeps(g, s.tailSync, s.tail, s.head, p);
    }
  }

  /** If the root is the tail page, no other log page shares the head's block. */
  lemma TailRootIsLast(g: Geo, fallible: bool, s: State)
    requires g.Ok() && Ring(g, s.tailSync, s.tail, s.head) && s.tail != s.head
    requires Placed(g, s.bad, s.tail, s.head, s.log) && RootLast(fallible, s.root, s.head, s.log)
    ensures s.root == s.tail && !BlockStart(s.head) ==> forall p :: p in s.log && SameBlock(p, s.head) ==> p == s.root
  {
    if s.root == s.tail && !BlockStart(s.head) {
      forall p | p in s.log && SameBlock(p, s.head)
        ensures p == s.root
      {
        BelowHead(g, s.tailSync, s.tail, s.head, p);
        BelowHead(g, s.tailSync, s.tail, s.head, s.root);
      }
    }
  }

  /** Skipping a bad block at the tail drops no page of the log. */
  lemma SkipTailKeeps(g: Geo, pageSize: nat, fallible: bool, s: State)
    requires Inv(g, pageSize, fallible, s)
    requires BlockStart(s.tail) && s.tail.blk != s.head.blk && s.bad[s.tail.blk]
    ensures Inv(g, pageSize, fallible, s.(tail := FirstPage(g.NextBlock(s.tail.blk))))
  {
    hide Readable, InWindow, HeadReady;
    SkipTailBlock(g, s.tailSync, s.tail, s.head);
    forall p | p in s.log
      ensures InWindow(FirstPage(g.NextBlock(s.tail.blk)), p, s.head)
    {
      SkipTailBlockKeeps(g, s.tailSync, s.tail, s.head, p);
    }
  }

  /** Dropping the whole log. */
  lemma ClearKeeps(g: Geo, pageSize: nat, fallible: bool, s: State, buf: Buffer)
    requires Inv(g, pageSize, fallible, s) && !s.recovery && BufferOk(g, buf)
    ensures Inv(g, pageSize, fallible,
                s.(tail := s.head, root := Page.None, log := map[], buf := buf))
  {
    hide InWindow, HeadReady;
  }

  // ---------------------------------------------------------------- what an operation does

  /** Marks are never taken back. */
  ghost predicate BadGrows(bad: seq<bool>, bad': seq<bool>) {
    |bad| == |bad'| && forall b :: 0 <= b < |bad| && bad[b] ==> bad'[b]
  }

  lemma BadGrowsSelf(a: seq<bool>)
    ensures BadGrows(a, a)
  {}

  lemma BadGrowsOn(a: seq<bool>, b: seq<bool>, c: seq<bool>)
    requires BadGrows(a, b) && BadGrows(b, c)
    ensures BadGrows(a, c)
  {}

  predicate MarkedBad(bad: seq<bool>, p: Page) {
    p.Page? && p.blk < |bad| && bad[p.blk]
  }

  /** From `o` to `n`, recovery has begun or begun again: the log is what it was at its start,
      the root is the last page written before it, and no page has been enumerated. */
  ghost predicate EnteredRecovery(o: State, n: State) {
    n.recovery && !n.enumDone && n.tail == o.tail && n.root == n.recoverRoot && n.log == n.base &&
    (if o.recovery then n.recoverRoot == o.recoverRoot && n.base == o.base
     else n.recoverRoot == o.root && n.base == o.log) &&
    (n.recoverRoot.Page? ==> n.recoverNext == FirstPage(n.recoverRoot.blk)) &&
    BadGrows(o.bad, n.bad)
  }

  /** From `o` to `n`, one page has joined the log and is the root.  If recovery ended with it,
      the pages of the evacuated block have left. */
  ghost predicate Enqueued(o: State, n: State, entry: Entry) {
    n.root.Page? && n.root !in o.log && n.tail == o.tail && BadGrows(o.bad, n.bad) &&
    (n.root == o.head || (BlockStart(o.head) && BlockStart(n.root))) &&
    (n.head == Page(n.root.blk, n.root.grp, n.root.idx + 1) || (GroupStart(n.head) && (n.recovery ==> !n.enumDone))) &&
    if o.recovery && !n.recovery then
      o.enumDone && n.log == WithoutBlock(o.log, o.recoverRoot)[n.root := entry] &&
      n.recoverRoot == Page.None && MarkedBad(n.bad, o.recoverRoot) &&
      !SameBlock(n.root, o.recoverRoot)
    else
      n.log == o.log[n.root := entry] && n.recovery == o.recovery && n.enumDone == o.enumDone &&
      n.recoverNext == o.recoverNext && n.recoverRoot == o.recoverRoot && n.base == o.base &&
      (o.recovery ==> !SameBlock(n.root, o.recoverRoot))
  }

  /** A block failed on its first page: it is marked bad and the head moves on. */
  lemma SkipMarkKeeps(g: Geo, pageSize: nat, fallible: bool, s: State, next: Page)
    requires InvBase(g, pageSize, fallible, s) && BlockStart(s.head) && !s.recovery
    requires next == FirstPage(g.NextBlock(s.head.blk)) && next.blk != s.tailSync.blk
    ensures Inv(g, pageSize, fallible, s.(head := next, bad := s.bad[s.head.blk := true]))
    ensures BadGrows(s.bad, s.bad[s.head.blk := true])
  {
    hide Readable, DumpKept, Evacuating, InWindow;
    SkipKeeps(g, pageSize, fallible, s, next);
    SkipPlaced(g, s.bad, s.tailSync, s.tail, s.head, next, s.log);
    MarkKeeps(g, pageSize, fallible, s.(head := next), s.head.blk);
  }

  lemma BasicOf(g: Geo, pageSize: nat, fallible: bool, s: State)
    requires InvBase(g, pageSize, fallible, s)
    ensures g.Ok() && g.UserPage(s.head) && g.UserPage(s.tail) && g.UserPage(s.tailSync)
    ensures |s.bad| == g.blocks && BufferOk(g, s.buf) && g.Covers(s.cell)
    ensures s.recovery ==> g.UserPage(s.recoverRoot) && g.UserPage(s.recoverNext)
    ensures !s.recovery ==> s.recoverRoot == Page.None && s.recoverMeta == Page.None && s.recoverNext == Page.None
    ensures !s.recovery ==> !s.enumDone && !s.badMeta
  {
    hide Placed, Readable, InWindow;
  }

  lemma FinishBasics(g: Geo, pageSize: nat, fallible: bool, s: State)
    requires Inv(g, pageSize, fallible, s) && s.recovery
    ensures g.UserPage(s.recoverRoot) && |s.bad| == g.blocks
    ensures s.badMeta ==> g.UserPage(s.recoverMeta)
  {
    hide Placed, Readable, InWindow;
  }

  lemma PushBasics(g: Geo, pageSize: nat, fallible: bool, s: State, data: PageData)
    requires PushReady(g, pageSize, fallible, s, data)
    ensures InvBase(g, pageSize, fallible, s) && NextClear(g, s.tailSync, s.head)
    ensures g.Ok() && g.UserPage(s.head) && g.UserPage(s.tail) && g.UserPage(s.tailSync)
    ensures |s.bad| == g.blocks && BufferOk(g, s.buf) && g.Covers(s.cell)
    ensures NotBad(s.bad, s.head)
    ensures Ready(g, s.cell, g.CheckPage(s.head))
    ensures s.recovery ==> !SameBlock(s.head, s.recoverRoot)
    ensures s.enumDone ==> s.recovery
  {
    hide Readable, InWindow;
  }

  /** A push that does not end recovery. */
  lemma PushEnqueued(g: Geo, s: State, entry: Entry, cell: Image, buf: Buffer)
    requires g.Ok() && g.UserPage(s.head) && s.head !in s.log
    requires s.head.idx + 2 < g.ppc || !s.recovery || !s.enumDone
    requires s.recovery ==> !SameBlock(s.head, s.recoverRoot)
    ensures Enqueued(s, Pushed(g, s, entry, cell, buf), entry)
  {
    BadGrowsSelf(s.bad);
  }

  /** A push with which recovery ends. */
  lemma FinishEnqueued(g: Geo, s: State, entry: Entry, cell: Image, buf: Buffer, bad: seq<bool>)
    requires g.Ok() && g.UserPage(s.head) && s.head !in s.log
    requires s.recovery && s.enumDone && !SameBlock(s.head, s.recoverRoot)
    requires BadGrows(s.bad, bad) && MarkedBad(bad, s.recoverRoot)
    ensures Enqueued(s, Finished(Pushed(g, s, entry, cell, buf), bad), entry)
  {
    assert WithoutBlock(s.log[s.head := entry], s.recoverRoot) == WithoutBlock(s.log, s.recoverRoot)[s.head := entry];
  }

  /** The estimates of bad blocks: of the last lap, and of this one so far. */
  datatype Tally = Tally(last: nat, current: nat)

  /** A push that completes a group outside recovery. */
  lemma PushedSmooth(g: Geo, s: State, entry: Entry, cell: Image, buf: Buffer)
    requires g.Ok() && g.UserPage(s.head) && s.head.idx + 2 == g.ppc
    ensures Smooth(g, s, Pushed(g, s, entry, cell, buf).(tailSync := s.tail), false)
  {}

  predicate AllGood(bad: seq<bool>) {
    forall b :: 0 <= b < |bad| ==> !bad[b]
  }

  /** From `o` to `n` a page has been enqueued on a chip where nothing goes wrong: the head moves to
      the next user page, and a checkpoint brings up the synchronised tail. */
  ghost predicate Smooth(g: Geo, o: State, n: State, dirty: bool) {
    g.Ok() && g.UserPage(o.head) && n.bad == o.bad && n.root == o.head && n.head == g.NextUpage(o.head) &&
    n.tail == o.tail && n.tailSync == (if dirty then o.tailSync else o.tail) && (dirty <==> !GroupStart(n.head))
  }

  lemma EnqueuedSync(o: State, n: State, entry: Entry)
    requires Enqueued(o, n, entry)
    ensures Enqueued(o, n.(tailSync := n.tail), entry)
  {}

  /** Outside recovery a checkpoint brings the synchronised tail up to the tail. */
  lemma SyncKeeps(g: Geo, pageSize: nat, fallible: bool, s: State)
    requires Inv(g, pageSize, fallible, s) && !s.recovery
    ensures Inv(g, pageSize, fallible, s.(tailSync := s.tail))
  {
    hide Placed, Readable, InWindow, HeadReady, RootLast, Ring;
    SyncTail(g, s.tailSync, s.tail, s.head);
  }

  /** The checkpoint page of the head's group has failed. */
  lemma CheckFailed(g: Geo, pageSize: nat, fallible: bool, s: State, cell: Image, buf: Buffer)
    requires InvBase(g, pageSize, fallible, s) && g.Ok() && g.Covers(s.cell) && g.UserPage(s.head)
    requires SlotOnly(s.buf.metas, buf.metas, s.head.idx)
    requires cell == s.cell[g.CheckPage(s.head) := Torn]
    ensures InvBase(g, pageSize, fallible, s.(cell := cell, buf := buf))
  {
    hide InvBase;
    BufferKeeps(g, pageSize, fallible, s, buf);
    TouchHead(g, pageSize, fallible, s.(buf := buf), cell);
  }

  /** With a single user page per group, a checkpoint program that fails at the start of a block
      is taken for a block that failed before anything was written: the block is skipped, and the
      page just written is dropped without an error. */
  ghost predicate Dropped(g: Geo, o: State, n: State) {
    g.ppc == 2 && !o.recovery && BlockStart(o.head) && BlockStart(n.head) && o.head != n.head &&
    n.log == o.log && n.root == o.root && n.tail == o.tail && !n.recovery
  }

  /** Exactly here a checkpoint program that fails is reported as success. */
  predicate LosesPage(g: Geo, s: State) {
    g.ppc == 2 && !s.recovery && BlockStart(s.head)
  }

  /** From `o` to `n` the queue is the same; the head may have skipped blocks. */
  ghost predicate SameQueue(o: State, n: State) {
    n.log == o.log && n.base == o.base && n.root == o.root && n.tail == o.tail &&
    n.recovery == o.recovery && n.enumDone == o.enumDone && n.recoverNext == o.recoverNext &&
    n.recoverRoot == o.recoverRoot && BadGrows(o.bad, n.bad) &&
    (n.head == o.head || (BlockStart(o.head) && BlockStart(n.head)))
  }

  lemma SameQueueOn(a: State, b: State, c: State)
    requires SameQueue(a, b) && SameQueue(b, c)
    ensures SameQueue(a, c)
  {
    BadGrowsOn(a.bad, b.bad, c.bad);
  }

  lemma SameQueueLog(o: State, n: State)
    requires SameQueue(o, n)
    ensures n.log == o.log
  {}

  lemma SameQueueSelf(a: State)
    ensures SameQueue(a, a)
  {
    BadGrowsSelf(a.bad);
  }

  lemma SameQueueThen(g: Geo, a: State, b: State, c: State, entry: Entry)
    requires SameQueue(a, b)
    ensures Enqueued(b, c, entry) ==> Enqueued(a, c, entry)
    ensures EnteredRecovery(b, c) ==> EnteredRecovery(a, c)
    ensures Dropped(g, b, c) ==> DroppedFrom(g, a, c)
  {
    if BadGrows(b.bad, c.bad) {
      BadGrowsOn(a.bad, b.bad, c.bad);
    }
  }

  /** Like Dropped, seen from before the head skipped blocks. */
  ghost predicate DroppedFrom(g: Geo, o: State, n: State) {
    g.ppc == 2 && !o.recovery && BlockStart(o.head) && BlockStart(n.head) &&
    n.log == o.log && n.root == o.root && n.tail == o.tail && !n.recovery
  }

  /** The head page and its block after a successful program of user data. */
  lemma ProgrammedReady(g: Geo, pageSize: nat, fallible: bool, s: State, data: PageData, cell: Image)
    requires InvBase(g, pageSize, fallible, s) && g.Covers(s.cell) && g.UserPage(s.head)
    requires Ready(g, s.cell, s.head) && NotBad(s.bad, s.head) && NextClear(g, s.tailSync, s.head)
    requires cell == s.cell[s.head := Data(data)] || (cell == s.cell && data == Blank(pageSize))
    ensures PushReady(g, pageSize, fallible, s.(cell := cell), data)
  {
    hide InvBase;
    HeadProgrammed(g, s.cell, s.head, Data(data));
    HeadProgrammed(g, s.cell, s.head, Erased);
    assert s.cell[s.head := Erased] == s.cell;
    TouchHead(g, pageSize, fallible, s, cell);
  }

  lemma ProgramFailed(g: Geo, pageSize: nat, fallible: bool, s: State, cell: Image)
    requires InvBase(g, pageSize, fallible, s) && g.Covers(s.cell) && g.UserPage(s.head)
    requires Ready(g, s.cell, s.head) && cell == s.cell[s.head := Torn]
    ensures InvBase(g, pageSize, fallible, s.(cell := cell))
  {
    hide InvBase;
    HeadProgrammed(g, s.cell, s.head, Torn);
    TouchHead(g, pageSize, fallible, s, cell);
  }

  /** The head has moved over blocks, and pages from the head on may have changed. */
  lemma SkippedSame(s: State, head: Page, bad: seq<bool>, cell: Image)
    requires BadGrows(s.bad, bad) && (head == s.head || (BlockStart(s.head) && BlockStart(head)))
    ensures SameQueue(s, s.(head := head, bad := bad, cell := cell))
  {}

  /** Reading a log page. */
  lemma LogData(g: Geo, pageSize: nat, fallible: bool, s: State, p: Page)
    requires InvBase(g, pageSize, fallible, s) && p in s.log
    ensures g.UserPage(p) && p in s.cell && ReadsAs(pageSize, s.cell[p], s.log[p].data)
  {
    hide MetaIs, InWindow;
  }

  /** A page of the failed block that recovery has yet to enumerate. */
  ghost predicate Pending(s: State, q: Page) {
    s.recovery && !s.enumDone && Le(s.recoverNext, q)
  }

  /** The next step of the enumeration. */
  function NextPending(g: Geo, s: State): State
    requires g.Ok() && g.UserPage(s.recoverNext)
  {
    if s.recoverNext == s.recoverRoot then s.(enumDone := true)
    else s.(recoverNext := g.NextUpage(s.recoverNext))
  }

  lemma EnumerateKeeps(g: Geo, pageSize: nat, fallible: bool, s: State)
    requires Inv(g, pageSize, fallible, s) && s.recovery
    ensures g.UserPage(s.recoverNext) && SameBlock(s.recoverNext, s.recoverRoot)
    ensures Inv(g, pageSize, fallible, NextPending(g, s))
    ensures forall q :: g.UserPage(q) && SameBlock(q, s.recoverRoot) && Le(q, s.recoverRoot) && q != s.recoverNext ==>
      (Pending(NextPending(g, s), q) <==> Pending(s, q))
  {
    hide Readable, Placed, InWindow, HeadReady, DumpKept, Ring;
    assert Evacuating(g, s.head, s.root, s.recoverNext, s.recoverRoot, s.log, s.base);
  }

  /** The user pages from tail to head. */
  ghost function Window(g: Geo, cell: Image, tail: Page, head: Page): set<Page> {
    set p | p in cell && g.UserPage(p) && InWindow(tail, p, head)
  }

  /** An empty window holds no log page. */
  lemma EmptyLog(g: Geo, pageSize: nat, fallible: bool, s: State)
    requires Inv(g, pageSize, fallible, s) && s.tail == s.head
    ensures s.log == map[] && !s.recovery
  {
    hide Readable, HeadReady;
    assert forall p :: p !in s.log;
  }

  lemma LogInWindow(g: Geo, pageSize: nat, fallible: bool, s: State, p: Page)
    requires InvBase(g, pageSize, fallible, s) && p in s.log
    ensures g.UserPage(p) && InWindow(s.tail, p, s.head) && !s.bad[p.blk]
  {
    hide Readable, InWindow, Recovering;
  }

  lemma DequeueWindow(g: Geo, cell: Image, sync: Page, tail: Page, head: Page)
    requires g.Ok() && g.Covers(cell) && Ring(g, sync, tail, head) && tail != head
    ensures Window(g, cell, g.NextUpage(tail), head) == Window(g, cell, tail, head) - {tail}
    ensures tail in Window(g, cell, tail, head)
  {
    hide InWindow;
    AdvanceTailKeeps(g, sync, tail, head, tail);
    TailInWindow(g, sync, tail, head);
    forall p | p in cell && g.UserPage(p)
      ensures InWindow(g.NextUpage(tail), p, head) <==> InWindow(tail, p, head) && p != tail
    {
      AdvanceTailKeeps(g, sync, tail, head, p);
    }
  }

  lemma TailInWindow(g: Geo, sync: Page, tail: Page, head: Page)
    requires Ring(g, sync, tail, head) && tail != head
    ensures InWindow(tail, tail, head)
  {}

  lemma SkipTailWindow(g: Geo, cell: Image, sync: Page, tail: Page, head: Page)
    requires g.Ok() && g.Covers(cell) && Ring(g, sync, tail, head) && BlockStart(tail) && tail.blk != head.blk
    ensures Window(g, cell, FirstPage(g.NextBlock(tail.blk)), head) < Window(g, cell, tail, head)
  {
    hide InWindow;
    TailInWindow(g, sync, tail, head);
    var next := FirstPage(g.NextBlock(tail.blk));
    SkipTailBlockKeeps(g, sync, tail, head, tail);
    assert tail in Window(g, cell, tail, head) && tail !in Window(g, cell, next, head);
    forall p | p in cell && g.UserPage(p)
      ensures InWindow(next, p, head) ==> InWindow(tail, p, head)
    {
      SkipTailBlockKeeps(g, sync, tail, head, p);
    }
  }

  lemma InvToBase(g: Geo, pageSize: nat, fallible: bool, s: State)
    requires Inv(g, pageSize, fallible, s)
    ensures InvBase(g, pageSize, fallible, s)
  {
    hide InvBase;
  }

  lemma RingOf(g: Geo, pageSize: nat, fallible: bool, s: State)
    requires Inv(g, pageSize, fallible, s)
    ensures g.Ok() && g.Covers(s.cell) && Ring(g, s.tailSync, s.tail, s.head)
  {
    hide Ring, Readable, Placed;
  }

  /** Forgetting the root of an empty log. */
  lemma RootlessKeeps(g: Geo, pageSize: nat, fallible: bool, s: State)
    requires Inv(g, pageSize, fallible, s) && !s.recovery && s.log == map[]
    ensures Inv(g, pageSize, fallible, s.(root := Page.None))
  {
    hide Ring, HeadReady;
  }

  lemma DequeueBasics(g: Geo, pageSize: nat, fallible: bool, s: State)
    requires Inv(g, pageSize, fallible, s) && Fits(g)
    ensures g.Ok() && g.UserPage(s.head) && g.UserPage(s.tail) && (s.root == Page.None || g.OnChip(s.root))
    ensures s.root in s.log || s.root == Page.None
    ensures s.tail != s.head && s.root != Page.None ==>
      (RootGone(g, s.head, g.NextUpage(s.tail), s.root) <==> s.root == s.tail)
    ensures s.tail == s.head ==> s.log == map[]
  {
    hide InWindow, RootGone, Readable, HeadReady;
    if s.tail == s.head {
      EmptyLog(g, pageSize, fallible, s);
    } else if s.root != Page.None {
      RootGoneIsTail(g, s.tailSync, s.tail, s.head, s.root);
    }
  }

  lemma LogPages(g: Geo, pageSize: nat, fallible: bool, s: State)
    requires InvBase(g, pageSize, fallible, s)
    ensures Page.None !in s.log
  {
    hide Readable, InWindow, Recovering;
  }

  lemma RootInLog(g: Geo, pageSize: nat, fallible: bool, s: State)
    requires Inv(g, pageSize, fallible, s)
    ensures s.root == Page.None || (s.root in s.log && g.UserPage(s.root))
    ensures Page.None !in s.log
  {
    hide Readable, InWindow, HeadReady, DumpKept;
  }
}
