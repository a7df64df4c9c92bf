/** The NAND chip seen by the journal: the contract of the driver functions, with block failures
    left nondeterministic. */
module Nand {
  import opened Bits
  import opened Geometry
  import opened Tree

  /** The error codes, and `Endless`, which stands for a call that does not return. */
  datatype Error = BadBlock | Ecc | TooBad | Recover | JournalFull | NotFound | MapFull | Endless

  datatype Outcome = Ok | Err(error: Error)

  type PageData = seq<bv8>

  /** The content of a checkpoint page, and of the journal's page buffer: header, cookie and the
      metadata of the user pages of one group. */
  datatype Buffer = Buffer(magic: bool, epoch: nat, tail: Page, bbCurrent: nat, bbLast: nat,
                           cookie: nat, metas: seq<Meta>)

  /** Torn: a page whose program was interrupted or failed.  It is not free, and it reads as an
      ECC error or as bytes that carry no checkpoint magic. */
  datatype Content = Erased | Torn | Data(bytes: PageData) | Check(buf: Buffer)

  type Image = map<Page, Content>

  /** What is enqueued with a page. */
  datatype Entry = Entry(meta: Meta, data: PageData)

  type Log = map<Page, Entry>

  /** What the last programmed checkpoint stands for: its last user page, its header, and the
      pages reachable from it. */
  datatype Checkpoint = NoCheckpoint | Checkpoint(root: Page, buf: Buffer, log: Log)

  /** The state of the chip after one operation or in the middle of one, with the checkpoint last
      programmed on it. */
  datatype Moment = Moment(image: Image, bad: seq<bool>, durable: Checkpoint)

  /** All bytes 0xff. */
  function Blank(pageSize: nat): PageData {
    seq(pageSize, _ => 0xff)
  }

  /** An erased checkpoint page. */
  function BlankBuffer(g: Geo): Buffer
    requires g.Ok()
  {
    Buffer(false, 0xff, Page.None, 0xffff_ffff, 0xffff_ffff, 0xffff_ffff, seq(g.ppc - 1, _ => META_NONE))
  }

  predicate BufferOk(g: Geo, b: Buffer) {
    |b.metas| == g.ppc - 1
  }

  /** Every checkpoint page has room for the metadata of its group. */
  ghost predicate ChecksOk(g: Geo, cell: Image) {
    forall p :: p in cell && cell[p].Check? ==> BufferOk(g, cell[p].buf)
  }

  /** The page can be read as these bytes. */
  predicate ReadsAs(pageSize: nat, c: Content, d: PageData) {
    c == Data(d) || (c == Erased && d == Blank(pageSize))
  }

  /** Every page of the block of `p` from `p` on is erased. */
  ghost predicate Ready(g: Geo, cell: Image, p: Page)
    requires g.Covers(cell)
  {
    forall q :: g.OnChip(q) && SameBlock(p, q) && Le(p, q) ==> cell[q] == Erased
  }

  function EraseBlock(cell: Image, blk: nat): (r: Image)
    ensures r.Keys == cell.Keys
    ensures forall p :: p in cell ==> r[p] == if p.Page? && p.blk == blk then Erased else cell[p]
  {
    map p | p in cell :: if p.Page? && p.blk == blk then Erased else cell[p]
  }

  /** An erase of block `blk` that was interrupted: each of its pages is still what it was, or
      erased, or torn. */
  ghost predicate PartlyErased(g: Geo, cell: Image, blk: nat, torn: Image)
    requires g.Covers(cell)
  {
    g.Covers(torn) &&
    forall p :: g.OnChip(p) ==> torn[p] == cell[p] || (p.blk == blk && (torn[p] == Erased || torn[p] == Torn))
  }

  function AllPages(g: Geo): set<Page> {
    set b, c, i | 0 <= b < g.blocks && 0 <= c < g.cpb && 0 <= i < g.ppc :: Page(b, c, i)
  }

  /** The image of a blank chip. */
  function BlankImage(g: Geo): Image {
    map p | p in AllPages(g) :: Erased
  }

  lemma BlankCovers(g: Geo)
    ensures g.Covers(BlankImage(g)) && ChecksOk(g, BlankImage(g))
  {
    forall p
      ensures p in BlankImage(g) <==> g.OnChip(p)
    {
      if g.OnChip(p) { assert p == Page(p.blk, p.grp, p.idx); }
    }
  }

  function ReadableBuffer(g: Geo, c: Content): Buffer
    requires g.Ok()
  {
    if c.Check? then c.buf else BlankBuffer(g)
  }

  class Nand {
    const g: Geo
    const pageSize: nat
    /** A chip on which no erase and no program fails and every good page reads back. */
    const reliable: bool

    var cell: Image
    var bad: seq<bool>

    /** All states the chip has been in, interrupted operations included. */
    ghost var history: seq<Moment>
    ghost var durable: Checkpoint
    /** The state the chip was in at first. */
    ghost const origin: Image
    /** How often each block has been erased. */
    ghost var erases: seq<nat>

    ghost predicate Valid()
      reads this
    {
      g.Ok() && g.Covers(cell) && |bad| == |erases| == g.blocks && ChecksOk(g, cell) &&
      cell == if history == [] then origin else history[|history| - 1].image
    }

    constructor (g: Geo, pageSize: nat, reliable: bool, cell: Image, bad: seq<bool>, ghost durable: Checkpoint)
      requires g.Ok() && g.Covers(cell) && |bad| == g.blocks && ChecksOk(g, cell)
      ensures Valid()
      ensures this.g == g && this.pageSize == pageSize && this.reliable == reliable
      ensures this.cell == cell && this.bad == bad && this.durable == durable && history == []
      ensures erases == seq(g.blocks, _ => 0)
    {
      this.g := g;
      this.pageSize := pageSize;
      this.reliable := reliable;
      this.cell := cell;
      this.bad := bad;
      this.durable := durable;
      this.origin := cell;
      this.history := [];
      this.erases := seq(g.blocks, _ => 0);
    }

    method IsBad(blk: nat) returns (r: bool)
      requires Valid() && blk < g.blocks
      ensures r == bad[blk]
    {
      r := bad[blk];
    }

    method MarkBad(blk: nat)
      requires Valid() && blk < g.blocks
      modifies this`bad
      ensures Valid() && bad == old(bad)[blk := true]
    {
      bad := bad[blk := true];
    }

    method IsFree(p: Page) returns (r: bool)
      requires Valid() && g.OnChip(p)
      ensures r == cell[p].Erased?
    {
      r := cell[p].Erased?;
    }

    /** Only a block that is not marked bad is erased.  `torn` is what a power cut during the erase
        would have left. */
    method Erase(blk: nat) returns (r: Outcome, ghost torn: Image)
      requires Valid() && blk < g.blocks && !bad[blk]
      modifies this`cell, this`history, this`erases
      ensures Valid() && erases == old(erases)[blk := old(erases)[blk] + 1]
      ensures r == Ok || (r == Err(BadBlock) && !reliable)
      ensures r == Ok ==> cell == EraseBlock(old(cell), blk)
      ensures forall p :: p in cell && !(p.Page? && p.blk == blk) ==> cell[p] == old(cell)[p]
      ensures PartlyErased(g, old(cell), blk, torn)
      ensures history == old(history) + [Moment(torn, bad, durable), Moment(cell, bad, durable)]
    {
      var fails := *;
      assert PartlyErased(g, cell, blk, cell);
      torn :| PartlyErased(g, cell, blk, torn);
      erases := erases[blk := erases[blk] + 1];
      history := history + [Moment(torn, bad, durable)];
      if fails && !reliable {
        cell := map p | p in cell :: if p.Page? && p.blk == blk then Torn else cell[p];
        r := Err(BadBlock);
      } else {
        cell := EraseBlock(cell, blk);
        r := Ok;
      }
      history := history + [Moment(cell, bad, durable)];
    }

    /** Pages of a block are programmed upwards, after an erase, and never in a block marked bad.
        `after` is the checkpoint that stands once the page is programmed. */
    method Prog(p: Page, c: Content, ghost after: Checkpoint) returns (r: Outcome)
      requires Valid() && g.OnChip(p) && !bad[p.blk] && Ready(g, cell, p)
      requires !c.Erased? && (c.Check? ==> BufferOk(g, c.buf))
      modifies this`cell, this`history, this`durable
      ensures Valid()
      ensures r == Ok || (r == Err(BadBlock) && !reliable)
      ensures cell == old(cell)[p := if r == Ok then c else Torn]
      ensures durable == if r == Ok then after else old(durable)
      ensures r == Ok ==>
        history == old(history) + [Moment(old(cell[p := Torn]), bad, old(durable)), Moment(cell, bad, after)]
    {
      cell := cell[p := Torn];
      history := history + [Moment(cell, bad, durable)];
      var fails := *;
      if fails && !reliable {
        r := Err(BadBlock);
      } else {
        cell := cell[p := c];
        durable := after;
        history := history + [Moment(cell, bad, durable)];
        r := Ok;
      }
    }

    /** Reads a whole page of user data. */
    method ReadData(p: Page) returns (r: Outcome, d: PageData)
      requires Valid() && g.OnChip(p)
      ensures r == Ok || r == Err(Ecc)
      ensures r == Ok ==> forall e :: ReadsAs(pageSize, cell[p], e) ==> d == e
      ensures reliable && (cell[p].Data? || cell[p].Erased?) ==> r == Ok
    {
      var fails, bytes: PageData := *, *;
      match cell[p] {
        case Data(b) => bytes := b; fails := fails && !reliable;
        case Erased => bytes := Blank(pageSize); fails := fails && !reliable;
        case _ =>
      }
      d := bytes;
      r := if fails then Err(Ecc) else Ok;
    }

    /** Reads a page that is expected to hold a checkpoint. */
    method ReadCheck(p: Page) returns (r: Outcome, b: Buffer)
      requires Valid() && g.OnChip(p)
      ensures r == Ok || r == Err(Ecc)
      ensures BufferOk(g, b)
      ensures r == Ok && (cell[p].Check? || cell[p].Erased?) ==> b == ReadableBuffer(g, cell[p])
      ensures !cell[p].Check? ==> !b.magic
      ensures reliable && (cell[p].Check? || cell[p].Erased?) ==> r == Ok
    {
      var fails := *;
      match cell[p] {
        case Check(c) => b := c; fails := fails && !reliable;
        case Erased => b := BlankBuffer(g); fails := fails && !reliable;
        case _ =>
          assert BufferOk(g, BlankBuffer(g)) && !BlankBuffer(g).magic;
          b :| BufferOk(g, b) && !b.magic;
      }
      r := if fails then Err(Ecc) else Ok;
    }
  }
}
