/** The journal: a queue of user pages kept on a ring of erase blocks. */
module Journal {
  import opened Bits
  import opened Geometry
  import opened Tree
  import opened Nand
  import opened JournalState
  import opened PageNumbers
  import opened Durability
  import opened Resumption
  import opened Wear

  const MAX_RETRIES: nat := 8

  datatype Option<T> = None | Some(value: T)

  class Journal {
    const nand: Nand
    const g: Geo
    /** Power cuts are accounted for, provided the chip is reliable. */
    ghost const powerSafe: bool
    /** Erases are counted, from a chip whose good blocks are evenly worn. */
    ghost const leveled: bool

    var epoch: nat
    var dirty: bool
    var badMeta: bool
    var recovery: bool
    var enumDone: bool

    var bbCurrent: nat
    var bbLast: nat

    var tailSync: Page
    var tail: Page
    var head: Page
    var root: Page

    var recoverNext: Page
    var recoverRoot: Page
    var recoverMeta: Page

    var buf: Buffer

    /** The pages between tail and head with what was enqueued on them. */
    ghost var log: Log
    /** The log at the start of the recovery in progress. */
    ghost var base: Log

    ghost function St(): State
      reads this, nand
    {
      State(nand.cell, nand.bad, head, tail, tailSync, root, recovery, enumDone, badMeta,
            recoverNext, recoverRoot, recoverMeta, buf, log, base)
    }

    /** The journal invariant without the state of the head's own page. */
    ghost predicate Steady()
      reads this, nand
    {
      g == nand.g && nand.Valid() && InvBase(g, nand.pageSize, !nand.reliable, St())
    }

    /** The journal invariant. */
    ghost predicate Sound()
      reads this, nand
    {
      g == nand.g && nand.Valid() && Inv(g, nand.pageSize, !nand.reliable, St())
    }

    ghost predicate Tracked() {
      powerSafe && nand.reliable
    }

    /** Nothing goes wrong on this chip. */
    ghost predicate Untroubled()
      reads nand
    {
      nand.reliable && AllGood(nand.bad)
    }

    ghost function Stats(): Tally
      reads this
    {
      Tally(bbLast, bbCurrent)
    }

    /** The estimate of bad blocks is as it was, or has been rolled over. */
    ghost predicate Rolled(last: nat, current: nat)
      reads this
    {
      (bbLast == last && bbCurrent == current) || (bbLast == current && bbCurrent == 0)
    }

    /** Since state `o` a page has been enqueued, and nothing has gone wrong if nothing had. */
    ghost predicate Smoothly(o: State, t: Tally)
      reads this, nand
    {
      nand.reliable && AllGood(o.bad) && !o.recovery ==>
        Smooth(g, o, St(), dirty) && Rolled(t.last, t.current)
    }

    /** The last checkpoint can be resumed from the chip, and the head is at most `steps` blocks
        past the one after it. */
    ghost predicate Tracking(steps: nat)
      reads this, nand
    {
      Tracked() ==>
        !recovery && Clean(nand.durable, dirty, tail, head, root, log) &&
        Coupled(g, nand.pageSize, nand.bad, nand.cell, nand.durable, head, tailSync, epoch, steps)
    }

    ghost predicate Valid()
      reads this, nand
    {
      Sound() && Tracking(0) && Level(false)
    }

    /** The good blocks are evenly worn; `taken`: the head's block is ready to be written. */
    ghost predicate Level(taken: bool)
      reads this`head, nand`bad, nand`erases
    {
      leveled ==> Even(g, nand.bad, nand.erases, head, taken)
    }

    /** Since the given state of the chip, it has only been in states from which the checkpoint of
        then or the checkpoint of now can be resumed. */
    ghost predicate Safely(history: seq<Moment>, durable: Checkpoint)
      reads nand
    {
      Tracked() ==> Recorded(g, nand.pageSize, history, nand.history, durable, nand.durable)
    }

    /** Recovery has begun with no root to recover. */
    ghost predicate Rootless()
      reads this, nand
    {
      g == nand.g && nand.Valid() && g.UserPage(head) && BufferOk(g, buf) &&
      recovery && !enumDone && recoverRoot == root == Page.None && recoverNext != Page.None && Page.None !in log
    }

    /** Recovery has been asked for. */
    ghost predicate Recoverable()
      reads this, nand
    {
      if recoverRoot == Page.None then Rootless() && recoverNext == BlockBase(g, Page.None) else Valid()
    }

    /** The state in which buffered metadata is being dumped. */
    ghost predicate DumpingNow()
      reads this, nand
    {
      g == nand.g && nand.Valid() && !nand.reliable &&
      Dumping(g, nand.pageSize, St().(recoverRoot := Page.None, recoverNext := Page.None))
    }

    /** The geometry fits and the ring pointers are user pages. */
    ghost predicate Basic()
      reads this, nand
    {
      g == nand.g && nand.Valid() && g.UserPage(head) && g.UserPage(tail) && g.UserPage(tailSync)
    }

    ghost predicate Mode(dump: bool)
      reads this, nand
    {
      Basic() && if dump then DumpingNow() else Sound()
    }

    ghost predicate SteadyMode(dump: bool)
      reads this, nand
    {
      Basic() && if dump then DumpingNow() else Steady()
    }

    /** An empty journal on a chip.  Unless the chip is blank it has to be resumed before use. */
    constructor (nand: Nand, ghost powerSafe: bool, ghost leveled: bool)
      requires nand.Valid()
      ensures this.powerSafe == powerSafe && this.leveled == leveled && this.nand == nand && g == nand.g && Sound()
      ensures Tracked() ==> Empty()
      ensures (Tracked() ==> Resumes() && nand.durable == NoCheckpoint) && Level(false) ==> Valid()
      ensures log == map[] && root == Page.None && !recovery && !dirty
      ensures head == tail == tailSync == FirstPage(0) && epoch == 0 && bbLast == g.blocks / 64 && bbCurrent == 0
    {
      this.nand := nand;
      this.powerSafe := powerSafe;
      this.leveled := leveled;
      g := nand.g;
      epoch := 0;
      bbLast := nand.g.blocks / 64;
      bbCurrent := 0;
      dirty, badMeta, recovery, enumDone := false, false, false, false;
      head, tail, tailSync, root := FirstPage(0), FirstPage(0), FirstPage(0), Page.None;
      recoverNext, recoverRoot, recoverMeta := Page.None, Page.None, Page.None;
      buf := BlankBuffer(nand.g);
      log, base := map[], map[];
    }

    ghost predicate Empty()
      reads this
    {
      log == map[] && root == Page.None && !recovery && !dirty && head == tail == tailSync == FirstPage(0)
    }

    /** The checkpoint on the chip can be resumed. */
    ghost predicate Resumes()
      reads nand
    {
      TwoGood(nand.bad) && Resumable(g, nand.pageSize, nand.bad, nand.cell, nand.durable) &&
      Lands(g, nand.cell, nand.durable)
    }

    /** Goes back to an empty journal. */
    method Reset()
      requires g == nand.g && nand.Valid()
      modifies this
      ensures Sound() && Empty() && bbLast == g.blocks / 64 && bbCurrent == 0
      ensures (Tracked() ==> Resumes() && nand.durable == NoCheckpoint) && Level(false) ==> Valid()
    {
      hide Even, Coupled, Inv, Resumable, ChecksOk, Lands, TwoGood, Recorded;
      ResetPointers();
      dirty := false;
      ClearRecovery();
      buf := BlankBuffer(g);
      log := map[];
      EmptySound(g, nand.pageSize, !nand.reliable, St());
      if Tracked() && Resumes() && nand.durable == NoCheckpoint {
        EmptyCoupled(g, nand.pageSize, nand.bad, nand.cell, epoch);
      }
    }

    method ResetPointers()
      modifies this`epoch, this`bbLast, this`bbCurrent, this`head, this`tail, this`tailSync, this`root
      ensures head == tail == tailSync == FirstPage(0) && root == Page.None && epoch == 0
      ensures bbLast == g.blocks / 64 && bbCurrent == 0
    {
      epoch := 0;
      bbLast := g.blocks / 64;
      bbCurrent := 0;
      head, tail, tailSync, root := FirstPage(0), FirstPage(0), FirstPage(0), Page.None;
    }

    // -------------------------------------------------------------- resuming

    /** The first block with checkpoints among the eight from `blk` on. */
    method FindCheckblock(blk: nat) returns (r: Outcome, where: nat)
      requires g == nand.g && nand.Valid()
      modifies this`buf
      ensures r == Ok || r == Err(TooBad)
      ensures r == Ok ==> blk <= where < g.blocks && where < blk + 8
      ensures nand.reliable && r == Ok ==>
        Marked(g, nand.bad, nand.cell, where) && buf == nand.cell[MarkPage(g, where)].buf
      ensures nand.reliable ==>
        forall b: nat :: blk <= b < (if r == Ok then where else blk + 8) ==> !Marked(g, nand.bad, nand.cell, b)
    {
      where := blk;
      var i := 0;
      while where < g.blocks && i < MAX_RETRIES
        invariant where == blk + i && i <= MAX_RETRIES
        invariant nand.reliable ==> forall b: nat :: blk <= b < where ==> !Marked(g, nand.bad, nand.cell, b)
      {
        var bad := nand.IsBad(where);
        if !bad {
          assert g.OnChip(MarkPage(g, where));
          var read, b := nand.ReadCheck(MarkPage(g, where));
          buf := b;
          if read == Ok && b.magic {
            return Ok, where;
          }
        }
        where := where + 1;
        i := i + 1;
      }
      return Err(TooBad), where;
    }

    /** The last block with checkpoints of the current epoch: block `k`, when the marks of the
        epoch end there. */
    method FindLastCheckblock(first: nat, ghost k: nat) returns (last: nat)
      requires g == nand.g && nand.Valid() && first < g.blocks
      modifies this`buf
      ensures last < g.blocks
      ensures nand.reliable && Epochs(g, nand.bad, nand.cell, k, epoch) && first <= k < g.blocks ==> last == k
    {
      var low, high: int := first, g.blocks - 1;
      ghost var split := nand.reliable && Epochs(g, nand.bad, nand.cell, k, epoch) && first <= k < g.blocks;
      while low <= high
        invariant 0 <= low && high < g.blocks && (split ==> low <= k <= high)
        decreases high - low
      {
        var mid := (low + high) / 2;
        var r, found := FindCheckblock(mid);
        if split { MarkSearch(g, nand.bad, nand.cell, k, epoch, mid, r == Ok, found); }
        if r != Ok || buf.epoch != epoch {
          if mid == 0 {
            return first;
          }
          high := mid - 1;
        } else {
          if found + 1 >= g.blocks {
            return found;
          }
          var r', next := FindCheckblock(found + 1);
          if split { MarkSearch(g, nand.bad, nand.cell, k, epoch, found + 1, r' == Ok, next); }
          if r' != Ok || buf.epoch != epoch {
            return found;
          }
          low := next;
        }
      }
      return first;
    }

    /** Whether no page of a group is in use. */
    method GroupIsFree(blk: nat, grp: nat) returns (free: bool)
      requires g == nand.g && nand.Valid() && blk < g.blocks && grp < g.cpb
      ensures free <==> FreeGroup(g, nand.cell, blk, grp)
    {
      var i := 0;
      while i < g.ppc
        invariant i <= g.ppc
        invariant forall p: Page :: g.OnChip(p) && p.blk == blk && p.grp == grp && p.idx < i ==> nand.cell[p] == Erased
      {
        var erased := nand.IsFree(Page(blk, grp, i));
        if !erased {
          return false;
        }
        i := i + 1;
      }
      return true;
    }

    /** The last group in use, provided the groups in use are the first ones. */
    method FindLastGroup(blk: nat) returns (grp: nat)
      requires g == nand.g && nand.Valid() && blk < g.blocks
      ensures grp < g.cpb
      ensures (forall a: nat, b: nat :: a < b < g.cpb && !FreeGroup(g, nand.cell, blk, b) ==>
        !FreeGroup(g, nand.cell, blk, a)) ==>
        LastUsed(g, nand.cell, blk, grp)
    {
      hide FreeGroup;
      var low, high: int := 0, g.cpb - 1;
      ghost var ordered := forall a: nat, b: nat ::
        a < b < g.cpb && !FreeGroup(g, nand.cell, blk, b) ==> !FreeGroup(g, nand.cell, blk, a);
      while low <= high
        invariant 0 <= low <= high + 1 <= g.cpb
        invariant ordered ==> (low > 0 ==> !FreeGroup(g, nand.cell, blk, low - 1))
        invariant ordered ==> (low > 0 ==> low < g.cpb && !FreeGroup(g, nand.cell, blk, low))
        invariant ordered ==> forall b: nat :: high < b < g.cpb ==> FreeGroup(g, nand.cell, blk, b)
        decreases high - low
      {
        var mid := (low + high) / 2;
        var free := GroupIsFree(blk, mid);
        if free {
          high := mid - 1;
        } else {
          if mid + 1 >= g.cpb {
            return mid;
          }
          free := GroupIsFree(blk, mid + 1);
          if free {
            return mid;
          }
          low := mid + 1;
        }
      }
      return 0;
    }

    /** The last checkpoint of the current epoch in block `blk`, from group `grp` down. */
    method FindRoot(blk: nat, grp: nat) returns (r: Outcome)
      requires g == nand.g && nand.Valid() && blk < g.blocks && grp < g.cpb
      modifies this`root, this`buf
      ensures r == Ok || r == Err(TooBad)
      ensures r == Ok ==> root.Page? && root.blk == blk && root.grp <= grp && root.idx + 2 == g.ppc && BufferOk(g, buf)
      ensures nand.reliable && r == Ok ==>
        nand.cell[g.CheckPage(root)] == Check(buf) && buf.magic && buf.epoch == epoch &&
        forall i: nat :: root.grp < i <= grp ==> NoRoot(g, nand.cell, blk, i, epoch)
      ensures nand.reliable && r != Ok ==> forall i: nat :: i <= grp ==> NoRoot(g, nand.cell, blk, i, epoch)
    {
      var i: int := grp;
      while i >= 0
        invariant -1 <= i <= grp
        invariant nand.reliable ==> forall j: nat :: i < j <= grp ==> NoRoot(g, nand.cell, blk, j, epoch)
      {
        var p := Page(blk, i, g.ppc - 1);
        var read, b := nand.ReadCheck(p);
        buf := b;
        if read == Ok && b.magic && b.epoch == epoch {
          root := Page(blk, i, g.ppc - 2);
          return Ok;
        }
        i := i - 1;
      }
      return Err(TooBad);
    }

    /** How many pages at the end of a group are erased. */
    method CountFree(blk: nat, grp: nat) returns (n: nat)
      requires g == nand.g && nand.Valid() && blk < g.blocks && grp < g.cpb
      ensures n <= g.ppc
      ensures forall p: Page :: g.OnChip(p) && p.blk == blk && p.grp == grp && g.ppc - n <= p.idx ==>
        nand.cell[p] == Erased
      ensures n < g.ppc ==> nand.cell[Page(blk, grp, g.ppc - n - 1)] != Erased
    {
      n := 0;
      while n < g.ppc
        invariant n <= g.ppc
        invariant forall p: Page :: g.OnChip(p) && p.blk == blk && p.grp == grp && g.ppc - n <= p.idx ==>
          nand.cell[p] == Erased
      {
        var erased := nand.IsFree(Page(blk, grp, g.ppc - n - 1));
        if !erased {
          return;
        }
        n := n + 1;
      }
    }

    /** Moves the head to the next group, or to the next block. */
    method NextGroup()
      requires g.Ok() && g.OnChip(head)
      modifies this`head, this`epoch, this`bbLast, this`bbCurrent
      ensures head == if old(head).grp + 1 < g.cpb then Page(old(head).blk, old(head).grp + 1, 0)
                      else FirstPage(g.NextBlock(old(head).blk))
      ensures epoch == if head == FirstPage(0) then (old(epoch) + 1) % 256 else old(epoch)
    {
      if head.grp + 1 < g.cpb {
        head := Page(head.blk, head.grp + 1, 0);
      } else {
        head := FirstPage(g.NextBlock(head.blk));
        if head == FirstPage(0) {
          RollStats();
        }
      }
    }

    /** Looks for the page to write next in the head's group; if there is none, moves to the next
        group or to the next block. */
    method SearchGroup() returns (found: bool)
      requires g == nand.g && nand.Valid() && g.UserPage(head)
      modifies this`head, this`tail, this`epoch, this`bbLast, this`bbCurrent
      ensures g.UserPage(head) && (!found ==> head.blk == old(head).blk && head.grp == old(head).grp + 1)
      ensures !BlockStart(head) || !found ==> tail == old(tail) && epoch == old(epoch)
      ensures found ==> HeadFound(g, nand.cell, old(head).blk, old(head).grp, head)
      ensures found && !SameGroup(head, old(head)) ==> BlockStart(head) && old(head).grp + 1 == g.cpb
      ensures !found ==> Spent(g, nand.cell, old(head).blk, old(head).grp)
      ensures !FreeGroup(g, nand.cell, old(head).blk, old(head).grp) ==> head != Page(old(head).blk, old(head).grp, 0)
      ensures old(head).grp > 0 ==> !(head.blk == old(head).blk && head.grp == 0)
      ensures FreeGroup(g, nand.cell, old(head).blk, old(head).grp) ==>
        head == Page(old(head).blk, old(head).grp, 0) && tail == old(tail) && epoch == old(epoch)
      ensures BlockStart(head) && !FreeGroup(g, nand.cell, old(head).blk, old(head).grp) ==>
        tail == TailAfter(g, head, old(tail)) && epoch == EpochAt(head, old(epoch))
    {
      var n := CountFree(head.blk, head.grp);
      if n > 1 {
        head := Page(head.blk, head.grp, g.ppc - n);
        return true;
      }
      ghost var last := Page(head.blk, head.grp, g.ppc - n - 1);
      assert g.OnChip(last) && nand.cell[last] != Erased;
      NextGroup();
      if BlockStart(head) {
        if SameBlock(head, tail) {
          tail := FirstPage(g.NextBlock(tail.blk));
        }
        return true;
      }
      return false;
    }

    /** Looks for the page to write next, from group `grp` of block `blk` on.  With a single user
        page per group the search starts beyond that group: after the last group of a block it goes
        past the start of the next block whenever that block has been used before. */
    method FindHead(blk: nat, grp: nat)
      requires g == nand.g && nand.Valid() && blk < g.blocks && grp < g.cpb
      modifies this`head, this`tail, this`epoch, this`bbLast, this`bbCurrent
      ensures g.UserPage(head)
      ensures HeadSearched(g, nand.cell, blk, grp, old(tail), old(epoch), head, tail, epoch)
    {
      hide FreeGroup, LastUsed, Spent, FirstFree;
      head := g.NextUpage(Page(blk, grp, 0));
      if head == FirstPage(0) {
        RollStats();
      }
      ghost var start, rolled := head, epoch;
      ghost var usual := g.ppc >= 3 && LastUsed(g, nand.cell, blk, grp) && !FreeGroup(g, nand.cell, blk, grp);
      var found := false;
      while !found
        invariant g.UserPage(head) && (!found ==> head.blk == start.blk)
        invariant usual ==> start.blk == blk
        invariant usual && !found ==> epoch == old(epoch) && tail == old(tail)
        invariant usual && !found ==> head.grp == grp || (head.grp == grp + 1 && Spent(g, nand.cell, blk, grp))
        invariant usual && found ==> HeadFound(g, nand.cell, blk, grp, head) && tail == TailAfter(g, head, old(tail)) &&
                                     epoch == EpochAt(head, old(epoch))
        invariant g.ppc == 2 && !found ==> tail == old(tail) && epoch == rolled && start.grp <= head.grp &&
                                           UsedGroups(g, nand.cell, start.blk, start.grp, head.grp)
        invariant g.ppc == 2 && found ==> FirstFree(g, nand.cell, start, old(tail), rolled, head, tail, epoch)
        decreases !found, g.cpb - head.grp
      {
        if usual && head.grp > grp {
          NextFree(g, nand.cell, blk, grp);
        }
        ghost var at := head;
        found := SearchGroup();
        if g.ppc == 2 { SingleStep(start, at, old(tail), rolled, found); }
      }
    }

    /** One group searched, where groups have a single user page. */
    lemma SingleStep(start: Page, at: Page, tail0: Page, epoch0: nat, found: bool)
      requires g == nand.g && nand.Valid() && g.ppc == 2 && g.UserPage(start) && g.UserPage(at) && g.UserPage(head)
      requires at.blk == start.blk && start.grp <= at.grp && UsedGroups(g, nand.cell, start.blk, start.grp, at.grp)
      requires if FreeGroup(g, nand.cell, at.blk, at.grp) then found && head == at && tail == tail0 && epoch == epoch0
               else if found then head == FirstPage(g.NextBlock(at.blk)) && at.grp + 1 == g.cpb &&
                                  tail == TailAfter(g, head, tail0) && epoch == EpochAt(head, epoch0)
               else head.grp == at.grp + 1
      ensures !found ==> UsedGroups(g, nand.cell, start.blk, start.grp, head.grp)
      ensures found ==> FirstFree(g, nand.cell, start, tail0, epoch0, head, tail, epoch)
    {
      hide FreeGroup;
    }

    /** Sets the journal up from the last checkpoint on the chip. */
    method Resume() returns (r: Outcome)
      requires g == nand.g && nand.Valid()
      requires Tracked() ==> Resumes()
      requires leveled && nand.reliable ==>
        nand.durable == NoCheckpoint && Even(g, nand.bad, nand.erases, FirstPage(0), false)
      modifies this
      ensures Tracked() ==> Valid() && (r == Ok <==> nand.durable.Checkpoint?)
      ensures Tracked() && r == Ok ==>
        root == nand.durable.root && log == nand.durable.log && buf.cookie == nand.durable.buf.cookie
      ensures !dirty && !recovery && (r != Ok ==> Empty() && bbLast == g.blocks / 64 && bbCurrent == 0)
      ensures r == Ok || r == Err(TooBad)
      ensures nand.reliable && Unmarked(g, nand.bad, nand.cell) ==> r == Err(TooBad)
    {
      hide Coupled, Even, Marked, Epochs, Groups, FreeGroup, Inv, InvBase, Resumable, Clean, LastUsed;
      var first;
      r, first := FindCheckblock(0);
      ghost var ck := nand.durable;
      if Tracked() { FirstFound(g, nand.pageSize, nand.bad, nand.cell, ck, r == Ok, first); }
      if r != Ok {
        Reset();
        return;
      }
      epoch := buf.epoch;
      var last := FindLastCheckblock(first, if ck.Checkpoint? && ck.root.Page? then ck.root.blk else 0);
      var grp := FindLastGroup(last);
      if Tracked() { GroupsOrdered(g, nand.cell, ck.root.blk, ck.root.grp); }
      r := FindRoot(last, grp);
      assert Tracked() ==> epoch == ck.buf.epoch && last == ck.root.blk;
      if Tracked() { RootFound(g, nand.pageSize, nand.bad, nand.cell, ck, grp, r == Ok, root, buf); }
      if r != Ok {
        Reset();
        return;
      }
      Restore(last, grp);
    }

    /** Takes the settings from the checkpoint found and looks for the head. */
    method Restore(blk: nat, grp: nat)
      requires g == nand.g && nand.Valid() && blk < g.blocks && grp < g.cpb && BufferOk(g, buf)
      requires Tracked() ==>
        Resumes() && nand.durable.Checkpoint? && nand.durable.root == root && nand.durable.buf == buf
      requires Tracked() ==> root.Page? && blk == root.blk && LastUsed(g, nand.cell, blk, grp) && epoch == buf.epoch
      requires Tracked() ==> !FreeGroup(g, nand.cell, blk, grp) && !leveled
      modifies this
      ensures Tracked() ==> Valid()
      ensures Tracked() ==> log == nand.durable.log && root == old(root)
      ensures !dirty && !recovery && buf.cookie == old(buf.cookie)
    {
      hide Coupled, Even, FreeGroup, Inv, InvBase, Resumable, Clean, LastUsed, HeadSearched, TwoGood, Lands;
      ghost var ck := nand.durable;
      tail := buf.tail;
      bbCurrent, bbLast := buf.bbCurrent, buf.bbLast;
      buf := buf.(metas := seq(g.ppc - 1, _ => META_NONE));
      FindHead(blk, grp);
      dirty := false;
      tailSync := tail;
      ClearRecovery();
      log := if ck.Checkpoint? then ck.log else map[];
      if Tracked() {
        SearchKeeps(g, nand.pageSize, nand.bad, nand.cell, ck, grp, head, tail, epoch, buf);
        assert St() == Resumed(nand.cell, nand.bad, head, tail, root, buf, log);
      }
    }

    method RollStats()
      modifies this`epoch, this`bbLast, this`bbCurrent
      ensures epoch == (old(epoch) + 1) % 256 && bbLast == old(bbCurrent) && bbCurrent == 0
    {
      bbLast := bbCurrent;
      bbCurrent := 0;
      epoch := (epoch + 1) % 256;
    }

    // -------------------------------------------------------------- the head

    method SkipBlock() returns (r: Outcome)
      requires g.Ok() && g.UserPage(head) && g.UserPage(tailSync)
      modifies this`head, this`epoch, this`bbLast, this`bbCurrent
      ensures r == Ok || r == Err(JournalFull)
      ensures r == Ok ==> head == FirstPage(g.NextBlock(old(head).blk)) && head.blk != tailSync.blk
      ensures r == Ok ==> epoch == if head == FirstPage(0) then (old(epoch) + 1) % 256 else old(epoch)
      ensures r != Ok ==> head == old(head)
    {
      var next := g.NextBlock(head.blk);
      if tailSync.blk == next {
        return Err(JournalFull);
      }
      head := FirstPage(next);
      if head == FirstPage(0) {
        RollStats();
      }
      return Ok;
    }

    /** Moves the head to the next user page. */
    method MoveHead()
      requires g.Ok() && g.UserPage(head)
      modifies this`head, this`epoch, this`bbLast, this`bbCurrent
      ensures head == g.NextUpage(old(head)) && Rolled(old(bbLast), old(bbCurrent))
      ensures epoch == if head == FirstPage(0) then (old(epoch) + 1) % 256 else old(epoch)
    {
      head := g.NextUpage(head);
      if head == FirstPage(0) {
        RollStats();
      }
    }

    /** No page has changed but in the block of `head`. */
    ghost predicate Elsewhere(cell: Image, cell': Image, head: Page) {
      forall q :: q in cell' && !SameBlock(q, head) ==> q in cell && cell'[q] == cell[q]
    }

    /** Puts the head on a page that is ready to program. */
    method PrepareHead(ghost dump: bool) returns (r: Outcome)
      requires Mode(dump) && Level(false) && (dump || Tracking(0))
      modifies this`head, this`dirty, this`epoch, this`bbLast, this`bbCurrent, nand`cell, nand`history, nand`erases
      ensures SteadyMode(dump) && Safely(old(nand.history), old(nand.durable))
      ensures r == Ok ==> dump || Tracking(7)
      ensures r == Ok || r == Err(BadBlock) ==> Level(true)
      ensures r == Ok ==> Ready(g, nand.cell, head) && NotBad(nand.bad, head) && NextClear(g, tailSync, head)
      ensures r == Ok ==> dirty
      ensures head == old(head) || (BlockStart(old(head)) && BlockStart(head))
      ensures Untroubled() ==> head == old(head) && Stats() == old(Stats())
      ensures Untroubled() && NextClear(g, tailSync, old(head)) ==> r == Ok
      ensures r == Err(BadBlock) ==> !nand.reliable && BlockStart(head) && NotBad(nand.bad, head)
      ensures r == Ok || r == Err(JournalFull) || r == Err(TooBad) || r == Err(BadBlock)
      ensures r == Ok ==> Elsewhere(old(nand.cell), nand.cell, head)
    {
      hide Coupled, Even, Recorded, Inv, InvBase, Dumping, Ready;
      ModeBasics(dump);
      RecordedNothing(g, nand.pageSize, nand.history, nand.durable, nand.durable);
      var next := g.NextUpage(head);
      if SameBlock(next, tailSync) && !SameBlock(next, head) {
        return Err(JournalFull);
      }
      dirty := true;
      if !BlockStart(head) {
        TrackingFurther();
        LevelInside();
        return Ok;
      }
      r := TakeBlock(dump);
    }

    /** Skips bad blocks and erases the first good one. */
    method TakeBlock(ghost dump: bool) returns (r: Outcome)
      requires Mode(dump) && Level(false) && (dump || Tracking(0)) && BlockStart(head) && dirty
      modifies this`head, this`epoch, this`bbLast, this`bbCurrent, nand`cell, nand`history, nand`erases
      ensures SteadyMode(dump) && Safely(old(nand.history), old(nand.durable))
      ensures r == Ok ==> dump || Tracking(7)
      ensures r == Ok || r == Err(BadBlock) ==> Level(true)
      ensures r == Ok ==> Ready(g, nand.cell, head) && NotBad(nand.bad, head) && NextClear(g, tailSync, head)
      ensures BlockStart(head)
      ensures Untroubled() ==> r == Ok && head == old(head) && Stats() == old(Stats())
      ensures r == Err(BadBlock) ==> !nand.reliable && NotBad(nand.bad, head)
      ensures r == Ok || r == Err(JournalFull) || r == Err(TooBad) || r == Err(BadBlock)
      ensures r == Ok ==> Elsewhere(old(nand.cell), nand.cell, head)
    {
      hide Coupled, Even, Recorded, Inv, InvBase, Dumping, Ready, Clean, ChecksOk;
      RecordedNothing(g, nand.pageSize, nand.history, nand.durable, nand.durable);
      var i := 0;
      while i < MAX_RETRIES
        invariant i <= MAX_RETRIES && BlockStart(head) && dirty
        invariant Untroubled() ==> i == 0 && head == old(head) && Stats() == old(Stats())
        invariant Mode(dump) && Level(false) && (dump || Tracking(i))
        invariant nand.cell == old(nand.cell) && nand.history == old(nand.history)
      {
        var bad := nand.IsBad(head.blk);
        if !bad {
          r := EraseHead(dump, i);
          return;
        }
        r := SkipBadBlock(dump, i);
        if r != Ok {
          return;
        }
        i := i + 1;
      }
      ModeBasics(dump);
      return Err(TooBad);
    }

    lemma SafelyOn(h: seq<Moment>, h': seq<Moment>, ck: Checkpoint)
      requires Tracked() ==> Recorded(g, nand.pageSize, h, h', ck, ck)
      requires Safely(h', ck)
      ensures Safely(h, ck)
    {
      hide Recorded;
      if Tracked() { RecordedOn(g, nand.pageSize, h, h', nand.history, ck, nand.durable); }
    }

    lemma TrackingFurther()
      ensures Tracking(0) ==> Tracking(7)
    {
      hide Coupled;
      if Tracked() && Tracking(0) {
        CoupledFurther(g, nand.pageSize, nand.bad, nand.cell, nand.durable, head, tailSync, epoch, 0);
      }
    }

    lemma LevelInside()
      requires !BlockStart(head)
      ensures Level(false) ==> Level(true)
    {
      hide Even;
      if leveled && Level(false) { InsideEven(g, nand.bad, nand.erases, head); }
    }

    lemma ModeBasics(dump: bool)
      requires Mode(dump)
      ensures SteadyMode(dump)
      ensures !BlockStart(head) ==> !dump && Ready(g, nand.cell, head) && NotBad(nand.bad, head)
      ensures dump ==> !recovery && !enumDone
    {
      hide Coupled, Even, Recorded, Readable, Placed, Recovering, Ready, InWindow;
    }

    method EraseHead(ghost dump: bool, ghost steps: nat) returns (r: Outcome)
      requires Mode(dump) && BlockStart(head) && head.blk < |nand.bad| && !nand.bad[head.blk]
      requires Level(false) && (dump || Tracking(steps)) && dirty && steps <= 7
      modifies nand`cell, nand`history, nand`erases
      ensures SteadyMode(dump) && Safely(old(nand.history), old(nand.durable))
      ensures r == Ok ==> dump || Tracking(7)
      ensures r == Ok || r == Err(BadBlock) ==> Level(true)
      ensures r == Ok ==> Ready(g, nand.cell, head) && NotBad(nand.bad, head) && NextClear(g, tailSync, head)
      ensures r == Ok || (r == Err(BadBlock) && !nand.reliable && NotBad(nand.bad, head))
      ensures Elsewhere(old(nand.cell), nand.cell, head)
    {
      hide Coupled, Even, Recorded, Clean, Placed, Readable, Recovering, InWindow, ChecksOk;
      hide TouchesHeadOnly, Ready, NextClear, EraseBlock, PartlyErased, Ring;
      ghost var s := St();
      ghost var torn;
      r, torn := nand.Erase(head.blk);
      assert St() == s.(cell := nand.cell);
      HeadErased(g, s.cell, nand.cell, tailSync, head);
      if leveled { EraseEven(g, nand.bad, old(nand.erases), head); }
      if dump {
        DumpTouches(g, nand.pageSize, s.(recoverRoot := Page.None, recoverNext := Page.None), nand.cell);
      } else {
        if Tracked() { EraseTracked(s, steps, torn, old(nand.history)); }
        TouchHead(g, nand.pageSize, !nand.reliable, s, nand.cell);
      }
    }

    lemma EraseTracked(s: State, steps: nat, torn: Image, history: seq<Moment>)
      requires Tracked() && steps <= 7 && s.head == head && BlockStart(head) && s.bad == nand.bad &&
        NotBad(nand.bad, head)
      requires Coupled(g, nand.pageSize, nand.bad, s.cell, nand.durable, head, tailSync, epoch, steps)
      requires g.Covers(s.cell) && PartlyErased(g, s.cell, head.blk, torn) && nand.cell == EraseBlock(s.cell, head.blk)
      requires nand.history == history + [Moment(torn, nand.bad, nand.durable),
        Moment(nand.cell, nand.bad, nand.durable)]
      ensures Coupled(g, nand.pageSize, nand.bad, nand.cell, nand.durable, head, tailSync, epoch, 7)
      ensures Recorded(g, nand.pageSize, history, nand.history, nand.durable, nand.durable)
    {
      CoupledFurther(g, nand.pageSize, nand.bad, s.cell, nand.durable, head, tailSync, epoch, steps);
      EraseKeeps(g, nand.pageSize, nand.bad, s.cell, nand.durable, head, tailSync, epoch, torn);
      EraseKeeps(g, nand.pageSize, nand.bad, s.cell, nand.durable, head, tailSync, epoch, nand.cell);
      hide Resumable, Recorded;
      RecordedTwo(g, nand.pageSize, history, Moment(torn, nand.bad, nand.durable),
        Moment(nand.cell, nand.bad, nand.durable), nand.durable, nand.durable);
    }

    method SkipBadBlock(ghost dump: bool, ghost steps: nat) returns (r: Outcome)
      requires Mode(dump) && BlockStart(head) && Level(false) && (dump || Tracking(steps)) && dirty
      requires head.Page? && IsBad(nand.bad, head.blk)
      modifies this`head, this`epoch, this`bbLast, this`bbCurrent
      ensures SteadyMode(dump) && BlockStart(head)
      ensures r == Ok ==> Mode(dump) && Level(false) && (dump || Tracking(steps + 1))
      ensures r == Ok || r == Err(JournalFull)
    {
      hide Coupled, Even, Recorded, Placed, Readable, Recovering, Ready, InWindow, ChecksOk;
      ghost var s := St();
      bbCurrent := bbCurrent + 1;
      r := SkipBlock();
      assert St() == s.(head := head);
      if r == Ok {
        if leveled { SkipEven(g, nand.bad, nand.erases, s.head); }
        if dump {
          DumpSkips(g, nand.pageSize, s.(recoverRoot := Page.None, recoverNext := Page.None), head, s.bad);
        } else {
          if Tracked() {
            SkipCoupled(g, nand.pageSize, s.bad, s.cell, nand.durable, s.head, s.tailSync, s.tail, old(epoch), steps,
              head, epoch);
          }
          SkipKeeps(g, nand.pageSize, !nand.reliable, s, head);
        }
      }
    }

    // -------------------------------------------------------------- recovery

    method RestartRecovery(oldHead: Page)
      requires g.Ok() && nand.Valid() && nand.g == g && g.UserPage(oldHead)
      modifies this, nand`bad
      ensures nand.Valid() && head == old(head) && tail == old(tail) && tailSync == old(tailSync)
      ensures recovery == old(recovery) && recoverRoot == old(recoverRoot) && recoverMeta == old(recoverMeta)
      ensures base == old(base) && buf == old(buf) && log == base && root == recoverRoot
      ensures recoverNext == BlockBase(g, recoverRoot) && !enumDone
      ensures if recoverMeta != Page.None && SameBlock(recoverMeta, oldHead)
              then badMeta && nand.bad == old(nand.bad)
              else badMeta == old(badMeta) && nand.bad == old(nand.bad)[oldHead.blk := true]
    {
      if recoverMeta == Page.None || !SameBlock(recoverMeta, oldHead) {
        nand.MarkBad(oldHead.blk);
      } else {
        badMeta := true;
      }
      enumDone := false;
      recoverNext := BlockBase(g, recoverRoot);
      root := recoverRoot;
      log := base;
    }

    /** Writes the buffered metadata of the failed block on the first page of a new block. */
    method DumpMeta() returns (r: Outcome)
      requires Mode(true) && g.Ok() && recoverRoot == root && recoverNext == BlockBase(g, root) && Level(false)
      modifies this, nand
      ensures r == Ok ==> DumpedNow() && Level(false) && !recovery && !enumDone
      ensures r == Ok ==> tail == old(tail) && log == old(log) && root == old(root)
      ensures r == Ok ==> BadGrows(old(nand.bad), nand.bad)
      ensures r == Ok || r == Err(JournalFull) || r == Err(TooBad)
    {
      hide Coupled, Even, Recorded, Mode, DumpedNow, BadGrows;
      ModeBasics(true);
      BadGrowsSelf(nand.bad);
      var i := 0;
      while i < MAX_RETRIES
        invariant i <= MAX_RETRIES && Mode(true) && g.Ok() && recoverRoot == root && recoverNext == BlockBase(g, root)
        invariant tail == old(tail) && log == old(log) && root == old(root) && !recovery && !enumDone
        invariant BadGrows(old(nand.bad), nand.bad) && Level(false)
      {
        ghost var bad := nand.bad;
        r := DumpStep();
        if r == Ok || r == Err(BadBlock) {
          BadGrowsOn(old(nand.bad), bad, nand.bad);
        }
        if r != Err(BadBlock) {
          return;
        }
        i := i + 1;
      }
      return Err(TooBad);
    }

    /** One attempt; Err(BadBlock) means that the block has been given up for the next one. */
    method DumpStep() returns (r: Outcome)
      requires Mode(true) && g.Ok() && recoverRoot == root && recoverNext == BlockBase(g, root) && Level(false)
      modifies this`recoverMeta, this`head, this`dirty, this`epoch, this`bbLast, this`bbCurrent, this`buf, nand
      ensures r == Ok ==> DumpedNow() && Level(false)
      ensures r == Err(BadBlock) ==> Mode(true) && Level(false)
      ensures r == Ok || r == Err(BadBlock) ==> BadGrows(old(nand.bad), nand.bad)
      ensures r == Ok || r == Err(JournalFull) || r == Err(TooBad) || r == Err(BadBlock)
    {
      hide Coupled, Even, Recorded, Mode, DumpedNow, BadGrows;
      BadGrowsSelf(nand.bad);
      r := DumpAttempt();
      if r == Err(BadBlock) {
        var skipped := GiveUpDumpBlock();
        if skipped != Ok {
          r := skipped;
        }
      }
    }

    method DumpAttempt() returns (r: Outcome)
      requires Mode(true) && g.Ok() && recoverRoot == root && recoverNext == BlockBase(g, root) && Level(false)
      modifies this`recoverMeta, this`head, this`dirty, this`epoch, this`bbLast, this`bbCurrent, this`buf
      modifies nand`cell, nand`history, nand`erases, nand`durable
      ensures r == Ok ==> DumpedNow() && Level(false)
      ensures r == Err(BadBlock) ==> Mode(true) && Level(true)
      ensures r == Ok || r == Err(JournalFull) || r == Err(TooBad) || r == Err(BadBlock)
    {
      hide Coupled, Even, Recorded, Dumping, Inv, Ready, Shape;
      r := PrepareHead(true);
      if r == Ok {
        r := DumpBuffer();
      }
    }

    /** Recovery can begin: the buffered metadata is on the page `recoverMeta`. */
    ghost predicate DumpedNow()
      reads this, nand
    {
      Basic() && BufferOk(g, buf) && recoverRoot == root && recoverNext == BlockBase(g, root) &&
      (root != Page.None ==> Inv(g, nand.pageSize, true, St().(recovery := true, base := log)))
    }

    /** The head page now holds the dumped metadata. */
    method LeaveDump()
      requires g.Ok() && g.UserPage(head) && Level(true)
      modifies this`recoverMeta, this`head, this`epoch, this`bbLast, this`bbCurrent, this`buf
      ensures head == g.NextUpage(old(head)) && BufferOk(g, buf)
      ensures St() == old(St()).(head := head, recoverMeta := old(head), buf := buf) && Level(false)
    {
      hide Coupled, Even;
      LevelMoves();
      recoverMeta := head;
      MoveHead();
      buf := buf.(metas := seq(g.ppc - 1, _ => META_NONE));
    }

    method DumpBuffer() returns (r: Outcome)
      requires Mode(true) && g.Ok() && recoverRoot == root && recoverNext == BlockBase(g, root) && Level(true)
      requires Ready(g, nand.cell, head) && NotBad(nand.bad, head) && NextClear(g, tailSync, head)
      modifies this`recoverMeta, this`head, this`epoch, this`bbLast, this`bbCurrent, this`buf
      modifies nand`cell, nand`history, nand`erases, nand`durable
      ensures r == Ok ==> DumpedNow() && Level(false)
      ensures r == Ok || (r == Err(BadBlock) && Mode(true) && head == old(head) && Level(true))
    {
      hide Coupled, Even, Recorded, DumpLog, InWindow, Inv, Ready, TouchesHeadOnly, ErasedAbove;
      ghost var s := St().(recoverRoot := Page.None, recoverNext := Page.None);
      r := nand.Prog(head, Check(buf), nand.durable);
      HeadProgrammed(g, s.cell, head, nand.cell[head]);
      if r == Ok {
        LeaveDump();
        if root != Page.None {
          DumpKeeps(g, nand.pageSize, s, nand.cell, buf);
        }
        assert root != Page.None ==>
            St().(recovery := true, base := log) == Begun(s, head, s.head).(cell := nand.cell, buf := buf);
      } else {
        DumpTouches(g, nand.pageSize, s, nand.cell);
        assert St().(recoverRoot := Page.None, recoverNext := Page.None) == s.(cell := nand.cell);
      }
    }

    method GiveUpDumpBlock() returns (r: Outcome)
      requires Mode(true) && Level(true)
      modifies this`head, this`epoch, this`bbLast, this`bbCurrent, nand`bad
      ensures r == Ok ==> Mode(true) && BadGrows(old(nand.bad), nand.bad) && Level(false)
      ensures r == Ok || r == Err(JournalFull)
    {
      hide Coupled, Even, Recorded, Placed, Readable, Recovering, Ready, InWindow, ChecksOk;
      ghost var s := St().(recoverRoot := Page.None, recoverNext := Page.None);
      bbCurrent := bbCurrent + 1;
      nand.MarkBad(head.blk);
      r := SkipBlock();
      if r == Ok {
        if leveled {
          LeaveEven(g, s.bad, nand.erases, s.head);
          MarkEven(g, s.bad, nand.bad, nand.erases, head, false);
        }
        DumpSkips(g, nand.pageSize, s, head, nand.bad);
        assert St().(recoverRoot := Page.None, recoverNext := Page.None) == s.(head := head, bad := nand.bad);
      }
    }
  
    /** No checkpoint has been written for the pages before the head in its group. */
    ghost predicate Unclosed()
      reads this`head, nand`cell
    {
      GroupStart(head) || Unchecked(g, nand.cell, head)
    }

    /** Starts recovery, or starts it again, after a page or a block has failed.  A block that
        failed before anything was written on it is only skipped. */
    method RecoverFrom(writeErr: Error) returns (r: Outcome)
      requires Steady()
      requires writeErr == BadBlock ==> !nand.reliable && NotBad(nand.bad, head) && Level(true) && Unclosed()
      requires writeErr == BadBlock || writeErr == JournalFull || writeErr == TooBad || writeErr == Ecc
      modifies this, nand
      ensures r == Ok ==> Valid() && !old(recovery) && BlockStart(old(head)) && BlockStart(head) && head != old(head)
      ensures r == Ok ==> St() == old(St()).(head := head, bad := nand.bad) && BadGrows(old(nand.bad), nand.bad)
      ensures r == Err(Recover) ==> !nand.reliable && EnteredRecovery(old(St()), St())
      ensures r == Err(Recover) ==> Recoverable()
      ensures writeErr == BadBlock && !old(recovery) ==>
        (BlockStart(old(head)) <==> r == Ok) || r == Err(JournalFull) || r == Err(TooBad)
      ensures r == Ok ==> nand.cell == old(nand.cell)
      ensures r == Err(Ecc) ==> writeErr == Ecc
      ensures nand.reliable ==>
        r == Err(writeErr) && nand.history == old(nand.history) && nand.durable == old(nand.durable)
      ensures r == Ok || r == Err(Recover) || r == Err(JournalFull) || r == Err(TooBad) || r == Err(Ecc)
    {
      hide Coupled, Even, Recorded, Clean, Inv, InvBase, Dumping, ChecksOk, EnteredRecovery, BadGrows;
      BasicOf(g, nand.pageSize, !nand.reliable, St());
      var oldHead := head;
      if writeErr != BadBlock {
        return Err(writeErr);
      }
      ghost var s := St();
      bbCurrent := bbCurrent + 1;
      r := SkipBlock();
      if r != Ok {
        return;
      }
      if leveled { LeaveEven(g, nand.bad, nand.erases, oldHead); }
      if recovery {
        RestartAt(oldHead, s);
        return Err(Recover);
      }
      if BlockStart(oldHead) {
        SkipFailed(oldHead, s);
        return Ok;
      }
      r := BeginRecovery(oldHead, s);
    }

    /** The head has left a block that failed during recovery. */
    method RestartAt(oldHead: Page, ghost s: State)
      requires g == nand.g && nand.Valid() && !nand.reliable && InvBase(g, nand.pageSize, true, s)
      requires St() == s.(head := head) && head.Page? && s.recovery && oldHead == s.head && NotBad(s.bad, s.head)
      requires head == FirstPage(g.NextBlock(s.head.blk)) && head.blk != s.tailSync.blk && Level(false)
      modifies this, nand`bad
      ensures Valid() && EnteredRecovery(s, St()) && recoverRoot != Page.None
    {
      hide Coupled, Even, Recorded, Clean, Inv, InvBase, Dumping;
      BasicOf(g, nand.pageSize, true, s);
      RestartRecovery(oldHead);
      if leveled { MarkEven(g, s.bad, nand.bad, nand.erases, head, false); }
      RestartKeeps(g, nand.pageSize, true, s, head, nand.bad, badMeta);
      assert St() == Restarted(s, head, nand.bad, badMeta);
    }

    /** The head has left a block that failed before anything was written on it. */
    method SkipFailed(oldHead: Page, ghost s: State)
      requires g == nand.g && nand.Valid() && !nand.reliable && InvBase(g, nand.pageSize, true, s)
      requires St() == s.(head := head) && head.Page? && !s.recovery && oldHead == s.head && BlockStart(oldHead)
      requires head == FirstPage(g.NextBlock(s.head.blk)) && head.blk != s.tailSync.blk && Level(false)
      modifies nand`bad
      ensures Valid() && St() == s.(bad := nand.bad, head := head) && BadGrows(s.bad, nand.bad)
    {
      hide Coupled, Even, Recorded, Clean, Inv, InvBase, Dumping;
      BasicOf(g, nand.pageSize, true, s);
      nand.MarkBad(oldHead.blk);
      if leveled { MarkEven(g, s.bad, nand.bad, nand.erases, head, false); }
      SkipMarkKeeps(g, nand.pageSize, true, s, head);
      assert St() == s.(head := head, bad := nand.bad);
    }

    method BeginRecovery(oldHead: Page, ghost s: State) returns (r: Outcome)
      requires g == nand.g && nand.Valid() && !nand.reliable && InvBase(g, nand.pageSize, true, s)
      requires St() == s.(head := head) && head.Page? && !s.recovery
      requires head == FirstPage(g.NextBlock(s.head.blk)) && head.blk != s.tailSync.blk
      requires oldHead == s.head && !BlockStart(oldHead) && Level(false)
      requires GroupStart(s.head) || Unchecked(g, s.cell, s.head)
      modifies this, nand
      ensures r == Err(Recover) ==> EnteredRecovery(s, St()) && Recoverable()
      ensures r == Err(Recover) || r == Err(JournalFull) || r == Err(TooBad)
    {
      hide Coupled, Even, Recorded, Inv, InvBase, Dumping, ChecksOk;
      BasicOf(g, nand.pageSize, true, s);
      LogPages(g, nand.pageSize, true, s);
      BadGrowsSelf(s.bad);
      recoverRoot := root;
      recoverNext := BlockBase(g, recoverRoot);
      if !GroupStart(oldHead) {
        DumpBegins(g, nand.pageSize, s, head);
        r := DumpMeta();
        if r != Ok {
          return;
        }
      } else if root != Page.None {
        BeginKeeps(g, nand.pageSize, true, s, head);
      }
      base := log;
      recovery := true;
      assert GroupStart(oldHead) ==> St() == Begun(s, head, Page.None).(recoverNext := recoverNext);
      return Err(Recover);
    }
  
    method ClearRecovery()
      modifies this`recoverNext, this`recoverRoot, this`recoverMeta, this`badMeta, this`recovery, this`enumDone,
        this`base
      ensures recoverNext == recoverRoot == recoverMeta == Page.None
      ensures !badMeta && !recovery && !enumDone && base == map[]
    {
      recoverNext := Page.None;
      recoverRoot := Page.None;
      recoverMeta := Page.None;
      badMeta, recovery, enumDone := false, false, false;
      base := map[];
    }

    method MarkEvacuated()
      requires g == nand.g && nand.Valid() && g.UserPage(recoverRoot) && (badMeta ==> g.UserPage(recoverMeta))
      modifies nand`bad
      ensures nand.Valid() && FinishMarks(g, old(St()), nand.bad) && BadGrows(old(nand.bad), nand.bad)
      ensures MarkedBad(nand.bad, recoverRoot)
    {
      nand.MarkBad(recoverRoot.blk);
      if badMeta {
        nand.MarkBad(recoverMeta.blk);
      }
    }

    method FinishRecovery()
      requires Sound() && recovery && LastPage(root, head, log) && !SameBlock(root, recoverRoot)
      modifies this, nand`bad
      ensures Sound() && St() == Finished(old(St()), nand.bad)
      ensures BadGrows(old(nand.bad), nand.bad)
      ensures MarkedBad(nand.bad, old(recoverRoot))
      ensures dirty == old(dirty) && tailSync == old(tailSync)
    {
      hide Coupled, Even, Recorded, Inv, InvBase, WithoutBlock, FinishMarks, BadGrows, LastPage, MarkedBad;
      ghost var s := St();
      FinishBasics(g, nand.pageSize, !nand.reliable, s);
      MarkEvacuated();
      log := WithoutBlock(log, recoverRoot);
      ClearRecovery();
      assert St() == Finished(s, nand.bad);
      FinishKeeps(g, nand.pageSize, !nand.reliable, s, nand.bad);
    }

    /** The checkpoint on the chip is still `ck`, or it is the journal as it is now. */
    ghost predicate Renewed(ck: Checkpoint, cookie: nat)
      reads this, nand
    {
      Tracked() ==> buf.cookie == cookie && nand.durable == if dirty then ck else Checkpoint(root, buf, log)
    }

    /** A user page has been written at the head: its metadata joins the buffer, and when that is
        full the checkpoint page is programmed. */
    method PushMeta(meta: Meta, ghost data: PageData) returns (r: Outcome, ghost torn: bool)
      requires g == nand.g && nand.Valid() && PushReady(g, nand.pageSize, !nand.reliable, St(), data)
      requires dirty && Tracking(7) && Level(true)
      modifies this, nand
      ensures r == Ok ==> Valid()
      ensures r == Ok ==>
        if torn then Dropped(g, old(St()), St())
        else Enqueued(old(St()), St(), Entry(meta, data)) && (dirty <==> !GroupStart(head))
      ensures r == Ok && old(head).idx + 2 == g.ppc ==>
        nand.Valid() && (torn <==> nand.cell[g.CheckPage(old(head))] == Torn)
      ensures r == Ok && !torn ==> root == old(head)
      ensures torn ==> !nand.reliable && old(head).idx + 2 == g.ppc
      ensures torn ==> (r == Ok <==> LosesPage(g, old(St()))) || r == Err(JournalFull) || r == Err(TooBad)
      ensures !torn ==> r == Ok
      ensures Safely(old(nand.history), old(nand.durable))
      ensures r == Ok ==> Renewed(old(nand.durable), old(buf.cookie))
      ensures nand.reliable ==> r == Ok
      ensures Smoothly(old(St()), old(Stats()))
      ensures r == Err(Recover) ==> !nand.reliable && EnteredRecovery(old(St()), St())
      ensures r == Err(Recover) ==> Recoverable()
      ensures r == Ok || r == Err(Recover) || r == Err(JournalFull) || r == Err(TooBad) || r == Err(Ecc)
    {
      hide Coupled, Even, Recorded, Clean, Inv, InvBase, PushReady, Enqueued, GroupBuffered, BadGrows,
           EnteredRecovery, Dropped, ChecksOk;
      hide Smooth, AllGood, LosesPage;
      ghost var s := St();
      ghost var entry := Entry(meta, data);
      PushBasics(g, nand.pageSize, !nand.reliable, s, data);
      RecordedNothing(g, nand.pageSize, nand.history, nand.durable, nand.durable);
      buf := buf.(metas := buf.metas[head.idx := meta]);
      if head.idx + 2 < g.ppc {
        GrowGroup(entry, s);
        return Ok, false;
      }
      r, torn := FillGroup(entry, s);
    }

    /** A user page that is not the last of its group. */
    method GrowGroup(ghost entry: Entry, ghost s: State)
      requires g == nand.g && nand.Valid() && PushReady(g, nand.pageSize, !nand.reliable, s, entry.data)
      requires g.Ok() && g.UserPage(head) && St() == s.(buf := buf) && head.idx + 2 < g.ppc
      requires buf.metas == s.buf.metas[head.idx := entry.meta] && |s.buf.metas| == g.ppc - 1
      requires dirty && Tracking(7) && Level(true)
      modifies this`log, this`root, this`head
      ensures Valid() && Enqueued(s, St(), entry) && !GroupStart(head) && Smooth(g, s, St(), dirty) && root == s.head
    {
      hide Coupled, Even, Recorded, Clean, Inv, InvBase, PushReady, Enqueued, GroupBuffered, BadGrows, ChecksOk;
      PushBasics(g, nand.pageSize, !nand.reliable, s, entry.data);
      BufferJoins(g, nand.pageSize, !nand.reliable, s, entry, buf);
      PushKeeps(g, nand.pageSize, !nand.reliable, s, entry, nand.cell, buf);
      PushEnqueued(g, s, entry, nand.cell, buf);
      if Tracked() { StepTracked(s, entry.data); }
      LevelMoves();
      PushInGroup(entry, s);
      DirtyClean(nand.durable, tail, head, root, log);
    }

    /** The wear stays even when the head moves on. */
    lemma LevelMoves()
      requires g.Ok() && g.UserPage(head) && Level(true)
      ensures leveled ==> Even(g, nand.bad, nand.erases, g.NextUpage(head), false)
    {
      hide Even;
      if leveled { MoveEven(g, nand.bad, nand.erases, head); }
    }

    /** The last user page of a group: programs the checkpoint page and closes the group. */
    method FillGroup(ghost entry: Entry, ghost s: State) returns (r: Outcome, ghost torn: bool)
      requires g == nand.g && nand.Valid() && PushReady(g, nand.pageSize, !nand.reliable, s, entry.data)
      requires g.Ok() && g.UserPage(head) && St() == s.(buf := buf) && head.idx + 2 == g.ppc
      requires buf.metas == s.buf.metas[head.idx := entry.meta] && |s.buf.metas| == g.ppc - 1
      requires dirty && Tracking(7) && Level(true)
      modifies this, nand
      ensures r == Ok ==> Valid()
      ensures r == Ok ==>
        if torn then Dropped(g, s, St()) else Enqueued(s, St(), entry) && (dirty <==> !GroupStart(head))
      ensures r == Ok ==> nand.Valid() && (torn <==> nand.cell[g.CheckPage(s.head)] == Torn)
      ensures r == Ok && !torn ==> root == s.head
      ensures torn ==> !nand.reliable && ((r == Ok <==> LosesPage(g, s)) || r == Err(JournalFull) || r == Err(TooBad))
      ensures !torn ==> r == Ok
      ensures Safely(old(nand.history), old(nand.durable))
      ensures r == Ok ==> Renewed(old(nand.durable), old(buf.cookie))
      ensures nand.reliable ==> r == Ok
      ensures Smoothly(s, old(Stats()))
      ensures r == Err(Recover) ==> !nand.reliable && EnteredRecovery(s, St())
      ensures r == Err(Recover) ==> Recoverable()
      ensures r == Ok || r == Err(Recover) || r == Err(JournalFull) || r == Err(TooBad) || r == Err(Ecc)
    {
      hide Coupled, Even, Recorded, Inv, InvBase, PushReady, Enqueued, GroupBuffered, BadGrows, Checked, Clean,
           EnteredRecovery, Dropped;
      PushBasics(g, nand.pageSize, !nand.reliable, s, entry.data);
      r := WriteCheckpoint(entry, s);
      torn := r != Ok;
      if r != Ok {
        r := CheckpointFailed(s);
        return;
      }
      BufferJoins(g, nand.pageSize, !nand.reliable, s, entry, buf);
      PushChecked(g, nand.pageSize, !nand.reliable, s, entry.data, epoch, buf, nand.cell);
      CloseGroup(entry, s, nand.cell, buf, old(nand.durable));
      if Tracked() { CheckRecorded(entry.data, s, old(nand.durable), old(epoch), old(nand.history)); }
    }

    lemma StepTracked(s: State, data: PageData)
      requires Tracked() && Tracking(7) && St() == s.(buf := buf) && PushReady(g, nand.pageSize, false, s, data)
      requires g.Ok() && g.UserPage(head) && head.idx + 2 < g.ppc
      ensures Coupled(g, nand.pageSize, nand.bad, nand.cell, nand.durable, Page(head.blk, head.grp, head.idx + 1),
        tailSync, epoch, 0)
    {
      hide Coupled, Even, Readable, Placed, Recovering, ErasedAbove;
      StepCoupled(g, nand.pageSize, nand.bad, nand.cell, nand.durable, head, tailSync, tail, epoch);
    }

    /** Both moments of programming a checkpoint page. */
    lemma CheckRecorded(data: PageData, s: State, ck: Checkpoint, epoch: nat, history: seq<Moment>)
      requires Tracked() && Tracking(0) && PushReady(g, nand.pageSize, false, s, data)
      requires Coupled(g, nand.pageSize, s.bad, s.cell, ck, s.head, s.tailSync, epoch, 7)
      requires g.Ok() && g.UserPage(s.head) && s.head.idx + 2 == g.ppc && s.bad == nand.bad
      requires nand.history == history + [Moment(s.cell[g.CheckPage(s.head) := Torn], nand.bad, ck),
        Moment(nand.cell, nand.bad, nand.durable)]
      ensures Recorded(g, nand.pageSize, history, nand.history, ck, nand.durable)
    {
      assert s.cell[g.CheckPage(s.head)] == Erased;
      hide Recorded, Readable, Placed, Recovering, ErasedAbove, Clean;
      ProgramKeeps(g, nand.pageSize, s.bad, s.cell, ck, s.head, s.tailSync, s.tail, epoch, g.CheckPage(s.head), Torn);
      hide Resumable, Standing, Held, TwoGood;
      RecordedTwo(g, nand.pageSize, history, Moment(s.cell[g.CheckPage(s.head) := Torn], nand.bad, ck),
                  Moment(nand.cell, nand.bad, nand.durable), ck, nand.durable);
    }

    lemma CloseTracked(s: State, n: State, ck: Checkpoint, epoch0: nat)
      requires Tracked() && !s.recovery && !n.recovery && !recovery && g.Ok() && g.UserPage(s.head) && s.head !in s.log
      requires InvBase(g, nand.pageSize, false, s) && InvBase(g, nand.pageSize, false, n) &&
        NextClear(g, s.tailSync, s.head)
      requires Coupled(g, nand.pageSize, s.bad, s.cell, ck, s.head, s.tailSync, epoch0, 7)
      requires Checked(g, s.bad, s.cell, s.head, epoch0, buf, n.cell) && buf.tail == s.tail && n.bad == s.bad
      requires n.head == g.NextUpage(s.head) && n.log.Keys == s.log.Keys + {s.head} && n.tail == s.tail
      requires nand.durable == Checkpoint(s.head, buf, n.log) && nand.bad == n.bad && nand.cell == n.cell
      requires root == s.head && log == n.log && head == n.head && tailSync == tail == s.tail
      requires epoch == if head == FirstPage(0) then (epoch0 + 1) % 256 else epoch0
      ensures Tracking(0)
    {
      hide Coupled, Even, Checked, InvBase, NextClear, Clean;
      NewCheckpoint(g, nand.pageSize, s, n, ck, epoch0, epoch, buf);
    }

    method CheckpointFailed(ghost s: State) returns (r: Outcome)
      requires g == nand.g && nand.Valid() && !nand.reliable && InvBase(g, nand.pageSize, true, s) && Level(true)
      requires g.UserPage(s.head) && g.Covers(s.cell) && s.head.idx + 2 == g.ppc && NotBad(s.bad, s.head)
      requires SlotOnly(s.buf.metas, buf.metas, s.head.idx)
      requires St() == s.(buf := buf, cell := s.cell[g.CheckPage(s.head) := Torn])
      modifies this, nand
      ensures r == Ok ==> Valid() && Dropped(g, s, St()) && nand.cell[g.CheckPage(s.head)] == Torn
      ensures (r == Ok <==> LosesPage(g, s)) || r == Err(JournalFull) || r == Err(TooBad)
      ensures r == Err(Recover) ==> EnteredRecovery(s, St()) && Recoverable()
      ensures r == Ok || r == Err(Recover) || r == Err(JournalFull) || r == Err(TooBad) || r == Err(Ecc)
    {
      hide Coupled, Even, Recorded, Inv, InvBase, BadGrows;
      CheckFailed(g, nand.pageSize, true, s, nand.cell, buf);
      r := RecoverFrom(BadBlock);
    }

    method PushInGroup(ghost entry: Entry, ghost s: State)
      requires g.Ok() && g.UserPage(head) && head.idx + 2 < g.ppc && St() == s.(buf := buf)
      modifies this`log, this`root, this`head
      ensures St() == Pushed(g, s, entry, s.cell, buf)
    {
      log := log[head := entry];
      root := head;
      head := Page(head.blk, head.grp, head.idx + 1);
    }

    /** Programs the checkpoint page of the head's group. */
    method WriteCheckpoint(ghost entry: Entry, ghost s: State) returns (r: Outcome)
      requires g == nand.g && nand.Valid() && g.UserPage(head) && BufferOk(g, buf)
      requires Ready(g, nand.cell, g.CheckPage(head)) && NotBad(nand.bad, head) && St() == s.(buf := buf)
      modifies this`buf, nand`cell, nand`history, nand`durable
      ensures nand.Valid() && BufferOk(g, buf) && buf.metas == old(buf).metas
      ensures r == Ok || (r == Err(BadBlock) && !nand.reliable)
      ensures St() == s.(buf := buf, cell := nand.cell)
      ensures nand.cell == s.cell[g.CheckPage(head) := if r == Ok then Check(buf) else Torn]
      ensures buf.magic && buf.epoch == epoch && buf.tail == tail && buf.cookie == old(buf.cookie)
      ensures r == Ok ==> nand.durable == Checkpoint(head, buf, log[head := entry])
      ensures r == Ok ==>
        nand.history == old(nand.history) + [Moment(s.cell[g.CheckPage(head) := Torn], nand.bad, old(nand.durable)),
                                             Moment(nand.cell, nand.bad, nand.durable)]
    {
      hide Coupled, Even, Recorded, Ready;
      buf := buf.(magic := true, epoch := epoch, tail := tail, bbCurrent := bbCurrent, bbLast := bbLast);
      r := nand.Prog(g.CheckPage(head), Check(buf), Checkpoint(head, buf, log[head := entry]));
    }

    /** Moves the head past the group that has just been checkpointed. */
    method CloseGroup(ghost entry: Entry, ghost s: State, ghost cell: Image, ghost buf': Buffer, ghost ck: Checkpoint)
      requires g == nand.g && nand.Valid() && PushReady(g, nand.pageSize, !nand.reliable, s, entry.data)
      requires St() == s.(buf := buf', cell := cell) && g.Ok() && g.UserPage(s.head) && s.head.idx + 2 == g.ppc
      requires PushCell(g, s.head, s.cell, cell, buf') && BufferOk(g, buf') && GroupBuffered(s.head, s.log, entry, buf')
      requires Tracked() ==>
        !recovery && nand.durable == Checkpoint(head, buf', log[head := entry]) && buf'.tail == tail
      requires Tracked() ==> Coupled(g, nand.pageSize, s.bad, s.cell, ck, s.head, s.tailSync, epoch, 7)
      requires Tracked() ==> Checked(g, s.bad, s.cell, s.head, epoch, buf', cell)
      requires Level(true)
      modifies this, nand`bad
      ensures Valid() && Enqueued(s, St(), entry) && !dirty && GroupStart(head) && root == s.head
      ensures Smoothly(s, old(Stats()))
      ensures Tracked() ==>
        nand.bad == s.bad && nand.cell == cell && nand.durable == Checkpoint(root, buf, log) && buf == buf'
    {
      hide Coupled, Even, Recorded, Inv, InvBase, PushReady, Enqueued, GroupBuffered, BadGrows, MarkedBad;
      hide Checked, Clean, PushCell, Smooth, AllGood, ChecksOk, LastPage, NextClear;
      PushBasics(g, nand.pageSize, !nand.reliable, s, entry.data);
      LeaveGroup(entry, s, cell, buf');
      if !recovery {
        SyncGroup(entry, s, cell, buf', ck, old(epoch));
      }
    }

    /** The head leaves the group, and recovery ends if this was its last. */
    method LeaveGroup(ghost entry: Entry, ghost s: State, ghost cell: Image, ghost buf': Buffer)
      requires g == nand.g && nand.Valid() && PushReady(g, nand.pageSize, !nand.reliable, s, entry.data)
      requires St() == s.(buf := buf', cell := cell) && g.Ok() && g.UserPage(s.head) && s.head.idx + 2 == g.ppc
      requires PushCell(g, s.head, s.cell, cell, buf') && BufferOk(g, buf') && GroupBuffered(s.head, s.log, entry, buf')
      requires Level(true)
      modifies this, nand`bad
      ensures Sound() && Enqueued(s, St(), entry) && Level(false) && !dirty && GroupStart(head) && root == s.head
      ensures recovery ==> s.recovery
      ensures !s.recovery ==> Rolled(old(bbLast), old(bbCurrent)) && epoch == EpochAt(head, old(epoch))
      ensures !s.recovery ==> s.head !in s.log && St() == Pushed(g, s, entry, cell, buf')
    {
      hide Coupled, Even, Recorded, Inv, InvBase, PushReady, Enqueued, GroupBuffered, BadGrows, MarkedBad;
      hide Checked, Clean, PushCell, Smooth, AllGood, ChecksOk, LastPage, NextClear;
      PushBasics(g, nand.pageSize, !nand.reliable, s, entry.data);
      PushKeeps(g, nand.pageSize, !nand.reliable, s, entry, cell, buf');
      dirty := false;
      LevelMoves();
      AdvancePastCheckpoint(entry, s);
      if enumDone {
        EndRecovery(entry, s, cell, buf');
      } else {
        PushEnqueued(g, s, entry, cell, buf');
      }
    }

    /** Outside recovery the checkpoint just programmed stands for the whole queue. */
    method SyncGroup(ghost entry: Entry, ghost s: State, ghost cell: Image, ghost buf': Buffer, ghost ck: Checkpoint,
                     ghost epoch0: nat)
      requires Sound() && !recovery && Enqueued(s, St(), entry) && Level(false) && !dirty && GroupStart(head)
      requires PushReady(g, nand.pageSize, !nand.reliable, s, entry.data) && g.Ok() && g.UserPage(s.head) &&
        s.head.idx + 2 == g.ppc
      requires !s.recovery ==> s.head !in s.log && St() == Pushed(g, s, entry, cell, buf')
      requires Tracked() ==>
        !s.recovery && nand.durable == Checkpoint(s.head, buf', s.log[s.head := entry]) && buf'.tail == s.tail
      requires Tracked() ==> Coupled(g, nand.pageSize, s.bad, s.cell, ck, s.head, s.tailSync, epoch0, 7)
      requires Tracked() ==> Checked(g, s.bad, s.cell, s.head, epoch0, buf', cell)
      requires Tracked() ==> epoch == if head == FirstPage(0) then (epoch0 + 1) % 256 else epoch0
      modifies this`tailSync
      ensures Valid() && Enqueued(s, St(), entry) && (!s.recovery ==> Smooth(g, s, St(), false))
      ensures Tracked() ==> nand.durable == Checkpoint(root, buf, log)
    {
      hide Coupled, Even, Recorded, Inv, InvBase, Enqueued, BadGrows, Checked, Clean, Smooth;
      SyncTailPointer(entry, s);
      PushedSmooth(g, s, entry, cell, buf');
      if Tracked() {
        InvToBase(g, nand.pageSize, false, Pushed(g, s, entry, cell, buf'));
        CloseTracked(s, Pushed(g, s, entry, cell, buf'), ck, epoch0);
      }
    }

    /** The group just closed is the last that recovery had to write. */
    method EndRecovery(ghost entry: Entry, ghost s: State, ghost cell: Image, ghost buf': Buffer)
      requires g.Ok() && g.UserPage(s.head) && s.head !in s.log && s.recovery && s.enumDone &&
        !SameBlock(s.head, s.recoverRoot)
      requires Sound() && St() == Pushed(g, s, entry, cell, buf') && LastPage(root, head, log) && Level(false)
      modifies this, nand`bad
      ensures Sound() && Enqueued(s, St(), entry) && Level(false) && !recovery
      ensures head == old(head) && root == old(root) && dirty == old(dirty)
    {
      hide Coupled, Even, Recorded, Inv, InvBase, Enqueued, BadGrows, MarkedBad, LastPage;
      FinishRecovery();
      FinishEnqueued(g, s, entry, cell, buf', nand.bad);
      if leveled { MarkEven(g, s.bad, nand.bad, nand.erases, head, false); }
    }

    /** Outside recovery a checkpoint brings the synchronised tail up to the tail. */
    method SyncTailPointer(ghost entry: Entry, ghost s: State)
      requires Sound() && !recovery && Enqueued(s, St(), entry)
      modifies this`tailSync
      ensures Sound() && Enqueued(s, St(), entry) && St() == old(St()).(tailSync := tail)
    {
      hide Inv, InvBase, Enqueued;
      SyncKeeps(g, nand.pageSize, !nand.reliable, St());
      EnqueuedSync(s, St(), entry);
      tailSync := tail;
    }

    method AdvancePastCheckpoint(ghost entry: Entry, ghost s: State)
      requires g.Ok() && g.UserPage(head) && St() == s.(buf := buf, cell := nand.cell)
      modifies this`log, this`root, this`head, this`epoch, this`bbLast, this`bbCurrent
      ensures St() == Pushed(g, s, entry, nand.cell, buf) && Rolled(old(bbLast), old(bbCurrent))
      ensures epoch == if head == FirstPage(0) then (old(epoch) + 1) % 256 else old(epoch)
    {
      log := log[head := entry];
      root := head;
      MoveHead();
    }
  
    // -------------------------------------------------------------- enqueuing

    /** What a successful enqueue means: the page has joined, or, if its checkpoint page is `torn`, it
        has been dropped. */
    ghost predicate Accepted(o: State, entry: Entry, torn: bool)
      reads this, nand
    {
      Valid() &&
      if torn then !nand.reliable && DroppedFrom(g, o, St())
      else Enqueued(o, St(), entry) && (dirty <==> !GroupStart(head))
    }

    /** What comes of a failed checkpoint program. */
    ghost predicate TornMeans(o: State, r: Outcome)
    {
      !nand.reliable && ((r == Ok <==> LosesPage(g, o)) || r == Err(JournalFull) || r == Err(TooBad))
    }

    ghost predicate Refused(o: State)
      reads this, nand
    {
      !nand.reliable && EnteredRecovery(o, St()) && Recoverable()
    }

    /** Appends a page.  Err(Recover) asks the caller to evacuate the failed block. */
    method Enqueue(data: Option<PageData>, meta: Meta) returns (r: Outcome, ghost torn: bool)
      requires Valid()
      modifies this, nand
      ensures r == Ok ==> Accepted(old(St()), Entry(meta, if data.Some? then data.value else Blank(nand.pageSize)),
        torn)
      ensures torn ==> TornMeans(old(St()), r)
      ensures r == Ok ==> Renewed(old(nand.durable), old(buf.cookie))
      ensures r == Ok ==> Smoothly(old(St()), old(Stats()))
      ensures old(Untroubled()) && NextClear(g, old(tailSync), old(head)) ==> r == Ok
      ensures nand.reliable && r != Ok ==> nand.durable == old(nand.durable)
      ensures Safely(old(nand.history), old(nand.durable))
      ensures r == Err(Recover) ==> Refused(old(St()))
      ensures r == Ok || r == Err(Recover) || r == Err(JournalFull) || r == Err(TooBad) || r == Err(Ecc)
    {
      hide Coupled, Even, Recorded, Valid, Accepted, Refused, SameQueue, St;
      SameQueueSelf(St());
      var i := 0;
      while i < MAX_RETRIES
        invariant i <= MAX_RETRIES && Valid() && SameQueue(old(St()), St())
        invariant nand.reliable ==>
          i == 0 && nand.history == old(nand.history) && nand.durable == old(nand.durable) && buf == old(buf)
        invariant nand.reliable ==> St() == old(St()) && Stats() == old(Stats())
        invariant nand.reliable ==> nand.bad == old(nand.bad) && tailSync == old(tailSync) && head == old(head)
      {
        var skipped;
        r, skipped, torn := EnqueueStep(data, meta, old(St()));
        if !skipped {
          return;
        }
        i := i + 1;
      }
      return Err(TooBad), false;
    }

    /** One attempt; `skipped` means that the head's block failed before anything was on it. */
    method EnqueueStep(data: Option<PageData>, meta: Meta, ghost o: State) returns (r: Outcome, skipped: bool,
                       ghost torn: bool)
      requires Valid() && SameQueue(o, St())
      modifies this, nand
      ensures skipped ==> Valid() && SameQueue(o, St())
      ensures !skipped && r == Ok ==> Accepted(o,
        Entry(meta, if data.Some? then data.value else Blank(nand.pageSize)), torn)
      ensures torn ==> !skipped && TornMeans(o, r)
      ensures !skipped && r == Ok ==> Renewed(old(nand.durable), old(buf.cookie))
      ensures !skipped && r == Ok ==> Smoothly(old(St()), old(Stats()))
      ensures old(Untroubled()) && NextClear(g, old(tailSync), old(head)) ==> r == Ok
      ensures nand.reliable && r != Ok ==> nand.durable == old(nand.durable)
      ensures !skipped ==> Safely(old(nand.history), old(nand.durable))
      ensures skipped ==> !nand.reliable
      ensures !skipped && r == Err(Recover) ==> Refused(o)
      ensures r == Ok || r == Err(Recover) || r == Err(JournalFull) || r == Err(TooBad) || r == Err(Ecc)
    {
      hide Coupled, Even, Recorded, Clean, Inv, InvBase, SameQueue, PushReady, Ready, BadGrows, Enqueued,
           EnteredRecovery;
      ghost var d := if data.Some? then data.value else Blank(nand.pageSize);
      ghost var before := St();
      r := WriteHead(data);
      ghost var s := St();
      SameQueueOn(o, before, s);
      ghost var h := nand.history;
      if r == Ok {
        r, torn := PushMeta(meta, d);
        SafelyOn(old(nand.history), h, old(nand.durable));
        SameQueueThen(g, o, s, St(), Entry(meta, d));
        return r, false, torn;
      }
      r := RecoverFrom(r.error);
      SameQueueThen(g, o, s, St(), Entry(meta, d));
      if r == Ok {
        SkippedSame(s, head, nand.bad, s.cell);
        SameQueueOn(o, s, St());
      }
      return r, r == Ok, false;
    }
  
    /** Puts the head on an erased page without changing the queue. */
    method TakeHead() returns (r: Outcome)
      requires Valid()
      modifies this`head, this`dirty, this`epoch, this`bbLast, this`bbCurrent, nand`cell, nand`history, nand`erases
      ensures Steady() && SameQueue(old(St()), St())
      ensures r == Ok ==> HeadTaken() && dirty && Tracking(7) && Level(true)
      ensures Safely(old(nand.history), old(nand.durable))
      ensures Untroubled() ==> head == old(head) && Stats() == old(Stats())
      ensures Untroubled() && NextClear(g, tailSync, old(head)) ==> r == Ok
      ensures r == Err(BadBlock) ==> !nand.reliable && NotBad(nand.bad, head) && Level(true) && Unclosed()
      ensures r == Ok || r == Err(BadBlock) || r == Err(JournalFull) || r == Err(TooBad)
      ensures r == Ok ==> Elsewhere(old(nand.cell), nand.cell, head)
    {
      hide Coupled, Even, Recorded, Clean, Inv, InvBase, Dumping, SameQueue, Ready, BadGrows, NextClear, ChecksOk;
      ghost var o := St();
      ModeReady();
      r := PrepareHead(false);
      BadGrowsSelf(nand.bad);
      SkippedSame(o, head, nand.bad, nand.cell);
      assert St() == o.(head := head, bad := nand.bad, cell := nand.cell);
    }

    lemma ModeReady()
      requires Sound()
      ensures Mode(false)
    {
      hide Inv, Ready, Dumping;
      InvToBase(g, nand.pageSize, !nand.reliable, St());
      BasicOf(g, nand.pageSize, !nand.reliable, St());
    }

    ghost predicate HeadTaken()
      reads this, nand
    {
      nand.Valid() && g == nand.g && g.UserPage(head) &&
      Ready(g, nand.cell, head) && NotBad(nand.bad, head) && NextClear(g, tailSync, head)
    }

    /** Programs the head page, if there is data for it. */
    method WriteHead(data: Option<PageData>) returns (r: Outcome)
      requires Valid()
      modifies this`head, this`dirty, this`epoch, this`bbLast, this`bbCurrent, nand`cell, nand`history, nand`erases,
        nand`durable
      ensures g == nand.g && nand.Valid() && SameQueue(old(St()), St())
      ensures r == Ok ==> PushReady(g, nand.pageSize, !nand.reliable, St(),
                                    if data.Some? then data.value else Blank(nand.pageSize))
      ensures r == Ok ==> dirty && Tracking(7) && Level(true)
      ensures Safely(old(nand.history), old(nand.durable)) && nand.durable == old(nand.durable)
      ensures Untroubled() ==> head == old(head) && Stats() == old(Stats())
      ensures Untroubled() && NextClear(g, tailSync, old(head)) ==> r == Ok
      ensures r != Ok ==> Steady()
      ensures r == Err(BadBlock) ==> !nand.reliable && NotBad(nand.bad, head) && Level(true) && Unclosed()
      ensures r == Ok || r == Err(BadBlock) || r == Err(JournalFull) || r == Err(TooBad)
    {
      hide Coupled, Even, Recorded, InvBase, SameQueue, PushReady, Ready, Inv;
      ghost var o := St();
      r := TakeHead();
      if r == Ok {
        ghost var s, h := St(), nand.history;
        r := ProgramHead(data);
        SafelyOn(old(nand.history), h, nand.durable);
        SameQueueOn(o, s, St());
      }
    }

    lemma ProgramTracked(s: State, c: Content, history: seq<Moment>)
      requires Tracked() && St() == s.(cell := nand.cell) && InvBase(g, nand.pageSize, false, s) &&
        NextClear(g, tailSync, head)
      requires g.Ok() && g.UserPage(head) && Ready(g, s.cell, head) && !c.Check? && !c.Erased? && s.head in s.cell &&
        nand.cell == s.cell[head := c]
      requires Coupled(g, nand.pageSize, nand.bad, s.cell, nand.durable, head, tailSync, epoch, 7)
      requires nand.history == history + [Moment(s.cell[head := Torn], nand.bad, nand.durable),
        Moment(nand.cell, nand.bad, nand.durable)]
      ensures Coupled(g, nand.pageSize, nand.bad, nand.cell, nand.durable, head, tailSync, epoch, 7)
      ensures Recorded(g, nand.pageSize, history, nand.history, nand.durable, nand.durable)
    {
      assert s.cell[head] == Erased;
      hide Recorded, Readable, Placed, Ready, Recovering;
      ProgramKeeps(g, nand.pageSize, nand.bad, s.cell, nand.durable, head, tailSync, tail, epoch, head, Torn);
      ProgramKeeps(g, nand.pageSize, nand.bad, s.cell, nand.durable, head, tailSync, tail, epoch, head, c);
      hide Resumable, Standing, Held, TwoGood;
      RecordedTwo(g, nand.pageSize, history, Moment(s.cell[head := Torn], nand.bad, nand.durable),
                  Moment(nand.cell, nand.bad, nand.durable), nand.durable, nand.durable);
    }

    method ProgramHead(data: Option<PageData>) returns (r: Outcome)
      requires Steady() && HeadTaken() && dirty && Tracking(7)
      modifies nand`cell, nand`history, nand`durable
      ensures r == Ok ==> Tracking(7)
      ensures Safely(old(nand.history), old(nand.durable)) && nand.durable == old(nand.durable)
      ensures g == nand.g && nand.Valid() && SameQueue(old(St()), St())
      ensures r == Ok ==> PushReady(g, nand.pageSize, !nand.reliable, St(),
                                    if data.Some? then data.value else Blank(nand.pageSize))
      ensures r == Ok || (r == Err(BadBlock) && !nand.reliable && Steady() && NotBad(nand.bad, head) && Unclosed())
    {
      hide Coupled, Even, Recorded, InvBase, PushReady, Ready, SameQueue;
      ghost var s := St();
      BadGrowsSelf(s.bad);
      RecordedNothing(g, nand.pageSize, nand.history, nand.durable, nand.durable);
      if data.None? {
        ProgrammedReady(g, nand.pageSize, !nand.reliable, s, Blank(nand.pageSize), nand.cell);
        SkippedSame(s, head, s.bad, s.cell);
        return Ok;
      }
      r := nand.Prog(head, Data(data.value), nand.durable);
      assert St() == s.(cell := nand.cell);
      SkippedSame(s, head, s.bad, nand.cell);
      if r == Ok {
        if Tracked() { ProgramTracked(s, Data(data.value), old(nand.history)); }
        ProgrammedReady(g, nand.pageSize, !nand.reliable, s, data.value, nand.cell);
      } else {
        FailedUnchecked(g, s.cell, head);
        ProgramFailed(g, nand.pageSize, !nand.reliable, s, nand.cell);
      }
    }

    /** If page `p` reads as data of a user, it reads as `d`. */
    ghost predicate Reads(pageSize: nat, cell: Image, p: Page, d: PageData) {
      p in cell ==> forall e :: ReadsAs(pageSize, cell[p], e) ==> d == e
    }

    /** Copies a page to the front, with new metadata: what was enqueued on it, if it is in the queue, and
        what it reads as, unless it is in the block that is being written. */
    method Copy(p: Page, meta: Meta) returns (r: Outcome, ghost torn: bool, ghost d: PageData)
      requires Valid() && g.OnChip(p)
      modifies this, nand
      ensures r == Ok ==> Accepted(old(St()), Entry(meta, d), torn)
      ensures p in old(log) && r == Ok ==> d == old(log)[p].data
      ensures nand.reliable && r == Ok && !SameBlock(p, root) ==> Reads(nand.pageSize, old(nand.cell), p, d)
      ensures torn ==> TornMeans(old(St()), r)
      ensures r == Ok ==> Renewed(old(nand.durable), old(buf.cookie))
      ensures r == Ok ==> Smoothly(old(St()), old(Stats()))
      ensures old(Untroubled()) && p in old(log) && NextClear(g, old(tailSync), old(head)) ==> r == Ok
      ensures nand.reliable && r != Ok ==> nand.durable == old(nand.durable)
      ensures Safely(old(nand.history), old(nand.durable))
      ensures r == Err(Recover) ==> Refused(old(St()))
      ensures r == Ok || r == Err(Recover) || r == Err(JournalFull) || r == Err(TooBad) || r == Err(Ecc)
    {
      hide Coupled, Even, Recorded, Valid, Accepted, Refused, SameQueue, Reads;
      SameQueueSelf(St());
      d := [];
      var i := 0;
      while i < MAX_RETRIES
        invariant i <= MAX_RETRIES && Valid() && SameQueue(old(St()), St())
        invariant nand.reliable ==>
          i == 0 && nand.history == old(nand.history) && nand.durable == old(nand.durable) && buf == old(buf)
        invariant nand.reliable ==> St() == old(St()) && Stats() == old(Stats())
        invariant nand.reliable ==> nand.bad == old(nand.bad) && tailSync == old(tailSync) && head == old(head)
      {
        var skipped;
        r, skipped, torn, d := CopyStep(p, meta, old(St()));
        if !skipped {
          return;
        }
        i := i + 1;
      }
      return Err(TooBad), false, d;
    }

    method CopyStep(p: Page, meta: Meta, ghost o: State)
      returns (r: Outcome, skipped: bool, ghost torn: bool, ghost d: PageData)
      requires Valid() && SameQueue(o, St()) && g.OnChip(p)
      modifies this, nand
      ensures skipped ==> Valid() && SameQueue(o, St())
      ensures !skipped && r == Ok ==> Accepted(o, Entry(meta, d), torn)
      ensures p in o.log && !skipped && r == Ok ==> d == o.log[p].data
      ensures nand.reliable && r == Ok && !SameBlock(p, root) ==> Reads(nand.pageSize, old(nand.cell), p, d)
      ensures torn ==> !skipped && TornMeans(o, r)
      ensures !skipped && r == Ok ==> Renewed(old(nand.durable), old(buf.cookie))
      ensures !skipped && r == Ok ==> Smoothly(old(St()), old(Stats()))
      ensures old(Untroubled()) && p in old(log) && NextClear(g, old(tailSync), old(head)) ==> r == Ok
      ensures nand.reliable && r != Ok ==> nand.durable == old(nand.durable)
      ensures !skipped ==> Safely(old(nand.history), old(nand.durable))
      ensures skipped ==> !nand.reliable
      ensures !skipped && r == Err(Recover) ==> Refused(o)
      ensures r == Ok || r == Err(Recover) || r == Err(JournalFull) || r == Err(TooBad) || r == Err(Ecc)
    {
      hide Coupled, Even, Recorded, Clean, Inv, InvBase, SameQueue, PushReady, Ready, BadGrows, Enqueued,
           EnteredRecovery, ChecksOk;
      ghost var before := St();
      SameQueueLog(o, before);
      r, d := CopyHead(p);
      ghost var entry := Entry(meta, d);
      ghost var s := St();
      SameQueueOn(o, before, s);
      ghost var h := nand.history;
      if r == Ok {
        r, torn := PushMeta(meta, entry.data);
        SafelyOn(old(nand.history), h, old(nand.durable));
        SameQueueThen(g, o, s, St(), entry);
        return r, false, torn, d;
      }
      r := RecoverFrom(r.error);
      SameQueueThen(g, o, s, St(), entry);
      if r == Ok {
        SkippedSame(s, head, nand.bad, s.cell);
        SameQueueOn(o, s, St());
      }
      return r, r == Ok, false, d;
    }

    method CopyHead(p: Page) returns (r: Outcome, data: PageData)
      requires Valid() && g.OnChip(p)
      modifies this`head, this`dirty, this`epoch, this`bbLast, this`bbCurrent, nand`cell, nand`history, nand`erases,
        nand`durable
      ensures g == nand.g && nand.Valid() && SameQueue(old(St()), St())
      ensures r == Ok ==>
        PushReady(g, nand.pageSize, !nand.reliable, St(), data) && dirty && Tracking(7) && Level(true)
      ensures p in log && r == Ok ==> data == log[p].data
      ensures r == Ok && !SameBlock(p, head) ==> Reads(nand.pageSize, old(nand.cell), p, data)
      ensures Safely(old(nand.history), old(nand.durable)) && nand.durable == old(nand.durable)
      ensures Untroubled() ==> head == old(head) && Stats() == old(Stats())
      ensures Untroubled() && p in log && NextClear(g, tailSync, old(head)) ==> r == Ok
      ensures r != Ok ==> Steady()
      ensures r == Err(BadBlock) ==> !nand.reliable && NotBad(nand.bad, head) && Level(true) && Unclosed()
      ensures r == Ok || r == Err(BadBlock) || r == Err(JournalFull) || r == Err(TooBad) || r == Err(Ecc)
    {
      hide Coupled, Even, Recorded, InvBase, SameQueue, PushReady, Ready, Inv;
      ghost var o := St();
      data := [];
      r := TakeHead();
      if r != Ok {
        return;
      }
      if p in log { LogData(g, nand.pageSize, !nand.reliable, St(), p); }
      r, data := nand.ReadData(p);
      if r == Ok {
        ghost var s, h := St(), nand.history;
        r := ProgramHead(Some(data));
        SafelyOn(old(nand.history), h, nand.durable);
        SameQueueOn(o, s, St());
      }
    }

    // -------------------------------------------------------------- reading

    /** Reads the metadata of a page; for a page of the log that is what was enqueued with it. */
    method ReadMeta(p: Page) returns (r: Outcome, meta: Meta)
      requires Valid() && g.UserPage(p)
      ensures r == Ok || r == Err(Ecc)
      ensures p in log && r == Ok ==> meta == log[p].meta
      ensures p in log && nand.reliable ==> r == Ok
    {
      hide Coupled, Even, Recorded, Placed, InWindow, HeadReady, RootLast, Evacuating;
      if SameGroup(p, head) {
        return Ok, buf.metas[p.idx];
      }
      var at := if recoverMeta != Page.None && SameGroup(p, recoverRoot) then recoverMeta else g.CheckPage(p);
      var b;
      r, b := nand.ReadCheck(at);
      meta := b.metas[p.idx];
    }

    /** The same in a recovery without a root, where the page may lie beyond the chip: nothing is known
        of what such a read gives, or whether it succeeds. */
    method ReadAnyMeta(p: Page) returns (r: Outcome, meta: Meta)
      requires Rootless() && (g.UserPage(p) || p == BlockBase(g, Page.None))
      ensures r == Ok || r == Err(Ecc)
    {
      if !g.UserPage(p) {
        var fails;
        fails, meta := *, *;
        return if fails then Err(Ecc) else Ok, meta;
      }
      if SameGroup(p, head) {
        return Ok, buf.metas[p.idx];
      }
      var b;
      r, b := nand.ReadCheck(g.CheckPage(p));
      meta := b.metas[p.idx];
    }
  
    // -------------------------------------------------------------- the tail

    /** The page at the tail, once bad blocks at the tail have been skipped. */
    method Peek() returns (p: Page)
      requires Valid()
      modifies this`tail, this`root
      ensures Valid() && (p == Page.None <==> old(head) == old(tail))
      ensures p != Page.None ==> p == tail
      ensures p == Page.None ==> tail == old(tail)
      ensures NotBad(nand.bad, old(tail)) ==> tail == old(tail) && root == old(root)
      ensures root == old(root) || (root == Page.None && log == map[])
      ensures if tail == old(tail) then true
              else Window(g, nand.cell, tail, head) < Window(g, nand.cell, old(tail), head)
    {
      hide Coupled, Even, Recorded, Inv, InvBase, Window;
      InvToBase(g, nand.pageSize, !nand.reliable, St());
      BasicOf(g, nand.pageSize, !nand.reliable, St());
      if head == tail {
        return Page.None;
      }
      if BlockStart(tail) {
        p := PeekBlocks();
        return;
      }
      return tail;
    }

    lemma RootlessTracked(s: State)
      requires Tracked() && s.log == map[] && log == map[] && s.head == head && s.tail != head
      requires Coupled(g, nand.pageSize, nand.bad, nand.cell, nand.durable, head, tailSync, epoch, 0)
      requires Clean(nand.durable, dirty, s.tail, head, s.root, s.log)
      ensures Clean(nand.durable, dirty, tail, head, Page.None, log)
    {
      hide Clean, Resumable;
      RootlessClean(g, nand.pageSize, nand.bad, nand.cell, nand.durable, dirty, s.tail, head, s.root, tail);
    }

    method PeekBlocks() returns (p: Page)
      requires Valid() && head != tail && BlockStart(tail)
      modifies this`tail, this`root
      ensures Valid() && p == tail && p.Page?
      ensures NotBad(nand.bad, old(tail)) ==> tail == old(tail) && root == old(root)
      ensures root == old(root) || (root == Page.None && log == map[])
      ensures if tail == old(tail) then true
              else Window(g, nand.cell, tail, head) < Window(g, nand.cell, old(tail), head)
    {
      hide Coupled, Even, Recorded, Inv, InvBase, Window, HeadReady, ChecksOk;
      ghost var s := St();
      InvToBase(g, nand.pageSize, !nand.reliable, s);
      BasicOf(g, nand.pageSize, !nand.reliable, s);
      var blk: nat := tail.blk;
      ghost var at := s;
      var i := 0;
      while i < MAX_RETRIES
        invariant i <= MAX_RETRIES && blk < g.blocks && St() == s
        invariant at == s.(tail := FirstPage(blk)) && Inv(g, nand.pageSize, !nand.reliable, at)
        invariant i > 0 ==> s.tail.blk < |s.bad| && s.bad[s.tail.blk]
        invariant if i == 0 then at == s else Window(g, s.cell, at.tail, s.head) < Window(g, s.cell, s.tail, s.head)
      {
        var bad := nand.IsBad(blk);
        if blk == head.blk || !bad {
          StopPeek(blk, at);
          return tail;
        }
        SkipTailKeeps(g, nand.pageSize, !nand.reliable, at);
        RingOf(g, nand.pageSize, !nand.reliable, at);
        SkipTailWindow(g, s.cell, s.tailSync, at.tail, s.head);
        blk := g.NextBlock(blk);
        at := at.(tail := FirstPage(blk));
        i := i + 1;
      }
      return tail;
    }

    /** The tail moves to block `blk`; if it has come up to the head, nothing is left. */
    method StopPeek(blk: nat, ghost at: State)
      requires Valid() && head != tail && blk < g.blocks
      requires at == St().(tail := FirstPage(blk)) && Inv(g, nand.pageSize, !nand.reliable, at)
      modifies this`tail, this`root
      ensures Valid() && tail == FirstPage(blk)
      ensures root == old(root) || (root == Page.None && log == map[] && tail == head)
    {
      hide Coupled, Even, Recorded, Inv, InvBase, HeadReady, ChecksOk;
      ghost var s := St();
      tail := FirstPage(blk);
      if tail == head {
        EmptyLog(g, nand.pageSize, !nand.reliable, at);
        if Tracked() { RootlessTracked(s); }
        RootlessKeeps(g, nand.pageSize, !nand.reliable, at);
        root := Page.None;
      }
    }

    /** Removes the tail page.  During recovery the journal stays sound unless recovery still needs it. */
    method Dequeue()
      requires Valid() && Fits(g)
      modifies this`tail, this`tailSync, this`root, this`log, nand`durable
      ensures !recovery || (old(tail) !in base && old(tail) != old(root)) ==> Valid()
      ensures log == old(log) - {old(tail)}
      ensures old(tail) != head ==> tail == g.NextUpage(old(tail))
      ensures old(tail) == head ==> tail == old(tail) && root == old(root)
      ensures old(tail) != head ==> root == (if old(root) == old(tail) then Page.None else old(root))
      ensures old(tail) != head ==> tailSync == if dirty || recovery then old(tailSync) else tail
      ensures nand.durable ==
        if dirty || recovery || old(tail) == head then old(nand.durable) else Forget(old(nand.durable), old(tail))
    {
      hide Coupled, Even, Recorded, InvBase, Inv, Clean, Forget, ChecksOk;
      ghost var s := St();
      if head == tail {
        EmptyLog(g, nand.pageSize, !nand.reliable, s);
        return;
      }
      if Tracked() && !dirty {
        ForgetCoupled(g, nand.pageSize, s, nand.durable, epoch);
      }
      TakeTail();
      if dirty || recovery {
        DirtyClean(nand.durable, tail, head, root, log);
      } else {
        ForgetPage(s.tail);
      }
    }

    /** The checkpoint on the chip no longer stands for page `p`. */
    ghost method ForgetPage(p: Page)
      requires Sound()
      modifies nand`durable
      ensures Sound() && nand.durable == Forget(old(nand.durable), p)
    {
      hide Inv, Forget, ChecksOk;
      nand.durable := Forget(nand.durable, p);
    }

    /** Removes the tail page from the queue, and forgets the root if that was the root. */
    method TakeTail()
      requires Sound() && Fits(g)
      modifies this`tail, this`tailSync, this`root, this`log
      ensures !recovery || (old(tail) !in base && old(tail) != old(root)) ==> Sound()
      ensures log == old(log) - {old(tail)}
      ensures old(tail) != head ==>
        tail == g.NextUpage(old(tail)) && tailSync == if dirty || recovery then old(tailSync) else tail
      ensures old(tail) == head ==>
        tail == old(tail) && root == old(root) && log == old(log) && tailSync == old(tailSync)
      ensures old(tail) != head ==> root == (if old(root) == old(tail) then Page.None else old(root))
    {
      hide Inv, InvBase, RootGone;
      ghost var s := St();
      DequeueBasics(g, nand.pageSize, !nand.reliable, s);
      if head != tail {
        RemoveTail();
        if !recovery || (s.tail !in base && s.tail != s.root) {
          DequeueKeeps(g, nand.pageSize, !nand.reliable, s, !dirty && !recovery, root);
        }
      }
    }

    lemma DirtyClean(ck: Checkpoint, tail: Page, head: Page, root: Page, log: Log)
      ensures Clean(ck, true, tail, head, root, log)
    {}

    /** Moves the tail. */
    method RemoveTail()
      requires g.Ok() && g.UserPage(tail) && g.UserPage(head) && Fits(g) && (root == Page.None || g.OnChip(root))
      requires root != Page.None ==> (RootGone(g, head, g.NextUpage(tail), root) <==> root == tail)
      modifies this`tail, this`tailSync, this`root, this`log
      ensures tail == g.NextUpage(old(tail)) && tailSync == (if dirty || recovery then old(tailSync) else tail)
      ensures root == (if old(root) == old(tail) then Page.None else old(root)) && log == old(log) - {old(tail)}
      ensures St() == old(St()).(tail := tail, tailSync := tailSync, log := log, root := root)
    {
      hide RootGone;
      ghost var at := tail;
      AdvanceTail();
      if RootGone(g, head, tail, root) {
        root := Page.None;
      }
      log := log - {at};
    }

    /** Data dequeued while the journal is clean was always obsolete: its page can be reused at
        once. */
    method AdvanceTail()
      requires g.Ok() && g.UserPage(tail)
      modifies this`tail, this`tailSync
      ensures tail == g.NextUpage(old(tail))
      ensures tailSync == if dirty || recovery then old(tailSync) else tail
    {
      tail := g.NextUpage(tail);
      if !dirty && !recovery {
        tailSync := tail;
      }
    }

    /** Empties the journal. */
    method Clear()
      requires Valid()
      modifies this`tail, this`root, this`dirty, this`buf, this`log
      ensures !recovery ==> Valid()
      ensures log == map[] && root == Page.None && dirty && tail == head
    {
      hide Coupled, Even, Recorded, Inv, InvBase, Clean;
      ghost var s := St();
      InvToBase(g, nand.pageSize, !nand.reliable, s);
      BasicOf(g, nand.pageSize, !nand.reliable, s);
      DropAll();
      if !recovery { ClearKeeps(g, nand.pageSize, !nand.reliable, s, buf); }
      DirtyClean(nand.durable, tail, head, root, log);
    }

    method DropAll()
      requires g.Ok()
      modifies this`tail, this`root, this`dirty, this`buf, this`log
      ensures St() == old(St()).(tail := head, root := Page.None, log := map[], buf := buf)
      ensures BufferOk(g, buf) && dirty
    {
      buf := buf.(metas := seq(g.ppc - 1, _ => META_NONE));
      tail := head;
      root := Page.None;
      dirty := true;
      log := map[];
    }

    /** Stores the cookie that the next checkpoint will carry. */
    method SetCookie(cookie: nat)
      requires Valid()
      modifies this`buf
      ensures Valid() && buf == old(buf).(cookie := cookie)
    {
      hide Coupled, Even, Recorded, InvBase, HeadReady;
      ghost var s := St();
      BasicOf(g, nand.pageSize, !nand.reliable, s);
      buf := buf.(cookie := cookie);
      BufferKeeps(g, nand.pageSize, !nand.reliable, s, buf);
      assert St() == s.(buf := buf);
    }

    /** The next page of the failed block, or None when all have been enumerated.  Without a root
        there is always a next page. */
    method NextRecoverable() returns (p: Page)
      requires Valid() || Rootless()
      modifies this`recoverNext, this`enumDone
      ensures old(Valid()) ==> Valid()
      ensures old(Valid()) ==> (p == Page.None <==> !recovery || old(enumDone))
      ensures old(Valid()) && p == Page.None ==> St() == old(St())
      ensures old(Valid()) && p != Page.None ==> g.UserPage(p) && p == old(recoverNext) && SameBlock(p, recoverRoot)
      ensures old(Valid()) && p != Page.None ==> g.UserPage(old(recoverNext)) && St() == NextPending(g, old(St()))
      ensures old(Rootless()) ==> Rootless() && p == old(recoverNext) && recoverNext == Onward(g, p)
    {
      hide Coupled, Even, Recorded, Inv, InvBase;
      ghost var s := St();
      if Valid() {
        InvToBase(g, nand.pageSize, !nand.reliable, s);
        BasicOf(g, nand.pageSize, !nand.reliable, s);
      }
      if !recovery || enumDone {
        return Page.None;
      }
      if Valid() { EnumerateKeeps(g, nand.pageSize, !nand.reliable, s); }
      p := recoverNext;
      if recoverNext == recoverRoot {
        enumDone := true;
      } else {
        recoverNext := Onward(g, recoverNext);
      }
      assert old(Valid()) ==> St() == NextPending(g, s);
    }
  }
}
