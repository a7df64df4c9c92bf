/** The map: sectors stored in the journal, found through the radix tree. */
module Map {
  import opened Bits
  import opened Geometry
  import opened PageNumbers
  import opened Tree
  import opened Nand
  import opened JournalState
  import opened MapState
  import opened Resumption
  import opened Journal
  import opened Durability
  import opened Occupancy
  import opened Wear
  import Space

  class Map {
    const journal: Journal
    const gcRatio: nat
    /** The pages of the journal are counted, to show that there is always room. */
    ghost const counted: bool
    var count: nat

    /** The data of every mapped sector. */
    ghost var view: View
    /** The map that the checkpoint on the chip stands for. */
    ghost var saved: View
    /** The queue of pages, while they are counted and nothing goes wrong on the chip. */
    ghost var queue: Space.Queue

    ghost predicate Untroubled()
      reads journal.nand
    {
      counted && journal.Untroubled()
    }

    ghost function Limits(): Space.Limits
      reads journal
    {
      LimitsOf(journal.g, journal.bbLast, gcRatio)
    }

    /** The queue is the abstract one, and within its limits. */
    ghost predicate Counted()
      reads this, journal, journal.nand
    {
      Untroubled() ==>
        Counts(journal.g, gcRatio, journal.bbLast, journal.bbCurrent, journal.tailSync, journal.tail, journal.head,
               journal.root, journal.log, view.Keys, queue)
    }

    /** The journal holds exactly the sector map; during recovery, apart from page `ex`, every
        live page of the failed block is still to be enumerated. */
    ghost predicate Coherent(ex: Page)
      reads this, journal, journal.nand
    {
      journal.Valid() && Fits(journal.g) && (journal.g.ppc > 2 || journal.nand.reliable) &&
      Maps(journal.log, journal.root, view) && Evacuation(journal.St(), ex, view) && Saved()
    }

    ghost predicate Saved()
      reads this, journal, journal.nand
    {
      journal.Tracked() ==> Saves(journal.nand.durable, saved) && (!journal.dirty ==> saved == view)
    }

    /** After a power cut at any moment since history `h`, a resume finds one of `views`. */
    ghost predicate Durably(h: seq<Moment>, views: set<View>)
      reads this, journal, journal.nand
    {
      journal.Tracked() ==>
        Surviving(journal.g, journal.nand.pageSize, h, journal.nand.history, views) && saved in views
    }

    ghost predicate Valid()
      reads this, journal, journal.nand
    {
      Coherent(Page.None) && !journal.recovery && count == |view| && Counted()
    }

    /** An empty map, or one that is still to be resumed. */
    constructor (journal: Journal, gcRatio: nat, ghost counted: bool)
      requires Fits(journal.g) && (journal.g.ppc > 2 || journal.nand.reliable)
      ensures this.journal == journal && this.gcRatio == (if gcRatio == 0 then 1 else gcRatio) &&
        this.counted == counted
      ensures
        journal.Valid() && journal.Empty() && HasRoom() &&
        (journal.Tracked() ==> journal.nand.durable == NoCheckpoint) ==>
        Valid() && view == saved == map[]
    {
      this.journal := journal;
      this.gcRatio := if gcRatio == 0 then 1 else gcRatio;
      this.counted := counted;
      count := 0;
      view := map[];
      saved := map[];
      queue := Space.Start();
      MapsEmpty(map[]);
      new;
      hide Inv, InvBase, Coupled, Even, Clean, Maps, Counts;
      if journal.Empty() && HasRoom() { NothingCounted(); }
    }

    /** The journal has just been initialised, and there is room for at least one sector. */
    ghost predicate HasRoom()
      reads journal
    {
      counted ==>
        journal.g.Ok() && journal.bbCurrent == 0 && journal.bbLast <= journal.g.blocks / 64 && Limits().capacity > 0
    }

    lemma NothingCounted()
      requires Fits(journal.g) && journal.Empty() && HasRoom() && view == map[] && queue == Space.Start()
      ensures Counted()
    {
      hide LimitsOf;
      if counted {
        FirstIsUser(journal.g);
        Starts(journal.g, gcRatio, journal.bbLast, journal.tailSync, journal.head);
      }
    }

    /** Sets the map up from the last checkpoint on the chip, which stands for the sector map `v`. */
    method Resume(ghost v: View) returns (r: Outcome)
      requires journal.g == journal.nand.g && journal.nand.Valid()
      requires Fits(journal.g) && (journal.g.ppc > 2 || journal.nand.reliable)
      requires journal.Tracked() ==> journal.Resumes() && Saves(journal.nand.durable, v)
      requires journal.leveled && journal.nand.reliable ==>
        journal.nand.durable == NoCheckpoint &&
        Even(journal.g, journal.nand.bad, journal.nand.erases, FirstPage(0), false)
      requires counted ==>
        journal.nand.durable == NoCheckpoint && LimitsOf(journal.g, journal.g.blocks / 64, gcRatio).capacity > 0
      modifies this, journal
      ensures journal.Tracked() ==> Valid() && view == saved == v && (r == Ok <==> journal.nand.durable.Checkpoint?)
      ensures r == Ok || r == Err(TooBad)
    {
      hide Inv, InvBase, Maps, Coupled, Even, Resumable, Clean, Live, Counts, LimitsOf;
      r := journal.Resume();
      view := v;
      saved := v;
      queue := Space.Start();
      if r != Ok {
        count := 0;
        MapsEmpty(map[]);
        EvacuationFree(journal.St(), Page.None, view);
        if journal.Tracked() { NothingCounted(); }
        return;
      }
      count := journal.buf.cookie;
      EvacuationFree(journal.St(), Page.None, view);
    }

    // -------------------------------------------------------------- lookups

    /** One level of the walk. */
    method TraceLevel(target: Sector, depth: nat, p: Page, meta: Meta, alts: seq<Page>)
      returns (r: Outcome, loc: Page, meta': Meta, alts': seq<Page>)
      requires journal.Valid() && Good(Metas(journal.log), journal.root) && depth < RADIX_DEPTH
      requires p == Visit(Metas(journal.log), journal.root, target, depth) && p in journal.log && p != Page.None
      requires meta == journal.log[p].meta
      ensures r == Ok ==> loc == Visit(Metas(journal.log), journal.root, target, depth + 1)
      ensures r == Ok ==> alts' == alts + [Sibling(Metas(journal.log), journal.root, target, depth)]
      ensures r == Ok && loc != Page.None ==>
        loc in journal.log && meta' == journal.log[loc].meta && Holds(Metas(journal.log), loc)
      ensures r == Ok || (r == Err(Ecc) && !journal.nand.reliable)
    {
      hide Coupled, Even, Clean, Surviving, Inv, InvBase, Bit, Flip, Differ, Visit, Sibling;
      ghost var m := Metas(journal.log);
      TraceStep(m, journal.root, target, depth);
      if !Differ(target, meta.id, depth) {
        return Ok, p, meta, alts + [meta.alts[depth]];
      }
      alts' := alts + [p];
      loc := meta.alts[depth];
      meta' := meta;
      if loc == Page.None {
        return Ok, loc, meta, alts';
      }
      InvToBase(journal.g, journal.nand.pageSize, !journal.nand.reliable, journal.St());
      assert Holds(m, Visit(m, journal.root, target, depth + 1));
      LogInWindow(journal.g, journal.nand.pageSize, !journal.nand.reliable, journal.St(), loc);
      r, meta' := journal.ReadMeta(loc);
    }

    /** Walks from the root to `target` and collects the alt-pointers that a page written for it
        would get. */
    method TracePath(target: Sector) returns (r: Outcome, loc: Page, alts: seq<Page>)
      requires
        if journal.root == Page.None then Page.None !in journal.log
        else journal.Valid() && Good(Metas(journal.log), journal.root)
      ensures r == Ok || r == Err(NotFound) ==>
        alts == Path(Metas(journal.log), journal.root, target) && loc == Find(Metas(journal.log), journal.root, target)
      ensures r == Ok <==> loc != Page.None
      ensures r == Ok || r == Err(NotFound) || (r == Err(Ecc) && !journal.nand.reliable)
    {
      hide Coupled, Even, Clean, Surviving, Inv, Bit, Flip, Differ, Visit, Sibling, Path;
      ghost var m := Metas(journal.log);
      if journal.root == Page.None {
        EmptyIsGood(m, journal.root);
      } else {
        RootInLog(journal.g, journal.nand.pageSize, !journal.nand.reliable, journal.St());
      }
      alts := [];
      loc := journal.root;
      var meta: Meta := META_NONE;
      if loc != Page.None {
        r, meta := journal.ReadMeta(loc);
        if r != Ok {
          return r, Page.None, EMPTY_ALTS;
        }
      }
      RootVisit(m, journal.root, target);
      var depth := 0;
      while depth < RADIX_DEPTH && loc != Page.None && meta.id != SECTOR_NONE
        invariant depth <= RADIX_DEPTH && |alts| == depth
        invariant loc != Page.None ==> journal.root != Page.None && loc in journal.log && meta == journal.log[loc].meta
        invariant Visit(m, journal.root, target, depth) == if Holds(m, loc) then loc else Page.None
        invariant depth > 0 && loc != Page.None ==> Holds(m, loc)
        invariant forall k :: 0 <= k < depth ==> alts[k] == Sibling(m, journal.root, target, k)
      {
        r, loc, meta, alts := TraceLevel(target, depth, loc, meta, alts);
        if r != Ok {
          return r, Page.None, EMPTY_ALTS;
        }
        depth := depth + 1;
      }
      if depth < RADIX_DEPTH || loc == Page.None {
        TraceEnds(m, journal.root, target, depth);
        alts := alts + seq(RADIX_DEPTH - depth, _ => Page.None);
        PathIs(m, journal.root, target, alts);
        return Err(NotFound), Page.None, alts;
      }
      PathIs(m, journal.root, target, alts);
      return Ok, loc, alts;
    }

    /** The data last written to a sector, or all 0xff if it is unmapped. */
    method Read(s: Sector) returns (r: Outcome, data: PageData)
      requires Valid()
      ensures r == Ok ==> data == if s in view then view[s] else Blank(journal.nand.pageSize)
      ensures r == Ok || (r == Err(Ecc) && !journal.nand.reliable)
    {
      hide Coupled, Even, Clean, Surviving, Inv, InvBase, Evacuation, Path;
      var p, alts;
      r, p, alts := TracePath(s);
      assert Located(journal.log, view, s, Find(Metas(journal.log), journal.root, s));
      if r == Err(NotFound) {
        return Ok, Blank(journal.nand.pageSize);
      }
      if r != Ok {
        return r, [];
      }
      InvToBase(journal.g, journal.nand.pageSize, !journal.nand.reliable, journal.St());
      LogData(journal.g, journal.nand.pageSize, !journal.nand.reliable, journal.St(), p);
      r, data := journal.nand.ReadData(p);
    }

    // -------------------------------------------------------------- collection

    /** Recovery can be run: the map is unchanged, or there is no root. */
    ghost predicate Recoverable()
      reads this, journal, journal.nand
    {
      if journal.recoverRoot == Page.None then journal.Recoverable() else Coherent(Page.None)
    }

    /** A page has failed: recovery has begun, with the map unchanged. */
    ghost predicate RecoveryOpen(o: State)
      reads this, journal, journal.nand
    {
      !journal.nand.reliable && EnteredRecovery(o, journal.St()) &&
      Recoverable()
    }

    /** Nothing was written, or one page was. */
    ghost predicate Advanced(o: State, dirty: bool)
      reads this, journal, journal.nand
    {
      (journal.St() == o && journal.dirty == dirty) ||
      (Moved(o, journal.St()) && (journal.dirty <==> !GroupStart(journal.head)))
    }

    /** A page has been written, and `saved` updated if it brought a checkpoint. */
    lemma SavedNow(h: seq<Moment>, ck: Checkpoint, before: View, cookie: nat)
      requires journal.Safely(h, ck) && journal.Renewed(ck, cookie) && cookie == |view|
      requires journal.Tracked() ==> Saves(ck, before)
      requires saved == if journal.dirty then before else view
      requires Maps(journal.log, journal.root, view)
      ensures Saved() && Durably(h, {before, view})
    {
      hide Maps, Recorded, Surviving;
      if journal.Tracked() {
        RecordedSurvives(journal.g, journal.nand.pageSize, h, journal.nand.history, ck, journal.nand.durable,
                         before, saved, {before, view});
      }
    }

    /** Nothing has been saved. */
    lemma SavedStill(h: seq<Moment>, ck: Checkpoint, views: set<View>)
      requires journal.Safely(h, ck) && saved in views
      requires journal.Tracked() ==> journal.nand.durable == ck && Saves(ck, saved)
      ensures Durably(h, views)
    {
      hide Saves, Recorded, Surviving;
      if journal.Tracked() {
        RecordedSurvives(journal.g, journal.nand.pageSize, h, journal.nand.history, ck, ck, saved, saved, views);
      }
    }

    lemma DurablySelf(views: set<View>)
      requires saved in views
      ensures Durably(journal.nand.history, views)
    {
      hide Surviving;
      SurvivingNothing(journal.g, journal.nand.pageSize, journal.nand.history, views);
    }

    lemma DurablyMore(h: seq<Moment>, a: set<View>, views: set<View>)
      requires Durably(h, a) && a <= views
      ensures Durably(h, views)
    {
      hide Surviving;
      if journal.Tracked() {
        SurvivingMore(journal.g, journal.nand.pageSize, h, journal.nand.history, a, views);
      }
    }

    lemma DurablyOn(h: seq<Moment>, h': seq<Moment>, a: set<View>, b: set<View>, views: set<View>)
      requires journal.Tracked() ==> Surviving(journal.g, journal.nand.pageSize, h, h', a)
      requires Durably(h', b) && (journal.Tracked() ==> a <= views && b <= views)
      ensures Durably(h, views)
    {
      hide Surviving;
      if journal.Tracked() {
        SurvivingOn(journal.g, journal.nand.pageSize, h, h', journal.nand.history, a, b, views);
      }
    }

    /** Since `o` nothing has been written, or page `src`, which was the current page of its sector,
        has been rewritten. */
    ghost predicate Handled(o: State, t: Tally, src: Page)
      reads this`view, journal, journal.nand
    {
      (journal.St() == o && journal.Stats() == t) ||
      (src in o.log && o.log[src].meta.id in view && Find(Metas(o.log), o.root, o.log[src].meta.id) == src &&
       Joined(o, Entry(WriteMeta(Metas(o.log), o.root, o.log[src].meta.id), view[o.log[src].meta.id]), t))
    }

    /** Rewrites the page at the front of the journal if it is the current page of its sector;
        afterwards no lookup passes through it. */
    method RawGc(src: Page) returns (r: Outcome)
      requires Coherent(src) && count == |view| && journal.g.UserPage(src)
      modifies this`saved, journal, journal.nand
      ensures r == Ok ==> Coherent(Page.None) && !Live(Metas(journal.log), journal.root, src)
      ensures r == Ok ==> Advanced(old(journal.St()), old(journal.dirty))
      ensures r == Ok ==> Handled(old(journal.St()), old(journal.Stats()), src)
      ensures
        src in old(journal.log) && old(journal.Untroubled()) &&
        NextClear(journal.g, old(journal.tailSync), old(journal.head)) ==>
        r == Ok
      ensures r == Err(Recover) ==> RecoveryOpen(old(journal.St()))
      ensures r != Err(MapFull) && r != Err(NotFound) && r != Err(Endless)
      ensures Durably(old(journal.nand.history), {old(saved), view})
    {
      hide Coupled, Even, Clean, Surviving, Inv, InvBase, Maps, Evacuation, Live, Good, Path, Smooth, Enqueued,
           NextClear, AllGood;
      DurablySelf({saved, view});
      GoodTree(journal.log, journal.root, view);
      var meta, current, alts;
      r, meta := journal.ReadMeta(src);
      if r != Ok {
        return;
      }
      var target := meta.id;
      if target != SECTOR_NONE {
        r, current, alts := TracePath(target);
        if r == Err(Ecc) {
          return;
        }
        if r == Ok && current == src {
          MapsFind(journal.log, journal.root, view, target);
          r := Rewrite(src, Meta(target, alts), target, src);
          return;
        }
      }
      StaleStep(journal.St(), src, view);
      return Ok;
    }

    /** Since `o` one page has been enqueued, and nothing has gone wrong if nothing had. */
    ghost predicate Joined(o: State, e: Entry, t: Tally)
      reads journal, journal.nand
    {
      Enqueued(o, journal.St(), e) && journal.Smoothly(o, t)
    }

    lemma JoinedBuf(s: State, o: State, e: Entry, t: Tally)
      requires o == s.(buf := o.buf) && Joined(o, e, t)
      ensures Joined(s, e, t)
    {
      hide BadGrows;
    }

    lemma AcceptedJoins(o: State, e: Entry, t: Tally, torn: bool)
      requires journal.Accepted(o, e, torn) && journal.Smoothly(o, t) && (journal.g.ppc > 2 || journal.nand.reliable)
      ensures Joined(o, e, t) && journal.Valid() && (journal.dirty <==> !GroupStart(journal.head))
    {
      hide Coupled, Even, Clean, Inv, InvBase, Enqueued, Smooth;
    }

    lemma RefusedBuf(s: State, o: State)
      requires o == s.(buf := o.buf) && journal.Refused(o)
      ensures journal.Refused(s)
    {
      hide Coupled, Even, Clean, Inv, InvBase, BadGrows;
    }

    /** Stores the count in the cookie and copies a page to the front. */
    method CopyPage(p: Page, meta: Meta, cookie: nat) returns (r: Outcome)
      requires journal.Valid() && p in journal.log && (journal.g.ppc > 2 || journal.nand.reliable)
      modifies journal, journal.nand
      ensures r == Ok ==> journal.Valid() && (journal.dirty <==> !GroupStart(journal.head))
      ensures r == Ok ==> Joined(old(journal.St()), Entry(meta, old(journal.log)[p].data), old(journal.Stats()))
      ensures r == Ok ==> journal.Renewed(old(journal.nand.durable), cookie)
      ensures journal.Safely(old(journal.nand.history), old(journal.nand.durable))
      ensures journal.nand.reliable && r != Ok ==> journal.nand.durable == old(journal.nand.durable)
      ensures r == Err(Recover) ==> journal.Refused(old(journal.St()))
      ensures old(journal.Untroubled()) && NextClear(journal.g, old(journal.tailSync), old(journal.head)) ==> r == Ok
      ensures r == Ok || r == Err(Recover) || r == Err(JournalFull) || r == Err(TooBad) || r == Err(Ecc)
    {
      hide Coupled, Even, Clean, Inv, InvBase, Recorded, Enqueued, EnteredRecovery, Smooth, AllGood, NextClear,
           BadGrows, SameQueue;
      hide Journal.Accepted, Journal.Refused, Joined;
      ghost var s := journal.St();
      journal.SetCookie(cookie);
      ghost var o := journal.St();
      ghost var torn, d;
      InvToBase(journal.g, journal.nand.pageSize, !journal.nand.reliable, o);
      LogInWindow(journal.g, journal.nand.pageSize, !journal.nand.reliable, o, p);
      r, torn, d := journal.Copy(p, meta);
      if r == Ok {
        AcceptedJoins(o, Entry(meta, o.log[p].data), old(journal.Stats()), torn);
        JoinedBuf(s, o, Entry(meta, o.log[p].data), old(journal.Stats()));
      } else if r == Err(Recover) {
        RefusedBuf(s, o);
      }
    }

    /** Copies the current page of sector `t` to the front with metadata traced anew. */
    method Rewrite(p: Page, meta: Meta, ghost t: Sector, ghost ex: Page) returns (r: Outcome)
      requires Coherent(ex) && count == |view| && t in view && (ex == Page.None || ex == p)
      requires p == Find(Metas(journal.log), journal.root, t) && p in journal.log
      requires meta == WriteMeta(Metas(journal.log), journal.root, t) && journal.log[p].data == view[t]
      modifies this`saved, journal, journal.nand
      ensures r == Ok ==> Coherent(Page.None) && !Live(Metas(journal.log), journal.root, p)
      ensures r == Ok ==> Moved(old(journal.St()), journal.St()) && (journal.dirty <==> !GroupStart(journal.head))
      ensures r == Ok ==> Joined(old(journal.St()), Entry(meta, view[t]), old(journal.Stats()))
      ensures old(journal.Untroubled()) && NextClear(journal.g, old(journal.tailSync), old(journal.head)) ==> r == Ok
      ensures r == Err(Recover) ==> RecoveryOpen(old(journal.St()))
      ensures r != Err(MapFull) && r != Err(NotFound) && r != Err(Endless)
      ensures Durably(old(journal.nand.history), {old(saved), view})
    {
      hide Coupled, Even, Clean, Surviving, Inv, InvBase, Maps, Evacuation, Live, Find, WriteMeta, Enqueued, Moved,
           EnteredRecovery, Smooth, AllGood, NextClear, BadGrows;
      ghost var o := journal.St();
      InvToBase(journal.g, journal.nand.pageSize, !journal.nand.reliable, o);
      BasicOf(journal.g, journal.nand.pageSize, !journal.nand.reliable, o);
      r := CopyPage(p, meta, count);
      if r == Ok {
        RewriteStep(o, journal.St(), ex, view, t);
        saved := if journal.dirty then saved else view;
        SavedNow(old(journal.nand.history), old(journal.nand.durable), old(saved), count);
        EnqueuedMoves(o, journal.St(), Entry(meta, view[t]));
      } else {
        SavedStill(old(journal.nand.history), old(journal.nand.durable), {saved, view});
        if r == Err(Recover) && journal.recoverRoot != Page.None {
          RefusedStep(o, journal.St(), ex, view);
        }
      }
    }

    /** Fills a slot of the current group: copies the root page, or enqueues filler if there is
        none. */
    method PadQueue() returns (r: Outcome, ghost e: Entry)
      requires Coherent(Page.None) && count == |view|
      modifies this`saved, journal, journal.nand
      ensures r == Ok ==> Coherent(Page.None)
      ensures r == Ok ==> Moved(old(journal.St()), journal.St()) && (journal.dirty <==> !GroupStart(journal.head))
      ensures PadEntry(old(journal.St()), e)
      ensures r == Ok ==> Joined(old(journal.St()), e, old(journal.Stats()))
      ensures old(journal.Untroubled()) && NextClear(journal.g, old(journal.tailSync), old(journal.head)) ==> r == Ok
      ensures r == Err(Recover) ==> RecoveryOpen(old(journal.St()))
      ensures r != Err(MapFull) && r != Err(NotFound) && r != Err(Endless)
      ensures Durably(old(journal.nand.history), {old(saved), view})
    {
      hide Coupled, Even, Clean, Surviving, Inv, InvBase, Maps, Evacuation, Live, Find, WriteMeta, Enqueued, Moved,
           EnteredRecovery, PadEntry;
      hide Smooth, AllGood, NextClear, BadGrows;
      ghost var o := journal.St();
      InvToBase(journal.g, journal.nand.pageSize, !journal.nand.reliable, o);
      BasicOf(journal.g, journal.nand.pageSize, !journal.nand.reliable, o);
      RootInLog(journal.g, journal.nand.pageSize, !journal.nand.reliable, o);
      r, e := PadPage(count);
      if r == Ok {
        PadStep(o, journal.St(), view, e);
        saved := if journal.dirty then saved else view;
        SavedNow(old(journal.nand.history), old(journal.nand.durable), old(saved), count);
        EnqueuedMoves(o, journal.St(), e);
      } else {
        SavedStill(old(journal.nand.history), old(journal.nand.durable), {saved, view});
        if r == Err(Recover) && journal.recoverRoot != Page.None {
          RefusedStep(o, journal.St(), Page.None, view);
        }
      }
    }

    method PadPage(cookie: nat) returns (r: Outcome, ghost e: Entry)
      requires journal.Valid() && (journal.g.ppc > 2 || journal.nand.reliable)
      modifies journal, journal.nand
      ensures PadEntry(old(journal.St()), e)
      ensures r == Ok ==> journal.Valid() && (journal.dirty <==> !GroupStart(journal.head))
      ensures r == Ok ==> Joined(old(journal.St()), e, old(journal.Stats()))
      ensures r == Ok ==> journal.Renewed(old(journal.nand.durable), cookie)
      ensures journal.Safely(old(journal.nand.history), old(journal.nand.durable))
      ensures journal.nand.reliable && r != Ok ==> journal.nand.durable == old(journal.nand.durable)
      ensures r == Err(Recover) ==> journal.Refused(old(journal.St()))
      ensures old(journal.Untroubled()) && NextClear(journal.g, old(journal.tailSync), old(journal.head)) ==> r == Ok
      ensures r == Ok || r == Err(Recover) || r == Err(JournalFull) || r == Err(TooBad) || r == Err(Ecc)
    {
      hide Coupled, Even, Clean, Inv, InvBase, Enqueued, EnteredRecovery, Recorded, Smooth, AllGood, NextClear,
           BadGrows, SameQueue;
      hide Joined, Journal.Accepted, Journal.Refused;
      ghost var s := journal.St();
      RootInLog(journal.g, journal.nand.pageSize, !journal.nand.reliable, s);
      journal.SetCookie(cookie);
      ghost var o := journal.St();
      if journal.Tracked() {
        RecordedNothing(journal.g, journal.nand.pageSize, journal.nand.history, journal.nand.durable,
          journal.nand.durable);
      }
      var p := journal.root;
      var meta: Meta := META_NONE;
      ghost var torn;
      e := Entry(META_NONE, Blank(journal.nand.pageSize));
      if p == Page.None {
        r, torn := journal.Enqueue(Option.None, meta);
      } else {
        e := journal.log[p];
        r, meta := journal.ReadMeta(p);
        if r != Ok {
          return;
        }
        ghost var d;
        r, torn, d := journal.Copy(p, meta);
      }
      if r == Ok {
        AcceptedJoins(o, e, old(journal.Stats()), torn);
        JoinedBuf(s, o, e, old(journal.Stats()));
      } else if r == Err(Recover) {
        RefusedBuf(s, o);
      }
    }

    // -------------------------------------------------------------- recovery

    /** One step of recovery: handles the next page of the failed block, or pads. */
    method RecoverStep() returns (r: Outcome)
      requires Coherent(Page.None) && count == |view| && journal.recovery
      modifies this`saved, journal, journal.nand
      ensures r == Ok ==> Coherent(Page.None) && StepDone(old(journal.St()))
      ensures r == Err(Recover) ==> RecoveryOpen(old(journal.St()))
      ensures r != Err(MapFull) && r != Err(NotFound) && r != Err(Endless)
    {
      hide Coupled, Even, Clean, Surviving, Inv, InvBase, Maps, Live, Find, Enqueued, EnteredRecovery, Evacuation,
           Moved, Closer, NextPending, Advanced;
      ghost var s := journal.St();
      InvToBase(journal.g, journal.nand.pageSize, !journal.nand.reliable, s);
      BasicOf(journal.g, journal.nand.pageSize, !journal.nand.reliable, s);
      var p := journal.NextRecoverable();
      if p == Page.None {
        ghost var e;
        r, e := PadQueue();
        StepOf(journal.g, s, s, journal.St());
      } else {
        EnumerateStep(journal.g, journal.nand.pageSize, !journal.nand.reliable, s, view);
        ghost var o, dirty := journal.St(), journal.dirty;
        r := RawGc(p);
        StepOf(journal.g, s, o, journal.St());
        if r == Ok {
          AdvancedCases(o, dirty);
        }
      }
    }

    /** One round of recovery without a root: whatever the page enumerated holds, nothing is mapped. */
    method RootlessRound() returns (r: Outcome)
      requires journal.Rootless()
      requires journal.g.UserPage(journal.recoverNext) || journal.recoverNext == BlockBase(journal.g, Page.None)
      modifies journal`recoverNext, journal`enumDone
      ensures journal.Rootless() && journal.recoverNext == Onward(journal.g, old(journal.recoverNext))
      ensures r == Ok || r == Err(Ecc)
    {
      hide Coupled, Even, Clean, Inv, InvBase, Find, Path, Good;
      var p := journal.NextRecoverable();
      var meta;
      r, meta := journal.ReadAnyMeta(p);
      if r != Ok || meta.id == SECTOR_NONE {
        return;
      }
      var loc, alts;
      r, loc, alts := TracePath(meta.id);
      return Ok;
    }

    /** However many rounds are run, recovery is not over, as long as every page can be read. */
    method RootlessRounds(rounds: nat) returns (r: Outcome)
      requires journal.Rootless() && journal.recoverNext == BlockBase(journal.g, Page.None)
      modifies journal`recoverNext, journal`enumDone
      ensures journal.Rootless()
      ensures r == Ok ==> journal.recoverNext == EnumeratedPage(journal.g, rounds)
      ensures r == Ok || r == Err(Ecc)
    {
      var i := 0;
      while i < rounds
        invariant i <= rounds && journal.Rootless() && journal.recoverNext == EnumeratedPage(journal.g, i)
      {
        r := RootlessRound();
        if r != Ok {
          return;
        }
        i := i + 1;
      }
      return Ok;
    }

    /** Evacuates a failed block.  A recovery without a root goes on until a read fails; `Endless`
        stands for a call that is still going on after any number of rounds. */
    method TryRecover(cause: Error) returns (r: Outcome)
      requires cause == Recover ==>
        journal.recovery && !journal.nand.reliable && Recoverable()
      requires cause != MapFull && cause != NotFound && count == |view|
      modifies this`saved, journal, journal.nand
      ensures r == Ok ==> Valid() && BadGrows(old(journal.nand.bad), journal.nand.bad)
      ensures r == Ok ==> cause == Recover && GoodBlocks(journal.nand.bad) < GoodBlocks(old(journal.nand.bad))
      ensures r == Ok ==> MarkedBad(journal.nand.bad, old(journal.recoverRoot))
      ensures r != Err(MapFull) && r != Err(NotFound) && r != Err(Recover)
      ensures r == Err(Endless) ==> cause == Endless || (cause == Recover && old(journal.recoverRoot) == Page.None)
      ensures cause == Recover && old(journal.recoverRoot) == Page.None ==>
        journal.Rootless() && (r == Err(Endless) || r == Err(Ecc))
      ensures journal.nand.reliable ==>
        r == Err(cause) && journal.nand.history == old(journal.nand.history) && saved == old(saved)
    {
      hide Coupled, Even, Clean, Surviving, Inv, InvBase, Maps, Evacuation, BadGrows, MarkedBad;
      if cause != Recover {
        return Err(cause);
      }
      if journal.recoverRoot == Page.None {
        var rounds: nat := *;
        r := RootlessRounds(rounds);
        return if r == Ok then Err(Endless) else r;
      }
      BadGrowsSelf(journal.nand.bad);
      FailedBlockUnmarked(journal.g, journal.nand.pageSize, !journal.nand.reliable, journal.St());
      var restarts := 0;
      while journal.recovery
        invariant restarts <= MAX_RETRIES && Coherent(Page.None)
        invariant Evacuated(old(journal.nand.bad), old(journal.recoverRoot))
        decreases MAX_RETRIES - restarts, Phase(journal.St()), GroupsLeft(journal.St()),
          PagesLeft(journal.g, journal.St())
      {
        r := RecoverOnce(old(journal.nand.bad), old(journal.recoverRoot));
        if r != Ok {
          if r != Err(Recover) {
            return;
          }
          if restarts >= MAX_RETRIES {
            return Err(TooBad);
          }
          restarts := restarts + 1;
        }
      }
      GoodShrinks(old(journal.nand.bad), journal.nand.bad, old(journal.recoverRoot));
      return Ok;
    }

    /** Either the evacuation of the block of `root` is going on, or it is done and the block is
        marked bad. */
    ghost predicate Evacuated(bad: seq<bool>, root: Page)
      reads this, journal, journal.nand
    {
      BadGrows(bad, journal.nand.bad) && root.Page? &&
      if journal.recovery then journal.recoverRoot == root else MarkedBad(journal.nand.bad, root)
    }

    method RecoverOnce(ghost bad: seq<bool>, ghost root: Page) returns (r: Outcome)
      requires Coherent(Page.None) && count == |view| && journal.recovery && Evacuated(bad, root)
      modifies this`saved, journal, journal.nand
      ensures r == Ok || r == Err(Recover) ==> Coherent(Page.None) && Evacuated(bad, root)
      ensures r == Ok ==> Phase(journal.St()) <= Phase(old(journal.St()))
      ensures r == Ok && Phase(journal.St()) == Phase(old(journal.St())) ==>
        GroupsLeft(journal.St()) <= GroupsLeft(old(journal.St())) && GroupsLeft(old(journal.St())) >= 0 &&
        (GroupsLeft(journal.St()) == GroupsLeft(old(journal.St())) ==>
         0 <= PagesLeft(journal.g, old(journal.St())) &&
           PagesLeft(journal.g, journal.St()) < PagesLeft(journal.g, old(journal.St())))
      ensures r != Err(MapFull) && r != Err(NotFound) && r != Err(Endless)
    {
      hide Coupled, Even, Clean, Surviving, Inv, InvBase, Maps, Evacuation, BadGrows, MarkedBad, Closer, GroupsLeft,
           PagesLeft;
      ghost var o := journal.St();
      r := RecoverStep();
      ghost var n := journal.St();
      InvToBase(journal.g, journal.nand.pageSize, !journal.nand.reliable, o);
      if r == Ok || r == Err(Recover) {
        StepGrows(journal.g, o, n);
        BadGrowsOn(bad, o.bad, n.bad);
      }
      if r == Ok && journal.recovery {
        CloserDecreases(journal.g, journal.nand.pageSize, !journal.nand.reliable, o, n);
      }
    }

    lemma AdvancedCases(o: State, dirty: bool)
      requires Advanced(o, dirty)
      ensures journal.St() == o || Moved(o, journal.St())
    {}

    ghost predicate StepDone(o: State)
      reads this, journal, journal.nand
    {
      var n := journal.St();
      if n.recovery then Closer(journal.g, o, n)
      else BadGrows(o.bad, n.bad) && MarkedBad(n.bad, o.recoverRoot)
    }

    // -------------------------------------------------------------- sizes

    function Capacity(): nat
      reads this, journal
      requires journal.g.Ok()
    {
      MapCapacity(journal.g, JournalCapacity(journal.g, journal.bbLast, journal.bbCurrent), gcRatio)
    }

    // -------------------------------------------------------------- operations

    /** While nothing goes wrong, there is room at the head, and the queue has a page at the tail. */
    lemma RoomNow()
      requires Coherent(Page.None) && !journal.recovery && Counted() && Untroubled()
      ensures NextClear(journal.g, journal.tailSync, journal.head)
      ensures queue.pages == [] <==> journal.tail == journal.head
      ensures journal.tail != journal.head ==> journal.tail in journal.log
      ensures |queue.pages| <= JournalSize(journal.g, journal.tailSync, journal.head) && journal.bbCurrent == 0
    {
      hide Coupled, Even, Clean, Inv, InvBase, Maps, Evacuation, Occupied, LimitsOf, Space.Inv, JournalSize, NextClear;
      var s := journal.St();
      InvToBase(journal.g, journal.nand.pageSize, !journal.nand.reliable, s);
      CountsTail(journal.g, journal.nand.pageSize, !journal.nand.reliable, gcRatio, journal.bbLast, s, view, queue);
    }

    /** Handles the page at the tail and removes it. */
    method CollectTail(p: Page) returns (r: Outcome)
      requires Valid() && p == journal.tail && journal.g.UserPage(p)
      requires Untroubled() ==> journal.tail != journal.head
      modifies this`saved, this`queue, journal, journal.nand
      ensures r == Ok ==> Valid() && TailProgress(old(journal.St()), old(journal.dirty))
      ensures r == Err(Recover) ==> RecoveryOpen(old(journal.St()))
      ensures r != Err(MapFull) && r != Err(NotFound) && r != Err(Endless)
      ensures old(Untroubled()) ==> r == Ok && Collected(old(queue), old(journal.bbLast))
      ensures Durably(old(journal.nand.history), {old(saved), view})
    {
      hide Coupled, Even, Clean, Surviving, Inv, InvBase, Maps, Evacuation, Live, Good, Moved, EnteredRecovery,
           Advanced, TailMoved;
      hide Counts, Handled, AllGood, NextClear, Space.Collect, TailProgress, RecoveryOpen;
      ghost var s, dirty, k, smooth := journal.St(), journal.dirty, journal.Stats(), Untroubled();
      assert !s.recovery && s.tail == p;
      EvacuationFree(s, p, view);
      if smooth { RoomNow(); }
      InvToBase(journal.g, journal.nand.pageSize, !journal.nand.reliable, s);
      r := RawGc(p);
      if r == Ok {
        AdvancedTail(s, dirty);
        RemoveTail(p, s, dirty, k, smooth);
      }
    }

    /** Removes the tail page, which no lookup visits any more. */
    method RemoveTail(p: Page, ghost s: State, ghost dirty: bool, ghost k: Tally, ghost smooth: bool)
      requires Coherent(Page.None) && !Live(Metas(journal.log), journal.root, p) && count == |view|
      requires !s.recovery && s.tail == p && Advanced(s, dirty)
      requires smooth ==> Collecting(p, s, k, queue)
      requires Untroubled() ==> smooth
      modifies this`queue, journal`tail, journal`tailSync, journal`root, journal`log, journal.nand`durable
      ensures Valid() && TailProgress(s, dirty)
      ensures smooth ==> Collected(old(queue), k.last)
    {
      hide Coupled, Even, Clean, Surviving, Inv, InvBase, Maps, Evacuation, Live, Good, Moved, EnteredRecovery,
           Advanced, TailMoved;
      hide Counts, Collecting, AllGood, Space.Collect, BadGrows;
      ghost var o, q := journal.St(), queue;
      AdvancedTail(s, dirty);
      DequeueStep(journal.log, journal.root, view, p);
      if smooth { CollectCounted(p, s, k, q); }
      queue := Space.Collect(q);
      DequeueTail(p);
      ProgressOn(journal.g, s, o, journal.St(), dirty, journal.dirty);
    }

    /** One collection step has been taken on the queue. */
    ghost predicate Collected(q: Space.Queue, last: nat)
      reads this, journal, journal.nand
    {
      Untroubled() && queue == Space.Collect(q) && Later(last, journal.bbLast)
    }

    /** From `s`, when the queue was `q`, the tail page `p` has been dealt with and not yet removed. */
    ghost predicate Collecting(p: Page, s: State, k: Tally, q: Space.Queue)
      reads this`view, journal, journal.nand
    {
      counted && journal.nand.reliable && AllGood(s.bad) && !s.recovery && s.tail == p && s.tail != s.head &&
      InvBase(journal.g, journal.nand.pageSize, !journal.nand.reliable, s) && Maps(s.log, s.root, view) &&
      Handled(s, k, p) && k.current == 0 &&
      Counts(journal.g, gcRatio, k.last, 0, s.tailSync, s.tail, s.head, s.root, s.log, view.Keys, q)
    }

    /** The queue as it will be when the tail page has left. */
    lemma CollectCounted(p: Page, s: State, k: Tally, q: Space.Queue)
      requires Coherent(Page.None) && Collecting(p, s, k, q) && !Live(Metas(journal.log), journal.root, p)
      ensures Untroubled() && Later(k.last, journal.bbLast) && journal.bbCurrent == 0
      ensures journal.g.UserPage(p) && journal.tail == p && journal.tail != journal.head
      ensures Counts(journal.g, gcRatio, journal.bbLast, 0,
        if journal.dirty then journal.tailSync else journal.g.NextUpage(p), journal.g.NextUpage(p), journal.head,
        if journal.root == p then Page.None else journal.root, journal.log - {p}, view.Keys, Space.Collect(q))
    {
      hide Coupled, Even, Clean, Surviving, Inv, InvBase, Maps, Live, Counts, Find, WriteMeta, Space.Collect, BadGrows;
      BasicOf(journal.g, journal.nand.pageSize, !journal.nand.reliable, s);
      RootInLog(journal.g, journal.nand.pageSize, !journal.nand.reliable, journal.St());
      if journal.tail == journal.head {
        EmptyLog(journal.g, journal.nand.pageSize, !journal.nand.reliable, journal.St());
      }
      CountsCollect(journal.g, journal.nand.pageSize, !journal.nand.reliable, gcRatio, k.last, journal.bbLast, s,
        journal.St(), journal.dirty, view, q);
    }

    method DequeueTail(ghost p: Page)
      requires Coherent(Page.None) && !journal.recovery && p == journal.tail
      requires Maps(journal.log - {p}, if journal.root == p then Page.None else journal.root, view)
      requires Maps(journal.log - {p}, journal.root, view) && !Live(Metas(journal.log), journal.root, p)
      modifies journal`tail, journal`tailSync, journal`root, journal`log, journal.nand`durable
      ensures Coherent(Page.None) && !journal.recovery && journal.dirty == old(journal.dirty)
      ensures TailMoved(journal.g, old(journal.St()), journal.St())
      ensures p != journal.head ==> journal.g.UserPage(p) && journal.tail == journal.g.NextUpage(p)
      ensures p != journal.head ==> journal.root == (if old(journal.root) == p then Page.None else old(journal.root))
      ensures p != journal.head ==> journal.tailSync == if journal.dirty then old(journal.tailSync) else journal.tail
      ensures journal.log == old(journal.log) - {p}
    {
      hide Coupled, Even, Clean, Surviving, Inv, InvBase, Maps, Live, Window, ChecksOk, Forget, Saves;
      ghost var o := journal.St();
      InvToBase(journal.g, journal.nand.pageSize, !journal.nand.reliable, o);
      BasicOf(journal.g, journal.nand.pageSize, !journal.nand.reliable, o);
      RingOf(journal.g, journal.nand.pageSize, !journal.nand.reliable, o);
      SavedTail(p);
      journal.Dequeue();
      if o.tail != o.head {
        DequeueWindow(journal.g, o.cell, o.tailSync, o.tail, o.head);
      }
    }

    /** The checkpoint stands for the same map without a dead tail page. */
    lemma SavedTail(p: Page)
      requires Coherent(Page.None) && !journal.recovery && p == journal.tail &&
        !Live(Metas(journal.log), journal.root, p)
      ensures journal.Tracked() && !journal.dirty && journal.tail != journal.head ==>
        Saves(Forget(journal.nand.durable, p), saved)
    {
      hide Inv, InvBase, Maps, Evacuation, Live, Resumable, Saves, Clean, Forget;
      if journal.Tracked() && !journal.dirty && journal.tail != journal.head {
        if journal.nand.durable.Checkpoint? {
          RootOfLog(journal.g, journal.nand.pageSize, journal.nand.bad, journal.nand.cell, journal.nand.durable);
        }
        ForgetSaves(journal.nand.durable, p, journal.head, journal.root, journal.log, view);
      }
    }

    lemma AdvancedTail(o: State, dirty: bool)
      requires Advanced(o, dirty) && !o.recovery
      ensures journal.tail == o.tail && !journal.recovery && (AllGood(journal.nand.bad) ==> AllGood(o.bad))
      ensures Progress(o, journal.St(), dirty, journal.dirty)
    {
      hide Coupled, Even, Clean, Surviving, Maps;
      BadGrowsSelf(o.bad);
    }

    /** One page of the tail has been dealt with. */
    ghost predicate TailProgress(o: State, dirty: bool)
      reads this, journal, journal.nand
    {
      Written(o, journal.St(), journal.dirty) ||
      (TailMoved(journal.g, o, journal.St()) && journal.dirty == dirty)
    }

    /** The page at the tail, after bad blocks there have been skipped. */
    method PeekTail() returns (p: Page)
      requires Valid()
      modifies journal`tail, journal`root
      ensures Valid() && journal.dirty == old(journal.dirty)
      ensures p != Page.None ==> p == journal.tail && journal.g.UserPage(p)
      ensures p == Page.None <==> old(journal.tail) == old(journal.head)
      ensures journal.tail == old(journal.tail) || TailMoved(journal.g, old(journal.St()), journal.St())
      ensures journal.head == old(journal.head)
      ensures Untroubled() ==> journal.St() == old(journal.St())
    {
      hide Coupled, Even, Clean, Surviving, Inv, InvBase, Maps, Live, Window, Counts;
      ghost var o := journal.St();
      InvToBase(journal.g, journal.nand.pageSize, !journal.nand.reliable, o);
      BasicOf(journal.g, journal.nand.pageSize, !journal.nand.reliable, o);
      p := journal.Peek();
      if journal.root != o.root {
        PeekStep(o.root, journal.root, view);
      }
      EvacuationFree(journal.St(), Page.None, view);
      InvToBase(journal.g, journal.nand.pageSize, !journal.nand.reliable, journal.St());
      BasicOf(journal.g, journal.nand.pageSize, !journal.nand.reliable, journal.St());
    }

    /** One collection step. */
    method Gc() returns (r: Outcome)
      requires Valid()
      modifies this`saved, this`queue, journal, journal.nand
      ensures r == Ok ==> Valid() && BadGrows(old(journal.nand.bad), journal.nand.bad)
      ensures r != Err(MapFull) && r != Err(NotFound) && r != Err(Recover)
      ensures old(Untroubled()) ==> r == Ok && Stepped(old(queue), old(journal.bbLast))
      ensures Durably(old(journal.nand.history), {old(saved), view})
    {
      hide Coupled, Even, Clean, Surviving, Valid, BadGrows, AllGood, Space.Collect;
      BadGrowsSelf(journal.nand.bad);
      DurablySelf({saved, view});
      if count == 0 {
        return Ok;
      }
      var done := false;
      while !done
        invariant Valid() && BadGrows(old(journal.nand.bad), journal.nand.bad)
        invariant Durably(old(journal.nand.history), {old(saved), view})
        invariant old(Untroubled()) ==>
          if done then Stepped(old(queue), old(journal.bbLast))
          else Untroubled() && queue == old(queue) && journal.bbLast == old(journal.bbLast)
        decreases !done, GoodBlocks(journal.nand.bad)
      {
        ghost var bad, h, s := journal.nand.bad, journal.nand.history, saved;
        r, done := GcRound();
        DurablyOn(old(journal.nand.history), h, {old(saved), view}, {s, view}, {old(saved), view});
        if r != Ok {
          return;
        }
        BadGrowsOn(old(journal.nand.bad), bad, journal.nand.bad);
      }
      return Ok;
    }

    /** What a collection step does to the queue. */
    ghost predicate Stepped(q: Space.Queue, last: nat)
      reads this, journal, journal.nand
    {
      Untroubled() && Later(last, journal.bbLast) && queue == if count == 0 then q else Space.Collect(q)
    }

    /** One attempt at a collection step; if a block fails, it is evacuated and the step is to be
        tried again. */
    method GcRound() returns (r: Outcome, done: bool)
      requires Valid()
      modifies this`saved, this`queue, journal, journal.nand
      ensures r == Ok ==> Valid() && BadGrows(old(journal.nand.bad), journal.nand.bad)
      ensures r == Ok && !done ==> GoodBlocks(journal.nand.bad) < GoodBlocks(old(journal.nand.bad))
      ensures r != Err(MapFull) && r != Err(NotFound) && r != Err(Recover)
      ensures old(Untroubled()) ==> r == Ok && done && Collected(old(queue), old(journal.bbLast))
      ensures Durably(old(journal.nand.history), {old(saved), view})
    {
      hide Coupled, Even, Clean, Surviving, Inv, Maps, Evacuation, GoodBlocks, Window, BadGrows, Counts, NextClear,
           AllGood;
      BadGrowsSelf(journal.nand.bad);
      ghost var o := journal.St();
      if Untroubled() { RoomNow(); }
      DurablySelf({saved, view});
      var tail := PeekTail();
      if tail == Page.None {
        return Ok, true;
      }
      r := CollectTail(tail);
      if r == Ok {
        return Ok, true;
      }
      r := RetryAfter(r.error, o);
      return r, false;
    }

    /** Evacuates a block that failed since state `o`; a block fewer is left for the next try. */
    method RetryAfter(cause: Error, ghost o: State) returns (r: Outcome)
      requires cause == Recover ==> !journal.nand.reliable && journal.recovery && BadGrows(o.bad, journal.nand.bad)
      requires cause == Recover ==> Recoverable()
      requires cause != MapFull && cause != NotFound && count == |view|
      modifies this`saved, journal, journal.nand
      ensures r == Ok ==>
        Valid() && BadGrows(o.bad, journal.nand.bad) && GoodBlocks(journal.nand.bad) < GoodBlocks(o.bad)
      ensures r != Err(MapFull) && r != Err(NotFound) && r != Err(Recover)
      ensures journal.nand.reliable ==>
        r == Err(cause) && journal.nand.history == old(journal.nand.history) && saved == old(saved)
    {
      hide Coupled, Even, Clean, Surviving, Valid, Coherent, GoodBlocks, BadGrows;
      ghost var bad := journal.nand.bad;
      r := TryRecover(cause);
      if r == Ok {
        GoodShrinks(o.bad, bad, Page.None);
        BadGrowsOn(o.bad, bad, journal.nand.bad);
      }
    }

    /** Collects ahead of a write when the journal has grown past the map's capacity. */
    method AutoGc() returns (r: Outcome)
      requires Valid()
      modifies this`saved, this`queue, journal, journal.nand
      ensures r == Ok ==> Valid() && BadGrows(old(journal.nand.bad), journal.nand.bad)
      ensures r != Err(MapFull) && r != Err(NotFound) && r != Err(Recover)
      ensures old(Untroubled()) ==> r == Ok && CaughtUp(old(queue))
      ensures Durably(old(journal.nand.history), {old(saved), view})
    {
      hide Coupled, Even, Clean, Surviving, BadGrows, Maps, Evacuation, InvBase, HeadReady;
      hide AllGood, NextClear, Occupied, JournalSize, LimitsOf, Space.Inv, Space.CaughtUp;
      BadGrowsSelf(journal.nand.bad);
      DurablySelf({saved, view});
      if Untroubled() {
        RoomNow();
        CatchUpStart(Limits(), queue);
        SameCapacity();
      }
      BasicOf(journal.g, journal.nand.pageSize, !journal.nand.reliable, journal.St());
      if JournalSize(journal.g, journal.tailSync, journal.head) < Capacity() {
        return Ok;
      }
      r := CollectMany();
    }

    /** Since the queue was `q0` collection has caught up. */
    ghost predicate CaughtUp(q0: Space.Queue)
      reads this, journal, journal.nand
    {
      Untroubled() && Space.CaughtUp(Limits(), q0, queue)
    }

    lemma SameCapacity()
      requires journal.g.Ok() && journal.bbCurrent == 0
      ensures Limits().capacity == Capacity() && Limits().steps == gcRatio + 1
    {
      hide JournalCapacity;
    }

    method CollectMany() returns (r: Outcome)
      requires Valid()
      modifies this`saved, this`queue, journal, journal.nand
      ensures r == Ok ==> Valid() && BadGrows(old(journal.nand.bad), journal.nand.bad)
      ensures r != Err(MapFull) && r != Err(NotFound) && r != Err(Recover)
      ensures old(Untroubled()) ==> r == Ok && CaughtUp(old(queue))
      ensures Durably(old(journal.nand.history), {old(saved), view})
    {
      hide Coupled, Even, Clean, Surviving, Valid, BadGrows, AllGood, CatchingUp, Stepped;
      BadGrowsSelf(journal.nand.bad);
      DurablySelf({saved, view});
      if Untroubled() { StartsCatchingUp(); }
      var i := 0;
      while i <= gcRatio
        invariant i <= gcRatio + 1 && Durably(old(journal.nand.history), {old(saved), view})
        invariant Valid() && BadGrows(old(journal.nand.bad), journal.nand.bad)
        invariant old(Untroubled()) ==> Untroubled() && CatchingUp(Limits(), old(queue), queue, i)
      {
        ghost var bad, h, s := journal.nand.bad, journal.nand.history, saved;
        ghost var q, last := queue, journal.bbLast;
        if old(Untroubled()) { MayCollect(); }
        r := Gc();
        DurablyOn(old(journal.nand.history), h, {old(saved), view}, {s, view}, {old(saved), view});
        if r != Ok {
          return;
        }
        BadGrowsOn(old(journal.nand.bad), bad, journal.nand.bad);
        if old(Untroubled()) { CatchesUp(old(queue), q, last, i); }
        i := i + 1;
      }
      if old(Untroubled()) { HasCaughtUp(old(queue)); }
      return Ok;
    }

    lemma StartsCatchingUp()
      requires Valid() && Untroubled()
      ensures CatchingUp(Limits(), queue, queue, 0)
    {
      hide Coupled, Even, Clean, Maps, Evacuation, Inv, CatchingUp, Space.Inv;
      CatchUpStart(Limits(), queue);
    }

    /** What a collection step builds on. */
    lemma MayCollect()
      requires Valid() && Untroubled()
      ensures Fits(journal.g) && journal.bbLast < journal.g.blocks && Limits().capacity > 0 &&
        Space.Inv(Limits(), queue)
      ensures queue.mapped == {} <==> count == 0
    {
      hide Coupled, Even, Clean, Maps, Evacuation, Inv, Space.Inv, Lined, Newest;
      assert count == 0 ==> view == map[];
    }

    lemma CatchesUp(q0: Space.Queue, q: Space.Queue, last: nat, i: nat)
      requires Fits(journal.g) && last < journal.g.blocks && LimitsOf(journal.g, last, gcRatio).capacity > 0
      requires Space.Inv(LimitsOf(journal.g, last, gcRatio), q) &&
        CatchingUp(LimitsOf(journal.g, last, gcRatio), q0, q, i)
      requires Stepped(q, last) && (q.mapped == {} <==> count == 0)
      ensures Untroubled() && CatchingUp(Limits(), q0, queue, i + 1)
    {
      hide CatchingUp, Space.Inv, LimitsOf, Space.Collect;
      CatchUpStep(journal.g, gcRatio, last, journal.bbLast, q0, q, queue, i);
    }

    lemma HasCaughtUp(q0: Space.Queue)
      requires Valid() && Untroubled() && CatchingUp(Limits(), q0, queue, gcRatio + 1)
      ensures CaughtUp(q0)
    {
      hide Coupled, Even, Clean, Maps, Evacuation, Inv, CatchingUp, Space.CaughtUp, LimitsOf;
      SameSteps();
      CaughtUpNow(Limits(), q0, queue);
    }

    lemma SameSteps()
      ensures Limits().steps == gcRatio + 1
    {
      hide JournalCapacity;
    }

    /** Collects, traces the path of `dst` and counts it if it is new. */
    method PrepareWrite(dst: Sector) returns (r: Outcome, meta: Meta)
      requires Valid()
      modifies this`count, this`saved, this`queue, journal, journal.nand
      ensures r == Ok ==> Coherent(Page.None) && !journal.recovery && BadGrows(old(journal.nand.bad), journal.nand.bad)
      ensures r == Ok ==> Counted() && (dst in view || |view| < Capacity())
      ensures old(Untroubled()) ==> (r == Ok || r == Err(MapFull)) && CaughtUp(old(queue))
      ensures r == Ok ==> meta == WriteMeta(Metas(journal.log), journal.root, dst)
      ensures r == Ok ==> count == (if dst in view then |view| else |view| + 1) && journal.buf.cookie == count
      ensures r == Err(MapFull) ==> Valid() && dst !in view && |view| >= Capacity()
      ensures r != Err(NotFound) && r != Err(Recover)
      ensures Durably(old(journal.nand.history), {old(saved), view})
    {
      hide Coupled, Even, Clean, Surviving, Inv, InvBase, Maps, Evacuation, BadGrows, Path, Good, Find;
      hide Counts, AllGood, JournalCapacity, MapCapacity, LimitsOf, Space.CaughtUp;
      r := AutoGc();
      if r != Ok {
        return r, META_NONE;
      }
      var alts;
      r, alts := CountSector(dst);
      if r != Ok {
        return r, META_NONE;
      }
      StoreCount();
      return Ok, Meta(dst, alts);
    }

    /** Traces the path of `dst`, and counts it if it is new. */
    method CountSector(dst: Sector) returns (r: Outcome, alts: seq<Page>)
      requires Valid()
      modifies this`count
      ensures r == Ok || r == Err(MapFull) || (r == Err(Ecc) && !journal.nand.reliable)
      ensures r == Ok ==> alts == Path(Metas(journal.log), journal.root, dst)
      ensures r == Ok ==> count == (if dst in view then |view| else |view| + 1) && (dst in view || |view| < Capacity())
      ensures r == Err(MapFull) ==> dst !in view && |view| >= Capacity()
      ensures r != Ok ==> count == old(count)
    {
      hide Coupled, Even, Clean, Surviving, Inv, InvBase, Maps, Evacuation, BadGrows, Path, Good, Find;
      hide Counts, AllGood, JournalCapacity, MapCapacity, ChecksOk;
      InvToBase(journal.g, journal.nand.pageSize, !journal.nand.reliable, journal.St());
      BasicOf(journal.g, journal.nand.pageSize, !journal.nand.reliable, journal.St());
      GoodTree(journal.log, journal.root, view);
      var loc;
      r, loc, alts := TracePath(dst);
      MapsLocated(journal.log, journal.root, view, dst);
      if r == Err(Ecc) {
        return;
      }
      if r != Ok {
        if count >= Capacity() {
          return Err(MapFull), alts;
        }
        count := count + 1;
      }
      r := Ok;
    }

    /** Stores the count in the cookie. */
    method StoreCount()
      requires Coherent(Page.None) && !journal.recovery && Counted()
      modifies journal`buf
      ensures Coherent(Page.None) && Counted() && journal.buf == old(journal.buf).(cookie := count)
    {
      hide Coupled, Even, Clean, Surviving, Inv, InvBase, Maps, Evacuation, Counts, AllGood, ChecksOk;
      ghost var s := journal.St();
      journal.SetCookie(count);
      EvacuationBuf(s, Page.None, view, journal.buf);
    }

    /** Writes a sector. */
    method Write(dst: Sector, data: PageData) returns (r: Outcome)
      requires Valid() && dst != SECTOR_NONE
      modifies this, journal, journal.nand
      ensures r == Ok ==> Valid() && view == old(view)[dst := data]
      ensures r == Err(MapFull) ==> Valid() && view == old(view) && dst !in view && |view| >= Capacity()
      ensures r != Err(NotFound) && r != Err(Recover)
      ensures r != Ok ==> view == old(view)
      ensures old(Untroubled()) ==> (r == Ok || r == Err(MapFull)) && Untroubled()
      ensures Durably(old(journal.nand.history), {old(saved), old(view), view})
    {
      hide Coupled, Even, Clean, Surviving, Valid;
      var done := false;
      DurablySelf({old(saved), old(view), view});
      while !done
        invariant Valid() && view == if done then old(view)[dst := data] else old(view)
        invariant old(Untroubled()) ==> Untroubled()
        invariant Durably(old(journal.nand.history), {old(saved), old(view), view})
        decreases !done, GoodBlocks(journal.nand.bad)
      {
        ghost var h, s, v := journal.nand.history, saved, view;
        r, done := WriteRound(dst, data);
        DurablyOn(old(journal.nand.history), h, {old(saved), old(view), v}, {s, v, view},
          {old(saved), old(view), view});
        if r != Ok {
          return;
        }
      }
      return Ok;
    }

    method WriteRound(dst: Sector, data: PageData) returns (r: Outcome, done: bool)
      requires Valid() && dst != SECTOR_NONE
      modifies this, journal, journal.nand
      ensures r == Ok ==> Valid() && view == if done then old(view)[dst := data] else old(view)
      ensures r == Ok && !done ==>
        GoodBlocks(journal.nand.bad) < GoodBlocks(old(journal.nand.bad)) && !journal.nand.reliable
      ensures r == Err(MapFull) ==> Valid() && view == old(view) && dst !in view && |view| >= Capacity()
      ensures r != Err(NotFound) && r != Err(Recover)
      ensures r != Ok ==> view == old(view)
      ensures old(Untroubled()) ==> (r == Ok || r == Err(MapFull)) && Untroubled()
      ensures Durably(old(journal.nand.history), {old(saved), old(view), view})
    {
      hide Coupled, Even, Clean, Surviving, Inv, Maps, Evacuation, GoodBlocks, BadGrows, WriteMeta, AllGood, Counts,
           Space.CaughtUp, Capacity;
      ghost var before := journal.St();
      var oldCount := count;
      var meta;
      ghost var h, s;
      r, meta := PrepareWrite(dst);
      h, s := journal.nand.history, saved;
      if r != Ok {
        DurablyMore(old(journal.nand.history), {old(saved), view}, {old(saved), old(view), view});
        return r, false;
      }
      GoodBefore(before.bad, journal.nand.bad);
      r := EnqueueSector(dst, data, meta, before, old(queue));
      DurablyOn(old(journal.nand.history), h, {old(saved), old(view)}, {s, view}, {old(saved), old(view), view});
      if r == Ok {
        return Ok, true;
      }
      count := oldCount;
      r := RetryAfter(r.error, before);
      return r, false;
    }

    method EnqueueSector(dst: Sector, data: PageData, meta: Meta, ghost before: State,
                         ghost q0: Space.Queue) returns (r: Outcome)
      requires Coherent(Page.None) && !journal.recovery && dst != SECTOR_NONE
      requires BadGrows(before.bad, journal.nand.bad)
      requires meta == WriteMeta(Metas(journal.log), journal.root, dst) && journal.buf.cookie == count
      requires count == if dst in view then |view| else |view| + 1
      requires Counted() && (Untroubled() ==> CaughtUp(q0)) && (dst in view || |view| < Capacity())
      modifies this`view, this`saved, this`queue, journal, journal.nand
      ensures r == Ok ==> Valid() && view == old(view)[dst := data]
      ensures r != Ok ==> view == old(view)
      ensures r == Err(Recover) ==> !journal.nand.reliable && journal.recovery && BadGrows(before.bad, journal.nand.bad)
      ensures r == Err(Recover) ==> Recoverable()
      ensures r == Ok || r == Err(Recover) || r == Err(JournalFull) || r == Err(TooBad) || r == Err(Ecc)
      ensures old(Untroubled()) ==> r == Ok && Untroubled()
      ensures Durably(old(journal.nand.history), {old(saved), view})
    {
      hide Coupled, Even, Clean, Surviving, Inv, Maps, Evacuation, BadGrows, WriteMeta, Enqueued, Smooth, AllGood,
           NextClear, Counts;
      hide Journal.Accepted, Space.CaughtUp, Space.Append, Capacity, LimitsOf;
      ghost var o, k, l, smooth := journal.St(), journal.Stats(), Limits(), Untroubled();
      if smooth {
        RoomNow();
        SameCapacity();
      }
      ghost var torn;
      r, torn := journal.Enqueue(Option.Some(data), meta);
      if r == Ok {
        AcceptedJoins(o, Entry(meta, data), k, torn);
        WriteStep(o, journal.St(), view, dst, data);
        EnqueuedPlain(o, journal.St(), Entry(meta, data));
        GoodBefore(o.bad, journal.nand.bad);
        queue := Space.Append(l, queue, Space.Of(dst), view[dst := data].Keys);
        if smooth { CountsWritten(o, k, dst, data, q0, old(queue)); }
        view := view[dst := data];
        saved := if journal.dirty then saved else view;
        SavedNow(old(journal.nand.history), old(journal.nand.durable), old(saved), count);
      } else {
        SavedStill(old(journal.nand.history), old(journal.nand.durable), {saved, view});
      }
      if r == Err(Recover) {
        BadGrowsOn(before.bad, o.bad, journal.nand.bad);
        if journal.recoverRoot != Page.None {
          RefusedStep(o, journal.St(), Page.None, view);
        }
      }
    }

    /** The queue after a write. */
    lemma CountsWritten(o: State, k: Tally, t: Sector, d: PageData, q0: Space.Queue, q: Space.Queue)
      requires counted && journal.nand.reliable && AllGood(o.bad) && !o.recovery && Maps(o.log, o.root, view) &&
        t != SECTOR_NONE
      requires Counts(journal.g, gcRatio, k.last, 0, o.tailSync, o.tail, o.head, o.root, o.log, view.Keys, q)
      requires Joined(o, Entry(WriteMeta(Metas(o.log), o.root, t), d), k) && k.current == 0
      requires Space.CaughtUp(LimitsOf(journal.g, k.last, gcRatio), q0, q)
      requires t in view || |view| < LimitsOf(journal.g, k.last, gcRatio).capacity
      ensures Untroubled() && journal.bbCurrent == 0
      ensures Counts(journal.g, gcRatio, journal.bbLast, 0, journal.tailSync, journal.tail, journal.head,
        journal.root, journal.log, view[t := d].Keys,
        Space.Append(LimitsOf(journal.g, k.last, gcRatio), q, Space.Of(t), view[t := d].Keys))
    {
      hide Maps, Counts, Enqueued, WriteMeta, Space.CaughtUp, Space.Append, LimitsOf;
      CountsWrite(journal.g, gcRatio, k.last, journal.bbLast, o, journal.St(), journal.dirty, view, t, d, q0, q);
    }

    /** The deepest level at which a path has a sibling, or -1. */
    method FindLevel(alts: seq<Page>) returns (level: int)
      requires |alts| == RADIX_DEPTH
      ensures -1 <= level < RADIX_DEPTH
      ensures level >= 0 ==> CutLevel(alts, level)
      ensures level < 0 ==> forall k :: 0 <= k < RADIX_DEPTH ==> alts[k] == Page.None
    {
      level := RADIX_DEPTH - 1;
      while level >= 0 && alts[level] == Page.None
        invariant -1 <= level < RADIX_DEPTH
        invariant forall k :: level < k < RADIX_DEPTH ==> alts[k] == Page.None
      {
        level := level - 1;
      }
    }

    /** Deletes a sector by rewriting its closest cousin with a path that avoids it. */
    method TryDelete(s: Sector, ghost q0: Space.Queue) returns (r: Outcome)
      requires Valid() && (Untroubled() ==> CaughtUp(q0))
      modifies this, journal, journal.nand
      ensures r == Ok ==> Valid() && view == old(view) - {s}
      ensures r != Ok ==> view == old(view) && count == old(count)
      ensures old(Untroubled()) ==> r == Ok && Untroubled()
      ensures r == Err(Recover) ==> RecoveryOpen(old(journal.St()))
      ensures r != Err(MapFull) && r != Err(NotFound) && r != Err(Endless)
      ensures Durably(old(journal.nand.history), {old(saved), old(view), view})
    {
      hide Coupled, Even, Clean, Surviving, Inv, InvBase, Maps, Evacuation, Path, Find, CutLevel, Counts, Counted,
           AllGood, CaughtUp, RecoveryOpen, Good;
      DurablySelf({old(saved), old(view), view});
      GoodTree(journal.log, journal.root, view);
      MapsLocated(journal.log, journal.root, view, s);
      var loc, alts;
      r, loc, alts := TracePath(s);
      if r == Err(NotFound) {
        Unmapped(view, s);
        return Ok;
      }
      if r != Ok {
        return;
      }
      var level := FindLevel(alts);
      if level < 0 {
        LastSector(journal.log, journal.root, view, s);
        DeleteLast();
        DurablySelf({old(saved), old(view), view});
        return Ok;
      }
      r := RewriteCousin(s, alts, level, q0);
      DurablyMore(old(journal.nand.history), {old(saved), view}, {old(saved), old(view), view});
    }

    method DeleteLast()
      requires Valid()
      modifies this, journal
      ensures Valid() && view == map[] && journal.dirty && saved == old(saved)
    {
      hide Coupled, Even, Clean, Surviving, Inv, InvBase, Saves, Evacuation, Counts, AllGood, Maps, Space.Empty;
      ghost var o := journal.St();
      count := 0;
      journal.Clear();
      if Untroubled() { CountsCleared(o); }
      queue := Space.Empty(queue);
      view := map[];
      assert view.Keys == {} && |view| == 0;
      MapsEmpty(journal.log);
      EvacuationFree(journal.St(), Page.None, view);
    }

    lemma CountsCleared(o: State)
      requires Counts(journal.g, gcRatio, journal.bbLast, journal.bbCurrent, o.tailSync, o.tail, o.head, o.root,
        o.log, view.Keys, queue)
      requires journal.head == journal.tail == o.head && journal.tailSync == o.tailSync
      requires journal.root == Page.None && journal.log == map[]
      ensures Counts(journal.g, gcRatio, journal.bbLast, journal.bbCurrent, journal.tailSync, journal.tail,
        journal.head, journal.root, journal.log, {}, Space.Empty(queue))
    {
      CountsEmpty(journal.g, gcRatio, journal.bbLast, o.tailSync, o.tail, o.head, o.root, o.log, view.Keys, queue);
    }

    method RewriteCousin(s: Sector, alts: seq<Page>, level: nat, ghost q0: Space.Queue) returns (r: Outcome)
      requires Valid() && s in view && alts == Path(Metas(journal.log), journal.root, s) && CutLevel(alts, level)
      requires Untroubled() ==> CaughtUp(q0)
      modifies this, journal, journal.nand
      ensures r == Ok ==> Valid() && view == old(view) - {s}
      ensures r != Ok ==> view == old(view) && count == old(count)
      ensures old(Untroubled()) ==> r == Ok && Untroubled()
      ensures r == Err(Recover) ==> RecoveryOpen(old(journal.St()))
      ensures r != Err(MapFull) && r != Err(NotFound) && r != Err(Endless)
      ensures Durably(old(journal.nand.history), {old(saved), view})
    {
      hide Coupled, Even, Clean, Surviving, Inv, InvBase, Maps, Evacuation, Path, SpliceMeta, Enqueued,
           EnteredRecovery, Counts, AllGood, CaughtUp;
      DurablySelf({saved, view});
      var altPage := alts[level];
      CousinInLog(journal.log, journal.root, view, s, level);
      InvToBase(journal.g, journal.nand.pageSize, !journal.nand.reliable, journal.St());
      LogInWindow(journal.g, journal.nand.pageSize, !journal.nand.reliable, journal.St(), altPage);
      var altMeta;
      r, altMeta := journal.ReadMeta(altPage);
      if r != Ok {
        return;
      }
      r := SpliceCousin(s, alts, level, altPage, altMeta, q0);
    }

    method SpliceCousin(s: Sector, alts: seq<Page>, level: nat, altPage: Page, altMeta: Meta, ghost q0: Space.Queue)
      returns (r: Outcome)
      requires Valid() && s in view && alts == Path(Metas(journal.log), journal.root, s) && CutLevel(alts, level)
      requires altPage == alts[level] && altPage in journal.log && altMeta == journal.log[altPage].meta
      requires Untroubled() ==> CaughtUp(q0)
      modifies this, journal, journal.nand
      ensures r == Ok ==> Valid() && view == old(view) - {s}
      ensures r != Ok ==> view == old(view) && count == old(count)
      ensures r == Err(Recover) ==> RecoveryOpen(old(journal.St()))
      ensures r != Err(MapFull) && r != Err(NotFound) && r != Err(Endless)
      ensures old(Untroubled()) ==> r == Ok && Untroubled()
      ensures Durably(old(journal.nand.history), {old(saved), view})
    {
      hide Coupled, Even, Clean, Surviving, Inv, InvBase, Maps, Evacuation, Path, SpliceMeta, Enqueued, EnteredRecovery;
      hide Smooth, AllGood, NextClear, Counts, Space.CaughtUp, Space.Append, LimitsOf, Joined, BadGrows, Find, Saves;
      ghost var e := Entry(SpliceMeta(alts, level, altMeta), journal.log[altPage].data);
      ghost var o, k, smooth := journal.St(), journal.Stats(), Untroubled();
      assert |view| > 0;
      if smooth { RoomNow(); }
      r := CopyPage(altPage, SpliceMeta(alts, level, altMeta), count - 1);
      if r == Ok {
        JoinedPlain(o, e, k);
        TrimStep(o, journal.St(), view, s, level, e);
        if smooth { CountsSpliced(o, k, s, level, e, q0, queue); }
        DropSector(s, e, k.last, old(journal.nand.history), old(journal.nand.durable));
      } else {
        SavedStill(old(journal.nand.history), old(journal.nand.durable), {saved, view});
        if r == Err(Recover) && journal.recoverRoot != Page.None {
          RefusedStep(o, journal.St(), Page.None, view);
        }
      }
    }

    /** The cousin has been rewritten: one sector fewer. */
    method DropSector(s: Sector, ghost e: Entry, ghost last: nat, ghost history: seq<Moment>, ghost durable: Checkpoint)
      requires journal.Valid() && Fits(journal.g) && (journal.g.ppc > 2 || journal.nand.reliable) && !journal.recovery
      requires s in view && count == |view| && Maps(journal.log, journal.root, view - {s})
      requires Evacuation(journal.St(), Page.None, view - {s})
      requires journal.Safely(history, durable) && journal.Renewed(durable, count - 1) &&
        (journal.Tracked() ==> Saves(durable, saved))
      requires Untroubled() ==>
        Counts(journal.g, gcRatio, journal.bbLast, journal.bbCurrent, journal.tailSync, journal.tail, journal.head,
          journal.root, journal.log, (view - {s}).Keys,
               Space.Append(LimitsOf(journal.g, last, gcRatio), queue, SlotOf(e.meta.id), (view - {s}).Keys))
      modifies this`view, this`count, this`saved, this`queue
      ensures Valid() && view == old(view) - {s} && Durably(history, {old(saved), view})
    {
      hide Coupled, Even, Clean, Surviving, Inv, InvBase, Maps, Evacuation, Counts, AllGood, Space.Append, LimitsOf;
      queue := Space.Append(LimitsOf(journal.g, last, gcRatio), queue, SlotOf(e.meta.id), (view - {s}).Keys);
      view := view - {s};
      count := count - 1;
      saved := if journal.dirty then saved else view;
      SavedNow(history, durable, old(saved), count);
    }

    lemma JoinedPlain(o: State, e: Entry, t: Tally)
      requires Joined(o, e, t) && !o.recovery
      ensures Enqueued(o, journal.St(), e) && !journal.recovery && (AllGood(journal.nand.bad) ==> AllGood(o.bad))
    {
      EnqueuedPlain(o, journal.St(), e);
      GoodBefore(o.bad, journal.nand.bad);
    }

    /** The queue after a trim. */
    lemma CountsSpliced(o: State, k: Tally, t: Sector, level: nat, e: Entry, q0: Space.Queue, q: Space.Queue)
      requires counted && journal.nand.reliable && AllGood(o.bad) && !o.recovery && Maps(o.log, o.root, view) &&
        t in view
      requires Counts(journal.g, gcRatio, k.last, 0, o.tailSync, o.tail, o.head, o.root, o.log, view.Keys, q)
      requires CutLevel(Path(Metas(o.log), o.root, t), level)
      requires var cousin := Path(Metas(o.log), o.root, t)[level];
        cousin in o.log &&
        e == Entry(SpliceMeta(Path(Metas(o.log), o.root, t), level, o.log[cousin].meta), o.log[cousin].data)
      requires Joined(o, e, k) && k.current == 0
      requires Space.CaughtUp(LimitsOf(journal.g, k.last, gcRatio), q0, q)
      ensures Untroubled() && journal.bbCurrent == 0
      ensures Counts(journal.g, gcRatio, journal.bbLast, 0, journal.tailSync, journal.tail, journal.head,
        journal.root, journal.log, (view - {t}).Keys,
        Space.Append(LimitsOf(journal.g, k.last, gcRatio), q, SlotOf(e.meta.id), (view - {t}).Keys))
    {
      hide Maps, Counts, Enqueued, Path, SpliceMeta, CutLevel, Space.CaughtUp, Space.Append, LimitsOf;
      CountsTrim(journal.g, gcRatio, k.last, journal.bbLast, o, journal.St(), journal.dirty, view, t, level, e, q0, q);
    }

    /** Deletes a sector. */
    method Trim(s: Sector) returns (r: Outcome)
      requires Valid()
      modifies this, journal, journal.nand
      ensures r == Ok ==> Valid() && view == old(view) - {s}
      ensures r != Err(MapFull) && r != Err(NotFound) && r != Err(Recover)
      ensures r != Ok ==> view == old(view)
      ensures old(Untroubled()) ==> r == Ok && Untroubled()
      ensures Durably(old(journal.nand.history), {old(saved), old(view), view})
    {
      hide Coupled, Even, Clean, Surviving, Valid;
      var done := false;
      DurablySelf({old(saved), old(view), view});
      while !done
        invariant Valid() && view == if done then old(view) - {s} else old(view)
        invariant old(Untroubled()) ==> Untroubled()
        invariant Durably(old(journal.nand.history), {old(saved), old(view), view})
        decreases !done, GoodBlocks(journal.nand.bad)
      {
        ghost var h, sv, v := journal.nand.history, saved, view;
        r, done := TrimRound(s);
        DurablyOn(old(journal.nand.history), h, {old(saved), old(view), v}, {sv, v, view},
          {old(saved), old(view), view});
        if r != Ok {
          return;
        }
      }
      return Ok;
    }

    method TrimRound(s: Sector) returns (r: Outcome, done: bool)
      requires Valid()
      modifies this, journal, journal.nand
      ensures r == Ok ==> Valid() && view == if done then old(view) - {s} else old(view)
      ensures r == Ok && !done ==> GoodBlocks(journal.nand.bad) < GoodBlocks(old(journal.nand.bad))
      ensures r != Err(MapFull) && r != Err(NotFound) && r != Err(Recover)
      ensures r != Ok ==> view == old(view)
      ensures old(Untroubled()) ==> r == Ok && Untroubled()
      ensures Durably(old(journal.nand.history), {old(saved), old(view), view})
    {
      hide Coupled, Even, Clean, Surviving, Inv, Maps, Evacuation, GoodBlocks, BadGrows, Counts, AllGood,
           Space.CaughtUp;
      ghost var before := journal.St();
      r := AutoGc();
      if r != Ok {
        DurablyMore(old(journal.nand.history), {old(saved), view}, {old(saved), old(view), view});
        return r, false;
      }
      ghost var o, h, sv := journal.St(), journal.nand.history, saved;
      GoodBefore(before.bad, journal.nand.bad);
      r := TryDelete(s, old(queue));
      DurablyOn(old(journal.nand.history), h, {old(saved), old(view)}, {sv, old(view), view},
        {old(saved), old(view), view});
      if r == Ok {
        return Ok, true;
      }
      if r == Err(Recover) {
        BadGrowsOn(before.bad, o.bad, journal.nand.bad);
      }
      r := RetryAfter(r.error, before);
      return r, false;
    }

    /** Deletes all sectors. */
    method Clear()
      requires Valid()
      modifies this, journal
      ensures Valid() && view == map[] && saved == old(saved)
    {
      hide Coupled, Even, Clean, Surviving, Inv, Maps, Evacuation, Counts, AllGood;
      if count != 0 {
        DeleteLast();
      }
    }

    /** Brings the journal to a checkpoint. */
    method Sync() returns (r: Outcome)
      requires Valid()
      modifies this`saved, this`queue, journal, journal.nand
      ensures old(Untroubled()) ==> r == Ok && Untroubled()
      ensures r == Ok ==> Valid() && !journal.dirty && (journal.Tracked() ==> saved == view)
      ensures r != Err(MapFull) && r != Err(NotFound) && r != Err(Recover)
      ensures Durably(old(journal.nand.history), {old(saved), view})
    {
      hide Coupled, Even, Clean, Surviving, Inv, Maps, Evacuation, GoodBlocks, Window, Counts, AllGood;
      DurablySelf({saved, view});
      while journal.dirty
        invariant old(Untroubled()) ==> Untroubled()
        invariant Valid() && Durably(old(journal.nand.history), {old(saved), view})
        decreases journal.dirty, GoodBlocks(journal.nand.bad), SlotsLeft(journal.g, journal.head),
                  Window(journal.g, journal.nand.cell, journal.tail, journal.head)
      {
        ghost var h, s := journal.nand.history, saved;
        r := SyncRound();
        DurablyOn(old(journal.nand.history), h, {old(saved), view}, {s, view}, {old(saved), view});
        if r != Ok {
          return;
        }
      }
      return Ok;
    }

    /** One round of a synchronisation. */
    method SyncRound() returns (r: Outcome)
      requires Valid() && journal.dirty
      modifies this`saved, this`queue, journal, journal.nand
      ensures r == Ok ==> Valid()
      ensures r == Ok && journal.dirty ==> SyncCloser(journal.g, old(journal.St()), journal.St())
      ensures r != Err(MapFull) && r != Err(NotFound) && r != Err(Recover)
      ensures old(Untroubled()) ==> r == Ok && Untroubled()
      ensures Durably(old(journal.nand.history), {old(saved), view})
    {
      hide Coupled, Even, Clean, Surviving, Inv, InvBase, Maps, Evacuation, GoodBlocks, Window, BadGrows, Moved,
           EnteredRecovery;
      hide Counts, AllGood, NextClear, Written;
      ghost var o := journal.St();
      DurablySelf({saved, view});
      BadGrowsSelf(o.bad);
      InvToBase(journal.g, journal.nand.pageSize, !journal.nand.reliable, o);
      BasicOf(journal.g, journal.nand.pageSize, !journal.nand.reliable, o);
      if Untroubled() { RoomNow(); }
      var p := PeekTail();
      ghost var at := journal.St();
      if p == Page.None {
        r := FillSlot();
      } else {
        r := CollectTail(p);
      }
      if r == Ok {
        RoundCloser(journal.g, o, at, journal.St(), journal.dirty);
      } else {
        if r == Err(Recover) {
          EnteredGrows(at, journal.St());
        }
        r := RetryAfter(r.error, o);
        assert r == Ok ==> SyncCloser(journal.g, o, journal.St());
      }
    }

    /** Pads an empty queue. */
    method FillSlot() returns (r: Outcome)
      requires Valid() && journal.tail == journal.head
      modifies this`saved, this`queue, journal, journal.nand
      ensures r == Ok ==> Valid() && Written(old(journal.St()), journal.St(), journal.dirty)
      ensures r == Err(Recover) ==> RecoveryOpen(old(journal.St()))
      ensures r != Err(MapFull) && r != Err(NotFound) && r != Err(Endless)
      ensures old(Untroubled()) ==> r == Ok && Untroubled()
      ensures Durably(old(journal.nand.history), {old(saved), view})
    {
      hide Coupled, Even, Clean, Surviving, Inv, InvBase, Maps, Evacuation, GoodBlocks, Window, BadGrows, Moved,
           EnteredRecovery;
      hide Counts, AllGood, NextClear, PadEntry, Joined, Space.Append, LimitsOf, RecoveryOpen;
      ghost var o, k, l, smooth := journal.St(), journal.Stats(), Limits(), Untroubled();
      if smooth { RoomNow(); }
      EmptyLog(journal.g, journal.nand.pageSize, !journal.nand.reliable, o);
      ghost var e;
      r, e := PadQueue();
      if r == Ok {
        MovedWritten(o, journal.St(), journal.dirty);
        JoinedPlain(o, e, k);
        queue := Space.Append(l, queue, Space.Filler, view.Keys);
        if smooth { CountsFilled(o, k, e, old(queue)); }
      }
    }

    /** The queue after padding. */
    lemma CountsFilled(o: State, k: Tally, e: Entry, q: Space.Queue)
      requires counted && journal.nand.reliable && AllGood(o.bad) && !o.recovery && Maps(o.log, o.root, view)
      requires Counts(journal.g, gcRatio, k.last, 0, o.tailSync, o.tail, o.head, o.root, o.log, view.Keys, q)
      requires Maps(journal.log, journal.root, view) && o.log == map[] && q.pages == [] && PadEntry(o, e)
      requires Joined(o, e, k) && k.current == 0
      ensures Untroubled() && journal.bbCurrent == 0
      ensures Counts(journal.g, gcRatio, journal.bbLast, 0, journal.tailSync, journal.tail, journal.head,
        journal.root, journal.log, view.Keys,
        Space.Append(LimitsOf(journal.g, k.last, gcRatio), q, Space.Filler, view.Keys))
    {
      hide Maps, Counts, Enqueued, Space.CaughtUp, Space.Append, LimitsOf;
      CountsFill(journal.g, gcRatio, k.last, journal.bbLast, o, journal.St(), journal.dirty, view, e, q);
    }
  }

  lemma GoodBefore(a: seq<bool>, b: seq<bool>)
    requires BadGrows(a, b)
    ensures AllGood(b) ==> AllGood(a)
  {}

  lemma Unmapped(view: View, s: Sector)
    requires s !in view
    ensures view - {s} == view
  {}

  lemma FirstIsUser(g: Geo)
    requires g.Ok()
    ensures g.UserPage(FirstPage(0))
  {}

  lemma EnteredGrows(o: State, n: State)
    requires EnteredRecovery(o, n)
    ensures BadGrows(o.bad, n.bad) && n.recovery
  {}

  lemma MovedWritten(at: State, n: State, dirty: bool)
    requires Moved(at, n) && (dirty <==> !GroupStart(n.head))
    ensures Written(at, n, dirty) && (!at.recovery ==> !n.recovery)
  {}

  function SlotsLeft(g: Geo, head: Page): nat {
    if head.Page? && head.idx < g.ppc then g.ppc - head.idx else 0
  }

  /** A round that wrote a page or moved the tail has come closer. */
  lemma RoundCloser(g: Geo, o: State, at: State, n: State, dirty: bool)
    requires at.head == o.head && at.bad == o.bad && at.cell == o.cell && g.Ok() && g.UserPage(o.head)
    requires at.tail == o.tail || TailMoved(g, o, at)
    requires Written(at, n, dirty) || (TailMoved(g, at, n) && (at.tail == o.tail ==> o.tail != o.head))
    ensures dirty ==> SyncCloser(g, o, n)
  {
    hide Coupled, Even, Clean, Surviving, Window, GoodBlocks;
    GoodShrinks(o.bad, n.bad, Page.None);
  }

  lemma EnqueuedPlain(o: State, n: State, e: Entry)
    requires Enqueued(o, n, e) && !o.recovery
    ensures !n.recovery && BadGrows(o.bad, n.bad)
  {}

  lemma MapsLocated(log: Log, root: Page, view: View, t: Sector)
    requires Maps(log, root, view)
    ensures Located(log, view, t, Find(Metas(log), root, t))
  {
    hide Coupled, Even, Clean, Surviving, Find;
  }

  /** A page was written: the blocks marked bad may have grown, and either a slot was filled or a
      checkpoint was reached. */
  ghost predicate Written(o: State, n: State, dirty: bool) {
    BadGrows(o.bad, n.bad) && o.head.Page? && n.head.Page? && (dirty <==> !GroupStart(n.head)) &&
    (n.head.idx == o.head.idx + 1 || GroupStart(n.head))
  }

  ghost predicate Progress(o: State, n: State, dirty: bool, dirty': bool) {
    Written(o, n, dirty') || (n == o && dirty' == dirty)
  }

  /** The tail alone has moved, off its page unless the queue was empty. */
  ghost predicate TailMoved(g: Geo, o: State, n: State) {
    n.head == o.head && n.bad == o.bad && n.cell == o.cell &&
    (if o.tail == o.head then n.tail == o.tail
     else Window(g, n.cell, n.tail, n.head) < Window(g, o.cell, o.tail, o.head))
  }

  lemma ProgressOn(g: Geo, s: State, o: State, n: State, dirty: bool, dirty': bool)
    requires Progress(s, o, dirty, dirty') && TailMoved(g, o, n)
    ensures Written(s, n, dirty') || (TailMoved(g, s, n) && dirty' == dirty)
  {
    hide Coupled, Even, Clean, Surviving, Window;
  }

  /** What one step of recovery achieves: `s` before it, `o` after the enumeration. */
  lemma StepOf(g: Geo, s: State, o: State, n: State)
    requires s.recovery && s.recoverNext.Page? && s.recoverRoot.Page?
    requires (if s.enumDone then o == s else Closer(g, s, o) && EnumeratedOnly(s, o))
    ensures Moved(o, n) ==>
      if n.recovery then Closer(g, s, n) else BadGrows(s.bad, n.bad) && MarkedBad(n.bad, s.recoverRoot)
    ensures n == o && !s.enumDone ==> Closer(g, s, n)
    ensures EnteredRecovery(o, n) ==> EnteredRecovery(s, n)
  {}

  lemma StepGrows(g: Geo, o: State, n: State)
    ensures Closer(g, o, n) ==> BadGrows(o.bad, n.bad) && n.recovery && n.recoverRoot == o.recoverRoot
    ensures EnteredRecovery(o, n) && o.recovery ==>
      BadGrows(o.bad, n.bad) && n.recovery && n.recoverRoot == o.recoverRoot
  {}

  ghost predicate EnumeratedOnly(s: State, o: State) {
    o == s.(recoverNext := o.recoverNext, enumDone := o.enumDone)
  }

  /** What padding enqueues: filler, or the root page over again. */
  ghost predicate PadEntry(o: State, e: Entry) {
    if o.root == Page.None then e.meta.id == SECTOR_NONE else o.root in o.log && e == o.log[o.root]
  }

  /** Padding keeps the map. */
  lemma PadStep(o: State, n: State, view: View, e: Entry)
    requires Maps(o.log, o.root, view) && Evacuation(o, Page.None, view) && Page.None !in o.log
    requires PadEntry(o, e) && Enqueued(o, n, e)
    ensures Maps(n.log, n.root, view) && Evacuation(n, Page.None, view)
  {
    hide Coupled, Even, Clean, Surviving, Maps, Evacuation, Live, Enqueued, WriteMeta, Find;
    if Holds(Metas(o.log), o.root) {
      RootEntry(o.log, o.root, view);
      RewriteStep(o, n, Page.None, view, e.meta.id);
    } else {
      FillerStep(o, n, Page.None, view, e);
    }
  }

  lemma GoodTree(log: Log, root: Page, view: View)
    requires Maps(log, root, view)
    ensures Good(Metas(log), root)
  {}

  lemma RootVisit(m: Store, root: Page, t: Sector)
    ensures Visit(m, root, t, 0) == if Holds(m, root) then root else Page.None
  {}

  lemma PathIs(m: Store, root: Page, t: Sector, alts: seq<Page>)
    requires |alts| == RADIX_DEPTH
    requires forall k :: 0 <= k < RADIX_DEPTH ==> alts[k] == Sibling(m, root, t, k)
    ensures alts == Path(m, root, t)
  {
    hide Coupled, Even, Clean, Surviving, Sibling;
  }

  /** The chip loses power at the moment `image` and is started again: the map that comes up is one
      of `views`. */
  method Restart(g: Geo, pageSize: nat, image: Image, bad: seq<bool>, gcRatio: nat,
                 ghost durable: Checkpoint, ghost views: set<View>)
    returns (map': Map, r: Outcome)
    requires TwoGood(bad) && Fits(g) && Lands(g, image, durable)
    requires Survives(g, pageSize, Moment(image, bad, durable), views)
    ensures map'.Valid() && map'.view in views && map'.count == |map'.view|
    ensures map'.journal.nand.cell == image && map'.journal.nand.history == []
    ensures map'.journal.Tracked() && map'.saved == map'.view && map'.journal.nand.pageSize == pageSize
    ensures map'.journal.g == g && map'.journal.nand.bad == bad
    ensures r == Ok || (r == Err(TooBad) && map'.view == map[])
  {
    hide Inv, InvBase, Maps, Coupled, Even, Clean, Live, Marks, Groups, LogKept, Full, TwoGood;
    var nand := new Nand(g, pageSize, true, image, bad, durable);
    var journal := new Journal(nand, true, false);
    map' := new Map(journal, gcRatio, false);
    ghost var v :| v in views && Saves(durable, v);
    r := map'.Resume(v);
  }
}
