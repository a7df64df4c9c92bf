/** What the pages of a journal mean: the map from sectors to data, and how one enqueued page
    changes it. */
module MapState {
  import opened Bits
  import opened Geometry
  import opened Tree
  import opened Nand
  import opened JournalState
  import opened Durability

  type View = map<Sector, PageData>

  /** The log, read from the root, is exactly the sector map `view`. */
  ghost predicate Maps(log: Log, root: Page, view: View) {
    Good(Metas(log), root) && SECTOR_NONE !in view &&
    forall t: Sector :: Located(log, view, t, Find(Metas(log), root, t))
  }

  /** `p` is where the data of sector `t` is kept, or None if there is none. */
  predicate Located(log: Log, view: View, t: Sector, p: Page) {
    if t in view then p in log && p != Page.None && log[p].data == view[t] else p == Page.None
  }

  lemma MetasOf(log: Log, n: Page, e: Entry)
    ensures Metas(log[n := e]) == Metas(log)[n := e.meta]
  {}

  lemma MapsFind(log: Log, root: Page, view: View, t: Sector)
    requires Maps(log, root, view)
    ensures Located(log, view, t, Find(Metas(log), root, t))
    ensures t in view ==> t != SECTOR_NONE
    ensures t in view ==> Metas(log)[Find(Metas(log), root, t)].id == t
  {
    hide Good;
    if t in view {
      FindIsLive(Metas(log), root, t);
    }
  }

  // ---------------------------------------------------------------- one page more

  /** A page written for sector `t`. */
  lemma MapsWrite(log: Log, root: Page, view: View, n: Page, t: Sector, d: PageData)
    requires Maps(log, root, view) && n.Page? && n !in log && t != SECTOR_NONE
    ensures Maps(log[n := Entry(WriteMeta(Metas(log), root, t), d)], n, view[t := d])
  {
    hide Good, Bit, Flip, Path;
    var e := Entry(WriteMeta(Metas(log), root, t), d);
    var log', view' := log[n := e], view[t := d];
    MetasOf(log, n, e);
    WriteKeepsTree(Metas(log), root, n, t);
    forall u: Sector
      ensures Located(log', view', u, Find(Metas(log'), n, u))
    {
      assert Located(log, view, u, Find(Metas(log), root, u));
    }
  }

  /** A page rewritten with the data its sector already has. */
  lemma MapsRewrite(log: Log, root: Page, view: View, n: Page, t: Sector)
    requires Maps(log, root, view) && n.Page? && n !in log && t in view
    ensures Maps(log[n := Entry(WriteMeta(Metas(log), root, t), view[t])], n, view)
  {
    hide Maps;
    assert t != SECTOR_NONE by { MapsFind(log, root, view, t); }
    MapsWrite(log, root, view, n, t, view[t]);
    assert view[t := view[t]] == view;
  }

  /** The cousin of sector `t` rewritten with the spliced path. */
  lemma MapsTrim(log: Log, root: Page, view: View, n: Page, t: Sector, level: nat)
    requires Maps(log, root, view) && n.Page? && n !in log && t in view
    requires CutLevel(Path(Metas(log), root, t), level)
    ensures var cousin := Path(Metas(log), root, t)[level];
      cousin in log &&
      Maps(log[n := Entry(SpliceMeta(Path(Metas(log), root, t), level, log[cousin].meta), log[cousin].data)], n,
        view - {t})
  {
    hide Good, Bit, Flip, SpliceMeta;
    var m := Metas(log);
    var cousin := Path(m, root, t)[level];
    assert cousin == Sibling(m, root, t, level);
    TrimKeepsTree(m, root, n, t, level);
    var c := m[cousin];
    assert Located(log, view, c.id, cousin);
    var e := Entry(SpliceMeta(Path(m, root, t), level, c), log[cousin].data);
    var log', view' := log[n := e], view - {t};
    MetasOf(log, n, e);
    forall u: Sector
      ensures Located(log', view', u, Find(Metas(log'), n, u))
    {
      assert Located(log, view, u, Find(m, root, u));
    }
  }

  /** A root that holds no sector means an empty map. */
  lemma MapsFiller(log: Log, root: Page, view: View)
    requires Page.None !in log && !Holds(Metas(log), root)
    ensures Maps(log, root, view) <==> view == map[]
    ensures forall p :: !Live(Metas(log), root, p)
  {
    EmptyIsGood(Metas(log), root);
    if Maps(log, root, view) {
      forall u: Sector ensures u !in view {
        assert Located(log, view, u, Find(Metas(log), root, u));
      }
      assert view == map[];
    }
  }

  /** Leaving out pages that no lookup visits changes nothing. */
  lemma MapsFrame(log: Log, log': Log, root: Page, view: View)
    requires Maps(log, root, view)
    requires forall p :: p in log' ==> p in log && log'[p] == log[p]
    requires forall p :: p in log && Live(Metas(log), root, p) ==> p in log'
    ensures Maps(log', root, view)
    ensures forall p :: Live(Metas(log'), root, p) <==> Live(Metas(log), root, p)
  {
    hide Live;
    var m, m' := Metas(log), Metas(log');
    forall p | Live(m, root, p)
      ensures p in m' && m'[p] == m[p]
    {
      LiveIsCurrent(m, root, p);
    }
    Frame(m, m', root);
    forall t: Sector
      ensures Located(log', view, t, Find(m', root, t))
    {
      assert Located(log, view, t, Find(m, root, t));
      if Find(m, root, t) != Page.None {
        FindIsLive(m, root, t);
      }
    }
  }

  /** No root, no sectors. */
  lemma MapsEmpty(log: Log)
    requires Page.None !in log
    ensures Maps(log, Page.None, map[])
  {
    EmptyIsGood(Metas(log), Page.None);
  }

  // ---------------------------------------------------------------- evacuation

  /** While a block is being evacuated, the log from which recovery started still holds the same
      map, and every live page left in the failed block is still to be enumerated - except
      possibly the page `ex` that is being handled. */
  ghost predicate Evacuation(s: State, ex: Page, view: View) {
    s.recovery ==>
      Maps(s.base, s.recoverRoot, view) &&
      forall p :: Live(Metas(s.log), s.root, p) && SameBlock(p, s.recoverRoot) && p != ex ==> Pending(s, p)
  }

  /** A rewrite of sector `t` keeps the map, and if recovery ends with it, no live page was left
      in the block that is given up. */
  lemma RewriteStep(o: State, n: State, ex: Page, view: View, t: Sector)
    requires Maps(o.log, o.root, view) && Evacuation(o, ex, view) && t in view
    requires o.recovery && ex != Page.None ==> Find(Metas(o.log), o.root, t) == ex
    requires Enqueued(o, n, Entry(WriteMeta(Metas(o.log), o.root, t), view[t]))
    ensures Maps(n.log, n.root, view) && Evacuation(n, Page.None, view)
    ensures !Live(Metas(n.log), n.root, Find(Metas(o.log), o.root, t))
  {
    hide Maps, Live, Good;
    var e := Entry(WriteMeta(Metas(o.log), o.root, t), view[t]);
    var log := o.log[n.root := e];
    MapsRewrite(o.log, o.root, view, n.root, t);
    RewriteLive(o, n.root, view, t);
    if o.recovery {
      forall p | Live(Metas(log), n.root, p) && SameBlock(p, o.recoverRoot)
        ensures Pending(o, p)
      {}
      if !n.recovery {
        FinishStep(o, n, log, view);
      }
    }
  }

  /** Which pages are live after a rewrite. */
  lemma RewriteLive(o: State, n: Page, view: View, t: Sector)
    requires Maps(o.log, o.root, view) && t in view && n.Page? && n !in o.log
    ensures var m' := Metas(o.log[n := Entry(WriteMeta(Metas(o.log), o.root, t), view[t])]);
      !Live(m', n, Find(Metas(o.log), o.root, t)) &&
      forall p :: Live(m', n, p) ==> p == n || (Live(Metas(o.log), o.root, p) && p != Find(Metas(o.log), o.root, t))
  {
    var m := Metas(o.log);
    MapsFind(o.log, o.root, view, t);
    hide Maps, Live, Good, WriteMeta;
    MetasOf(o.log, n, Entry(WriteMeta(m, o.root, t), view[t]));
    var m' := m[n := WriteMeta(m, o.root, t)];
    assert Good(m, o.root) by { GoodOf(o.log, o.root, view); }
    RewriteKillsSource(m, o.root, n, Find(m, o.root, t));
    forall p | Live(m', n, p)
      ensures p == n || (Live(m, o.root, p) && p != Find(m, o.root, t))
    {
      WriteLive(m, o.root, n, t, p);
    }
  }

  /** When recovery ends, the pages of the evacuated block leave the log. */
  lemma FinishStep(o: State, n: State, log: Log, view: View)
    requires Maps(log, n.root, view) && o.recovery && !n.recovery
    requires n.root in log && !SameBlock(n.root, o.recoverRoot)
    requires n.log == WithoutBlock(log, o.recoverRoot)
    requires forall p :: Live(Metas(log), n.root, p) && SameBlock(p, o.recoverRoot) ==> false
    ensures Maps(n.log, n.root, view)
    ensures forall p :: Live(Metas(n.log), n.root, p) <==> Live(Metas(log), n.root, p)
  {
    hide Maps, Live;
    MapsFrame(log, n.log, n.root, view);
  }

  /** Padding on an empty map. */
  lemma FillerStep(o: State, n: State, ex: Page, view: View, e: Entry)
    requires Maps(o.log, o.root, view) && Evacuation(o, ex, view) && !Holds(Metas(o.log), o.root)
    requires e.meta.id == SECTOR_NONE && Enqueued(o, n, e)
    ensures Maps(n.log, n.root, view) && Evacuation(n, Page.None, view)
  {
    hide Live;
    MapsFiller(o.log, o.root, view);
    assert Page.None !in Metas(o.log);
    MapsFiller(n.log, n.root, view);
  }

  /** The root page copied with its own metadata is a rewrite of its sector. */
  lemma RootEntry(log: Log, root: Page, view: View)
    requires Maps(log, root, view) && Holds(Metas(log), root)
    ensures var t := log[root].meta.id;
      t in view && log[root] == Entry(WriteMeta(Metas(log), root, t), view[t]) && Find(Metas(log), root, t) == root
  {
    hide WriteMeta, Bit, Flip;
    var m := Metas(log);
    var t := log[root].meta.id;
    RootIsTraced(m, root);
    assert Visit(m, root, t, 0) == root;
    assert Live(m, root, root);
    LiveIsCurrent(m, root, root);
    assert Located(log, view, t, Find(m, root, t));
  }

  /** What an accepted page means for the progress of the journal. */
  ghost predicate Moved(o: State, n: State) {
    BadGrows(o.bad, n.bad) && n.tail == o.tail && o.head.Page? && n.head.Page? &&
    (n.head.idx == o.head.idx + 1 || (GroupStart(n.head) && (n.recovery ==> !n.enumDone))) &&
    if n.recovery then
      o.recovery && n.recoverNext == o.recoverNext && n.recoverRoot == o.recoverRoot && n.enumDone == o.enumDone
    else
      o.recovery ==> MarkedBad(n.bad, o.recoverRoot)
  }

  lemma EnqueuedMoves(o: State, n: State, e: Entry)
    requires Enqueued(o, n, e) && o.head.Page?
    ensures Moved(o, n)
  {}

  /** Recovery has begun or begun again. */
  lemma RefusedStep(o: State, n: State, ex: Page, view: View)
    requires Maps(o.log, o.root, view) && Evacuation(o, ex, view) && EnteredRecovery(o, n)
    requires n.recoverRoot.Page?
    ensures Maps(n.log, n.root, view) && Evacuation(n, Page.None, view)
  {
    hide Maps, Live;
    assert Maps(n.base, n.recoverRoot, view);
  }

  /** A page that is not the current page of its sector is dead, whatever it holds. */
  lemma StaleStep(s: State, src: Page, view: View)
    requires Maps(s.log, s.root, view) && Evacuation(s, src, view)
    requires src in s.log ==> s.log[src].meta.id == SECTOR_NONE || Find(Metas(s.log), s.root, s.log[src].meta.id) != src
    ensures !Live(Metas(s.log), s.root, src) && Evacuation(s, Page.None, view)
  {
    hide Live, Find;
    StaleIsDead(Metas(s.log), s.root, src);
  }

  /** What the page buffer holds does not matter for the map. */
  lemma EvacuationBuf(s: State, ex: Page, view: View, buf: Buffer)
    requires Evacuation(s, ex, view)
    ensures Evacuation(s.(buf := buf), ex, view)
    ensures forall n :: EnteredRecovery(s.(buf := buf), n) ==> EnteredRecovery(s, n)
    ensures forall n :: Moved(s.(buf := buf), n) ==> Moved(s, n)
  {
    hide Maps, Live, BadGrows;
  }

  /** Enumerating one page of the failed block. */
  lemma EnumerateStep(g: Geo, pageSize: nat, fallible: bool, s: State, view: View)
    requires Inv(g, pageSize, fallible, s) && s.recovery && !s.enumDone
    requires Maps(s.log, s.root, view) && Evacuation(s, Page.None, view)
    ensures g.UserPage(s.recoverNext) && Evacuation(NextPending(g, s), s.recoverNext, view)
    ensures Closer(g, s, NextPending(g, s))
  {
    EnumerateKeeps(g, pageSize, fallible, s);
    hide Live, Good, Placed, Readable, HeadReady, DumpKept, Ring, Find;
    BadGrowsSelf(s.bad);
    EnumerateCloser(g, pageSize, fallible, s);
    var n := NextPending(g, s);
    forall p | Live(Metas(n.log), n.root, p) && SameBlock(p, n.recoverRoot) && p != s.recoverNext
      ensures Pending(n, p)
    {
      LiveIsCurrent(Metas(s.log), s.root, p);
      LiveUser(g, pageSize, fallible, s, p);
    }
  }

  lemma EnumerateCloser(g: Geo, pageSize: nat, fallible: bool, s: State)
    requires Inv(g, pageSize, fallible, s) && s.recovery && !s.enumDone && g.UserPage(s.recoverNext)
    ensures Closer(g, s, NextPending(g, s))
  {
    hide Placed, Readable, HeadReady, DumpKept, InWindow;
    BadGrowsSelf(s.bad);
    assert Evacuating(g, s.head, s.root, s.recoverNext, s.recoverRoot, s.log, s.base);
  }

  lemma LiveUser(g: Geo, pageSize: nat, fallible: bool, s: State, p: Page)
    requires Inv(g, pageSize, fallible, s) && s.recovery && p in s.log && SameBlock(p, s.recoverRoot)
    ensures g.UserPage(p) && Le(p, s.recoverRoot)
  {
    hide Readable, HeadReady, DumpKept, Ring, InWindow;
  }

  /** Recovery has come closer to its end: a page enumerated, or a slot of the group filled. */
  ghost predicate Closer(g: Geo, o: State, n: State) {
    n.recovery && n.recoverRoot == o.recoverRoot && BadGrows(o.bad, n.bad) &&
    o.head.Page? && n.head.Page? && o.recoverNext.Page? && n.recoverNext.Page? && o.recoverRoot.Page? &&
    if o.enumDone then n.enumDone && n.head.idx == o.head.idx + 1
    else n.enumDone ||
         (o.recoverNext.grp < n.recoverNext.grp <= o.recoverRoot.grp) ||
         (o.recoverNext.grp == n.recoverNext.grp <= o.recoverRoot.grp && o.recoverNext.idx < n.recoverNext.idx < g.ppc)
  }

  /** How far recovery is from its end: its phase, then the groups and the pages of the failed
      block left to enumerate, or the slots left in the group. */
  ghost function Phase(s: State): nat {
    if !s.recovery then 0 else if s.enumDone then 1 else 2
  }

  ghost function GroupsLeft(s: State): int {
    if s.recovery && !s.enumDone && s.recoverNext.Page? && s.recoverRoot.Page?
    then s.recoverRoot.grp - s.recoverNext.grp else 0
  }

  ghost function PagesLeft(g: Geo, s: State): int {
    if !s.recovery || !s.head.Page? || !s.recoverNext.Page? then 0
    else if s.enumDone then g.ppc - s.head.idx else g.ppc - s.recoverNext.idx
  }

  lemma CloserDecreases(g: Geo, pageSize: nat, fallible: bool, o: State, n: State)
    requires InvBase(g, pageSize, fallible, o) && o.recovery && Closer(g, o, n)
    ensures Phase(n) <= Phase(o)
    ensures Phase(n) == Phase(o) ==> GroupsLeft(n) <= GroupsLeft(o) && GroupsLeft(o) >= 0
    ensures Phase(n) == Phase(o) && GroupsLeft(n) == GroupsLeft(o) ==>
      PagesLeft(g, n) < PagesLeft(g, o) && PagesLeft(g, o) > 0
  {
    BasicOf(g, pageSize, fallible, o);
    hide InvBase;
  }

  // ---------------------------------------------------------------- the tail

  /** Dropping a dead tail page; if it was the root, the map was empty. */
  lemma DequeueStep(log: Log, root: Page, view: View, src: Page)
    requires Maps(log, root, view) && !Live(Metas(log), root, src)
    ensures Maps(log - {src}, if root == src then Page.None else root, view)
    ensures Maps(log - {src}, root, view)
  {
    hide Live, Find;
    MapsFrame(log, log - {src}, root, view);
    if root == src && Holds(Metas(log), root) {
      RootLive(log, root);
    } else if root == src {
      MapsFiller(log, root, view);
      MapsFiller(log - {src}, Page.None, view);
    }
  }

  lemma RootLive(log: Log, root: Page)
    requires Holds(Metas(log), root) && Page.None !in log
    ensures Live(Metas(log), root, root)
  {
    assert Visit(Metas(log), root, SECTOR_NONE, 0) == root;
  }

  /** An empty log means an empty map, whatever the root. */
  lemma PeekStep(root: Page, root': Page, view: View)
    requires Maps(map[], root, view)
    ensures Maps(map[], root', view)
  {
    MapsFiller(map[], root, view);
    MapsFiller(map[], root', view);
  }

  // ---------------------------------------------------------------- blocks left

  /** The blocks that are not marked bad. */
  ghost function GoodBlocks(bad: seq<bool>): set<nat> {
    set b: nat | b < |bad| && !bad[b]
  }

  lemma GoodShrinks(a: seq<bool>, b: seq<bool>, p: Page)
    requires BadGrows(a, b)
    ensures GoodBlocks(b) <= GoodBlocks(a)
    ensures MarkedBad(b, p) && NotBad(a, p) ==> GoodBlocks(b) < GoodBlocks(a)
  {
    if MarkedBad(b, p) && NotBad(a, p) {
      assert p.blk in GoodBlocks(a) && p.blk !in GoodBlocks(b);
    }
  }

  lemma FailedBlockUnmarked(g: Geo, pageSize: nat, fallible: bool, s: State)
    requires Inv(g, pageSize, fallible, s) && s.recovery
    ensures NotBad(s.bad, s.recoverRoot)
  {
    hide Readable, HeadReady, DumpKept, InWindow, Ring;
    assert s.recoverRoot in s.base;
  }

  // ---------------------------------------------------------------- trims and writes

  /** The page enqueued for a write of sector `t`. */
  lemma WriteStep(o: State, n: State, view: View, t: Sector, d: PageData)
    requires Maps(o.log, o.root, view) && !o.recovery && t != SECTOR_NONE
    requires Enqueued(o, n, Entry(WriteMeta(Metas(o.log), o.root, t), d))
    ensures Maps(n.log, n.root, view[t := d]) && Evacuation(n, Page.None, view[t := d])
  {
    hide Maps, Live, WriteMeta;
    MapsWrite(o.log, o.root, view, n.root, t, d);
  }

  /** The page enqueued for a trim of sector `t`. */
  lemma TrimStep(o: State, n: State, view: View, t: Sector, level: nat, e: Entry)
    requires Maps(o.log, o.root, view) && !o.recovery && t in view
    requires CutLevel(Path(Metas(o.log), o.root, t), level)
    requires var cousin := Path(Metas(o.log), o.root, t)[level];
      cousin in o.log &&
      e == Entry(SpliceMeta(Path(Metas(o.log), o.root, t), level, o.log[cousin].meta), o.log[cousin].data)
    requires Enqueued(o, n, e)
    ensures Maps(n.log, n.root, view - {t}) && Evacuation(n, Page.None, view - {t})
  {
    hide Maps, Live, SpliceMeta, Path, CutLevel;
    MapsTrim(o.log, o.root, view, n.root, t, level);
  }

  lemma CousinInLog(log: Log, root: Page, view: View, t: Sector, level: nat)
    requires Maps(log, root, view) && CutLevel(Path(Metas(log), root, t), level)
    ensures Path(Metas(log), root, t)[level] in log
  {
    hide Bit, Flip;
    CousinPrefix(Metas(log), root, t, level);
  }

  /** The last sector. */
  lemma LastSector(log: Log, root: Page, view: View, t: Sector)
    requires Maps(log, root, view) && t in view
    requires forall k :: 0 <= k < RADIX_DEPTH ==> Path(Metas(log), root, t)[k] == Page.None
    ensures view - {t} == map[] && |view| == 1
  {
    hide Path, Good, Find;
    GoodOf(log, root, view);
    forall u: Sector | u in view
      ensures u == t
    {
      assert Located(log, view, u, Find(Metas(log), root, u));
      if u != t {
        NoSiblingMeansAlone(Metas(log), root, t, u);
      }
    }
    assert view == map[t := view[t]];
  }

  lemma GoodOf(log: Log, root: Page, view: View)
    requires Maps(log, root, view)
    ensures Good(Metas(log), root) && Page.None !in log
  {
    assert Page.None !in Metas(log);
  }

  /** One round of a synchronisation has come closer to a checkpoint: a block fewer, or a slot of
      the group filled, or a page less in the queue. */
  ghost predicate SyncCloser(g: Geo, o: State, n: State) {
    GoodBlocks(n.bad) < GoodBlocks(o.bad) ||
    (GoodBlocks(n.bad) <= GoodBlocks(o.bad) && o.head.Page? && n.head.Page? && o.head.idx < g.ppc &&
     (n.head.idx == o.head.idx + 1 ||
      (n.head == o.head && Window(g, n.cell, n.tail, n.head) < Window(g, o.cell, o.tail, o.head))))
  }

  lemma EvacuationFree(s: State, ex: Page, view: View)
    requires !s.recovery
    ensures Evacuation(s, ex, view)
  {}

  // ---------------------------------------------------------------- checkpoints

  /** A checkpoint stands for the sector map `view`. */
  ghost predicate Saves(ck: Checkpoint, view: View) {
    match ck
    case NoCheckpoint => view == map[]
    case Checkpoint(root, buf, log) => Maps(log, root, view) && buf.cookie == |view|
  }

  /** After a power cut at moment `m`, a resume finds one of `views`. */
  ghost predicate Survives(g: Geo, pageSize: nat, m: Moment, views: set<View>) {
    Resumable(g, pageSize, m.bad, m.image, m.durable) && exists v :: v in views && Saves(m.durable, v)
  }

  /** History `h'` extends `h`, and after a power cut at any of the new moments a resume finds one
      of `views`. */
  ghost predicate Surviving(g: Geo, pageSize: nat, h: seq<Moment>, h': seq<Moment>, views: set<View>) {
    |h| <= |h'| && h'[..|h|] == h && forall i :: |h| <= i < |h'| ==> Survives(g, pageSize, h'[i], views)
  }

  lemma SurvivingNothing(g: Geo, pageSize: nat, h: seq<Moment>, views: set<View>)
    ensures Surviving(g, pageSize, h, h, views)
  {}

  lemma SurvivingOn(g: Geo, pageSize: nat, h: seq<Moment>, h': seq<Moment>, h'': seq<Moment>,
                    a: set<View>, b: set<View>, views: set<View>)
    requires Surviving(g, pageSize, h, h', a) && Surviving(g, pageSize, h', h'', b) && a <= views && b <= views
    ensures Surviving(g, pageSize, h, h'', views)
  {
    hide Resumable, Saves;
    assert h''[..|h|] == h''[..|h'|][..|h|];
    forall i | |h| <= i < |h''|
      ensures Survives(g, pageSize, h''[i], views)
    {
      if i < |h'| {
        assert h''[i] == h''[..|h'|][i];
        assert Survives(g, pageSize, h'[i], a);
      } else {
        assert Survives(g, pageSize, h''[i], b);
      }
    }
  }

  lemma SurvivingMore(g: Geo, pageSize: nat, h: seq<Moment>, h': seq<Moment>, a: set<View>, views: set<View>)
    requires Surviving(g, pageSize, h, h', a) && a <= views
    ensures Surviving(g, pageSize, h, h', views)
  {
    SurvivingNothing(g, pageSize, h', views);
    SurvivingOn(g, pageSize, h, h', h', a, views, views);
  }

  lemma RecordedSurvives(g: Geo, pageSize: nat, h: seq<Moment>, h': seq<Moment>, a: Checkpoint, b: Checkpoint,
                         va: View, vb: View, views: set<View>)
    requires Recorded(g, pageSize, h, h', a, b) && va in views && vb in views
    requires Saves(a, va) && Saves(b, vb)
    ensures Surviving(g, pageSize, h, h', views)
  {
    hide Resumable, Saves;
    forall i | |h| <= i < |h'|
      ensures Survives(g, pageSize, h'[i], views)
    {}
  }

  /** Dequeuing a dead page from a clean journal leaves the checkpoint's map as it is. */
  lemma ForgetSaves(ck: Checkpoint, tail: Page, head: Page, root: Page, log: Log, view: View)
    requires Saves(ck, view) && Clean(ck, false, tail, head, root, log) && tail != head
    requires ck.Checkpoint? ==> ck.root in ck.log && ck.root != Page.None
    requires Maps(log, root, view) && !Live(Metas(log), root, tail)
    ensures Saves(Forget(ck, tail), view)
  {
    hide Live, Maps;
    if ck.Checkpoint? {
      var log' := Forget(ck, tail).log;
      if root == ck.root && log == ck.log {
        DequeueStep(log, root, view, tail);
        if tail != root {
          assert log' == log - {tail};
        } else {
          GoodOf(log, root, view);
          if Holds(Metas(log), root) { RootLive(log, root); }
          MapsFiller(log, root, view);
          MapsFiller(log', root, view);
        }
      } else {
        assert log' == ck.log;
      }
    }
  }
}
