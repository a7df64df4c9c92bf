/** The radix tree that lives in page metadata.

    Every page carries the number of the sector it holds and 32 alt-pointers.  A lookup walks
    from the root page downwards through the bits of the target, and leaves the current page by
    its alt-pointer whenever the two sector numbers differ. */
module Tree {
  import opened Bits
  import opened Geometry

  datatype RawMeta = Meta(id: Sector, alts: seq<Page>)

  type Meta = m: RawMeta | |m.alts| == RADIX_DEPTH
    witness Meta(Sector(0), seq(RADIX_DEPTH, _ => Page.None))

  const EMPTY_ALTS: seq<Page> := seq(RADIX_DEPTH, _ => Page.None)

  /** Cleared metadata (all 0xff): no sector and no pointers. */
  const META_NONE: Meta := Meta(SECTOR_NONE, EMPTY_ALTS)

  type Store = map<Page, Meta>

  /** A page that holds a sector, as opposed to filler. */
  predicate Holds(m: Store, p: Page) {
    p in m && m[p].id != SECTOR_NONE
  }

  /** The page on which the subtree of the first `d` bits of `t` hangs, or None. */
  function Visit(m: Store, root: Page, t: Sector, d: nat): Page
    requires d <= RADIX_DEPTH
  {
    if d == 0 then (if Holds(m, root) then root else Page.None)
    else
      var p := Visit(m, root, t, d - 1);
      if !Holds(m, p) then Page.None
      else if Bit(t, d - 1) == Bit(m[p].id, d - 1) then p
      else m[p].alts[d - 1]
  }

  /** The page that currently holds sector `t`, or None. */
  function Find(m: Store, root: Page, t: Sector): Page {
    Visit(m, root, t, RADIX_DEPTH)
  }

  /** The alt-pointer that a new page for `t` gets at depth `d`: the page on which the
      sibling subtree hangs. */
  function Sibling(m: Store, root: Page, t: Sector, d: nat): Page
    requires d < RADIX_DEPTH
  {
    Visit(m, root, Flip(t, d), d + 1)
  }

  function Path(m: Store, root: Page, t: Sector): (r: seq<Page>)
    ensures |r| == RADIX_DEPTH
  {
    seq(RADIX_DEPTH, d requires 0 <= d < RADIX_DEPTH => Sibling(m, root, t, d))
  }

  /** The tree invariant: whatever hangs under a prefix is a stored page that holds a sector
      with that prefix. */
  ghost predicate Good(m: Store, root: Page) {
    Page.None !in m &&
    forall t: Sector, d: nat :: d <= RADIX_DEPTH && Visit(m, root, t, d) != Page.None ==>
      Holds(m, Visit(m, root, t, d)) && Agree(m[Visit(m, root, t, d)].id, t, d)
  }

  /** A page that some lookup passes through. */
  ghost predicate Live(m: Store, root: Page, p: Page) {
    exists t: Sector, d: nat :: d <= RADIX_DEPTH && p != Page.None && Visit(m, root, t, d) == p
  }

  // ---------------------------------------------------------------- prefixes

  /** A subtree depends on the prefix only. */
  lemma {:induction false} VisitPrefix(m: Store, root: Page, t: Sector, u: Sector, d: nat)
    requires d <= RADIX_DEPTH && Agree(t, u, d)
    ensures Visit(m, root, t, d) == Visit(m, root, u, d)
  {
    hide Bit, Flip;
    if d > 0 {
      VisitPrefix(m, root, t, u, d - 1);
      assert Bit(t, d - 1) == Bit(u, d - 1);
    }
  }

  /** Once a lookup is on the page of its own sector it stays there. */
  lemma {:induction false} VisitStays(m: Store, root: Page, t: Sector, d: nat, e: nat)
    requires d <= e <= RADIX_DEPTH
    requires Holds(m, Visit(m, root, t, d)) && Agree(m[Visit(m, root, t, d)].id, t, e)
    ensures Visit(m, root, t, e) == Visit(m, root, t, d)
  {
    hide Bit, Flip;
    if d < e {
      VisitStays(m, root, t, d, e - 1);
      assert Bit(m[Visit(m, root, t, d)].id, e - 1) == Bit(t, e - 1);
    }
  }

  /** Every page a lookup passes through is the current page of the sector it holds. */
  lemma LiveIsCurrent(m: Store, root: Page, p: Page)
    requires Good(m, root) && Live(m, root, p)
    ensures Holds(m, p) && Find(m, root, m[p].id) == p
  {
    hide Bit, Flip;
    var t: Sector, d: nat :| d <= RADIX_DEPTH && p != Page.None && Visit(m, root, t, d) == p;
    var u := m[p].id;
    VisitPrefix(m, root, t, u, d);
    VisitStays(m, root, u, d, RADIX_DEPTH);
  }

  lemma FindIsLive(m: Store, root: Page, t: Sector)
    requires Good(m, root) && Find(m, root, t) != Page.None
    ensures Live(m, root, Find(m, root, t))
    ensures Holds(m, Find(m, root, t)) && m[Find(m, root, t)].id == t
  {
    hide Bit, Flip;
    AgreeAll(m[Find(m, root, t)].id, t);
  }

  /** Away from `t`, a lookup is decided by the sibling at the first differing bit. */
  lemma SiblingVisit(m: Store, root: Page, t: Sector, u: Sector, d: nat)
    requires d < RADIX_DEPTH && Agree(t, u, d) && Bit(t, d) != Bit(u, d)
    ensures Sibling(m, root, t, d) == Visit(m, root, u, d + 1)
  {
    hide Bit, Flip;
    FlipAgrees(t, d);
    assert Agree(Flip(t, d), u, d + 1);
    VisitPrefix(m, root, Flip(t, d), u, d + 1);
  }

  // ---------------------------------------------------------------- writing a page

  /** The metadata of a page written for sector `t`. */
  function WriteMeta(m: Store, root: Page, t: Sector): Meta {
    Meta(t, Path(m, root, t))
  }

  /** A page written with the traced path owns the prefix of its sector at every depth and
      leaves every other subtree where it was. */
  lemma {:induction false} WriteVisit(m: Store, root: Page, n: Page, t: Sector, u: Sector, d: nat)
    requires Good(m, root) && n.Page? && n !in m && t != SECTOR_NONE && d <= RADIX_DEPTH
    ensures Visit(m[n := WriteMeta(m, root, t)], n, u, d)
         == if Agree(u, t, d) then n else Visit(m, root, u, d)
  {
    hide Bit, Flip;
    var m' := m[n := WriteMeta(m, root, t)];
    if d > 0 {
      WriteVisit(m, root, n, t, u, d - 1);
      if Agree(u, t, d - 1) {
        if Bit(u, d - 1) != Bit(t, d - 1) {
          SiblingVisit(m, root, t, u, d - 1);
          assert m'[n].alts[d - 1] == Sibling(m, root, t, d - 1);
        }
      } else {
        assert Visit(m, root, u, d - 1) != Page.None ==> Holds(m, Visit(m, root, u, d - 1));
      }
    }
  }

  /** Writing sector `t`: the new page is found for `t`, every other lookup is unchanged. */
  lemma WriteKeepsTree(m: Store, root: Page, n: Page, t: Sector)
    requires Good(m, root) && n.Page? && n !in m && t != SECTOR_NONE
    ensures var m' := m[n := WriteMeta(m, root, t)];
      Good(m', n) &&
      forall u: Sector :: Find(m', n, u) == if u == t then n else Find(m, root, u)
  {
    hide Bit, Flip;
    var m' := m[n := WriteMeta(m, root, t)];
    forall u: Sector, d: nat | d <= RADIX_DEPTH && Visit(m', n, u, d) != Page.None
      ensures Holds(m', Visit(m', n, u, d)) && Agree(m'[Visit(m', n, u, d)].id, u, d)
    {
      WriteVisit(m, root, n, t, u, d);
    }
    forall u: Sector
      ensures Find(m', n, u) == if u == t then n else Find(m, root, u)
    {
      WriteVisit(m, root, n, t, u, RADIX_DEPTH);
      if Agree(u, t, RADIX_DEPTH) {
        AgreeAll(u, t);
      }
    }
  }

  /** The root's own metadata is what tracing its sector again would give, so copying the root
      page together with its metadata is a rewrite of its sector. */
  lemma RootIsTraced(m: Store, root: Page)
    requires Good(m, root) && Holds(m, root)
    ensures m[root] == WriteMeta(m, root, m[root].id)
  {
    var id := m[root].id;
    forall d: nat | d < RADIX_DEPTH
      ensures m[root].alts[d] == Sibling(m, root, id, d)
    {
      RootSibling(m, root, d);
    }
    assert m[root].alts == Path(m, root, id);
  }

  lemma RootSibling(m: Store, root: Page, d: nat)
    requires Good(m, root) && Holds(m, root) && d < RADIX_DEPTH
    ensures m[root].alts[d] == Sibling(m, root, m[root].id, d)
  {
    hide Bit, Flip;
    var id := m[root].id;
    FlipAgrees(id, d);
    VisitStays(m, root, Flip(id, d), 0, d);
  }

  // ---------------------------------------------------------------- collecting a page

  /** A page that is not what a lookup of its own sector finds is dead: no lookup at all
      passes through it. */
  lemma StaleIsDead(m: Store, root: Page, p: Page)
    requires Good(m, root)
    requires !Holds(m, p) || Find(m, root, m[p].id) != p
    ensures !Live(m, root, p)
  {
    if Live(m, root, p) {
      LiveIsCurrent(m, root, p);
    }
  }

  /** Rewriting the sector of a page makes the old page dead. */
  lemma RewriteKillsSource(m: Store, root: Page, n: Page, src: Page)
    requires Good(m, root) && n.Page? && n !in m && Holds(m, src)
    ensures !Live(m[n := WriteMeta(m, root, m[src].id)], n, src)
  {
    var m' := m[n := WriteMeta(m, root, m[src].id)];
    WriteKeepsTree(m, root, n, m[src].id);
    StaleIsDead(m', n, src);
  }

  /** A write makes no dead page live, except the page written. */
  lemma WriteLive(m: Store, root: Page, n: Page, t: Sector, p: Page)
    requires Good(m, root) && n.Page? && n !in m && t != SECTOR_NONE
    requires Live(m[n := WriteMeta(m, root, t)], n, p)
    ensures p == n || (Live(m, root, p) && Holds(m, p) && m[p].id != t)
  {
    hide Bit, Flip;
    var m' := m[n := WriteMeta(m, root, t)];
    WriteKeepsTree(m, root, n, t);
    LiveIsCurrent(m', n, p);
    var u: Sector, d: nat :| d <= RADIX_DEPTH && p != Page.None && Visit(m', n, u, d) == p;
    WriteVisit(m, root, n, t, u, d);
  }

  /** Lookups read live pages only: two stores that agree on them hold the same tree. */
  lemma FrameVisit(m: Store, m': Store, root: Page, t: Sector, d: nat)
    requires Good(m, root) && d <= RADIX_DEPTH && Page.None !in m'
    requires forall p :: Live(m, root, p) ==> p in m' && m'[p] == m[p]
    requires Holds(m', root) ==> Holds(m, root)
    ensures Visit(m', root, t, d) == Visit(m, root, t, d)
  {
    hide Bit;
    var v := Visit(m, root, t, d);
    if v != Page.None {
      assert Live(m, root, v);
    }
    if d > 0 {
      FrameVisit(m, m', root, t, d - 1);
      var p := Visit(m, root, t, d - 1);
      if p != Page.None {
        assert Live(m, root, p);
      }
    }
  }

  lemma Frame(m: Store, m': Store, root: Page)
    requires Good(m, root) && Page.None !in m'
    requires forall p :: Live(m, root, p) ==> p in m' && m'[p] == m[p]
    requires Holds(m', root) ==> Holds(m, root)
    ensures Good(m', root)
    ensures forall t: Sector :: Find(m', root, t) == Find(m, root, t)
    ensures forall p :: Live(m', root, p) <==> Live(m, root, p)
  {
    forall t: Sector, d: nat | d <= RADIX_DEPTH
      ensures Visit(m', root, t, d) == Visit(m, root, t, d)
    {
      FrameVisit(m, m', root, t, d);
    }
    forall t: Sector, d: nat | d <= RADIX_DEPTH && Visit(m, root, t, d) != Page.None
      ensures Holds(m', Visit(m, root, t, d)) && Agree(m'[Visit(m, root, t, d)].id, t, d)
    {
      assert Live(m, root, Visit(m, root, t, d));
    }
  }

  /** Without a root page that holds a sector, nothing is found. */
  lemma {:induction false} EmptyTree(m: Store, root: Page, t: Sector, d: nat)
    requires !Holds(m, root) && Page.None !in m && d <= RADIX_DEPTH
    ensures Visit(m, root, t, d) == Page.None
  {
    hide Bit, Flip;
    if d > 0 {
      EmptyTree(m, root, t, d - 1);
    }
  }

  lemma EmptyIsGood(m: Store, root: Page)
    requires !Holds(m, root) && Page.None !in m
    ensures Good(m, root)
    ensures forall t: Sector :: Find(m, root, t) == Page.None
    ensures forall p :: !Live(m, root, p)
  {
    forall t: Sector, d: nat | d <= RADIX_DEPTH
      ensures Visit(m, root, t, d) == Page.None
    {
      EmptyTree(m, root, t, d);
    }
  }

  // ---------------------------------------------------------------- deleting a sector

  /** The level at which a deletion cuts: the deepest one with a sibling. */
  ghost predicate CutLevel(path: seq<Page>, level: nat)
    requires |path| == RADIX_DEPTH
  {
    level < RADIX_DEPTH && path[level] != Page.None &&
    forall k :: level < k < RADIX_DEPTH ==> path[k] == Page.None
  }

  /** The metadata given to the cousin: the victim's path above the cut, nothing at the cut,
      the cousin's own pointers below it. */
  function SpliceMeta(path: seq<Page>, level: nat, cousin: Meta): Meta
    requires |path| == RADIX_DEPTH && level < RADIX_DEPTH
  {
    Meta(cousin.id, path[..level] + [Page.None] + cousin.alts[level + 1..])
  }

  /** Below the cut only the victim lived. */
  lemma AloneBelowCut(m: Store, root: Page, t: Sector, level: nat, u: Sector)
    requires Good(m, root) && CutLevel(Path(m, root, t), level)
    requires Agree(u, t, level + 1) && u != t
    ensures Find(m, root, u) == Page.None
  {
    hide Bit, Flip;
    var k := FirstDifference(t, u, level + 1);
    SiblingVisit(m, root, t, u, k);
    assert Path(m, root, t)[k] == Page.None;
    VisitNone(m, root, u, k + 1, RADIX_DEPTH);
  }

  lemma {:induction false} VisitNone(m: Store, root: Page, t: Sector, d: nat, e: nat)
    requires d <= e <= RADIX_DEPTH && Page.None !in m && Visit(m, root, t, d) == Page.None
    ensures Visit(m, root, t, e) == Page.None
  {
    hide Bit, Flip;
    if d < e {
      VisitNone(m, root, t, d, e - 1);
    }
  }

  lemma FirstDifference(t: Sector, u: Sector, from: nat) returns (k: nat)
    requires from <= RADIX_DEPTH && Agree(t, u, from) && t != u
    ensures from <= k < RADIX_DEPTH && Agree(t, u, k) && Bit(t, k) != Bit(u, k)
  {
    hide Bit, Flip;
    k := from;
    while k < RADIX_DEPTH && Bit(t, k) == Bit(u, k)
      invariant from <= k <= RADIX_DEPTH && Agree(t, u, k)
    {
      k := k + 1;
    }
    if k == RADIX_DEPTH {
      AgreeAll(t, u);
    }
  }

  lemma CousinPrefix(m: Store, root: Page, t: Sector, level: nat)
    requires Good(m, root) && level < RADIX_DEPTH && Sibling(m, root, t, level) != Page.None
    ensures var cousin := Sibling(m, root, t, level);
      Holds(m, cousin) && Agree(m[cousin].id, t, level) && Bit(m[cousin].id, level) != Bit(t, level)
  {
    hide Bit;
    FlipAgrees(t, level);
    var id := m[Sibling(m, root, t, level)].id;
    assert Agree(id, Flip(t, level), level + 1);
    assert Bit(id, level) == Bit(Flip(t, level), level);
    forall i: nat | i < level ensures Bit(id, i) == Bit(t, i) {
      assert Bit(id, i) == Bit(Flip(t, level), i);
    }
  }

  /** A lookup that follows the cousin's sector below the cut leaves by the cousin's own
      alt-pointer. */
  lemma BelowCut(m: Store, root: Page, t: Sector, level: nat, u: Sector, e: nat)
    requires Good(m, root) && level < e < RADIX_DEPTH && Sibling(m, root, t, level) != Page.None
    requires var id := m[Sibling(m, root, t, level)].id; Agree(u, id, e) && Bit(u, e) != Bit(id, e)
    ensures Visit(m, root, u, e + 1) == m[Sibling(m, root, t, level)].alts[e]
    ensures !Agree(u, t, level + 1)
  {
    hide Bit;
    CousinPrefix(m, root, t, level);
    assert Bit(u, level) != Bit(t, level);
    SiblingVisit(m, root, t, u, level);
    VisitStays(m, root, u, level + 1, e);
  }

  /** Where the lookup of `u` goes when it leaves the cousin at depth `e`. */
  lemma TrimBranch(m: Store, root: Page, t: Sector, level: nat, u: Sector, e: nat)
    requires Good(m, root) && e < RADIX_DEPTH && CutLevel(Path(m, root, t), level)
    requires var id := m[Sibling(m, root, t, level)].id; Agree(u, id, e) && Bit(u, e) != Bit(id, e)
    ensures SpliceMeta(Path(m, root, t), level, m[Sibling(m, root, t, level)]).alts[e]
         == if e >= level && Agree(u, t, level + 1) then Page.None else Visit(m, root, u, e + 1)
  {
    hide Bit;
    CousinPrefix(m, root, t, level);
    if e < level {
      SiblingVisit(m, root, t, u, e);
    } else if e == level {
      assert Agree(u, t, level + 1);
    } else {
      BelowCut(m, root, t, level, u, e);
    }
  }

  /** What hangs where after the cousin has been rewritten with the spliced path. */
  lemma {:induction false} TrimVisit(m: Store, root: Page, n: Page, t: Sector, level: nat, u: Sector, d: nat)
    requires Good(m, root) && n.Page? && n !in m && d <= RADIX_DEPTH
    requires CutLevel(Path(m, root, t), level)
    ensures var c := m[Sibling(m, root, t, level)];
      Visit(m[n := SpliceMeta(Path(m, root, t), level, c)], n, u, d)
        == if Agree(u, c.id, d) then n
           else if d > level && Agree(u, t, level + 1) then Page.None
           else Visit(m, root, u, d)
  {
    hide Bit;
    var c := m[Sibling(m, root, t, level)];
    var m' := m[n := SpliceMeta(Path(m, root, t), level, c)];
    CousinPrefix(m, root, t, level);
    if d > 0 {
      var e := d - 1;
      TrimVisit(m, root, n, t, level, u, e);
      if Agree(u, c.id, e) {
        if Bit(u, e) != Bit(c.id, e) {
          TrimBranch(m, root, t, level, u, e);
        }
      } else {
        TrimElsewhere(m, root, t, level, u, e);
        var p := Visit(m, root, u, e);
        assert p != Page.None ==> Holds(m, p);
      }
    }
  }

  /** A lookup that left the cousin's path above the cut is not in the victim's subtree. */
  lemma TrimElsewhere(m: Store, root: Page, t: Sector, level: nat, u: Sector, e: nat)
    requires Good(m, root) && e < RADIX_DEPTH && CutLevel(Path(m, root, t), level)
    requires !Agree(u, m[Sibling(m, root, t, level)].id, e)
    ensures e <= level ==> !Agree(u, t, level + 1)
  {
    hide Bit;
    CousinPrefix(m, root, t, level);
  }

  /** Deleting sector `t`: it is found no more, its cousin is found on the new page, every
      other lookup is unchanged. */
  lemma TrimKeepsTree(m: Store, root: Page, n: Page, t: Sector, level: nat)
    requires Good(m, root) && n.Page? && n !in m && CutLevel(Path(m, root, t), level)
    ensures var c := m[Sibling(m, root, t, level)];
      var m' := m[n := SpliceMeta(Path(m, root, t), level, c)];
      Good(m', n) && c.id != t && Find(m, root, c.id) == Sibling(m, root, t, level) &&
      forall u: Sector :: Find(m', n, u)
        == if u == t then Page.None else if u == c.id then n else Find(m, root, u)
  {
    hide Bit, Flip;
    var cousin := Sibling(m, root, t, level);
    var c := m[cousin];
    var m' := m[n := SpliceMeta(Path(m, root, t), level, c)];
    CousinPrefix(m, root, t, level);
    assert Live(m, root, cousin);
    LiveIsCurrent(m, root, cousin);
    forall u: Sector, d: nat | d <= RADIX_DEPTH && Visit(m', n, u, d) != Page.None
      ensures Holds(m', Visit(m', n, u, d)) && Agree(m'[Visit(m', n, u, d)].id, u, d)
    {
      TrimVisit(m, root, n, t, level, u, d);
    }
    forall u: Sector
      ensures Find(m', n, u) == if u == t then Page.None else if u == c.id then n else Find(m, root, u)
    {
      TrimVisit(m, root, n, t, level, u, RADIX_DEPTH);
      if Agree(u, c.id, RADIX_DEPTH) {
        AgreeAll(u, c.id);
      } else if u != t && Agree(u, t, level + 1) {
        AloneBelowCut(m, root, t, level, u);
      }
    }
  }

  /** A deletion makes no dead page live, except the page written; the victim's page dies. */
  lemma TrimLive(m: Store, root: Page, n: Page, t: Sector, level: nat, p: Page)
    requires Good(m, root) && n.Page? && n !in m && CutLevel(Path(m, root, t), level)
    requires Live(m[n := SpliceMeta(Path(m, root, t), level, m[Sibling(m, root, t, level)])], n, p)
    ensures p == n || (Live(m, root, p) && Holds(m, p) && m[p].id != t)
  {
    hide Bit, Flip;
    var m' := m[n := SpliceMeta(Path(m, root, t), level, m[Sibling(m, root, t, level)])];
    TrimKeepsTree(m, root, n, t, level);
    LiveIsCurrent(m', n, p);
    var u: Sector, d: nat :| d <= RADIX_DEPTH && p != Page.None && Visit(m', n, u, d) == p;
    TrimVisit(m, root, n, t, level, u, d);
  }

  /** A sector whose path has no sibling at all is the only one in the tree. */
  lemma NoSiblingMeansAlone(m: Store, root: Page, t: Sector, u: Sector)
    requires Good(m, root) && u != t
    requires forall k :: 0 <= k < RADIX_DEPTH ==> Path(m, root, t)[k] == Page.None
    ensures Find(m, root, u) == Page.None
  {
    hide Bit, Flip;
    var k := FirstDifference(t, u, 0);
    SiblingVisit(m, root, t, u, k);
    assert Path(m, root, t)[k] == Page.None;
    VisitNone(m, root, u, k + 1, RADIX_DEPTH);
  }

  // ---------------------------------------------------------------- tracing a path

  /** One level of a trace: the pointer recorded is the sibling, and the page moved to is what
      hangs one level further down. */
  lemma TraceStep(m: Store, root: Page, t: Sector, d: nat)
    requires Good(m, root) && d < RADIX_DEPTH && Visit(m, root, t, d) != Page.None
    ensures var p := Visit(m, root, t, d);
      Holds(m, p) &&
      if Differ(t, m[p].id, d)
      then Sibling(m, root, t, d) == p && Visit(m, root, t, d + 1) == m[p].alts[d]
      else Sibling(m, root, t, d) == m[p].alts[d] && Visit(m, root, t, d + 1) == p
  {
    hide Bit, Flip, Differ;
    FlipAgrees(t, d);
    DifferIsBit(t, m[Visit(m, root, t, d)].id, d);
    VisitPrefix(m, root, t, Flip(t, d), d);
  }

  /** Once a trace has run out of pages, there is nothing further down. */
  lemma TraceEnds(m: Store, root: Page, t: Sector, d: nat)
    requires Good(m, root) && d <= RADIX_DEPTH && Visit(m, root, t, d) == Page.None
    ensures Find(m, root, t) == Page.None
    ensures forall k: nat :: d <= k < RADIX_DEPTH ==> Sibling(m, root, t, k) == Page.None
  {
    hide Bit, Flip;
    VisitNone(m, root, t, d, RADIX_DEPTH);
    forall k: nat | d <= k < RADIX_DEPTH
      ensures Sibling(m, root, t, k) == Page.None
    {
      FlipAgrees(t, k);
      VisitPrefix(m, root, t, Flip(t, k), d);
      VisitNone(m, root, Flip(t, k), d, k + 1);
    }
  }
}
