/** Why collection keeps the journal from overflowing: the queue of pages between tail and head on
    a chip without bad blocks, reduced to the sector that each page holds. */
module Space {
  import opened Bits
  import opened Geometry
  import opened PageNumbers

  datatype Slot = Filler | Of(sector: Sector)

  /** When a page joined the queue: the number of mapped sectors then, the pages written, copied
      and removed until then, and the length of the queue. */
  datatype Birth = Birth(mapped: nat, written: nat, copied: nat, removed: nat, length: nat)

  datatype Entry = Entry(slot: Slot, birth: Birth)

  /** The queue from tail to head and the mapped sectors.  The rest is history: when each page
      joined, the pages written, copied and removed so far, and the last time a page was written
      while the queue was no longer than the map's capacity. */
  datatype Queue = Queue(pages: seq<Entry>, mapped: set<Sector>, written: nat, copied: nat, removed: nat, base: Birth)

  /** The map's capacity, the reserve that collection works with, and the number of collection
      steps that go with every page written. */
  datatype Limits = Limits(capacity: nat, reserve: nat, steps: nat) {
    function Bound(): nat {
      capacity + reserve + 1
    }

    predicate Ok() {
      capacity > 0 && steps > 0 && Bound() < (reserve + 1) * steps
    }
  }

  function Now(q: Queue): Birth {
    Birth(|q.mapped|, q.written, q.copied, q.removed, |q.pages|)
  }

  function Sectors(pages: seq<Entry>): set<Sector> {
    set e | e in pages && e.slot.Of? :: e.slot.sector
  }

  /** The tail page is the current page of its sector. */
  predicate TailLive(q: Queue)
    requires q.pages != []
  {
    var s := q.pages[0].slot;
    s.Of? && s.sector in q.mapped && s.sector !in Sectors(q.pages[1..])
  }

  // ---------------------------------------------------------------- operations

  /** The tail page leaves. */
  function Removed(q: Queue): Queue
    requires q.pages != []
  {
    q.(pages := q.pages[1..], removed := q.removed + 1)
  }

  /** The tail page leaves, and joins again at the head if it is still current. */
  function Collect(q: Queue): Queue {
    if q.pages == [] then q
    else
      var rest := Removed(q);
      if TailLive(q) then
        rest.(pages := rest.pages + [Entry(q.pages[0].slot, Now(rest))], copied := q.copied + 1)
      else rest
  }

  /** A page joins with new data or new metadata. */
  function Append(l: Limits, q: Queue, slot: Slot, mapped: set<Sector>): Queue {
    q.(pages := q.pages + [Entry(slot, Now(q).(mapped := |mapped|))], mapped := mapped, written := q.written + 1,
       base := if |q.pages| <= l.capacity then Now(q) else q.base)
  }

  function Empty(q: Queue): Queue {
    q.(pages := [], mapped := {})
  }

  function Start(): Queue {
    Queue([], {}, 0, 0, 0, Birth(0, 0, 0, 0, 0))
  }

  // ---------------------------------------------------------------- the invariant

  /** The sectors whose current pages are in front of page `i` of the queue. */
  function LiveAhead(mapped: set<Sector>, pages: seq<Entry>, i: nat): set<Sector>
    requires i <= |pages|
  {
    mapped - Sectors(pages[i..])
  }

  /** What a page with `ahead` pages in front of it, `live` of them current, and `behind` from
      itself on remembers: at its birth there were as many current pages as have been copied since
      and as are still ahead of it; the pages ahead of it have been removed since or are still
      there; and all that joined since is behind it. */
  ghost predicate Remembers(l: Limits, b: Birth, written: nat, copied: nat, removed: nat, ahead: nat, live: nat,
                            behind: nat) {
    b.mapped <= l.capacity && b.length <= l.Bound() &&
    b.written <= written && b.copied <= copied && b.removed <= removed &&
    copied - b.copied + live <= b.mapped &&
    removed - b.removed + ahead == b.length &&
    behind == (copied - b.copied) + (written - b.written)
  }

  /** Since the base, and since the birth of every page that joined after it, collection has kept
      up with the pages written. */
  ghost predicate KeepsUp(l: Limits, b: Birth, base: Birth, written: nat, removed: nat, ahead: nat) {
    if b.written <= base.written then removed - base.removed + ahead <= base.length
    else (written - b.written - 1) * l.steps <= removed - b.removed
  }

  ghost predicate PageOk(l: Limits, q: Queue, i: nat)
    requires i < |q.pages|
  {
    Remembers(l, q.pages[i].birth, q.written, q.copied, q.removed, i, |LiveAhead(q.mapped, q.pages, i)|,
      |q.pages| - i) &&
    KeepsUp(l, q.pages[i].birth, q.base, q.written, q.removed, i)
  }

  ghost predicate BaseOk(l: Limits, q: Queue) {
    |q.mapped| <= l.capacity && (q.mapped == {} ==> |q.pages| <= 1) &&
    q.base.length <= l.capacity && q.base.written <= q.written && q.base.removed <= q.removed &&
    (q.pages != [] ==> q.base.written < q.written) &&
    |q.pages| <= q.base.length + (q.written - q.base.written) &&
    (q.written - q.base.written - 1) * l.steps <= q.removed - q.base.removed
  }

  ghost predicate Inv(l: Limits, q: Queue) {
    |q.pages| <= l.Bound() && BaseOk(l, q) && forall i :: 0 <= i < |q.pages| ==> PageOk(l, q, i)
  }

  /** The key step: the queue is no longer than the current pages there were when its tail page
      joined, and the pages written since. */
  lemma LengthByTail(l: Limits, q: Queue)
    requires Inv(l, q) && q.pages != []
    ensures |q.pages| <= q.pages[0].birth.mapped + (q.written - q.pages[0].birth.written)
  {
    assert PageOk(l, q, 0);
  }

  /** The queue stays within its bound. */
  lemma Bounded(l: Limits, q: Queue)
    requires l.Ok() && BaseOk(l, q) && (q.pages != [] ==> PageOk(l, q, 0))
    ensures |q.pages| <= l.Bound()
  {
    if q.pages != [] {
      var b := q.pages[0].birth;
      if b.written <= q.base.written {
        Quotient(q.written - q.base.written - 1, l.steps, l.reserve, q.base.length);
      } else {
        Quotient(q.written - b.written - 1, l.steps, l.reserve, b.length);
      }
    }
  }

  lemma Quotient(n: int, m: nat, k: nat, length: nat)
    requires n * m <= length < (k + 1) * m && m > 0
    ensures n <= k
  {
    if n > k { Times(k + 1, n, m); }
  }

  lemma Times(a: nat, b: nat, m: nat)
    requires a <= b
    ensures a * m <= b * m
  {}

  // ---------------------------------------------------------------- collection

  lemma SectorsAppend(a: seq<Entry>, e: Entry)
    ensures Sectors(a + [e]) == Sectors(a) + (if e.slot.Of? then {e.slot.sector} else {})
  {
    assert e in a + [e];
    forall s | s in Sectors(a)
      ensures s in Sectors(a + [e])
    {
      var x :| x in a && x.slot.Of? && x.slot.sector == s;
      assert x in a + [e];
    }
  }

  lemma SectorsSuffix(a: seq<Entry>, i: nat, j: nat)
    requires i <= j <= |a|
    ensures Sectors(a[j..]) <= Sectors(a[i..])
  {
    assert forall e :: e in a[j..] ==> e in a[i..];
  }

  /** The current pages ahead of page `i` when the tail page has left. */
  lemma CollectAhead(q: Queue, i: nat)
    requires 0 < i < |q.pages|
    ensures i - 1 < |Collect(q).pages|
    ensures |LiveAhead(Collect(q).mapped, Collect(q).pages, i - 1)| + (if TailLive(q) then 1 else 0) ==
      |LiveAhead(q.mapped, q.pages, i)|
  {
    var r := Collect(q);
    var e := q.pages[0];
    if TailLive(q) {
      var back := Entry(e.slot, Now(Removed(q)));
      assert r.pages[i - 1..] == q.pages[i..] + [back];
      SectorsAppend(q.pages[i..], back);
      SectorsSuffix(q.pages, 1, i);
      hide Sectors;
      assert LiveAhead(r.mapped, r.pages, i - 1) == LiveAhead(q.mapped, q.pages, i) - {e.slot.sector};
    } else {
      assert r.pages[i - 1..] == q.pages[i..];
    }
  }

  /** Page `i` of the queue when the tail page has left, perhaps to join again. */
  lemma CollectPage(l: Limits, q: Queue, i: nat)
    requires Inv(l, q) && 0 < i < |q.pages|
    ensures i - 1 < |Collect(q).pages| && PageOk(l, Collect(q), i - 1)
  {
    assert PageOk(l, q, i);
    CollectAhead(q, i);
    CollectCounts(q, i);
    hide Inv, LiveAhead, Sectors, TailLive, Collect;
  }

  lemma CollectCounts(q: Queue, i: nat)
    requires 0 < i < |q.pages|
    ensures var r := Collect(q);
      |r.pages| == |q.pages| - 1 + (if TailLive(q) then 1 else 0) && r.pages[i - 1] == q.pages[i] &&
      r.mapped == q.mapped && r.written == q.written && r.base == q.base &&
      r.copied == q.copied + (if TailLive(q) then 1 else 0) && r.removed == q.removed + 1
  {
    hide TailLive;
  }

  lemma CopyAhead(q: Queue)
    requires q.pages != [] && TailLive(q)
    ensures |Collect(q).pages| == |q.pages|
    ensures |LiveAhead(Collect(q).mapped, Collect(q).pages, |q.pages| - 1)| + 1 == |q.mapped|
  {
    var r := Collect(q);
    var n := |q.pages| - 1;
    assert r.pages[n..] == [] + [r.pages[n]];
    SectorsAppend([], r.pages[n]);
    hide Sectors;
    assert LiveAhead(r.mapped, r.pages, n) == q.mapped - {q.pages[0].slot.sector};
  }

  /** The tail page that has joined again. */
  lemma CollectCopy(l: Limits, q: Queue)
    requires Inv(l, q) && q.pages != [] && TailLive(q)
    ensures |Collect(q).pages| == |q.pages| && PageOk(l, Collect(q), |q.pages| - 1)
  {
    CopyAhead(q);
    assert q.pages[0].birth.written <= q.written && |q.mapped| <= l.capacity && q.base.written < q.written by {
      assert PageOk(l, q, 0);
    }
    hide Inv, LiveAhead, Sectors, TailLive;
    assert Collect(q).pages[|q.pages| - 1].birth == Now(Removed(q));
  }

  lemma CollectBase(l: Limits, q: Queue)
    requires BaseOk(l, q) && q.pages != []
    ensures BaseOk(l, Collect(q)) && |Collect(q).pages| <= |q.pages| && Collect(q).removed == q.removed + 1
    ensures |Collect(q).pages| == if TailLive(q) then |q.pages| else |q.pages| - 1
  {
    hide TailLive;
  }

  lemma CollectKeeps(l: Limits, q: Queue)
    requires Inv(l, q)
    ensures Inv(l, Collect(q))
    ensures q.pages != [] ==> Collect(q).removed == q.removed + 1
  {
    hide PageOk, BaseOk, TailLive;
    if q.pages != [] {
      CollectBase(l, q);
      forall i | 0 <= i < |Collect(q).pages|
        ensures PageOk(l, Collect(q), i)
      {
        if i + 1 < |q.pages| { CollectPage(l, q, i + 1); } else { CollectCopy(l, q); }
      }
    }
  }

  /** Collection since `o` has given no page written before it an excuse. */
  ghost predicate SettledBy(l: Limits, o: Queue, q: Queue) {
    o.removed <= q.removed && o.written == q.written && o.base == q.base && o.mapped == q.mapped &&
    forall e :: e in q.pages ==>
      e.birth.written <= q.base.written || e.birth.written == q.written ||
      (q.written - e.birth.written - 1) * l.steps <= o.removed - e.birth.removed
  }

  lemma SettledSelf(l: Limits, q: Queue)
    requires Inv(l, q)
    ensures SettledBy(l, q, q)
  {
    forall e | e in q.pages
      ensures e.birth.written <= q.base.written ||
        (q.written - e.birth.written - 1) * l.steps <= q.removed - e.birth.removed
    {
      var i :| 0 <= i < |q.pages| && q.pages[i] == e;
      assert PageOk(l, q, i);
    }
  }

  lemma SettledCollect(l: Limits, o: Queue, q: Queue)
    requires SettledBy(l, o, q)
    ensures SettledBy(l, o, Collect(q))
  {
    var r := Collect(q);
    forall e | e in r.pages
      ensures e in q.pages || e.birth.written == q.written
    {}
  }

  // ---------------------------------------------------------------- writing

  /** Since `o` the queue has had all its collection steps, unless it is within the map's
      capacity. */
  ghost predicate CaughtUp(l: Limits, o: Queue, q: Queue) {
    SettledBy(l, o, q) && BaseOk(l, o) && (|q.pages| <= l.capacity || q.removed >= o.removed + l.steps)
  }

  lemma Smaller<T>(a: set<T>, b: set<T>)
    requires a <= b
    ensures |a| <= |b|
  {
    assert b == a + (b - a);
  }

  lemma AppendAhead(l: Limits, q: Queue, slot: Slot, mapped: set<Sector>, i: nat)
    requires i < |q.pages| && mapped <= q.mapped + (if slot.Of? then {slot.sector} else {})
    ensures var r := Append(l, q, slot, mapped); |LiveAhead(r.mapped, r.pages, i)| <= |LiveAhead(q.mapped, q.pages, i)|
  {
    var r := Append(l, q, slot, mapped);
    var e := r.pages[|q.pages|];
    assert r.pages[i..] == q.pages[i..] + [e];
    SectorsAppend(q.pages[i..], e);
    hide Sectors;
    Smaller(LiveAhead(r.mapped, r.pages, i), LiveAhead(q.mapped, q.pages, i));
  }

  /** Pages ahead of the one that joins. */
  lemma AppendRemembers(l: Limits, q: Queue, slot: Slot, mapped: set<Sector>, i: nat)
    requires i < |q.pages| && PageOk(l, q, i)
    requires mapped <= q.mapped + (if slot.Of? then {slot.sector} else {})
    ensures var r := Append(l, q, slot, mapped);
      Remembers(l, r.pages[i].birth, r.written, r.copied, r.removed, i, |LiveAhead(r.mapped, r.pages, i)|,
        |r.pages| - i)
  {
    AppendAhead(l, q, slot, mapped, i);
    hide LiveAhead, KeepsUp;
  }

  lemma AppendKeepsUp(l: Limits, o: Queue, q: Queue, slot: Slot, mapped: set<Sector>, i: nat)
    requires i < |q.pages| && PageOk(l, q, i) && CaughtUp(l, o, q)
    ensures var r := Append(l, q, slot, mapped); KeepsUp(l, r.pages[i].birth, r.base, r.written, r.removed, i)
  {
    var b := q.pages[i].birth;
    assert q.pages[i] in q.pages;
    assert (q.written - b.written) * l.steps == (q.written - b.written - 1) * l.steps + l.steps;
  }

  lemma AppendBase(l: Limits, o: Queue, q: Queue, slot: Slot, mapped: set<Sector>)
    requires BaseOk(l, q) && CaughtUp(l, o, q) && l.Ok() && |mapped| <= l.capacity && (mapped != {} || q.pages == [])
    ensures BaseOk(l, Append(l, q, slot, mapped))
  {
    assert (q.written - q.base.written) * l.steps == (q.written - q.base.written - 1) * l.steps + l.steps;
  }

  /** The page that joins. */
  lemma AppendLast(l: Limits, q: Queue, slot: Slot, mapped: set<Sector>)
    requires Inv(l, q) && |mapped| <= l.capacity
    ensures PageOk(l, Append(l, q, slot, mapped), |q.pages|)
  {
    var r := Append(l, q, slot, mapped);
    Smaller(LiveAhead(r.mapped, r.pages, |q.pages|), mapped);
  }

  lemma AppendKeeps(l: Limits, o: Queue, q: Queue, slot: Slot, mapped: set<Sector>)
    requires Inv(l, q) && CaughtUp(l, o, q) && l.Ok() && |mapped| <= l.capacity && (mapped != {} || q.pages == [])
    requires mapped <= q.mapped + (if slot.Of? then {slot.sector} else {})
    ensures Inv(l, Append(l, q, slot, mapped))
  {
    hide BaseOk, PageOk, CaughtUp, LiveAhead;
    var r := Append(l, q, slot, mapped);
    AppendBase(l, o, q, slot, mapped);
    AppendLast(l, q, slot, mapped);
    forall i | 0 <= i < |q.pages|
      ensures PageOk(l, r, i)
    {
      AppendRemembers(l, q, slot, mapped, i);
      AppendKeepsUp(l, o, q, slot, mapped, i);
      assert PageOk(l, r, i) by { PageIs(l, r, i); }
    }
    Bounded(l, r);
  }

  lemma PageIs(l: Limits, r: Queue, i: nat)
    requires i < |r.pages|
    requires Remembers(l, r.pages[i].birth, r.written, r.copied, r.removed, i, |LiveAhead(r.mapped, r.pages, i)|,
      |r.pages| - i)
    requires KeepsUp(l, r.pages[i].birth, r.base, r.written, r.removed, i)
    ensures PageOk(l, r, i)
  {}

  lemma EmptyKeeps(l: Limits, q: Queue)
    requires Inv(l, q)
    ensures Inv(l, Empty(q))
  {}

  lemma TidyCaughtUp(l: Limits, q: Queue)
    requires Inv(l, q) && q.pages == []
    ensures CaughtUp(l, q, q) && |q.mapped| <= l.capacity
  {}

  lemma Room(l: Limits, q: Queue, s: Sector)
    requires Inv(l, q)
    ensures |q.mapped| <= l.capacity
    ensures s in q.mapped || |q.mapped| < l.capacity ==> |q.mapped + {s}| <= l.capacity
  {
    hide PageOk;
    if s in q.mapped { assert q.mapped + {s} == q.mapped; }
  }

  /** Looser limits, with as many collection steps, are kept as well. */
  lemma Loosened(l: Limits, l': Limits, o: Queue, q: Queue)
    requires Inv(l, q) && l.capacity <= l'.capacity && l.reserve <= l'.reserve && l.steps == l'.steps
    ensures Inv(l', q) && (CaughtUp(l, o, q) ==> CaughtUp(l', o, q))
  {
    forall i | 0 <= i < |q.pages|
      ensures PageOk(l', q, i)
    {
      assert PageOk(l, q, i);
    }
  }

  /** The limits that the map sets for a journal of this capacity. */
  function MapLimits(g: Geo, capacity: nat, gcRatio: nat): Limits {
    Limits(MapCapacity(g, capacity, gcRatio), capacity / (gcRatio + 1), gcRatio + 1)
  }
}
