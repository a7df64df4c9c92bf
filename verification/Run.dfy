/** Whole runs: what any sequence of operations leaves in the map, and what a power cut at any
    moment of the run leaves of it. */
module Run {
  import opened Bits
  import opened Geometry
  import opened PageNumbers
  import opened Nand
  import opened JournalState
  import opened Durability
  import opened MapState
  import opened Resumption
  import opened Journal
  import opened Map
  import opened Occupancy
  import opened Wear

  datatype Op = Write(sector: Sector, data: PageData) | Trim(sector: Sector) | Read(sector: Sector) | Gc | Sync | Clear

  predicate Sensible(op: Op) {
    op.Write? ==> op.sector != SECTOR_NONE
  }

  /** What an operation does to a plain map from sectors to data. */
  function Apply(v: View, op: Op): View {
    match op
    case Write(s, d) => v[s := d]
    case Trim(s) => v - {s}
    case Clear => map[]
    case _ => v
  }

  function After(v: View, ops: seq<Op>): View {
    if ops == [] then v else Apply(After(v, ops[..|ops| - 1]), ops[|ops| - 1])
  }

  /** The number of operations up to and including the last synchronisation. */
  function Synced(ops: seq<Op>): (k: nat)
    ensures k <= |ops|
  {
    if ops == [] then 0 else if ops[|ops| - 1].Sync? then |ops| else Synced(ops[..|ops| - 1])
  }

  /** The maps after `lo` to `hi` operations. */
  ghost function Prefixes(v: View, ops: seq<Op>, lo: nat, hi: nat): set<View>
    requires lo <= hi <= |ops|
  {
    set k | lo <= k <= hi :: After(v, ops[..k])
  }

  function Lookup(v: View, s: Sector, pageSize: nat): PageData {
    if s in v then v[s] else Blank(pageSize)
  }

  lemma AfterNext(v: View, ops: seq<Op>, i: nat)
    requires i < |ops|
    ensures After(v, ops[..i + 1]) == Apply(After(v, ops[..i]), ops[i])
    ensures Synced(ops[..i + 1]) == if ops[i].Sync? then i + 1 else Synced(ops[..i])
    ensures Synced(ops[..i]) <= Synced(ops[..i + 1])
  {
    assert ops[..i + 1][..i] == ops[..i];
  }

  lemma PrefixesHave(v: View, ops: seq<Op>, lo: nat, hi: nat, k: nat)
    requires lo <= k <= hi <= |ops|
    ensures After(v, ops[..k]) in Prefixes(v, ops, lo, hi)
  {}

  lemma PrefixesGrow(v: View, ops: seq<Op>, lo: nat, hi: nat, hi': nat)
    requires lo <= hi <= hi' <= |ops|
    ensures Prefixes(v, ops, lo, hi) <= Prefixes(v, ops, lo, hi')
  {}

  /** The map is full and has no room for another sector. */
  ghost predicate Refused(m: Map, op: Op, r: Outcome)
    reads m, m.journal
  {
    r == Err(MapFull) && op.Write? && op.sector !in m.view && m.journal.g.Ok() && |m.view| >= m.Capacity()
  }

  /** The map can be used as if nothing had happened: a write has been refused because the map is full,
      or a read has failed. */
  predicate Harmless(op: Op, r: Outcome) {
    r == Ok || r == Err(MapFull) || op.Read?
  }

  /** What an operation has done. */
  function Effect(op: Op, r: Outcome): Op {
    if r == Err(MapFull) then Gc else op
  }

  function Effects(ops: seq<Op>, results: seq<Outcome>): (did: seq<Op>)
    requires |results| <= |ops|
    ensures |did| == |results| && forall i :: 0 <= i < |did| ==> did[i] == Effect(ops[i], results[i])
  {
    seq(|results|, i requires 0 <= i < |results| => Effect(ops[i], results[i]))
  }

  /** One operation; `data` is what a read returned. */
  method Step(m: Map, op: Op) returns (r: Outcome, data: PageData)
    requires m.Valid() && Sensible(op)
    modifies m, m.journal, m.journal.nand
    ensures r == Ok ==> m.Valid() && m.view == Apply(old(m.view), op)
    ensures r == Ok && op.Read? ==> data == Lookup(old(m.view), op.sector, m.journal.nand.pageSize)
    ensures r == Ok && op.Sync? && m.journal.Tracked() ==> m.saved == m.view
    ensures r != Ok ==> m.view == old(m.view)
    ensures Harmless(op, r) ==> m.Valid()
    ensures r == Err(MapFull) ==> Refused(m, op, r)
    ensures old(m.Untroubled()) ==> m.Untroubled() && (r == Ok || r == Err(MapFull))
    ensures m.Durably(old(m.journal.nand.history), {old(m.saved), old(m.view), m.view})
  {
    hide Inv, InvBase, Maps, Coupled, Even, Clean, Surviving, Evacuation, Counts, AllGood;
    data := [];
    m.DurablySelf({m.saved, m.view, m.view});
    match op {
      case Write(s, d) =>
        r := m.Write(s, d);
      case Trim(s) =>
        r := m.Trim(s);
      case Read(s) =>
        r, data := m.Read(s);
      case Gc =>
        r := m.Gc();
        m.DurablyMore(old(m.journal.nand.history), {old(m.saved), m.view}, {old(m.saved), old(m.view), m.view});
      case Sync =>
        r := m.Sync();
        m.DurablyMore(old(m.journal.nand.history), {old(m.saved), m.view}, {old(m.saved), old(m.view), m.view});
      case Clear =>
        m.Clear();
        m.DurablySelf({old(m.saved), old(m.view), m.view});
        r := Ok;
    }
  }

  /** During operation `i`, from moment `lo` to moment `hi` of the history, a power cut leaves a map
      that the first operations lead to: at least those up to the last synchronisation, at most
      those up to operation `i`. */
  ghost predicate Atomic(g: Geo, pageSize: nat, history: seq<Moment>, lo: nat, hi: nat, v: View, ops: seq<Op>, i: nat) {
    i < |ops| && lo <= hi <= |history| &&
    forall k :: lo <= k < hi ==> Survives(g, pageSize, history[k], Prefixes(v, ops, Synced(ops[..i]), i + 1))
  }

  /** The moments of every operation that has been started; operation `i` begins at `starts[i]`. */
  ghost predicate AllAtomic(g: Geo, pageSize: nat, history: seq<Moment>, starts: seq<nat>, v: View, ops: seq<Op>) {
    |starts| > 0 && starts[|starts| - 1] == |history| &&
    forall i :: 0 <= i < |starts| - 1 ==> Atomic(g, pageSize, history, starts[i], starts[i + 1], v, ops, i)
  }

  /** Between operations, after the first `i`, a power cut leaves a map that the first operations lead to:
      at least those up to the last synchronisation, which may be the last of them. */
  ghost predicate Rested(g: Geo, pageSize: nat, rest: Moment, v: View, ops: seq<Op>, i: nat) {
    i <= |ops| && Survives(g, pageSize, rest, Prefixes(v, ops, Synced(ops[..i]), i))
  }

  /** The chip before every operation, and after the last; it is as the last moment has left it. */
  ghost predicate AllRested(g: Geo, pageSize: nat, history: seq<Moment>, starts: seq<nat>, rests: seq<Moment>,
                            v: View, ops: seq<Op>)
  {
    |rests| <= |starts| && forall i :: 0 <= i < |rests| ==>
      Rested(g, pageSize, rests[i], v, ops, i) &&
      LeftBy(history, starts[i], rests[0].image, rests[i])
  }

  /** After its first `k` moments the chip is as the last of them left it. */
  ghost predicate LeftBy(history: seq<Moment>, k: nat, origin: Image, rest: Moment) {
    k <= |history| && rest.image == if k == 0 then origin else history[k - 1].image
  }

  /** The first operations are the same. */
  lemma PrefixesSame(v: View, ops: seq<Op>, ops': seq<Op>, i: nat, hi: nat)
    requires i <= hi <= |ops| <= |ops'| && ops'[..|ops|] == ops
    ensures ops'[..i] == ops[..i]
    ensures Prefixes(v, ops', Synced(ops[..i]), hi) == Prefixes(v, ops, Synced(ops[..i]), hi)
  {
    assert forall k :: 0 <= k <= |ops| ==> ops'[..k] == ops[..k];
  }

  lemma RunGrows(g: Geo, pageSize: nat, history: seq<Moment>, starts: seq<nat>, rests: seq<Moment>, v: View,
                 ops: seq<Op>, ops': seq<Op>)
    requires AllAtomic(g, pageSize, history, starts, v, ops) && AllRested(g, pageSize, history, starts, rests, v, ops)
    requires |ops| <= |ops'| && ops'[..|ops|] == ops
    ensures AllAtomic(g, pageSize, history, starts, v, ops') && AllRested(g, pageSize, history, starts, rests, v, ops')
  {
    hide Survives, Prefixes, Synced;
    forall i | 0 <= i < |starts| - 1
      ensures Atomic(g, pageSize, history, starts[i], starts[i + 1], v, ops', i)
    {
      assert Atomic(g, pageSize, history, starts[i], starts[i + 1], v, ops, i);
      PrefixesSame(v, ops, ops', i, i + 1);
    }
    forall i | 0 <= i < |rests|
      ensures Rested(g, pageSize, rests[i], v, ops', i)
    {
      assert Rested(g, pageSize, rests[i], v, ops, i);
      PrefixesSame(v, ops, ops', i, i);
    }
  }

  /** The views that an operation may leave behind are among those of the run. */
  lemma StepAtomic(g: Geo, pageSize: nat, h: seq<Moment>, h': seq<Moment>, starts: seq<nat>, v: View, ops: seq<Op>,
                   i: nat, saved: View, view: View, view': View)
    requires AllAtomic(g, pageSize, h, starts, v, ops) && |starts| == i + 1 && i < |ops|
    requires Surviving(g, pageSize, h, h', {saved, view, view'})
    requires saved in Prefixes(v, ops, Synced(ops[..i]), i) && view == After(v, ops[..i])
    requires view' == view || view' == After(v, ops[..i + 1])
    ensures AllAtomic(g, pageSize, h', starts + [|h'|], v, ops)
  {
    var views := Prefixes(v, ops, Synced(ops[..i]), i + 1);
    PrefixesGrow(v, ops, Synced(ops[..i]), i, i + 1);
    PrefixesHave(v, ops, Synced(ops[..i]), i + 1, i);
    PrefixesHave(v, ops, Synced(ops[..i]), i + 1, i + 1);
    hide Prefixes, After;
    SurvivingMore(g, pageSize, h, h', {saved, view, view'}, views);
    hide Survives;
    var next := starts + [|h'|];
    forall j | 0 <= j < |next| - 1
      ensures Atomic(g, pageSize, h', next[j], next[j + 1], v, ops, j)
    {
      if j < |starts| - 1 {
        assert Atomic(g, pageSize, h, starts[j], starts[j + 1], v, ops, j);
        forall k | starts[j] <= k < starts[j + 1]
          ensures h'[k] == h[k]
        {
          assert h'[k] == h'[..|h|][k];
        }
      }
    }
  }

  /** The answer to an operation on map `v`: a read returns what was last written, and only a write of a
      sector that is not mapped is refused. */
  ghost predicate Answer(v: View, op: Op, r: Outcome, data: PageData, pageSize: nat) {
    (op.Read? && r == Ok ==> data == Lookup(v, op.sector, pageSize)) &&
    (r == Err(MapFull) ==> op.Write? && op.sector !in v)
  }

  ghost predicate Answers(v: View, ops: seq<Op>, results: seq<Outcome>, data: seq<PageData>, pageSize: nat) {
    |data| == |results| <= |ops| &&
    forall i :: 0 <= i < |results| ==>
      Answer(After(v, Effects(ops, results)[..i]), ops[i], results[i], data[i], pageSize)
  }

  /** Nothing has failed, but for writes that found at least `capacity` sectors mapped. */
  ghost predicate OnlyRefused(v: View, ops: seq<Op>, results: seq<Outcome>, capacity: nat)
    requires |results| <= |ops|
  {
    forall i :: 0 <= i < |results| ==>
      results[i] == Ok || (results[i] == Err(MapFull) && |After(v, Effects(ops, results)[..i])| >= capacity)
  }

  lemma AnswersNext(v: View, ops: seq<Op>, results: seq<Outcome>, data: seq<PageData>, pageSize: nat, r: Outcome,
                    d: PageData)
    requires Answers(v, ops, results, data, pageSize) && |results| < |ops|
    requires Answer(After(v, Effects(ops, results)), ops[|results|], r, d, pageSize)
    ensures Answers(v, ops, results + [r], data + [d], pageSize)
    ensures Effects(ops, results + [r]) == Effects(ops, results) + [Effect(ops[|results|], r)]
    ensures forall capacity: nat ::
      OnlyRefused(v, ops, results, capacity) &&
      (r == Ok || (r == Err(MapFull) && |After(v, Effects(ops, results))| >= capacity)) ==>
      OnlyRefused(v, ops, results + [r], capacity)
  {
    hide Answer, After;
    var did, did' := Effects(ops, results), Effects(ops, results + [r]);
    assert did' == did + [Effect(ops[|results|], r)];
    assert forall i :: 0 <= i <= |did| ==> did'[..i] == did[..i];
    assert did'[..|did|] == did;
  }

  ghost function Now(nand: Nand): Moment
    reads nand
  {
    Moment(nand.cell, nand.bad, nand.durable)
  }

  /** The run of a map that is not in the middle of an operation. */
  ghost predicate Resting(m: Map, v: View, did: seq<Op>, starts: seq<nat>, rests: seq<Moment>)
    reads m, m.journal, m.journal.nand
  {
    |starts| == |rests| == |did| + 1 && rests[|did|] == Now(m.journal.nand) &&
    rests[0].image == m.journal.nand.origin &&
    m.saved in Prefixes(v, did, Synced(did), |did|) &&
    AllAtomic(m.journal.g, m.journal.nand.pageSize, m.journal.nand.history, starts, v, did) &&
    AllRested(m.journal.g, m.journal.nand.pageSize, m.journal.nand.history, starts, rests, v, did)
  }

  lemma RestingMeans(m: Map, v: View, did: seq<Op>, starts: seq<nat>, rests: seq<Moment>)
    requires Resting(m, v, did, starts, rests)
    ensures |starts| == |rests| == |did| + 1 && rests[|did|] == Now(m.journal.nand)
    ensures m.saved in Prefixes(v, did, Synced(did), |did|) && rests[0].image == m.journal.nand.origin
    ensures AllAtomic(m.journal.g, m.journal.nand.pageSize, m.journal.nand.history, starts, v, did)
    ensures AllRested(m.journal.g, m.journal.nand.pageSize, m.journal.nand.history, starts, rests, v, did)
  {}

  /** The chip as it is between operations can be resumed. */
  lemma AtRest(m: Map)
    requires m.Valid() && m.journal.Tracked()
    ensures Survives(m.journal.g, m.journal.nand.pageSize, Now(m.journal.nand), {m.saved})
    ensures var nand := m.journal.nand; LeftBy(nand.history, |nand.history|, nand.origin, Now(nand))
  {
    hide Inv, InvBase, Maps, Even, Clean, Evacuation, Counts, AllGood, Saves, Resumable, Durability.Standing, Held,
         TwoGood;
    assert Saves(m.journal.nand.durable, m.saved);
  }

  lemma StartRun(m: Map, ops: seq<Op>)
    requires m.Valid() && (m.journal.Tracked() ==> m.saved == m.view && m.journal.nand.history == [])
    ensures Effects(ops, []) == [] && After(m.view, []) == m.view
    ensures Answers(m.view, ops, [], [], m.journal.nand.pageSize)
    ensures forall capacity: nat :: OnlyRefused(m.view, ops, [], capacity)
    ensures m.journal.Tracked() ==> Resting(m, m.view, [], [0], [Now(m.journal.nand)])
  {
    hide Inv, InvBase, Maps, Coupled, Even, Clean, Evacuation, Counts, AllGood, Survives;
    var none: seq<Op> := [];
    assert none[..0] == none;
    PrefixesHave(m.view, none, 0, 0, 0);
    if m.journal.Tracked() {
      AtRest(m);
      SurvivesMore(m.journal.g, m.journal.nand.pageSize, Now(m.journal.nand), m.saved, Prefixes(m.view, none, 0, 0));
    }
    hide Prefixes;
  }

  /** The moments of one more operation. */
  lemma StepRun(g: Geo, pageSize: nat, h: seq<Moment>, h': seq<Moment>, starts: seq<nat>, rests: seq<Moment>, v: View,
                did: seq<Op>, did': seq<Op>, saved: View, view: View, view': View)
    requires AllAtomic(g, pageSize, h, starts, v, did) && AllRested(g, pageSize, h, starts, rests, v, did)
    requires |starts| == |rests| == |did| + 1 == |did'| && did'[..|did|] == did
    requires Surviving(g, pageSize, h, h', {saved, view, view'})
    requires saved in Prefixes(v, did, Synced(did), |did|) && view == After(v, did)
    requires view' == view || view' == After(v, did')
    ensures AllAtomic(g, pageSize, h', starts + [|h'|], v, did')
    ensures AllRested(g, pageSize, h', starts + [|h'|], rests, v, did')
  {
    hide AllAtomic, AllRested, Survives, Surviving, Prefixes, After, Synced;
    assert did[..|did|] == did && did'[..|did'|] == did';
    RunGrows(g, pageSize, h, starts, rests, v, did, did');
    PrefixesSame(v, did, did', |did|, |did|);
    StepAtomic(g, pageSize, h, h', starts, v, did', |did|, saved, view, view');
    SurvivingMeans(g, pageSize, h, h', {saved, view, view'});
    StepRested(g, pageSize, h, h', starts, rests, v, did');
  }

  lemma SurvivingMeans(g: Geo, pageSize: nat, h: seq<Moment>, h': seq<Moment>, views: set<View>)
    requires Surviving(g, pageSize, h, h', views)
    ensures |h| <= |h'| && h'[..|h|] == h
  {}

  lemma StepRested(g: Geo, pageSize: nat, h: seq<Moment>, h': seq<Moment>, starts: seq<nat>, rests: seq<Moment>,
                   v: View, ops: seq<Op>)
    requires AllRested(g, pageSize, h, starts, rests, v, ops) && |h| <= |h'| && h'[..|h|] == h
    ensures AllRested(g, pageSize, h', starts + [|h'|], rests, v, ops)
  {
    hide Rested;
    forall i | 0 <= i < |rests|
      ensures LeftBy(h', starts[i], rests[0].image, rests[i])
    {
      assert LeftBy(h, starts[i], rests[0].image, rests[i]);
      if starts[i] > 0 { assert h'[starts[i] - 1] == h'[..|h|][starts[i] - 1]; }
    }
  }

  /** The chip after the operation. */
  lemma RestRun(g: Geo, pageSize: nat, h: seq<Moment>, starts: seq<nat>, rests: seq<Moment>, v: View, ops: seq<Op>,
                rest: Moment)
    requires AllRested(g, pageSize, h, starts, rests, v, ops) && |starts| == |rests| + 1 == |ops| + 1
    requires Survives(g, pageSize, rest, Prefixes(v, ops, Synced(ops), |ops|)) && starts[|ops|] == |h|
    requires |rests| > 0 && LeftBy(h, |h|, rests[0].image, rest)
    ensures AllRested(g, pageSize, h, starts, rests + [rest], v, ops)
  {
    hide Survives, Prefixes, Synced;
    assert ops[..|ops|] == ops;
    assert Rested(g, pageSize, rest, v, ops, |ops|);
    hide Rested, LeftBy;
    var rests' := rests + [rest];
    assert rests'[0] == rests[0];
    forall i | 0 <= i < |rests'|
      ensures Rested(g, pageSize, rests'[i], v, ops, i) && LeftBy(h, starts[i], rests'[0].image, rests'[i])
    {
      if i < |rests| {
        assert rests'[i] == rests[i] && Rested(g, pageSize, rests[i], v, ops, i);
      } else {
        assert rests'[i] == rest && i == |ops|;
      }
    }
  }

  /** Runs operations one after the other, up to the first that fails for good. */
  method Execute(m: Map, ops: seq<Op>)
    returns (r: Outcome, results: seq<Outcome>, data: seq<PageData>, ghost starts: seq<nat>, ghost rests: seq<Moment>)
    requires m.Valid() && (forall i :: 0 <= i < |ops| ==> Sensible(ops[i]))
    requires m.journal.Tracked() ==> m.saved == m.view && m.journal.nand.history == []
    modifies m, m.journal, m.journal.nand
    ensures Answers(old(m.view), ops, results, data, m.journal.nand.pageSize)
    ensures r == Ok ==> |results| == |ops| && forall i :: 0 <= i < |ops| ==> Harmless(ops[i], results[i])
    ensures r == Ok ==> m.Valid() && m.view == After(old(m.view), Effects(ops, results)) && m.count == |m.view|
    ensures old(m.Untroubled()) ==>
      r == Ok && m.Untroubled() && OnlyRefused(old(m.view), ops, results, LeastCapacity(m.journal.g, m.gcRatio))
    ensures r == Ok && m.Untroubled() ==> Roomy(m.journal)
    ensures r == Ok && m.journal.leveled ==> EvenlyWorn(m.journal.nand)
    ensures m.journal.Tracked() ==> |starts| == |results| + 1 && |rests| == (if r == Ok then |ops| + 1 else |results|)
    ensures m.journal.Tracked() ==>
      AllAtomic(m.journal.g, m.journal.nand.pageSize, m.journal.nand.history, starts, old(m.view),
                Effects(ops, results)) &&
      AllRested(m.journal.g, m.journal.nand.pageSize, m.journal.nand.history, starts, rests, old(m.view),
                Effects(ops, results))
    ensures |rests| > 0 && rests[0] == old(Now(m.journal.nand))
    ensures m.journal.Tracked() && r == Ok ==> rests[|ops|] == Now(m.journal.nand)
  {
    hide Inv, InvBase, Maps, Coupled, Even, Clean, Surviving, Evacuation, AllAtomic, AllRested, Prefixes, After, Synced,
         Counts, AllGood, Refused, Answers, OnlyRefused, LimitsOf, Resting;
    results, data, starts, rests := [], [], [0], [Now(m.journal.nand)];
    ghost var v := m.view;
    StartRun(m, ops);
    while |results| < |ops|
      invariant |results| <= |ops| && m.Valid() && (old(m.Untroubled()) ==> m.Untroubled())
      invariant m.view == After(v, Effects(ops, results))
      invariant Answers(v, ops, results, data, m.journal.nand.pageSize)
      invariant forall i :: 0 <= i < |results| ==> Harmless(ops[i], results[i])
      invariant old(m.Untroubled()) ==> OnlyRefused(v, ops, results, LeastCapacity(m.journal.g, m.gcRatio))
      invariant |rests| > 0 && rests[0] == old(Now(m.journal.nand))
      invariant m.journal.Tracked() ==> Resting(m, v, Effects(ops, results), starts, rests)
      decreases |ops| - |results|
    {
      ghost var did := Effects(ops, results);
      var d;
      r, d, starts, rests := RunStep(m, ops[|results|], v, did, starts, rests);
      AnswersNext(v, ops, results, data, m.journal.nand.pageSize, r, d);
      results, data := results + [r], data + [d];
      if !Harmless(ops[|results| - 1], r) {
        return;
      }
    }
    r := Ok;
    if m.journal.Tracked() { RestingMeans(m, v, Effects(ops, results), starts, rests); }
    if m.journal.leveled { EvenInRun(m); }
    if m.Untroubled() { RoomInRun(m); }
  }

  /** One operation of the run. */
  method RunStep(m: Map, op: Op, ghost v: View, ghost did: seq<Op>, ghost starts: seq<nat>, ghost rests: seq<Moment>)
    returns (r: Outcome, d: PageData, ghost starts': seq<nat>, ghost rests': seq<Moment>)
    requires m.Valid() && Sensible(op) && m.view == After(v, did)
    requires m.journal.Tracked() ==> Resting(m, v, did, starts, rests)
    modifies m, m.journal, m.journal.nand
    ensures Answer(After(v, did), op, r, d, m.journal.nand.pageSize)
    ensures Harmless(op, r) ==> m.Valid() && m.view == After(v, did + [Effect(op, r)])
    ensures |rests| <= |rests'| && rests'[..|rests|] == rests
    ensures old(m.Untroubled()) ==> m.Untroubled()
    ensures old(m.Untroubled()) ==>
      r == Ok || (r == Err(MapFull) && |After(v, did)| >= LeastCapacity(m.journal.g, m.gcRatio))
    ensures m.journal.Tracked() ==>
      |starts'| == |did| + 2 && |rests'| == |did| + (if Harmless(op, r) then 2 else 1) &&
      AllAtomic(m.journal.g, m.journal.nand.pageSize, m.journal.nand.history, starts', v, did + [Effect(op, r)]) &&
      AllRested(m.journal.g, m.journal.nand.pageSize, m.journal.nand.history, starts', rests', v, did + [Effect(op, r)])
    ensures m.journal.Tracked() && Harmless(op, r) ==> Resting(m, v, did + [Effect(op, r)], starts', rests')
  {
    hide Inv, InvBase, Maps, Coupled, Even, Clean, Surviving, Evacuation, AllAtomic, AllRested, Prefixes, After, Synced,
         Counts, AllGood, LimitsOf, Survives, LeftBy, Map.Coherent, Map.Counted;
    ghost var h, saved, view := m.journal.nand.history, m.saved, m.view;
    if m.journal.Tracked() { RestingMeans(m, v, did, starts, rests); }
    r, d := Step(m, op);
    AfterEffect(v, did, op, r);
    if old(m.Untroubled()) && r == Err(MapFull) { FullEnough(m); }
    starts', rests' := starts + [|m.journal.nand.history|], rests;
    ghost var g, nand, did' := m.journal.g, m.journal.nand, did + [Effect(op, r)];
    if m.journal.Tracked() {
      StepRun(g, nand.pageSize, h, nand.history, starts, rests, v, did, did', saved, view, m.view);
    }
    if Harmless(op, r) {
      if m.journal.Tracked() {
        AtRest(m);
        RestNext(g, nand.pageSize, nand.history, starts', rests, v, did, did', saved, m.saved, m.view, Now(nand));
      }
      rests' := rests + [Now(nand)];
    }
  }

  lemma AfterEffect(v: View, did: seq<Op>, op: Op, r: Outcome)
    ensures var did' := did + [Effect(op, r)];
      After(v, did') == Apply(After(v, did), Effect(op, r)) && did'[..|did|] == did
  {
    assert (did + [Effect(op, r)])[..|did|] == did;
  }

  /** A map that is full holds as many sectors as it must have room for. */
  lemma FullEnough(m: Map)
    requires m.Valid() && m.Untroubled() && |m.view| >= m.Capacity()
    ensures |m.view| >= LeastCapacity(m.journal.g, m.gcRatio)
  {
    hide Inv, InvBase, Maps, Coupled, Even, Clean, Evacuation, Counts, AllGood, JournalCapacity, LeastCapacity,
         MapCapacity;
    var j := m.journal;
    AboveLeast(j.g, m.gcRatio, j.bbLast, j.bbCurrent, j.tailSync, j.tail, j.head, j.root, j.log, m.view.Keys, m.queue);
  }

  /** The moments of one more operation, after which the chip is at rest. */
  lemma RestNext(g: Geo, pageSize: nat, h: seq<Moment>, starts: seq<nat>, rests: seq<Moment>, v: View, did: seq<Op>,
                 did': seq<Op>, saved: View, saved': View, view': View, rest: Moment)
    requires AllRested(g, pageSize, h, starts, rests, v, did')
    requires |starts| == |rests| + 1 == |did| + 2 == |did'| + 1 && did'[..|did|] == did && starts[|did'|] == |h|
    requires saved in Prefixes(v, did, Synced(did), |did|) && view' == After(v, did')
    requires saved' in {saved, After(v, did), view'} && (did'[|did|].Sync? ==> saved' == view')
    requires Survives(g, pageSize, rest, {saved'}) && LeftBy(h, |h|, rests[0].image, rest)
    ensures saved' in Prefixes(v, did', Synced(did'), |did'|)
    ensures AllRested(g, pageSize, h, starts, rests + [rest], v, did')
  {
    assert did'[..|did'|] == did' && did[..|did|] == did && did'[..|did| + 1] == did';
    PrefixesSame(v, did, did', |did|, |did|);
    hide AllRested, Prefixes, After, Synced;
    SavedNext(v, did', |did|, saved, saved', did'[|did|].Sync?);
    SurvivesMore(g, pageSize, rest, saved', Prefixes(v, did', Synced(did'), |did'|));
    hide Survives;
    RestRun(g, pageSize, h, starts, rests, v, did', rest);
  }

  lemma SurvivesMore(g: Geo, pageSize: nat, rest: Moment, saved: View, views: set<View>)
    requires Survives(g, pageSize, rest, {saved}) && saved in views
    ensures Survives(g, pageSize, rest, views)
  {
    hide Resumable, Saves;
  }

  /** The queue is as far below the journal's capacity as the map's safety margin says, but for a
      page, and the size of the journal, counted from the tail last synchronised, is below it too. */
  ghost predicate Roomy(j: Journal)
    reads j
  {
    j.g.Ok() &&
    JournalSize(j.g, j.tail, j.head) <= JournalCapacity(j.g, j.bbLast, j.bbCurrent) - 8 * Ppb(j.g) + 1 &&
    JournalSize(j.g, j.tailSync, j.head) < JournalCapacity(j.g, j.bbLast, j.bbCurrent)
  }

  lemma RoomInRun(m: Map)
    requires m.Valid() && m.Untroubled()
    ensures Roomy(m.journal)
  {
    hide Inv, InvBase, Maps, Coupled, Even, Clean, Evacuation, Counts, AllGood, JournalSize, JournalCapacity;
    var j := m.journal;
    BelowCapacity(j.g, m.gcRatio, j.bbLast, j.bbCurrent, j.tailSync, j.tail, j.head, j.root, j.log, m.view.Keys,
      m.queue);
  }

  /** The erase counts of any two good blocks differ by one at most. */
  ghost predicate EvenlyWorn(nand: Nand)
    reads nand
  {
    |nand.erases| == |nand.bad| &&
    forall a, b :: 0 <= a < |nand.bad| && 0 <= b < |nand.bad| && !nand.bad[a] && !nand.bad[b] ==>
      nand.erases[a] <= nand.erases[b] + 1
  }

  lemma EvenInRun(m: Map)
    requires m.Valid() && m.journal.leveled
    ensures EvenlyWorn(m.journal.nand)
  {
    hide Inv, InvBase, Maps, Coupled, Clean, Evacuation, Counts, AllGood, Even;
    var nand := m.journal.nand;
    forall a, b | 0 <= a < |nand.bad| && 0 <= b < |nand.bad| && !nand.bad[a] && !nand.bad[b]
      ensures nand.erases[a] <= nand.erases[b] + 1
    {
      EvenWear(m.journal.g, nand.bad, nand.erases, m.journal.head, false, a, b);
    }
    LevelSizes(m);
  }

  lemma LevelSizes(m: Map)
    requires m.Valid()
    ensures |m.journal.nand.erases| == |m.journal.nand.bad|
  {
    hide Inv, InvBase, Maps, Coupled, Clean, Evacuation, Counts, AllGood, Even;
  }

  lemma SavedNext(v: View, ops: seq<Op>, i: nat, saved: View, saved': View, sync: bool)
    requires i < |ops| && sync == ops[i].Sync?
    requires saved in Prefixes(v, ops, Synced(ops[..i]), i)
    requires saved' in {saved, After(v, ops[..i]), After(v, ops[..i + 1])}
    requires sync ==> saved' == After(v, ops[..i + 1])
    ensures saved' in Prefixes(v, ops, Synced(ops[..i + 1]), i + 1)
  {
    AfterNext(v, ops, i);
    var lo := Synced(ops[..i + 1]);
    PrefixesHave(v, ops, lo, i + 1, i + 1);
    if !sync {
      PrefixesGrow(v, ops, lo, i, i + 1);
      PrefixesHave(v, ops, lo, i + 1, i);
    }
  }

  lemma BlankChip(g: Geo, pageSize: nat, bad: seq<bool>)
    requires g.Ok() && |bad| == g.blocks
    ensures g.Covers(BlankImage(g)) && ChecksOk(g, BlankImage(g))
    ensures Resumable(g, pageSize, bad, BlankImage(g), NoCheckpoint)
  {
    BlankCovers(g);
  }

  /** The capacity of a map on a blank chip of this size is not zero. */
  ghost predicate HoldsAny(g: Geo, gcRatio: nat) {
    LimitsOf(g, g.blocks / 64, if gcRatio == 0 then 1 else gcRatio).capacity > 0
  }

  /** A new map on a blank chip with some blocks marked bad, where other blocks may fail unless it is
      `reliable`: all results about runs apply to it. */
  method Format(g: Geo, pageSize: nat, gcRatio: nat, bad: seq<bool>, reliable: bool) returns (m: Map)
    requires Fits(g) && |bad| == g.blocks && (g.ppc > 2 || reliable)
    ensures m.Valid() && m.view == m.saved == map[] && m.journal.nand.history == []
    ensures m.journal.g == g && m.journal.nand.bad == bad && m.journal.nand.reliable == reliable && m.journal.leveled
    ensures m.Untroubled() <==> AllGood(bad) && reliable && HoldsAny(g, gcRatio)
    ensures m.journal.Tracked() <==> TwoGood(bad) && reliable
  {
    hide Inv, InvBase, Maps, Coupled, Even, Clean, Evacuation, Counts, AllGood, TwoGood, LimitsOf, Resumable,
         BlankImage;
    BlankChip(g, pageSize, bad);
    NewIsEven(g, bad);
    var nand := new Nand(g, pageSize, reliable, BlankImage(g), bad, NoCheckpoint);
    var journal := new Journal(nand, TwoGood(bad), true);
    m := new Map(journal, gcRatio, AllGood(bad) && HoldsAny(g, gcRatio));
  }

  /** A power cut at moment `k` of the run, during operation `i`: the map that comes up again holds
      what some first `n` of the operations lead to, and no operation that was over by the last
      synchronisation is lost. */
  method Cut(g: Geo, pageSize: nat, image: Image, bad: seq<bool>, gcRatio: nat, ghost durable: Checkpoint,
             ghost history: seq<Moment>, ghost starts: seq<nat>, ghost v: View, ghost ops: seq<Op>, ghost i: nat,
             ghost k: nat)
    returns (m: Map, r: Outcome, ghost n: nat)
    requires TwoGood(bad) && Fits(g) && Lands(g, image, durable)
    requires AllAtomic(g, pageSize, history, starts, v, ops) && i < |starts| - 1
    requires starts[i] <= k < starts[i + 1] && k < |history| && history[k] == Moment(image, bad, durable)
    ensures i < |ops| && Synced(ops[..i]) <= n <= i + 1
    ensures m.Valid() && m.view == After(v, ops[..n]) && m.saved == m.view && m.journal.nand.history == []
    ensures m.journal.Tracked() && m.journal.g == g && m.journal.nand.bad == bad && m.journal.nand.pageSize == pageSize
  {
    hide Inv, InvBase, Maps, Coupled, Even, Clean, Survives, After, TwoGood, Evacuation, Lands;
    assert Atomic(g, pageSize, history, starts[i], starts[i + 1], v, ops, i);
    ghost var views := Prefixes(v, ops, Synced(ops[..i]), i + 1);
    m, r := Restart(g, pageSize, image, bad, gcRatio, durable, views);
    n :| Synced(ops[..i]) <= n <= i + 1 && After(v, ops[..n]) == m.view;
  }

  /** A power cut after the first `i` operations, while no operation runs: the map that comes up again
      holds what some first `n` of them lead to; all of them, if the last was a synchronisation. */
  method CutAtRest(g: Geo, pageSize: nat, image: Image, bad: seq<bool>, gcRatio: nat, ghost durable: Checkpoint,
                   ghost history: seq<Moment>, ghost starts: seq<nat>, ghost rests: seq<Moment>, ghost v: View,
                   ghost ops: seq<Op>, ghost i: nat)
    returns (m: Map, r: Outcome, ghost n: nat)
    requires TwoGood(bad) && Fits(g) && Lands(g, image, durable)
    requires AllRested(g, pageSize, history, starts, rests, v, ops)
    requires i < |rests| && rests[i] == Moment(image, bad, durable)
    ensures i <= |ops| && Synced(ops[..i]) <= n <= i
    ensures 0 < i && ops[i - 1].Sync? ==> n == i
    ensures m.Valid() && m.view == After(v, ops[..n]) && m.saved == m.view && m.journal.nand.history == []
    ensures m.journal.Tracked() && m.journal.g == g && m.journal.nand.bad == bad && m.journal.nand.pageSize == pageSize
  {
    hide Inv, InvBase, Maps, Coupled, Even, Clean, Survives, After, TwoGood, Evacuation, Lands;
    assert Rested(g, pageSize, rests[i], v, ops, i);
    ghost var views := Prefixes(v, ops, Synced(ops[..i]), i);
    m, r := Restart(g, pageSize, image, bad, gcRatio, durable, views);
    n :| Synced(ops[..i]) <= n <= i && After(v, ops[..n]) == m.view;
  }
}
