/** Wear levelling: how often the good blocks of a chip have been erased, lap after lap. */
module Wear {
  import opened Geometry
  import opened JournalState

  /** In a lap in which every good block has been erased `lap` times before, the blocks that the head
      has passed have been erased once more; so has its own block if it has written there, or if it
      has `taken` the block to write there next. */
  ghost predicate Lap(g: Geo, bad: seq<bool>, erases: seq<nat>, head: Page, taken: bool, lap: nat) {
    |bad| == |erases| == g.blocks && head.Page? &&
    forall b :: 0 <= b < g.blocks && !bad[b] ==>
      erases[b] == if b < head.blk || (b == head.blk && (taken || !BlockStart(head))) then lap + 1 else lap
  }

  ghost predicate Even(g: Geo, bad: seq<bool>, erases: seq<nat>, head: Page, taken: bool) {
    exists lap: nat :: Lap(g, bad, erases, head, taken, lap)
  }

  /** The erase counts of any two good blocks differ by one at most. */
  lemma EvenWear(g: Geo, bad: seq<bool>, erases: seq<nat>, head: Page, taken: bool, a: nat, b: nat)
    requires Even(g, bad, erases, head, taken) && a < |bad| && b < |bad| && !bad[a] && !bad[b]
    ensures |erases| == |bad| && erases[a] <= erases[b] + 1
  {}

  /** A blank chip. */
  lemma NewIsEven(g: Geo, bad: seq<bool>)
    requires |bad| == g.blocks
    ensures Even(g, bad, seq(g.blocks, _ => 0), FirstPage(0), false)
  {
    assert Lap(g, bad, seq(g.blocks, _ => 0), FirstPage(0), false, 0);
  }

  /** Skipping a bad block. */
  lemma SkipEven(g: Geo, bad: seq<bool>, erases: seq<nat>, head: Page)
    requires g.Ok() && Even(g, bad, erases, head, false) && BlockStart(head) && head.blk < |bad| && bad[head.blk]
    ensures Even(g, bad, erases, FirstPage(g.NextBlock(head.blk)), false)
  {
    var lap: nat :| Lap(g, bad, erases, head, false, lap);
    var lap' := if g.NextBlock(head.blk) < head.blk then lap + 1 else lap;
    assert Lap(g, bad, erases, FirstPage(g.NextBlock(head.blk)), false, lap');
  }

  /** Leaving a block that has been erased. */
  lemma LeaveEven(g: Geo, bad: seq<bool>, erases: seq<nat>, head: Page)
    requires g.Ok() && Even(g, bad, erases, head, true) && head.blk < g.blocks
    ensures Even(g, bad, erases, FirstPage(g.NextBlock(head.blk)), false)
  {
    var lap: nat :| Lap(g, bad, erases, head, true, lap);
    var lap' := if g.NextBlock(head.blk) < head.blk then lap + 1 else lap;
    assert Lap(g, bad, erases, FirstPage(g.NextBlock(head.blk)), false, lap');
  }

  /** Erasing the head's block. */
  lemma EraseEven(g: Geo, bad: seq<bool>, erases: seq<nat>, head: Page)
    requires Even(g, bad, erases, head, false) && BlockStart(head) && head.blk < |erases|
    ensures Even(g, bad, erases[head.blk := erases[head.blk] + 1], head, true)
  {
    var lap: nat :| Lap(g, bad, erases, head, false, lap);
    assert Lap(g, bad, erases[head.blk := erases[head.blk] + 1], head, true, lap);
  }

  /** Inside a block nothing has to be erased. */
  lemma InsideEven(g: Geo, bad: seq<bool>, erases: seq<nat>, head: Page)
    requires Even(g, bad, erases, head, false) && !BlockStart(head)
    ensures Even(g, bad, erases, head, true)
  {
    var lap: nat :| Lap(g, bad, erases, head, false, lap);
    assert Lap(g, bad, erases, head, true, lap);
  }

  /** The head moves on from a page it has written. */
  lemma MoveEven(g: Geo, bad: seq<bool>, erases: seq<nat>, head: Page)
    requires g.Ok() && g.UserPage(head) && Even(g, bad, erases, head, true)
    ensures Even(g, bad, erases, g.NextUpage(head), false)
  {
    var lap: nat :| Lap(g, bad, erases, head, true, lap);
    var lap' := if g.NextUpage(head).blk < head.blk then lap + 1 else lap;
    assert Lap(g, bad, erases, g.NextUpage(head), false, lap');
  }

  /** With fewer good blocks there is less to compare. */
  lemma MarkEven(g: Geo, bad: seq<bool>, bad': seq<bool>, erases: seq<nat>, head: Page, taken: bool)
    requires Even(g, bad, erases, head, taken) && BadGrows(bad, bad')
    ensures Even(g, bad', erases, head, taken)
  {
    var lap: nat :| Lap(g, bad, erases, head, taken, lap);
    assert Lap(g, bad', erases, head, taken, lap);
  }
}
