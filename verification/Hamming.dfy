/** The Hamming code that corrects one wrong bit and detects two, for chunks of up to 512 bytes. */
module Hamming {
  import opened BitStrings

  const LOG2_CHUNK_SIZE: nat := 9
  const LOG2_CHUNK_BITS: nat := LOG2_CHUNK_SIZE + 3
  const MAX_CHUNK_BITS: nat := 4096
  const ECC_BITS: nat := 24

  function BitCount(b: Bits): nat {
    if b == [] then 0 else (if b[0] then 1 else 0) + BitCount(b[1..])
  }

  predicate Odd(b: Bits) {
    BitCount(b) % 2 == 1
  }

  /** Bit `k` of a position. */
  predicate PosBit(p: nat, k: nat) {
    if k == 0 then p % 2 == 1 else PosBit(p / 2, k - 1)
  }

  /** The bits at the positions whose bit `k` is `v`. */
  function Select(b: Bits, k: nat, v: bool): (r: Bits)
    ensures |r| == |b|
  {
    seq(|b|, p requires 0 <= p < |b| => b[p] && PosBit(p, k) == v)
  }

  /** The checksum as documented: for each bit of a position, the parities of the two sets that it
      divides the chunk into, all inverted. */
  function Checksum(b: Bits): (r: Bits)
    ensures |r| == ECC_BITS
  {
    seq(ECC_BITS, j requires 0 <= j < ECC_BITS => !Odd(Select(b, j / 2, j % 2 == 0)))
  }

  // ---------------------------------------------------------------- parity

  lemma {:induction false} CountConcat(a: Bits, b: Bits)
    ensures BitCount(a + b) == BitCount(a) + BitCount(b)
  {
    if a == [] {
      assert a + b == b;
    } else {
      assert (a + b)[1..] == a[1..] + b;
      CountConcat(a[1..], b);
    }
  }

  lemma {:induction false} OddXor(a: Bits, b: Bits)
    requires |a| == |b|
    ensures Odd(Xor(a, b)) <==> Odd(a) != Odd(b)
  {
    if a != [] {
      assert Xor(a, b)[1..] == Xor(a[1..], b[1..]);
      OddXor(a[1..], b[1..]);
    }
  }

  lemma OddConcat(a: Bits, b: Bits)
    ensures Odd(a + b) <==> Odd(a) != Odd(b)
  {
    CountConcat(a, b);
  }

  lemma {:induction false} CountZeros(b: Bits)
    requires forall i :: 0 <= i < |b| ==> !b[i]
    ensures BitCount(b) == 0
  {
    if b != [] { CountZeros(b[1..]); }
  }

  /** A bit turned on or off. */
  lemma CountUpdate(b: Bits, p: nat, v: bool)
    requires p < |b|
    ensures BitCount(b[p := v]) == BitCount(b) - (if b[p] then 1 else 0) + (if v then 1 else 0)
  {
    assert b == b[..p] + ([b[p]] + b[p + 1..]);
    assert b[p := v] == b[..p] + ([v] + b[p + 1..]);
    CountConcat(b[..p], [b[p]] + b[p + 1..]);
    CountConcat(b[..p], [v] + b[p + 1..]);
    CountConcat([b[p]], b[p + 1..]);
    CountConcat([v], b[p + 1..]);
  }

  function Flip(b: Bits, p: nat): (r: Bits)
    requires p < |b|
    ensures |r| == |b|
  {
    b[p := !b[p]]
  }

  /** Position `p` belongs to exactly one of each pair of sets. */
  lemma FlipParity(b: Bits, p: nat, k: nat, v: bool)
    requires p < |b|
    ensures Odd(Select(Flip(b, p), k, v)) <==> Odd(Select(b, k, v)) != (PosBit(p, k) == v)
  {
    hide PosBit;
    var bit := !b[p] && PosBit(p, k) == v;
    assert Select(Flip(b, p), k, v) == Select(b, k, v)[p := bit];
    CountUpdate(Select(b, k, v), p, bit);
  }

  // ---------------------------------------------------------------- the scan

  function And(a: Bits, b: Bits): (r: Bits)
    requires |a| == |b|
    ensures |r| == |a|
  {
    seq(|a|, i requires 0 <= i < |a| => a[i] && b[i])
  }

  const MASK_0F: Bits := [true, true, true, true, false, false, false, false]
  const MASK_F0: Bits := [false, false, false, false, true, true, true, true]
  const MASK_33: Bits := [true, true, false, false, true, true, false, false]
  const MASK_CC: Bits := [false, false, true, true, false, false, true, true]
  const MASK_55: Bits := [true, false, true, false, true, false, true, false]
  const MASK_AA: Bits := [false, true, false, true, false, true, false, true]

  lemma MaskIs(c: Bits, mask: Bits, k: nat, v: bool)
    requires |c| == |mask| == 8
    requires forall i: nat :: i < 8 ==> mask[i] == (PosBit(i, k) == v)
    ensures And(c, mask) == Select(c, k, v)
  {}

  lemma SmallPositions(k: nat)
    requires k < 3
    ensures [PosBit(0, k), PosBit(1, k), PosBit(2, k), PosBit(3, k), PosBit(4, k), PosBit(5, k), PosBit(6, k),
      PosBit(7, k)]
      == if k == 0 then MASK_AA else if k == 1 then MASK_CC else MASK_F0
  {}

  /** The six masks pick the columns of the six small sets. */
  lemma MasksSelect(c: Bits)
    requires |c| == 8
    ensures And(c, MASK_0F) == Select(c, 2, false) && And(c, MASK_F0) == Select(c, 2, true)
    ensures And(c, MASK_33) == Select(c, 1, false) && And(c, MASK_CC) == Select(c, 1, true)
    ensures And(c, MASK_55) == Select(c, 0, false) && And(c, MASK_AA) == Select(c, 0, true)
  {
    SmallPositions(0);
    SmallPositions(1);
    SmallPositions(2);
    hide PosBit, And, Select;
    MaskIs(c, MASK_0F, 2, false);
    MaskIs(c, MASK_F0, 2, true);
    MaskIs(c, MASK_33, 1, false);
    MaskIs(c, MASK_CC, 1, true);
    MaskIs(c, MASK_55, 0, false);
    MaskIs(c, MASK_AA, 0, true);
  }

  /** The low 16 bits of an index. */
  function Index(i: nat): (r: Bits)
    ensures |r| == 16
  {
    seq(16, k requires 0 <= k < 16 => PosBit(i, k))
  }

  /** The column parities and line parities of the bytes scanned. */
  ghost predicate Scanned(b: Bits, column: Bits, line: Bits, lineBar: Bits) {
    |column| == 8 && |line| == |lineBar| == 16 &&
    (forall k: nat, v: bool :: k < 3 ==> Odd(Select(column, k, v)) == Odd(Select(b, k, v))) &&
    (forall k: nat :: k < 16 ==> line[k] == Odd(Select(b, k + 3, true))) &&
    (forall k: nat :: k < 16 ==> lineBar[k] == Odd(Select(b, k + 3, false)))
  }

  lemma BytePosition(i: nat, b: nat, k: nat)
    requires b < 8
    ensures PosBit(8 * i + b, k + 3) == PosBit(i, k)
    ensures k < 3 ==> PosBit(8 * i + b, k) == PosBit(b, k)
  {
    var p := 8 * i + b;
    assert p / 2 == 4 * i + b / 2 && p / 2 / 2 == 2 * i + b / 2 / 2 && p / 2 / 2 / 2 == i;
    assert PosBit(p, k + 3) == PosBit(p / 2, k + 2) == PosBit(p / 2 / 2, k + 1) == PosBit(p / 2 / 2 / 2, k);
    if k == 1 {
      assert PosBit(p, 1) == PosBit(p / 2, 0) && PosBit(b, 1) == PosBit(b / 2, 0);
    } else if k == 2 {
      assert PosBit(p, 2) == PosBit(p / 2, 1) == PosBit(p / 2 / 2, 0);
      assert PosBit(b, 2) == PosBit(b / 2, 1) == PosBit(b / 2 / 2, 0);
    }
  }

  /** A byte belongs to one line as a whole. */
  lemma SelectLine(b: Bits, byte: Bits, k: nat, v: bool)
    requires |b| % 8 == 0 && |byte| == 8
    ensures Odd(Select(b + byte, k + 3, v)) <==> Odd(Select(b, k + 3, v)) != (Odd(byte) && PosBit(|b| / 8, k) == v)
  {
    var part := if PosBit(|b| / 8, k) == v then byte else Zeros(8);
    var n, l := |b| / 8, k + 3;
    forall p: nat | |b| <= p < |b| + 8
      ensures PosBit(p, l) == PosBit(n, k)
    {
      BytePosition(n, p - |b|, k);
    }
    hide PosBit;
    assert Select(b + byte, k + 3, v) == Select(b, k + 3, v) + part;
    OddConcat(Select(b, k + 3, v), part);
    CountZeros(Zeros(8));
  }

  lemma SelectColumn(b: Bits, byte: Bits, column: Bits, k: nat, v: bool)
    requires |b| % 8 == 0 && |byte| == |column| == 8 && k < 3
    requires Odd(Select(column, k, v)) == Odd(Select(b, k, v))
    ensures Odd(Select(Xor(column, byte), k, v)) == Odd(Select(b + byte, k, v))
  {
    forall p: nat | |b| <= p < |b| + 8
      ensures PosBit(p, k) == PosBit(p - |b|, k)
    {
      BytePosition(|b| / 8, p - |b|, k);
    }
    hide PosBit;
    assert Select(b + byte, k, v) == Select(b, k, v) + Select(byte, k, v);
    OddConcat(Select(b, k, v), Select(byte, k, v));
    assert Select(Xor(column, byte), k, v) == Xor(Select(column, k, v), Select(byte, k, v));
    OddXor(Select(column, k, v), Select(byte, k, v));
  }

  function AddLine(line: Bits, odd: bool, index: Bits): (r: Bits)
    requires |line| == |index|
    ensures |r| == |line|
  {
    if odd then Xor(line, index) else line
  }

  lemma ScanByte(b: Bits, byte: Bits, column: Bits, line: Bits, lineBar: Bits)
    requires |b| % 8 == 0 && |byte| == 8 && Scanned(b, column, line, lineBar)
    ensures Scanned(b + byte, Xor(column, byte), AddLine(line, Odd(byte), Index(|b| / 8)),
                    AddLine(lineBar, Odd(byte), Not(Index(|b| / 8))))
  {
    hide Odd, Select, PosBit;
    var i := |b| / 8;
    var line', lineBar' := AddLine(line, Odd(byte), Index(i)), AddLine(lineBar, Odd(byte), Not(Index(i)));
    forall k: nat, v: bool | k < 3
      ensures Odd(Select(Xor(column, byte), k, v)) == Odd(Select(b + byte, k, v))
    {
      SelectColumn(b, byte, column, k, v);
    }
    forall k: nat | k < 16
      ensures line'[k] == Odd(Select(b + byte, k + 3, true)) && lineBar'[k] == Odd(Select(b + byte, k + 3, false))
    {
      SelectLine(b, byte, k, true);
      SelectLine(b, byte, k, false);
      assert Index(i)[k] == PosBit(i, k);
    }
  }

  method ParityScan(chunk: array<bool>) returns (out: Bits)
    requires chunk.Length % 8 == 0
    ensures out == Checksum(chunk[..])
  {
    hide Select, PosBit, Odd, AddLine;
    var column, line, lineBar := Zeros(8), Zeros(16), Zeros(16);
    ScanNothing(chunk[..0]);
    var i := 0;
    while i < chunk.Length / 8
      invariant i <= chunk.Length / 8 && Scanned(chunk[..8 * i], column, line, lineBar)
    {
      var c := chunk[8 * i..8 * i + 8];
      ScanByte(chunk[..8 * i], c, column, line, lineBar);
      assert chunk[..8 * i] + c == chunk[..8 * (i + 1)];
      column := Xor(column, c);
      line, lineBar := AddLine(line, Odd(c), Index(i)), AddLine(lineBar, Odd(c), Not(Index(i)));
      i := i + 1;
    }
    assert chunk[..8 * i] == chunk[..];
    out := PushLines(line, lineBar);
    out := PushColumns(column, out);
    out := Not(out);
    ChecksumOf(chunk[..], column, line, lineBar, out);
  }

  lemma ScanNothing(b: Bits)
    requires b == []
    ensures Scanned(b, Zeros(8), Zeros(16), Zeros(16))
  {
    hide PosBit;
    forall k: nat, v: bool
      ensures !Odd(Select(b, k, v)) && !Odd(Select(Zeros(8), k, v))
    {
      CountZeros(Select(b, k, v));
      CountZeros(Select(Zeros(8), k, v));
    }
  }

  /** Moves the lowest nine bits of both line parities to the output, the highest first. */
  method PushLines(line0: Bits, lineBar0: Bits) returns (out: Bits)
    requires |line0| == |lineBar0| == 16
    ensures Pushed(line0, lineBar0, out, LOG2_CHUNK_SIZE)
  {
    hide Pushed;
    PushedNothing(line0, lineBar0);
    var line, lineBar := line0, lineBar0;
    out := [];
    var i := 0;
    while i < LOG2_CHUNK_SIZE
      invariant i <= LOG2_CHUNK_SIZE && Pushed(line0, lineBar0, out, i)
      invariant line == Zeros(i) + line0[..16 - i] && lineBar == Zeros(i) + lineBar0[..16 - i]
    {
      ShiftedOut(line0, lineBar0, out, i);
      out := [line[8]] + ([lineBar[8]] + out);
      line := [false] + line[..15];
      lineBar := [false] + lineBar[..15];
      i := i + 1;
    }
  }

  /** The output holds the pairs of lines 9 - i to 8. */
  ghost predicate Pushed(line: Bits, lineBar: Bits, out: Bits, i: nat) {
    |line| == |lineBar| == 16 && i <= LOG2_CHUNK_SIZE && |out| == 2 * i &&
    forall j: nat :: j < i ==>
      out[2 * j] == line[LOG2_CHUNK_SIZE - i + j] && out[2 * j + 1] == lineBar[LOG2_CHUNK_SIZE - i + j]
  }

  lemma PushedNothing(line: Bits, lineBar: Bits)
    requires |line| == |lineBar| == 16
    ensures Pushed(line, lineBar, [], 0)
  {}

  lemma ShiftedOut(line: Bits, lineBar: Bits, out: Bits, i: nat)
    requires Pushed(line, lineBar, out, i) && i < LOG2_CHUNK_SIZE
    ensures Pushed(line, lineBar, [line[8 - i]] + ([lineBar[8 - i]] + out), i + 1)
  {
    var out' := [line[8 - i]] + ([lineBar[8 - i]] + out);
    forall j: nat | j < i + 1
      ensures out'[2 * j] == line[8 - i + j] && out'[2 * j + 1] == lineBar[8 - i + j]
    {
      if j > 0 {
        var l := j - 1;
        assert out[2 * l] == line[LOG2_CHUNK_SIZE - i + l] && out[2 * l + 1] == lineBar[LOG2_CHUNK_SIZE - i + l];
        assert out'[2 * j] == out[2 * l] && out'[2 * j + 1] == out[2 * l + 1];
      }
    }
  }

  method PushColumns(column: Bits, out: Bits) returns (out': Bits)
    requires |column| == 8
    ensures |out'| == |out| + 6 && out'[6..] == out
    ensures forall k: nat :: k < 3 ==>
      out'[2 * k] == Odd(Select(column, k, true)) && out'[2 * k + 1] == Odd(Select(column, k, false))
  {
    hide Odd, Select, And;
    MasksSelect(column);
    out' := [Odd(And(column, MASK_0F))] + out;
    out' := [Odd(And(column, MASK_F0))] + out';
    out' := [Odd(And(column, MASK_33))] + out';
    out' := [Odd(And(column, MASK_CC))] + out';
    out' := [Odd(And(column, MASK_55))] + out';
    out' := [Odd(And(column, MASK_AA))] + out';
  }

  lemma ChecksumOf(b: Bits, column: Bits, line: Bits, lineBar: Bits, out: Bits)
    requires Scanned(b, column, line, lineBar) && |out| == ECC_BITS
    requires forall k: nat :: k < 3 ==>
      out[2 * k] == !Odd(Select(column, k, true)) && out[2 * k + 1] == !Odd(Select(column, k, false))
    requires forall j: nat :: j < LOG2_CHUNK_SIZE ==> out[6 + 2 * j] == !line[j] && out[6 + 2 * j + 1] == !lineBar[j]
    ensures out == Checksum(b)
  {
    hide Select, Odd;
    forall j: nat | j < ECC_BITS
      ensures out[j] == !Odd(Select(b, j / 2, j % 2 == 0))
    {
      var k := j / 2;
      if k < 3 {
        assert out[2 * k] == !Odd(Select(b, k, true)) && out[2 * k + 1] == !Odd(Select(b, k, false));
      } else {
        var l := k - 3;
        assert line[l] == Odd(Select(b, l + 3, true)) && lineBar[l] == Odd(Select(b, l + 3, false));
      }
    }
  }

  // ---------------------------------------------------------------- syndromes

  predicate Layout(chunk: array<bool>, ecc: array<bool>) {
    chunk.Length % 8 == 0 && chunk.Length <= MAX_CHUNK_BITS && ecc.Length == ECC_BITS && chunk != ecc
  }

  /** Stores the checksum of a chunk, low byte first. */
  method Generate(chunk: array<bool>, ecc: array<bool>)
    requires Layout(chunk, ecc)
    modifies ecc
    ensures ecc[..] == Checksum(chunk[..])
  {
    hide Checksum;
    var p := ParityScan(chunk);
    ghost var all := p;
    forall j | 0 <= j < 8 { ecc[j] := p[j]; }
    p := p[8..];
    forall j | 0 <= j < 8 { ecc[8 + j] := p[j]; }
    p := p[8..];
    forall j | 0 <= j < 8 { ecc[16 + j] := p[j]; }
    assert ecc[..] == all && chunk[..] == old(chunk[..]);
  }

  method Syndrome(chunk: array<bool>, ecc: array<bool>) returns (s: Bits)
    requires Layout(chunk, ecc)
    ensures |s| == ECC_BITS && s == Xor(Checksum(chunk[..]), ecc[..])
  {
    hide Checksum;
    var p := ParityScan(chunk);
    var q := ecc[16..24];
    q := ecc[8..16] + q;
    q := ecc[0..8] + q;
    assert q == ecc[..];
    s := Xor(p, q);
  }

  // ---------------------------------------------------------------- repair

  /** One less, modulo a power of two. */
  function Decrement(s: Bits): (r: Bits)
    ensures |r| == |s|
  {
    if s == [] then [] else if s[0] then [false] + s[1..] else [true] + Decrement(s[1..])
  }

  predicate IsZero(s: Bits) {
    forall i :: 0 <= i < |s| ==> !s[i]
  }

  lemma {:induction false} ZeroCount(s: Bits)
    ensures IsZero(s) <==> BitCount(s) == 0
  {
    if s != [] {
      ZeroCount(s[1..]);
      assert s == [s[0]] + s[1..];
    }
  }

  /** Clearing the lowest set bit leaves nothing exactly when at most one bit was set. */
  lemma {:induction false} OneBitTest(s: Bits)
    ensures IsZero(And(s, Decrement(s))) <==> BitCount(s) <= 1
  {
    if s != [] {
      var rest := s[1..];
      var a := And(s, Decrement(s));
      assert a == [a[0]] + a[1..];
      if s[0] {
        assert a[1..] == rest;
        ZeroCount(rest);
      } else {
        assert a[1..] == And(rest, Decrement(rest));
        OneBitTest(rest);
      }
    }
  }

  /** Adding a higher bit changes that bit alone. */
  lemma {:induction false} SetBit(p: nat, n: nat, k: nat)
    requires p < Pow2(n) && k <= n
    ensures PosBit(p + Pow2(n), k) == (k == n || PosBit(p, k))
    ensures !PosBit(p, n)
  {
    if n > 0 {
      assert (p + Pow2(n)) / 2 == p / 2 + Pow2(n - 1);
      if k > 0 {
        SetBit(p / 2, n - 1, k - 1);
      } else {
        SetBit(p / 2, n - 1, 0);
      }
    }
  }

  /** Different positions differ in some bit. */
  lemma {:induction false} DifferentBit(p: nat, q: nat, n: nat) returns (k: nat)
    requires p < Pow2(n) && q < Pow2(n) && p != q
    ensures k < n && PosBit(p, k) != PosBit(q, k)
  {
    if p % 2 != q % 2 {
      k := 0;
    } else {
      k := DifferentBit(p / 2, q / 2, n - 1);
      k := k + 1;
    }
  }

  /** Exactly one bit of every complementary pair is set, and together they spell `p`. */
  predicate Spells(s: Bits, p: nat, n: nat)
    requires |s| == 2 * n
  {
    forall k: nat :: k < n ==> s[2 * k] == PosBit(p, k) && s[2 * k + 1] == !PosBit(p, k)
  }

  /** What a repair does: nothing when at most one bit of the syndrome is set, for then the error
      is in the checksum; a flip of the one position that the syndrome spells; a failure when it
      spells none. */
  ghost predicate Repairs(chunk: Bits, syndrome: Bits, r: int, chunk': Bits)
    requires |syndrome| == ECC_BITS
  {
    if BitCount(syndrome) <= 1 then r == 0 && chunk' == chunk
    else if r == 0 then
      exists p: nat {:trigger Spells(syndrome, p, LOG2_CHUNK_BITS)} :: p < MAX_CHUNK_BITS &&
        Spells(syndrome, p, LOG2_CHUNK_BITS) &&
        chunk' == if p < |chunk| then Flip(chunk, p) else chunk
    else
      r == -1 && chunk' == chunk &&
      forall p: nat {:trigger Spells(syndrome, p, LOG2_CHUNK_BITS)} :: p < MAX_CHUNK_BITS ==>
        !Spells(syndrome, p, LOG2_CHUNK_BITS)
  }

  lemma ManyPositions()
    ensures Pow2(LOG2_CHUNK_BITS) == MAX_CHUNK_BITS
  {
    assert Pow2(4) == 16;
    assert Pow2(8) == 256;
    assert Pow2(12) == 4096;
  }

  lemma SpellNext(syndrome: Bits, p: nat, i: nat, one: bool)
    requires |syndrome| >= 2 * i + 2 && p < Pow2(i) && Spells(syndrome[..2 * i], p, i)
    requires syndrome[2 * i] == one && syndrome[2 * i + 1] == !one
    ensures var p' := if one then p + Pow2(i) else p; p' < Pow2(i + 1) && Spells(syndrome[..2 * (i + 1)], p', i + 1)
  {
    hide PosBit;
    var p' := if one then p + Pow2(i) else p;
    forall k: nat | k < i + 1
      ensures syndrome[2 * k] == PosBit(p', k) && syndrome[2 * k + 1] == !PosBit(p', k)
    {
      SetBit(p, i, k);
      if k < i {
        assert syndrome[..2 * i][2 * k] == PosBit(p, k) && syndrome[..2 * i][2 * k + 1] == !PosBit(p, k);
      }
    }
  }

  /** The position that a syndrome spells, if it spells one. */
  method Locate(syndrome: Bits) returns (found: bool, pos: nat)
    requires |syndrome| == ECC_BITS
    ensures found ==> pos < MAX_CHUNK_BITS && Spells(syndrome, pos, LOG2_CHUNK_BITS)
    ensures !found ==> forall p: nat :: !Spells(syndrome, p, LOG2_CHUNK_BITS)
  {
    hide PosBit, BitCount;
    pos := 0;
    var posBit := 1;
    var s := syndrome;
    var i := 0;
    while i < LOG2_CHUNK_BITS
      invariant i <= LOG2_CHUNK_BITS && s == syndrome[2 * i..] && posBit == Pow2(i) && pos < Pow2(i)
      invariant Spells(syndrome[..2 * i], pos, i)
    {
      if s[0] && !s[1] {
        SpellNext(syndrome, pos, i, true);
        pos := pos + posBit;
      } else if s[1] && !s[0] {
        SpellNext(syndrome, pos, i, false);
      } else {
        EqualPair(syndrome, i);
        return false, pos;
      }
      s := s[2..];
      posBit := 2 * posBit;
      i := i + 1;
    }
    ManyPositions();
    assert syndrome[..2 * i] == syndrome;
    return true, pos;
  }

  /** Repairs the chunk in place. */
  method Repair(chunk: array<bool>, syndrome: Bits) returns (r: int)
    requires |syndrome| == ECC_BITS
    modifies chunk
    ensures Repairs(old(chunk[..]), syndrome, r, chunk[..])
  {
    hide Spells, IsZero, And, Decrement, BitCount;
    ghost var before := chunk[..];
    ZeroCount(syndrome);
    if IsZero(syndrome) {
      return 0;
    }
    OneBitTest(syndrome);
    if IsZero(And(syndrome, Decrement(syndrome))) {
      return 0;
    }
    var found, pos := Locate(syndrome);
    if !found {
      return -1;
    }
    if pos < chunk.Length {
      chunk[pos] := !chunk[pos];
      assert chunk[..] == Flip(before, pos);
    }
    return 0;
  }

  // ---------------------------------------------------------------- errors

  function Weight(a: Bits, b: Bits): nat
    requires |a| == |b|
  {
    BitCount(Xor(a, b))
  }

  lemma {:induction false} SomeBit(d: Bits) returns (p: nat)
    requires BitCount(d) > 0
    ensures p < |d| && d[p]
  {
    if d[0] {
      p := 0;
    } else {
      p := SomeBit(d[1..]);
      p := p + 1;
    }
  }

  /** Undoing one of the flips. */
  lemma LessWeight(a: Bits, b: Bits) returns (p: nat)
    requires |a| == |b| && Weight(a, b) > 0
    ensures p < |a| && a[p] != b[p] && Weight(a, Flip(b, p)) == Weight(a, b) - 1
  {
    p := SomeBit(Xor(a, b));
    CountUpdate(Xor(a, b), p, false);
    assert Xor(a, Flip(b, p)) == Xor(a, b)[p := false];
  }

  lemma Weightless(a: Bits, b: Bits)
    requires |a| == |b| && Weight(a, b) == 0
    ensures a == b
  {
    ZeroCount(Xor(a, b));
  }

  /** The chunk is `chunk0` with one bit flipped, which is the case at a position that the pair of
      parities shows. */
  lemma OneFlip(a: Bits, b: Bits) returns (p: nat)
    requires |a| == |b| && Weight(a, b) == 1
    ensures p < |a| && b == Flip(a, p)
  {
    p := LessWeight(a, b);
    Weightless(a, Flip(b, p));
  }

  lemma TwoFlips(a: Bits, b: Bits) returns (p: nat, q: nat)
    requires |a| == |b| && Weight(a, b) == 2
    ensures p < |a| && q < |a| && p != q && b == Flip(Flip(a, p), q)
  {
    q := LessWeight(a, b);
    p := OneFlip(a, Flip(b, q));
  }

  /** A flip in the chunk flips one half of each pair of the checksum. */
  lemma FlipChecksum(b: Bits, p: nat, j: nat)
    requires p < |b| && j < ECC_BITS
    ensures Checksum(Flip(b, p))[j] == (Checksum(b)[j] != (PosBit(p, j / 2) == (j % 2 == 0)))
  {
    hide Odd, Select, PosBit;
    FlipParity(b, p, j / 2, j % 2 == 0);
  }

  lemma ManyBits(s: Bits, i: nat, j: nat)
    requires i < |s| && j < |s| && i != j && s[i] && s[j]
    ensures BitCount(s) > 1
  {
    CountUpdate(s, i, false);
    ZeroCount(s[i := false]);
    assert s[i := false][j];
  }

  /** The syndrome of a chunk and a checksum that was made for it. */
  function SyndromeOf(chunk: Bits, ecc: Bits): (s: Bits)
    requires |ecc| == ECC_BITS
    ensures |s| == ECC_BITS
  {
    Xor(Checksum(chunk), ecc)
  }

  lemma ChunkError(chunk0: Bits, p: nat)
    requires p < |chunk0|
    ensures Spells(SyndromeOf(Flip(chunk0, p), Checksum(chunk0)), p, LOG2_CHUNK_BITS)
  {
    hide Odd, Select, PosBit, Checksum;
    var s := SyndromeOf(Flip(chunk0, p), Checksum(chunk0));
    forall k: nat | k < LOG2_CHUNK_BITS
      ensures s[2 * k] == PosBit(p, k) && s[2 * k + 1] == !PosBit(p, k)
    {
      FlipChecksum(chunk0, p, 2 * k);
      FlipChecksum(chunk0, p, 2 * k + 1);
    }
  }

  /** Two halves of a pair are equal: the syndrome spells no position. */
  lemma EqualPair(s: Bits, k: nat)
    requires |s| == ECC_BITS && k < LOG2_CHUNK_BITS && s[2 * k] == s[2 * k + 1]
    ensures forall p: nat :: !Spells(s, p, LOG2_CHUNK_BITS)
  {
    hide PosBit;
  }

  lemma SpelledOnce(s: Bits, p: nat, q: nat)
    requires |s| == ECC_BITS && p < MAX_CHUNK_BITS && q < MAX_CHUNK_BITS
    requires Spells(s, p, LOG2_CHUNK_BITS) && Spells(s, q, LOG2_CHUNK_BITS)
    ensures p == q
  {
    hide PosBit;
    assert forall k: nat {:trigger PosBit(p, k)} :: k < LOG2_CHUNK_BITS ==>
      s[2 * k] == PosBit(p, k) && s[2 * k] == PosBit(q, k);
    if p != q {
      ManyPositions();
      var k := DifferentBit(p, q, LOG2_CHUNK_BITS);
    }
  }

  lemma SpellingBits(s: Bits, p: nat)
    requires |s| == ECC_BITS && Spells(s, p, LOG2_CHUNK_BITS)
    ensures BitCount(s) > 1
  {
    hide PosBit, BitCount;
    assert s[0] || s[1] by { assert s[2 * 0] == PosBit(p, 0) && s[2 * 0 + 1] == !PosBit(p, 0); }
    assert s[2] || s[3] by { assert s[2 * 1] == PosBit(p, 1) && s[2 * 1 + 1] == !PosBit(p, 1); }
    ManyBits(s, if s[0] then 0 else 1, if s[2] then 2 else 3);
  }

  /** Any single wrong bit, in the chunk or in the checksum, leaves the chunk correct after
      repair. */
  lemma SingleError(chunk0: Bits, chunk: Bits, ecc: Bits, r: int, chunk': Bits)
    requires |chunk| == |chunk0| <= MAX_CHUNK_BITS && |ecc| == ECC_BITS
    requires Weight(chunk0, chunk) + Weight(Checksum(chunk0), ecc) <= 1
    requires Repairs(chunk, SyndromeOf(chunk, ecc), r, chunk')
    ensures r == 0 && chunk' == chunk0
  {
    hide BitCount, Checksum, Spells, Flip;
    var s := SyndromeOf(chunk, ecc);
    if Weight(chunk0, chunk) == 0 {
      Weightless(chunk0, chunk);
    } else {
      var p := OneFlip(chunk0, chunk);
      Weightless(Checksum(chunk0), ecc);
      ChunkError(chunk0, p);
      SpellingBits(s, p);
      if r == 0 {
        var q: nat :| q < MAX_CHUNK_BITS && Spells(s, q, LOG2_CHUNK_BITS) &&
                      chunk' == if q < |chunk| then Flip(chunk, q) else chunk;
        SpelledOnce(s, p, q);
        FlipBack(chunk0, p);
      }
    }
  }

  lemma FlipBack(b: Bits, p: nat)
    requires p < |b|
    ensures Flip(Flip(b, p), p) == b
  {}

  /** Any two wrong bits are detected, and nothing is changed. */
  lemma DoubleError(chunk0: Bits, chunk: Bits, ecc: Bits, r: int, chunk': Bits)
    requires |chunk| == |chunk0| <= MAX_CHUNK_BITS && |ecc| == ECC_BITS
    requires Weight(chunk0, chunk) + Weight(Checksum(chunk0), ecc) == 2
    requires Repairs(chunk, SyndromeOf(chunk, ecc), r, chunk')
    ensures r == -1 && chunk' == chunk
  {
    hide BitCount, Checksum, Spells, Weight;
    var s := SyndromeOf(chunk, ecc);
    var w := Weight(chunk0, chunk);
    if w == 0 {
      Weightless(chunk0, chunk);
      CheckErrors(chunk0, ecc);
    } else if w == 1 {
      MixedErrors(chunk0, chunk, ecc);
    } else {
      Weightless(Checksum(chunk0), ecc);
      ChunkErrors(chunk0, chunk);
    }
  }

  /** The syndrome has several bits but spells nothing. */
  ghost predicate Hopeless(s: Bits) {
    |s| == ECC_BITS && BitCount(s) > 1 && forall p: nat :: !Spells(s, p, LOG2_CHUNK_BITS)
  }

  lemma CheckErrors(chunk0: Bits, ecc: Bits)
    requires |ecc| == ECC_BITS && Weight(Checksum(chunk0), ecc) == 2
    ensures Hopeless(SyndromeOf(chunk0, ecc))
  {
    hide BitCount, Checksum, Spells;
    var i, j := TwoFlips(Checksum(chunk0), ecc);
    var s := SyndromeOf(chunk0, ecc);
    assert forall l: nat :: l < ECC_BITS ==> s[l] == (l == i || l == j);
    var k := if 0 !in {i / 2, j / 2} then 0 else if 1 !in {i / 2, j / 2} then 1 else 2;
    EqualPair(s, k);
  }

  lemma MixedErrors(chunk0: Bits, chunk: Bits, ecc: Bits)
    requires |chunk| == |chunk0| && |ecc| == ECC_BITS
    requires Weight(chunk0, chunk) == 1 && Weight(Checksum(chunk0), ecc) == 1
    ensures Hopeless(SyndromeOf(chunk, ecc))
  {
    hide BitCount, Checksum, PosBit;
    var p := OneFlip(chunk0, chunk);
    var j := OneFlip(Checksum(chunk0), ecc);
    ChunkError(chunk0, p);
    var t, s := SyndromeOf(chunk, Checksum(chunk0)), SyndromeOf(chunk, ecc);
    assert s == Flip(t, j);
    BrokenPair(t, p, j);
  }

  lemma BrokenPair(t: Bits, p: nat, j: nat)
    requires |t| == ECC_BITS && Spells(t, p, LOG2_CHUNK_BITS) && j < ECC_BITS
    ensures Hopeless(Flip(t, j))
  {
    hide BitCount, PosBit;
    var s := Flip(t, j);
    var k := j / 2;
    var a, b := if k == 0 then 1 else 0, if k <= 1 then 2 else 1;
    assert t[2 * k] == !t[2 * k + 1];
    assert t[2 * a] == !t[2 * a + 1];
    assert t[2 * b] == !t[2 * b + 1];
    hide Spells;
    EqualPair(s, k);
    var x, y := if t[2 * a] then 2 * a else 2 * a + 1, if t[2 * b] then 2 * b else 2 * b + 1;
    assert x != y;
    ManyBits(s, x, y);
  }

  lemma ChunkErrors(chunk0: Bits, chunk: Bits)
    requires |chunk| == |chunk0| <= MAX_CHUNK_BITS && Weight(chunk0, chunk) == 2
    ensures Hopeless(SyndromeOf(chunk, Checksum(chunk0)))
  {
    hide BitCount, Checksum, PosBit, Spells;
    var p, q := TwoFlips(chunk0, chunk);
    var s := SyndromeOf(chunk, Checksum(chunk0));
    ManyPositions();
    var k := DifferentBit(p, q, LOG2_CHUNK_BITS);
    FlipChecksum(chunk0, p, 2 * k);
    FlipChecksum(Flip(chunk0, p), q, 2 * k);
    FlipChecksum(chunk0, p, 2 * k + 1);
    FlipChecksum(Flip(chunk0, p), q, 2 * k + 1);
    assert s[2 * k] && s[2 * k + 1];
    EqualPair(s, k);
    ManyBits(s, 2 * k, 2 * k + 1);
  }

  /** An undamaged chunk has a zero syndrome, and only that (or damage to more than two bits). */
  lemma CleanSyndrome(chunk: Bits, ecc: Bits)
    requires |ecc| == ECC_BITS
    ensures IsZero(SyndromeOf(chunk, ecc)) <==> ecc == Checksum(chunk)
  {
    hide Checksum;
    if IsZero(SyndromeOf(chunk, ecc)) {
      assert forall j :: 0 <= j < ECC_BITS ==> Checksum(chunk)[j] == ecc[j];
    }
  }

  /** The code is linear: the uninverted parities of a difference are the difference of the
      parities. */
  lemma Linear(a: Bits, b: Bits)
    requires |a| == |b|
    ensures Not(Checksum(Xor(a, b))) == Xor(Checksum(a), Checksum(b))
  {
    hide PosBit, Odd;
    forall j: nat | j < ECC_BITS
      ensures Odd(Select(Xor(a, b), j / 2, j % 2 == 0)) <==> Checksum(a)[j] != Checksum(b)[j]
    {
      var x, y := Select(a, j / 2, j % 2 == 0), Select(b, j / 2, j % 2 == 0);
      assert Select(Xor(a, b), j / 2, j % 2 == 0) == Xor(x, y);
      OddXor(x, y);
    }
  }

  lemma {:induction false} ErasedParity(b: Bits, k: nat, v: bool)
    requires |b| % 8 == 0 && forall i :: 0 <= i < |b| ==> b[i]
    ensures !Odd(Select(b, k, v))
  {
    if b == [] {
      CountZeros(Select(b, k, v));
    } else {
      var n := |b| - 8;
      var front, byte := b[..n], b[n..];
      ErasedParity(front, k, v);
      assert b == front + byte;
      if k < 3 {
        OnesColumn(byte, k, v);
        hide Odd, PosBit;
        CountZeros(Select(Zeros(8), k, v));
        SelectColumn(front, byte, Zeros(8), k, v);
        assert Xor(Zeros(8), byte) == byte;
      } else {
        OnesCount(byte);
        SelectLine(front, byte, k - 3, v);
      }
    }
  }

  lemma OnesCount(byte: Bits)
    requires |byte| == 8 && forall i :: 0 <= i < 8 ==> byte[i]
    ensures BitCount(byte) == 8
  {
    assert byte == [true, true, true, true] + [true, true, true, true];
    CountConcat([true, true, true, true], [true, true, true, true]);
  }

  lemma OnesColumn(byte: Bits, k: nat, v: bool)
    requires |byte| == 8 && k < 3 && forall i :: 0 <= i < 8 ==> byte[i]
    ensures !Odd(Select(byte, k, v))
  {
    MasksSelect(byte);
    var s := Select(byte, k, v);
    hide PosBit, Select;
    assert s == s[..4] + s[4..];
    CountConcat(s[..4], s[4..]);
    CountFour(s[..4]);
    CountFour(s[4..]);
  }

  lemma CountFour(s: Bits)
    requires |s| == 4
    ensures BitCount(s) ==
      (if s[0] then 1 else 0) + (if s[1] then 1 else 0) + (if s[2] then 1 else 0) + (if s[3] then 1 else 0)
  {
    assert s == [s[0], s[1], s[2], s[3]];
    CountConcat([s[0]], [s[1], s[2], s[3]]);
    CountConcat([s[1]], [s[2], s[3]]);
    CountConcat([s[2]], [s[3]]);
    assert [s[0], s[1], s[2], s[3]] == [s[0]] + ([s[1]] + ([s[2]] + [s[3]]));
    assert [s[1], s[2], s[3]] == [s[1]] + ([s[2]] + [s[3]]) && [s[2], s[3]] == [s[2]] + [s[3]];
  }

  /** The checksum of an erased chunk reads as erased. */
  lemma ErasedChunk(b: Bits)
    requires |b| % 8 == 0 && forall i :: 0 <= i < |b| ==> b[i]
    ensures forall j :: 0 <= j < ECC_BITS ==> Checksum(b)[j]
  {
    hide Odd, Select;
    forall j | 0 <= j < ECC_BITS
      ensures !Odd(Select(b, j / 2, j % 2 == 0))
    {
      ErasedParity(b, j / 2, j % 2 == 0);
    }
  }
}
