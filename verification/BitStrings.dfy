/** Machine words and buffers as strings of bits, the least significant bit first. */
module BitStrings {
  type Bits = seq<bool>

  function Xor(a: Bits, b: Bits): (r: Bits)
    requires |a| == |b|
    ensures |r| == |a| && forall i :: 0 <= i < |a| ==> r[i] == (a[i] != b[i])
  {
    seq(|a|, i requires 0 <= i < |a| => a[i] != b[i])
  }

  function Not(a: Bits): (r: Bits)
    ensures |r| == |a| && forall i :: 0 <= i < |a| ==> r[i] == !a[i]
  {
    seq(|a|, i requires 0 <= i < |a| => !a[i])
  }

  function Zeros(n: nat): (r: Bits)
    ensures |r| == n && forall i :: 0 <= i < n ==> !r[i]
  {
    seq(n, _ => false)
  }

  function Pow2(n: nat): (r: nat)
    ensures r > 0
  {
    if n == 0 then 1 else 2 * Pow2(n - 1)
  }

  /** The low `width` bits of a number. */
  function Binary(n: nat, width: nat): (r: Bits)
    ensures |r| == width
  {
    if width == 0 then [] else [n % 2 == 1] + Binary(n / 2, width - 1)
  }

  function Value(b: Bits): (n: nat)
    ensures n < Pow2(|b|)
  {
    if b == [] then 0 else (if b[0] then 1 else 0) + 2 * Value(b[1..])
  }

  /** Reading a string of bits as a number and writing it out again. */
  lemma {:induction false} BinaryValue(b: Bits, more: nat)
    ensures Binary(Value(b), |b| + more) == b + Zeros(more)
  {
    if b == [] {
      BinaryZero(more);
      assert b + Zeros(more) == Zeros(more);
    } else {
      BinaryValue(b[1..], more);
      assert Value(b) / 2 == Value(b[1..]);
      assert b + Zeros(more) == [b[0]] + (b[1..] + Zeros(more));
    }
  }

  lemma {:induction false} BinaryZero(width: nat)
    ensures Binary(0, width) == Zeros(width)
  {
    if width > 0 {
      BinaryZero(width - 1);
      assert Zeros(width) == [false] + Zeros(width - 1);
    }
  }
}
