/**
 * The TON cell: a node holding at most 1023 data bits and at most 4 references to
 * further cells (TVM whitepaper, section 3.1.1), together with the cell builder of the
 * TypeScript library the wrapper is written against (`beginCell`, `storeUint`,
 * `storeBuffer`, `storeRef`, `endCell`).
 *
 * Bits are stored most significant first, as the library's bit builder writes them.
 * A builder writes into a bit buffer of 128 bytes (1024 bits), so a store fails only past
 * 1024 bits; the 1023-bit limit of a cell is checked when the cell is made (`endCell`).
 */
module TonCell {
  import opened Results

  const MaxBits: nat := 1023
  const MaxRefs: nat := 4
  /** Capacity of the bit buffer behind `beginCell()`: 128 bytes. */
  const BufferBits: nat := 1024

  /** An octet of a `Buffer`. */
  type Byte = x: int | 0 <= x < 256

  /** A cell as a value: its data bits and its ordered references. */
  datatype Cell = Cell(bits: seq<bool>, refs: seq<Cell>)

  /** The cell `beginCell().endCell()`: no bits, no references. */
  const EmptyCell: Cell := Cell([], [])

  /** The cell and every cell below it respect the per-cell limits. */
  predicate FitsLimits(c: Cell)
    decreases c
  {
    && |c.bits| <= MaxBits
    && |c.refs| <= MaxRefs
    && forall i :: 0 <= i < |c.refs| ==> FitsLimits(c.refs[i])
  }

  function Pow2(n: nat): (r: nat)
    ensures r >= 1
  {
    if n == 0 then 1 else 2 * Pow2(n - 1)
  }

  // ---------------------------------------------------------------------------
  // Unsigned integers and byte buffers as bit strings
  // ---------------------------------------------------------------------------

  /** The n-bit big-endian representation of v (what `storeUint(v, n)` appends). */
  function UintBits(v: nat, n: nat): (r: seq<bool>)
    requires v < Pow2(n)
    ensures |r| == n
  {
    if n == 0 then [] else UintBits(v / 2, n - 1) + [v % 2 == 1]
  }

  /** Reads a big-endian unsigned integer (what a slice's `loadUint(|bs|)` yields). */
  function BitsToUint(bs: seq<bool>): (v: nat)
    ensures v < Pow2(|bs|)
  {
    if bs == [] then 0
    else 2 * BitsToUint(bs[..|bs| - 1]) + (if bs[|bs| - 1] then 1 else 0)
  }

  lemma {:induction false} UintBitsRoundTrip(v: nat, n: nat)
    requires v < Pow2(n)
    ensures BitsToUint(UintBits(v, n)) == v
  {
    if n > 0 {
      var init := UintBits(v / 2, n - 1);
      var bs := UintBits(v, n);
      assert bs[..|bs| - 1] == init;
      UintBitsRoundTrip(v / 2, n - 1);
    }
  }

  lemma {:induction false} BitsToUintRoundTrip(bs: seq<bool>)
    ensures UintBits(BitsToUint(bs), |bs|) == bs
  {
    if bs != [] {
      var init := bs[..|bs| - 1];
      var w := BitsToUint(init);
      var b: nat := if bs[|bs| - 1] then 1 else 0;
      var v := BitsToUint(bs);
      assert v == 2 * w + b;
      assert v / 2 == w && v % 2 == b;
      BitsToUintRoundTrip(init);
      assert UintBits(v, |bs|) == UintBits(w, |bs| - 1) + [b == 1];
      assert init + [bs[|bs| - 1]] == bs;
    }
  }

  /** The reading of a fixed-width field determines its bits. */
  lemma UintBitsInjective(v: nat, w: nat, n: nat)
    requires v < Pow2(n) && w < Pow2(n)
    requires UintBits(v, n) == UintBits(w, n)
    ensures v == w
  {
    UintBitsRoundTrip(v, n);
    UintBitsRoundTrip(w, n);
  }

  lemma Pow2Eight()
    ensures Pow2(8) == 256
  {
  }

  lemma {:induction false} Pow2Add(a: nat, b: nat)
    ensures Pow2(a + b) == Pow2(a) * Pow2(b)
  {
    if a > 0 {
      Pow2Add(a - 1, b);
    }
  }

  lemma Pow2ThirtyTwo()
    ensures Pow2(32) == 0x1_0000_0000
  {
    Pow2Eight();
    Pow2Add(8, 8);
    Pow2Add(16, 16);
  }

  /** The bits of a buffer, eight per byte (what `storeBuffer(buf)` appends). */
  function BytesToBits(buf: seq<Byte>): (r: seq<bool>)
    ensures |r| == 8 * |buf|
  {
    if buf == [] then []
    else
      Pow2Eight();
      UintBits(buf[0], 8) + BytesToBits(buf[1..])
  }

  /** Reads a bit string of whole bytes back into a buffer (`loadBuffer`). */
  function BitsToBytes(bs: seq<bool>): (r: seq<Byte>)
    requires |bs| % 8 == 0
    ensures |r| == |bs| / 8
  {
    if bs == [] then []
    else
      Pow2Eight();
      [BitsToUint(bs[..8]) as Byte] + BitsToBytes(bs[8..])
  }

  lemma {:induction false} BytesToBitsRoundTrip(buf: seq<Byte>)
    ensures BitsToBytes(BytesToBits(buf)) == buf
  {
    if buf != [] {
      Pow2Eight();
      var head := UintBits(buf[0], 8);
      var bs := BytesToBits(buf);
      assert bs[..8] == head;
      assert bs[8..] == BytesToBits(buf[1..]);
      UintBitsRoundTrip(buf[0], 8);
      BytesToBitsRoundTrip(buf[1..]);
    }
  }

  lemma {:induction false} BitsToBytesRoundTrip(bs: seq<bool>)
    requires |bs| % 8 == 0
    ensures BytesToBits(BitsToBytes(bs)) == bs
  {
    if bs != [] {
      Pow2Eight();
      BitsToUintRoundTrip(bs[..8]);
      BitsToBytesRoundTrip(bs[8..]);
      assert bs[..8] + bs[8..] == bs;
    }
  }

  // ---------------------------------------------------------------------------
  // The cell graph below a root
  // ---------------------------------------------------------------------------

  /** Every cell reachable from c, c included; equal subtrees are one cell. */
  function Reach(c: Cell): set<Cell>
    decreases c, |c.refs| + 1
  {
    {c} + ReachRefs(c, |c.refs|)
  }

  /** The cells reachable from the first k references of c. */
  function ReachRefs(c: Cell, k: nat): set<Cell>
    requires k <= |c.refs|
    decreases c, k
  {
    if k == 0 then {} else ReachRefs(c, k - 1) + Reach(c.refs[k - 1])
  }

  /** The number of nodes of c read as a tree: a shared subcell counts once per occurrence. */
  function NodeCount(c: Cell): (n: nat)
    decreases c, |c.refs| + 1
  {
    1 + NodeCountRefs(c, |c.refs|)
  }

  function NodeCountRefs(c: Cell, k: nat): nat
    requires k <= |c.refs|
    decreases c, k
  {
    if k == 0 then 0 else NodeCountRefs(c, k - 1) + NodeCount(c.refs[k - 1])
  }

  /** The number of data bits of c read as a tree. */
  function TotalBits(c: Cell): nat
    decreases c, |c.refs| + 1
  {
    |c.bits| + TotalBitsRefs(c, |c.refs|)
  }

  function TotalBitsRefs(c: Cell, k: nat): nat
    requires k <= |c.refs|
    decreases c, k
  {
    if k == 0 then 0 else TotalBitsRefs(c, k - 1) + TotalBits(c.refs[k - 1])
  }

  /** The length of the longest reference path from c (0 for a cell without references). */
  function Depth(c: Cell): nat
    decreases c, |c.refs| + 1
  {
    DepthRefs(c, |c.refs|)
  }

  function DepthRefs(c: Cell, k: nat): nat
    requires k <= |c.refs|
    decreases c, k
  {
    if k == 0 then 0
    else
      var d := DepthRefs(c, k - 1);
      var e := 1 + Depth(c.refs[k - 1]);
      if d < e then e else d
  }

  // ---------------------------------------------------------------------------
  // The builder
  // ---------------------------------------------------------------------------

  /** The ways a builder call throws. */
  datatype CellError =
    | MissingValue      // storeUint given `undefined`
    | ValueOutOfRange   // storeUint given a value outside [0, 2^n)
    | BitOverflow       // past 1024 bits in a builder, or past 1023 bits when the cell is made
    | RefOverflow       // more than 4 references in one cell

  datatype Status = Done | Failed(error: CellError)

  /** What `storeUint(v, n)` does to a builder that already holds `used` bits. */
  function UintStatus(used: nat, v: int, n: nat): Status {
    if !(0 <= v < Pow2(n)) then Failed(ValueOutOfRange)
    else if used + n > BufferBits then Failed(BitOverflow)
    else Done
  }

  /** What `storeBuffer(buf)` does to a builder that already holds `used` bits. */
  function BufferStatus(used: nat, buf: seq<Byte>): Status {
    if used + 8 * |buf| > BufferBits then Failed(BitOverflow) else Done
  }

  /** What `storeRef(c)` does to a builder that already holds `held` references. */
  function RefStatus(held: nat): Status {
    if held >= MaxRefs then Failed(RefOverflow) else Done
  }

  class Builder {
    var bits: seq<bool>
    var refs: seq<Cell>

    ghost predicate Valid()
      reads this
    {
      && |bits| <= BufferBits
      && |refs| <= MaxRefs
      && forall i :: 0 <= i < |refs| ==> FitsLimits(refs[i])
    }

    /** `beginCell()` */
    constructor ()
      ensures Valid() && bits == [] && refs == []
    {
      bits := [];
      refs := [];
    }

    method StoreUint(v: int, n: nat) returns (s: Status)
      requires Valid()
      modifies this
      ensures Valid()
      ensures s == UintStatus(old(|bits|), v, n)
      ensures s.Done? ==> 0 <= v < Pow2(n) && bits == old(bits) + UintBits(v, n)
      ensures s.Failed? ==> bits == old(bits)
      ensures refs == old(refs)
    {
      s := UintStatus(|bits|, v, n);
      if s.Done? {
        bits := bits + UintBits(v, n);
      }
    }

    method StoreBuffer(buf: seq<Byte>) returns (s: Status)
      requires Valid()
      modifies this
      ensures Valid()
      ensures s == BufferStatus(old(|bits|), buf)
      ensures bits == if s.Done? then old(bits) + BytesToBits(buf) else old(bits)
      ensures refs == old(refs)
    {
      s := BufferStatus(|bits|, buf);
      if s.Done? {
        bits := bits + BytesToBits(buf);
      }
    }

    /** Every cell of the library respects the limits, hence the precondition. */
    method StoreRef(c: Cell) returns (s: Status)
      requires Valid() && FitsLimits(c)
      modifies this
      ensures Valid()
      ensures s == RefStatus(old(|refs|))
      ensures refs == if s.Done? then old(refs) + [c] else old(refs)
      ensures bits == old(bits)
    {
      s := RefStatus(|refs|);
      if s.Done? {
        refs := refs + [c];
      }
    }

    /** `endCell()`: the cell constructor refuses more than 1023 bits. */
    method EndCell() returns (r: Result<Cell, CellError>)
      requires Valid()
      ensures r.Ok? <==> |bits| <= MaxBits
      ensures r.Ok? ==> r.value == Cell(bits, refs) && FitsLimits(r.value)
      ensures r.Err? ==> r.error == BitOverflow
    {
      if |bits| > MaxBits {
        return Err(BitOverflow);
      }
      r := Ok(Cell(bits, refs));
    }
  }
}
