/**
 * The size and gas bookkeeping of the benchmarks (tests/gas-logger.ts): a depth-first count
 * of the distinct cells below a root and of their data bits, and a logger that records
 * the gas of each step and the size of each contract's code.
 *
 * A cell's hash is injective on cells, so the set of visited hex hashes is modelled as the
 * set of visited cells.
 */
module GasLogger {
  import opened TonCell
  import Verifier

  // ---------------------------------------------------------------------------
  // Counting the cells of a DAG
  // ---------------------------------------------------------------------------

  /** The total number of data bits of a set of cells. */
  ghost function SumBits(s: set<Cell>): nat
  {
    if s == {} then 0
    else
      var c :| c in s;
      |c.bits| + SumBits(s - {c})
  }

  /** SumBits does not depend on which cell the definition picks first. */
  lemma {:induction false} SumBitsRemove(s: set<Cell>, c: Cell)
    requires c in s
    ensures SumBits(s) == |c.bits| + SumBits(s - {c})
    decreases |s|
  {
    var d :| d in s && SumBits(s) == |d.bits| + SumBits(s - {d});
    if d != c {
      SumBitsRemove(s - {d}, c);
      SumBitsRemove(s - {c}, d);
      assert s - {d} - {c} == s - {c} - {d};
    }
  }

  lemma {:induction false} SumBitsUnion(a: set<Cell>, b: set<Cell>)
    requires a !! b
    ensures SumBits(a + b) == SumBits(a) + SumBits(b)
    decreases |a|
  {
    if a == {} {
      assert a + b == b;
    } else {
      var c :| c in a;
      SumBitsRemove(a + b, c);
      SumBitsRemove(a, c);
      assert (a + b) - {c} == (a - {c}) + b;
      SumBitsUnion(a - {c}, b);
      assert SumBits(a + b) == |c.bits| + SumBits(a - {c}) + SumBits(b);
    }
  }

  /** Every reference of a cell of s is in s. */
  ghost predicate ClosedUnderRefs(s: set<Cell>)
  {
    forall c, i :: c in s && 0 <= i < |c.refs| ==> c.refs[i] in s
  }

  /** A set closed under references holds everything reachable from each of its cells. */
  lemma {:induction false} ClosedContainsReach(s: set<Cell>, root: Cell)
    requires ClosedUnderRefs(s) && root in s
    ensures Reach(root) <= s
    decreases root, |root.refs| + 1
  {
    ClosedContainsReachRefs(s, root, |root.refs|);
  }

  lemma {:induction false} ClosedContainsReachRefs(s: set<Cell>, root: Cell, k: nat)
    requires ClosedUnderRefs(s) && root in s && k <= |root.refs|
    ensures ReachRefs(root, k) <= s
    decreases root, k
  {
    if k > 0 {
      ClosedContainsReachRefs(s, root, k - 1);
      ClosedContainsReach(s, root.refs[k - 1]);
    }
  }

  /**
   * The visited set after `calculateCellsAndBits(root, visited)` returns: unchanged when the
   * root was visited before, otherwise the root added and then each reference walked in
   * order, each walk starting from the set the previous one left.
   */
  ghost function Walk(root: Cell, visited: set<Cell>): set<Cell>
    decreases root, |root.refs| + 1
  {
    if root in visited then visited
    else WalkRefs(root, |root.refs|, visited + {root})
  }

  /** The visited set after the first k references of root have been walked. */
  ghost function WalkRefs(root: Cell, k: nat, visited: set<Cell>): set<Cell>
    requires k <= |root.refs|
    decreases root, k
  {
    if k == 0 then visited else Walk(root.refs[k - 1], WalkRefs(root, k - 1, visited))
  }

  /** The walk only adds cells, the root among them. */
  lemma {:induction false} WalkGrows(root: Cell, visited: set<Cell>)
    ensures visited <= Walk(root, visited)
    ensures root in Walk(root, visited)
    decreases root, |root.refs| + 1
  {
    if root !in visited {
      WalkRefsGrows(root, |root.refs|, visited + {root});
    }
  }

  lemma {:induction false} WalkRefsGrows(root: Cell, k: nat, visited: set<Cell>)
    requires k <= |root.refs|
    ensures visited <= WalkRefs(root, k, visited)
    decreases root, k
  {
    if k > 0 {
      WalkRefsGrows(root, k - 1, visited);
      WalkGrows(root.refs[k - 1], WalkRefs(root, k - 1, visited));
    }
  }

  /** The walk adds only cells reachable from the root. */
  lemma {:induction false} WalkBounded(root: Cell, visited: set<Cell>)
    ensures Walk(root, visited) <= visited + Reach(root)
    decreases root, |root.refs| + 1
  {
    if root !in visited {
      WalkRefsBounded(root, |root.refs|, visited + {root});
    }
  }

  lemma {:induction false} WalkRefsBounded(root: Cell, k: nat, visited: set<Cell>)
    requires k <= |root.refs|
    ensures WalkRefs(root, k, visited) <= visited + ReachRefs(root, k)
    decreases root, k
  {
    if k > 0 {
      WalkRefsBounded(root, k - 1, visited);
      WalkBounded(root.refs[k - 1], WalkRefs(root, k - 1, visited));
    }
  }

  /** Every cell from `from` to `to` was added with all its references. */
  ghost predicate AddedClosed(from: set<Cell>, to: set<Cell>)
  {
    forall c, i :: c in to && c !in from && 0 <= i < |c.refs| ==> c.refs[i] in to
  }

  /** Every cell the walk adds has all its references visited when the walk returns. */
  lemma {:induction false} WalkClosed(root: Cell, visited: set<Cell>)
    ensures AddedClosed(visited, Walk(root, visited))
    decreases root, |root.refs| + 1
  {
    if root !in visited {
      var k := |root.refs|;
      WalkRefsClosed(root, k, visited + {root});
      forall i | 0 <= i < k
        ensures root.refs[i] in Walk(root, visited)
      {
        WalkRefsHasRef(root, k, i, visited + {root});
      }
    }
  }

  lemma {:induction false} WalkRefsClosed(root: Cell, k: nat, visited: set<Cell>)
    requires k <= |root.refs|
    ensures AddedClosed(visited, WalkRefs(root, k, visited))
    decreases root, k
  {
    if k > 0 {
      var mid := WalkRefs(root, k - 1, visited);
      WalkRefsClosed(root, k - 1, visited);
      WalkClosed(root.refs[k - 1], mid);
      WalkGrows(root.refs[k - 1], mid);
    }
  }

  /** After the first k references are walked, each of them is visited. */
  lemma {:induction false} WalkRefsHasRef(root: Cell, k: nat, i: nat, visited: set<Cell>)
    requires i < k <= |root.refs|
    ensures root.refs[i] in WalkRefs(root, k, visited)
    decreases k
  {
    var mid := WalkRefs(root, k - 1, visited);
    WalkGrows(root.refs[k - 1], mid);
    if i < k - 1 {
      WalkRefsHasRef(root, k - 1, i, visited);
    }
  }

  /** From an empty visited set the walk visits exactly the cells reachable from the root. */
  lemma WalkFromEmpty(root: Cell)
    ensures Walk(root, {}) == Reach(root)
  {
    var w := Walk(root, {});
    WalkGrows(root, {});
    WalkBounded(root, {});
    WalkClosed(root, {});
    assert ClosedUnderRefs(w);
    ClosedContainsReach(w, root);
  }

  /** The `Set<string>` of hashes `calculateCellsAndBits` shares between its calls. */
  class VisitedSet {
    var cells: set<Cell>

    /** `new Set<string>()` */
    constructor ()
      ensures cells == {}
    {
      cells := {};
    }
  }

  /**
   * `calculateCellsAndBits(root, visited)`: the visited set becomes Walk(root, visited), and
   * the counts are the number of cells the walk adds and the sum of their bits.
   */
  method CalculateCellsAndBits(root: Cell, visited: VisitedSet) returns (nBits: nat, nCells: nat)
    modifies visited
    decreases root
    ensures visited.cells == Walk(root, old(visited.cells))
    ensures nCells == |visited.cells - old(visited.cells)|
    ensures nBits == SumBits(visited.cells - old(visited.cells))
  {
    if root in visited.cells {
      assert visited.cells - visited.cells == {};
      return 0, 0;
    }
    ghost var start := visited.cells;
    visited.cells := visited.cells + {root};
    nBits := |root.bits|;
    nCells := 1;
    assert visited.cells - start == {root};
    SumBitsRemove({root}, root);
    for i := 0 to |root.refs|
      invariant visited.cells == WalkRefs(root, i, start + {root})
      invariant start <= visited.cells
      invariant nCells == |visited.cells - start|
      invariant nBits == SumBits(visited.cells - start)
    {
      ghost var before := visited.cells;
      var childBits, childCells := CalculateCellsAndBits(root.refs[i], visited);
      WalkGrows(root.refs[i], before);
      assert visited.cells - start == (before - start) + (visited.cells - before);
      SumBitsUnion(before - start, visited.cells - before);
      nBits := nBits + childBits;
      nCells := nCells + childCells;
    }
  }

  /** A visited root adds nothing; an unvisited one adds itself, so both counts are at least its own. */
  lemma WalkCounts(root: Cell, visited: set<Cell>)
    ensures root in visited ==> Walk(root, visited) == visited
    ensures root !in visited ==>
      && |Walk(root, visited) - visited| >= 1
      && SumBits(Walk(root, visited) - visited) >= |root.bits|
  {
    if root !in visited {
      WalkGrows(root, visited);
      var added := Walk(root, visited) - visited;
      SumBitsRemove(added, root);
    }
  }

  /** Counting from an empty `visited` set counts every distinct reachable cell once. */
  method CountFresh(root: Cell) returns (nBits: nat, nCells: nat)
    ensures nCells == |Reach(root)|
    ensures nBits == SumBits(Reach(root))
  {
    var visited := new VisitedSet();
    nBits, nCells := CalculateCellsAndBits(root, visited);
    assert visited.cells - {} == visited.cells;
    WalkFromEmpty(root);
  }

  // ---------------------------------------------------------------------------
  // Trees without shared subcells
  // ---------------------------------------------------------------------------

  /** Every cell reachable from d is at most as large as d. */
  lemma {:induction false} ReachNoLarger(d: Cell, x: Cell)
    requires x in Reach(d)
    ensures NodeCount(x) <= NodeCount(d)
    decreases d, |d.refs| + 1
  {
    if x != d {
      ReachRefsNoLarger(d, |d.refs|, x);
    }
  }

  lemma {:induction false} ReachRefsNoLarger(d: Cell, k: nat, x: Cell)
    requires k <= |d.refs| && x in ReachRefs(d, k)
    ensures NodeCount(x) <= NodeCountRefs(d, k)
    decreases d, k
  {
    if x in ReachRefs(d, k - 1) {
      ReachRefsNoLarger(d, k - 1, x);
    } else {
      ReachNoLarger(d.refs[k - 1], x);
    }
  }

  /** No two references of any cell reach a common cell: the DAG is a tree. */
  ghost predicate TreeShaped(c: Cell)
    decreases c, |c.refs| + 1
  {
    RefsTreeShaped(c, |c.refs|)
  }

  ghost predicate RefsTreeShaped(c: Cell, k: nat)
    requires k <= |c.refs|
    decreases c, k
  {
    k == 0 ||
      (&& RefsTreeShaped(c, k - 1)
       && TreeShaped(c.refs[k - 1])
       && Reach(c.refs[k - 1]) !! ReachRefs(c, k - 1))
  }

  /** In a tree the distinct cells are the nodes: their number and bits are the tree's. */
  lemma {:induction false} TreeCounts(c: Cell)
    requires TreeShaped(c)
    ensures |Reach(c)| == NodeCount(c)
    ensures SumBits(Reach(c)) == TotalBits(c)
    decreases c, |c.refs| + 1
  {
    var below := ReachRefs(c, |c.refs|);
    RefsTreeCounts(c, |c.refs|);
    if c in below {
      ReachRefsNoLarger(c, |c.refs|, c);
      assert false;
    }
    SumBitsRemove({c}, c);
    SumBitsUnion({c}, below);
  }

  lemma {:induction false} RefsTreeCounts(c: Cell, k: nat)
    requires k <= |c.refs| && RefsTreeShaped(c, k)
    ensures |ReachRefs(c, k)| == NodeCountRefs(c, k)
    ensures SumBits(ReachRefs(c, k)) == TotalBitsRefs(c, k)
    decreases c, k
  {
    if k > 0 {
      RefsTreeCounts(c, k - 1);
      TreeCounts(c.refs[k - 1]);
      SumBitsUnion(ReachRefs(c, k - 1), Reach(c.refs[k - 1]));
    }
  }

  /** A cell whose every cell has at most one reference (such as the input chain) is a tree. */
  lemma {:induction false} LinearIsTree(c: Cell)
    requires forall x :: x in Reach(c) ==> |x.refs| <= 1
    ensures TreeShaped(c)
    decreases c
  {
    if |c.refs| == 1 {
      forall x | x in Reach(c.refs[0])
        ensures |x.refs| <= 1
      {
        assert x in ReachRefs(c, 1);
      }
      LinearIsTree(c.refs[0]);
    }
  }

  /** Every cell of the input chain has at most one reference. */
  lemma {:induction false} InputChainLinear(list: seq<int>)
    requires Verifier.ValidInputs(list)
    ensures forall x :: x in Reach(Verifier.InputChain(list).value) ==> |x.refs| <= 1
  {
    var c := Verifier.InputChain(list).value;
    if |list| == 1 {
      assert Reach(c) == {c};
    } else {
      Verifier.ValidInputsTail(list);
      InputChainLinear(list[1..]);
      var rest := Verifier.InputChain(list[1..]).value;
      assert c.refs == [rest];
      assert ReachRefs(c, 1) == ReachRefs(c, 0) + Reach(rest);
      assert Reach(c) == {c} + Reach(rest);
    }
  }

  /** `rememberBocSize` of an input chain records 256 bits per input and one cell per input. */
  lemma InputChainBocSize(list: seq<int>)
    requires Verifier.ValidInputs(list)
    ensures |Reach(Verifier.InputChain(list).value)| == |list|
    ensures SumBits(Reach(Verifier.InputChain(list).value)) == Verifier.InputBits * |list|
  {
    var c := Verifier.InputChain(list).value;
    InputChainLinear(list);
    LinearIsTree(c);
    TreeCounts(c);
    Verifier.InputChainSize(list);
  }

  // ---------------------------------------------------------------------------
  // Gas of transactions
  // ---------------------------------------------------------------------------

  /** The compute phase of a transaction: skipped, or run by the VM with the gas it used. */
  datatype ComputePhase = ComputeSkipped | ComputeVm(gasUsed: nat)

  /** The kinds of transaction description; only `generic` counts for gas here. */
  datatype Description =
    | Generic(computePhase: ComputePhase)
    | TickTock(computePhase: ComputePhase)
    | Storage
    | SplitOrMerge

  datatype Transaction = Transaction(description: Description)

  /** The argument of `rememberGas`: one transaction or an array of them. */
  datatype Transactions = Single(tx: Transaction) | Batch(txs: seq<Transaction>)

  predicate IsGenericVm(t: Transaction) {
    t.description.Generic? && t.description.computePhase.ComputeVm?
  }

  /** `extractGasFromTransaction`: the VM gas of a generic transaction, 0 for anything else. */
  function ExtractGas(t: Transaction): (g: nat)
    ensures IsGenericVm(t) ==> g == t.description.computePhase.gasUsed
    ensures !IsGenericVm(t) ==> g == 0
  {
    match t.description
    case Generic(ComputeVm(gas)) => gas
    case _ => 0
  }

  /** The gas of a sequence of transactions, summed from the first. */
  function GasSum(txs: seq<Transaction>): nat
    decreases |txs|
  {
    if txs == [] then 0 else GasSum(txs[..|txs| - 1]) + ExtractGas(txs[|txs| - 1])
  }

  /** What `rememberGas` stores for its argument. */
  function GasOf(transaction: Transactions): nat {
    match transaction
    case Single(t) => ExtractGas(t)
    case Batch(txs) => GasSum(txs)
  }

  lemma {:induction false} GasSumAppend(a: seq<Transaction>, b: seq<Transaction>)
    ensures GasSum(a + b) == GasSum(a) + GasSum(b)
    decreases |b|
  {
    if b == [] {
      assert a + b == a;
    } else {
      assert (a + b)[..|a + b| - 1] == a + b[..|b| - 1];
      GasSumAppend(a, b[..|b| - 1]);
    }
  }

  /** A one-element array logs the same gas as the transaction alone. */
  lemma GasOfSingleton(t: Transaction)
    ensures GasOf(Batch([t])) == GasOf(Single(t))
  {
    assert [t][..0] == [];
    assert GasSum([t]) == GasSum([]) + ExtractGas(t);
  }

  /** The sum bounds every summand, and transactions without VM gas add nothing. */
  lemma {:induction false} GasSumBounds(txs: seq<Transaction>)
    ensures forall i :: 0 <= i < |txs| ==> ExtractGas(txs[i]) <= GasSum(txs)
    ensures (forall i :: 0 <= i < |txs| ==> !IsGenericVm(txs[i])) ==> GasSum(txs) == 0
    decreases |txs|
  {
    if txs != [] {
      var init := txs[..|txs| - 1];
      GasSumBounds(init);
      assert forall i :: 0 <= i < |init| ==> init[i] == txs[i];
    }
  }

  /** The sum `rememberGas` accumulates: `gasUsed += extract(tx)` for each transaction, in order. */
  method SumGas(transaction: Transactions) returns (gasUsed: nat)
    ensures gasUsed == GasOf(transaction)
  {
    gasUsed := 0;
    match transaction {
      case Batch(txs) =>
        for i := 0 to |txs|
          invariant gasUsed == GasSum(txs[..i])
        {
          assert txs[..i + 1][..i] == txs[..i];
          gasUsed := gasUsed + ExtractGas(txs[i]);
        }
        assert txs[..|txs|] == txs;
      case Single(t) =>
        gasUsed := ExtractGas(t);
    }
  }

  // ---------------------------------------------------------------------------
  // The logger
  // ---------------------------------------------------------------------------

  /** The two `codeSize` keys of a contract. */
  function BitsKey(contractName: string): string {
    contractName + " bits"
  }

  function CellsKey(contractName: string): string {
    contractName + " cells"
  }

  /** The two keys of one contract differ, and no key of one contract is a key of another. */
  lemma SizeKeysDistinct(a: string, b: string)
    ensures BitsKey(a) != CellsKey(b)
    ensures BitsKey(a) == BitsKey(b) ==> a == b
    ensures CellsKey(a) == CellsKey(b) ==> a == b
  {
    if |BitsKey(a)| == |CellsKey(b)| {
      assert BitsKey(a)[|BitsKey(a)| - 1] == 's';
      assert BitsKey(a)[|BitsKey(a)| - 2] == 't';
      assert CellsKey(b)[|CellsKey(b)| - 2] == 'l';
    }
    if BitsKey(a) == BitsKey(b) {
      assert a == BitsKey(a)[..|a|];
    }
    if CellsKey(a) == CellsKey(b) {
      assert a == CellsKey(a)[..|a|];
    }
  }

  /** `GasLogAndSave`: the gas of each step and the code size of each contract of one benchmark run. */
  class GasLogAndSave {
    /** The folder the run is saved under; writing the file is not modelled. */
    const numericFolder: string
    var gasLogs: map<string, nat>
    var codeSize: map<string, nat>

    constructor (numericFolder: string)
      ensures this.numericFolder == numericFolder
      ensures gasLogs == map[] && codeSize == map[]
    {
      this.numericFolder := numericFolder;
      gasLogs := map[];
      codeSize := map[];
    }

    /** `rememberGas`: the step's entry becomes the gas of its transactions; nothing else changes. */
    method RememberGas(stepName: string, transaction: Transactions)
      modifies this
      ensures gasLogs == old(gasLogs)[stepName := GasOf(transaction)]
      ensures codeSize == old(codeSize)
    {
      var gasUsed := SumGas(transaction);
      gasLogs := gasLogs[stepName := gasUsed];
    }

    /**
     * `rememberBocSize`: the two entries of the contract become the bits and the number of
     * the distinct cells of its code; nothing else changes.
     */
    method RememberBocSize(contractName: string, code: Cell)
      modifies this
      ensures codeSize == old(codeSize)[BitsKey(contractName) := SumBits(Reach(code))]
                                       [CellsKey(contractName) := |Reach(code)|]
      ensures gasLogs == old(gasLogs)
    {
      var nBits, nCells := CountFresh(code);
      codeSize := codeSize[BitsKey(contractName) := nBits];
      codeSize := codeSize[CellsKey(contractName) := nCells];
    }
  }
}
