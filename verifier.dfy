/**
 * The off-chain wrapper of the Groth16 verifier contract (wrappers/Verifier.ts): how a
 * verify request is laid out in cells, the public inputs as a right-leaning chain of
 * one-value cells, the deploy message, and the argument stack of the `get_verify`
 * get-method. A model decoder (what the on-chain parser reads) states the layout.
 */
module Verifier {
  import opened Results
  import opened TonCell

  /** `Opcodes.verify`, the 32-bit tag of a verify request. */
  const VerifyOpcode: nat := 0x3b3cca17
  const OpcodeBits: nat := 32
  const QueryIdBits: nat := 64
  /** Width of one public input in the chain. */
  const InputBits: nat := 256

  /** `SendMode.PAY_GAS_SEPARATELY` of the library: fees are paid apart from the value. */
  const PayGasSeparately: nat := 1

  /** `VerifierConfig` is the empty record type. */
  datatype VerifierConfig = VerifierConfig

  /** The arguments of `provider.internal`: value, send mode and message body. */
  datatype InternalMessage = InternalMessage(value: int, sendMode: nat, body: Cell)

  /** A get-method stack entry (`TupleItem`). */
  datatype TupleItem = SliceItem(cell: Cell) | IntItem(value: int)

  /** The arguments of `provider.get`: method name and stack. */
  datatype GetMethodCall = GetMethodCall(name: string, stack: seq<TupleItem>)

  /** What the model decoder rejects. */
  datatype ParseError = Malformed | UnknownOpcode(opcode: nat)

  /** A decoded verify request body. */
  datatype VerifyRequest = VerifyRequest(
    opcode: nat,
    queryId: nat,
    piA: seq<Byte>,
    piB: seq<Byte>,
    piC: seq<Byte>,
    pubInputs: seq<int>)

  predicate IsUint256(v: int) {
    0 <= v < Pow2(InputBits)
  }

  /** The lists `cellFromInputList` accepts: non-empty, every value an unsigned 256-bit integer. */
  predicate ValidInputs(list: seq<int>) {
    |list| > 0 && forall i :: 0 <= i < |list| ==> IsUint256(list[i])
  }

  /** The rest of a valid list of at least two inputs is valid. */
  lemma ValidInputsTail(list: seq<int>)
    requires ValidInputs(list) && |list| > 1
    ensures ValidInputs(list[1..])
  {
    forall i | 0 <= i < |list| - 1
      ensures IsUint256(list[1..][i])
    {
      assert list[1..][i] == list[i + 1];
    }
  }

  // ---------------------------------------------------------------------------
  // The public-input chain
  // ---------------------------------------------------------------------------

  /**
   * The cell `cellFromInputList(list)` returns: list[0] as 256 bits, and one reference to
   * the chain of the rest when there is a rest. The empty list throws (list[0] is
   * undefined), and so does a value outside [0, 2^256).
   */
  function InputChain(list: seq<int>): (r: Result<Cell, CellError>)
    ensures r.Ok? <==> ValidInputs(list)
    ensures r.Err? ==> r.error == if list == [] then MissingValue else ValueOutOfRange
    ensures r.Ok? ==> FitsLimits(r.value) && |r.value.bits| == InputBits
    decreases |list|
  {
    if |list| == 0 then Err(MissingValue)
    else if !IsUint256(list[0]) then Err(ValueOutOfRange)
    else if |list| == 1 then Ok(Cell(UintBits(list[0], InputBits), []))
    else
      match InputChain(list[1..])
      case Err(e) => Err(e)
      case Ok(rest) => Ok(Cell(UintBits(list[0], InputBits), [rest]))
  }

  /** `cellFromInputList`: one builder per cell, the rest of the list built recursively. */
  method CellFromInputList(list: seq<int>) returns (r: Result<Cell, CellError>)
    ensures r == InputChain(list)
    decreases |list|
  {
    if |list| == 0 {
      return Err(MissingValue);
    }
    var builder := new Builder();
    var s := builder.StoreUint(list[0], InputBits);
    if s.Failed? {
      return Err(s.error);
    }
    if |list| > 1 {
      var rest := CellFromInputList(list[1..]);
      if rest.Err? {
        return Err(rest.error);
      }
      s := builder.StoreRef(rest.value);
      assert builder.refs == [rest.value];
    }
    r := builder.EndCell();
    assert r.Ok? && r.value.bits == UintBits(list[0], InputBits);
  }

  /** The model decoder of the chain: read 256 bits, then follow the sole reference if any. */
  function DecodeInputChain(c: Cell): (r: Result<seq<int>, ParseError>)
    ensures r.Ok? ==> ValidInputs(r.value)
    decreases c
  {
    if |c.bits| != InputBits then Err(Malformed)
    else if |c.refs| == 0 then Ok([BitsToUint(c.bits)])
    else if |c.refs| == 1 then
      match DecodeInputChain(c.refs[0])
      case Err(e) => Err(e)
      case Ok(rest) => Ok([BitsToUint(c.bits)] + rest)
    else Err(Malformed)
  }

  /** Walking the chain gives the list back, in order. */
  lemma {:induction false} InputChainRoundTrip(list: seq<int>)
    requires ValidInputs(list)
    ensures DecodeInputChain(InputChain(list).value) == Ok(list)
  {
    var c := InputChain(list).value;
    UintBitsRoundTrip(list[0], InputBits);
    if |list| == 1 {
      assert list == [list[0]];
    } else {
      ValidInputsTail(list);
      InputChainRoundTrip(list[1..]);
      assert [list[0]] + list[1..] == list;
    }
  }

  /** The chain is the only cell that decodes to its list: the encoding is canonical. */
  lemma {:induction false} InputChainCanonical(c: Cell, list: seq<int>)
    requires DecodeInputChain(c) == Ok(list)
    ensures InputChain(list) == Ok(c)
  {
    BitsToUintRoundTrip(c.bits);
    if |c.refs| == 1 {
      var rest := DecodeInputChain(c.refs[0]).value;
      InputChainCanonical(c.refs[0], rest);
      assert list[1..] == rest;
      assert c.refs == [c.refs[0]];
    } else {
      assert c.refs == [];
    }
  }

  /** The cell reached from c by following the first reference k times. */
  function Link(c: Cell, k: nat): Option<Cell>
    decreases k
  {
    if k == 0 then Some(c)
    else if |c.refs| == 0 then None
    else Link(c.refs[0], k - 1)
  }

  /**
   * Cell i of the chain holds list[i] in exactly 256 bits; every cell but the last has
   * exactly one reference and the last has none.
   */
  lemma {:induction false} InputChainLinks(list: seq<int>, i: nat)
    requires ValidInputs(list) && i < |list|
    ensures var cell := Link(InputChain(list).value, i);
      && cell.Some?
      && cell.value.bits == UintBits(list[i], InputBits)
      && |cell.value.refs| == if i < |list| - 1 then 1 else 0
  {
    if i > 0 {
      ValidInputsTail(list);
      InputChainLinks(list[1..], i - 1);
    }
  }

  /** The chain has |list| cells, 256 bits each, and depth |list| - 1. */
  lemma {:induction false} InputChainSize(list: seq<int>)
    requires ValidInputs(list)
    ensures var c := InputChain(list).value;
      && NodeCount(c) == |list|
      && TotalBits(c) == InputBits * |list|
      && Depth(c) == |list| - 1
  {
    var c := InputChain(list).value;
    if |list| == 1 {
      assert c.refs == [];
    } else {
      ValidInputsTail(list);
      InputChainSize(list[1..]);
      var rest := InputChain(list[1..]).value;
      assert c.refs == [rest];
      assert NodeCountRefs(c, 1) == NodeCount(rest);
      assert TotalBitsRefs(c, 1) == TotalBits(rest);
      assert DepthRefs(c, 1) == 1 + Depth(rest);
    }
  }

  // ---------------------------------------------------------------------------
  // The verify request
  // ---------------------------------------------------------------------------

  /** `opts.queryID ?? 0` */
  function QueryIdOrZero(queryID: Option<int>): (q: int)
    ensures queryID.None? ==> q == 0
    ensures queryID.Some? ==> q == queryID.value
  {
    match queryID
    case Some(q) => q
    case None => 0
  }

  /** The first two fields of the body: the opcode in 32 bits, then the query id in 64 bits. */
  function HeaderBits(q: nat): (r: seq<bool>)
    requires q < Pow2(QueryIdBits)
    ensures |r| == OpcodeBits + QueryIdBits
  {
    Pow2ThirtyTwo();
    UintBits(VerifyOpcode, OpcodeBits) + UintBits(q, QueryIdBits)
  }

  /** A cell holding a proof buffer and one reference to the next cell of the body. */
  function ProofCell(buf: seq<Byte>, next: Cell): Cell {
    Cell(BytesToBits(buf), [next])
  }

  /**
   * The referenced part of the body `sendVerify` sends: the cell of pi_a, whose one
   * reference is the cell of pi_b, whose one reference is the cell of pi_c, whose one
   * reference is the input chain. As the TypeScript expression evaluates, the three
   * buffers are stored first (each fails only past the 1024-bit builder buffer), then the
   * chain is built, and only then are the cells of pi_c, pi_b and pi_a made, each refusing
   * more than 1023 bits.
   */
  function ProofChain(piA: seq<Byte>, piB: seq<Byte>, piC: seq<Byte>, pubInputs: seq<int>)
    : (r: Result<Cell, CellError>)
    ensures r.Ok? <==>
      && 8 * |piA| <= MaxBits && 8 * |piB| <= MaxBits && 8 * |piC| <= MaxBits
      && ValidInputs(pubInputs)
    ensures r.Ok? ==> FitsLimits(r.value)
    ensures r.Err? && ValidInputs(pubInputs) ==> r.error == BitOverflow
    ensures (&& 8 * |piA| <= BufferBits && 8 * |piB| <= BufferBits && 8 * |piC| <= BufferBits
             && !ValidInputs(pubInputs)) ==> r == Err(InputChain(pubInputs).error)
  {
    if 8 * |piA| > BufferBits then Err(BitOverflow)
    else if 8 * |piB| > BufferBits then Err(BitOverflow)
    else if 8 * |piC| > BufferBits then Err(BitOverflow)
    else
      match InputChain(pubInputs)
      case Err(e) => Err(e)
      case Ok(chain) =>
        if 8 * |piC| > MaxBits then Err(BitOverflow)
        else if 8 * |piB| > MaxBits then Err(BitOverflow)
        else if 8 * |piA| > MaxBits then Err(BitOverflow)
        else
        var cellC := ProofCell(piC, chain);
        var cellB := ProofCell(piB, cellC);
        var cellA := ProofCell(piA, cellB);
        assert FitsLimits(cellC) && FitsLimits(cellB) && FitsLimits(cellA);
        Ok(cellA)
  }

  /**
   * The body `sendVerify` sends: 32-bit opcode, 64-bit query id and one reference to the
   * proof chain. A query id outside [0, 2^64) throws before anything else is built.
   */
  function VerifyBody(piA: seq<Byte>, piB: seq<Byte>, piC: seq<Byte>, pubInputs: seq<int>, queryID: Option<int>)
    : (r: Result<Cell, CellError>)
    ensures r.Ok? <==>
      && 0 <= QueryIdOrZero(queryID) < Pow2(QueryIdBits)
      && 8 * |piA| <= MaxBits && 8 * |piB| <= MaxBits && 8 * |piC| <= MaxBits
      && ValidInputs(pubInputs)
    ensures !(0 <= QueryIdOrZero(queryID) < Pow2(QueryIdBits)) ==> r == Err(ValueOutOfRange)
    ensures r.Ok? ==> FitsLimits(r.value)
  {
    var q := QueryIdOrZero(queryID);
    if !(0 <= q < Pow2(QueryIdBits)) then Err(ValueOutOfRange)
    else
      match ProofChain(piA, piB, piC, pubInputs)
      case Err(e) => Err(e)
      case Ok(cellA) => Ok(Cell(HeaderBits(q), [cellA]))
  }

  /**
   * A 128-byte pi_a fits the builder buffer but not a cell, and its cell is made only
   * after the chain: with no inputs the missing list[0] throws first; with one input the
   * 1024-bit cell of pi_a is refused.
   */
  lemma FullBufferFailsAfterChain()
    ensures var full: seq<Byte> := seq(128, _ => 0);
      && VerifyBody(full, [], [], [], None) == Err(MissingValue)
      && VerifyBody(full, [], [], [0], None) == Err(BitOverflow)
  {
    var full: seq<Byte> := seq(128, _ => 0);
    assert InputChain([]) == Err(MissingValue);
  }

  /** Takes a cell of whole bytes with exactly one reference apart into its bytes and that reference. */
  function ParseLink(c: Cell): (r: Result<(seq<Byte>, Cell), ParseError>)
    ensures r.Ok? ==> ProofCell(r.value.0, r.value.1) == c
  {
    if |c.bits| % 8 != 0 || |c.refs| != 1 then Err(Malformed)
    else
      BitsToBytesRoundTrip(c.bits);
      Ok((BitsToBytes(c.bits), c.refs[0]))
  }

  /** The model decoder of the proof chain: the buffers of pi_a, pi_b and pi_c, then the inputs. */
  function ParseProofChain(a: Cell): (r: Result<(seq<Byte>, seq<Byte>, seq<Byte>, seq<int>), ParseError>)
    ensures r.Ok? ==> |a.refs| == 1 && |a.refs[0].refs| == 1 && |a.refs[0].refs[0].refs| == 1
  {
    var x :- ParseLink(a);
    var y :- ParseLink(x.1);
    var z :- ParseLink(y.1);
    var inputs :- DecodeInputChain(z.1);
    Ok((x.0, y.0, z.0, inputs))
  }

  /** The model decoder of a verify request body. */
  function ParseVerifyBody(body: Cell): (r: Result<VerifyRequest, ParseError>)
    ensures r.Ok? ==> r.value.opcode == VerifyOpcode && r.value.queryId < Pow2(QueryIdBits)
  {
    if |body.bits| != OpcodeBits + QueryIdBits || |body.refs| != 1 then Err(Malformed)
    else
      var op := BitsToUint(body.bits[..OpcodeBits]);
      if op != VerifyOpcode then Err(UnknownOpcode(op))
      else
        var q := BitsToUint(body.bits[OpcodeBits..]);
        var p :- ParseProofChain(body.refs[0]);
        Ok(VerifyRequest(op, q, p.0, p.1, p.2, p.3))
  }

  /** The header reads back as the opcode and the query id. */
  lemma HeaderRoundTrip(q: nat)
    requires q < Pow2(QueryIdBits)
    ensures BitsToUint(HeaderBits(q)[..OpcodeBits]) == VerifyOpcode
    ensures BitsToUint(HeaderBits(q)[OpcodeBits..]) == q
  {
    Pow2ThirtyTwo();
    var h := HeaderBits(q);
    assert h[..OpcodeBits] == UintBits(VerifyOpcode, OpcodeBits);
    assert h[OpcodeBits..] == UintBits(q, QueryIdBits);
    UintBitsRoundTrip(VerifyOpcode, OpcodeBits);
    UintBitsRoundTrip(q, QueryIdBits);
  }

  /** 96 bits that start with the opcode are the header of the query id they end with. */
  lemma HeaderCanonical(bits: seq<bool>)
    requires |bits| == OpcodeBits + QueryIdBits
    requires BitsToUint(bits[..OpcodeBits]) == VerifyOpcode
    ensures BitsToUint(bits[OpcodeBits..]) < Pow2(QueryIdBits)
    ensures HeaderBits(BitsToUint(bits[OpcodeBits..])) == bits
  {
    BitsToUintRoundTrip(bits[..OpcodeBits]);
    BitsToUintRoundTrip(bits[OpcodeBits..]);
    assert bits == bits[..OpcodeBits] + bits[OpcodeBits..];
  }

  /** A proof cell parses back to its buffer and its reference. */
  lemma ProofCellRoundTrip(buf: seq<Byte>, next: Cell)
    ensures ParseLink(ProofCell(buf, next)) == Ok((buf, next))
  {
    BytesToBitsRoundTrip(buf);
  }

  /** Parsing a built proof chain gives back the three buffers and the inputs. */
  lemma {:induction false} ProofChainRoundTrip(piA: seq<Byte>, piB: seq<Byte>, piC: seq<Byte>, pubInputs: seq<int>)
    requires ProofChain(piA, piB, piC, pubInputs).Ok?
    ensures ParseProofChain(ProofChain(piA, piB, piC, pubInputs).value) == Ok((piA, piB, piC, pubInputs))
  {
    var chain := InputChain(pubInputs).value;
    var cellC := ProofCell(piC, chain);
    var cellB := ProofCell(piB, cellC);
    assert ProofChain(piA, piB, piC, pubInputs).value == ProofCell(piA, cellB);
    ProofCellRoundTrip(piA, cellB);
    ProofCellRoundTrip(piB, cellC);
    ProofCellRoundTrip(piC, chain);
    InputChainRoundTrip(pubInputs);
  }

  /** A proof chain within the cell limits that parses is exactly the chain built from what it parses to. */
  lemma {:induction false} ProofChainCanonical(a: Cell)
    requires FitsLimits(a)
    requires ParseProofChain(a).Ok?
    ensures var p := ParseProofChain(a).value;
      ProofChain(p.0, p.1, p.2, p.3) == Ok(a)
  {
    var p := ParseProofChain(a).value;
    var b := a.refs[0];
    var c := b.refs[0];
    var chain := c.refs[0];
    assert a == ProofCell(p.0, b);
    assert b == ProofCell(p.1, c);
    assert c == ProofCell(p.2, chain);
    assert FitsLimits(b);
    assert FitsLimits(c);
    assert DecodeInputChain(chain) == Ok(p.3);
    InputChainCanonical(chain, p.3);
  }

  /** Parsing a built body gives back the opcode, the query id (0 when omitted), the three proof buffers and the inputs. */
  lemma {:induction false} VerifyBodyRoundTrip(piA: seq<Byte>, piB: seq<Byte>, piC: seq<Byte>, pubInputs: seq<int>, queryID: Option<int>)
    requires VerifyBody(piA, piB, piC, pubInputs, queryID).Ok?
    ensures ParseVerifyBody(VerifyBody(piA, piB, piC, pubInputs, queryID).value)
         == Ok(VerifyRequest(VerifyOpcode, QueryIdOrZero(queryID), piA, piB, piC, pubInputs))
  {
    var q: nat := QueryIdOrZero(queryID);
    var cellA := ProofChain(piA, piB, piC, pubInputs).value;
    assert VerifyBody(piA, piB, piC, pubInputs, queryID).value == Cell(HeaderBits(q), [cellA]);
    HeaderRoundTrip(q);
    ProofChainRoundTrip(piA, piB, piC, pubInputs);
  }

  /** What a successful parse of a body says about its parts. */
  lemma ParseVerifyBodyParts(body: Cell, req: VerifyRequest)
    requires ParseVerifyBody(body) == Ok(req)
    ensures |body.bits| == OpcodeBits + QueryIdBits && |body.refs| == 1
    ensures BitsToUint(body.bits[..OpcodeBits]) == VerifyOpcode
    ensures req.queryId == BitsToUint(body.bits[OpcodeBits..])
    ensures ParseProofChain(body.refs[0]) == Ok((req.piA, req.piB, req.piC, req.pubInputs))
  {
  }

  /** A body that respects the cell limits and parses is exactly the body built from what it parses to. */
  lemma {:induction false} VerifyBodyCanonical(body: Cell, req: VerifyRequest)
    requires FitsLimits(body)
    requires ParseVerifyBody(body) == Ok(req)
    ensures VerifyBody(req.piA, req.piB, req.piC, req.pubInputs, Some(req.queryId)) == Ok(body)
  {
    ParseVerifyBodyParts(body, req);
    var a := body.refs[0];
    assert FitsLimits(a);
    ProofChainCanonical(a);
    HeaderCanonical(body.bits);
    assert body == Cell(HeaderBits(req.queryId), [a]);
  }

  /** The body is four cells deep above the input chain: depth |pubInputs| + 3. */
  lemma {:induction false} VerifyBodyDepth(piA: seq<Byte>, piB: seq<Byte>, piC: seq<Byte>, pubInputs: seq<int>, queryID: Option<int>)
    requires VerifyBody(piA, piB, piC, pubInputs, queryID).Ok?
    ensures Depth(VerifyBody(piA, piB, piC, pubInputs, queryID).value) == |pubInputs| + 3
  {
    var body := VerifyBody(piA, piB, piC, pubInputs, queryID).value;
    InputChainSize(pubInputs);
    var a := body.refs[0];
    var b := a.refs[0];
    var c := b.refs[0];
    assert DepthRefs(c, 1) == 1 + Depth(c.refs[0]);
    assert DepthRefs(b, 1) == 1 + Depth(c);
    assert DepthRefs(a, 1) == 1 + Depth(b);
    assert DepthRefs(body, 1) == 1 + Depth(a);
  }

  /** `beginCell().storeBuffer(buf)`: a fresh builder holding the buffer, or the overflow it throws. */
  method BufferBuilder(buf: seq<Byte>) returns (b: Builder, s: Status)
    ensures fresh(b) && b.Valid() && b.refs == []
    ensures s.Done? <==> 8 * |buf| <= BufferBits
    ensures s.Failed? ==> s.error == BitOverflow
    ensures s.Done? ==> b.bits == BytesToBits(buf)
  {
    b := new Builder();
    s := b.StoreBuffer(buf);
  }

  /** `.storeRef(next)` on a builder holding one buffer, then the cell that builder ends in. */
  method LinkCell(b: Builder, ghost buf: seq<Byte>, next: Cell) returns (r: Result<Cell, CellError>)
    requires b.Valid() && b.bits == BytesToBits(buf) && b.refs == [] && FitsLimits(next)
    modifies b
    ensures r == if 8 * |buf| <= MaxBits then Ok(ProofCell(buf, next)) else Err(BitOverflow)
  {
    var s := b.StoreRef(next);
    assert b.refs == [next];
    r := b.EndCell();
  }

  /**
   * The three nested builders of `sendVerify`. Each buffer is stored before the chain is
   * built; `storeRef(builder)` then ends the cells of pi_c, pi_b and pi_a in that order.
   */
  method BuildProofChain(piA: seq<Byte>, piB: seq<Byte>, piC: seq<Byte>, pubInputs: seq<int>)
    returns (r: Result<Cell, CellError>)
    ensures r == ProofChain(piA, piB, piC, pubInputs)
  {
    var builderA, s := BufferBuilder(piA);
    if s.Failed? {
      return Err(s.error);
    }
    var builderB, sB := BufferBuilder(piB);
    if sB.Failed? {
      return Err(sB.error);
    }
    var builderC, sC := BufferBuilder(piC);
    if sC.Failed? {
      return Err(sC.error);
    }
    var chain := CellFromInputList(pubInputs);
    if chain.Err? {
      return Err(chain.error);
    }
    var cellC := LinkCell(builderC, piC, chain.value);
    if cellC.Err? {
      return Err(cellC.error);
    }
    var cellB := LinkCell(builderB, piB, cellC.value);
    if cellB.Err? {
      return Err(cellB.error);
    }
    r := LinkCell(builderA, piA, cellB.value);
  }

  /** The first two stores of `sendVerify` on a fresh builder: the opcode, then the query id. */
  method StoreHeader(root: Builder, q: int) returns (s: Status)
    requires root.Valid() && root.bits == [] && root.refs == []
    modifies root
    ensures root.Valid() && root.refs == []
    ensures s.Done? <==> 0 <= q < Pow2(QueryIdBits)
    ensures s.Failed? ==> s.error == ValueOutOfRange
    ensures s.Done? ==> root.bits == HeaderBits(q)
  {
    Pow2ThirtyTwo();
    s := root.StoreUint(VerifyOpcode, OpcodeBits);
    assert s.Done?;
    s := root.StoreUint(q, QueryIdBits);
  }

  /** `sendVerify`: the message it hands to the provider, or the error a builder throws. */
  method SendVerify(piA: seq<Byte>, piB: seq<Byte>, piC: seq<Byte>, pubInputs: seq<int>, value: int, queryID: Option<int>)
    returns (r: Result<InternalMessage, CellError>)
    ensures VerifyBody(piA, piB, piC, pubInputs, queryID).Ok? ==>
      r == Ok(InternalMessage(value, PayGasSeparately, VerifyBody(piA, piB, piC, pubInputs, queryID).value))
    ensures VerifyBody(piA, piB, piC, pubInputs, queryID).Err? ==>
      r == Err(VerifyBody(piA, piB, piC, pubInputs, queryID).error)
  {
    var q := QueryIdOrZero(queryID);
    var root := new Builder();
    var s := StoreHeader(root, q);
    if s.Failed? {
      return Err(s.error);
    }
    var cellA := BuildProofChain(piA, piB, piC, pubInputs);
    if cellA.Err? {
      return Err(cellA.error);
    }
    s := root.StoreRef(cellA.value);
    assert root.bits == HeaderBits(q) && root.refs == [cellA.value];
    var body := root.EndCell();
    assert body == Ok(Cell(HeaderBits(q), [cellA.value]));
    r := Ok(InternalMessage(value, PayGasSeparately, body.value));
  }

  /** `verifierConfigToCell`: the persistent data of a fresh verifier. */
  method VerifierConfigToCell(config: VerifierConfig) returns (c: Cell)
    ensures c.bits == [] && c.refs == []
  {
    var builder := new Builder();
    var r := builder.EndCell();
    c := r.value;
  }

  /** `sendDeploy`: an empty body, sent with the caller's value and gas paid separately. */
  method SendDeploy(value: int) returns (m: InternalMessage)
    ensures m.value == value && m.sendMode == PayGasSeparately
    ensures m.body.bits == [] && m.body.refs == []
  {
    var builder := new Builder();
    var body := builder.EndCell();
    m := InternalMessage(value, PayGasSeparately, body.value);
  }

  /** `beginCell().storeBuffer(buf).endCell()`: the cell of one buffer, which throws past 1023 bits. */
  method BufferCell(buf: seq<Byte>) returns (r: Result<Cell, CellError>)
    ensures r.Ok? <==> 8 * |buf| <= MaxBits
    ensures r.Err? ==> r.error == BitOverflow
    ensures r.Ok? ==> r.value == Cell(BytesToBits(buf), [])
  {
    var b, s := BufferBuilder(buf);
    if s.Failed? {
      return Err(s.error);
    }
    r := b.EndCell();
  }

  /**
   * `getVerify`: the stack handed to the `get_verify` get-method — the three proof buffers
   * as slices, then one int per public input. The boolean it returns comes from the provider.
   */
  method GetVerify(piA: seq<Byte>, piB: seq<Byte>, piC: seq<Byte>, pubInputs: seq<int>)
    returns (r: Result<GetMethodCall, CellError>)
    ensures r.Ok? <==> 8 * |piA| <= MaxBits && 8 * |piB| <= MaxBits && 8 * |piC| <= MaxBits
    ensures r.Err? ==> r.error == BitOverflow
    ensures r.Ok? ==>
      var stack := r.value.stack;
      && r.value.name == "get_verify"
      && |stack| == 3 + |pubInputs|
      && stack[0] == SliceItem(Cell(BytesToBits(piA), []))
      && stack[1] == SliceItem(Cell(BytesToBits(piB), []))
      && stack[2] == SliceItem(Cell(BytesToBits(piC), []))
      && forall i :: 0 <= i < |pubInputs| ==> stack[3 + i] == IntItem(pubInputs[i])
  {
    var cellA := BufferCell(piA);
    if cellA.Err? {
      return Err(cellA.error);
    }
    var cellB := BufferCell(piB);
    if cellB.Err? {
      return Err(cellB.error);
    }
    var cellC := BufferCell(piC);
    if cellC.Err? {
      return Err(cellC.error);
    }

    var items: seq<TupleItem> := [];
    for i := 0 to |pubInputs|
      invariant |items| == i
      invariant forall k :: 0 <= k < i ==> items[k] == IntItem(pubInputs[k])
    {
      items := items + [IntItem(pubInputs[i])];
    }
    r := Ok(GetMethodCall("get_verify", [SliceItem(cellA.value), SliceItem(cellB.value), SliceItem(cellC.value)] + items));
  }
}
