/**
 * The flat encoding of the public inputs (tests/common.ts): a dictionary from the index of
 * each input to the input, with 32-bit signed integer keys and 256-bit signed integer values
 * (`Dictionary.Keys.Int(32)`, `Dictionary.Values.BigInt(256)`).
 *
 * `Dictionary.set` serializes the key, so a key outside the signed 32-bit range throws
 * there; the value width is checked only when the dictionary is serialized, which
 * `Serializable` states.
 */
module DictEncoding {
  import opened Results
  import opened TonCell
  import Verifier

  const KeyBits: nat := 32
  const ValueBits: nat := 256

  /** A value of `Dictionary.Keys.Int(n)` or `Dictionary.Values.BigInt(n)`: a signed n-bit integer. */
  predicate IsIntN(v: int, n: nat)
    requires n > 0
  {
    -(Pow2(n - 1) as int) <= v < Pow2(n - 1)
  }

  /** The indices {0, ..., n - 1}. */
  function Indices(n: nat): (r: set<int>)
    ensures forall k :: k in r <==> 0 <= k < n
    ensures |r| == n
  {
    if n == 0 then {} else Indices(n - 1) + {n - 1}
  }

  /** The dictionary `dictFromInputList(list)` holds: key i maps to list[i]. */
  function InputDict(list: seq<int>): (d: map<int, int>)
    ensures d.Keys == Indices(|list|)
    ensures forall i :: 0 <= i < |list| ==> d[i] == list[i]
  {
    map i | 0 <= i < |list| :: list[i]
  }

  /** `Dictionary.set` with `Keys.Int(32)`: the key is serialized first, and one outside the signed 32-bit range throws. */
  function DictSet(d: map<int, int>, key: int, value: int): (r: Result<map<int, int>, CellError>)
    ensures r.Ok? <==> IsIntN(key, KeyBits)
    ensures r.Err? ==> r.error == ValueOutOfRange
    ensures r.Ok? ==> r.value == d[key := value]
  {
    if IsIntN(key, KeyBits) then Ok(d[key := value]) else Err(ValueOutOfRange)
  }

  /**
   * `dictFromInputList`: `dict.set(i, list[i])` for i = 0, 1, ..., |list| - 1 on an empty
   * dictionary. The first index that is not a signed 32-bit key, 2^31, throws in `set`.
   */
  method DictFromInputList(list: seq<int>) returns (r: Result<map<int, int>, CellError>)
    ensures r.Ok? <==> |list| <= Pow2(KeyBits - 1)
    ensures r.Err? ==> r.error == ValueOutOfRange
    ensures r.Ok? ==> r.value == InputDict(list) && |r.value| == |list|
  {
    var dict := map[];
    for i := 0 to |list|
      invariant i <= Pow2(KeyBits - 1)
      invariant dict == InputDict(list[..i])
    {
      var next := DictSet(dict, i, list[i]);
      if next.Err? {
        return Err(next.error);
      }
      InputDictSnoc(list, i);
      dict := next.value;
    }
    assert list[..|list|] == list;
    InputDictSize(list);
    r := Ok(dict);
  }

  /** Setting key i to list[i] extends the dictionary of the first i inputs to that of the first i + 1. */
  lemma InputDictSnoc(list: seq<int>, i: nat)
    requires i < |list|
    ensures InputDict(list[..i])[i := list[i]] == InputDict(list[..i + 1])
  {
    assert list[..i + 1][..i] == list[..i];
  }

  /** No key is written twice: the dictionary has one entry per input. */
  lemma InputDictSize(list: seq<int>)
    ensures |InputDict(list)| == |list|
  {
    assert InputDict(list).Keys == Indices(|list|);
  }

  /** The empty list gives the empty dictionary. */
  lemma InputDictEmpty()
    ensures InputDict([]) == map[]
  {
  }

  /**
   * The values of the keys 0, ..., n - 1 in key order, or None when one of them is absent
   * (what iterating `dict.get(i)` for i < n yields).
   */
  function ValuesInKeyOrder(d: map<int, int>, n: nat): (r: Option<seq<int>>)
    ensures r.Some? <==> forall i :: 0 <= i < n ==> i in d
    ensures r.Some? ==> |r.value| == n && forall i :: 0 <= i < n ==> r.value[i] == d[i]
  {
    if n == 0 then Some([])
    else if n - 1 !in d then None
    else
      match ValuesInKeyOrder(d, n - 1)
      case None => None
      case Some(init) => Some(init + [d[n - 1]])
  }

  /** Reading the dictionary in key order gives the list back. */
  lemma InputDictRoundTrip(list: seq<int>)
    ensures ValuesInKeyOrder(InputDict(list), |list|) == Some(list)
  {
    var r := ValuesInKeyOrder(InputDict(list), |list|);
    assert r.value == list;
  }

  /** A dictionary with exactly the keys 0, ..., n - 1 is the dictionary of its values in key order. */
  lemma InputDictCanonical(d: map<int, int>, n: nat)
    requires d.Keys == Indices(n)
    ensures ValuesInKeyOrder(d, n).Some?
    ensures InputDict(ValuesInKeyOrder(d, n).value) == d
  {
    var list := ValuesInKeyOrder(d, n).value;
    assert InputDict(list).Keys == d.Keys;
  }

  /** What serializing the dictionary demands: every key a signed 32-bit and every value a signed 256-bit integer. */
  predicate Serializable(d: map<int, int>) {
    forall k :: k in d ==> IsIntN(k, KeyBits) && IsIntN(d[k], ValueBits)
  }

  /** The dictionary of a list serializes exactly when the list has at most 2^31 entries and every value is a signed 256-bit integer. */
  lemma InputDictSerializable(list: seq<int>)
    ensures Serializable(InputDict(list)) <==>
      |list| <= Pow2(KeyBits - 1) && forall i :: 0 <= i < |list| ==> IsIntN(list[i], ValueBits)
  {
    var d := InputDict(list);
    if Serializable(d) && |list| > 0 {
      assert |list| - 1 in d;
    }
  }

  /**
   * The flat and the chained encodings carry the same list: decoding the chain of a valid
   * list gives the values of its dictionary in key order.
   */
  lemma ChainAgreesWithDict(list: seq<int>)
    requires Verifier.ValidInputs(list)
    ensures Verifier.DecodeInputChain(Verifier.InputChain(list).value)
         == Ok(ValuesInKeyOrder(InputDict(list), |list|).value)
  {
    Verifier.InputChainRoundTrip(list);
    InputDictRoundTrip(list);
  }

  /**
   * The top half of the chain's unsigned 256-bit range, [2^255, 2^256), is accepted by the
   * chain but does not fit the signed value type of the dictionary.
   */
  lemma UnsignedInputOutsideValueType()
    ensures forall v :: Pow2(ValueBits - 1) <= v < Pow2(ValueBits) ==>
      Verifier.IsUint256(v) && !IsIntN(v, ValueBits)
  {
    Pow2Add(ValueBits - 1, 1);
  }
}
