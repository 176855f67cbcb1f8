# Groth16 verify-request marshalling for TON, in Dafny

This project models the off-chain side of a Groth16 verifier on TON. That side covers four things:

- how the TypeScript wrapper (`wrappers/Verifier.ts`) lays out a verify request in TON cells;
- the flat dictionary encoding of the public inputs (`tests/common.ts`);
- the cell-DAG size count of the benchmark logger (`tests/gas-logger.ts`);
- the gas bookkeeping of that logger.

The files are:

- `results.dfy`: `Option` and `Result`. An `Err` stands for an exception the TypeScript code throws.
- `ton_cell.dfy`: the TON cell. It holds at most 1023 data bits and 4 references (TVM whitepaper, section 3.1.1). The file also gives:
  - big-endian integer and byte-buffer encodings of bit strings, with their inverses;
  - the set of cells reachable from a root, and tree sizes;
  - the cell builder of the TON library as a class. Bits go into a 128-byte (1024-bit) buffer. `storeUint` throws on an out-of-range value, `storeUint` and `storeBuffer` throw past 1024 bits, `storeRef` throws on a fifth reference, and `endCell` throws on more than 1023 bits.
- `verifier.dfy`:
  - `cellFromInputList` as a recursive method over builders. `InputChain` is its specification.
  - The `sendVerify` body. It is proved against `VerifyBody`.
  - A model decoder (`DecodeInputChain`, `ParseVerifyBody`). Its round trips and canonicity are proved.
  - `sendDeploy`, `verifierConfigToCell`, and the argument stack of `getVerify`.
- `dict_encoding.dfy`: `dictFromInputList` as a loop over a map, proved against `InputDict`. The file also has the key-order read back and the widths of the key and value types needed to serialize the dictionary. It relates the dictionary to the chain.
- `gas_logger.dfy`:
  - `calculateCellsAndBits` as a recursive method that mutates a shared visited set. `Walk` is its specification. A cell's hash is injective, so the set of visited hashes is modelled as the set of visited cells.
  - `extractGasFromTransaction`, and the sum `rememberGas` accumulates.
  - `GasLogAndSave` as a class with the `gasLogs` and `codeSize` maps.

Two pieces are model decoders. `DecodeInputChain` and `ParseVerifyBody` read a cell as an on-chain parser would: 256 bits per input cell, then the sole reference. They exist to state the layout. The contracts themselves are not part of this model.

## Model

| member | source | states |
|---|---|---|
| TonCell.UintBitsRoundTrip | wrappers/Verifier.ts:73-74 | reading back the n bits `storeUint(v, n)` writes gives v, for every v in [0, 2^n) |
| TonCell.BitsToUintRoundTrip | wrappers/Verifier.ts:73-74 | every n-bit string is the encoding of the number it reads as, so the fixed-width encoding is onto |
| TonCell.UintBitsInjective | wrappers/Verifier.ts:73-74 | two values in range with the same n-bit encoding are equal |
| TonCell.BytesToBitsRoundTrip | wrappers/Verifier.ts:77-82 | the bits `storeBuffer(buf)` writes read back as `buf` |
| TonCell.BitsToBytesRoundTrip | wrappers/Verifier.ts:77-82 | every bit string of whole bytes is the buffer encoding of the bytes it reads as |
| TonCell.Builder.constructor | wrappers/Verifier.ts:41 | `beginCell()` is a builder with no bits and no references |
| TonCell.Builder.StoreUint | wrappers/Verifier.ts:42 | `storeUint` fails with ValueOutOfRange outside [0, 2^n). It fails with BitOverflow past the 1024 bits of the builder's buffer. Otherwise it appends the n-bit big-endian encoding. The references never change. |
| TonCell.Builder.StoreBuffer | wrappers/Verifier.ts:77 | `storeBuffer` appends 8 bits per byte, or fails with BitOverflow past the 1024 bits of the builder's buffer and leaves the builder unchanged |
| TonCell.Builder.StoreRef | wrappers/Verifier.ts:44 | `storeRef` appends the cell as the next reference, or fails with RefOverflow when 4 are held; the bits never change |
| TonCell.Builder.EndCell | wrappers/Verifier.ts:46 | `endCell` returns the cell of the builder's bits and references exactly when it holds at most 1023 bits, and that cell respects the limits; otherwise it fails with BitOverflow |
| Verifier.InputChain | wrappers/Verifier.ts:40-47 | the chain exists exactly when the list is non-empty and every value is in [0, 2^256). The empty list fails with MissingValue (`list[0]` is undefined) and a value out of range with ValueOutOfRange. A chain respects the cell limits and its root holds 256 bits. |
| Verifier.CellFromInputList | wrappers/Verifier.ts:40-47 | the recursive builder method returns exactly `InputChain(list)`, errors included |
| Verifier.DecodeInputChain | wrappers/Verifier.ts:40-47 | whatever the model decoder accepts is a non-empty list of unsigned 256-bit values |
| Verifier.InputChainRoundTrip | wrappers/Verifier.ts:40-47 | walking the chain of a valid list (read 256 bits, follow the sole reference) gives the list back, in order |
| Verifier.InputChainCanonical | wrappers/Verifier.ts:40-47 | a cell that decodes to a list is the chain of that list, so no other cell encodes it |
| Verifier.InputChainLinks | wrappers/Verifier.ts:42-45 | cell i of the chain holds exactly the 256 bits of list[i]; every cell but the last has one reference and the last has none |
| Verifier.InputChainSize | wrappers/Verifier.ts:42-45 | for a list of n values the chain has n nodes and 256·n bits, and its depth is n - 1 |
| Verifier.HeaderBits | wrappers/Verifier.ts:73-74 | the opcode field and the query-id field together are 96 bits |
| Verifier.HeaderRoundTrip | wrappers/Verifier.ts:73-74 | the first 32 bits of the header read as 0x3b3cca17 and the next 64 bits read as the query id |
| Verifier.HeaderCanonical | wrappers/Verifier.ts:73-74 | 96 bits that start with the opcode are the header of the query id they end with |
| Verifier.ParseLink | wrappers/Verifier.ts:75-85 | a link cell the decoder accepts is exactly the cell of its bytes and its sole reference |
| Verifier.ProofCellRoundTrip | wrappers/Verifier.ts:77-82 | the cell of a buffer plus one reference parses back to that buffer and that reference |
| Verifier.ProofChain | wrappers/Verifier.ts:75-85 | the nested pi_a → pi_b → pi_c → chain cells exist exactly when each buffer fits in 1023 bits and the inputs are valid, and they respect the cell limits. With valid inputs every failure is BitOverflow. When each buffer fits the 1024-bit builder buffer, an invalid input list gives the chain's own error, because the three cells are made only after the chain |
| Verifier.BufferBuilder | wrappers/Verifier.ts:77 | `beginCell().storeBuffer(buf)` gives a fresh builder holding the buffer's bits and no reference exactly when the buffer fits the 1024-bit buffer, and fails with BitOverflow otherwise |
| Verifier.LinkCell | wrappers/Verifier.ts:78-82 | storing the next cell into a builder that holds one buffer, then ending it, gives `ProofCell(buf, next)` exactly when the buffer has at most 1023 bits, and BitOverflow otherwise |
| Verifier.BuildProofChain | wrappers/Verifier.ts:75-85 | the three nested builders produce exactly `ProofChain`, errors and their order included |
| Verifier.ParseProofChain | wrappers/Verifier.ts:75-85 | a chain the model decoder accepts has the pi_a → pi_b → pi_c → inputs shape, one reference per proof cell |
| Verifier.ProofChainRoundTrip | wrappers/Verifier.ts:75-85 | parsing a built proof chain gives back pi_a, pi_b, pi_c and the inputs unchanged |
| Verifier.ProofChainCanonical | wrappers/Verifier.ts:75-85 | a chain within the cell limits that parses is exactly the chain built from what it parses to |
| Verifier.QueryIdOrZero | wrappers/Verifier.ts:74 | `opts.queryID ?? 0`: an absent query id is 0, a given one is kept |
| Verifier.FullBufferFailsAfterChain | wrappers/Verifier.ts:75-86 | a 128-byte pi_a passes `storeBuffer` and is refused only when its cell is made, after the chain: with no inputs the body fails with MissingValue, with one input with BitOverflow |
| Verifier.VerifyBody | wrappers/Verifier.ts:72-86 | the body exists exactly when the query id (0 when omitted) is in [0, 2^64), each buffer fits a cell and the inputs are valid. An out-of-range query id fails first, with ValueOutOfRange. A body respects the cell limits. |
| Verifier.ParseVerifyBody | wrappers/Verifier.ts:72-86 | a body the model decoder accepts carries the verify opcode and a 64-bit query id |
| Verifier.VerifyBodyRoundTrip | wrappers/Verifier.ts:72-86 | parsing a built body gives back the opcode 0x3b3cca17, the query id (0 when omitted), pi_a, pi_b, pi_c and the inputs unchanged |
| Verifier.VerifyBodyCanonical | wrappers/Verifier.ts:72-86 | a body within the cell limits that parses is exactly the body built from what it parses to |
| Verifier.VerifyBodyDepth | wrappers/Verifier.ts:72-86 | for n inputs the body is n + 3 references deep |
| Verifier.StoreHeader | wrappers/Verifier.ts:73-74 | the two stores succeed exactly when the query id is in [0, 2^64), leave the 96 header bits and no reference, and otherwise fail with the range error |
| Verifier.SendVerify | wrappers/Verifier.ts:69-87 | the message carries the caller's value, PAY_GAS_SEPARATELY (1) and exactly `VerifyBody`. When the body throws, the message is the same error. |
| Verifier.VerifierConfigToCell | wrappers/Verifier.ts:16-18 | any config gives the empty cell (0 bits, 0 references) |
| Verifier.SendDeploy | wrappers/Verifier.ts:49-55 | the deploy message forwards the caller's value, uses PAY_GAS_SEPARATELY and has the empty cell as body |
| Verifier.BufferCell | wrappers/Verifier.ts:99-101 | `beginCell().storeBuffer(buf).endCell()` gives the cell of the buffer's bits with no references exactly when the buffer has at most 1023 bits, and fails with BitOverflow otherwise |
| Verifier.GetVerify | wrappers/Verifier.ts:99-108 | the stack exists exactly when each buffer fits a cell (otherwise BitOverflow). It is named `get_verify` and has 3 + n entries. The first three are slices holding pi_a, pi_b, pi_c, and entry 3 + i is the int pubInputs[i]. |
| DictEncoding.InputDict | tests/common.ts:3-9 | the key set is exactly {0, …, n-1} and key i maps to list[i] |
| DictEncoding.DictSet | tests/common.ts:6 | `set` succeeds exactly for a signed 32-bit key and then maps the key to the value. Any other key fails with ValueOutOfRange |
| DictEncoding.InputDictSnoc | tests/common.ts:5-7 | setting key i to list[i] turns the dictionary of the first i inputs into that of the first i + 1 |
| DictEncoding.DictFromInputList | tests/common.ts:3-9 | the loop of `dict.set(i, list[i])` on an empty dictionary succeeds exactly when n ≤ 2^31 and then yields `InputDict(list)` with n entries. Otherwise the key 2^31 throws ValueOutOfRange in `set` |
| DictEncoding.InputDictSize | tests/common.ts:5-7 | no key is overwritten: a list of n values gives exactly n entries |
| DictEncoding.InputDictEmpty | tests/common.ts:4-5 | the empty list gives the empty dictionary |
| DictEncoding.ValuesInKeyOrder | tests/common.ts:3-9 | reading keys 0..n-1 succeeds exactly when all are present, and gives their values in key order |
| DictEncoding.InputDictRoundTrip | tests/common.ts:3-9 | reading the dictionary's values in key order 0..n-1 reproduces the list |
| DictEncoding.InputDictCanonical | tests/common.ts:3-9 | a dictionary with exactly the keys 0..n-1 is the dictionary of its values read in key order |
| DictEncoding.InputDictSerializable | tests/common.ts:4 | the dictionary fits `Keys.Int(32)` and `Values.BigInt(256)` exactly when n ≤ 2^31 and every value is a signed 256-bit integer |
| DictEncoding.ChainAgreesWithDict | tests/common.ts:3-9 | for a valid list, decoding the chain and reading the dictionary in key order give the same list |
| DictEncoding.UnsignedInputOutsideValueType | tests/common.ts:4 | every value in [2^255, 2^256) is accepted by the chain's unsigned 256-bit field but not by the dictionary's signed 256-bit value type |
| GasLogger.VisitedSet.constructor | tests/gas-logger.ts:11 | the default `visited = new Set<string>()` starts empty |
| GasLogger.WalkGrows | tests/gas-logger.ts:11-26 | `visited` only grows, and it contains the root after the call |
| GasLogger.WalkBounded | tests/gas-logger.ts:11-26 | the call adds only cells reachable from the root |
| GasLogger.WalkClosed | tests/gas-logger.ts:16-24 | every cell the call adds has all its references in `visited` when the call returns |
| GasLogger.WalkFromEmpty | tests/gas-logger.ts:11-26 | from an empty `visited` set, the visited set becomes exactly the set of cells reachable from the root |
| GasLogger.WalkCounts | tests/gas-logger.ts:12-19 | an already visited root leaves `visited` unchanged; an unvisited one adds at least one cell, whose bits are at least the root's |
| GasLogger.CalculateCellsAndBits | tests/gas-logger.ts:11-26 | the visited set becomes `Walk(root, visited)`. nCells is the number of cells added, and nBits is the sum of their bit lengths. A visited root therefore gives (0, 0). |
| GasLogger.CountFresh | tests/gas-logger.ts:11-26 | with the default empty set, nCells is the number of distinct reachable cells and nBits the sum of their bits, so shared subcells count once |
| GasLogger.TreeCounts | tests/gas-logger.ts:18-24 | for a tree without shared subcells, the distinct-cell count is the node count and the bit sum is the total of all bits |
| GasLogger.InputChainBocSize | tests/gas-logger.ts:11-26 | counting the input chain of n values gives n cells and 256·n bits |
| GasLogger.ExtractGas | tests/gas-logger.ts:42-47 | the gas is `gasUsed` for a generic transaction whose compute phase ran in the VM, and 0 otherwise |
| GasLogger.GasSumAppend | tests/gas-logger.ts:49-59 | the summed gas of two arrays in sequence is the sum of their gases |
| GasLogger.GasOfSingleton | tests/gas-logger.ts:49-59 | an array of one transaction logs the same gas as that transaction alone |
| GasLogger.GasSumBounds | tests/gas-logger.ts:49-59 | the sum bounds each transaction's gas, and is 0 when no transaction is a generic VM one |
| GasLogger.SumGas | tests/gas-logger.ts:50-57 | the `forEach` accumulation (or the single extraction) equals `GasOf(transaction)` |
| GasLogger.SizeKeysDistinct | tests/gas-logger.ts:63-64 | "<name> bits" never equals "<name'> cells", and each key determines its contract name |
| GasLogger.GasLogAndSave.constructor | tests/gas-logger.ts:28-36 | a fresh logger keeps its folder name and starts with empty `gasLogs` and `codeSize` |
| GasLogger.GasLogAndSave.RememberGas | tests/gas-logger.ts:49-59 | only `gasLogs[stepName]` changes, and a repeated step name is overwritten. Its new value is the summed gas. `codeSize` is unchanged. |
| GasLogger.GasLogAndSave.RememberBocSize | tests/gas-logger.ts:61-65 | exactly the keys "<name> bits" and "<name> cells" of `codeSize` change, to the distinct-cell bits and count of the code; `gasLogs` is unchanged |

## Left out

- `Verifier.createFromAddress` and `Verifier.createFromConfig` are left out. They only wrap `contractAddress`, a hash of the state init, which is not part of this model.
- The provider and the sender are left out. `provider.internal` and `provider.get` are effects on the host chain. The model returns the message or the stack that would be handed over. The boolean `getVerify` reads back comes from the contract, which is not part of this model.
- The on-chain contracts, point compression and the pairing check are not part of this model. pi_a, pi_b and pi_c are opaque byte buffers.
- `Cell.hash()` (SHA-256) is not modelled. It is taken to be injective, so cells are compared structurally and the visited set of hex hashes is a set of cells.
- `saveCurrentRunAfterAll` and `ensureDirExists` are left out. They only create a directory and write JSON to a file.
- GasLogger.SumGas: sums are unbounded naturals. `Number(gasUsed)` and the `+=` on JavaScript numbers would round above 2^53, and the model does not capture that rounding.
- Verifier.VerifyBody: `opts.queryID` is a JavaScript `number`. The model takes it as an integer. A fractional query id, which the library rejects in its own way, is not modelled.
- The keys of `gasLogs` and `codeSize` are plain strings. Special JavaScript object keys such as `__proto__` are not modelled.
- DictEncoding.InputDictSerializable: the binary layout of the serialized dictionary (a Patricia trie) is left out. The model states only the key and value widths that serialization demands. `Dictionary.set` checks only the key width, which `DictEncoding.DictSet` models. The value width is checked only at serialization.
- Verifier.GetVerify: the TVM's 257-bit range for stack integers is not checked. The wrapper does not check it either; the provider would.
- The `@ton/core` library is not part of this model's sources. The builder (a 128-byte bit buffer; the checks in `storeUint`, `storeBuffer`, `storeRef` and `endCell`) and the key serialization in `Dictionary.set` follow its published code.
- TonCell.Builder.StoreBuffer: at an unaligned position the library writes byte by byte, so an overflow leaves the bytes written before it in place; the model leaves the builder unchanged. A failing store throws and its builder is never used again, so no caller sees the difference.
- The code does not reject a value at or above the scalar-field modulus, an over-long input list or a chain too deep for the TVM. It checks only the range [0, 2^256) that `storeUint(·, 256)` enforces, and the model does the same. `Verifier.VerifyBodyDepth` gives the depth that a nesting limit would bound.
