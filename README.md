# Hash-chained star registry in Dafny

A model of a minimal in-memory ledger, with proofs about it. The ledger is a
sequence of blocks, and each block is bound to its predecessor by hash. On top
of it sits a star registry: a wallet owner asks for a challenge message, signs
it, and submits a star. If the challenge is recent and the signature checks
out, the star is sealed into a new block.

- `src/block.js` becomes module `Blocks` (file `block.dfy`). A block is a
  value: the `Block` datatype with its five fields. `Validate` recomputes the
  hash with the hash field held at null. `GetBData` decodes the hex body.
- `src/blockchain.js` becomes module `Chain` (file `blockchain.dfy`). The chain
  object is the class `Blockchain`. Its fields `chain` (a `seq<Block>`) and
  `height` are updated in place by `AddBlock`, `InitializeChain` and
  `SubmitStar`. The two loops, `GetStarsByWalletAddress` and `ValidateChain`,
  are methods with `while` loops. Each is proved equal to a specification
  function, `CollectStars` and `ChainReport`, and the lemmas state what those
  functions promise.
- Supporting modules: `Text` (`text.dfy`) has the JavaScript string operations
  the ledger uses (`toString`, `slice(0, -3)`, `split(':')`, `parseInt`). `Hex`
  (`hex.dfy`) has `Buffer.from(s).toString('hex')` and `hex2ascii`. `JsValues`
  (`jsvalues.dfy`) has parsed JSON values and the `data.owner` read. `Wrappers`
  (`wrappers.dfy`) has `Option` and `Result`.

Outside collaborators are parameters of the chain. SHA256 of the serialized
record is a function `sha256: Block -> Digest`. `bitcoinMessage.verify` is a
function `verify(message, address, signature)`; it returns `None` when the
call throws. `JSON.stringify` and
`JSON.parse` are functions `stringify` and `parse`; `parse` returns `None` when
it throws. The clock is a parameter `nowMs`, in milliseconds since the epoch.
`submitStar` reads the clock twice, once for the window check and once when
`_addBlock` seals the block, so `SubmitStar` takes two readings.
Collision resistance (`Injective(sha256)`) is assumed only by the tamper and
lookup lemmas that need it. The JSON round trip is assumed per payload, in the
`requires` of the lemmas that use it.

Two lines of `src/blockchain.js` do not do what their comments describe (see
"## Findings"). A chain is therefore built with a `Behaviour`. `AsWritten`
follows the code as it stands. `AsIntended` follows what the comments
describe. Every other operation is the same under both readings.

In these places the model follows the code as written:

- The challenge is `address + " : " + seconds + ":starRegistry"`, with spaces
  around the first colon (src/blockchain.js:98).
- The star payload is stored under the key `"start"` (src/blockchain.js:126),
  although the comment at src/blockchain.js:103 speaks of "the star object".
- `submitStar` returns `Error` values for a timeout or a failed signature check
  (src/blockchain.js:131 and :134). The comment at src/blockchain.js:104-105
  says it would "reject with an error". Only a throw from the signature check
  rejects its promise.
- `validateChain` rejects with "Cannot validate chain." when the height is 0 or
  less (src/blockchain.js:219-221). The comment at src/blockchain.js:194 says
  it resolves with the list of errors.
- `validateChain` logs at most one entry per block, and the data check comes
  first (the else-if at src/blockchain.js:207-211). A non-genesis block whose
  link was swapped, with its stored hash kept, is therefore reported as
  "ERROR VALIDATING DATA", not as a broken link, because the link is part of
  the hashed record (`TamperedChainReport`).

## Model

| member | source | states |
|---|---|---|
| Blocks.NewBlock | src/block.js:18-24 | a new block has no hash, height 0, time 0, no link, and its body is the hex of the UTF-8 bytes of the serialized payload |
| Blocks.Validate | src/block.js:38-64 | a block validates only if it carries a hash, namely the hash of the same record with its hash held at null |
| Blocks.TamperedBlockFailsValidation | src/block.js:38-58 | under a collision-free hash, a valid block whose height, body, time or link is changed while its hash is kept no longer validates |
| Blocks.GetBData | src/block.js:75-95 | height 0 resolves with the sentinel "Genesis Block" whatever the body; any failure is the retrieval error on a non-genesis block; success above height 0 implies the body decoded |
| Blocks.PayloadRoundTrip | src/block.js:80-88 | a non-genesis block whose body was built from a payload decodes back to that payload, when its serialized text is ASCII and parse undoes stringify |
| Hex.HexToAscii | src/block.js:84 | a successful decode yields one character per pair of hex digits, each with a code below 256 |
| Hex.AsciiRoundTrip | src/block.js:84 | decoding the hex of an ASCII text gives the text back |
| Hex.NonAsciiDoesNotRoundTrip | src/block.js:21 | outside ASCII the encode/decode pair is not inverse: 'é' is stored as c3a9 and read back as 'Ã©' |
| Text.Decimal | src/blockchain.js:69 | the decimal text of a clock reading is a non-empty run of digits denoting that number |
| Text.SecondsTextIsQuotient | src/blockchain.js:98 | from one second past the epoch on, dropping the last three digits of the millisecond text gives the decimal text of the whole seconds |
| Text.SplitFirstField | src/blockchain.js:119 | splitting on ':' a field without ':' followed by ':' yields that field, then the split of the rest |
| Text.SplitNoSeparator | src/blockchain.js:119 | a text without ':' splits into itself alone |
| Text.ParseIntOfDigits | src/blockchain.js:119 | parseInt of a space followed by decimal digits reads all of the digits |
| Text.ParseIntOfDecimal | src/blockchain.js:119 | parseInt of a space followed by the decimal text of n gives n |
| JsValues.Lookup | src/blockchain.js:184 | a property read gives undefined exactly when no member has the key, and otherwise the value of the last member with that key |
| JsValues.OwnerOf | src/blockchain.js:184 | `data.owner` throws exactly for null, and is defined only for objects |
| Chain.LinkGuard | src/blockchain.js:71 | the link guard holds exactly when the reading is as intended and the chain has a block; as written it never holds |
| Chain.Seal | src/blockchain.js:66-77 | a sealed block sits one above the tail, carries the seal second and the tail's hash when the guard holds, keeps its body, and validates when it was not hashed before |
| Chain.SealKeepsWellSealed | src/blockchain.js:64-87 | appending a sealed fresh block keeps the chain numbered, intact and starting with an unlinked genesis; linked as intended, unlinked as written |
| Chain.GenesisShape | src/blockchain.js:36-41 | the genesis block has height 0, no link, the seal second, the encoded `{data: 'Genesis Block'}` body; it validates and decodes to the sentinel |
| Chain.WithinWindow | src/blockchain.js:122 | a time field that is NaN never passes the window check |
| Chain.OwnershipChallenge | src/blockchain.js:97-99 | a challenge starts with the address followed by " : " and ends with ":starRegistry" |
| Chain.MessageTime | src/blockchain.js:119 | a message has a time only if it contains ':'; otherwise the second field is missing and parseInt gives NaN |
| Chain.MessageTimeOfFields | src/blockchain.js:119 | the time of a message is parseInt of the text between its first and second ':' |
| Chain.ChallengeCarriesItsTime | src/blockchain.js:97-99 | for an address without ':', the second field of an issued challenge parses back to the issue time in whole seconds |
| Chain.MessageWithoutTimeTimesOut | src/blockchain.js:119-122 | a message without ':' has a NaN time field and fails the window check under either reading |
| Chain.AsWrittenChallengeTimesOut | src/blockchain.js:119-122 | as written, from 301 s past the epoch on, every challenge the chain issued fails the window check, however recent it is |
| Chain.IntendedChallengeWindow | src/blockchain.js:119-122 | as intended, an issued challenge passes exactly when fewer than 300 whole seconds have elapsed |
| Chain.Filter | src/blockchain.js:147 | `filter` keeps only elements of the array that satisfy the test |
| Chain.FilterFirst | src/blockchain.js:147 | element 0 of the filter is the first array element satisfying the test; the filter is empty exactly when none does |
| Chain.HashesIdentifyBlocks | src/blockchain.js:147 | under a collision-free hash, two blocks of a numbered, intact chain with equal hashes are the same position |
| Chain.CollectStars | src/blockchain.js:178-191 | every star collected for an address has exactly that owner, and there are at most as many stars as blocks |
| Chain.CollectStarsFailureSticks | src/blockchain.js:189 | once a block's data cannot be retrieved, or is null, the whole walk rejects with that error |
| Chain.GenesisAddsNoStar | src/blockchain.js:184 | a block at height 0 never adds a star |
| Chain.StarBlockListed | src/blockchain.js:124-127 | appending the block of a star registered by an owner adds its payload to an address's stars, at the end, exactly when the address is the owner |
| Chain.BlockErrors | src/blockchain.js:207-211 | a block logs at most one entry: the data error exactly when it does not validate, and nothing exactly when it validates and names its predecessor's hash |
| Chain.ErrorLog | src/blockchain.js:204-212 | the log over heights 1 to n-1 has at most n-1 entries, each the data error or the broken-link error |
| Chain.ChainReport | src/blockchain.js:199-222 | validation rejects with "Cannot validate chain." exactly when there is no block beyond genesis; otherwise it resolves with "Chain is valid." or with a log of 1 to height entries |
| Chain.ErrorLogEmptyIff | src/blockchain.js:213-214 | the log is empty exactly when no block checked has an entry |
| Chain.ReportValidIff | src/blockchain.js:199-222 | validation resolves "Chain is valid." exactly when there is a block beyond genesis and every such block validates and names its predecessor's hash |
| Chain.IntendedChainIsValid | src/blockchain.js:71-73 | as intended, a chain sealed block by block with a block beyond genesis validates |
| Chain.UnlinkedErrorLog | src/blockchain.js:209-210 | for intact blocks that name no predecessor, every height checked logs the broken-link error |
| Chain.AsWrittenChainFlagsEveryLink | src/blockchain.js:71-73 | as written, every chain sealed block by block with blocks beyond genesis reports a broken link at each height from 1 on |
| Chain.TamperedErrorLog | src/blockchain.js:207-211 | altering block k but keeping its hash makes the log empty below k and a single data error from k on |
| Chain.TamperedChainReport | src/blockchain.js:204-217 | altering one block beyond genesis of a linked chain, hash kept, resolves with exactly ["ERROR VALIDATING DATA"] |
| Chain.Blockchain.constructor | src/blockchain.js:25-29 | a new chain holds exactly the sealed genesis block at height 0 and is sound |
| Chain.Blockchain.InitializeChain | src/blockchain.js:36-41 | adds the sealed genesis block when the height is -1 and otherwise changes nothing, so it is idempotent; soundness is kept |
| Chain.Blockchain.GetChainHeight | src/blockchain.js:46-50 | the height is the index of the tail, -1 for an empty chain |
| Chain.Blockchain.AddBlock | src/blockchain.js:64-87 | appends exactly the sealed block, raises the height by one, and the tail is that block; soundness is kept for a fresh block |
| Chain.Blockchain.SubmitStar | src/blockchain.js:118-136 | outside the window it returns the Timeout error; a throwing signature check rejects; a failed check returns the not-verified error; in these three cases the chain is unchanged. Otherwise it appends the `{owner, start}` block, sealed at the second clock reading, and returns it |
| Chain.Blockchain.GetBlockByHash | src/blockchain.js:145-154 | gives the first block carrying the hash, or null exactly when no block carries it |
| Chain.Blockchain.GetBlockByHeight | src/blockchain.js:161-170 | gives the first block whose height field matches, or null exactly when none does; on a consistent chain, block h when 0 <= h <= height |
| Chain.Blockchain.BlockFoundByItsHash | src/blockchain.js:145-154 | under a collision-free hash every block of a sound chain is found by its own hash |
| Chain.Blockchain.GetStarsByWalletAddress | src/blockchain.js:178-191 | the loop settles with exactly `CollectStars` over the chain, in chain order |
| Chain.Blockchain.ValidateChain | src/blockchain.js:199-223 | the loop settles with exactly `ChainReport`: rejection at height 0 or less, "Chain is valid." or the error log |

## Left out

- SHA256, `bitcoinMessage.verify` and `JSON.stringify`/`JSON.parse` are abstract functions. Their internals are not modelled. The extra `verify` arguments (`null, true`) are not modelled.
- Block time is stored as the whole number of seconds. The code stores the decimal text that `slice(0, -3)` yields, and for clock readings below 1000 ms that text is empty.
- JSON numbers are integers; floating point is not modelled, including parseInt's loss of precision on very long digit runs.
- Hex.HexToAscii: decoding is strict. An odd length or a non-hex character fails. The npm `hex2ascii` package is not part of this model, and its leniency on such input is not captured.
- Promises, `async`/`await` and the ordering of concurrent calls are not modelled. Every operation runs to completion in one step. Interleaved appends are therefore not modelled either.
- `console.error`, `module.exports` and the `try`/`catch` in `validate` are left out. Nothing in the modelled `validate` can throw.
- Aliasing is not modelled. Blocks are values, so a caller cannot mutate a block after it was returned by `getBlockByHash`, `getBlockByHeight` or `submitStar`. In the source such a caller could.
- The `_addBlock` check `chain[height] == block` is not modelled as a branch. It always holds, as `Chain.Blockchain.AddBlock` proves, so the rejection 'No block was added' is unreachable.
- Chain.ChallengeCarriesItsTime: stated only for addresses without ':' and clock readings of at least 1000 ms.

## Findings

| source | as written | input that shows it | evidently intended | confidence | as-written member | corrected member |
|---|---|---|---|---|---|---|
| src/blockchain.js:71 | `this.chain > 0` compares the array itself with 0. A non-empty array of blocks becomes the text "[object Object]...", which is NaN, so no block is ever linked to its predecessor | any chain with a genesis block followed by one more block: `validateChain` logs "ERROR WITH PREVIOUS BLOCK HASH" for block 1. As written, that block can come from `_addBlock` directly, or from `submitStar` with a signed message whose time field is already in milliseconds (see the next row) | link when the chain has a block (`this.chain.length > 0`), so a chain sealed block by block validates | not executed | Chain.AsWrittenChainFlagsEveryLink | Chain.IntendedChainIsValid |
| src/blockchain.js:119-122 | the message time, in seconds, is compared with `Date.now() - 300000`, in milliseconds | a challenge issued at 1700000000000 ms and submitted at the same instant: 1700000000 > 1699999700000 is false, so it returns Timeout | accept when fewer than 300 seconds have elapsed since the challenge was issued | not executed | Chain.AsWrittenChallengeTimesOut | Chain.IntendedChallengeWindow |
