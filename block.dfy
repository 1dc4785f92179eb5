/**
 * The block record (src/block.js): five fields, a hash check that rebuilds
 * the record with its hash held at null, and the decoding of the hex body.
 *
 * SHA256 over `JSON.stringify` of the record is a function `sha256` from
 * records to digests: `_addBlock` hashes the block object itself and
 * `validate` a plain object with the same keys in the same order, so both
 * hash the same text for the same field values. JSON.parse is a function
 * `parse` from texts to values, `None` when it throws.
 */
module Blocks {
  import opened Wrappers
  import opened Text
  import opened JsValues
  import Hex

  /** A SHA256 digest in its hex text form. */
  type Digest = string

  /**
   * A block; `None` is `null`. `time` holds the seal time in whole seconds
   * (0 until the chain seals the block).
   */
  datatype Block = Block(
    hash: Option<Digest>,
    height: int,
    body: string,
    time: nat,
    previousBlockHash: Option<Digest>)

  /** What `getBData` resolves with for the genesis block. */
  const GenesisSentinel := "Genesis Block"

  /** The message of the error `getBData` rejects with. */
  const RetrieveError := "Unable to retrieve data from block"

  /**
   * `new Block(data)`: no hash, height 0, time 0, no link, and the body is
   * the hex of the UTF-8 bytes of the serialized payload.
   */
  function NewBlock(data: Json, stringify: Json -> string): (b: Block)
    ensures b.hash == None && b.height == 0 && b.time == 0 && b.previousBlockHash == None
    ensures b.body == Hex.Encode(stringify(data))
  {
    Block(None, 0, Hex.Encode(stringify(data)), 0, None)
  }

  /** A block as the constructor leaves it: not yet hashed and not yet linked. */
  predicate IsFresh(b: Block) {
    b.hash == None && b.previousBlockHash == None
  }

  /**
   * `validate()`: the stored hash equals the hash of the same record with
   * its hash field held at null. A function: the block itself is untouched.
   */
  function Validate(b: Block, sha256: Block -> Digest): (ok: bool)
    ensures ok ==> b.hash.Some?
  {
    b.hash == Some(sha256(b.(hash := None)))
  }

  /** Distinct records have distinct digests: the collision resistance tamper detection relies on. */
  ghost predicate Injective(sha256: Block -> Digest) {
    forall x, y :: sha256(x) == sha256(y) ==> x == y
  }

  /**
   * Tamper detection: a block that validated stops validating once its
   * height, body, time or link changes while its stored hash stays.
   */
  lemma TamperedBlockFailsValidation(sha256: Block -> Digest, b: Block, t: Block)
    requires Injective(sha256)
    requires Validate(b, sha256)
    requires t.hash == b.hash && t != b
    ensures !Validate(t, sha256)
  {
  }

  /**
   * `getBData()`: the sentinel for a block at height 0, whatever its body;
   * otherwise the body decoded and parsed, or the retrieval error when either
   * step fails.
   */
  function GetBData(b: Block, parse: string -> Option<Json>): (r: Result<Json, string>)
    ensures b.height == 0 ==> r == Success(JStr(GenesisSentinel))
    ensures r.Failure? ==> b.height != 0 && r.error == RetrieveError
    ensures b.height != 0 && r.Success? ==> Hex.HexToAscii(b.body).Some?
  {
    if b.height == 0 then Success(JStr(GenesisSentinel))
    else
      match Hex.HexToAscii(b.body)
      case None => Failure(RetrieveError)
      case Some(text) =>
        match parse(text)
        case None => Failure(RetrieveError)
        case Some(data) => Success(data)
  }

  /**
   * Payload round trip: a block above height 0 whose body was built from
   * `data` decodes back to `data`, when the serialized text is ASCII and
   * parsing undoes serializing for that payload.
   */
  lemma PayloadRoundTrip(data: Json, stringify: Json -> string, parse: string -> Option<Json>, b: Block)
    requires b.body == NewBlock(data, stringify).body && b.height != 0
    requires IsAscii(stringify(data)) && parse(stringify(data)) == Some(data)
    ensures GetBData(b, parse) == Success(data)
  {
    Hex.AsciiRoundTrip(stringify(data));
  }
}
