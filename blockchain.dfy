/**
 * The chain (src/blockchain.js): an array of blocks and a height counter,
 * the single append operation that seals a block, the time-windowed and
 * signature-gated star registration, lookups, the owner filter and the
 * chain-wide validation.
 *
 * The clock is a parameter `nowMs` (milliseconds since the epoch, what
 * `Date.now()` and `new Date().getTime()` read); SHA256, the Bitcoin message
 * check and JSON serialization are functions the chain is built with.
 */
module Chain {
  import opened Wrappers
  import opened Text
  import opened JsValues
  import opened Blocks
  import Hex

  /**
   * Two lines of the source do not do what their own comments describe
   * (the link guard of `_addBlock` and the time window of `submitStar`).
   * A chain follows one reading of both: the code as it stands, or the
   * behaviour its comments describe.
   */
  datatype Behaviour = AsWritten | AsIntended

  /** The challenge window as the code compares it (against milliseconds)... */
  const WindowMs := 300000
  /** ...and as five minutes in seconds, the unit of the challenge time. */
  const WindowSeconds := 300

  const TimeoutMessage := "Timeout"
  const NotVerifiedMessage := "Message not verified"
  const DataError := "ERROR VALIDATING DATA"
  const LinkError := "ERROR WITH PREVIOUS BLOCK HASH"
  const ValidMessage := "Chain is valid."
  const CannotValidateMessage := "Cannot validate chain."

  /** The payload of the genesis block, `{data: 'Genesis Block'}`. */
  const GenesisPayload: Json := JObj([("data", JStr(GenesisSentinel))])

  /** The payload of a registered star, `{"owner": address, "start": star}` (the key is "start"). */
  function StarPayload(address: string, star: Json): Json {
    JObj([("owner", JStr(address)), ("start", star)])
  }

  /**
   * What `submitStar` settles with: the sealed block, an Error object
   * returned as a value, or a rejection because the signature check threw.
   */
  datatype StarResult = StarAdded(block: Block) | ErrorReturned(message: string) | VerifyThrew

  /** What `validateChain` settles with. */
  datatype ValidationResult =
    | Resolved(message: string)     // resolved with "Chain is valid."
    | ResolvedLog(log: seq<string>) // resolved with the error log
    | Rejected(reason: string)      // rejected with an Error

  /** Whole seconds of a clock reading: the digits `slice(0, -3)` keeps. */
  function UnixSeconds(ms: nat): nat {
    ms / 1000
  }

  // ---------------------------------------------------------------------------
  // Sealing

  /**
   * `this.chain` as a number: an array of objects becomes the comma-joined
   * text of its elements, "" (the number 0) when empty and
   * "[object Object]..." (NaN, `None`) otherwise.
   */
  function ArrayAsNumber(length: nat): Option<int> {
    if length == 0 then Some(0) else None
  }

  /**
   * Whether `_addBlock` links the new block to the tail. As written the guard
   * is `this.chain > 0`, which compares the array itself with 0; as intended
   * it asks whether the chain has a block.
   */
  function LinkGuard(behaviour: Behaviour, length: nat): (link: bool)
    ensures link <==> behaviour == AsIntended && length > 0
  {
    match behaviour
    case AsWritten =>
      (match ArrayAsNumber(length)
       case Some(x) => x > 0
       case None => false)
    case AsIntended => length > 0
  }

  /**
   * The block `_addBlock` appends to `chain`: height one above the tail, the
   * seal time, the tail's hash as link when the guard holds, and the hash of
   * the record as it stands at that point.
   */
  function Seal(behaviour: Behaviour, sha256: Block -> Digest, chain: seq<Block>, block: Block, nowMs: nat): (sealed: Block)
    ensures sealed.height == |chain| && sealed.time == UnixSeconds(nowMs) && sealed.body == block.body
    ensures sealed.previousBlockHash ==
              if LinkGuard(behaviour, |chain|) then chain[|chain| - 1].hash else block.previousBlockHash
    ensures block.hash == None ==> Validate(sealed, sha256)
  {
    var placed := block.(height := |chain|, time := UnixSeconds(nowMs));
    var linked := if LinkGuard(behaviour, |chain|) then placed.(previousBlockHash := chain[|chain| - 1].hash) else placed;
    linked.(hash := Some(sha256(linked)))
  }

  /** Block i sits at height i. */
  ghost predicate Numbered(chain: seq<Block>) {
    forall i :: 0 <= i < |chain| ==> chain[i].height == i
  }

  /** Every block passes `validate`. */
  ghost predicate Intact(chain: seq<Block>, sha256: Block -> Digest) {
    forall i :: 0 <= i < |chain| ==> Validate(chain[i], sha256)
  }

  /** Every block after the first names its predecessor's hash. */
  ghost predicate Linked(chain: seq<Block>) {
    forall i :: 1 <= i < |chain| ==> chain[i].previousBlockHash == chain[i - 1].hash
  }

  /** No block names a predecessor. */
  ghost predicate Unlinked(chain: seq<Block>) {
    forall i :: 0 <= i < |chain| ==> chain[i].previousBlockHash == None
  }

  /** What sealing fresh blocks one after the other produces, under each reading. */
  ghost predicate WellSealed(behaviour: Behaviour, chain: seq<Block>, sha256: Block -> Digest) {
    && Numbered(chain)
    && Intact(chain, sha256)
    && (|chain| > 0 ==> chain[0].previousBlockHash == None)
    && (behaviour == AsIntended ==> Linked(chain))
    && (behaviour == AsWritten ==> Unlinked(chain))
  }

  /** Appending a sealed fresh block keeps a well-sealed chain well sealed. */
  lemma SealKeepsWellSealed(behaviour: Behaviour, sha256: Block -> Digest, chain: seq<Block>, block: Block, nowMs: nat)
    requires WellSealed(behaviour, chain, sha256) && IsFresh(block)
    ensures WellSealed(behaviour, chain + [Seal(behaviour, sha256, chain, block, nowMs)], sha256)
  {
    var sealed := Seal(behaviour, sha256, chain, block, nowMs);
    var next := chain + [sealed];
    assert next[|chain|] == sealed;
    assert forall i :: 0 <= i < |chain| ==> next[i] == chain[i];
  }

  /** The genesis block: height 0, no link, valid, and its body encodes `{data: 'Genesis Block'}`. */
  lemma GenesisShape(behaviour: Behaviour, sha256: Block -> Digest, stringify: Json -> string,
                     parse: string -> Option<Json>, nowMs: nat)
    ensures var g := Seal(behaviour, sha256, [], NewBlock(GenesisPayload, stringify), nowMs);
            && g.height == 0 && g.previousBlockHash == None && g.time == UnixSeconds(nowMs)
            && g.body == Hex.Encode(stringify(GenesisPayload))
            && Validate(g, sha256)
            && GetBData(g, parse) == Success(JStr(GenesisSentinel))
  {
  }

  // ---------------------------------------------------------------------------
  // Challenge messages

  /**
   * `requestMessageOwnershipVerification(address)`: the address, " : ", the
   * clock's seconds text and ":starRegistry".
   */
  function OwnershipChallenge(address: string, nowMs: nat): (challenge: string)
    ensures |challenge| >= |address| + 16
    ensures challenge[..|address| + 3] == address + " : "
    ensures challenge[|challenge| - 13..] == ":starRegistry"
  {
    address + " : " + SecondsText(nowMs) + ":starRegistry"
  }

  /** `parseInt(message.split(':')[1])`; `None` is NaN, also when there is no second field. */
  function MessageTime(message: string): (time: Option<int>)
    ensures time.Some? ==> ':' in message
  {
    var parts := Split(message, ':');
    if |parts| < 2 then None else ParseInt(parts[1])
  }

  /**
   * The time check of `submitStar`. As written it compares the message's
   * seconds with `Date.now() - 300000`, in milliseconds; as intended it
   * compares seconds with seconds. NaN passes neither.
   */
  function WithinWindow(behaviour: Behaviour, time: Option<int>, nowMs: nat): (inWindow: bool)
    ensures time.None? ==> !inWindow
  {
    match time
    case None => false
    case Some(t) =>
      match behaviour
      case AsWritten => t > nowMs - WindowMs
      case AsIntended => t > UnixSeconds(nowMs) - WindowSeconds
  }

  predicate NoColon(s: string) {
    forall i :: 0 <= i < |s| ==> s[i] != ':'
  }

  /** A challenge is the address and a space, ':', a space and the seconds text, ':' and "starRegistry". */
  lemma ChallengeFields(address: string, nowMs: nat)
    ensures OwnershipChallenge(address, nowMs)
            == (address + " ") + [':'] + ((" " + SecondsText(nowMs)) + [':'] + "starRegistry")
  {
  }

  /** The time of a message is parseInt of its second ':'-separated field. */
  lemma MessageTimeOfFields(head: string, field: string, rest: string)
    requires NoColon(head) && NoColon(field)
    ensures MessageTime(head + [':'] + (field + [':'] + rest)) == ParseInt(field)
  {
    SplitFirstField(head, ':', field + [':'] + rest);
    SplitFirstField(field, ':', rest);
    var parts := Split(head + [':'] + (field + [':'] + rest), ':');
    assert parts == [head] + ([field] + Split(rest, ':'));
    assert parts[1] == field;
  }

  /** The second field of a challenge is the issue time in seconds, read back by parseInt. */
  lemma ChallengeCarriesItsTime(address: string, issuedMs: nat)
    requires NoColon(address) && issuedMs >= 1000
    ensures MessageTime(OwnershipChallenge(address, issuedMs)) == Some(UnixSeconds(issuedMs))
  {
    var digits := Decimal(issuedMs / 1000);
    SecondsTextIsQuotient(issuedMs);
    var head, field := address + " ", " " + digits;
    ChallengeFields(address, issuedMs);
    assert NoColon(head) by {
      forall i | 0 <= i < |head| ensures head[i] != ':' {
        if i < |address| { assert head[i] == address[i]; }
      }
    }
    assert NoColon(field) by {
      forall i | 1 <= i < |field| ensures field[i] != ':' {
        assert field[i] == digits[i - 1];
        assert DigitValue(digits[i - 1], 10).Some?;
      }
    }
    MessageTimeOfFields(head, field, "starRegistry");
    ParseIntOfDecimal(issuedMs / 1000);
  }

  /** A message with no ':' has no time field; it parses to NaN and always times out. */
  lemma MessageWithoutTimeTimesOut(behaviour: Behaviour, message: string, nowMs: nat)
    requires NoColon(message)
    ensures MessageTime(message) == None
    ensures !WithinWindow(behaviour, MessageTime(message), nowMs)
  {
    SplitNoSeparator(message, ':');
  }

  /**
   * As written, a challenge the chain issued is never fresh: its seconds are
   * compared with the current milliseconds less five minutes, so from five
   * minutes past the epoch on every such message takes the Timeout branch.
   */
  lemma AsWrittenChallengeTimesOut(address: string, issuedMs: nat, nowMs: nat)
    requires NoColon(address) && 1000 <= issuedMs <= nowMs && nowMs >= 301000
    ensures !WithinWindow(AsWritten, MessageTime(OwnershipChallenge(address, issuedMs)), nowMs)
  {
    ChallengeCarriesItsTime(address, issuedMs);
    assert issuedMs / 1000 * 1000 <= issuedMs;
  }

  /** As intended, a challenge is fresh exactly when fewer than 300 whole seconds have elapsed. */
  lemma IntendedChallengeWindow(address: string, issuedMs: nat, nowMs: nat)
    requires NoColon(address) && issuedMs >= 1000
    ensures WithinWindow(AsIntended, MessageTime(OwnershipChallenge(address, issuedMs)), nowMs)
            <==> UnixSeconds(nowMs) - UnixSeconds(issuedMs) < WindowSeconds
  {
    ChallengeCarriesItsTime(address, issuedMs);
  }

  // ---------------------------------------------------------------------------
  // Lookups

  /** `array.filter(p)`: the elements satisfying p, in order. */
  function Filter<T>(s: seq<T>, p: T -> bool): (r: seq<T>)
    ensures |r| <= |s|
    ensures forall x :: x in r ==> x in s && p(x)
  {
    if |s| == 0 then [] else (if p(s[0]) then [s[0]] else []) + Filter(s[1..], p)
  }

  /** `filter(p)[0]` is the first element satisfying p, and the filter is empty when none does. */
  lemma {:induction false} FilterFirst<T>(s: seq<T>, p: T -> bool)
    ensures |Filter(s, p)| == 0 <==> forall i :: 0 <= i < |s| ==> !p(s[i])
    ensures |Filter(s, p)| > 0 ==>
              exists i :: 0 <= i < |s| && s[i] == Filter(s, p)[0] && p(s[i])
                          && forall j :: 0 <= j < i ==> !p(s[j])
  {
    if |s| > 0 {
      FilterFirst(s[1..], p);
      if !p(s[0]) {
        assert Filter(s, p) == Filter(s[1..], p);
        if |Filter(s, p)| > 0 {
          var i :| 0 <= i < |s[1..]| && s[1..][i] == Filter(s[1..], p)[0] && p(s[1..][i])
                   && forall j :: 0 <= j < i ==> !p(s[1..][j]);
          assert s[i + 1] == Filter(s, p)[0];
          assert forall j :: 0 <= j < i + 1 ==> !p(s[j]) by {
            forall j | 0 <= j < i + 1 ensures !p(s[j]) {
              if j > 0 { assert s[j] == s[1..][j - 1]; }
            }
          }
        } else {
          forall i | 0 <= i < |s| ensures !p(s[i]) {
            if i > 0 { assert s[i] == s[1..][i - 1]; }
          }
        }
      }
    }
  }

  /** In a well-sealed chain under a collision-free hash, equal hashes mean the same block. */
  lemma HashesIdentifyBlocks(chain: seq<Block>, sha256: Block -> Digest, i: nat, j: nat)
    requires Injective(sha256) && Numbered(chain) && Intact(chain, sha256)
    requires i < |chain| && j < |chain| && chain[i].hash == chain[j].hash
    ensures i == j
  {
    assert Validate(chain[i], sha256) && Validate(chain[j], sha256);
    assert chain[i].(hash := None) == chain[j].(hash := None);
    assert chain[i].height == chain[j].height;
  }

  // ---------------------------------------------------------------------------
  // Stars by owner

  /**
   * The star list `getStarsByWalletAddress(address)` settles with over
   * `blocks`, walked in order: each block's decoded data is kept when its
   * `owner` is `address`; the first block whose data cannot be retrieved, or
   * whose data is null, rejects the whole walk.
   */
  function CollectStars(blocks: seq<Block>, address: string, parse: string -> Option<Json>): (r: Result<seq<Json>, string>)
    ensures r.Success? ==> |r.value| <= |blocks|
    ensures r.Success? ==> forall k :: 0 <= k < |r.value| ==> OwnerOf(r.value[k]) == Success(Some(JStr(address)))
  {
    if |blocks| == 0 then Success([])
    else
      match CollectStars(blocks[..|blocks| - 1], address, parse)
      case Failure(e) => Failure(e)
      case Success(stars) =>
        match GetBData(blocks[|blocks| - 1], parse)
        case Failure(e) => Failure(e)
        case Success(data) =>
          match OwnerOf(data)
          case Failure(e) => Failure(e)
          case Success(owner) => Success(if owner == Some(JStr(address)) then stars + [data] else stars)
  }

  /** Once the walk has rejected on a prefix, the whole walk rejects with the same error. */
  lemma {:induction false} CollectStarsFailureSticks(blocks: seq<Block>, j: nat, address: string, parse: string -> Option<Json>)
    requires j <= |blocks| && CollectStars(blocks[..j], address, parse).Failure?
    ensures CollectStars(blocks, address, parse) == CollectStars(blocks[..j], address, parse)
  {
    if j < |blocks| {
      var front := blocks[..|blocks| - 1];
      assert front[..j] == blocks[..j];
      CollectStarsFailureSticks(front, j, address, parse);
    } else {
      assert blocks[..j] == blocks;
    }
  }

  /** The genesis sentinel never matches an owner: a block at height 0 adds no star. */
  lemma GenesisAddsNoStar(blocks: seq<Block>, g: Block, address: string, parse: string -> Option<Json>)
    requires g.height == 0
    ensures CollectStars(blocks + [g], address, parse) == CollectStars(blocks, address, parse)
  {
    assert (blocks + [g])[..|blocks|] == blocks;
  }

  /**
   * A registered star is listed: appending the block of a star registered by
   * `owner` adds its payload to the stars of `address` exactly when the two
   * are equal, keeping chain order.
   */
  lemma StarBlockListed(blocks: seq<Block>, b: Block, owner: string, star: Json, address: string,
                        stringify: Json -> string, parse: string -> Option<Json>, stars: seq<Json>)
    requires CollectStars(blocks, address, parse) == Success(stars)
    requires b.height != 0 && b.body == NewBlock(StarPayload(owner, star), stringify).body
    requires IsAscii(stringify(StarPayload(owner, star)))
    requires parse(stringify(StarPayload(owner, star))) == Some(StarPayload(owner, star))
    ensures CollectStars(blocks + [b], address, parse)
            == Success(if owner == address then stars + [StarPayload(owner, star)] else stars)
  {
    PayloadRoundTrip(StarPayload(owner, star), stringify, parse, b);
    assert (blocks + [b])[..|blocks|] == blocks;
    var members := StarPayload(owner, star).members;
    assert members[1].0 != "owner" by { assert members[1].0[0] != "owner"[0]; }
    assert members[..1] == [("owner", JStr(owner))];
    assert Lookup(members, "owner") == Some(JStr(owner));
  }

  // ---------------------------------------------------------------------------
  // Chain validation

  /** The entry `validateChain` logs for block i: data first, the link only when the data is sound. */
  function BlockErrors(chain: seq<Block>, sha256: Block -> Digest, i: nat): (errors: seq<string>)
    requires 1 <= i < |chain|
    ensures |errors| <= 1
    ensures errors == [DataError] <==> !Validate(chain[i], sha256)
    ensures errors == [] <==> Validate(chain[i], sha256) && chain[i].previousBlockHash == chain[i - 1].hash
  {
    if !Validate(chain[i], sha256) then [DataError]
    else if chain[i].previousBlockHash != chain[i - 1].hash then [LinkError]
    else []
  }

  /** The error log after checking the blocks at heights 1 .. n-1, in order. */
  function ErrorLog(chain: seq<Block>, sha256: Block -> Digest, n: nat): (log: seq<string>)
    requires n <= |chain|
    ensures n >= 1 ==> |log| <= n - 1
    ensures forall k :: 0 <= k < |log| ==> log[k] == DataError || log[k] == LinkError
  {
    if n <= 1 then [] else ErrorLog(chain, sha256, n - 1) + BlockErrors(chain, sha256, n - 1)
  }

  /** What `validateChain` settles with on `chain`. */
  function ChainReport(chain: seq<Block>, sha256: Block -> Digest): (r: ValidationResult)
    ensures r.Rejected? <==> |chain| <= 1
    ensures r.Rejected? ==> r.reason == CannotValidateMessage
    ensures r.Resolved? ==> r.message == ValidMessage
    ensures r.ResolvedLog? ==> 1 <= |r.log| <= |chain| - 1
  {
    if |chain| - 1 > 0 then
      var log := ErrorLog(chain, sha256, |chain|);
      if |log| == 0 then Resolved(ValidMessage) else ResolvedLog(log)
    else Rejected(CannotValidateMessage)
  }

  /** The log up to n is empty exactly when no block below n has an entry. */
  lemma {:induction false} ErrorLogEmptyIff(chain: seq<Block>, sha256: Block -> Digest, n: nat)
    requires n <= |chain|
    ensures ErrorLog(chain, sha256, n) == [] <==> forall i :: 1 <= i < n ==> BlockErrors(chain, sha256, i) == []
  {
    if n > 1 {
      ErrorLogEmptyIff(chain, sha256, n - 1);
    }
  }

  /**
   * `validateChain` resolves "Chain is valid." exactly when there is a block
   * beyond genesis and every such block validates and names its
   * predecessor's hash.
   */
  lemma ReportValidIff(chain: seq<Block>, sha256: Block -> Digest)
    ensures ChainReport(chain, sha256) == Resolved(ValidMessage) <==>
              |chain| >= 2 &&
              forall i :: 1 <= i < |chain| ==>
                Validate(chain[i], sha256) && chain[i].previousBlockHash == chain[i - 1].hash
  {
    if |chain| >= 2 {
      ErrorLogEmptyIff(chain, sha256, |chain|);
      if ChainReport(chain, sha256) == Resolved(ValidMessage) {
        forall i | 1 <= i < |chain|
          ensures Validate(chain[i], sha256) && chain[i].previousBlockHash == chain[i - 1].hash
        {
          assert BlockErrors(chain, sha256, i) == [];
        }
      } else {
        var i :| 1 <= i < |chain| && BlockErrors(chain, sha256, i) != [];
        assert !(Validate(chain[i], sha256) && chain[i].previousBlockHash == chain[i - 1].hash);
      }
    }
  }

  /** As intended, a well-sealed chain with a block beyond genesis validates. */
  lemma IntendedChainIsValid(chain: seq<Block>, sha256: Block -> Digest)
    requires WellSealed(AsIntended, chain, sha256) && |chain| >= 2
    ensures ChainReport(chain, sha256) == Resolved(ValidMessage)
  {
    ReportValidIff(chain, sha256);
  }

  /** The log of a chain whose blocks all validate and none names a predecessor: one link error per block. */
  lemma {:induction false} UnlinkedErrorLog(chain: seq<Block>, sha256: Block -> Digest, n: nat)
    requires Intact(chain, sha256) && Unlinked(chain) && 1 <= n <= |chain|
    ensures ErrorLog(chain, sha256, n) == seq(n - 1, _ => LinkError)
  {
    if n > 1 {
      UnlinkedErrorLog(chain, sha256, n - 1);
      assert Validate(chain[n - 2], sha256);
      assert BlockErrors(chain, sha256, n - 1) == [LinkError];
    }
  }

  /**
   * As written, no block is ever linked, so a well-sealed chain with blocks
   * beyond genesis reports a broken link at every height from 1 on.
   */
  lemma AsWrittenChainFlagsEveryLink(chain: seq<Block>, sha256: Block -> Digest)
    requires WellSealed(AsWritten, chain, sha256) && |chain| >= 2
    ensures ChainReport(chain, sha256) == ResolvedLog(seq(|chain| - 1, _ => LinkError))
  {
    UnlinkedErrorLog(chain, sha256, |chain|);
  }

  /** The log of a linked, intact chain in which block k was altered with its hash kept. */
  lemma {:induction false} TamperedErrorLog(chain: seq<Block>, sha256: Block -> Digest, k: nat, t: Block, n: nat)
    requires Injective(sha256) && Intact(chain, sha256) && Linked(chain)
    requires 1 <= k < |chain| && t.hash == chain[k].hash && t != chain[k]
    requires 1 <= n <= |chain|
    ensures ErrorLog(chain[k := t], sha256, n) == if n <= k then [] else [DataError]
  {
    if n > 1 {
      TamperedErrorLog(chain, sha256, k, t, n - 1);
      var tampered := chain[k := t];
      var i := n - 1;
      if i == k {
        TamperedBlockFailsValidation(sha256, chain[k], t);
        assert BlockErrors(tampered, sha256, i) == [DataError];
      } else {
        assert tampered[i] == chain[i] && tampered[i - 1].hash == chain[i - 1].hash;
        assert Validate(chain[i], sha256);
        assert BlockErrors(tampered, sha256, i) == [];
      }
    }
  }

  /**
   * Tamper detection over the chain: altering the height, body, time or
   * link of one block beyond genesis of a well-sealed chain, keeping its
   * stored hash, yields a log with exactly one entry, the data error. The
   * next block's link still matches, since the stored hash did not change.
   */
  lemma TamperedChainReport(chain: seq<Block>, sha256: Block -> Digest, k: nat, t: Block)
    requires Injective(sha256) && WellSealed(AsIntended, chain, sha256)
    requires 1 <= k < |chain| && t.hash == chain[k].hash && t != chain[k]
    ensures ChainReport(chain[k := t], sha256) == ResolvedLog([DataError])
  {
    TamperedErrorLog(chain, sha256, k, t, |chain|);
  }

  // ---------------------------------------------------------------------------
  // The chain object

  class Blockchain {
    /** The blocks, genesis first. */
    var chain: seq<Block>
    /** The height of the tail; -1 before the genesis block is added. */
    var height: int

    const behaviour: Behaviour
    /** SHA256 of the serialized record. */
    const sha256: Block -> Digest
    /** `bitcoinMessage.verify(message, address, signature)`; `None` when it throws. */
    const verify: (string, string, string) -> Option<bool>
    /** `JSON.stringify`. */
    const stringify: Json -> string
    /** `JSON.parse`, `None` when it throws. */
    const parse: string -> Option<Json>

    /** The height counter tracks the array and block i sits at height i. */
    ghost predicate Valid()
      reads this
    {
      height == |chain| - 1 && Numbered(chain)
    }

    /** Every block is sealed and linked as the chain's reading seals and links them. */
    ghost predicate Sound()
      reads this
    {
      Valid() && WellSealed(behaviour, chain, sha256)
    }

    /** `new Blockchain()`: an empty chain at height -1, then `initializeChain`. */
    constructor (behaviour: Behaviour, sha256: Block -> Digest, verify: (string, string, string) -> Option<bool>,
                 stringify: Json -> string, parse: string -> Option<Json>, nowMs: nat)
      ensures this.behaviour == behaviour && this.sha256 == sha256 && this.verify == verify
      ensures this.stringify == stringify && this.parse == parse
      ensures Sound() && height == 0
      ensures chain == [Seal(behaviour, sha256, [], NewBlock(GenesisPayload, stringify), nowMs)]
    {
      this.behaviour := behaviour;
      this.sha256 := sha256;
      this.verify := verify;
      this.stringify := stringify;
      this.parse := parse;
      chain := [];
      height := -1;
      new;
      InitializeChain(nowMs);
    }

    /** `initializeChain()`: adds the genesis block when there is none, and otherwise does nothing. */
    method InitializeChain(nowMs: nat)
      requires Valid()
      modifies this
      ensures Valid() && height >= 0
      ensures old(height) == -1 ==>
                chain == [Seal(behaviour, sha256, [], NewBlock(GenesisPayload, stringify), nowMs)]
      ensures old(height) != -1 ==> chain == old(chain) && height == old(height)
      ensures old(Sound()) ==> Sound()
    {
      if height == -1 {
        var block := NewBlock(GenesisPayload, stringify);
        var sealed := AddBlock(block, nowMs);
      }
    }

    /** `getChainHeight()`. */
    function GetChainHeight(): (h: int)
      reads this
      ensures Valid() ==> h == |chain| - 1 && h >= -1
    {
      height
    }

    /**
     * `_addBlock(block)`: seals the block at height `height + 1` and the
     * current second, links it when the guard holds, hashes it, pushes it
     * and bumps the height. The closing check `chain[height] == block`
     * always holds, so the promise never rejects.
     */
    method AddBlock(block: Block, nowMs: nat) returns (sealed: Block)
      requires Valid()
      modifies this
      ensures Valid()
      ensures sealed == Seal(behaviour, sha256, old(chain), block, nowMs)
      ensures chain == old(chain) + [sealed] && height == old(height) + 1
      ensures chain[height] == sealed
      ensures old(Sound()) && IsFresh(block) ==> Sound()
    {
      var b := block.(height := height + 1);
      b := b.(time := UnixSeconds(nowMs));
      if LinkGuard(behaviour, |chain|) {
        b := b.(previousBlockHash := chain[height].hash);
      }
      b := b.(hash := Some(sha256(b)));
      chain := chain + [b];
      height := height + 1;
      sealed := b;
      if old(Sound()) && IsFresh(block) {
        SealKeepsWellSealed(behaviour, sha256, old(chain), block, nowMs);
      }
    }

    /**
     * `submitStar(address, message, signature, star)`: a message whose time
     * field is not within the window returns the Timeout error, a failed
     * signature check returns the not-verified error, a signature check that
     * throws rejects, and all three leave the chain as it was; otherwise the
     * star's block is sealed and appended. `nowMs` is the reading of the
     * window check and `sealMs` the later one `_addBlock` takes.
     */
    method SubmitStar(address: string, message: string, signature: string, star: Json, nowMs: nat, sealMs: nat)
      returns (result: StarResult)
      requires Valid()
      modifies this
      ensures Valid()
      ensures old(Sound()) ==> Sound()
      ensures !WithinWindow(behaviour, MessageTime(message), nowMs) ==>
                result == ErrorReturned(TimeoutMessage) && chain == old(chain) && height == old(height)
      ensures WithinWindow(behaviour, MessageTime(message), nowMs) && verify(message, address, signature) == None ==>
                result == VerifyThrew && chain == old(chain) && height == old(height)
      ensures WithinWindow(behaviour, MessageTime(message), nowMs) && verify(message, address, signature) == Some(false) ==>
                result == ErrorReturned(NotVerifiedMessage) && chain == old(chain) && height == old(height)
      ensures WithinWindow(behaviour, MessageTime(message), nowMs) && verify(message, address, signature) == Some(true) ==>
                && result == StarAdded(Seal(behaviour, sha256, old(chain), NewBlock(StarPayload(address, star), stringify), sealMs))
                && chain == old(chain) + [result.block] && height == old(height) + 1
    {
      var time := MessageTime(message);
      if WithinWindow(behaviour, time, nowMs) {
        match verify(message, address, signature)
        case None =>
          result := VerifyThrew;
        case Some(verified) =>
          if verified {
            var block := NewBlock(StarPayload(address, star), stringify);
            var sealed := AddBlock(block, sealMs);
            result := StarAdded(sealed);
          } else {
            result := ErrorReturned(NotVerifiedMessage);
          }
      } else {
        result := ErrorReturned(TimeoutMessage);
      }
    }

    /** `getBlockByHash(hash)`: the first block carrying that hash, or null. */
    function GetBlockByHash(hash: Digest): (r: Option<Block>)
      reads this
      ensures r.None? <==> forall i :: 0 <= i < |chain| ==> chain[i].hash != Some(hash)
      ensures r.Some? ==>
                exists i :: 0 <= i < |chain| && chain[i] == r.value && r.value.hash == Some(hash)
                            && forall j :: 0 <= j < i ==> chain[j].hash != Some(hash)
    {
      var carries := (b: Block) => b.hash == Some(hash);
      FilterFirst(chain, carries);
      var matches := Filter(chain, carries);
      if |matches| > 0 then Some(matches[0]) else None
    }

    /** `getBlockByHeight(h)`: the first block whose height field is h, or null. */
    function GetBlockByHeight(h: int): (r: Option<Block>)
      reads this
      ensures r.None? <==> forall i :: 0 <= i < |chain| ==> chain[i].height != h
      ensures r.Some? ==>
                exists i :: 0 <= i < |chain| && chain[i] == r.value && r.value.height == h
                            && forall j :: 0 <= j < i ==> chain[j].height != h
      ensures Valid() ==> r == if 0 <= h < |chain| then Some(chain[h]) else None
    {
      var at := (b: Block) => b.height == h;
      FilterFirst(chain, at);
      var matches := Filter(chain, at);
      if |matches| > 0 then Some(matches[0]) else None
    }

    /** Under a collision-free hash every block of a sound chain is found by its own hash. */
    lemma BlockFoundByItsHash(i: nat)
      requires Sound() && Injective(sha256) && i < |chain|
      ensures chain[i].hash.Some? && GetBlockByHash(chain[i].hash.value) == Some(chain[i])
    {
      assert Validate(chain[i], sha256);
      var r := GetBlockByHash(chain[i].hash.value);
      var j :| 0 <= j < |chain| && chain[j] == r.value && r.value.hash == chain[i].hash
               && forall k :: 0 <= k < j ==> chain[k].hash != chain[i].hash;
      HashesIdentifyBlocks(chain, sha256, i, j);
    }

    /** `getStarsByWalletAddress(address)`: walks the chain, decoding each block and keeping the stars of `address`. */
    method GetStarsByWalletAddress(address: string) returns (r: Result<seq<Json>, string>)
      ensures r == CollectStars(chain, address, parse)
    {
      var stars: seq<Json> := [];
      var i := 0;
      while i < |chain|
        invariant 0 <= i <= |chain|
        invariant CollectStars(chain[..i], address, parse) == Success(stars)
      {
        var block := chain[i];
        assert chain[..i + 1][..i] == chain[..i] && chain[..i + 1][i] == block;
        var data := GetBData(block, parse);
        if data.Failure? {
          CollectStarsFailureSticks(chain, i + 1, address, parse);
          return Failure(data.error);
        }
        var owner := OwnerOf(data.value);
        if owner.Failure? {
          CollectStarsFailureSticks(chain, i + 1, address, parse);
          return Failure(owner.error);
        }
        if owner.value == Some(JStr(address)) {
          stars := stars + [data.value];
        }
        i := i + 1;
      }
      assert chain[..i] == chain;
      r := Success(stars);
    }

    /**
     * `validateChain()`: rejects unless there is a block beyond genesis;
     * otherwise logs at most one entry per block from height 1 to the tail
     * and resolves "Chain is valid." when the log stays empty.
     */
    method ValidateChain() returns (r: ValidationResult)
      requires Valid()
      ensures r == ChainReport(chain, sha256)
    {
      if height > 0 {
        var errorLog: seq<string> := [];
        var i := 1;
        while i <= height
          invariant 1 <= i <= height + 1
          invariant errorLog == ErrorLog(chain, sha256, i)
        {
          var block := chain[i];
          var isValid := Validate(block, sha256);
          if !isValid {
            errorLog := errorLog + [DataError];
          } else if block.previousBlockHash != chain[i - 1].hash {
            errorLog := errorLog + [LinkError];
          }
          i := i + 1;
        }
        if |errorLog| == 0 {
          r := Resolved(ValidMessage);
        } else {
          r := ResolvedLog(errorLog);
        }
      } else {
        r := Rejected(CannotValidateMessage);
      }
    }
  }
}
