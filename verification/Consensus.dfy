/** consensus/poa.go and the per-block decision of network/sync.go, as functions of the chain, the
    world state and the clock. */
module Consensus {
  import opened Wrappers
  import opened Crypto
  import opened Types
  import opened Encoding
  import opened State
  import opened Rules
  import opened Chain

  datatype Config = Config(validators: seq<string>, chainID: string, maxBlockTxs: int, alloc: map<string, uint64>)

  const GENESIS_HASH: string := "0000000000000000000000000000000000000000000000000000000000000000"

  /** 15 seconds in nanoseconds. */
  const MAX_DRIFT: int := 15_000_000_000

  datatype BlockError =
    | NoValidators | WrongChain | IndexPanic | WrongProposer | BadProposerKey | BadHash
    | BadBlockSignature | WrongTxRoot | TooFarInFuture | NotGenesisLink | WrongPrevHash | WrongHeight
    | GoesBackInTime

  /** Go's `%` truncates toward zero, so its result has the sign of the dividend. */
  function GoMod(a: int, n: int): int
    requires n > 0
  {
    if a >= 0 then a % n else -((-a) % n)
  }

  /** The index of the validator whose turn it is; negative indexes make Go panic. */
  function Turn(cfg: Config, height: int): int
    requires cfg.validators != []
  {
    GoMod(height, |cfg.validators|)
  }

  predicate IsProposer(cfg: Config, pub: string, height: int) {
    && cfg.validators != []
    && Turn(cfg, height + 1) >= 0
    && cfg.validators[Turn(cfg, height + 1)] == pub
  }

  /** `ValidateBlock`; a panic is reported as an error, since the peer's read loop recovers from it. */
  function ValidateBlock(cfg: Config, tip: Option<Block>, b: Block, now: int): Option<BlockError> {
    var h := b.header;
    if cfg.validators == [] then Some(NoValidators)
    else if h.chainID != cfg.chainID then Some(WrongChain)
    else if Turn(cfg, h.height) < 0 then Some(IndexPanic)
    else if h.proposer != cfg.validators[Turn(cfg, h.height)] then Some(WrongProposer)
    else if !IsPubKeyHex(h.proposer) then Some(BadProposerKey)
    else if b.hash != HeaderHash(h) then Some(BadHash)
    else if !Ed25519.verify(h.proposer, b.hash, b.signature) then Some(BadBlockSignature)
    else if h.txRoot != TxRoot(b.txs) then Some(WrongTxRoot)
    else if h.timestamp > now + MAX_DRIFT then Some(TooFarInFuture)
    else match tip
      case None => if h.prevHash != GENESIS_HASH then Some(NotGenesisLink) else None
      case Some(t) =>
        if h.prevHash != t.hash then Some(WrongPrevHash)
        else if h.height != t.header.height + 1 then Some(WrongHeight)
        else if h.timestamp < t.header.timestamp then Some(GoesBackInTime)
        else None
  }

  /** The validators take turns in the order of the list. A negative height has a turn only when it is a
      multiple of their number; otherwise Go's remainder is negative and indexing panics. */
  predicate HasTurn(cfg: Config, pub: string, height: int) {
    && cfg.validators != []
    && (height >= 0 || height % |cfg.validators| == 0)
    && cfg.validators[height % |cfg.validators|] == pub
  }

  lemma ProductAtLeast(k: int, n: nat)
    ensures k >= 1 ==> k * n >= n
    ensures k <= -1 ==> k * n <= -1 * n
  {
  }

  lemma ModUnique(a: int, n: nat, q: int, r: nat)
    requires a == q * n + r && r < n
    ensures a % n == r
  {
    var k := a / n - q;
    assert a == (a / n) * n + a % n;
    assert k * n == (a / n) * n - q * n;
    ProductAtLeast(k, n);
  }

  lemma NegativeMultiple(a: int, n: nat)
    requires n > 0
    ensures a % n == 0 <==> (-a) % n == 0
  {
    var q, r := a / n, a % n;
    assert a == q * n + r;
    if r == 0 {
      assert -a == (-q) * n;
      ModUnique(-a, n, -q, 0);
    } else {
      assert (-q - 1) * n == -(q * n) - n;
      ModUnique(-a, n, -q - 1, n - r);
    }
  }

  lemma TurnExact(cfg: Config, height: int)
    requires cfg.validators != []
    ensures Turn(cfg, height) < |cfg.validators|
    ensures Turn(cfg, height) >= 0 <==> height >= 0 || height % |cfg.validators| == 0
    ensures Turn(cfg, height) >= 0 ==> Turn(cfg, height) == height % |cfg.validators|
  {
    var n := |cfg.validators|;
    if height < 0 {
      NegativeMultiple(-height, n);
    }
  }

  /** At height `height` a node produces the next block exactly when that block is its turn. */
  lemma ProposerExact(cfg: Config, pub: string, height: int)
    ensures IsProposer(cfg, pub, height) <==> HasTurn(cfg, pub, height + 1)
  {
    if cfg.validators != [] {
      TurnExact(cfg, height + 1);
    }
  }

  /** How many of the `n` heights from `from` on are a validator's turn. */
  function Turns(cfg: Config, pub: string, from: nat, n: nat): nat {
    if n == 0 then 0 else Turns(cfg, pub, from, n - 1) + if HasTurn(cfg, pub, from + n - 1) then 1 else 0
  }

  lemma {:induction false} TurnsShift(cfg: Config, pub: string, from: nat, n: nat)
    ensures Turns(cfg, pub, from, n + 1) == Turns(cfg, pub, from + 1, n) + if HasTurn(cfg, pub, from) then 1 else 0
  {
    hide HasTurn;
    if n > 0 {
      TurnsShift(cfg, pub, from, n - 1);
    }
  }

  lemma TurnRepeats(cfg: Config, pub: string, height: nat)
    ensures HasTurn(cfg, pub, height + |cfg.validators|) <==> HasTurn(cfg, pub, height)
  {
    var n := |cfg.validators|;
    if n > 0 {
      ModUnique(height + n, n, height / n + 1, height % n);
    }
  }

  lemma {:induction false} FirstTurns(cfg: Config, pub: string, n: nat)
    requires n <= |cfg.validators|
    ensures Turns(cfg, pub, 0, n) == multiset(cfg.validators[..n])[pub]
  {
    if n > 0 {
      FirstTurns(cfg, pub, n - 1);
      assert cfg.validators[..n] == cfg.validators[..n - 1] + [cfg.validators[n - 1]];
      ModUnique(n - 1, |cfg.validators|, 0, n - 1);
    }
  }

  /** In every window of as many heights as there are validators, each has exactly as many turns as it has
      places in the list: one, if it is listed once. */
  lemma {:induction false} FairRotation(cfg: Config, pub: string, from: nat)
    ensures Turns(cfg, pub, from, |cfg.validators|) == multiset(cfg.validators)[pub]
  {
    var n := |cfg.validators|;
    hide HasTurn;
    if from == 0 {
      FirstTurns(cfg, pub, n);
      assert cfg.validators[..n] == cfg.validators;
    } else {
      FairRotation(cfg, pub, from - 1);
      TurnsShift(cfg, pub, from - 1, n);
      TurnRepeats(cfg, pub, from - 1);
    }
  }

  /** The block was made by the validator whose turn it was and has not been altered since. */
  predicate Genuine(cfg: Config, b: Block) {
    && HasTurn(cfg, b.header.proposer, b.header.height)
    && b.header.chainID == cfg.chainID
    && IsPubKeyHex(b.header.proposer)
    && Hashed(b)
    && Ed25519.verify(b.header.proposer, b.hash, b.signature)
    && b.header.txRoot == TxRoot(b.txs)
  }

  predicate Follows(tip: Option<Block>, b: Block) {
    match tip
    case None => b.header.prevHash == GENESIS_HASH
    case Some(t) => CanFollow(tip, b) && t.header.timestamp <= b.header.timestamp
  }

  /** Validation accepts exactly the genuine successors of the tip that are not from the future. */
  lemma ValidateExact(cfg: Config, tip: Option<Block>, b: Block, now: int)
    ensures ValidateBlock(cfg, tip, b, now).None?
            <==> Genuine(cfg, b) && Follows(tip, b) && b.header.timestamp <= now + MAX_DRIFT
  {
    if cfg.validators != [] {
      TurnExact(cfg, b.header.height);
    }
    hide Turn;
  }

  /** The same, written out: each check of `ValidateBlock` on its own, in terms of the block, the list of
      validators, the tip and the clock. */
  lemma ValidateMeans(cfg: Config, tip: Option<Block>, b: Block, now: int)
    ensures ValidateBlock(cfg, tip, b, now).None? <==>
            var h, n := b.header, |cfg.validators|;
            && n > 0 && (h.height >= 0 || h.height % n == 0) && h.proposer == cfg.validators[h.height % n]
            && IsPubKeyHex(h.proposer) && h.chainID == cfg.chainID
            && b.hash == Hash(HeaderJson(h)) && Ed25519.verify(h.proposer, b.hash, b.signature)
            && h.txRoot == Hash(TxRootPreimage(Ids(b.txs)))
            && h.timestamp <= now + 15_000_000_000
            && h.prevHash == (if tip.None? then GENESIS_HASH else tip.value.hash)
            && (tip.Some? ==> h.height == tip.value.header.height + 1 && h.timestamp >= tip.value.header.timestamp)
  {
    ValidateExact(cfg, tip, b, now);
    hide ValidateBlock;
  }

  /** What the chain needs of a validated block. */
  lemma AcceptedLinks(cfg: Config, tip: Option<Block>, b: Block, now: int)
    requires ValidateBlock(cfg, tip, b, now).None?
    ensures Hashed(b) && CanFollow(tip, b) && b.header.proposer != ""
  {
    ValidateExact(cfg, tip, b, now);
  }

  ghost predicate RootMatches(b: Block, v: View) {
    b.header.stateRoot == "" || b.header.stateRoot == Root(v)
  }

  // ---- Sync ----

  datatype Step = Stop | Skip | Accept(view: View)

  /** What `handleBlocks` does with one block. */
  ghost function SyncOne(cfg: Config, tip: Option<Block>, v: View, b: Block, now: int): Step {
    if ValidateBlock(cfg, tip, b, now).Some? then Stop
    else
      var run := RunTxs(v, b.header, b.txs);
      if run.error.Some? then Skip
      else if !RootMatches(b, run.view) then Stop
      else if !CanFollow(tip, b) then Skip
      else Accept(run.view)
  }

  datatype NodeState = NodeState(chain: seq<Block>, view: View)

  datatype Synced = Synced(state: NodeState, accepted: seq<Block>, finished: bool)

  ghost function Sync(cfg: Config, s: NodeState, blocks: seq<Block>, nows: seq<int>): Synced
    requires |nows| == |blocks|
    decreases |blocks|
  {
    if blocks == [] then Synced(s, [], true)
    else
      match SyncOne(cfg, TipOf(s.chain), s.view, blocks[0], nows[0])
      case Stop => Synced(s, [], false)
      case Skip => Sync(cfg, s, blocks[1..], nows[1..])
      case Accept(w) =>
        var rest := Sync(cfg, NodeState(s.chain + [blocks[0]], w), blocks[1..], nows[1..]);
        Synced(rest.state, [blocks[0]] + rest.accepted, rest.finished)
  }

  /** What each kind of block does to a batch. A block that fails validation ends it, and so does one whose
      stated root is wrong. A block with a failing transaction is passed over. Any other block joins the
      chain. In the first three cases the node stays as it is. */
  lemma BatchExact(cfg: Config, s: NodeState, b: Block, now: int, rest: seq<Block>, nows: seq<int>)
    requires |nows| == |rest|
    ensures var r := Sync(cfg, s, [b] + rest, [now] + nows);
            var run := RunTxs(s.view, b.header, b.txs);
            if ValidateBlock(cfg, TipOf(s.chain), b, now).Some? then r == Synced(s, [], false)
            else if run.error.Some? then r == Sync(cfg, s, rest, nows)
            else if b.header.stateRoot !in {"", Root(run.view)} then r == Synced(s, [], false)
            else
              var t := Sync(cfg, NodeState(s.chain + [b], run.view), rest, nows);
              r == Synced(t.state, [b] + t.accepted, t.finished)
  {
    hide ValidateBlock, RunTxs, Root;
    if ValidateBlock(cfg, TipOf(s.chain), b, now).None? {
      AcceptedLinks(cfg, TipOf(s.chain), b, now);
    }
    assert ([b] + rest)[1..] == rest && ([now] + nows)[1..] == nows;
  }

  /** The events of one received block: those of the transactions that ran, if it was valid. */
  ghost function BlockEvents(cfg: Config, tip: Option<Block>, v: View, b: Block, now: int): seq<Event> {
    if ValidateBlock(cfg, tip, b, now).Some? then [] else RunTxs(v, b.header, b.txs).events
  }

  /** The events of a batch. Those of blocks that are rolled back have been emitted all the same. */
  ghost function SyncEvents(cfg: Config, s: NodeState, blocks: seq<Block>, nows: seq<int>): seq<Event>
    requires |nows| == |blocks|
    decreases |blocks|
  {
    if blocks == [] then []
    else
      BlockEvents(cfg, TipOf(s.chain), s.view, blocks[0], nows[0]) +
      match SyncOne(cfg, TipOf(s.chain), s.view, blocks[0], nows[0])
      case Stop => []
      case Skip => SyncEvents(cfg, s, blocks[1..], nows[1..])
      case Accept(w) => SyncEvents(cfg, NodeState(s.chain + [blocks[0]], w), blocks[1..], nows[1..])
  }

  /** `a` is what remains of `b` after dropping some of its elements. */
  predicate Subsequence(a: seq<Block>, b: seq<Block>) {
    a == [] || (b != [] && ((a[0] == b[0] && Subsequence(a[1..], b[1..])) || Subsequence(a, b[1..])))
  }

  lemma {:induction false} ReplayCons(v: View, b: Block, rest: seq<Block>)
    ensures Replay(v, [b] + rest) ==
            var run := RunTxs(v, b.header, b.txs);
            if run.error.Some? then None else Replay(run.view, rest)
  {
    hide RunTxs;
    var all := [b] + rest;
    if rest == [] {
      assert all[..0] == [];
      assert all == [b];
    } else {
      var n := |rest| - 1;
      assert all[..|all| - 1] == [b] + rest[..n];
      assert all[|all| - 1] == rest[n];
      ReplayCons(v, b, rest[..n]);
    }
  }

  lemma SubsequenceCons(a: seq<Block>, b: seq<Block>)
    requires b != []
    ensures Subsequence(a, b[1..]) ==> Subsequence(a, b) && Subsequence([b[0]] + a, b)
  {
    assert ([b[0]] + a)[1..] == a;
  }

  lemma ReplayNone(v: View)
    ensures Replay(v, []) == Some(v)
  {
  }

  /** Whatever the batch, the chain grows by exactly the accepted blocks, taken in order from the
      batch, and the state is the replay of exactly those. */
  lemma {:induction false} SyncFolds(cfg: Config, s: NodeState, blocks: seq<Block>, nows: seq<int>)
    requires |nows| == |blocks|
    ensures var r := Sync(cfg, s, blocks, nows);
            && r.state.chain == s.chain + r.accepted
            && Replay(s.view, r.accepted) == Some(r.state.view)
            && Subsequence(r.accepted, blocks)
    decreases |blocks|
  {
    hide ValidateBlock, RunTxs, Replay;
    ReplayNone(s.view);
    if blocks != [] {
      var b := blocks[0];
      match SyncOne(cfg, TipOf(s.chain), s.view, b, nows[0])
      case Stop =>
      case Skip =>
        SyncFolds(cfg, s, blocks[1..], nows[1..]);
        SubsequenceCons(Sync(cfg, s, blocks[1..], nows[1..]).accepted, blocks);
      case Accept(w) =>
        var t := NodeState(s.chain + [b], w);
        SyncFolds(cfg, t, blocks[1..], nows[1..]);
        var rest := Sync(cfg, t, blocks[1..], nows[1..]);
        ReplayCons(s.view, b, rest.accepted);
        SubsequenceCons(rest.accepted, blocks);
        assert s.chain + [b] + rest.accepted == s.chain + ([b] + rest.accepted);
    }
  }

  // ---- Good chains ----

  /** One link of a good chain: a genuine successor that executes and reaches its stated root. */
  ghost predicate GoodLink(cfg: Config, v0: View, chain: seq<Block>, i: nat)
    requires 1 <= i < |chain|
  {
    && Genuine(cfg, chain[i])
    && Follows(Some(chain[i - 1]), chain[i])
    && Replay(v0, chain[1..i + 1]).Some?
    && RootMatches(chain[i], Replay(v0, chain[1..i + 1]).value)
  }

  ghost predicate GoodChain(cfg: Config, v0: View, chain: seq<Block>) {
    chain != [] && forall i :: 1 <= i < |chain| ==> GoodLink(cfg, v0, chain, i)
  }

  /** A node whose chain is good and whose world state is the replay of that chain. */
  ghost predicate GoodNode(cfg: Config, v0: View, s: NodeState) {
    GoodChain(cfg, v0, s.chain) && Replay(v0, s.chain[1..]) == Some(s.view)
  }

  lemma ReplayLast(v: View, blocks: seq<Block>, b: Block)
    requires Replay(v, blocks).Some?
    ensures Replay(v, blocks + [b]) ==
            var run := RunTxs(Replay(v, blocks).value, b.header, b.txs);
            if run.error.Some? then None else Some(run.view)
  {
    assert (blocks + [b])[..|blocks|] == blocks;
  }

  lemma LinkStays(cfg: Config, v0: View, chain: seq<Block>, b: Block, i: nat)
    requires 1 <= i < |chain| && GoodLink(cfg, v0, chain, i)
    ensures GoodLink(cfg, v0, chain + [b], i)
  {
    hide Genuine, Follows, RootMatches, Replay;
    assert (chain + [b])[1..i + 1] == chain[1..i + 1];
  }

  lemma GoodExtend(cfg: Config, v0: View, s: NodeState, b: Block)
    requires GoodNode(cfg, v0, s) && Genuine(cfg, b) && Follows(TipOf(s.chain), b)
    requires var run := RunTxs(s.view, b.header, b.txs); run.error.None? && RootMatches(b, run.view)
    ensures GoodNode(cfg, v0, NodeState(s.chain + [b], RunTxs(s.view, b.header, b.txs).view))
  {
    hide Genuine, Follows, RootMatches, RunTxs, Replay, Root;
    var all, n := s.chain + [b], |s.chain|;
    assert all[1..] == s.chain[1..] + [b];
    ReplayLast(v0, s.chain[1..], b);
    assert all[1..n + 1] == all[1..];
    assert GoodLink(cfg, v0, all, n);
    hide GoodLink;
    forall i | 1 <= i < |all|
      ensures GoodLink(cfg, v0, all, i)
    {
      if i < n {
        LinkStays(cfg, v0, s.chain, b, i);
      }
    }
  }

  /** No batch, good or bad, can take a good node to a bad one. */
  lemma {:induction false} SyncKeepsGood(cfg: Config, v0: View, s: NodeState, blocks: seq<Block>, nows: seq<int>)
    requires |nows| == |blocks| && GoodNode(cfg, v0, s)
    ensures GoodNode(cfg, v0, Sync(cfg, s, blocks, nows).state)
    decreases |blocks|
  {
    if blocks != [] {
      hide GoodNode, Genuine, Follows, ValidateBlock, RunTxs, Root;
      var b := blocks[0];
      match SyncOne(cfg, TipOf(s.chain), s.view, b, nows[0])
      case Stop =>
      case Skip => SyncKeepsGood(cfg, v0, s, blocks[1..], nows[1..]);
      case Accept(w) =>
        ValidateExact(cfg, TipOf(s.chain), b, nows[0]);
        GoodExtend(cfg, v0, s, b);
        SyncKeepsGood(cfg, v0, NodeState(s.chain + [b], w), blocks[1..], nows[1..]);
    }
  }

  // ---- Produced blocks ----

  /** The unsigned block of `ProduceBlock`, before the state root is known. */
  function Draft(cfg: Config, pub: string, tip: Option<Block>, txs: seq<Transaction>, now: int): Header {
    var prev := if tip.None? then GENESIS_HASH else tip.value.hash;
    var height := if tip.None? then 1 else tip.value.header.height + 1;
    Header(cfg.chainID, height, prev, "", TxRoot(txs), now, pub)
  }

  function Sign(key: PrivateKey, h: Header, txs: seq<Transaction>): Block {
    Block(h, txs, HeaderHash(h), Ed25519.sign(key, HeaderHash(h)))
  }

  /** Handlers read only the proposer and the time of the header. */
  lemma {:induction false} RootDoesNotMatter(v: View, h: Header, root: string, txs: seq<Transaction>)
    ensures RunTxs(v, h.(stateRoot := root), txs) == RunTxs(v, h, txs)
  {
    if txs != [] {
      RootDoesNotMatter(v, h, root, txs[..|txs| - 1]);
      var before := RunTxs(v, h, txs[..|txs| - 1]);
      SameExecution(before.view, h, root, txs[|txs| - 1]);
    }
  }

  lemma SameExecution(v: View, h: Header, root: string, tx: Transaction)
    ensures ExecuteTx(v, h.(stateRoot := root), tx) == ExecuteTx(v, h, tx)
  {
    var w := Charge(v, h.proposer, tx.body);
    if w.Ok? && Decode(tx.body.txType, tx.body.payload).Some? {
      var c := Decode(tx.body.txType, tx.body.payload).value;
      hide Charge;
      match c
      case SessionOpen(_, _, _, _) => hide DebitEach;
      case SessionResult(_, _) => hide Pay;
      case _ =>
    }
  }

  /** The block that a successful `ProduceBlock` signs. */
  ghost function Produced(cfg: Config, key: PrivateKey, s: NodeState, txs: seq<Transaction>, now: int): Block {
    var draft := Draft(cfg, Ed25519.publicHex(key), TipOf(s.chain), txs, now);
    Sign(key, draft.(stateRoot := Root(RunTxs(s.view, draft, txs).view)), txs)
  }

  ghost predicate CanProduce(cfg: Config, key: PrivateKey, s: NodeState, txs: seq<Transaction>, now: int) {
    var pub := Ed25519.publicHex(key);
    && IsProposer(cfg, pub, if s.chain == [] then 0 else s.chain[|s.chain| - 1].header.height)
    && RunTxs(s.view, Draft(cfg, pub, TipOf(s.chain), txs, now), txs).error.None?
  }

  lemma ProducedIsGenuine(cfg: Config, key: PrivateKey, s: NodeState, txs: seq<Transaction>, now: int)
    requires CanProduce(cfg, key, s, txs, now)
    ensures var b := Produced(cfg, key, s, txs, now);
            && Genuine(cfg, b) && CanFollow(TipOf(s.chain), b)
            && (s.chain == [] ==> b.header.prevHash == GENESIS_HASH && b.header.height == 1)
            && RunTxs(s.view, b.header, txs).error.None?
            && b.header.stateRoot == Root(RunTxs(s.view, b.header, txs).view)
  {
    hide RunTxs, Root, IsProposer;
    var pub := Ed25519.publicHex(key);
    var draft := Draft(cfg, pub, TipOf(s.chain), txs, now);
    ProposerExact(cfg, pub, draft.height - 1);
    RootDoesNotMatter(s.view, draft, Root(RunTxs(s.view, draft, txs).view), txs);
    var b := Produced(cfg, key, s, txs, now);
    assert Ed25519.verify(pub, HeaderHash(b.header), b.signature);
  }

  /** Every node with the same tip and world state accepts a produced block, and reaches the state the
      producer reached, exactly when the block is not older than the tip and at most 15 seconds ahead.
      Otherwise it stops without a change. */
  lemma ProducedAccepted(cfg: Config, key: PrivateKey, s: NodeState, txs: seq<Transaction>, now: int, now': int)
    requires CanProduce(cfg, key, s, txs, now)
    ensures var b := Produced(cfg, key, s, txs, now);
            var draft := Draft(cfg, Ed25519.publicHex(key), TipOf(s.chain), txs, now);
            SyncOne(cfg, TipOf(s.chain), s.view, b, now') ==
            if OnTime(s.chain, now, now') then Accept(RunTxs(s.view, draft, txs).view) else Stop
  {
    ProducedIsGenuine(cfg, key, s, txs, now);
    var b := Produced(cfg, key, s, txs, now);
    var draft := Draft(cfg, Ed25519.publicHex(key), TipOf(s.chain), txs, now);
    ValidateExact(cfg, TipOf(s.chain), b, now');
    RootDoesNotMatter(s.view, draft, b.header.stateRoot, txs);
    assert b.header.timestamp == now && b.txs == txs && b.header == draft.(stateRoot := b.header.stateRoot);
    hide ValidateBlock, Genuine, RunTxs, Produced, CanProduce;
  }

  /** A block made at `now` is not older than the tip and at most 15 seconds ahead of a clock at `now'`. */
  predicate OnTime(chain: seq<Block>, now: int, now': int) {
    (chain != [] ==> chain[|chain| - 1].header.timestamp <= now) && now <= now' + MAX_DRIFT
  }

  /** Producing on a good node, with a clock that has not gone back, gives a good node. */
  lemma ProduceKeepsGood(cfg: Config, v0: View, key: PrivateKey, s: NodeState, txs: seq<Transaction>, now: int)
    requires GoodNode(cfg, v0, s) && CanProduce(cfg, key, s, txs, now)
    requires s.chain[|s.chain| - 1].header.timestamp <= now
    ensures var b := Produced(cfg, key, s, txs, now);
            GoodNode(cfg, v0, NodeState(s.chain + [b], RunTxs(s.view, b.header, txs).view))
  {
    ProducedIsGenuine(cfg, key, s, txs, now);
    var b := Produced(cfg, key, s, txs, now);
    assert b.header.timestamp == now && b.txs == txs;
    hide GoodNode, Genuine, Produced, CanProduce;
    GoodExtend(cfg, v0, s, b);
  }
}
