/** Whole runs: catch-up of a follower, and the ledger invariant on every node in every run. */
module Protocol {
  import opened Wrappers
  import opened Crypto
  import opened Types
  import opened State
  import opened Sums
  import opened Rules
  import opened Chain
  import opened Consensus
  import opened History
  import opened Ledger
  import opened OneShot
  import opened Provenance
  import opened Spending

  // ---- Catch-up ----

  const BATCH: nat := 50

  /** What `handleGetBlocks` answers: the stored blocks from a height on, up to the limit. */
  function Served(chain: seq<Block>, from: int, limit: int): seq<Block> {
    var n := if limit <= 0 || limit > 200 then BATCH else limit;
    if chain == [] then []
    else
      var i := from - chain[0].header.height;
      if i < 0 || i >= |chain| then []
      else if i + n <= |chain| then chain[i..i + n]
      else chain[i..]
  }

  /** The answer holds one block for each height from the requested one on, and it stops only at the limit,
      which is 50 unless it lies between 1 and 200, or at a height the chain does not have. */
  lemma ServedExact(chain: seq<Block>, from: int, limit: int)
    requires Contiguous(chain)
    ensures var out := Served(chain, from, limit);
            && (forall i :: 0 <= i < |out| ==> out[i] in chain && out[i].header.height == from + i)
            && |out| <= (if 1 <= limit <= 200 then limit else 50)
            && (|out| < (if 1 <= limit <= 200 then limit else 50) ==>
                  forall b :: b in chain ==> b.header.height != from + |out|)
  {
    var out := Served(chain, from, limit);
    if out != [] {
      var d := from - chain[0].header.height;
      assert forall i :: 0 <= i < |out| ==> out[i] == chain[d + i];
    }
  }

  /** Where a node is that has taken the first `k` blocks of a good chain. */
  ghost function StateAt(v0: View, chain: seq<Block>, k: nat): NodeState
    requires 1 <= k <= |chain| && Replay(v0, chain[1..k]).Some?
  {
    NodeState(chain[..k], Replay(v0, chain[1..k]).value)
  }

  lemma GoodReplay(cfg: Config, v0: View, chain: seq<Block>, k: nat)
    requires GoodChain(cfg, v0, chain) && 1 <= k <= |chain|
    ensures Replay(v0, chain[1..k]).Some?
  {
    if k > 1 {
      assert GoodLink(cfg, v0, chain, k - 1);
    }
  }

  /** The next block of a good chain is accepted by every node that is at its predecessor. */
  lemma GoodBlockAccepted(cfg: Config, v0: View, chain: seq<Block>, k: nat, now: int)
    requires GoodChain(cfg, v0, chain) && 1 <= k < |chain|
    requires chain[k].header.timestamp <= now + MAX_DRIFT
    ensures Replay(v0, chain[1..k]).Some? && Replay(v0, chain[1..k + 1]).Some?
    ensures SyncOne(cfg, Some(chain[k - 1]), Replay(v0, chain[1..k]).value, chain[k], now)
            == Accept(Replay(v0, chain[1..k + 1]).value)
  {
    hide ValidateBlock, Genuine, Follows, CanFollow, RootMatches, RunTxs, Replay;
    GoodReplay(cfg, v0, chain, k);
    assert GoodLink(cfg, v0, chain, k);
    ValidateExact(cfg, Some(chain[k - 1]), chain[k], now);
    AcceptedLinks(cfg, Some(chain[k - 1]), chain[k], now);
    assert chain[1..k + 1] == chain[1..k] + [chain[k]];
    ReplayLast(v0, chain[1..k], chain[k]);
  }

  /** A follower whose chain is a prefix of a good chain takes every block of the next piece. */
  lemma {:induction false} GoodPieceAccepted(cfg: Config, v0: View, chain: seq<Block>, k: nat, m: nat, nows: seq<int>)
    requires GoodChain(cfg, v0, chain) && 1 <= k <= m <= |chain| && |nows| == m - k
    requires forall i :: k <= i < m ==> chain[i].header.timestamp <= nows[i - k] + MAX_DRIFT
    ensures Replay(v0, chain[1..k]).Some? && Replay(v0, chain[1..m]).Some?
    ensures Sync(cfg, StateAt(v0, chain, k), chain[k..m], nows) == Synced(StateAt(v0, chain, m), chain[k..m], true)
    decreases m - k
  {
    hide GoodChain, SyncOne, Replay;
    GoodReplay(cfg, v0, chain, k);
    GoodReplay(cfg, v0, chain, m);
    if k == m {
      assert chain[k..m] == [];
    } else {
      GoodBlockAccepted(cfg, v0, chain, k, nows[0]);
      assert TipOf(chain[..k]) == Some(chain[k - 1]);
      assert chain[..k] + [chain[k]] == chain[..k + 1];
      assert chain[k..m][1..] == chain[k + 1..m];
      assert chain[k..m] == [chain[k]] + chain[k + 1..m];
      GoodPieceAccepted(cfg, v0, chain, k + 1, m, nows[1..]);
    }
  }

  /** The clock readings at which a batch is validated. */
  function Readings(blocks: seq<Block>, clock: int -> int): (nows: seq<int>)
    ensures |nows| == |blocks| && forall i :: 0 <= i < |blocks| ==> nows[i] == clock(blocks[i].header.height)
  {
    seq(|blocks|, i requires 0 <= i < |blocks| => clock(blocks[i].header.height))
  }

  /** No block is more than 15 seconds ahead of the clock when it is validated. */
  ghost predicate InTime(chain: seq<Block>, clock: int -> int) {
    forall i :: 0 <= i < |chain| ==> chain[i].header.timestamp <= clock(chain[i].header.height) + MAX_DRIFT
  }

  /** The first height a node is missing; a fresh chain has height 0. */
  function NextHeight(chain: seq<Block>): int {
    (if chain == [] then 0 else chain[|chain| - 1].header.height) + 1
  }

  /** Where one round of a catch-up ends. */
  function RoundEnd(chain: seq<Block>, k: nat): nat {
    if k + BATCH <= |chain| then k + BATCH else |chain|
  }

  /** One request and its answer move the follower up by a full batch, or to the end of the chain. */
  lemma CatchUpRound(cfg: Config, v0: View, chain: seq<Block>, k: nat, clock: int -> int)
    requires GoodChain(cfg, v0, chain) && 1 <= k <= |chain| && Contiguous(chain) && InTime(chain, clock)
    ensures var blocks := Served(chain, NextHeight(chain[..k]), BATCH);
            var m := RoundEnd(chain, k);
            && blocks == chain[k..m] && k <= m <= |chain|
            && Replay(v0, chain[1..k]).Some? && Replay(v0, chain[1..m]).Some?
            && Sync(cfg, StateAt(v0, chain, k), blocks, Readings(blocks, clock))
               == Synced(StateAt(v0, chain, m), blocks, true)
  {
    var m := RoundEnd(chain, k);
    assert chain[k - 1].header.height == chain[0].header.height + (k - 1);
    assert Served(chain, NextHeight(chain[..k]), BATCH) == chain[k..m];
    var nows := Readings(chain[k..m], clock);
    forall i | k <= i < m
      ensures chain[i].header.timestamp <= nows[i - k] + MAX_DRIFT
    {
      assert chain[k..m][i - k] == chain[i];
    }
    GoodPieceAccepted(cfg, v0, chain, k, m, nows);
  }

  /** A good node on a prefix of a good chain is where that prefix leads. */
  lemma PrefixState(cfg: Config, v0: View, s: NodeState, chain: seq<Block>)
    requires GoodNode(cfg, v0, s) && s.chain <= chain
    ensures 1 <= |s.chain| <= |chain| && Replay(v0, chain[1..|s.chain|]) == Some(s.view)
    ensures s == StateAt(v0, chain, |s.chain|)
  {
    assert chain[1..|s.chain|] == s.chain[1..];
  }

  /** `Sync` from position `i` on, in terms of the decision on block `i`. */
  lemma SyncUnfold(cfg: Config, s: NodeState, blocks: seq<Block>, nows: seq<int>, i: nat)
    requires |nows| == |blocks| && i < |blocks|
    ensures Sync(cfg, s, blocks[i..], nows[i..]) ==
            match SyncOne(cfg, TipOf(s.chain), s.view, blocks[i], nows[i])
            case Stop => Synced(s, [], false)
            case Skip => Sync(cfg, s, blocks[i + 1..], nows[i + 1..])
            case Accept(w) =>
              var rest := Sync(cfg, NodeState(s.chain + [blocks[i]], w), blocks[i + 1..], nows[i + 1..]);
              Synced(rest.state, [blocks[i]] + rest.accepted, rest.finished)
  {
    hide SyncOne;
    assert blocks[i..][1..] == blocks[i + 1..] && nows[i..][1..] == nows[i + 1..];
  }

  lemma EventsUnfold(cfg: Config, s: NodeState, blocks: seq<Block>, nows: seq<int>, i: nat)
    requires |nows| == |blocks| && i < |blocks|
    ensures SyncEvents(cfg, s, blocks[i..], nows[i..]) ==
            BlockEvents(cfg, TipOf(s.chain), s.view, blocks[i], nows[i]) +
            match SyncOne(cfg, TipOf(s.chain), s.view, blocks[i], nows[i])
            case Stop => []
            case Skip => SyncEvents(cfg, s, blocks[i + 1..], nows[i + 1..])
            case Accept(w) => SyncEvents(cfg, NodeState(s.chain + [blocks[i]], w), blocks[i + 1..], nows[i + 1..])
  {
    hide SyncOne, BlockEvents;
    assert blocks[i..][1..] == blocks[i + 1..] && nows[i..][1..] == nows[i + 1..];
  }

  lemma EventsDone(cfg: Config, s: NodeState, blocks: seq<Block>, nows: seq<int>)
    requires |nows| == |blocks|
    ensures SyncEvents(cfg, s, blocks[|blocks|..], nows[|blocks|..]) == []
  {
  }

  lemma SyncSingle(cfg: Config, s: NodeState, b: Block, now: int)
    ensures Sync(cfg, s, [b], [now]).state ==
            match SyncOne(cfg, TipOf(s.chain), s.view, b, now)
            case Accept(w) => NodeState(s.chain + [b], w)
            case _ => s
  {
    hide SyncOne;
    assert [b][1..] == [] && [now][1..] == [];
  }

  lemma SyncDone(cfg: Config, s: NodeState, blocks: seq<Block>, nows: seq<int>)
    requires |nows| == |blocks|
    ensures Sync(cfg, s, blocks[|blocks|..], nows[|blocks|..]) == Synced(s, [], true)
  {
  }

  // ---- Every run of every node ----

  /** The world state is the replay of the blocks after genesis, each of which names its proposer. */
  ghost predicate Sound(v0: View, s: NodeState) {
    s.chain != [] && Proposed(s.chain[1..]) && Replay(v0, s.chain[1..]) == Some(s.view)
  }

  lemma SoundExtend(v0: View, s: NodeState, b: Block)
    requires Sound(v0, s) && b.header.proposer != "" && RunTxs(s.view, b.header, b.txs).error.None?
    ensures Sound(v0, NodeState(s.chain + [b], RunTxs(s.view, b.header, b.txs).view))
  {
    hide RunTxs, Replay;
    assert (s.chain + [b])[1..] == s.chain[1..] + [b];
    ReplayLast(v0, s.chain[1..], b);
  }

  lemma {:induction false} SyncKeepsSound(cfg: Config, v0: View, s: NodeState, blocks: seq<Block>, nows: seq<int>)
    requires |nows| == |blocks| && Sound(v0, s)
    ensures Sound(v0, Sync(cfg, s, blocks, nows).state)
    decreases |blocks|
  {
    hide Sound, RunTxs, ValidateBlock;
    if blocks != [] {
      var b := blocks[0];
      match SyncOne(cfg, TipOf(s.chain), s.view, b, nows[0])
      case Stop =>
      case Skip => SyncKeepsSound(cfg, v0, s, blocks[1..], nows[1..]);
      case Accept(w) =>
        ValidateExact(cfg, TipOf(s.chain), b, nows[0]);
        SoundExtend(v0, s, b);
        SyncKeepsSound(cfg, v0, NodeState(s.chain + [b], w), blocks[1..], nows[1..]);
    }
  }

  ghost function AfterProduce(cfg: Config, key: PrivateKey, s: NodeState, txs: seq<Transaction>, now: int): NodeState {
    var draft := Draft(cfg, Ed25519.publicHex(key), TipOf(s.chain), txs, now);
    NodeState(s.chain + [Produced(cfg, key, s, txs, now)], RunTxs(s.view, draft, txs).view)
  }

  lemma ProduceKeepsSound(cfg: Config, v0: View, key: PrivateKey, s: NodeState, txs: seq<Transaction>, now: int)
    requires Sound(v0, s) && CanProduce(cfg, key, s, txs, now)
    ensures Sound(v0, AfterProduce(cfg, key, s, txs, now))
  {
    ProducedIsGenuine(cfg, key, s, txs, now);
    var draft := Draft(cfg, Ed25519.publicHex(key), TipOf(s.chain), txs, now);
    var b := Produced(cfg, key, s, txs, now);
    RootDoesNotMatter(s.view, draft, b.header.stateRoot, txs);
    assert b.txs == txs && b.header.proposer != "" && b.header == draft.(stateRoot := b.header.stateRoot);
    hide Sound, RunTxs, Produced, CanProduce, Genuine;
    SoundExtend(v0, s, b);
  }

  /** One step of a node: a batch from any peer at any times, or a successful production. */
  datatype Action =
    | Receive(blocks: seq<Block>, nows: seq<int>)
    | Produce(key: PrivateKey, txs: seq<Transaction>, now: int)

  ghost predicate Enabled(cfg: Config, s: NodeState, a: Action) {
    match a
    case Receive(blocks, nows) => |nows| == |blocks|
    case Produce(key, txs, now) => CanProduce(cfg, key, s, txs, now)
  }

  ghost function After(cfg: Config, s: NodeState, a: Action): NodeState
    requires Enabled(cfg, s, a)
  {
    match a
    case Receive(blocks, nows) => Sync(cfg, s, blocks, nows).state
    case Produce(key, txs, now) => AfterProduce(cfg, key, s, txs, now)
  }

  /** A run from genesis: each state follows from the one before by some action. */
  ghost predicate IsRun(cfg: Config, genesis: Block, run: seq<NodeState>, actions: seq<Action>) {
    && |run| == |actions| + 1
    && run[0] == NodeState([genesis], GenesisView(cfg.alloc))
    && forall i :: 0 <= i < |actions| ==>
         Enabled(cfg, run[i], actions[i]) && run[i + 1] == After(cfg, run[i], actions[i])
  }

  lemma StepKeepsSound(cfg: Config, v0: View, s: NodeState, a: Action)
    requires Sound(v0, s) && Enabled(cfg, s, a)
    ensures Sound(v0, After(cfg, s, a))
  {
    match a
    case Receive(blocks, nows) => SyncKeepsSound(cfg, v0, s, blocks, nows);
    case Produce(key, txs, now) => ProduceKeepsSound(cfg, v0, key, s, txs, now);
  }

  lemma {:induction false} RunIsSound(cfg: Config, genesis: Block, run: seq<NodeState>, actions: seq<Action>, i: nat)
    requires IsRun(cfg, genesis, run, actions) && i < |run|
    ensures Sound(GenesisView(cfg.alloc), run[i])
  {
    hide After, Enabled;
    if i == 0 {
      ReplayNone(GenesisView(cfg.alloc));
      assert run[0].chain[1..] == [];
    } else {
      RunIsSound(cfg, genesis, run, actions, i - 1);
      assert run[i] == After(cfg, run[i - 1], actions[i - 1]);
      StepKeepsSound(cfg, GenesisView(cfg.alloc), run[i - 1], actions[i - 1]);
    }
  }

  /** Clocks that do not go back when a node produces. */
  ghost predicate Steady(s: NodeState, a: Action) {
    a.Produce? ==> s.chain != [] && s.chain[|s.chain| - 1].header.timestamp <= a.now
  }

  lemma StepKeepsGood(cfg: Config, v0: View, s: NodeState, a: Action)
    requires GoodNode(cfg, v0, s) && Enabled(cfg, s, a) && Steady(s, a)
    ensures GoodNode(cfg, v0, After(cfg, s, a))
  {
    match a
    case Receive(blocks, nows) => SyncKeepsGood(cfg, v0, s, blocks, nows);
    case Produce(key, txs, now) =>
      ProduceKeepsGood(cfg, v0, key, s, txs, now);
      var draft := Draft(cfg, Ed25519.publicHex(key), TipOf(s.chain), txs, now);
      var b := Produced(cfg, key, s, txs, now);
      assert b.header == draft.(stateRoot := b.header.stateRoot);
      RootDoesNotMatter(s.view, draft, b.header.stateRoot, txs);
      hide GoodNode, RunTxs;
  }

  lemma {:induction false} SteadyRunIsGood(cfg: Config, genesis: Block, run: seq<NodeState>, actions: seq<Action>,
                                           i: nat)
    requires IsRun(cfg, genesis, run, actions) && i < |run|
    requires forall j :: 0 <= j < i ==> Steady(run[j], actions[j])
    ensures GoodNode(cfg, GenesisView(cfg.alloc), run[i])
  {
    hide After, Enabled, Steady;
    if i == 0 {
      ReplayNone(GenesisView(cfg.alloc));
      assert run[0].chain[1..] == [];
    } else {
      SteadyRunIsGood(cfg, genesis, run, actions, i - 1);
      assert run[i] == After(cfg, run[i - 1], actions[i - 1]);
      StepKeepsGood(cfg, GenesisView(cfg.alloc), run[i - 1], actions[i - 1]);
    }
  }

  lemma StepGrows(cfg: Config, s: NodeState, a: Action)
    requires Enabled(cfg, s, a)
    ensures s.chain <= After(cfg, s, a).chain
  {
    if a.Receive? {
      SyncFolds(cfg, s, a.blocks, a.nows);
    }
    hide Sync, Produced, RunTxs;
  }

  /** A chain never loses or changes a block. */
  lemma {:induction false} ChainsGrow(cfg: Config, genesis: Block, run: seq<NodeState>, actions: seq<Action>, j: nat,
                                      i: nat)
    requires IsRun(cfg, genesis, run, actions) && j <= i < |run|
    ensures run[j].chain <= run[i].chain
  {
    hide After, Enabled;
    if j < i {
      ChainsGrow(cfg, genesis, run, actions, j, i - 1);
      assert run[i] == After(cfg, run[i - 1], actions[i - 1]);
      StepGrows(cfg, run[i - 1], actions[i - 1]);
    }
  }

  /** A production with a clock behind the tip spoils every chain that contains its block. */
  lemma UnsteadySpoils(cfg: Config, v0: View, s: NodeState, a: Action, chain: seq<Block>)
    requires s.chain != [] && Enabled(cfg, s, a) && After(cfg, s, a).chain <= chain && GoodChain(cfg, v0, chain)
    ensures Steady(s, a)
  {
    if a.Produce? {
      var n := |s.chain|;
      var b := Produced(cfg, a.key, s, a.txs, a.now);
      assert b.header.timestamp == a.now;
      hide Produced, RunTxs;
      assert After(cfg, s, a).chain == s.chain + [b];
      assert chain[n] == (s.chain + [b])[n] && chain[n - 1] == (s.chain + [b])[n - 1];
      assert GoodLink(cfg, v0, chain, n);
    }
  }

  /** A node of a run is a good one, able to serve followers and standing where the replay of its chain
      leads, if and only if no production so far had a clock behind its tip. */
  lemma RunIsGood(cfg: Config, genesis: Block, run: seq<NodeState>, actions: seq<Action>, i: nat)
    requires IsRun(cfg, genesis, run, actions) && i < |run|
    ensures GoodNode(cfg, GenesisView(cfg.alloc), run[i]) <==> forall j :: 0 <= j < i ==> Steady(run[j], actions[j])
  {
    hide After, Enabled, Steady;
    if forall j :: 0 <= j < i ==> Steady(run[j], actions[j]) {
      SteadyRunIsGood(cfg, genesis, run, actions, i);
    }
    if GoodNode(cfg, GenesisView(cfg.alloc), run[i]) {
      hide GoodChain;
      forall j | 0 <= j < i
        ensures Steady(run[j], actions[j])
      {
        RunIsSound(cfg, genesis, run, actions, j);
        ChainsGrow(cfg, genesis, run, actions, j + 1, i);
        assert run[j + 1] == After(cfg, run[j], actions[j]);
        UnsteadySpoils(cfg, GenesisView(cfg.alloc), run[j], actions[j], run[i].chain);
      }
    }
  }

  /** Every block after the first is genuine and one height above its predecessor. */
  ghost predicate AllGenuine(cfg: Config, chain: seq<Block>) {
    chain != [] && forall i :: 1 <= i < |chain| ==> Genuine(cfg, chain[i]) && CanFollow(Some(chain[i - 1]), chain[i])
  }

  lemma GenuineExtend(cfg: Config, chain: seq<Block>, b: Block)
    requires AllGenuine(cfg, chain) && Genuine(cfg, b) && CanFollow(TipOf(chain), b)
    ensures AllGenuine(cfg, chain + [b])
  {
    hide Genuine, CanFollow;
  }

  lemma {:induction false} SyncKeepsGenuine(cfg: Config, s: NodeState, blocks: seq<Block>, nows: seq<int>)
    requires |nows| == |blocks| && AllGenuine(cfg, s.chain)
    ensures AllGenuine(cfg, Sync(cfg, s, blocks, nows).state.chain)
    decreases |blocks|
  {
    hide AllGenuine, Genuine, RunTxs, ValidateBlock, CanFollow, RootMatches;
    if blocks != [] {
      match SyncOne(cfg, TipOf(s.chain), s.view, blocks[0], nows[0])
      case Stop =>
      case Skip => SyncKeepsGenuine(cfg, s, blocks[1..], nows[1..]);
      case Accept(w) =>
        ValidateExact(cfg, TipOf(s.chain), blocks[0], nows[0]);
        GenuineExtend(cfg, s.chain, blocks[0]);
        SyncKeepsGenuine(cfg, NodeState(s.chain + [blocks[0]], w), blocks[1..], nows[1..]);
    }
  }

  lemma StepKeepsGenuine(cfg: Config, s: NodeState, a: Action)
    requires Enabled(cfg, s, a) && AllGenuine(cfg, s.chain)
    ensures AllGenuine(cfg, After(cfg, s, a).chain)
  {
    hide AllGenuine, Produced, Genuine, CanFollow, RunTxs, CanProduce, Draft;
    match a
    case Receive(blocks, nows) => SyncKeepsGenuine(cfg, s, blocks, nows);
    case Produce(key, txs, now) =>
      ProducedIsGenuine(cfg, key, s, txs, now);
      GenuineExtend(cfg, s.chain, Produced(cfg, key, s, txs, now));
  }

  /** Whatever peers send and clocks say, every block that a node of a run holds after its first one was
      signed by the validator whose turn it was, has not been altered, and follows its predecessor. */
  lemma {:induction false} GenuineInAnyRun(cfg: Config, genesis: Block, run: seq<NodeState>, actions: seq<Action>,
                                           i: nat)
    requires IsRun(cfg, genesis, run, actions) && i < |run|
    ensures AllGenuine(cfg, run[i].chain)
  {
    hide After, Enabled, AllGenuine;
    if i == 0 {
      FirstIsGenuine(cfg, genesis);
    } else {
      GenuineInAnyRun(cfg, genesis, run, actions, i - 1);
      assert run[i] == After(cfg, run[i - 1], actions[i - 1]);
      StepKeepsGenuine(cfg, run[i - 1], actions[i - 1]);
    }
  }

  lemma FirstIsGenuine(cfg: Config, genesis: Block)
    ensures AllGenuine(cfg, [genesis])
  {
  }

  /** How many blocks of a list a validator proposed. */
  function Proposals(blocks: seq<Block>, pub: string): nat {
    if blocks == [] then 0
    else Proposals(blocks[..|blocks| - 1], pub) + if blocks[|blocks| - 1].header.proposer == pub then 1 else 0
  }

  lemma {:induction false} ProposalsAreTurns(cfg: Config, blocks: seq<Block>, pub: string, from: nat)
    requires forall i :: 0 <= i < |blocks| ==>
               HasTurn(cfg, blocks[i].header.proposer, from + i) && blocks[i].header.height == from + i
    ensures Proposals(blocks, pub) == Turns(cfg, pub, from, |blocks|)
  {
    if blocks != [] {
      ProposalsAreTurns(cfg, blocks[..|blocks| - 1], pub, from);
    }
  }

  lemma {:induction false} GenuineHeights(cfg: Config, chain: seq<Block>, i: nat)
    requires AllGenuine(cfg, chain) && i < |chain|
    ensures chain[i].header.height == chain[0].header.height + i
  {
    hide Genuine;
    if i > 0 {
      GenuineHeights(cfg, chain, i - 1);
    }
  }

  lemma GenuineTurn(cfg: Config, chain: seq<Block>, i: nat)
    requires AllGenuine(cfg, chain) && 1 <= i < |chain|
    ensures chain[i].header.height == chain[0].header.height + i
    ensures HasTurn(cfg, chain[i].header.proposer, chain[i].header.height)
  {
    hide HasTurn;
    GenuineHeights(cfg, chain, i);
    assert Genuine(cfg, chain[i]);
  }

  lemma FairStretch(cfg: Config, chain: seq<Block>, k: nat, pub: string)
    requires AllGenuine(cfg, chain) && chain != [] && chain[0].header.height >= 0
    requires 1 <= k && k + |cfg.validators| <= |chain|
    ensures Proposals(chain[k..k + |cfg.validators|], pub) == multiset(cfg.validators)[pub]
  {
    hide HasTurn, AllGenuine;
    var n, from := |cfg.validators|, chain[0].header.height + k;
    var stretch := chain[k..k + n];
    forall j | 0 <= j < n
      ensures HasTurn(cfg, stretch[j].header.proposer, from + j) && stretch[j].header.height == from + j
    {
      GenuineTurn(cfg, chain, k + j);
    }
    ProposalsAreTurns(cfg, stretch, pub, from);
    FairRotation(cfg, pub, from);
  }

  /** Every stretch of a chain that is as long as the list of validators holds exactly as many blocks of each
      validator as it has places in that list. */
  lemma FairInAnyRun(cfg: Config, genesis: Block, run: seq<NodeState>, actions: seq<Action>, i: nat, k: nat,
                     pub: string)
    requires IsRun(cfg, genesis, run, actions) && i < |run| && genesis.header.height >= 0
    requires 1 <= k && k + |cfg.validators| <= |run[i].chain|
    ensures Proposals(run[i].chain[k..k + |cfg.validators|], pub) == multiset(cfg.validators)[pub]
  {
    hide AllGenuine, After, Enabled, Proposals;
    GenuineInAnyRun(cfg, genesis, run, actions, i);
    ChainsGrow(cfg, genesis, run, actions, 0, i);
    assert run[i].chain[0] == genesis;
    FairStretch(cfg, run[i].chain, k, pub);
  }

  /** In every state of every run, whatever peers send and whatever the clocks say: tokens are
      conserved, listed assets and listings are linked, nonces count executed transactions and no
      transaction ID has taken effect twice. */
  lemma EveryRunSafe(cfg: Config, genesis: Block, run: seq<NodeState>, actions: seq<Action>, i: nat)
    requires IsRun(cfg, genesis, run, actions) && i < |run|
    ensures run[i].chain != [] && Inv(run[i].view, AllTxs(run[i].chain[1..]), Sum(cfg.alloc))
  {
    hide Inv, IsRun;
    RunIsSound(cfg, genesis, run, actions, i);
    LedgerSafety(cfg.alloc, run[i].chain[1..]);
  }

  /** No node's chain ever holds two transactions with the same ID. */
  lemma NoReplayInAnyRun(cfg: Config, genesis: Block, run: seq<NodeState>, actions: seq<Action>, i: nat)
    requires IsRun(cfg, genesis, run, actions) && i < |run|
    ensures run[i].chain != []
    ensures var txs := AllTxs(run[i].chain[1..]); forall j, k :: 0 <= j < k < |txs| ==> txs[j].id != txs[k].id
  {
    EveryRunSafe(cfg, genesis, run, actions, i);
    var txs := AllTxs(run[i].chain[1..]);
    forall j, k | 0 <= j < k < |txs|
      ensures txs[j].id != txs[k].id
    {
      IdsDistinct(txs, j, k);
    }
  }

  /** On no chain is a session settled twice or a listing bought twice. */
  lemma OnceInAnyRun(cfg: Config, genesis: Block, run: seq<NodeState>, actions: seq<Action>, i: nat)
    requires IsRun(cfg, genesis, run, actions) && i < |run|
    ensures run[i].chain != [] && AtMostOnce(AllTxs(run[i].chain[1..]))
  {
    RunIsSound(cfg, genesis, run, actions, i);
    GenesisInv(cfg.alloc);
    hide IsRun, Inv, Replay;
    ReplayOnce(GenesisView(cfg.alloc), [], Sum(cfg.alloc), run[i].chain[1..]);
    assert [] + AllTxs(run[i].chain[1..]) == AllTxs(run[i].chain[1..]);
  }

  /** Every transaction of every chain has a well-formed sender key, the digest of its body as ID and a
      signature that this key verifies. */
  lemma SignedInAnyRun(cfg: Config, genesis: Block, run: seq<NodeState>, actions: seq<Action>, i: nat, tx: Transaction)
    requires IsRun(cfg, genesis, run, actions) && i < |run|
    ensures run[i].chain != []
    ensures tx in AllTxs(run[i].chain[1..]) ==>
              && IsPubKeyHex(tx.body.from) && tx.id == Hash(BodyJson(tx.body))
              && Ed25519.verify(tx.body.from, tx.id, tx.signature)
  {
    EveryRunSafe(cfg, genesis, run, actions, i);
    VerifyExact(tx);
  }

  /** In every state of every run: every record is what one executed payload says, no session is opened and no
      template registered twice, and every settlement follows an opening by the same sender. */
  lemma OriginsInAnyRun(cfg: Config, genesis: Block, run: seq<NodeState>, actions: seq<Action>, i: nat)
    requires IsRun(cfg, genesis, run, actions) && i < |run|
    ensures run[i].chain != [] && Origins(run[i].view, AllTxs(run[i].chain[1..]))
  {
    RunIsSound(cfg, genesis, run, actions, i);
    GenesisOrigins(cfg.alloc);
    hide IsRun, Origins, Replay;
    ReplayOrigins(GenesisView(cfg.alloc), [], run[i].chain[1..]);
    assert [] + AllTxs(run[i].chain[1..]) == AllTxs(run[i].chain[1..]);
  }

  /** The trading flag of every asset is the one in the payload that registered its template. */
  lemma FlagsInAnyRun(cfg: Config, genesis: Block, run: seq<NodeState>, actions: seq<Action>, i: nat, id: string)
    requires IsRun(cfg, genesis, run, actions) && i < |run| && AssetOf(run[i].view, id).Some?
    ensures run[i].chain != []
    ensures var a := AssetOf(run[i].view, id).value;
            exists tx :: tx in AllTxs(run[i].chain[1..]) && Registers(tx, a.templateID)
                         && CallOf(tx).value.tradeable == a.tradeable
  {
    EveryRunSafe(cfg, genesis, run, actions, i);
    OriginsInAnyRun(cfg, genesis, run, actions, i);
    var j := FlagFromPayload(run[i].view, AllTxs(run[i].chain[1..]), id);
  }

  lemma {:induction false} ReplaySplit(v: View, a: seq<Block>, b: seq<Block>)
    requires Replay(v, a).Some?
    ensures Replay(v, a + b) == Replay(Replay(v, a).value, b)
  {
    hide RunTxs;
    if b == [] {
      assert a + b == a;
    } else {
      var n := |b| - 1;
      ReplaySplit(v, a, b[..n]);
      assert (a + b)[..|a + b| - 1] == a + b[..n] && (a + b)[|a + b| - 1] == b[n];
    }
  }

  lemma SoundSpends(v0: View, s: NodeState, t: NodeState, a: string)
    requires Sound(v0, s) && Sound(v0, t) && s.chain <= t.chain
    ensures Balance(t.view, a) < Balance(s.view, a) ==> SomeMaySpend(AllTxs(t.chain[|s.chain|..]), a)
  {
    hide Replay, Balance, SomeMaySpend, Proposed, AllTxs;
    var added := t.chain[|s.chain|..];
    assert t.chain[1..] == s.chain[1..] + added;
    ReplaySplit(v0, s.chain[1..], added);
    ReplaySpends(s.view, added, a);
  }

  /** Between any two states of a run a balance falls only if the blocks added since hold a transaction
      signed by its key, or an opening of a session with positive stakes that names it. */
  lemma NobodyElseSpends(cfg: Config, genesis: Block, run: seq<NodeState>, actions: seq<Action>, j: nat, i: nat,
                         a: string)
    requires IsRun(cfg, genesis, run, actions) && j <= i < |run|
    ensures |run[j].chain| <= |run[i].chain|
    ensures Balance(run[i].view, a) < Balance(run[j].view, a) ==>
              SomeMaySpend(AllTxs(run[i].chain[|run[j].chain|..]), a)
  {
    hide IsRun, Sound, Balance, SomeMaySpend, AllTxs;
    RunIsSound(cfg, genesis, run, actions, j);
    RunIsSound(cfg, genesis, run, actions, i);
    ChainsGrow(cfg, genesis, run, actions, j, i);
    SoundSpends(GenesisView(cfg.alloc), run[j], run[i], a);
  }

  /** If the allocations sum to at most 2^64 - 1, no transaction of any block with a proposer is ever
      refused for an overflow, in any state of any run. */
  lemma NoOverflowInAnyRun(cfg: Config, genesis: Block, run: seq<NodeState>, actions: seq<Action>, i: nat,
                           h: Header, txs: seq<Transaction>)
    requires IsRun(cfg, genesis, run, actions) && i < |run|
    requires Sum(cfg.alloc) <= MAX_UINT64 && h.proposer != ""
    ensures var r := RunTxs(run[i].view, h, txs); r.error.Some? ==> !IsOverflow(r.error.value)
  {
    hide Inv, IsRun, RunTxs;
    EveryRunSafe(cfg, genesis, run, actions, i);
    RunKeepsInv(run[i].view, AllTxs(run[i].chain[1..]), Sum(cfg.alloc), h, txs);
  }
}
