/** The owner index along whole runs. The indexer hears every executed transaction, also those of blocks
    that are rolled back afterwards. */
module IndexRuns {
  import opened Wrappers
  import opened Crypto
  import opened Types
  import opened State
  import opened Sums
  import opened Rules
  import opened Chain
  import opened Consensus
  import opened Ledger
  import opened Indexing
  import opened IndexContents
  import opened Protocol

  lemma {:induction false} IndexConcat(ix: Index, a: seq<Event>, b: seq<Event>)
    ensures IndexAll(ix, a + b) == IndexAll(IndexAll(ix, a), b)
  {
    if b == [] {
      assert a + b == a;
    } else {
      var n := |b| - 1;
      IndexConcat(ix, a, b[..n]);
      assert (a + b)[..|a + b| - 1] == a + b[..n];
    }
  }

  /** No accepted block buys anything, and what ran of a block that is rolled back puts every ID back. */
  ghost predicate QuietSync(cfg: Config, s: NodeState, blocks: seq<Block>, nows: seq<int>)
    requires |nows| == |blocks|
    decreases |blocks|
  {
    blocks == [] || ValidateBlock(cfg, TipOf(s.chain), blocks[0], nows[0]).Some? ||
    var b := blocks[0];
    match SyncOne(cfg, TipOf(s.chain), s.view, b, nows[0])
    case Stop => PutsBack(s.view, Ran(s.view, b.header, b.txs))
    case Skip => PutsBack(s.view, Ran(s.view, b.header, b.txs)) && QuietSync(cfg, s, blocks[1..], nows[1..])
    case Accept(w) => NoPurchase(b.txs) && QuietSync(cfg, NodeState(s.chain + [b], w), blocks[1..], nows[1..])
  }

  lemma AcceptKeepsInv(v: View, hist: seq<Transaction>, supply: nat, b: Block)
    requires Inv(v, hist, supply) && b.header.proposer != "" && RunTxs(v, b.header, b.txs).error.None?
    ensures Inv(RunTxs(v, b.header, b.txs).view, hist + b.txs, supply)
  {
    hide Inv;
    RunKeepsInv(v, hist, supply, b.header, b.txs);
    assert b.txs[..|b.txs|] == b.txs;
  }

  lemma {:induction false} SyncIndexAgrees(cfg: Config, s: NodeState, ix: Index, hist: seq<Transaction>, supply: nat,
                                           blocks: seq<Block>, nows: seq<int>)
    requires |nows| == |blocks| && QuietSync(cfg, s, blocks, nows)
    requires Inv(s.view, hist, supply) && Indexing.Agrees(ix, s.view)
    ensures Indexing.Agrees(IndexAll(ix, SyncEvents(cfg, s, blocks, nows)), Sync(cfg, s, blocks, nows).state.view)
    decreases |blocks|
  {
    hide Inv, RunTxs, ValidateBlock, Indexing.Agrees, RootMatches, CanFollow, PutsBack, Ran, NoPurchase, Indexed;
    if blocks != [] && ValidateBlock(cfg, TipOf(s.chain), blocks[0], nows[0]).None? {
      var b := blocks[0];
      AcceptedLinks(cfg, TipOf(s.chain), b, nows[0]);
      var events := RunTxs(s.view, b.header, b.txs).events;
      var heard := IndexAll(ix, events);
      RolledBackExactly(ix, s.view, b.header, b.txs);
      match SyncOne(cfg, TipOf(s.chain), s.view, b, nows[0])
      case Stop =>
        assert events + [] == events;
      case Skip =>
        SyncIndexAgrees(cfg, s, heard, hist, supply, blocks[1..], nows[1..]);
        IndexConcat(ix, events, SyncEvents(cfg, s, blocks[1..], nows[1..]));
      case Accept(w) =>
        var t := NodeState(s.chain + [b], w);
        RunAgrees(ix, s.view, hist, supply, b.header, b.txs);
        AcceptKeepsInv(s.view, hist, supply, b);
        SyncIndexAgrees(cfg, t, heard, hist + b.txs, supply, blocks[1..], nows[1..]);
        IndexConcat(ix, events, SyncEvents(cfg, t, blocks[1..], nows[1..]));
    }
  }

  /** The events of one step. */
  ghost function StepEvents(cfg: Config, s: NodeState, a: Action): seq<Event>
    requires Enabled(cfg, s, a)
  {
    match a
    case Receive(blocks, nows) => SyncEvents(cfg, s, blocks, nows)
    case Produce(key, txs, now) =>
      var run := RunTxs(s.view, Draft(cfg, Ed25519.publicHex(key), TipOf(s.chain), txs, now), txs);
      run.events + [BlockCommitted(Produced(cfg, key, s, txs, now).hash)]
  }

  ghost predicate Quiet(cfg: Config, s: NodeState, a: Action)
    requires Enabled(cfg, s, a)
  {
    match a
    case Receive(blocks, nows) => QuietSync(cfg, s, blocks, nows)
    case Produce(key, txs, now) => NoPurchase(txs)
  }

  lemma StepIndexAgrees(cfg: Config, s: NodeState, ix: Index, hist: seq<Transaction>, supply: nat, a: Action)
    requires Enabled(cfg, s, a) && Quiet(cfg, s, a) && Inv(s.view, hist, supply) && Indexing.Agrees(ix, s.view)
    ensures Indexing.Agrees(IndexAll(ix, StepEvents(cfg, s, a)), After(cfg, s, a).view)
  {
    hide Inv, Indexing.Agrees, RunTxs;
    match a
    case Receive(blocks, nows) => SyncIndexAgrees(cfg, s, ix, hist, supply, blocks, nows);
    case Produce(key, txs, now) =>
      var draft := Draft(cfg, Ed25519.publicHex(key), TipOf(s.chain), txs, now);
      assert IsPubKeyHex(draft.proposer);
      RunAgrees(ix, s.view, hist, supply, draft, txs);
      CommitIgnored(ix, RunTxs(s.view, draft, txs).events, Produced(cfg, key, s, txs, now).hash);
  }

  /** The lists in the i-th state of a run, starting empty. */
  ghost function IndexAt(cfg: Config, genesis: Block, run: seq<NodeState>, actions: seq<Action>, i: nat): Index
    requires IsRun(cfg, genesis, run, actions) && i < |run|
  {
    if i == 0 then map[]
    else IndexAll(IndexAt(cfg, genesis, run, actions, i - 1), StepEvents(cfg, run[i - 1], actions[i - 1]))
  }

  lemma GenesisIndex(alloc: map<string, uint64>)
    ensures Indexing.Agrees(map[], GenesisView(alloc))
  {
    forall owner
      ensures ListAgrees(map[], GenesisView(alloc), owner)
    {
      forall id
        ensures !OwnedBy(GenesisView(alloc), owner, id)
      {
      }
    }
  }

  /** In every state of every run in which no accepted block buys anything and rolled-back blocks put every
      ID back, each owner's list holds exactly the owner's live assets, once each. */
  lemma {:induction false} EveryRunIndexed(cfg: Config, genesis: Block, run: seq<NodeState>, actions: seq<Action>,
                                           i: nat)
    requires IsRun(cfg, genesis, run, actions) && i < |run|
    requires forall j :: 0 <= j < i ==> Quiet(cfg, run[j], actions[j])
    ensures Indexing.Agrees(IndexAt(cfg, genesis, run, actions, i), run[i].view)
  {
    hide Inv, Indexing.Agrees, Quiet, After, Enabled, StepEvents, IndexAll;
    if i == 0 {
      GenesisIndex(cfg.alloc);
    } else {
      EveryRunIndexed(cfg, genesis, run, actions, i - 1);
      EveryRunSafe(cfg, genesis, run, actions, i - 1);
      assert run[i] == After(cfg, run[i - 1], actions[i - 1]);
      StepIndexAgrees(cfg, run[i - 1], IndexAt(cfg, genesis, run, actions, i - 1),
                      AllTxs(run[i - 1].chain[1..]), Sum(cfg.alloc), actions[i - 1]);
    }
  }

  // ---- The contents in every run, quiet or not ----

  /** The transactions a batch executed, also those that were rolled back. */
  ghost function SyncRan(cfg: Config, s: NodeState, blocks: seq<Block>, nows: seq<int>): seq<Transaction>
    requires |nows| == |blocks|
    decreases |blocks|
  {
    if blocks == [] || ValidateBlock(cfg, TipOf(s.chain), blocks[0], nows[0]).Some? then []
    else
      var b := blocks[0];
      Ran(s.view, b.header, b.txs) +
      match SyncOne(cfg, TipOf(s.chain), s.view, b, nows[0])
      case Stop => []
      case Skip => SyncRan(cfg, s, blocks[1..], nows[1..])
      case Accept(w) => SyncRan(cfg, NodeState(s.chain + [b], w), blocks[1..], nows[1..])
  }

  ghost function StepRan(cfg: Config, s: NodeState, a: Action): seq<Transaction>
    requires Enabled(cfg, s, a)
  {
    match a
    case Receive(blocks, nows) => SyncRan(cfg, s, blocks, nows)
    case Produce(key, txs, now) =>
      Ran(s.view, Draft(cfg, Ed25519.publicHex(key), TipOf(s.chain), txs, now), txs)
  }

  /** All transactions executed up to the i-th state of a run. */
  ghost function RanAt(cfg: Config, genesis: Block, run: seq<NodeState>, actions: seq<Action>, i: nat): seq<Transaction>
    requires IsRun(cfg, genesis, run, actions) && i < |run|
  {
    if i == 0 then []
    else RanAt(cfg, genesis, run, actions, i - 1) + StepRan(cfg, run[i - 1], actions[i - 1])
  }

  lemma {:induction false} SyncListed(cfg: Config, s: NodeState, ix: Index, blocks: seq<Block>, nows: seq<int>,
                                      owner: string, id: string)
    requires |nows| == |blocks|
    ensures id in Owned(IndexAll(ix, SyncEvents(cfg, s, blocks, nows)), owner)
            <==> ListedAfter(id in Owned(ix, owner), SyncRan(cfg, s, blocks, nows), owner, id)
    decreases |blocks|, 0
  {
    hide RunTxs, ValidateBlock, RootMatches, CanFollow, Ran, Indexed, NextListed, Owned;
    if blocks != [] && ValidateBlock(cfg, TipOf(s.chain), blocks[0], nows[0]).None? {
      var b := blocks[0];
      var events, ran := RunTxs(s.view, b.header, b.txs).events, Ran(s.view, b.header, b.txs);
      RunListed(ix, s.view, b.header, b.txs, owner, id);
      match SyncOne(cfg, TipOf(s.chain), s.view, b, nows[0])
      case Stop =>
        assert events + [] == events && ran + [] == ran;
      case Skip =>
        RestListed(cfg, s, ix, events, ran, blocks[1..], nows[1..], owner, id);
      case Accept(w) =>
        RestListed(cfg, NodeState(s.chain + [b], w), ix, events, ran, blocks[1..], nows[1..], owner, id);
    }
  }

  lemma {:induction false} RestListed(cfg: Config, s: NodeState, ix: Index, events: seq<Event>, ran: seq<Transaction>,
                                      blocks: seq<Block>, nows: seq<int>, owner: string, id: string)
    requires |nows| == |blocks|
    requires id in Owned(IndexAll(ix, events), owner) <==> ListedAfter(id in Owned(ix, owner), ran, owner, id)
    ensures id in Owned(IndexAll(ix, events + SyncEvents(cfg, s, blocks, nows)), owner)
            <==> ListedAfter(id in Owned(ix, owner), ran + SyncRan(cfg, s, blocks, nows), owner, id)
    decreases |blocks|, 1
  {
    hide SyncEvents, SyncRan, Indexed, NextListed, Owned;
    SyncListed(cfg, s, IndexAll(ix, events), blocks, nows, owner, id);
    IndexConcat(ix, events, SyncEvents(cfg, s, blocks, nows));
    ListedConcat(id in Owned(ix, owner), ran, SyncRan(cfg, s, blocks, nows), owner, id);
  }

  lemma StepListed(cfg: Config, s: NodeState, ix: Index, a: Action, owner: string, id: string)
    requires Enabled(cfg, s, a)
    ensures id in Owned(IndexAll(ix, StepEvents(cfg, s, a)), owner)
            <==> ListedAfter(id in Owned(ix, owner), StepRan(cfg, s, a), owner, id)
  {
    hide RunTxs, Ran, NextListed, Owned;
    match a
    case Receive(blocks, nows) => SyncListed(cfg, s, ix, blocks, nows, owner, id);
    case Produce(key, txs, now) =>
      var draft := Draft(cfg, Ed25519.publicHex(key), TipOf(s.chain), txs, now);
      RunListed(ix, s.view, draft, txs, owner, id);
      CommitIgnored(ix, RunTxs(s.view, draft, txs).events, Produced(cfg, key, s, txs, now).hash);
  }

  lemma CommitIgnored(ix: Index, events: seq<Event>, hash: string)
    ensures IndexAll(ix, events + [BlockCommitted(hash)]) == IndexAll(ix, events)
  {
    assert (events + [BlockCommitted(hash)])[..|events|] == events;
  }

  /** In every state of every run, whatever was bought or rolled back: no list repeats an ID, and an ID is in
      an owner's list exactly when the payloads of all transactions executed so far say so. */
  lemma {:induction false} EveryRunListed(cfg: Config, genesis: Block, run: seq<NodeState>, actions: seq<Action>,
                                          i: nat, owner: string, id: string)
    requires IsRun(cfg, genesis, run, actions) && i < |run|
    ensures NoRepeats(IndexAt(cfg, genesis, run, actions, i))
    ensures id in Owned(IndexAt(cfg, genesis, run, actions, i), owner)
            <==> ListedAfter(false, RanAt(cfg, genesis, run, actions, i), owner, id)
  {
    hide After, Enabled, StepEvents, StepRan, IndexAll, NextListed;
    if i > 0 {
      EveryRunListed(cfg, genesis, run, actions, i - 1, owner, id);
      hide Owned;
      var ix := IndexAt(cfg, genesis, run, actions, i - 1);
      var s, a := run[i - 1], actions[i - 1];
      StepListed(cfg, s, ix, a, owner, id);
      IndexKeepsDistinct(ix, StepEvents(cfg, s, a));
      ListedConcat(false, RanAt(cfg, genesis, run, actions, i - 1), StepRan(cfg, s, a), owner, id);
    }
  }
}
