/** A node: block production (consensus/poa.go), block sync (network/sync.go) and genesis
    (config/genesis.go) on the mutable chain, state store and mempool. */
module Nodes {
  import opened Wrappers
  import opened Crypto
  import opened Types
  import opened Encoding
  import opened State
  import opened StateStore
  import opened Rules
  import opened Execution
  import opened Chain
  import opened Pool
  import opened Consensus
  import opened Ledger
  import opened Protocol

  /** A `GetBlocksRequest`. */
  datatype Request = Request(from: int, limit: int)

  datatype Verdict = Stopped | Skipped | Accepted

  datatype ProduceError = NotProposer | ExecutionFailed(error: Error)

  /** The allocations, met in any order, credited in a fresh store. */
  method CreditAllocations(alloc: map<string, uint64>) returns (state: StateDB)
    ensures fresh(state) && state.Valid() && state.View() == GenesisView(alloc)
  {
    state := new StateDB(map[]);
    var rest := alloc.Keys;
    ghost var credited: set<string> := {};
    while rest != {}
      invariant state.Valid() && rest <= alloc.Keys && credited == alloc.Keys - rest
      invariant forall k :: k in state.View() <==> k in AccountKeys(credited)
      invariant forall a :: a in credited ==> state.View()[AccountKey(a)] == AccountV(Account(a, alloc[a], 0))
    {
      var a :| a in rest;
      state.SetAccount(Account(a, alloc[a], 0));
      rest := rest - {a};
      credited := credited + {a};
    }
    SameEntries(state.View(), GenesisView(alloc));
  }

  /** Block 0: its root is that of the allocated accounts, which are committed. */
  method CreateGenesisBlock(cfg: Config, key: PrivateKey, now: int) returns (state: StateDB, b: Block)
    ensures fresh(state) && state.Valid() && state.Clean() && state.View() == GenesisView(cfg.alloc)
    ensures var root := Root(GenesisView(cfg.alloc));
            b.header == Header(cfg.chainID, 0, GENESIS_HASH, root, Hash(cfg.chainID), now, Ed25519.publicHex(key))
    ensures Hashed(b) && b.txs == [] && Ed25519.verify(b.header.proposer, b.hash, b.signature)
  {
    state := CreditAllocations(cfg.alloc);
    var root := state.ComputeRoot();
    state.Commit();
    var h := Header(cfg.chainID, 0, GENESIS_HASH, root, Hash(cfg.chainID), now, Ed25519.publicHex(key));
    b := Sign(key, h, []);
  }

  method LoadEmptyChain() returns (bc: Blockchain)
    ensures fresh(bc) && bc.Valid() && bc.chain == []
  {
    bc := new Blockchain(NO_BLOCKS, []);
    var loaded := bc.Init();
  }

  /** A node started on an empty database is at the first state of a run. */
  method Start(cfg: Config, key: PrivateKey, now: int) returns (node: Node, genesis: Block)
    ensures fresh(node) && fresh(node.bc) && fresh(node.state) && fresh(node.exec)
    ensures fresh(node.pool) && fresh(node.pool.ord)
    ensures node.Valid() && node.state.Clean() && node.cfg == cfg && node.key == key
    ensures node.Now() == NodeState([genesis], GenesisView(cfg.alloc))
    ensures IsRun(cfg, genesis, [node.Now()], [])
  {
    hide GenesisView, Root, Contiguous, AllHashed, Agrees, Overlay, GoodDb, GoodBuffer, Consistent;
    var bc := LoadEmptyChain();
    var state;
    state, genesis := CreateGenesisBlock(cfg, key, now);
    var added := bc.AddBlock(genesis);
    var pool := new Mempool();
    node := new Node(cfg, key, bc, state, pool);
  }

  class Node {
    const cfg: Config
    const key: PrivateKey
    const bc: Blockchain
    const state: StateDB
    const exec: Executor
    const pool: Mempool

    ghost predicate Valid()
      reads bc, state, pool, pool.ord
    {
      bc.Valid() && state.Valid() && pool.Valid() && exec.state == state
    }

    /** The node as the protocol sees it. */
    ghost function Now(): NodeState
      requires Valid()
      reads bc, state, pool, pool.ord
    {
      NodeState(bc.chain, state.View())
    }

    constructor (c: Config, k: PrivateKey, chain: Blockchain, s: StateDB, mempool: Mempool)
      requires chain.Valid() && s.Valid() && mempool.Valid()
      ensures Valid() && cfg == c && key == k && bc == chain && state == s && pool == mempool
      ensures fresh(exec)
    {
      cfg, key, bc, state, pool := c, k, chain, s, mempool;
      exec := new Executor(s);
    }

    /** Snapshot, execute and compare the root. On failure the state is rolled back to where it was,
        past all snapshots the transactions left, and the roll-back itself cannot fail. */
    method TryBlock(b: Block) returns (failed: Option<Verdict>)
      requires state.Valid() && state.Clean() && exec.state == state
      modifies state, exec`log
      ensures state.Valid()
      ensures var v := old(state.View());
              var run := RunTxs(v, b.header, b.txs);
              if run.error.Some? then failed == Some(Skipped) && state.Clean() && state.View() == v
              else if !RootMatches(b, run.view) then failed == Some(Stopped) && state.Clean() && state.View() == v
              else failed == None && state.View() == run.view
      ensures exec.log == old(exec.log) + RunTxs(old(state.View()), b.header, b.txs).events
    {
      hide RunTxs, Overlay, GoodDb, GoodBuffer, Root;
      var snapID := state.Snapshot();
      var err := exec.ExecuteAll(b.header, b.txs);
      if err.Some? {
        var reverted := state.RevertToSnapshot(snapID);
        assert reverted;
        return Some(Skipped);
      }
      var computedRoot := state.ComputeRoot();
      if b.header.stateRoot != "" && computedRoot != b.header.stateRoot {
        var reverted := state.RevertToSnapshot(snapID);
        assert reverted;
        return Some(Stopped);
      }
      return None;
    }

    /** One block of `handleBlocks`. */
    method SyncBlock(b: Block, now: int) returns (verdict: Verdict)
      requires Valid() && state.Clean()
      modifies bc, state, exec`log
      ensures Valid() && state.Clean()
      ensures match SyncOne(cfg, TipOf(old(bc.chain)), old(state.View()), b, now)
              case Stop => verdict == Stopped && Now() == old(Now())
              case Skip => verdict == Skipped && Now() == old(Now())
              case Accept(w) => verdict == Accepted && Now() == NodeState(old(bc.chain) + [b], w)
      ensures exec.log == old(exec.log) + BlockEvents(cfg, TipOf(old(bc.chain)), old(state.View()), b, now)
    {
      hide ValidateBlock, RunTxs, RootMatches, CanFollow, Contiguous, AllHashed, Agrees;
      hide StateDB.Valid, Mempool.Valid, StateDB.View;
      assert bc.tip == TipOf(bc.chain);
      hide Blockchain.Valid;
      if ValidateBlock(cfg, bc.tip, b, now).Some? {
        return Stopped;
      }
      AcceptedLinks(cfg, bc.tip, b, now);
      var failed := TryBlock(b);
      if failed.Some? {
        return failed.value;
      }
      var added := bc.AddBlock(b);
      if !added {
        // A validated block follows the tip, so the source's roll-back after a failed add is dead code.
        assert false;
      }
      state.Commit();
      return Accepted;
    }

    /** Whatever a peer sends, the buffer ends empty and the node ends where the protocol says; a full
        batch is answered with a request for the next one. */
    method HandleBlocks(blocks: seq<Block>, nows: seq<int>) returns (next: Option<Request>)
      requires Valid() && state.Clean() && |nows| == |blocks|
      modifies bc, state, exec`log
      ensures Valid() && state.Clean()
      ensures var r := Sync(cfg, old(Now()), blocks, nows);
              && Now() == r.state
              && next == if r.finished && |blocks| >= BATCH then Some(Request(NextHeight(bc.chain), BATCH)) else None
      ensures exec.log == old(exec.log) + SyncEvents(cfg, old(Now()), blocks, nows)
    {
      hide SyncEvents, BlockEvents;
      hide Sync, SyncOne, Valid, StateDB.Valid, Blockchain.Valid, Mempool.Valid, StateDB.View, TipOf, NextHeight;
      ghost var all := Sync(cfg, Now(), blocks, nows);
      ghost var events := SyncEvents(cfg, Now(), blocks, nows);
      assert blocks[0..] == blocks && nows[0..] == nows;
      for i := 0 to |blocks|
        invariant Valid() && state.Clean()
        invariant var rest := Sync(cfg, Now(), blocks[i..], nows[i..]);
                  rest.state == all.state && rest.finished == all.finished
        invariant exec.log + SyncEvents(cfg, Now(), blocks[i..], nows[i..]) == old(exec.log) + events
      {
        SyncUnfold(cfg, Now(), blocks, nows, i);
        EventsUnfold(cfg, Now(), blocks, nows, i);
        var verdict := SyncBlock(blocks[i], nows[i]);
        if verdict == Stopped {
          return None;
        }
      }
      SyncDone(cfg, Now(), blocks, nows);
      EventsDone(cfg, Now(), blocks, nows);
      if |blocks| >= BATCH {
        var req := Hello();
        return Some(req);
      }
      return None;
    }

    method HandleGetBlocks(req: Request) returns (blocks: seq<Block>)
      requires Valid()
      ensures blocks == Served(bc.chain, req.from, req.limit)
    {
      hide Overlay, GoodDb, GoodBuffer, Contiguous, AllHashed, Agrees, Consistent;
      var limit := req.limit;
      if limit <= 0 || limit > 200 {
        limit := BATCH;
      }
      blocks := [];
      var h := req.from;
      while h < req.from + limit
        invariant req.from <= h <= req.from + limit
        invariant |blocks| == h - req.from
        invariant h > req.from ==>
                    && bc.chain != [] && 0 <= req.from - bc.chain[0].header.height
                    && h - bc.chain[0].header.height <= |bc.chain|
                    && blocks == bc.chain[req.from - bc.chain[0].header.height..h - bc.chain[0].header.height]
      {
        var b := bc.GetBlockByHeight(h);
        if b.None? {
          break;
        }
        blocks := blocks + [b.value];
        h := h + 1;
      }
    }

    /** `handleHello` and `SyncWithPeer`: ask for everything above the own height. */
    method Hello() returns (req: Request)
      requires Valid()
      ensures req == Request(NextHeight(bc.chain), BATCH)
    {
      req := Request(bc.height + 1, BATCH);
    }

    /** The header that `NewBlock` fills in; the state root follows after execution. */
    method NewHeader(txs: seq<Transaction>, now: int) returns (h: Header)
      requires bc.Valid()
      ensures h == Draft(cfg, Ed25519.publicHex(key), TipOf(bc.chain), txs, now)
    {
      var prevHash, nextHeight := GENESIS_HASH, 1;
      if bc.tip.Some? {
        prevHash, nextHeight := bc.tip.value.hash, bc.tip.value.header.height + 1;
      }
      var txRoot := ComputeTxRoot(txs);
      h := Header(cfg.chainID, nextHeight, prevHash, "", txRoot, now, Ed25519.publicHex(key));
    }

    /** Execute the transactions under a new header, then fill in the root and sign. */
    method Assemble(txs: seq<Transaction>, now: int) returns (r: Result<Block, Error>)
      requires bc.Valid() && state.Valid() && exec.state == state
      modifies state`dirty, state`deleted, state`snapshots, exec`log
      ensures state.Valid()
      ensures var s := NodeState(bc.chain, old(state.View()));
              var run := RunTxs(s.view, Draft(cfg, Ed25519.publicHex(key), TipOf(s.chain), txs, now), txs);
              && state.View() == run.view
              && r == (if run.error.Some? then Err(run.error.value) else Ok(Produced(cfg, key, s, txs, now)))
              && exec.log == old(exec.log) + run.events
    {
      hide RunTxs, Root, StateDB.Valid;
      var header := NewHeader(txs, now);
      var err := exec.ExecuteAll(header, txs);
      if err.Some? {
        return Err(err.value);
      }
      var root := state.ComputeRoot();
      return Ok(Sign(key, header.(stateRoot := root), txs));
    }

    /** Store a produced block, flush its effects and drop its transactions from the mempool. */
    method Finish(b: Block)
      requires Valid() && CanFollow(bc.tip, b) && Hashed(b)
      modifies bc, state, exec`log, pool, pool.ord
      ensures exec.log == old(exec.log) + [BlockCommitted(b.hash)]
      ensures Valid() && pool.ord == old(pool.ord) && state.Clean()
      ensures Now() == NodeState(old(bc.chain) + [b], old(state.View()))
      ensures pool.Queue() == Without(old(pool.Queue()), set t | t in Ids(b.txs))
    {
      hide Overlay, GoodDb, GoodBuffer, Contiguous, AllHashed, Agrees, Consistent, Lookup;
      var added := bc.AddBlock(b);
      assert added;
      state.Commit();
      exec.log := exec.log + [BlockCommitted(b.hash)];
      pool.Remove(Ids(b.txs));
    }

    /** Success adds the produced block, flushes its effects and takes its transactions out of the
        mempool. A failing transaction leaves the effects of those before it in the buffer. */
    method ProduceBlock(now: int) returns (r: Result<Block, ProduceError>)
      requires Valid()
      modifies bc, state, exec`log, pool, pool.ord
      ensures Valid() && pool.ord == old(pool.ord)
      ensures var s := old(Now());
              var limit := if cfg.maxBlockTxs <= 0 then 500 else cfg.maxBlockTxs;
              var q := old(pool.Queue());
              var txs := if limit < |q| then q[..limit] else q;
              var pub := Ed25519.publicHex(key);
              var run := RunTxs(s.view, Draft(cfg, pub, TipOf(s.chain), txs, now), txs);
              if !IsProposer(cfg, pub, old(bc.height)) then
                r == Err(NotProposer) && Now() == s && pool.Queue() == q && exec.log == old(exec.log)
              else if run.error.Some? then
                && r == Err(ExecutionFailed(run.error.value))
                && Now() == NodeState(s.chain, run.view) && pool.Queue() == q
                && exec.log == old(exec.log) + run.events
              else
                && CanProduce(cfg, key, s, txs, now)
                && r == Ok(Produced(cfg, key, s, txs, now))
                && Now() == NodeState(s.chain + [r.value], run.view)
                && state.Clean()
                && exec.log == old(exec.log) + run.events + [BlockCommitted(r.value.hash)]
                && pool.Queue() == Without(q, set t | t in Ids(txs))
    {
      hide RunTxs, Root, Without, IsProposer, Contiguous, AllHashed, Agrees;
      hide StateDB.Valid, Mempool.Valid, StateDB.View, Mempool.Queue;
      if !IsProposer(cfg, Ed25519.publicHex(key), bc.height) {
        return Err(NotProposer);
      }
      var limit := cfg.maxBlockTxs;
      if limit <= 0 {
        limit := 500;
      }
      var txs := pool.Pending(limit);
      var block := Assemble(txs, now);
      if block.Err? {
        return Err(ExecutionFailed(block.error));
      }
      Finish(block.value);
      return Ok(block.value);
    }
  }

  /** Production on one node and delivery to another in the same state: they end in the same state exactly
      when the block is on time, and otherwise the receiver stays where it was. */
  method Propagate(producer: Node, receiver: Node, now: int, now': int) returns (r: Result<Block, ProduceError>)
    requires producer.Valid() && receiver.Valid() && receiver.state.Clean() && producer.cfg == receiver.cfg
    requires producer.bc != receiver.bc && producer.state != receiver.state
    requires producer.pool != receiver.pool && producer.pool.ord != receiver.pool.ord
    requires producer.Now() == receiver.Now()
    modifies producer.bc, producer.state, producer.exec`log, producer.pool, producer.pool.ord
    modifies receiver.bc, receiver.state, receiver.exec`log
    ensures producer.Valid() && receiver.Valid() && receiver.state.Clean()
    ensures r.Ok? ==> |producer.bc.chain| == |old(producer.bc.chain)| + 1
    ensures r.Ok? && OnTime(old(producer.bc.chain), now, now') ==> receiver.Now() == producer.Now()
    ensures !(r.Ok? && OnTime(old(producer.bc.chain), now, now')) ==> receiver.Now() == old(receiver.Now())
  {
    hide RunTxs, Root, Without, IsProposer, OnTime, SyncOne, Sync, CanProduce, Produced, Draft;
    hide StateDB.Valid, Mempool.Valid, Blockchain.Valid, StateDB.View, Mempool.Queue;
    ghost var s := producer.Now();
    ghost var limit := if producer.cfg.maxBlockTxs <= 0 then 500 else producer.cfg.maxBlockTxs;
    ghost var q := producer.pool.Queue();
    ghost var txs := if limit < |q| then q[..limit] else q;
    r := producer.ProduceBlock(now);
    if r.Ok? {
      ProducedAccepted(producer.cfg, producer.key, s, txs, now, now');
      SyncSingle(producer.cfg, s, r.value, now');
      var next := receiver.HandleBlocks([r.value], [now']);
    }
  }

  /** The follower has taken exactly the first `k` blocks of the server's good chain. */
  ghost predicate Behind(server: Node, follower: Node, v0: View, clock: int -> int, k: nat)
    reads server.bc, server.state, server.pool, server.pool.ord
    reads follower.bc, follower.state, follower.pool, follower.pool.ord
  {
    && server.Valid() && follower.Valid() && follower.state.Clean()
    && server.bc != follower.bc && server.state != follower.state && server.cfg == follower.cfg
    && GoodNode(server.cfg, v0, server.Now()) && InTime(server.bc.chain, clock)
    && 1 <= k <= |server.bc.chain|
    && Replay(v0, server.bc.chain[1..k]).Some?
    && follower.Now() == StateAt(v0, server.bc.chain, k)
  }

  /** One request, its answer and what the follower does with it. */
  method Round(server: Node, follower: Node, req: Request, clock: int -> int, ghost v0: View, ghost k: nat)
    returns (next: Option<Request>)
    requires Behind(server, follower, v0, clock, k) && req == Request(NextHeight(server.bc.chain[..k]), BATCH)
    modifies follower.bc, follower.state, follower.exec`log
    ensures server.Valid() && server.Now() == old(server.Now())
    ensures var m := RoundEnd(server.bc.chain, k);
            && Behind(server, follower, v0, clock, m)
            && next == if m == k + BATCH then Some(Request(NextHeight(server.bc.chain[..m]), BATCH)) else None
  {
    hide GoodChain, InTime, Served, Sync, Replay, NextHeight, Contiguous, Agrees, AllHashed;
    hide StateDB.Valid, Mempool.Valid, StateDB.View;
    CatchUpRound(server.cfg, v0, server.bc.chain, k, clock);
    hide GoodNode, Blockchain.Valid;
    var blocks := server.HandleGetBlocks(req);
    next := follower.HandleBlocks(blocks, Readings(blocks, clock));
  }

  /** The exchange of requests and answers between a follower and a server whose chain extends the
      follower's. It ends, and it ends with equal chains and equal world states. */
  method CatchUp(server: Node, follower: Node, clock: int -> int, ghost v0: View)
    requires server.Valid() && follower.Valid() && follower.state.Clean()
    requires server.bc != follower.bc && server.state != follower.state && server.cfg == follower.cfg
    requires GoodNode(server.cfg, v0, server.Now()) && GoodNode(server.cfg, v0, follower.Now())
    requires follower.bc.chain <= server.bc.chain && InTime(server.bc.chain, clock)
    modifies follower.bc, follower.state, follower.exec`log
    ensures server.Valid() && follower.Valid() && follower.state.Clean()
    ensures follower.Now() == server.Now() && server.Now() == old(server.Now())
  {
    hide GoodNode, InTime, Replay, NextHeight, StateDB.Valid, Blockchain.Valid, Mempool.Valid, StateDB.View;
    PrefixState(server.cfg, v0, follower.Now(), server.bc.chain);
    PrefixState(server.cfg, v0, server.Now(), server.bc.chain);
    ghost var k := |follower.bc.chain|;
    var req := follower.Hello();
    var more := true;
    while more
      invariant Behind(server, follower, v0, clock, k) && server.Now() == old(server.Now())
      invariant more ==> req == Request(NextHeight(server.bc.chain[..k]), BATCH)
      invariant !more ==> k == |server.bc.chain|
      decreases |server.bc.chain| - k, more
    {
      var next := Round(server, follower, req, clock, v0, k);
      more := next.Some?;
      k := RoundEnd(server.bc.chain, k);
      if more {
        req := next.value;
      }
    }
  }
}
