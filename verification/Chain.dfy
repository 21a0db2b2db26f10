/** core/blockchain.go over the block store of storage/leveldb.go. */
module Chain {
  import opened Wrappers
  import opened Types

  /** The contents of the store: blocks under `block:<hash>`, hashes under `height:<n>`, and the tip
      hash under `chain:tip` (empty while there is none). */
  datatype Store = Store(blocks: map<string, Block>, heights: map<int, string>, tip: string)

  const NO_BLOCKS: Store := Store(map[], map[], "")

  /** `CommitBlock` writes the three entries as one batch. */
  function Commit(s: Store, b: Block): Store {
    Store(s.blocks[b.hash := b], s.heights[b.header.height := b.hash], b.hash)
  }

  function FindByHash(s: Store, hash: string): Option<Block> {
    if hash in s.blocks then Some(s.blocks[hash]) else None
  }

  function FindByHeight(s: Store, height: int): Option<Block> {
    if height in s.heights then FindByHash(s, s.heights[height]) else None
  }

  function TipOf(chain: seq<Block>): Option<Block> {
    if chain == [] then None else Some(chain[|chain| - 1])
  }

  /** What `AddBlock` checks: the first block is free, every other one follows the tip. */
  predicate CanFollow(tip: Option<Block>, b: Block) {
    tip.Some? ==> b.header.height == tip.value.header.height + 1 && b.header.prevHash == tip.value.hash
  }

  /** Consecutive heights and linked hashes. */
  ghost predicate Contiguous(chain: seq<Block>) {
    && (forall i :: 0 <= i < |chain| ==> chain[i].header.height == chain[0].header.height + i)
    && (forall i :: 0 < i < |chain| ==> chain[i].header.prevHash == chain[i - 1].hash)
  }

  /** The store holds exactly the blocks of the chain, under their hashes and heights. */
  ghost predicate Agrees(chain: seq<Block>, s: Store) {
    && (forall i :: 0 <= i < |chain| ==> FindByHash(s, chain[i].hash) == Some(chain[i]))
    && (forall h :: h in s.blocks ==> exists i :: 0 <= i < |chain| && chain[i].hash == h)
    && (forall i :: 0 <= i < |chain| ==>
          chain[i].header.height in s.heights && s.heights[chain[i].header.height] == chain[i].hash)
    && (forall n :: n in s.heights ==> chain != [] && 0 <= n - chain[0].header.height < |chain|)
    && s.tip == if chain == [] then "" else chain[|chain| - 1].hash
  }

  lemma ContiguousLast(chain: seq<Block>, b: Block)
    requires Contiguous(chain) && CanFollow(TipOf(chain), b)
    ensures Contiguous(chain + [b])
  {
  }

  lemma NewHashFound(chain: seq<Block>, s: Store, b: Block, i: nat)
    requires Contiguous(chain) && Agrees(chain, s) && CanFollow(TipOf(chain), b)
    requires b.hash !in s.blocks && i < |chain|
    ensures FindByHash(Commit(s, b), chain[i].hash) == Some(chain[i])
    ensures var n := chain[i].header.height; n in Commit(s, b).heights && Commit(s, b).heights[n] == chain[i].hash
  {
    assert FindByHash(s, chain[i].hash) == Some(chain[i]);
    assert chain[i].header.height < b.header.height;
  }

  lemma NewHashAgrees(chain: seq<Block>, s: Store, b: Block)
    requires Contiguous(chain) && Agrees(chain, s) && CanFollow(TipOf(chain), b)
    requires b.hash !in s.blocks
    ensures Agrees(chain + [b], Commit(s, b))
  {
    var all, t := chain + [b], Commit(s, b);
    forall h | h in t.blocks
      ensures exists i :: 0 <= i < |all| && all[i].hash == h
    {
      if h == b.hash {
        assert all[|chain|].hash == h;
      } else {
        var i :| 0 <= i < |chain| && chain[i].hash == h;
        assert all[i].hash == h;
      }
    }
    forall i | 0 <= i < |all|
      ensures FindByHash(t, all[i].hash) == Some(all[i])
      ensures all[i].header.height in t.heights && t.heights[all[i].header.height] == all[i].hash
    {
      if i < |chain| {
        NewHashFound(chain, s, b, i);
      }
    }
  }

  /** Adding a block keeps the store in agreement exactly when its hash is not yet in the store;
      otherwise an earlier block is overwritten. */
  lemma AgreementExact(chain: seq<Block>, s: Store, b: Block)
    requires Contiguous(chain) && Agrees(chain, s) && CanFollow(TipOf(chain), b)
    ensures Agrees(chain + [b], Commit(s, b)) <==> b.hash !in s.blocks
  {
    if b.hash !in s.blocks {
      NewHashAgrees(chain, s, b);
    } else {
      var i :| 0 <= i < |chain| && chain[i].hash == b.hash;
      var all := chain + [b];
      assert all[i] == chain[i] && chain[i].header.height < b.header.height;
      assert FindByHash(Commit(s, b), all[i].hash) == Some(b);
    }
  }

  ghost predicate AllHashed(chain: seq<Block>) {
    forall i :: 0 <= i < |chain| ==> Hashed(chain[i])
  }

  lemma AllHashedLast(chain: seq<Block>, b: Block)
    requires AllHashed(chain) && Hashed(b)
    ensures AllHashed(chain + [b])
  {
  }

  /** Blocks that carry the hash of their header never collide with an earlier one. */
  lemma HashedIsNew(chain: seq<Block>, s: Store, b: Block)
    requires Contiguous(chain) && Agrees(chain, s) && CanFollow(TipOf(chain), b)
    requires AllHashed(chain) && Hashed(b)
    ensures b.hash !in s.blocks
  {
    assert forall i :: 0 <= i < |chain| ==> chain[i].header.height < b.header.height;
    if b.hash in s.blocks {
      var i :| 0 <= i < |chain| && chain[i].hash == b.hash;
      HashFixesHeader(chain[i], b);
    }
  }

  /** Without that, agreement can break: here the second block reuses the first one's hash. */
  lemma UnhashedBlockOverwrites()
    ensures var a := Block(Header("", 0, "", "", "", 0, ""), [], "x", "");
            var b := Block(Header("", 1, "x", "", "", 0, ""), [], "x", "");
            && Contiguous([a, b]) && Agrees([a], Commit(NO_BLOCKS, a))
            && CanFollow(TipOf([a]), b)
            && !Agrees([a, b], Commit(Commit(NO_BLOCKS, a), b))
  {
    var a := Block(Header("", 0, "", "", "", 0, ""), [], "x", "");
    var b := Block(Header("", 1, "x", "", "", 0, ""), [], "x", "");
    assert [] + [a] == [a] && [a] + [b] == [a, b];
    AgreementExact([], NO_BLOCKS, a);
    AgreementExact([a], Commit(NO_BLOCKS, a), b);
    ContiguousLast([a], b);
  }

  /** Lookup by height finds the block of that height, and nothing outside the chain. */
  lemma HeightLookup(chain: seq<Block>, s: Store, n: int)
    requires Contiguous(chain) && Agrees(chain, s)
    ensures var i := if chain == [] then -1 else n - chain[0].header.height;
            FindByHeight(s, n) == if 0 <= i < |chain| then Some(chain[i]) else None
  {
    if chain != [] {
      var i := n - chain[0].header.height;
      if 0 <= i < |chain| {
        assert chain[i].header.height == n;
        assert FindByHash(s, chain[i].hash) == Some(chain[i]);
      }
    }
  }

  class Blockchain {
    var store: Store
    var tip: Option<Block>
    var height: int
    ghost var chain: seq<Block>

    ghost predicate Valid()
      reads this
    {
      && Contiguous(chain)
      && AllHashed(chain)
      && Agrees(chain, store)
      && tip == TipOf(chain)
      && height == if chain == [] then 0 else tip.value.header.height
    }

    /** A blockchain over the blocks already in a store; `Init` loads its tip. */
    constructor (persisted: Store, ghost blocks: seq<Block>)
      ensures store == persisted && chain == blocks && tip == None && height == 0
    {
      store, tip, height, chain := persisted, None, 0, blocks;
    }

    /** Loading from the store rebuilds the tip and the height of the chain it was built from. */
    method Init() returns (ok: bool)
      requires Contiguous(chain) && AllHashed(chain) && Agrees(chain, store)
      requires tip == None && height == 0
      modifies this
      ensures ok && Valid()
      ensures chain == old(chain) && store == old(store)
    {
      ghost var n := |chain| - 1;
      assert chain != [] ==> Hashed(chain[n]) && FindByHash(store, chain[n].hash) == Some(chain[n]);
      assert store.tip == if chain == [] then "" else chain[n].hash;
      hide Contiguous, AllHashed, Agrees, FindByHash;
      var tipHash := store.tip;
      if tipHash == "" {
        return true;
      }
      var block := FindByHash(store, tipHash);
      if block.None? {
        return false;
      }
      tip := block;
      height := block.value.header.height;
      return true;
    }

    /** Only the next block is accepted; one that carries its header's hash keeps the chain valid. */
    method AddBlock(b: Block) returns (ok: bool)
      requires Valid()
      modifies this
      ensures ok <==> CanFollow(old(tip), b)
      ensures ok ==> store == Commit(old(store), b) && tip == Some(b) && height == b.header.height
      ensures ok ==> chain == old(chain) + [b]
      ensures !ok ==> store == old(store) && tip == old(tip) && height == old(height) && chain == old(chain)
      ensures (ok ==> Hashed(b)) ==> Valid()
    {
      if tip.Some? {
        if b.header.height <= height {
          return false;
        }
        if b.header.height != height + 1 {
          return false;
        }
        if b.header.prevHash != tip.value.hash {
          return false;
        }
      }
      hide Contiguous, Agrees, AllHashed, Commit;
      if Hashed(b) {
        ContiguousLast(chain, b);
        HashedIsNew(chain, store, b);
        NewHashAgrees(chain, store, b);
        AllHashedLast(chain, b);
      }
      store := Commit(store, b);
      tip := Some(b);
      height := b.header.height;
      chain := chain + [b];
      return true;
    }

    method GetBlockByHeight(n: int) returns (r: Option<Block>)
      requires Valid()
      ensures var i := if chain == [] then -1 else n - chain[0].header.height;
              r == if 0 <= i < |chain| then Some(chain[i]) else None
    {
      HeightLookup(chain, store, n);
      r := FindByHeight(store, n);
    }
  }
}
