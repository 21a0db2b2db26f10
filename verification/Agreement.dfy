/** What one hash says: two nodes with the same tip hash have the same chain and the same ledger. */
module Agreement {
  import opened Types
  import opened Encoding
  import opened State
  import opened Rules
  import opened Chain
  import opened Consensus

  lemma {:induction false} HashesBack(a: seq<Block>, b: seq<Block>, i: nat)
    requires Contiguous(a) && Contiguous(b) && AllHashed(a) && AllHashed(b) && |a| == |b|
    requires i < |a| && a[|a| - 1].hash == b[|b| - 1].hash
    ensures a[i].header == b[i].header && a[i].hash == b[i].hash
    decreases |a| - i
  {
    if i < |a| - 1 {
      HashesBack(a, b, i + 1);
      assert a[i].hash == a[i + 1].header.prevHash == b[i + 1].header.prevHash == b[i].hash;
    }
    HashFixesHeader(a[i], b[i]);
  }

  /** The hash of the tip fixes the length of the chain and every header in it. */
  lemma TipFixesHeaders(a: seq<Block>, b: seq<Block>)
    requires Contiguous(a) && Contiguous(b) && AllHashed(a) && AllHashed(b) && a != [] && b != []
    requires a[0].header.height == b[0].header.height && a[|a| - 1].hash == b[|b| - 1].hash
    ensures |a| == |b| && forall i :: 0 <= i < |a| ==> a[i].header == b[i].header && a[i].hash == b[i].hash
  {
    HashFixesHeader(a[|a| - 1], b[|b| - 1]);
    forall i | 0 <= i < |a|
      ensures a[i].header == b[i].header && a[i].hash == b[i].hash
    {
      HashesBack(a, b, i);
    }
  }

  lemma {:induction false} GoodHeights(cfg: Config, v0: View, chain: seq<Block>, i: nat)
    requires GoodChain(cfg, v0, chain) && i < |chain|
    ensures chain[i].header.height == chain[0].header.height + i
  {
    hide Genuine, Replay, RootMatches;
    if i > 0 {
      GoodHeights(cfg, v0, chain, i - 1);
      assert GoodLink(cfg, v0, chain, i);
    }
  }

  lemma GoodIsLinked(cfg: Config, v0: View, chain: seq<Block>)
    requires GoodChain(cfg, v0, chain) && Hashed(chain[0])
    ensures Contiguous(chain) && AllHashed(chain)
  {
    forall i | 0 <= i < |chain|
      ensures chain[i].header.height == chain[0].header.height + i && Hashed(chain[i])
      ensures i > 0 ==> chain[i].header.prevHash == chain[i - 1].hash
    {
      GoodHeights(cfg, v0, chain, i);
      if i > 0 {
        assert GoodLink(cfg, v0, chain, i);
      }
    }
  }

  /** The transactions of corresponding blocks have the same IDs in the same order. */
  lemma SameHeaderSameIds(cfg: Config, a: Block, b: Block)
    requires Genuine(cfg, a) && Genuine(cfg, b) && a.header == b.header && Short(Ids(a.txs)) && Short(Ids(b.txs))
    ensures Ids(a.txs) == Ids(b.txs)
  {
    TxRootInjective(a.txs, b.txs);
  }

  lemma TipRoot(cfg: Config, v0: View, s: NodeState)
    requires GoodNode(cfg, v0, s) && |s.chain| > 1 && s.chain[|s.chain| - 1].header.stateRoot != ""
    ensures s.chain[|s.chain| - 1].header.stateRoot == Root(s.view)
  {
    hide Genuine, Follows, Replay;
    var n := |s.chain| - 1;
    assert GoodLink(cfg, v0, s.chain, n);
    assert s.chain[1..n + 1] == s.chain[1..];
  }

  /** Two good nodes with the same tip hash, whose tip states a root, have the same headers, the same
      transaction IDs in every block after the first, and the same world state. This holds whatever
      states they started from and whichever blocks they were sent on the way. */
  lemma SameTipSameLedger(cfg: Config, v0: View, s: NodeState, w0: View, t: NodeState)
    requires GoodNode(cfg, v0, s) && GoodNode(cfg, w0, t)
    requires Hashed(s.chain[0]) && Hashed(t.chain[0]) && s.chain[0].header.height == t.chain[0].header.height
    requires |s.chain| > 1 && s.chain[|s.chain| - 1].header.stateRoot != ""
    requires s.chain[|s.chain| - 1].hash == t.chain[|t.chain| - 1].hash
    requires ShortMap(Text(s.view)) && ShortMap(Text(t.view))
    requires forall i :: 0 <= i < |s.chain| ==> Short(Ids(s.chain[i].txs))
    requires forall i :: 0 <= i < |t.chain| ==> Short(Ids(t.chain[i].txs))
    ensures s.view == t.view && |s.chain| == |t.chain|
    ensures forall i :: 0 <= i < |s.chain| ==> s.chain[i].header == t.chain[i].header
    ensures forall i :: 1 <= i < |s.chain| ==> Ids(s.chain[i].txs) == Ids(t.chain[i].txs)
  {
    GoodIsLinked(cfg, v0, s.chain);
    GoodIsLinked(cfg, w0, t.chain);
    TipFixesHeaders(s.chain, t.chain);
    TipRoot(cfg, v0, s);
    TipRoot(cfg, w0, t);
    RootInjective(s.view, t.view);
    hide Text, Short, ShortMap, Root, Contiguous, AllHashed, Replay, RootMatches, Follows;
    forall i | 1 <= i < |s.chain|
      ensures Ids(s.chain[i].txs) == Ids(t.chain[i].txs)
    {
      assert GoodLink(cfg, v0, s.chain, i) && GoodLink(cfg, w0, t.chain, i);
      hide Genuine;
      SameHeaderSameIds(cfg, s.chain[i], t.chain[i]);
    }
  }
}
