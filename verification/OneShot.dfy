/** Things that happen at most once along a chain: settling a session and buying a listing. */
module OneShot {
  import opened Types
  import opened State
  import opened Rules
  import opened History
  import opened Market
  import opened Ledger
  import opened Lifetimes
  import opened Listings

  predicate Settles(tx: Transaction, id: string) {
    CallOf(tx).Some? && CallOf(tx).value.SessionResult? && CallOf(tx).value.sessionID == id
  }

  /** No session is settled twice and no listing is bought twice. */
  ghost predicate AtMostOnce(hist: seq<Transaction>) {
    && (forall i, j, id :: 0 <= i < j < |hist| && Settles(hist[i], id) ==> !Settles(hist[j], id))
    && (forall i, j, id :: 0 <= i < j < |hist| && Buys(hist[i], id) ==> !Buys(hist[j], id))
  }

  ghost predicate IsOver(v: View, id: string) {
    SessionOf(v, id).Some? && SessionOf(v, id).value.status.Closed?
  }

  ghost predicate IsGone(v: View, id: string) {
    ListingOf(v, id).Some? && !ListingOf(v, id).value.active
  }

  /** What has been settled is closed, and what has been bought is inactive. */
  ghost predicate Recorded(v: View, hist: seq<Transaction>) {
    && (forall i, id :: 0 <= i < |hist| && Settles(hist[i], id) ==> IsOver(v, id))
    && (forall i, id :: 0 <= i < |hist| && Buys(hist[i], id) ==> IsGone(v, id))
  }

  lemma OverStays(v: View, h: Header, tx: Transaction, id: string)
    requires ExecuteTx(v, h, tx).Ok?
    ensures IsOver(v, id) ==> !Settles(tx, id) && IsOver(ExecuteTx(v, h, tx).value.view, id)
    ensures Settles(tx, id) ==> IsOver(ExecuteTx(v, h, tx).value.view, id)
  {
    var w, c := TxParts(v, h, tx);
    ChargeDeeds(v, h.proposer, tx.body);
    assert SameAt(v, w, SessionKey(id));
    DispatchPersists(w, h, tx, c);
    assert SessionOf(w, id).Some? ==> SessionPersists(w, Dispatch(w, h, tx, c).value.view, id);
    hide ExecuteTx, Charge;
    if Settles(tx, id) {
      SettlePersists(w, h, tx.body.from, id, c.result);
      assert SessionOf(w, id).value.status.Open?;
    }
  }

  lemma GoneStays(v: View, hist: seq<Transaction>, h: Header, tx: Transaction, id: string)
    requires MarketInv(v, hist) && WellNumbered(hist + [tx]) && ExecuteTx(v, h, tx).Ok?
    ensures IsGone(v, id) ==> !Buys(tx, id) && IsGone(ExecuteTx(v, h, tx).value.view, id)
    ensures Buys(tx, id) ==> IsGone(ExecuteTx(v, h, tx).value.view, id)
  {
    var w, c := TxParts(v, h, tx);
    if Buys(tx, id) {
      ChargeGoods(v, h.proposer, tx.body);
      assert SameAt(v, w, ListingKey(id));
      BuyResult(w, tx.body.from, id);
    }
    hide ExecuteTx, Dispatch;
    if IsGone(v, id) {
      ListingTx(v, hist, h, tx, ListingOf(v, id).value);
    }
  }

  lemma TxOnce(v: View, hist: seq<Transaction>, h: Header, tx: Transaction)
    requires MarketInv(v, hist) && WellNumbered(hist + [tx]) && ExecuteTx(v, h, tx).Ok?
    requires AtMostOnce(hist) && Recorded(v, hist)
    ensures AtMostOnce(hist + [tx]) && Recorded(ExecuteTx(v, h, tx).value.view, hist + [tx])
  {
    hide ExecuteTx, MarketInv, WellNumbered, IsOver, IsGone, Settles, Buys;
    forall id
      ensures IsOver(v, id) ==> !Settles(tx, id) && IsOver(ExecuteTx(v, h, tx).value.view, id)
      ensures Settles(tx, id) ==> IsOver(ExecuteTx(v, h, tx).value.view, id)
      ensures IsGone(v, id) ==> !Buys(tx, id) && IsGone(ExecuteTx(v, h, tx).value.view, id)
      ensures Buys(tx, id) ==> IsGone(ExecuteTx(v, h, tx).value.view, id)
    {
      OverStays(v, h, tx, id);
      GoneStays(v, hist, h, tx, id);
    }
  }

  lemma {:induction false} RunOnce(v: View, hist: seq<Transaction>, supply: nat, h: Header, txs: seq<Transaction>)
    requires Inv(v, hist, supply) && h.proposer != "" && AtMostOnce(hist) && Recorded(v, hist)
    ensures var r := RunTxs(v, h, txs);
            r.done <= |txs| && AtMostOnce(hist + txs[..r.done]) && Recorded(r.view, hist + txs[..r.done])
  {
    hide Inv, ExecuteTx, AtMostOnce, Recorded, MarketInv, WellNumbered;
    if txs == [] {
      assert hist + txs[..0] == hist;
    } else {
      var n := |txs| - 1;
      RunOnce(v, hist, supply, h, txs[..n]);
      RunKeepsInv(v, hist, supply, h, txs[..n]);
      var before := RunTxs(v, h, txs[..n]);
      assert txs[..n][..before.done] == txs[..before.done];
      if before.error.None? && ExecuteTx(before.view, h, txs[n]).Ok? {
        StepReady(before.view, hist + txs[..n], supply, h, txs[n]);
        TxOnce(before.view, hist + txs[..n], h, txs[n]);
        assert hist + txs[..n] + [txs[n]] == hist + txs[..n + 1];
      }
    }
  }

  /** Over every run of accepted blocks. */
  lemma {:induction false} ReplayOnce(v: View, hist: seq<Transaction>, supply: nat, blocks: seq<Block>)
    requires Inv(v, hist, supply) && Proposed(blocks) && Replay(v, blocks).Some?
    requires AtMostOnce(hist) && Recorded(v, hist)
    ensures AtMostOnce(hist + AllTxs(blocks)) && Recorded(Replay(v, blocks).value, hist + AllTxs(blocks))
  {
    hide Inv, AtMostOnce, Recorded, RunTxs;
    if blocks == [] {
      assert hist + AllTxs(blocks) == hist;
    } else {
      var n := |blocks| - 1;
      var b := blocks[n];
      ReplayOnce(v, hist, supply, blocks[..n]);
      ReplayKeepsInv(v, hist, supply, blocks[..n]);
      var u, past := Replay(v, blocks[..n]).value, hist + AllTxs(blocks[..n]);
      RunKeepsInv(u, past, supply, b.header, b.txs);
      RunOnce(u, past, supply, b.header, b.txs);
      assert b.txs[..|b.txs|] == b.txs;
      assert hist + AllTxs(blocks[..n]) + b.txs == hist + AllTxs(blocks);
    }
  }
}
