/** The life of a listing: its terms never change, it ends at most once, and what ends it is a purchase
    that pays the price the asset was listed at. */
module Listings {
  import opened Wrappers
  import opened Types
  import opened State
  import opened Rules
  import opened History
  import opened Market
  import opened Payments
  import opened Ledger
  import opened Lifetimes

  /** One transaction leaves a listing as it is, or is a purchase that closes it. */
  ghost predicate ListingStep(v: View, w: View, c: Call, id: string) {
    ListingOf(v, id).Some? ==>
      || ListingOf(w, id) == ListingOf(v, id)
      || (c == BuyMarket(id) && ListingOf(v, id).value.active
          && ListingOf(w, id) == Some(ListingOf(v, id).value.(active := false)))
  }

  lemma PlainListing(v: View, h: Header, tx: Transaction, c: Call, id: string)
    requires c.MintAsset? || c.BurnAsset? || c.TransferAsset? || c.RegisterTemplate?
    requires Dispatch(v, h, tx, c).Ok?
    ensures ListingOf(Dispatch(v, h, tx, c).value.view, id) == ListingOf(v, id)
  {
    hide TransferTokens, OpenSession, Settle, ListForSale, Buy;
  }

  lemma NewListing(v: View, hist: seq<Transaction>, h: Header, tx: Transaction, asset: string, price: uint64,
                   id: string)
    requires Sourced(v, hist) && WellNumbered(hist + [tx]) && ListForSale(v, h, tx, asset, price).Ok?
    ensures ListingOf(v, id).Some? ==> ListingOf(ListForSale(v, h, tx, asset, price).value.view, id) == ListingOf(v, id)
  {
    ListResult(v, h, tx, asset, price);
    DerivedIdsAreNew(hist, tx, asset);
    hide ListForSale;
    var w := ListForSale(v, h, tx, asset, price).value.view;
    assert SameAt(v, w, ListingKey(id)) || id == ListingID(tx.id, asset);
  }

  /** No handler changes the terms of a listing, and only a purchase closes one. */
  lemma DispatchListing(v: View, hist: seq<Transaction>, h: Header, tx: Transaction, c: Call, id: string)
    requires MarketInv(v, hist) && WellNumbered(hist + [tx]) && Dispatch(v, h, tx, c).Ok?
    ensures ListingStep(v, Dispatch(v, h, tx, c).value.view, c, id)
  {
    var from := tx.body.from;
    var w := Dispatch(v, h, tx, c).value.view;
    hide WellNumbered;
    hide TransferTokens, Mint, Burn, GiveAsset, Register, OpenSession, Settle, ListForSale, Buy;
    match c
    case ListMarket(asset, price) => NewListing(v, hist, h, tx, asset, price, id);
    case BuyMarket(lid) => BuyResult(v, from, lid); assert SameAt(v, w, ListingKey(id)) || id == lid;
    case Transfer(to, amount) => TransferGoods(v, from, to, amount); assert SameAt(v, w, ListingKey(id));
    case SessionOpen(sid, game, players, stakes) =>
      OpenGoods(v, h, from, sid, game, players, stakes);
      assert SameAt(v, w, ListingKey(id));
    case SessionResult(sid, result) => SettleGoods(v, h, from, sid, result); assert SameAt(v, w, ListingKey(id));
    case MintAsset(_, _, _) => PlainListing(v, h, tx, c, id);
    case BurnAsset(_) => PlainListing(v, h, tx, c, id);
    case TransferAsset(_, _) => PlainListing(v, h, tx, c, id);
    case RegisterTemplate(_, _, _, _) => PlainListing(v, h, tx, c, id);
  }

  /** The listing is as it was made, or it has been closed and is otherwise as it was made. */
  ghost predicate AsMade(v: View, l: Listing) {
    ListingOf(v, l.id) == Some(l) || IsClosed(v, l)
  }

  ghost predicate IsClosed(v: View, l: Listing) {
    ListingOf(v, l.id) == Some(l.(active := false))
  }

  lemma ListingTx(v: View, hist: seq<Transaction>, h: Header, tx: Transaction, l: Listing)
    requires MarketInv(v, hist) && WellNumbered(hist + [tx]) && ExecuteTx(v, h, tx).Ok? && AsMade(v, l)
    ensures AsMade(ExecuteTx(v, h, tx).value.view, l)
    ensures IsClosed(v, l) ==> IsClosed(ExecuteTx(v, h, tx).value.view, l)
  {
    var w, c := TxParts(v, h, tx);
    hide MarketInv, WellNumbered, ExecuteTx, Dispatch;
    ChargeGoods(v, h.proposer, tx.body);
    assert SameAt(v, w, ListingKey(l.id));
    FrameMarket(v, w, hist);
    DispatchListing(w, hist, h, tx, c, l.id);
  }

  lemma {:induction false} ListingRun(v: View, hist: seq<Transaction>, supply: nat, h: Header, txs: seq<Transaction>,
                                      l: Listing)
    requires Inv(v, hist, supply) && h.proposer != "" && AsMade(v, l)
    ensures AsMade(RunTxs(v, h, txs).view, l)
    ensures IsClosed(v, l) ==> IsClosed(RunTxs(v, h, txs).view, l)
  {
    hide Inv, ExecuteTx, AsMade, IsClosed;
    if txs != [] {
      var n := |txs| - 1;
      ListingRun(v, hist, supply, h, txs[..n], l);
      var before := RunTxs(v, h, txs[..n]);
      if before.error.None? && ExecuteTx(before.view, h, txs[n]).Ok? {
        RunKeepsInv(v, hist, supply, h, txs[..n]);
        assert txs[..n][..n] == txs[..n];
        StepReady(before.view, hist + txs[..n], supply, h, txs[n]);
        ListingTx(before.view, hist + txs[..n], h, txs[n], l);
      }
    }
  }

  /** Over every run of accepted blocks the price, seller and asset of a listing stay as they were made,
      and a closed listing never becomes active again. */
  lemma {:induction false} ListingForever(v: View, hist: seq<Transaction>, supply: nat, blocks: seq<Block>, l: Listing)
    requires Inv(v, hist, supply) && Proposed(blocks) && Replay(v, blocks).Some? && AsMade(v, l)
    ensures AsMade(Replay(v, blocks).value, l)
    ensures IsClosed(v, l) ==> IsClosed(Replay(v, blocks).value, l)
  {
    hide Inv, AsMade, IsClosed, RunTxs;
    if blocks != [] {
      var n := |blocks| - 1;
      ListingForever(v, hist, supply, blocks[..n], l);
      ReplayKeepsInv(v, hist, supply, blocks[..n]);
      ListingRun(Replay(v, blocks[..n]).value, hist + AllTxs(blocks[..n]), supply, blocks[n].header, blocks[n].txs, l);
    }
  }

  // ---- From listing to purchase ----

  /** The asset is up for sale under this listing. */
  ghost predicate ForSale(v: View, a: Asset, l: Listing) {
    && AssetOf(v, a.id) == Some(a) && a.activeListingID == l.id && l.id != ""
    && ListingOf(v, l.id) == Some(l)
  }

  predicate Buys(tx: Transaction, id: string) {
    CallOf(tx) == Some(BuyMarket(id))
  }

  /** A purchase of that listing: the buyer is not the owner, the listed price moves from the buyer to the
      owner (after the fee has been charged), the asset changes hands and the listing closes. */
  ghost predicate SoldBy(v: View, h: Header, tx: Transaction, a: Asset, l: Listing) {
    var paid := Charge(v, h.proposer, tx.body);
    var r := ExecuteTx(v, h, tx);
    && Buys(tx, l.id) && paid.Ok? && r.Ok? && tx.body.from != a.owner
    && Moved(paid.value, r.value.view, tx.body.from, a.owner, l.price)
    && AssetOf(r.value.view, a.id) == Some(a.(owner := tx.body.from, activeListingID := ""))
    && IsClosed(r.value.view, l)
  }

  lemma BuySells(v: View, from: string, a: Asset, l: Listing)
    requires Linked(v) && ForSale(v, a, l) && Buy(v, from, l.id).Ok?
    ensures var w := Buy(v, from, l.id).value.view;
            && from != a.owner && Moved(v, w, from, a.owner, l.price)
            && AssetOf(w, a.id) == Some(a.(owner := from, activeListingID := "")) && IsClosed(w, l)
  {
    assert AssetLinked(v, a.id);
    BuyResult(v, from, l.id);
    BuyMoves(v, from, l.id);
  }

  /** While an asset is for sale, a transaction either leaves it so or buys it, and it buys it exactly when
      it is a purchase of that listing. */
  lemma ForSaleTx(v: View, hist: seq<Transaction>, h: Header, tx: Transaction, a: Asset, l: Listing)
    requires MarketInv(v, hist) && WellNumbered(hist + [tx]) && ExecuteTx(v, h, tx).Ok? && ForSale(v, a, l)
    ensures if Buys(tx, l.id) then SoldBy(v, h, tx, a, l)
            else ForSale(ExecuteTx(v, h, tx).value.view, a, l)
    ensures SoldBy(v, h, tx, a, l) ==> Buys(tx, l.id)
  {
    var w, c := TxParts(v, h, tx);
    ChargeGoods(v, h.proposer, tx.body);
    assert SameAt(v, w, ListingKey(l.id)) && SameAt(v, w, AssetKey(a.id));
    hide WellNumbered, ExecuteTx, Charge, Moved;
    FrameMarket(v, w, hist);
    DispatchAsset(w, hist, h, tx, c, a.id);
    DispatchListing(w, hist, h, tx, c, l.id);
    if c == BuyMarket(l.id) {
      BuySells(w, tx.body.from, a, l);
    }
    hide Dispatch, MarketInv;
  }

  ghost predicate SomeBuys(txs: seq<Transaction>, id: string) {
    exists i :: 0 <= i < |txs| && Buys(txs[i], id)
  }

  lemma OneBuys(tx: Transaction, id: string)
    ensures SomeBuys([tx], id) <==> Buys(tx, id)
  {
    if Buys(tx, id) {
      assert Buys([tx][0], id);
    }
  }

  lemma NobodyBuys(id: string)
    ensures !SomeBuys([], id)
  {
  }

  lemma SomeBuysConcat(a: seq<Transaction>, b: seq<Transaction>, id: string)
    ensures SomeBuys(a + b, id) <==> SomeBuys(a, id) || SomeBuys(b, id)
  {
    hide Buys;
    if SomeBuys(a, id) {
      var i :| 0 <= i < |a| && Buys(a[i], id);
      assert Buys((a + b)[i], id);
    }
    if SomeBuys(b, id) {
      var i :| 0 <= i < |b| && Buys(b[i], id);
      assert Buys((a + b)[|a| + i], id);
    }
  }

  /** Some transaction of the list bought the asset under this listing. */
  ghost predicate SoldIn(v: View, h: Header, txs: seq<Transaction>, a: Asset, l: Listing) {
    txs != [] &&
    var n := |txs| - 1;
    var before := RunTxs(v, h, txs[..n]);
    || SoldIn(v, h, txs[..n], a, l)
    || (before.error.None? && ForSale(before.view, a, l) && SoldBy(before.view, h, txs[n], a, l))
  }

  lemma {:induction false} ForSaleRun(v: View, hist: seq<Transaction>, supply: nat, h: Header, txs: seq<Transaction>,
                                      a: Asset, l: Listing)
    requires Inv(v, hist, supply) && h.proposer != "" && ForSale(v, a, l)
    ensures var r := RunTxs(v, h, txs);
            if SoldIn(v, h, txs, a, l) then IsClosed(r.view, l) else ForSale(r.view, a, l)
  {
    hide Inv, ExecuteTx;
    if txs != [] {
      var n := |txs| - 1;
      ForSaleRun(v, hist, supply, h, txs[..n], a, l);
      var before := RunTxs(v, h, txs[..n]);
      if before.error.None? && ExecuteTx(before.view, h, txs[n]).Ok? {
        RunKeepsInv(v, hist, supply, h, txs[..n]);
        assert txs[..n][..n] == txs[..n];
        StepReady(before.view, hist + txs[..n], supply, h, txs[n]);
        if SoldIn(v, h, txs[..n], a, l) {
          ListingTx(before.view, hist + txs[..n], h, txs[n], l);
        } else {
          ForSaleTx(before.view, hist + txs[..n], h, txs[n], a, l);
        }
      }
    }
  }

  /** That is so exactly when one of the transactions that ran asks for it. */
  lemma {:induction false} SoldExactly(v: View, hist: seq<Transaction>, supply: nat, h: Header, txs: seq<Transaction>,
                                       a: Asset, l: Listing)
    requires Inv(v, hist, supply) && h.proposer != "" && ForSale(v, a, l)
    ensures SoldIn(v, h, txs, a, l) <==> SomeBuys(Ran(v, h, txs), l.id)
  {
    hide Inv, ExecuteTx, ForSale, IsClosed, MarketInv, WellNumbered, Charge, Moved, Buys;
    if txs == [] {
      NobodyBuys(l.id);
    } else {
      var n := |txs| - 1;
      var before := RunTxs(v, h, txs[..n]);
      assert SoldBy(before.view, h, txs[n], a, l) ==> ExecuteTx(before.view, h, txs[n]).Ok?;
      RanLast(v, h, txs);
      hide RunTxs, SomeBuys, SoldBy;
      SoldExactly(v, hist, supply, h, txs[..n], a, l);
      if before.error.None? && ExecuteTx(before.view, h, txs[n]).Ok? {
        RunKeepsInv(v, hist, supply, h, txs[..n]);
        ForSaleRun(v, hist, supply, h, txs[..n], a, l);
        hide Ran;
        StepReady(before.view, hist + txs[..n], supply, h, txs[n]);
        assert txs == txs[..n] + [txs[n]];
        SomeBuysConcat(txs[..n], [txs[n]], l.id);
        OneBuys(txs[n], l.id);
        if !SoldIn(v, h, txs[..n], a, l) {
          ForSaleTx(before.view, hist + txs[..n], h, txs[n], a, l);
        }
      }
    }
  }

  /** Some block of the list holds that purchase. */
  ghost predicate SoldDuring(v: View, blocks: seq<Block>, a: Asset, l: Listing)
    requires Replay(v, blocks).Some?
  {
    blocks != [] &&
    var n := |blocks| - 1;
    || SoldDuring(v, blocks[..n], a, l)
    || SoldIn(Replay(v, blocks[..n]).value, blocks[n].header, blocks[n].txs, a, l)
  }

  /** Over every run of accepted blocks: an asset that is for sale stays exactly as it is, under the same
      terms, until a purchase of that listing moves its price to the owner; then the listing is closed for
      good. Such a purchase happens exactly when some transaction of the blocks asks for it. */
  lemma {:induction false} ForSaleUntilSold(v: View, hist: seq<Transaction>, supply: nat, blocks: seq<Block>,
                                            a: Asset, l: Listing)
    requires Inv(v, hist, supply) && Proposed(blocks) && Replay(v, blocks).Some? && ForSale(v, a, l)
    ensures var w := Replay(v, blocks).value;
            if SoldDuring(v, blocks, a, l) then IsClosed(w, l) else ForSale(w, a, l)
    ensures SoldDuring(v, blocks, a, l) <==> SomeBuys(AllTxs(blocks), l.id)
  {
    hide Inv, RunTxs, ForSale, SoldIn, SomeBuys, IsClosed;
    if blocks == [] {
      NobodyBuys(l.id);
    } else {
      var n := |blocks| - 1;
      ForSaleUntilSold(v, hist, supply, blocks[..n], a, l);
      ReplayKeepsInv(v, hist, supply, blocks[..n]);
      var u, past, b := Replay(v, blocks[..n]).value, hist + AllTxs(blocks[..n]), blocks[n];
      SomeBuysConcat(AllTxs(blocks[..n]), b.txs, l.id);
      AllRan(u, b.header, b.txs);
      if SoldDuring(v, blocks[..n], a, l) {
        ListingRun(u, past, supply, b.header, b.txs, l);
      } else {
        ForSaleRun(u, past, supply, b.header, b.txs, a, l);
        SoldExactly(u, past, supply, b.header, b.txs, a, l);
      }
    }
  }
}
