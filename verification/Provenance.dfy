/** Where the records come from: every template, session, asset and listing is what the payload of one
    executed transaction says, and a session is settled only by the sender who opened it. */
module Provenance {
  import opened Wrappers
  import opened Types
  import opened State
  import opened Rules
  import opened Market
  import opened Ledger
  import opened Lifetimes
  import opened Effects
  import opened OneShot

  /** The transaction asks for this record. Owner and listing marker of an asset, outcome of a session and
      activity of a listing change later; everything else is fixed by the payload and the sender. */
  predicate MadeBy(x: Value, tx: Transaction) {
    match x
    case TemplateV(t) =>
      CallOf(tx) == Some(RegisterTemplate(t.id, t.name, t.schema, t.tradeable)) && tx.body.from == t.creator
    case SessionV(s) =>
      CallOf(tx) == Some(SessionOpen(s.id, s.gameID, s.players, s.stakes)) && tx.body.from == s.creator
    case AssetV(a) =>
      && CallOf(tx).Some? && CallOf(tx).value.MintAsset? && CallOf(tx).value.templateID == a.templateID
      && CallOf(tx).value.properties == a.properties && a.id == AssetID(tx.id, a.templateID)
    case ListingV(l) =>
      && CallOf(tx) == Some(ListMarket(l.assetID, l.price)) && tx.body.from == l.seller
      && l.id == ListingID(tx.id, l.assetID)
    case AccountV(_) => false
    case ForeignV(_, _) => false
  }

  ghost predicate Made(v: View, hist: seq<Transaction>, k: Key) {
    k in v && !k.AccountKey? ==> exists i :: 0 <= i < |hist| && MadeBy(v[k], hist[i])
  }

  ghost predicate FromPayloads(v: View, hist: seq<Transaction>) {
    forall k: Key :: Made(v, hist, k)
  }

  lemma MadeAt(v: View, hist: seq<Transaction>, k: Key)
    requires FromPayloads(v, hist)
    ensures Made(v, hist, k)
  {
  }

  predicate Opens(tx: Transaction, id: string) {
    CallOf(tx).Some? && CallOf(tx).value.SessionOpen? && CallOf(tx).value.sessionID == id
  }

  predicate Registers(tx: Transaction, id: string) {
    CallOf(tx).Some? && CallOf(tx).value.RegisterTemplate? && CallOf(tx).value.id == id
  }

  /** Every settlement follows an opening of that session by the same sender. */
  ghost predicate OpenersSettle(hist: seq<Transaction>) {
    forall j, id :: 0 <= j < |hist| && Settles(hist[j], id) ==> OpenedBefore(hist, j, id)
  }

  ghost predicate OpenedBefore(hist: seq<Transaction>, j: nat, id: string)
    requires j < |hist|
  {
    exists i :: 0 <= i < j && Opens(hist[i], id) && hist[i].body.from == hist[j].body.from
  }

  /** No session is opened twice and no template is registered twice. */
  ghost predicate MadeOnce(hist: seq<Transaction>) {
    && (forall i, j, id :: 0 <= i < j < |hist| && Opens(hist[i], id) ==> !Opens(hist[j], id))
    && (forall i, j, id :: 0 <= i < j < |hist| && Registers(hist[i], id) ==> !Registers(hist[j], id))
  }

  ghost predicate Standing(v: View, hist: seq<Transaction>) {
    && (forall i, id :: 0 <= i < |hist| && Opens(hist[i], id) ==> SessionOf(v, id).Some?)
    && (forall i, id :: 0 <= i < |hist| && Registers(hist[i], id) ==> TemplateOf(v, id).Some?)
  }

  // ---- One transaction ----

  /** What is at the key is as it was made, or is made by this very transaction. */
  ghost predicate StepMakes(v: View, w: View, tx: Transaction, k: Key) {
    k in w ==> MadeBy(w[k], tx) || (k in v && forall t :: MadeBy(v[k], t) ==> MadeBy(w[k], t))
  }

  lemma SameMakes(v: View, w: View, tx: Transaction, k: Key)
    requires SameAt(v, w, k)
    ensures StepMakes(v, w, tx, k)
  {
  }

  lemma AssetsMake(v: View, h: Header, tx: Transaction, c: Call, k: Key)
    requires Dispatch(v, h, tx, c).Ok? && CallOf(tx) == Some(c)
    requires c.MintAsset? || c.BurnAsset? || c.TransferAsset? || c.RegisterTemplate?
    ensures StepMakes(v, Dispatch(v, h, tx, c).value.view, tx, k)
  {
    var from, w := tx.body.from, Dispatch(v, h, tx, c).value.view;
    hide TransferTokens, Mint, Burn, GiveAsset, Register, OpenSession, Settle, ListForSale, Buy;
    match c
    case MintAsset(t, o, p) =>
      MintExact(v, h, tx, t, o, p);
      assert SameAt(v, w, k) || k == AssetKey(AssetID(tx.id, t));
    case BurnAsset(id) =>
      BurnExact(v, from, id);
      assert SameAt(v, w, k) || k == AssetKey(id);
    case TransferAsset(id, to) =>
      GiveExact(v, from, id, to);
      assert SameAt(v, w, k) || k == AssetKey(id);
    case RegisterTemplate(id, name, schema, tradeable) =>
      RegisterExact(v, from, id, name, schema, tradeable);
      assert SameAt(v, w, k) || k == TemplateKey(id);
  }

  lemma ListMakes(v: View, h: Header, tx: Transaction, id: string, price: uint64, k: Key)
    requires ListForSale(v, h, tx, id, price).Ok? && CallOf(tx) == Some(ListMarket(id, price))
    ensures StepMakes(v, ListForSale(v, h, tx, id, price).value.view, tx, k)
  {
    var w := ListForSale(v, h, tx, id, price).value.view;
    hide ListForSale;
    ListExact(v, h, tx, id, price);
    assert SameAt(v, w, k) || k == AssetKey(id) || k == ListingKey(ListingID(tx.id, id));
  }

  lemma BuyMakes(v: View, tx: Transaction, l: string, k: Key)
    requires Buy(v, tx.body.from, l).Ok? && !k.AccountKey?
    ensures StepMakes(v, Buy(v, tx.body.from, l).value.view, tx, k)
  {
    var w := Buy(v, tx.body.from, l).value.view;
    hide Buy;
    BuyResult(v, tx.body.from, l);
    assert SameAt(v, w, k) || k == ListingKey(l) || k == AssetKey(ListingOf(v, l).value.assetID);
  }

  lemma SessionsMake(v: View, h: Header, tx: Transaction, c: Call, k: Key)
    requires Dispatch(v, h, tx, c).Ok? && CallOf(tx) == Some(c) && !k.AccountKey?
    requires c.SessionOpen? || c.SessionResult?
    ensures StepMakes(v, Dispatch(v, h, tx, c).value.view, tx, k)
  {
    var from, w := tx.body.from, Dispatch(v, h, tx, c).value.view;
    hide TransferTokens, Mint, Burn, GiveAsset, Register, OpenSession, Settle, ListForSale, Buy, Owed;
    match c
    case SessionOpen(id, game, players, stakes) =>
      OpenExact(v, h, from, id, game, players, stakes);
      assert SameAt(v, w, k) || k == SessionKey(id);
    case SessionResult(id, r) =>
      SettlementExact(v, h, from, id, r);
      SettleLeaves(v, h, from, id, r);
      assert SameAt(v, w, k) || k == SessionKey(id);
  }

  lemma DispatchMakes(v: View, h: Header, tx: Transaction, c: Call, k: Key)
    requires Dispatch(v, h, tx, c).Ok? && CallOf(tx) == Some(c) && !k.AccountKey?
    ensures StepMakes(v, Dispatch(v, h, tx, c).value.view, tx, k)
  {
    var w := Dispatch(v, h, tx, c).value.view;
    hide StepMakes, TransferTokens, Mint, Burn, GiveAsset, Register, OpenSession, Settle, ListForSale, Buy;
    match c
    case Transfer(to, amount) => TransferLeaves(v, tx.body.from, to, amount); SameMakes(v, w, tx, k);
    case ListMarket(id, price) => ListMakes(v, h, tx, id, price, k);
    case BuyMarket(l) => BuyMakes(v, tx, l, k);
    case SessionOpen(_, _, _, _) => SessionsMake(v, h, tx, c, k);
    case SessionResult(_, _) => SessionsMake(v, h, tx, c, k);
    case MintAsset(_, _, _) => AssetsMake(v, h, tx, c, k);
    case BurnAsset(_) => AssetsMake(v, h, tx, c, k);
    case TransferAsset(_, _) => AssetsMake(v, h, tx, c, k);
    case RegisterTemplate(_, _, _, _) => AssetsMake(v, h, tx, c, k);
  }

  lemma TxMakes(v: View, hist: seq<Transaction>, h: Header, tx: Transaction)
    requires FromPayloads(v, hist) && ExecuteTx(v, h, tx).Ok?
    ensures FromPayloads(ExecuteTx(v, h, tx).value.view, hist + [tx])
  {
    var w, c := TxParts(v, h, tx);
    ChargeLeaves(v, h.proposer, tx.body);
    hide ExecuteTx, Dispatch, Charge, MadeBy;
    var x, all := ExecuteTx(v, h, tx).value.view, hist + [tx];
    forall k: Key
      ensures Made(x, all, k)
    {
      if !k.AccountKey? && k in x {
        DispatchMakes(w, h, tx, c, k);
        assert SameAt(v, w, k) && Made(v, hist, k);
        if MadeBy(x[k], tx) {
          assert MadeBy(x[k], all[|hist|]);
        } else {
          var i :| 0 <= i < |hist| && MadeBy(v[k], hist[i]);
          assert MadeBy(x[k], all[i]);
        }
      }
    }
  }

  /** Only the sender who opened a session settles it. */
  lemma TxOpener(v: View, hist: seq<Transaction>, h: Header, tx: Transaction, id: string)
    requires FromPayloads(v, hist) && ExecuteTx(v, h, tx).Ok? && Settles(tx, id)
    ensures OpenedBefore(hist + [tx], |hist|, id)
  {
    var w, c := TxParts(v, h, tx);
    ChargeLeaves(v, h.proposer, tx.body);
    SettlementExact(w, h, tx.body.from, id, c.result);
    hide ExecuteTx, Charge, Settle, Dispatch, Balance, FromPayloads;
    assert SameAt(v, w, SessionKey(id)) && SessionOf(w, id).value.creator == tx.body.from;
    hide OnlyAt, FairResult;
    MadeAt(v, hist, SessionKey(id));
    assert SameAt(v, w, SessionKey(id)) && Made(v, hist, SessionKey(id));
    var i :| 0 <= i < |hist| && MadeBy(v[SessionKey(id)], hist[i]);
    assert Opens((hist + [tx])[i], id);
  }

  lemma TxOpenersSettle(v: View, hist: seq<Transaction>, h: Header, tx: Transaction)
    requires FromPayloads(v, hist) && OpenersSettle(hist) && ExecuteTx(v, h, tx).Ok?
    ensures OpenersSettle(hist + [tx])
  {
    hide FromPayloads, ExecuteTx, Settles, Opens;
    var all := hist + [tx];
    forall j, id | 0 <= j < |all| && Settles(all[j], id)
      ensures OpenedBefore(all, j, id)
    {
      if j == |hist| {
        TxOpener(v, hist, h, tx, id);
      } else {
        assert Settles(hist[j], id) && OpenedBefore(hist, j, id);
        var i :| 0 <= i < j && Opens(hist[i], id) && hist[i].body.from == hist[j].body.from;
        assert Opens(all[i], id);
      }
    }
  }

  lemma MadeStays(v: View, h: Header, tx: Transaction, id: string)
    requires ExecuteTx(v, h, tx).Ok?
    ensures var w := ExecuteTx(v, h, tx).value.view;
            && (SessionOf(v, id).Some? ==> !Opens(tx, id) && SessionOf(w, id).Some?)
            && (Opens(tx, id) ==> SessionOf(w, id).Some?)
            && (TemplateOf(v, id).Some? ==> !Registers(tx, id) && TemplateOf(w, id).Some?)
            && (Registers(tx, id) ==> TemplateOf(w, id).Some?)
  {
    var w, c := TxParts(v, h, tx);
    ChargeLeaves(v, h.proposer, tx.body);
    assert SameAt(v, w, SessionKey(id)) && SameAt(v, w, TemplateKey(id));
    DispatchPersists(w, h, tx, c);
    assert SessionOf(w, id).Some? ==> SessionPersists(w, Dispatch(w, h, tx, c).value.view, id);
    hide ExecuteTx, Charge, Persists, OpenSession, Register;
    if Opens(tx, id) {
      OpenExact(w, h, tx.body.from, id, c.gameID, c.players, c.stakes);
    }
    if Registers(tx, id) {
      RegisterExact(w, tx.body.from, id, c.name, c.schema, c.tradeable);
    }
  }

  lemma TxMadeOnce(v: View, hist: seq<Transaction>, h: Header, tx: Transaction)
    requires MadeOnce(hist) && Standing(v, hist) && ExecuteTx(v, h, tx).Ok?
    ensures MadeOnce(hist + [tx]) && Standing(ExecuteTx(v, h, tx).value.view, hist + [tx])
  {
    hide ExecuteTx, Opens, Registers, SessionOf, TemplateOf;
    forall id
      ensures var w := ExecuteTx(v, h, tx).value.view;
              && (SessionOf(v, id).Some? ==> !Opens(tx, id) && SessionOf(w, id).Some?)
              && (Opens(tx, id) ==> SessionOf(w, id).Some?)
              && (TemplateOf(v, id).Some? ==> !Registers(tx, id) && TemplateOf(w, id).Some?)
              && (Registers(tx, id) ==> TemplateOf(w, id).Some?)
    {
      MadeStays(v, h, tx, id);
    }
  }

  // ---- Lists of transactions and blocks ----

  ghost predicate Origins(v: View, hist: seq<Transaction>) {
    FromPayloads(v, hist) && OpenersSettle(hist) && MadeOnce(hist) && Standing(v, hist)
  }

  lemma TxOrigins(v: View, hist: seq<Transaction>, h: Header, tx: Transaction)
    requires Origins(v, hist) && ExecuteTx(v, h, tx).Ok?
    ensures Origins(ExecuteTx(v, h, tx).value.view, hist + [tx])
  {
    hide ExecuteTx, FromPayloads, OpenersSettle, MadeOnce, Standing;
    TxMakes(v, hist, h, tx);
    TxOpenersSettle(v, hist, h, tx);
    TxMadeOnce(v, hist, h, tx);
  }

  lemma {:induction false} RunOrigins(v: View, hist: seq<Transaction>, h: Header, txs: seq<Transaction>)
    requires Origins(v, hist)
    ensures Origins(RunTxs(v, h, txs).view, hist + Ran(v, h, txs))
  {
    hide ExecuteTx, Origins;
    if txs == [] {
      assert hist + Ran(v, h, txs) == hist;
    } else {
      RanLast(v, h, txs);
      hide RunTxs, Ran;
      var n := |txs| - 1;
      RunOrigins(v, hist, h, txs[..n]);
      var before := RunTxs(v, h, txs[..n]);
      if before.error.None? && ExecuteTx(before.view, h, txs[n]).Ok? {
        TxOrigins(before.view, hist + txs[..n], h, txs[n]);
        assert hist + txs[..n] + [txs[n]] == hist + txs;
      }
    }
  }

  /** Over every run of accepted blocks. */
  lemma {:induction false} ReplayOrigins(v: View, hist: seq<Transaction>, blocks: seq<Block>)
    requires Origins(v, hist) && Replay(v, blocks).Some?
    ensures Origins(Replay(v, blocks).value, hist + AllTxs(blocks))
  {
    hide Origins, RunTxs;
    if blocks == [] {
      assert hist + AllTxs(blocks) == hist;
    } else {
      var n := |blocks| - 1;
      var b, u := blocks[n], Replay(v, blocks[..n]).value;
      ReplayOrigins(v, hist, blocks[..n]);
      RunOrigins(u, hist + AllTxs(blocks[..n]), b.header, b.txs);
      AllRan(u, b.header, b.txs);
      assert hist + AllTxs(blocks[..n]) + b.txs == hist + AllTxs(blocks);
    }
  }

  lemma GenesisOrigins(alloc: map<string, uint64>)
    ensures Origins(GenesisView(alloc), [])
  {
    hide MadeBy;
  }

  /** The trading flag of an asset is the one in the payload that registered its template. */
  lemma FlagFromPayload(v: View, hist: seq<Transaction>, id: string) returns (i: nat)
    requires FromPayloads(v, hist) && Templated(v) && AssetOf(v, id).Some?
    ensures i < |hist| && Registers(hist[i], AssetOf(v, id).value.templateID)
    ensures CallOf(hist[i]).value.tradeable == AssetOf(v, id).value.tradeable
  {
    var t := AssetOf(v, id).value.templateID;
    assert AssetTemplated(v, id) && Made(v, hist, TemplateKey(t));
    i :| 0 <= i < |hist| && MadeBy(v[TemplateKey(t)], hist[i]);
  }
}
