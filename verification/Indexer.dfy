/** indexer/indexer.go: the lists of assets by owner, maintained from events. */
module Indexing {
  import opened Wrappers
  import opened Types
  import opened Encoding
  import opened State
  import opened Rules
  import opened History
  import opened Market
  import opened Ledger
  import opened Lifetimes
  import opened Pool

  /** The stored lists, by owner; a missing list reads as empty. */
  type Index = map<string, seq<string>>

  function Owned(ix: Index, owner: string): seq<string> {
    if owner in ix then ix[owner] else []
  }

  function AddTo(ix: Index, owner: string, id: string): Index {
    if id in Owned(ix, owner) then ix else ix[owner := Owned(ix, owner) + [id]]
  }

  function RemoveFrom(ix: Index, owner: string, id: string): Index {
    if owner !in ix then ix else ix[owner := Survivors(ix[owner], {id})]
  }

  /** The indexer subscribes to mints, transfers and burns, but not to purchases. */
  function Indexed(ix: Index, ev: Event): Index {
    match ev
    case AssetMinted(id, owner) => if owner == "" || id == "" then ix else AddTo(ix, owner, id)
    case AssetTransferred(id, from, to) =>
      if id == "" || from == "" || to == "" then ix else AddTo(RemoveFrom(ix, from, id), to, id)
    case AssetBurned(id, owner) => if owner == "" || id == "" then ix else RemoveFrom(ix, owner, id)
    case _ => ix
  }

  function IndexAll(ix: Index, events: seq<Event>): Index {
    if events == [] then ix else Indexed(IndexAll(ix, events[..|events| - 1]), events[|events| - 1])
  }

  class Indexer {
    var lists: Index

    constructor ()
      ensures lists == map[]
    {
      lists := map[];
    }

    method AddToList(owner: string, id: string)
      modifies this
      ensures lists == AddTo(old(lists), owner, id)
    {
      var ids := if owner in lists then lists[owner] else [];
      for i := 0 to |ids|
        invariant id !in ids[..i] && lists == old(lists)
      {
        if ids[i] == id {
          return;
        }
      }
      assert ids[..|ids|] == ids;
      lists := lists[owner := ids + [id]];
    }

    method RemoveFromList(owner: string, id: string)
      modifies this
      ensures lists == RemoveFrom(old(lists), owner, id)
    {
      if owner !in lists {
        return;
      }
      var ids := lists[owner];
      var slice := new string[|ids|](i requires 0 <= i < |ids| => ids[i]);
      assert slice[..|ids|] == ids;
      var kept := Compact(slice, |ids|, {id});
      lists := lists[owner := slice[..kept]];
    }

    method OnEvent(ev: Event)
      modifies this
      ensures lists == Indexed(old(lists), ev)
    {
      match ev
      case AssetMinted(id, owner) =>
        if owner != "" && id != "" {
          AddToList(owner, id);
        }
      case AssetTransferred(id, from, to) =>
        if id != "" && from != "" && to != "" {
          RemoveFromList(from, id);
          AddToList(to, id);
        }
      case AssetBurned(id, owner) =>
        if owner != "" && id != "" {
          RemoveFromList(owner, id);
        }
      case _ =>
    }
  }

  // ---- Agreement with the asset map ----

  ghost predicate OwnedBy(v: View, owner: string, id: string) {
    AssetOf(v, id).Some? && AssetOf(v, id).value.owner == owner
  }

  /** The owner's list names each of the owner's live assets once, and nothing else. */
  ghost predicate ListAgrees(ix: Index, v: View, owner: string) {
    Distinct(Owned(ix, owner)) && forall id :: id in Owned(ix, owner) <==> OwnedBy(v, owner, id)
  }

  ghost predicate Agrees(ix: Index, v: View) {
    forall owner :: ListAgrees(ix, v, owner)
  }

  /** Only the assets matter. */
  lemma SameAssetsAgree(ix: Index, v: View, w: View)
    requires Agrees(ix, v) && forall id :: AssetOf(v, id) == AssetOf(w, id)
    ensures Agrees(ix, w)
  {
    forall owner
      ensures ListAgrees(ix, w, owner)
    {
      assert ListAgrees(ix, v, owner);
      forall id
        ensures id in Owned(ix, owner) <==> OwnedBy(w, owner, id)
      {
        assert id in Owned(ix, owner) <==> OwnedBy(v, owner, id);
      }
    }
  }

  lemma AddAgrees(ix: Index, v: View, w: View, owner: string, id: string)
    requires Agrees(ix, v) && AssetOf(v, id).None? && OwnedBy(w, owner, id)
    requires forall j :: j != id ==> AssetOf(w, j) == AssetOf(v, j)
    ensures Agrees(AddTo(ix, owner, id), w)
  {
    var jx := AddTo(ix, owner, id);
    assert ListAgrees(ix, v, owner);
    assert id !in Owned(ix, owner) by { assert !OwnedBy(v, owner, id); }
    forall o
      ensures ListAgrees(jx, w, o)
    {
      assert ListAgrees(ix, v, o);
      forall j
        ensures j in Owned(jx, o) <==> OwnedBy(w, o, j)
      {
        assert j in Owned(ix, o) <==> OwnedBy(v, o, j);
      }
    }
  }

  lemma RemoveAgrees(ix: Index, v: View, w: View, owner: string, id: string)
    requires Agrees(ix, v) && OwnedBy(v, owner, id) && AssetOf(w, id).None?
    requires forall j :: j != id ==> AssetOf(w, j) == AssetOf(v, j)
    ensures Agrees(RemoveFrom(ix, owner, id), w)
  {
    var jx := RemoveFrom(ix, owner, id);
    assert ListAgrees(ix, v, owner);
    assert id in Owned(ix, owner);
    SurvivorsUnique(ix[owner], {id});
    forall o
      ensures ListAgrees(jx, w, o)
    {
      assert ListAgrees(ix, v, o);
      forall j
        ensures j in Owned(jx, o) <==> OwnedBy(w, o, j)
      {
        assert j in Owned(ix, o) <==> OwnedBy(v, o, j);
        SurvivorsMembers(ix[owner], {id}, j);
      }
    }
  }

  /** Every ID of a live asset is a digest, so it is not empty. */
  lemma LiveIdNotEmpty(v: View, hist: seq<Transaction>, id: string)
    requires Sourced(v, hist) && AssetOf(v, id).Some?
    ensures id != ""
  {
    var i, m :| 0 <= i < |hist| && AssetID(hist[i].id, m) == id;
  }

  lemma MintAgrees(ix: Index, v: View, hist: seq<Transaction>, h: Header, tx: Transaction, t: string, owner: string,
                   properties: string)
    requires Agrees(ix, v) && Sourced(v, hist) && WellNumbered(hist + [tx]) && tx.body.from != ""
    requires Mint(v, h, tx, t, owner, properties).Ok?
    ensures var e := Mint(v, h, tx, t, owner, properties).value; Agrees(Indexed(ix, e.event), e.view)
  {
    hide Agrees;
    var e := Mint(v, h, tx, t, owner, properties).value;
    DerivedIdsAreNew(hist, tx, t);
    AddAgrees(ix, v, e.view, e.event.owner, e.event.assetID);
  }

  lemma BurnAgrees(ix: Index, v: View, hist: seq<Transaction>, from: string, id: string)
    requires Agrees(ix, v) && Sourced(v, hist) && from != "" && Burn(v, from, id).Ok?
    ensures var e := Burn(v, from, id).value; Agrees(Indexed(ix, e.event), e.view)
  {
    hide Agrees;
    LiveIdNotEmpty(v, hist, id);
    RemoveAgrees(ix, v, Burn(v, from, id).value.view, from, id);
  }

  lemma GiveAgrees(ix: Index, v: View, hist: seq<Transaction>, from: string, id: string, to: string)
    requires Agrees(ix, v) && Sourced(v, hist) && from != "" && GiveAsset(v, from, id, to).Ok?
    ensures var e := GiveAsset(v, from, id, to).value; Agrees(Indexed(ix, e.event), e.view)
  {
    hide Agrees;
    LiveIdNotEmpty(v, hist, id);
    var between := Drop(v, AssetKey(id));
    RemoveAgrees(ix, v, between, from, id);
    AddAgrees(RemoveFrom(ix, from, id), between, GiveAsset(v, from, id, to).value.view, to, id);
  }

  /** After a purchase the index still lists the asset under the seller. */
  lemma BuyDisagrees(ix: Index, v: View, from: string, id: string)
    requires Agrees(ix, v) && Linked(v) && Buy(v, from, id).Ok?
    ensures var e := Buy(v, from, id).value; !Agrees(Indexed(ix, e.event), e.view)
  {
    var e := Buy(v, from, id).value;
    BuyResult(v, from, id);
    BuyFindsAsset(v, from, id);
    hide Buy;
    var asset := ListingOf(v, id).value.assetID;
    assert Indexed(ix, e.event) == ix by { BuyEvent(v, from, id); }
    assert ListAgrees(ix, v, from);
    assert !OwnedBy(v, from, asset) && OwnedBy(e.view, from, asset);
    assert !ListAgrees(ix, e.view, from);
  }

  lemma BuyEvent(v: View, from: string, id: string)
    requires Buy(v, from, id).Ok?
    ensures Buy(v, from, id).value.event.MarketBought?
  {
  }

  lemma DispatchBuyEvent(v: View, h: Header, tx: Transaction, c: Call)
    requires c.BuyMarket? && Dispatch(v, h, tx, c).Ok?
    ensures Dispatch(v, h, tx, c).value.event.MarketBought?
  {
    hide Buy;
    BuyEvent(v, tx.body.from, c.listingID);
  }

  /** One transaction keeps the index in agreement if and only if it is not a purchase. */
  lemma DispatchAgrees(ix: Index, v: View, hist: seq<Transaction>, h: Header, tx: Transaction, c: Call)
    requires Agrees(ix, v) && MarketInv(v, hist) && WellNumbered(hist + [tx]) && tx.body.from != ""
    requires Dispatch(v, h, tx, c).Ok?
    ensures var e := Dispatch(v, h, tx, c).value;
            Agrees(Indexed(ix, e.event), e.view) <==> !c.BuyMarket?
  {
    var from := tx.body.from;
    var w := Dispatch(v, h, tx, c).value.view;
    hide Agrees, Linked, Templated, Sourced, WellNumbered;
    hide TransferTokens, Mint, Burn, GiveAsset, Register, OpenSession, Settle, ListForSale, Buy;
    match c
    case MintAsset(t, owner, properties) => MintAgrees(ix, v, hist, h, tx, t, owner, properties);
    case BurnAsset(id) => BurnAgrees(ix, v, hist, from, id);
    case TransferAsset(id, to) => GiveAgrees(ix, v, hist, from, id, to);
    case BuyMarket(id) => BuyDisagrees(ix, v, from, id);
    case ListMarket(id, price) => ListAgreesStill(ix, v, h, tx, id, price); PlainEvent(v, h, tx, c);
    case Transfer(to, amount) =>
      TransferGoods(v, from, to, amount);
      GoodsAgree(ix, v, w);
      PlainEvent(v, h, tx, c);
    case SessionOpen(id, game, players, stakes) =>
      OpenGoods(v, h, from, id, game, players, stakes);
      GoodsAgree(ix, v, w);
      PlainEvent(v, h, tx, c);
    case SessionResult(id, result) =>
      SettleGoods(v, h, from, id, result);
      GoodsAgree(ix, v, w);
      PlainEvent(v, h, tx, c);
    case RegisterTemplate(id, name, schema, tradeable) =>
      RegisterAgrees(ix, v, from, id, name, schema, tradeable);
      PlainEvent(v, h, tx, c);
  }

  /** The handlers whose event the indexer ignores. */
  lemma PlainEvent(v: View, h: Header, tx: Transaction, c: Call)
    requires c.Transfer? || c.SessionOpen? || c.SessionResult? || c.RegisterTemplate? || c.ListMarket?
    requires Dispatch(v, h, tx, c).Ok?
    ensures forall ix :: Indexed(ix, Dispatch(v, h, tx, c).value.event) == ix
  {
    hide DebitEach, Pay;
  }

  lemma RegisterAgrees(ix: Index, v: View, from: string, id: string, name: string, schema: string, tradeable: bool)
    requires Agrees(ix, v) && Register(v, from, id, name, schema, tradeable).Ok?
    ensures Agrees(ix, Register(v, from, id, name, schema, tradeable).value.view)
  {
    hide Agrees;
    SameAssetsAgree(ix, v, Register(v, from, id, name, schema, tradeable).value.view);
  }

  lemma GoodsAgree(ix: Index, v: View, w: View)
    requires Agrees(ix, v) && SameGoods(v, w)
    ensures Agrees(ix, w)
  {
    hide Agrees;
    forall id
      ensures AssetOf(v, id) == AssetOf(w, id)
    {
      assert SameAt(v, w, AssetKey(id));
    }
    SameAssetsAgree(ix, v, w);
  }

  lemma ListAgreesStill(ix: Index, v: View, h: Header, tx: Transaction, id: string, price: uint64)
    requires Agrees(ix, v) && ListForSale(v, h, tx, id, price).Ok?
    ensures Agrees(ix, ListForSale(v, h, tx, id, price).value.view)
  {
    ListResult(v, h, tx, id, price);
    hide ListForSale;
    var w := ListForSale(v, h, tx, id, price).value.view;
    forall owner
      ensures ListAgrees(ix, w, owner)
    {
      assert ListAgrees(ix, v, owner);
      forall j
        ensures j in Owned(ix, owner) <==> OwnedBy(w, owner, j)
      {
        assert j in Owned(ix, owner) <==> OwnedBy(v, owner, j);
        assert SameAt(v, w, AssetKey(j)) || j == id;
      }
    }
  }

  predicate NoPurchase(txs: seq<Transaction>) {
    forall i :: 0 <= i < |txs| ==> txs[i].body.txType != "buy_market"
  }

  lemma TxAgrees(ix: Index, v: View, hist: seq<Transaction>, supply: nat, h: Header, tx: Transaction)
    requires Agrees(ix, v) && Inv(v, hist, supply) && ExecuteTx(v, h, tx).Ok?
    ensures var e := ExecuteTx(v, h, tx).value;
            Agrees(Indexed(ix, e.event), e.view) <==> tx.body.txType != "buy_market"
  {
    var w, c := TxParts(v, h, tx);
    StepReady(v, hist, supply, h, tx);
    assert TypeName(c) == tx.body.txType;
    hide Inv, Agrees, WellNumbered, ExecuteTx, Dispatch, MarketInv;
    ChargeGoods(v, h.proposer, tx.body);
    GoodsAgree(ix, v, w);
    FrameMarket(v, w, hist);
    DispatchAgrees(ix, w, hist, h, tx, c);
  }

  lemma IndexTwo(ix: Index, events: seq<Event>, a: Event, id: string)
    ensures IndexAll(ix, events + [a, TxExecuted(id)]) == Indexed(IndexAll(ix, events), a)
  {
    var all := events + [a, TxExecuted(id)];
    assert all[..|all| - 1] == events + [a];
    assert (events + [a])[..|events|] == events;
  }

  lemma {:induction false} RunAgrees(ix: Index, v: View, hist: seq<Transaction>, supply: nat, h: Header,
                                     txs: seq<Transaction>)
    requires Agrees(ix, v) && Inv(v, hist, supply) && h.proposer != "" && NoPurchase(txs)
    ensures var r := RunTxs(v, h, txs); Agrees(IndexAll(ix, r.events), r.view)
  {
    hide Inv, Agrees, ExecuteTx;
    if txs != [] {
      var n := |txs| - 1;
      RunAgrees(ix, v, hist, supply, h, txs[..n]);
      var before := RunTxs(v, h, txs[..n]);
      if before.error.None? && ExecuteTx(before.view, h, txs[n]).Ok? {
        RunKeepsInv(v, hist, supply, h, txs[..n]);
        assert txs[..n][..n] == txs[..n];
        TxAgrees(IndexAll(ix, before.events), before.view, hist + txs[..n], supply, h, txs[n]);
        IndexTwo(ix, before.events, ExecuteTx(before.view, h, txs[n]).value.event, txs[n].id);
      }
    }
  }

  ghost predicate SameOwners(v: View, w: View) {
    forall owner, id :: OwnedBy(v, owner, id) <==> OwnedBy(w, owner, id)
  }

  lemma AgreesSameOwners(ix: Index, v: View, w: View)
    requires Agrees(ix, w)
    ensures Agrees(ix, v) <==> SameOwners(v, w)
  {
    hide OwnedBy;
    if Agrees(ix, v) {
      forall owner, id
        ensures OwnedBy(v, owner, id) <==> OwnedBy(w, owner, id)
      {
        assert ListAgrees(ix, v, owner) && ListAgrees(ix, w, owner);
        assert id in Owned(ix, owner) <==> OwnedBy(v, owner, id);
      }
    }
    if SameOwners(v, w) {
      forall owner
        ensures ListAgrees(ix, v, owner)
      {
        assert ListAgrees(ix, w, owner);
      }
    }
  }

  /** The calls that change who owns what, purchases apart. */
  predicate Moves(c: Call, from: string) {
    c.MintAsset? || c.BurnAsset? || (c.TransferAsset? && c.to != from)
  }

  predicate TxMoves(tx: Transaction) {
    CallOf(tx).Some? && Moves(CallOf(tx).value, tx.body.from)
  }

  lemma GoodsOwners(v: View, w: View)
    requires SameGoods(v, w)
    ensures SameOwners(v, w)
  {
    forall owner, id
      ensures OwnedBy(v, owner, id) <==> OwnedBy(w, owner, id)
    {
      assert SameAt(v, w, AssetKey(id));
    }
  }

  lemma MintOwners(v: View, hist: seq<Transaction>, h: Header, tx: Transaction, t: string, owner: string,
                   properties: string)
    requires Sourced(v, hist) && WellNumbered(hist + [tx]) && Mint(v, h, tx, t, owner, properties).Ok?
    ensures !SameOwners(v, Mint(v, h, tx, t, owner, properties).value.view)
  {
    var w, id := Mint(v, h, tx, t, owner, properties).value.view, AssetID(tx.id, t);
    DerivedIdsAreNew(hist, tx, t);
    assert OwnedBy(w, AssetOf(w, id).value.owner, id) && !OwnedBy(v, AssetOf(w, id).value.owner, id);
  }

  lemma PlainOwners(v: View, h: Header, tx: Transaction, c: Call)
    requires c.BurnAsset? || c.TransferAsset? || c.RegisterTemplate? || c.ListMarket?
    requires Dispatch(v, h, tx, c).Ok?
    ensures SameOwners(v, Dispatch(v, h, tx, c).value.view) <==> !Moves(c, tx.body.from)
  {
    hide TransferTokens, Mint, OpenSession, Settle, Buy;
    var w, from := Dispatch(v, h, tx, c).value.view, tx.body.from;
    if Moves(c, from) {
      assert OwnedBy(v, from, c.assetID) && !OwnedBy(w, from, c.assetID);
    } else {
      forall owner, id
        ensures OwnedBy(v, owner, id) <==> OwnedBy(w, owner, id)
      {
      }
    }
  }

  /** A successful call that is not a purchase keeps all ownership if and only if it is not a mint, a burn
      or a transfer to someone else. */
  lemma DispatchOwners(v: View, hist: seq<Transaction>, h: Header, tx: Transaction, c: Call)
    requires MarketInv(v, hist) && WellNumbered(hist + [tx]) && Dispatch(v, h, tx, c).Ok? && !c.BuyMarket?
    ensures SameOwners(v, Dispatch(v, h, tx, c).value.view) <==> !Moves(c, tx.body.from)
  {
    var from := tx.body.from;
    var w := Dispatch(v, h, tx, c).value.view;
    hide SameOwners, WellNumbered, Linked, Templated, Sourced;
    hide TransferTokens, Mint, Burn, GiveAsset, Register, OpenSession, Settle, ListForSale, Buy;
    match c
    case MintAsset(t, owner, properties) => MintOwners(v, hist, h, tx, t, owner, properties);
    case Transfer(to, amount) => TransferGoods(v, from, to, amount); GoodsOwners(v, w);
    case SessionOpen(id, game, players, stakes) => OpenGoods(v, h, from, id, game, players, stakes); GoodsOwners(v, w);
    case SessionResult(id, result) => SettleGoods(v, h, from, id, result); GoodsOwners(v, w);
    case BurnAsset(_) => PlainOwners(v, h, tx, c);
    case TransferAsset(_, _) => PlainOwners(v, h, tx, c);
    case RegisterTemplate(_, _, _, _) => PlainOwners(v, h, tx, c);
    case ListMarket(_, _) => PlainOwners(v, h, tx, c);
  }

  lemma SameOwnersChain(u: View, v: View, w: View)
    requires SameOwners(u, v)
    ensures SameOwners(v, w) <==> SameOwners(u, w)
  {
  }

  lemma SameOwnersBack(u: View, v: View, w: View)
    requires SameOwners(v, w)
    ensures SameOwners(u, v) <==> SameOwners(u, w)
  {
  }

  lemma TxOwners(v: View, hist: seq<Transaction>, supply: nat, h: Header, tx: Transaction)
    requires Inv(v, hist, supply) && ExecuteTx(v, h, tx).Ok? && tx.body.txType != "buy_market"
    ensures SameOwners(v, ExecuteTx(v, h, tx).value.view) <==> !TxMoves(tx)
  {
    var w, c := TxParts(v, h, tx);
    StepReady(v, hist, supply, h, tx);
    assert TypeName(c) == tx.body.txType;
    hide Inv, WellNumbered, ExecuteTx, Dispatch, MarketInv, SameOwners, Moves;
    ChargeGoods(v, h.proposer, tx.body);
    GoodsOwners(v, w);
    FrameMarket(v, w, hist);
    DispatchOwners(w, hist, h, tx, c);
    SameOwnersChain(v, w, Dispatch(w, h, tx, c).value.view);
  }

  /** The indexer is not told when a transaction's block is rolled back. After one transaction that was
      executed and then undone, the lists fit the restored state if and only if it moved no asset. */
  lemma UndoneTxIndex(ix: Index, v: View, hist: seq<Transaction>, supply: nat, h: Header, tx: Transaction)
    requires Agrees(ix, v) && Inv(v, hist, supply) && ExecuteTx(v, h, tx).Ok?
    ensures Agrees(Indexed(ix, ExecuteTx(v, h, tx).value.event), v) <==> !TxMoves(tx)
  {
    var w, c := TxParts(v, h, tx);
    assert TypeName(c) == tx.body.txType;
    hide Inv, Agrees, ExecuteTx, SameOwners, Dispatch;
    var e := ExecuteTx(v, h, tx).value;
    if c.BuyMarket? {
      DispatchBuyEvent(w, h, tx, c);
    } else {
      TxAgrees(ix, v, hist, supply, h, tx);
      TxOwners(v, hist, supply, h, tx);
      AgreesSameOwners(Indexed(ix, e.event), v, e.view);
    }
  }

  /** How many transactions of a list move an asset. */
  function MoveCount(txs: seq<Transaction>): nat {
    if txs == [] then 0 else MoveCount(txs[..|txs| - 1]) + if TxMoves(txs[|txs| - 1]) then 1 else 0
  }

  lemma AfterOneMore(v: View, u: View, w: View, n: nat, moves: bool)
    requires (n == 0 ==> SameOwners(v, u)) && (n == 1 ==> !SameOwners(v, u)) && (SameOwners(u, w) <==> !moves)
    ensures var m := n + if moves then 1 else 0; (m == 0 ==> SameOwners(v, w)) && (m == 1 ==> !SameOwners(v, w))
  {
    hide SameOwners;
    if n == 0 {
      SameOwnersChain(v, u, w);
    } else if !moves {
      SameOwnersBack(v, u, w);
    }
  }

  lemma {:induction false} RunOwners(v: View, hist: seq<Transaction>, supply: nat, h: Header, txs: seq<Transaction>)
    requires Inv(v, hist, supply) && h.proposer != "" && NoPurchase(txs)
    ensures var r := RunTxs(v, h, txs);
            && (MoveCount(Ran(v, h, txs)) == 0 ==> SameOwners(v, r.view))
            && (MoveCount(Ran(v, h, txs)) == 1 ==> !SameOwners(v, r.view))
  {
    hide Inv, ExecuteTx, TxMoves, OwnedBy;
    if txs == [] {
      assert SameOwners(v, v);
    } else {
      RanLast(v, h, txs);
      hide SameOwners, RunTxs, Ran;
      var n := |txs| - 1;
      RunOwners(v, hist, supply, h, txs[..n]);
      RunKeepsInv(v, hist, supply, h, txs[..n]);
      var before := RunTxs(v, h, txs[..n]);
      if before.error.None? && ExecuteTx(before.view, h, txs[n]).Ok? {
        var after := ExecuteTx(before.view, h, txs[n]).value.view;
        TxOwners(before.view, hist + txs[..n], supply, h, txs[n]);
        AfterOneMore(v, before.view, after, MoveCount(txs[..n]), TxMoves(txs[n]));
      }
    }
  }

  // ---- Ownership read off the payloads ----

  ghost function OwnerOf(v: View, id: string): Option<string> {
    match AssetOf(v, id)
    case None => None
    case Some(a) => Some(a.owner)
  }

  /** What a payload says about the owner of an asset. */
  function NextOwner(owner: Option<string>, tx: Transaction, id: string): Option<string> {
    match CallOf(tx)
    case Some(MintAsset(t, o, _)) =>
      if AssetID(tx.id, t) == id then Some(if o == "" then tx.body.from else o) else owner
    case Some(BurnAsset(a)) => if a == id then None else owner
    case Some(TransferAsset(a, to)) => if a == id then Some(to) else owner
    case _ => owner
  }

  /** The owner an asset ends up with, given the payloads of a list of transactions and nothing else. */
  function OwnerAfter(owner: Option<string>, txs: seq<Transaction>, id: string): Option<string> {
    if txs == [] then owner
    else NextOwner(OwnerAfter(owner, txs[..|txs| - 1], id), txs[|txs| - 1], id)
  }

  lemma SameOwnersAt(v: View, w: View)
    ensures SameOwners(v, w) <==> forall id :: OwnerOf(v, id) == OwnerOf(w, id)
  {
    if SameOwners(v, w) {
      forall id
        ensures OwnerOf(v, id) == OwnerOf(w, id)
      {
        if AssetOf(v, id).Some? {
          assert OwnedBy(v, AssetOf(v, id).value.owner, id);
        } else if AssetOf(w, id).Some? {
          assert OwnedBy(w, AssetOf(w, id).value.owner, id);
        }
      }
    }
    if forall id :: OwnerOf(v, id) == OwnerOf(w, id) {
      forall owner, id
        ensures OwnedBy(v, owner, id) <==> OwnedBy(w, owner, id)
      {
        assert OwnerOf(v, id) == OwnerOf(w, id);
      }
    }
  }

  lemma DispatchOwner(v: View, h: Header, tx: Transaction, c: Call, id: string)
    requires Dispatch(v, h, tx, c).Ok? && !c.BuyMarket? && CallOf(tx) == Some(c)
    ensures OwnerOf(Dispatch(v, h, tx, c).value.view, id) == NextOwner(OwnerOf(v, id), tx, id)
  {
    var from, w := tx.body.from, Dispatch(v, h, tx, c).value.view;
    hide TransferTokens, OpenSession, Settle, Buy;
    match c
    case Transfer(to, amount) => TransferGoods(v, from, to, amount); assert SameAt(v, w, AssetKey(id));
    case SessionOpen(sid, game, players, stakes) =>
      OpenGoods(v, h, from, sid, game, players, stakes);
      assert SameAt(v, w, AssetKey(id));
    case SessionResult(sid, result) => SettleGoods(v, h, from, sid, result); assert SameAt(v, w, AssetKey(id));
    case MintAsset(_, _, _) =>
    case BurnAsset(_) =>
    case TransferAsset(_, _) =>
    case RegisterTemplate(_, _, _, _) =>
    case ListMarket(_, _) =>
  }

  lemma TxOwner(v: View, h: Header, tx: Transaction, id: string)
    requires ExecuteTx(v, h, tx).Ok? && tx.body.txType != "buy_market"
    ensures OwnerOf(ExecuteTx(v, h, tx).value.view, id) == NextOwner(OwnerOf(v, id), tx, id)
  {
    var w, c := TxParts(v, h, tx);
    assert TypeName(c) == tx.body.txType;
    hide ExecuteTx, Dispatch;
    ChargeGoods(v, h.proposer, tx.body);
    assert SameAt(v, w, AssetKey(id));
    DispatchOwner(w, h, tx, c, id);
  }

  lemma {:induction false} RunOwner(v: View, h: Header, txs: seq<Transaction>, id: string)
    requires NoPurchase(txs)
    ensures OwnerOf(RunTxs(v, h, txs).view, id) == OwnerAfter(OwnerOf(v, id), Ran(v, h, txs), id)
  {
    hide ExecuteTx, OwnerOf, NextOwner;
    if txs != [] {
      RanLast(v, h, txs);
      hide RunTxs, Ran;
      var n := |txs| - 1;
      RunOwner(v, h, txs[..n], id);
      var before := RunTxs(v, h, txs[..n]);
      if before.error.None? && ExecuteTx(before.view, h, txs[n]).Ok? {
        TxOwner(before.view, h, txs[n], id);
      }
    }
  }

  /** The payloads leave every asset with the owner it had. */
  ghost predicate Restores(v: View, txs: seq<Transaction>) {
    forall id :: OwnerAfter(OwnerOf(v, id), txs, id) == OwnerOf(v, id)
  }

  lemma RestoresExact(v: View, h: Header, txs: seq<Transaction>)
    requires NoPurchase(txs)
    ensures SameOwners(v, RunTxs(v, h, txs).view) <==> Restores(v, Ran(v, h, txs))
  {
    hide RunTxs, Ran, OwnerOf, OwnerAfter, SameOwners, NoPurchase;
    SameOwnersAt(v, RunTxs(v, h, txs).view);
    forall id
      ensures OwnerOf(RunTxs(v, h, txs).view, id) == OwnerAfter(OwnerOf(v, id), Ran(v, h, txs), id)
    {
      RunOwner(v, h, txs, id);
    }
  }

  /** After a rolled-back list of transactions the lists fit the restored state if and only if the payloads of
      those that ran leave every asset with the owner it had. That is so if none of them moved an asset, and
      it is not so if exactly one did. */
  lemma RolledBackIndex(ix: Index, v: View, hist: seq<Transaction>, supply: nat, h: Header, txs: seq<Transaction>)
    requires Agrees(ix, v) && Inv(v, hist, supply) && h.proposer != "" && NoPurchase(txs)
    ensures Agrees(IndexAll(ix, RunTxs(v, h, txs).events), v) <==> Restores(v, Ran(v, h, txs))
    ensures MoveCount(Ran(v, h, txs)) == 0 ==> Agrees(IndexAll(ix, RunTxs(v, h, txs).events), v)
    ensures MoveCount(Ran(v, h, txs)) == 1 ==> !Agrees(IndexAll(ix, RunTxs(v, h, txs).events), v)
  {
    hide RunTxs, Ran, Inv, Agrees, SameOwners, MoveCount, Restores;
    RestoresExact(v, h, txs);
    RunAgrees(ix, v, hist, supply, h, txs);
    RunOwners(v, hist, supply, h, txs);
    var r := RunTxs(v, h, txs);
    AgreesSameOwners(IndexAll(ix, r.events), v, r.view);
  }

  lemma NotMintedEarlier(hist: seq<Transaction>, more: seq<Transaction>, j: nat, t: string)
    requires WellNumbered(hist + more) && j < |more|
    ensures !Minted(hist, AssetID(more[j].id, t))
  {
    var all, k := hist + more, |hist| + j;
    forall i, m | 0 <= i < |hist|
      ensures AssetID(hist[i].id, m) != AssetID(more[j].id, t)
    {
      assert all[i] == hist[i] && all[k] == more[j];
      IdsDistinct(all, i, k);
      AssetIdsDiffer(all[i], m, all[k], t);
    }
  }

  lemma MintedWasNew(v: View, hist: seq<Transaction>, supply: nat, h: Header, txs: seq<Transaction>, j: nat, t: string)
    requires Inv(v, hist, supply) && h.proposer != "" && j < |Ran(v, h, txs)|
    ensures AssetOf(v, AssetID(txs[j].id, t)).None?
  {
    hide RunTxs, Minted, Linked, Templated, WellNumbered;
    RunKeepsInv(v, hist, supply, h, txs);
    var ran := txs[..RunTxs(v, h, txs).done];
    NotMintedEarlier(hist, ran, j, t);
    assert ran[j] == txs[j];
  }

  /** The index after the events of a list of accepted blocks. */
  ghost function IndexBlocks(ix: Index, v: View, blocks: seq<Block>): Index
    requires Replay(v, blocks).Some?
  {
    if blocks == [] then ix
    else
      var n := |blocks| - 1;
      IndexAll(IndexBlocks(ix, v, blocks[..n]),
               RunTxs(Replay(v, blocks[..n]).value, blocks[n].header, blocks[n].txs).events)
  }

  /** Over every run of accepted blocks without purchases, each owner's list holds exactly the
      owner's live assets, once each. */
  lemma {:induction false} IndexAgrees(ix: Index, v: View, hist: seq<Transaction>, supply: nat, blocks: seq<Block>)
    requires Agrees(ix, v) && Inv(v, hist, supply) && Proposed(blocks) && Replay(v, blocks).Some?
    requires forall i :: 0 <= i < |blocks| ==> NoPurchase(blocks[i].txs)
    ensures Agrees(IndexBlocks(ix, v, blocks), Replay(v, blocks).value)
  {
    hide Inv, Agrees, RunTxs;
    if blocks != [] {
      var n := |blocks| - 1;
      IndexAgrees(ix, v, hist, supply, blocks[..n]);
      ReplayKeepsInv(v, hist, supply, blocks[..n]);
      RunAgrees(IndexBlocks(ix, v, blocks[..n]), Replay(v, blocks[..n]).value, hist + AllTxs(blocks[..n]), supply,
                blocks[n].header, blocks[n].txs);
    }
  }
}
