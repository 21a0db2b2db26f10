/** The link between listed assets and active listings, and what can happen to an asset. */
module Market {
  import opened Wrappers
  import opened Types
  import opened State
  import opened Rules
  import opened Conservation
  import opened History

  /** A listed asset is named by an active listing, offered by its owner, and tradeable. */
  ghost predicate AssetLinked(v: View, id: string) {
    AssetOf(v, id).Some? && AssetOf(v, id).value.activeListingID != "" ==>
      var a := AssetOf(v, id).value;
      var l := ListingOf(v, a.activeListingID);
      a.tradeable && l.Some? && l.value.active && l.value.assetID == id && l.value.seller == a.owner
  }

  /** An active listing names an existing asset that points back to it. */
  ghost predicate ListingLinked(v: View, id: string) {
    ListingOf(v, id).Some? && ListingOf(v, id).value.active ==>
      var a := AssetOf(v, ListingOf(v, id).value.assetID);
      id != "" && a.Some? && a.value.activeListingID == id
  }

  ghost predicate Linked(v: View) {
    (forall id :: AssetLinked(v, id)) && (forall id :: ListingLinked(v, id))
  }

  /** Every asset has its template, and their trading flags agree. */
  ghost predicate AssetTemplated(v: View, id: string) {
    AssetOf(v, id).Some? ==>
      var t := TemplateOf(v, AssetOf(v, id).value.templateID);
      t.Some? && t.value.tradeable == AssetOf(v, id).value.tradeable
  }

  ghost predicate Templated(v: View) {
    forall id :: AssetTemplated(v, id)
  }

  /** Every asset and listing was made by a transaction of the history. */
  ghost predicate Sourced(v: View, hist: seq<Transaction>) {
    && (forall id :: AssetKey(id) in v ==> Minted(hist, id))
    && (forall id :: ListingKey(id) in v ==> Listed(hist, id))
  }

  ghost predicate MarketInv(v: View, hist: seq<Transaction>) {
    Linked(v) && Templated(v) && Sourced(v, hist)
  }

  /** An asset is listed exactly when one active listing names it: that one, by its owner. */
  lemma ListedExactlyOnce(v: View, id: string)
    requires Linked(v) && AssetOf(v, id).Some?
    ensures var a := AssetOf(v, id).value;
            forall l :: (ListingOf(v, l).Some? && ListingOf(v, l).value.active && ListingOf(v, l).value.assetID == id)
                        <==> (a.activeListingID != "" && l == a.activeListingID)
    ensures var a := AssetOf(v, id).value;
            a.activeListingID != "" ==> a.tradeable && ListingOf(v, a.activeListingID).value.seller == a.owner
  {
    var a := AssetOf(v, id).value;
    assert AssetLinked(v, id);
    forall l | ListingOf(v, l).Some? && ListingOf(v, l).value.active && ListingOf(v, l).value.assetID == id
      ensures a.activeListingID != "" && l == a.activeListingID
    {
      assert ListingLinked(v, l);
    }
  }

  // ---- Frames ----

  ghost predicate SameAt(v: View, w: View, k: Key) {
    (k in v <==> k in w) && (k in v ==> v[k] == w[k])
  }

  /** Only accounts and sessions may differ. */
  ghost predicate SameGoods(v: View, w: View) {
    forall k: Key :: k.AssetKey? || k.ListingKey? || k.TemplateKey? ==> SameAt(v, w, k)
  }

  lemma FrameMarket(v: View, w: View, hist: seq<Transaction>)
    requires MarketInv(v, hist) && SameGoods(v, w)
    ensures MarketInv(w, hist)
  {
    forall id
      ensures AssetLinked(w, id) && AssetTemplated(w, id)
      ensures AssetKey(id) in w ==> Minted(hist, id)
    {
      assert AssetLinked(v, id) && AssetTemplated(v, id);
      assert SameAt(v, w, AssetKey(id));
      if AssetOf(v, id).Some? {
        assert SameAt(v, w, ListingKey(AssetOf(v, id).value.activeListingID));
        assert SameAt(v, w, TemplateKey(AssetOf(v, id).value.templateID));
      }
    }
    forall id
      ensures ListingLinked(w, id)
      ensures ListingKey(id) in w ==> Listed(hist, id)
    {
      assert ListingLinked(v, id);
      assert SameAt(v, w, ListingKey(id));
      if ListingOf(v, id).Some? {
        assert SameAt(v, w, AssetKey(ListingOf(v, id).value.assetID));
      }
    }
  }

  lemma HistoryGrows(v: View, hist: seq<Transaction>, tx: Transaction)
    requires Sourced(v, hist)
    ensures Sourced(v, hist + [tx])
  {
    forall id
      ensures AssetKey(id) in v ==> Minted(hist + [tx], id)
      ensures ListingKey(id) in v ==> Listed(hist + [tx], id)
    {
      MintedLast(hist, tx, id);
    }
  }

  lemma ChargeGoods(v: View, proposer: string, b: TxBody)
    requires Charge(v, proposer, b).Ok?
    ensures SameGoods(v, Charge(v, proposer, b).value)
  {
  }

  lemma TransferGoods(v: View, from: string, to: string, amount: uint64)
    requires TransferTokens(v, from, to, amount).Ok?
    ensures SameGoods(v, TransferTokens(v, from, to, amount).value.view)
  {
  }

  lemma OpenGoods(v: View, h: Header, from: string, id: string, game: string, players: seq<string>, stakes: uint64)
    requires OpenSession(v, h, from, id, game, players, stakes).Ok?
    ensures SameGoods(v, OpenSession(v, h, from, id, game, players, stakes).value.view)
  {
    if stakes > 0 {
      forall k: Key | k.AssetKey? || k.ListingKey? || k.TemplateKey?
        ensures SameAt(v, DebitEach(v, players, stakes).value, k)
      {
        DebitEachFrame(v, players, stakes, k);
      }
    }
  }

  lemma SettleGoods(v: View, h: Header, from: string, id: string, result: Payout)
    requires Settle(v, h, from, id, result).Ok?
    ensures SameGoods(v, Settle(v, h, from, id, result).value.view)
  {
    var outcome := Entries(result);
    hide Pay, AllPayable;
    forall k: Key | k.AssetKey? || k.ListingKey? || k.TemplateKey?
      ensures SameAt(v, Pay(v, outcome, outcome.Keys), k)
    {
      PayAt(v, outcome, outcome.Keys, k);
    }
  }

  // ---- The handlers that touch assets and listings ----

  lemma RegisterKeeps(v: View, hist: seq<Transaction>, from: string, id: string, name: string, schema: string,
                      tradeable: bool)
    requires MarketInv(v, hist) && Register(v, from, id, name, schema, tradeable).Ok?
    ensures MarketInv(Register(v, from, id, name, schema, tradeable).value.view, hist)
  {
    var w := Register(v, from, id, name, schema, tradeable).value.view;
    forall a
      ensures AssetLinked(w, a) && AssetTemplated(w, a) && ListingLinked(w, a)
    {
      assert AssetLinked(v, a) && AssetTemplated(v, a) && ListingLinked(v, a);
    }
  }

  /** If a step changes one asset only, and leaves it unlisted and templated, then it keeps the market. */
  lemma TouchedAsset(v: View, w: View, hist: seq<Transaction>, id: string)
    requires MarketInv(v, hist) && AssetTemplated(w, id)
    requires forall k: Key :: !k.AccountKey? && k != AssetKey(id) ==> SameAt(v, w, k)
    requires AssetOf(v, id).Some? ==> AssetOf(v, id).value.activeListingID == ""
    requires AssetOf(w, id).Some? ==> AssetOf(w, id).value.activeListingID == "" && Minted(hist, id)
    ensures MarketInv(w, hist)
  {
    forall a
      ensures AssetLinked(w, a) && AssetTemplated(w, a) && (AssetKey(a) in w ==> Minted(hist, a))
    {
      assert AssetLinked(v, a) && AssetTemplated(v, a);
      assert SameAt(v, w, AssetKey(a)) || a == id;
      if AssetOf(v, a).Some? {
        assert SameAt(v, w, TemplateKey(AssetOf(v, a).value.templateID));
        assert SameAt(v, w, ListingKey(AssetOf(v, a).value.activeListingID));
      }
    }
    forall l
      ensures ListingLinked(w, l) && (ListingKey(l) in w ==> Listed(hist, l))
    {
      assert ListingLinked(v, l);
      assert SameAt(v, w, ListingKey(l));
      if ListingOf(v, l).Some? {
        var k := ListingOf(v, l).value.assetID;
        assert SameAt(v, w, AssetKey(k)) || k == id;
      }
    }
  }

  /** A mint adds one unlisted asset, for the named owner or else the sender, with its template's flag. */
  lemma MintResult(v: View, h: Header, tx: Transaction, t: string, owner: string, properties: string)
    requires Mint(v, h, tx, t, owner, properties).Ok?
    ensures var w := Mint(v, h, tx, t, owner, properties).value.view;
            var id := AssetID(tx.id, t);
            && AssetTemplated(w, id) && AssetOf(w, id).Some? && AssetOf(w, id).value.activeListingID == ""
            && AssetOf(w, id).value.owner == (if owner == "" then tx.body.from else owner)
            && AssetOf(w, id).value.templateID == t
            && (forall k: Key :: k != AssetKey(id) ==> SameAt(v, w, k))
  {
  }

  lemma MintKeeps(v: View, hist: seq<Transaction>, h: Header, tx: Transaction, t: string, owner: string,
                  properties: string)
    requires MarketInv(v, hist) && WellNumbered(hist + [tx]) && Mint(v, h, tx, t, owner, properties).Ok?
    ensures MarketInv(Mint(v, h, tx, t, owner, properties).value.view, hist + [tx])
  {
    hide Mint, WellNumbered, Linked, Templated;
    MintResult(v, h, tx, t, owner, properties);
    DerivedIdsAreNew(hist, tx, t);
    assert AssetKey(AssetID(tx.id, t)) !in v;
    HistoryGrows(v, hist, tx);
    MintedLast(hist, tx, t);
    TouchedAsset(v, Mint(v, h, tx, t, owner, properties).value.view, hist + [tx], AssetID(tx.id, t));
  }

  lemma BurnKeeps(v: View, hist: seq<Transaction>, from: string, id: string)
    requires MarketInv(v, hist) && Burn(v, from, id).Ok?
    ensures MarketInv(Burn(v, from, id).value.view, hist)
  {
    hide Linked, Templated, Sourced;
    TouchedAsset(v, Burn(v, from, id).value.view, hist, id);
  }

  lemma GiveKeeps(v: View, hist: seq<Transaction>, from: string, id: string, to: string)
    requires MarketInv(v, hist) && GiveAsset(v, from, id, to).Ok?
    ensures MarketInv(GiveAsset(v, from, id, to).value.view, hist)
  {
    assert AssetTemplated(v, id);
    hide Linked, Templated;
    TouchedAsset(v, GiveAsset(v, from, id, to).value.view, hist, id);
  }

  /** What putting an asset up for sale leaves behind. */
  lemma ListResult(v: View, h: Header, tx: Transaction, id: string, price: uint64)
    requires ListForSale(v, h, tx, id, price).Ok?
    ensures var w := ListForSale(v, h, tx, id, price).value.view;
            var lid := ListingID(tx.id, id);
            var a := AssetOf(v, id);
            && a.Some? && a.value.owner == tx.body.from && a.value.tradeable && a.value.activeListingID == ""
            && AssetOf(w, id) == Some(a.value.(activeListingID := lid))
            && ListingOf(w, lid) == Some(Listing(lid, id, tx.body.from, price, true, h.timestamp))
            && (forall k: Key :: k != AssetKey(id) && k != ListingKey(lid) ==> SameAt(v, w, k))
  {
  }

  lemma ListKeeps(v: View, hist: seq<Transaction>, h: Header, tx: Transaction, id: string, price: uint64)
    requires MarketInv(v, hist) && WellNumbered(hist + [tx]) && ListForSale(v, h, tx, id, price).Ok?
    ensures MarketInv(ListForSale(v, h, tx, id, price).value.view, hist + [tx])
  {
    hide ListForSale, WellNumbered;
    ListResult(v, h, tx, id, price);
    var w := ListForSale(v, h, tx, id, price).value.view;
    var lid := ListingID(tx.id, id);
    DerivedIdsAreNew(hist, tx, id);
    assert ListingKey(lid) !in v;
    HistoryGrows(v, hist, tx);
    MintedLast(hist, tx, id);
    TouchedMarket(v, w, hist + [tx], id, lid);
  }

  /** If a step changes at most one asset and one listing, and leaves these two linked, then it keeps
      the whole market linked. */
  lemma TouchedMarket(v: View, w: View, hist: seq<Transaction>, id: string, lid: string)
    requires MarketInv(v, hist)
    requires forall k: Key :: !k.AccountKey? && k != AssetKey(id) && k != ListingKey(lid) ==> SameAt(v, w, k)
    requires AssetKey(id) in v && Listed(hist, lid)
    requires AssetLinked(w, id) && ListingLinked(w, lid)
    requires AssetOf(w, id).Some? && AssetOf(w, id).value.templateID == AssetOf(v, id).value.templateID
    requires AssetOf(w, id).value.tradeable == AssetOf(v, id).value.tradeable
    requires AssetOf(v, id).value.activeListingID == "" || AssetOf(v, id).value.activeListingID == lid
    requires ListingOf(v, lid).Some? && ListingOf(v, lid).value.active ==> ListingOf(v, lid).value.assetID == id
    ensures MarketInv(w, hist)
  {
    hide Minted, Listed, WellNumbered;
    assert AssetTemplated(v, id) && ListingLinked(v, lid);
    forall a
      ensures AssetLinked(w, a) && AssetTemplated(w, a) && (AssetKey(a) in w ==> Minted(hist, a))
    {
      assert AssetLinked(v, a) && AssetTemplated(v, a);
      assert SameAt(v, w, AssetKey(a)) || a == id;
      if AssetOf(v, a).Some? {
        var b := AssetOf(v, a).value;
        assert SameAt(v, w, TemplateKey(b.templateID));
        assert SameAt(v, w, ListingKey(b.activeListingID)) || b.activeListingID == lid;
      }
    }
    forall l
      ensures ListingLinked(w, l) && (ListingKey(l) in w ==> Listed(hist, l))
    {
      assert ListingLinked(v, l);
      assert SameAt(v, w, ListingKey(l)) || l == lid;
      if ListingOf(v, l).Some? {
        var k := ListingOf(v, l).value.assetID;
        assert SameAt(v, w, AssetKey(k)) || k == id;
      }
    }
  }

  /** An active listing can always be settled: its asset exists and its seller is the owner. */
  lemma BuyFindsAsset(v: View, from: string, id: string)
    requires Linked(v)
    ensures Buy(v, from, id) != Err(AssetMissing)
    ensures Buy(v, from, id).Ok? ==>
              var l := ListingOf(v, id).value;
              AssetOf(v, l.assetID).Some? && AssetOf(v, l.assetID).value.owner == l.seller
  {
    assert ListingLinked(v, id);
    if ListingOf(v, id).Some? {
      assert AssetLinked(v, ListingOf(v, id).value.assetID);
    }
  }

  lemma SetBalanceFrame(v: View, a: string, n: uint64, k: Key)
    requires !k.AccountKey?
    ensures SameAt(v, SetBalance(v, a, n), k)
  {
  }

  /** What a purchase leaves behind, apart from balances. */
  lemma BuyResult(v: View, from: string, id: string)
    requires Buy(v, from, id).Ok?
    ensures ListingOf(v, id).Some?
    ensures var w := Buy(v, from, id).value.view;
            var l := ListingOf(v, id).value;
            && l.active && l.seller != from && AssetOf(v, l.assetID).Some?
            && AssetOf(w, l.assetID) == Some(AssetOf(v, l.assetID).value.(owner := from, activeListingID := ""))
            && ListingOf(w, id) == Some(l.(active := false))
            && (forall k: Key :: !k.AccountKey? && k != AssetKey(l.assetID) && k != ListingKey(id) ==> SameAt(v, w, k))
  {
    hide SetBalance;
    var l := ListingOf(v, id).value;
    var w := Debit(v, from, l.price).value;
    var x := Credit(w, l.seller, l.price).value;
    forall k: Key | !k.AccountKey?
      ensures SameAt(v, x, k)
    {
      SetBalanceFrame(v, from, Balance(v, from) - l.price, k);
      SetBalanceFrame(w, l.seller, Balance(w, l.seller) + l.price, k);
    }
    assert SameAt(v, x, AssetKey(l.assetID));
  }

  lemma BuyKeeps(v: View, hist: seq<Transaction>, from: string, id: string)
    requires MarketInv(v, hist) && Buy(v, from, id).Ok?
    ensures MarketInv(Buy(v, from, id).value.view, hist)
  {
    hide Buy;
    BuyResult(v, from, id);
    var l := ListingOf(v, id).value;
    assert ListingLinked(v, id) && AssetLinked(v, l.assetID);
    TouchedMarket(v, Buy(v, from, id).value.view, hist, l.assetID, id);
  }

  /** Every handler keeps the link, the templates and the provenance of identifiers. */
  lemma DispatchKeepsMarket(v: View, hist: seq<Transaction>, h: Header, tx: Transaction, c: Call)
    requires MarketInv(v, hist) && WellNumbered(hist + [tx]) && Dispatch(v, h, tx, c).Ok?
    ensures MarketInv(Dispatch(v, h, tx, c).value.view, hist + [tx])
  {
    hide Linked, Templated, Sourced, WellNumbered;
    var w := Dispatch(v, h, tx, c).value.view;
    match c
    case MintAsset(t, owner, properties) => MintKeeps(v, hist, h, tx, t, owner, properties);
    case ListMarket(id, price) => ListKeeps(v, hist, h, tx, id, price);
    case BurnAsset(id) => BurnKeeps(v, hist, tx.body.from, id); HistoryGrows(w, hist, tx);
    case TransferAsset(id, to) => GiveKeeps(v, hist, tx.body.from, id, to); HistoryGrows(w, hist, tx);
    case BuyMarket(id) => BuyKeeps(v, hist, tx.body.from, id); HistoryGrows(w, hist, tx);
    case RegisterTemplate(id, name, schema, tradeable) =>
      RegisterKeeps(v, hist, tx.body.from, id, name, schema, tradeable);
      HistoryGrows(w, hist, tx);
    case Transfer(to, amount) =>
      TransferGoods(v, tx.body.from, to, amount);
      FrameMarket(v, w, hist);
      HistoryGrows(w, hist, tx);
    case SessionOpen(id, game, players, stakes) =>
      OpenGoods(v, h, tx.body.from, id, game, players, stakes);
      FrameMarket(v, w, hist);
      HistoryGrows(w, hist, tx);
    case SessionResult(id, result) =>
      SettleGoods(v, h, tx.body.from, id, result);
      FrameMarket(v, w, hist);
      HistoryGrows(w, hist, tx);
  }
}
