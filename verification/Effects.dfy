/** Each handler on its own: exactly when it succeeds, the record it leaves, the event it emits, and that
    it touches nothing else. */
module Effects {
  import opened Wrappers
  import opened Crypto
  import opened Types
  import opened State
  import opened Sums
  import opened Rules
  import opened Conservation
  import opened Market
  import opened Lifetimes
  import opened Payments

  /** Every other key reads as before. */
  ghost predicate OnlyAt(v: View, w: View, keys: set<Key>) {
    forall k: Key :: k !in keys ==> SameAt(v, w, k)
  }

  // ---- Templates and assets ----

  lemma RegisterExact(v: View, from: string, id: string, name: string, schema: string, tradeable: bool)
    ensures var r := Register(v, from, id, name, schema, tradeable);
            && (r.Ok? <==> id != "" && TemplateOf(v, id).None?)
            && (r.Ok? ==>
                  && TemplateOf(r.value.view, id) == Some(Template(id, name, schema, tradeable, from))
                  && OnlyAt(v, r.value.view, {TemplateKey(id)})
                  && r.value.event == TemplateRegistered(id))
  {
  }

  lemma MintExact(v: View, h: Header, tx: Transaction, t: string, owner: string, properties: string)
    ensures var r := Mint(v, h, tx, t, owner, properties);
            var id, o := Hash(tx.id + ":asset:" + t), if owner == "" then tx.body.from else owner;
            && (r.Ok? <==> t != "" && TemplateOf(v, t).Some? && (owner == "" || IsPubKeyHex(owner)))
            && (r.Ok? ==>
                  && AssetOf(r.value.view, id)
                     == Some(Asset(id, t, o, properties, TemplateOf(v, t).value.tradeable, h.timestamp, ""))
                  && OnlyAt(v, r.value.view, {AssetKey(id)})
                  && r.value.event == AssetMinted(id, o))
  {
  }

  /** Only the owner can give away or burn an asset, and only while it is not listed. */
  predicate Free(v: View, from: string, id: string) {
    AssetOf(v, id).Some? && AssetOf(v, id).value.owner == from && AssetOf(v, id).value.activeListingID == ""
  }

  lemma BurnExact(v: View, from: string, id: string)
    ensures var r := Burn(v, from, id);
            && (r.Ok? <==> Free(v, from, id))
            && (r.Ok? ==>
                  && AssetOf(r.value.view, id).None? && OnlyAt(v, r.value.view, {AssetKey(id)})
                  && r.value.event == AssetBurned(id, from))
  {
  }

  lemma GiveExact(v: View, from: string, id: string, to: string)
    ensures var r := GiveAsset(v, from, id, to);
            && (r.Ok? <==> IsPubKeyHex(to) && Free(v, from, id) && AssetOf(v, id).value.tradeable)
            && (r.Ok? ==>
                  && AssetOf(r.value.view, id) == Some(AssetOf(v, id).value.(owner := to))
                  && OnlyAt(v, r.value.view, {AssetKey(id)})
                  && r.value.event == AssetTransferred(id, from, to))
  {
  }

  // ---- Market ----

  lemma ListExact(v: View, h: Header, tx: Transaction, id: string, price: uint64)
    ensures var r := ListForSale(v, h, tx, id, price);
            var from, lid := tx.body.from, Hash(tx.id + ":listing:" + id);
            && (r.Ok? <==> price > 0 && Free(v, from, id) && AssetOf(v, id).value.tradeable)
            && (r.Ok? ==>
                  && AssetOf(r.value.view, id) == Some(AssetOf(v, id).value.(activeListingID := lid))
                  && ListingOf(r.value.view, lid) == Some(Listing(lid, id, from, price, true, h.timestamp))
                  && OnlyAt(v, r.value.view, {AssetKey(id), ListingKey(lid)})
                  && r.value.event == MarketListed(lid, id))
  {
  }

  lemma SetBalanceOnly(v: View, a: string, n: uint64)
    ensures OnlyAt(v, SetBalance(v, a, n), {AccountKey(a)})
  {
  }

  lemma MoveOnly(v: View, from: string, to: string, n: uint64, k: Key)
    requires Debit(v, from, n).Some? && Credit(Debit(v, from, n).value, to, n).Some?
    requires k != AccountKey(from) && k != AccountKey(to)
    ensures SameAt(v, Credit(Debit(v, from, n).value, to, n).value, k)
  {
    var w := Debit(v, from, n).value;
    SetBalanceOnly(v, from, Balance(v, from) - n);
    SetBalanceOnly(w, to, Balance(w, to) + n);
    hide SetBalance;
    assert SameAt(v, w, k);
  }

  lemma BuyAccounts(v: View, from: string, id: string, k: Key)
    requires Buy(v, from, id).Ok? && k.AccountKey?
    requires k.address != from && k.address != ListingOf(v, id).value.seller
    ensures SameAt(v, Buy(v, from, id).value.view, k)
  {
    hide Debit, Credit;
    var l := ListingOf(v, id).value;
    MoveOnly(v, from, l.seller, l.price, k);
  }

  /** What `Payments.BuyExact` leaves open: the records, the event and everything untouched. */
  lemma BuyLeaves(v: View, from: string, id: string)
    requires Buy(v, from, id).Ok?
    ensures var r, l := Buy(v, from, id).value, ListingOf(v, id).value;
            && AssetOf(v, l.assetID).Some?
            && AssetOf(r.view, l.assetID) == Some(AssetOf(v, l.assetID).value.(owner := from, activeListingID := ""))
            && ListingOf(r.view, id) == Some(l.(active := false))
            && OnlyAt(v, r.view, {AccountKey(from), AccountKey(l.seller), AssetKey(l.assetID), ListingKey(id)})
            && r.event == MarketBought(id, l.assetID, from, l.seller)
  {
    hide SetBalance;
    var r, l := Buy(v, from, id).value, ListingOf(v, id).value;
    assert r.event == MarketBought(id, l.assetID, from, l.seller);
    BuyResult(v, from, id);
    hide Buy;
    forall k: Key | k !in {AccountKey(from), AccountKey(l.seller), AssetKey(l.assetID), ListingKey(id)}
      ensures SameAt(v, r.view, k)
    {
      if k.AccountKey? {
        BuyAccounts(v, from, id, k);
      }
    }
  }

  /** What `Payments.TransferExact` leaves open. */
  lemma TransferLeaves(v: View, from: string, to: string, amount: uint64)
    requires TransferTokens(v, from, to, amount).Ok?
    ensures var r := TransferTokens(v, from, to, amount).value;
            && OnlyAt(v, r.view, {AccountKey(from), AccountKey(to)})
            && r.event == TokenTransferred(from, to, amount)
  {
    hide Debit, Credit;
    forall k: Key | k !in {AccountKey(from), AccountKey(to)}
      ensures SameAt(v, TransferTokens(v, from, to, amount).value.view, k)
    {
      MoveOnly(v, from, to, amount, k);
    }
  }

  // ---- Sessions ----

  lemma {:induction false} DebitEachOnly(v: View, players: seq<string>, stakes: uint64, k: Key)
    requires DebitEach(v, players, stakes).Some? && !(k.AccountKey? && k.address in players)
    ensures SameAt(v, DebitEach(v, players, stakes).value, k)
  {
    if players != [] {
      var n := |players| - 1;
      DebitEachOnly(v, players[..n], stakes, k);
      var w := DebitEach(v, players[..n], stakes).value;
      SetBalanceOnly(w, players[n], Balance(w, players[n]) - stakes);
      assert SameAt(w, SetBalance(w, players[n], Balance(w, players[n]) - stakes), k);
    }
  }

  lemma FreeStakes(v: View, players: seq<string>)
    ensures forall p :: Owed(players, 0, p) == 0
  {
  }

  /** An opening succeeds exactly for a new ID and players who can all pay. It records the terms and the
      sender as creator, and takes the stakes. */
  lemma OpenExact(v: View, h: Header, from: string, id: string, game: string, players: seq<string>, stakes: uint64)
    ensures var r := OpenSession(v, h, from, id, game, players, stakes);
            && (r.Ok? <==>
                  && id != "" && players != [] && SessionOf(v, id).None?
                  && forall p :: Balance(v, p) >= Owed(players, stakes, p))
            && (r.Ok? ==>
                  && SessionOf(r.value.view, id)
                     == Some(Session(id, game, from, players, stakes, Open, Some(map[]), h.timestamp, 0))
                  && (forall p :: Balance(r.value.view, p) == Balance(v, p) - Owed(players, stakes, p))
                  && (forall k: Key :: k != SessionKey(id) && !(k.AccountKey? && k.address in players) ==>
                        SameAt(v, r.value.view, k))
                  && r.value.event == SessionOpened(id))
  {
    StakesExact(v, players, stakes);
    if stakes == 0 {
      FreeStakes(v, players);
    }
    hide Owed;
    var r := OpenSession(v, h, from, id, game, players, stakes);
    if r.Ok? && stakes > 0 {
      forall k: Key | k != SessionKey(id) && !(k.AccountKey? && k.address in players)
        ensures SameAt(v, r.value.view, k)
      {
        DebitEachOnly(v, players, stakes, k);
      }
    }
  }

  /** What `Lifetimes.SettlementExact` and `Payments.SettlePays` leave open. */
  lemma SettleLeaves(v: View, h: Header, from: string, id: string, result: Payout)
    requires Settle(v, h, from, id, result).Ok?
    ensures var r := Settle(v, h, from, id, result).value;
            && SessionOf(r.view, id)
               == Some(SessionOf(v, id).value.(status := Closed, outcome := result, closedAt := h.timestamp))
            && (forall k: Key :: k != SessionKey(id) && !(k.AccountKey? && k.address in Entries(result)) ==>
                  SameAt(v, r.view, k))
            && r.event == SessionEnded(id)
  {
    var outcome, w := Entries(result), Settle(v, h, from, id, result).value.view;
    hide Pay, AllPayable, Sum;
    forall k: Key | k != SessionKey(id) && !(k.AccountKey? && k.address in outcome)
      ensures SameAt(v, w, k)
    {
      PayAt(v, outcome, outcome.Keys, k);
    }
  }

  // ---- The executor ----

  /** What `Payments.ChargeExact` leaves open. */
  lemma ChargeLeaves(v: View, proposer: string, b: TxBody)
    requires Charge(v, proposer, b).Ok?
    ensures var w := Charge(v, proposer, b).value;
            && OnlyAt(v, w, {AccountKey(b.from), AccountKey(proposer)})
            && forall a :: AccountOf(w, a).nonce == AccountOf(v, a).nonce + if a == b.from then 1 else 0
  {
  }

  /** Every payload belongs to a registered type, and every registered type has payloads. */
  lemma RegisteredExactly(t: string)
    ensures t in REGISTERED <==> exists c :: TypeName(c) == t
  {
    var calls := [Transfer("", 0), MintAsset("", "", ""), BurnAsset(""), TransferAsset("", ""),
                  RegisterTemplate("", "", "", false), SessionOpen("", "", [], 0), SessionResult("", None),
                  ListMarket("", 0), BuyMarket("")];
    if t in REGISTERED {
      assert exists i :: 0 <= i < |calls| && TypeName(calls[i]) == t by {
        assert TypeName(calls[0]) == "transfer" && TypeName(calls[1]) == "mint_asset";
        assert TypeName(calls[2]) == "burn_asset" && TypeName(calls[3]) == "transfer_asset";
        assert TypeName(calls[4]) == "register_template" && TypeName(calls[5]) == "session_open";
        assert TypeName(calls[6]) == "session_result" && TypeName(calls[7]) == "list_market";
        assert TypeName(calls[8]) == "buy_market";
      }
    }
  }

  lemma DispatchErrors(v: View, h: Header, tx: Transaction, c: Call)
    ensures Dispatch(v, h, tx, c) != Err(BadSignature)
  {
    hide DebitEach, Pay, Debit, Credit;
  }

  /** A transaction is refused for its signature exactly when it is not signed. */
  lemma SignatureExact(v: View, h: Header, tx: Transaction)
    ensures ExecuteTx(v, h, tx) == Err(BadSignature) <==> !Signed(tx)
  {
    if CallOf(tx).Some? && Charge(v, h.proposer, tx.body).Ok? {
      DispatchErrors(Charge(v, h.proposer, tx.body).value, h, tx, CallOf(tx).value);
    }
    hide Dispatch;
  }

  /** A transaction succeeds exactly when it is signed, carries the next nonce, can pay a fee the proposer can
      take, decodes, and its handler then succeeds. */
  lemma ExecuteExact(v: View, h: Header, tx: Transaction)
    ensures ExecuteTx(v, h, tx).Ok? <==>
            && Signed(tx)
            && tx.body.nonce == AccountOf(v, tx.body.from).nonce && tx.body.nonce < MAX_UINT64
            && Balance(v, tx.body.from) >= tx.body.fee
            && (h.proposer == "" || Fits(v, tx.body.from, h.proposer, tx.body.fee))
            && CallOf(tx).Some?
            && Dispatch(Charge(v, h.proposer, tx.body).value, h, tx, CallOf(tx).value).Ok?
  {
    ChargeExact(v, h.proposer, tx.body);
    RegisteredExactly(tx.body.txType);
    hide Dispatch, Charge, Fits;
    assert CallOf(tx).Some? ==> TypeName(CallOf(tx).value) == tx.body.txType;
  }
}
