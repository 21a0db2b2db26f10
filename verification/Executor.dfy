/** vm/executor.go and the transaction handlers of vm/modules/, on the buffered state store. */
module Execution {
  import opened Wrappers
  import opened Crypto
  import opened Types
  import opened State
  import opened StateStore
  import opened Sums
  import opened Rules
  import opened Conservation

  /** What a handler reports agrees with its rule. After an error the buffer is unspecified: the
      caller rolls it back. */
  ghost predicate Reports(r: Outcome, err: Option<Error>, view: View, before: seq<Event>, after: seq<Event>) {
    match r
    case Ok(e) => err == None && view == e.view && after == before + [e.event]
    case Err(x) => err == Some(x) && after == before
  }

  lemma {:induction false} DebitEachStops(v: View, players: seq<string>, stakes: uint64, i: nat)
    requires i <= |players| && DebitEach(v, players[..i], stakes).None?
    ensures DebitEach(v, players, stakes).None?
  {
    if i == |players| {
      assert players[..i] == players;
    } else {
      assert players[..|players| - 1][..i] == players[..i];
      DebitEachStops(v, players[..|players| - 1], stakes, i);
    }
  }

  lemma MultiplicationBound(stakes: nat, n: nat)
    requires stakes > 0
    ensures n > MAX_UINT64 / stakes <==> stakes * n > MAX_UINT64
  {
    if n > MAX_UINT64 / stakes {
      assert stakes * n >= stakes * (MAX_UINT64 / stakes + 1);
    } else {
      assert stakes * n <= stakes * (MAX_UINT64 / stakes);
    }
  }

  /** The rewards met so far, in any order, never sum to more than all of them. */
  lemma {:induction false} SumPart(outcome: map<string, uint64>, paid: set<string>)
    requires paid <= outcome.Keys
    ensures Sum(Rewards(outcome, paid)) <= Sum(outcome)
    decreases |outcome.Keys - paid|
  {
    if outcome.Keys <= paid {
      assert Rewards(outcome, paid) == outcome;
    } else {
      var p :| p in outcome.Keys && p !in paid;
      assert outcome.Keys - paid == (outcome.Keys - (paid + {p})) + {p};
      SumPart(outcome, paid + {p});
      RewardsSum(outcome, paid + {p}, p);
      assert paid + {p} - {p} == paid;
    }
  }

  /** The source debits and counts in one write; the rule does so in two. */
  lemma BumpThenSet(v: View, a: string, n: uint64)
    requires AccountOf(v, a).nonce < MAX_UINT64
    ensures SetBalance(Bump(v, a), a, n) == Put(v, AccountV(Account(a, n, AccountOf(v, a).nonce + 1)))
  {
  }

  class Executor {
    const state: StateDB
    var log: seq<Event>

    constructor (s: StateDB)
      ensures state == s && log == []
    {
      state, log := s, [];
    }

    method HandleTransfer(tx: Transaction, to: string, amount: uint64) returns (err: Option<Error>)
      requires state.Valid()
      modifies this`log, state`dirty, state`deleted
      ensures state.Valid()
      ensures Reports(TransferTokens(old(state.View()), tx.body.from, to, amount), err, state.View(), old(log), log)
    {
      hide Overlay, GoodDb, GoodBuffer, Put, AccountOf;
      if amount == 0 {
        return Some(ZeroAmount);
      }
      if to == "" {
        return Some(MissingRecipient);
      }
      if !IsPubKeyHex(to) {
        return Some(BadRecipientKey);
      }
      var sender := state.GetAccount(tx.body.from);
      if sender.balance < amount {
        return Some(Insufficient);
      }
      state.SetAccount(sender.(balance := sender.balance - amount));
      var recipient := state.GetAccount(to);
      if recipient.balance > MAX_UINT64 - amount {
        return Some(RecipientOverflow);
      }
      state.SetAccount(recipient.(balance := recipient.balance + amount));
      log := log + [TokenTransferred(tx.body.from, to, amount)];
      return None;
    }

    method HandleRegisterTemplate(tx: Transaction, id: string, name: string, schema: string, tradeable: bool)
      returns (err: Option<Error>)
      requires state.Valid()
      modifies this`log, state`dirty, state`deleted
      ensures state.Valid()
      ensures Reports(Register(old(state.View()), tx.body.from, id, name, schema, tradeable), err,
                      state.View(), old(log), log)
    {
      if id == "" {
        return Some(MissingTemplateID);
      }
      var existing := state.GetTemplate(id);
      if existing.Some? {
        return Some(TemplateExists);
      }
      state.Set(TemplateV(Template(id, name, schema, tradeable, tx.body.from)));
      log := log + [TemplateRegistered(id)];
      return None;
    }

    method HandleMintAsset(h: Header, tx: Transaction, templateID: string, owner: string, properties: string)
      returns (err: Option<Error>)
      requires state.Valid()
      modifies this`log, state`dirty, state`deleted
      ensures state.Valid()
      ensures Reports(Mint(old(state.View()), h, tx, templateID, owner, properties), err, state.View(), old(log), log)
    {
      if templateID == "" {
        return Some(MissingTemplateID);
      }
      var tmpl := state.GetTemplate(templateID);
      if tmpl.None? {
        return Some(TemplateMissing);
      }
      var holder := owner;
      if holder == "" {
        holder := tx.body.from;
      } else if !IsPubKeyHex(holder) {
        return Some(BadOwnerKey);
      }
      var id := Hash(tx.id + ":asset:" + templateID);
      state.Set(AssetV(Asset(id, templateID, holder, properties, tmpl.value.tradeable, h.timestamp, "")));
      log := log + [AssetMinted(id, holder)];
      return None;
    }

    method HandleBurnAsset(tx: Transaction, assetID: string) returns (err: Option<Error>)
      requires state.Valid()
      modifies this`log, state`dirty, state`deleted
      ensures state.Valid()
      ensures Reports(Burn(old(state.View()), tx.body.from, assetID), err, state.View(), old(log), log)
    {
      var asset := state.GetAsset(assetID);
      if asset.None? {
        return Some(AssetMissing);
      }
      if asset.value.owner != tx.body.from {
        return Some(NotOwner);
      }
      if asset.value.activeListingID != "" {
        return Some(AssetListed);
      }
      state.Del(AssetKey(assetID));
      log := log + [AssetBurned(assetID, asset.value.owner)];
      return None;
    }

    method HandleTransferAsset(tx: Transaction, assetID: string, to: string) returns (err: Option<Error>)
      requires state.Valid()
      modifies this`log, state`dirty, state`deleted
      ensures state.Valid()
      ensures Reports(GiveAsset(old(state.View()), tx.body.from, assetID, to), err, state.View(), old(log), log)
    {
      if to == "" {
        return Some(MissingRecipient);
      }
      if !IsPubKeyHex(to) {
        return Some(BadRecipientKey);
      }
      var asset := state.GetAsset(assetID);
      if asset.None? {
        return Some(AssetMissing);
      }
      if asset.value.owner != tx.body.from {
        return Some(NotOwner);
      }
      if !asset.value.tradeable {
        return Some(NotTradeable);
      }
      if asset.value.activeListingID != "" {
        return Some(AssetListed);
      }
      state.Set(AssetV(asset.value.(owner := to)));
      log := log + [AssetTransferred(assetID, tx.body.from, to)];
      return None;
    }

    /** The stake loop of `handleSessionOpen`. */
    method LockStakes(players: seq<string>, stakes: uint64) returns (ok: bool)
      requires state.Valid()
      modifies state`dirty, state`deleted
      ensures state.Valid()
      ensures ok <==> DebitEach(old(state.View()), players, stakes).Some?
      ensures ok ==> state.View() == DebitEach(old(state.View()), players, stakes).value
    {
      hide Overlay, GoodDb, GoodBuffer, Put, AccountOf;
      ghost var v := state.View();
      for i := 0 to |players|
        invariant state.Valid()
        invariant DebitEach(v, players[..i], stakes) == Some(state.View())
      {
        assert players[..i + 1][..i] == players[..i];
        var acc := state.GetAccount(players[i]);
        if acc.balance < stakes {
          DebitEachStops(v, players, stakes, i + 1);
          return false;
        }
        state.SetAccount(acc.(balance := acc.balance - stakes));
      }
      assert players[..|players|] == players;
      return true;
    }

    method HandleSessionOpen(h: Header, tx: Transaction, id: string, gameID: string, players: seq<string>,
                             stakes: uint64)
      returns (err: Option<Error>)
      requires state.Valid()
      modifies this`log, state`dirty, state`deleted
      ensures state.Valid()
      ensures Reports(OpenSession(old(state.View()), h, tx.body.from, id, gameID, players, stakes), err,
                      state.View(), old(log), log)
    {
      if id == "" {
        return Some(MissingSessionID);
      }
      if |players| == 0 {
        return Some(NoPlayers);
      }
      var existing := state.GetSession(id);
      if existing.Some? {
        return Some(SessionExists);
      }
      if stakes > 0 {
        var ok := LockStakes(players, stakes);
        if !ok {
          return Some(Insufficient);
        }
      }
      state.Set(SessionV(Session(id, gameID, tx.body.from, players, stakes, Open, Some(map[]), h.timestamp, 0)));
      log := log + [SessionOpened(id)];
      return None;
    }

    /** `handleSessionResult`, first loop: every recipient, met in any order, must be a player. */
    static method CheckRecipients(players: seq<string>, outcome: map<string, uint64>) returns (ok: bool)
      ensures ok <==> forall p :: p in outcome ==> p in players
    {
      var playerSet: set<string> := {};
      for i := 0 to |players|
        invariant playerSet == set p | p in players[..i]
      {
        assert players[..i + 1] == players[..i] + [players[i]];
        playerSet := playerSet + {players[i]};
      }
      assert players[..|players|] == players;
      var rest := outcome.Keys;
      while rest != {}
        invariant rest <= outcome.Keys
        invariant forall p :: p in outcome && p !in rest ==> p in players
      {
        var p :| p in rest;
        if p !in playerSet {
          return false;
        }
        rest := rest - {p};
      }
      return true;
    }

    /** Second loop: add up the rewards, met in any order, without wrapping around. */
    static method CheckRewards(totalStakes: uint64, outcome: map<string, uint64>) returns (err: Option<Error>)
      ensures err == if Sum(outcome) > totalStakes then Some(RewardsExceed)
                     else if Sum(outcome) < totalStakes then Some(RewardsShort) else None
    {
      var totalRewards: uint64 := 0;
      var rest := outcome.Keys;
      assert Rewards(outcome, outcome.Keys - rest) == map[];
      while rest != {}
        invariant rest <= outcome.Keys && totalRewards <= totalStakes
        invariant totalRewards == Sum(Rewards(outcome, outcome.Keys - rest))
      {
        var p :| p in rest;
        var reward := outcome[p];
        ghost var met := outcome.Keys - (rest - {p});
        RewardsSum(outcome, met, p);
        assert met - {p} == outcome.Keys - rest;
        if reward > totalStakes - totalRewards {
          SumPart(outcome, met);
          return Some(RewardsExceed);
        }
        totalRewards := totalRewards + reward;
        rest := rest - {p};
      }
      assert Rewards(outcome, outcome.Keys - rest) == outcome;
      if totalRewards != totalStakes {
        return Some(RewardsShort);
      }
      return None;
    }

    /** Third loop: pay the recipients, met in any order. */
    method Distribute(outcome: map<string, uint64>) returns (ok: bool)
      requires state.Valid()
      modifies state`dirty, state`deleted
      ensures state.Valid()
      ensures ok <==> AllPayable(old(state.View()), outcome, outcome.Keys)
      ensures ok ==> state.View() == Pay(old(state.View()), outcome, outcome.Keys)
    {
      hide Overlay, GoodDb, GoodBuffer, Pay;
      ghost var v := state.View();
      var rest := outcome.Keys;
      assert outcome.Keys - rest == {};
      PayNone(v, outcome);
      while rest != {}
        invariant rest <= outcome.Keys && state.Valid()
        invariant AllPayable(v, outcome, outcome.Keys - rest)
        invariant state.View() == Pay(v, outcome, outcome.Keys - rest)
      {
        var p :| p in rest;
        var reward := outcome[p];
        ghost var paid := outcome.Keys - rest;
        PayAt(v, outcome, paid, AccountKey(p));
        var acc := state.GetAccount(p);
        if acc.balance > MAX_UINT64 - reward {
          assert !Payable(v, outcome, p);
          return false;
        }
        assert AllPayable(v, outcome, paid + {p});
        PayOne(v, outcome, paid, p);
        assert paid + {p} == outcome.Keys - (rest - {p});
        state.SetAccount(acc.(balance := acc.balance + reward));
        rest := rest - {p};
      }
      assert outcome.Keys - rest == outcome.Keys;
      return true;
    }

    method HandleSessionResult(h: Header, tx: Transaction, id: string, result: Payout)
      returns (err: Option<Error>)
      requires state.Valid()
      modifies this`log, state`dirty, state`deleted
      ensures state.Valid()
      ensures Reports(Settle(old(state.View()), h, tx.body.from, id, result), err, state.View(), old(log), log)
    {
      var outcome := Entries(result);
      var found := state.GetSession(id);
      if found.None? {
        return Some(SessionMissing);
      }
      var sess := found.value;
      if sess.status.Closed? {
        return Some(SessionOver);
      }
      if tx.body.from != sess.creator {
        return Some(NotCreator);
      }
      var known := CheckRecipients(sess.players, outcome);
      if !known {
        return Some(NotAPlayer);
      }
      var nPlayers := |sess.players|;
      if sess.stakes > 0 {
        MultiplicationBound(sess.stakes, nPlayers);
      }
      if sess.stakes > 0 && nPlayers > MAX_UINT64 / sess.stakes {
        return Some(StakesOverflow);
      }
      var unfair := CheckRewards(sess.stakes * nPlayers, outcome);
      if unfair.Some? {
        return unfair;
      }
      var ok := Distribute(outcome);
      if !ok {
        return Some(RewardOverflow);
      }
      state.Set(SessionV(sess.(status := Closed, outcome := result, closedAt := h.timestamp)));
      log := log + [SessionEnded(id)];
      return None;
    }

    method HandleListMarket(h: Header, tx: Transaction, assetID: string, price: uint64) returns (err: Option<Error>)
      requires state.Valid()
      modifies this`log, state`dirty, state`deleted
      ensures state.Valid()
      ensures Reports(ListForSale(old(state.View()), h, tx, assetID, price), err, state.View(), old(log), log)
    {
      if price == 0 {
        return Some(ZeroPrice);
      }
      var asset := state.GetAsset(assetID);
      if asset.None? {
        return Some(AssetMissing);
      }
      if asset.value.owner != tx.body.from {
        return Some(NotOwner);
      }
      if !asset.value.tradeable {
        return Some(NotTradeable);
      }
      if asset.value.activeListingID != "" {
        return Some(AssetListed);
      }
      var id := Hash(tx.id + ":listing:" + assetID);
      state.Set(ListingV(Listing(id, assetID, tx.body.from, price, true, h.timestamp)));
      state.Set(AssetV(asset.value.(activeListingID := id)));
      log := log + [MarketListed(id, assetID)];
      return None;
    }

    method HandleBuyMarket(tx: Transaction, listingID: string) returns (err: Option<Error>)
      requires state.Valid()
      modifies this`log, state`dirty, state`deleted
      ensures state.Valid()
      ensures Reports(Buy(old(state.View()), tx.body.from, listingID), err, state.View(), old(log), log)
    {
      hide Overlay, GoodDb, GoodBuffer, Put, AccountOf, AssetOf, ListingOf;
      var found := state.GetListing(listingID);
      if found.None? {
        return Some(ListingMissing);
      }
      var listing := found.value;
      if !listing.active {
        return Some(ListingInactive);
      }
      if listing.seller == tx.body.from {
        return Some(OwnListing);
      }
      var buyer := state.GetAccount(tx.body.from);
      if buyer.balance < listing.price {
        return Some(Insufficient);
      }
      state.SetAccount(buyer.(balance := buyer.balance - listing.price));
      var seller := state.GetAccount(listing.seller);
      if seller.balance > MAX_UINT64 - listing.price {
        return Some(SellerOverflow);
      }
      state.SetAccount(seller.(balance := seller.balance + listing.price));
      var asset := state.GetAsset(listing.assetID);
      if asset.None? {
        return Some(AssetMissing);
      }
      state.Set(AssetV(asset.value.(owner := tx.body.from, activeListingID := "")));
      state.Set(ListingV(listing.(active := false)));
      log := log + [MarketBought(listingID, listing.assetID, tx.body.from, listing.seller)];
      return None;
    }

    /** The dispatch of `Registry.Execute`. */
    method Handle(h: Header, tx: Transaction, c: Call) returns (err: Option<Error>)
      requires state.Valid()
      modifies this`log, state`dirty, state`deleted
      ensures state.Valid()
      ensures Reports(Dispatch(old(state.View()), h, tx, c), err, state.View(), old(log), log)
    {
      match c {
        case Transfer(to, amount) => err := HandleTransfer(tx, to, amount);
        case MintAsset(t, owner, properties) => err := HandleMintAsset(h, tx, t, owner, properties);
        case BurnAsset(id) => err := HandleBurnAsset(tx, id);
        case TransferAsset(id, to) => err := HandleTransferAsset(tx, id, to);
        case RegisterTemplate(id, name, schema, tradeable) =>
          err := HandleRegisterTemplate(tx, id, name, schema, tradeable);
        case SessionOpen(id, game, players, stakes) => err := HandleSessionOpen(h, tx, id, game, players, stakes);
        case SessionResult(id, result) => err := HandleSessionResult(h, tx, id, result);
        case ListMarket(id, price) => err := HandleListMarket(h, tx, id, price);
        case BuyMarket(id) => err := HandleBuyMarket(tx, id);
      }
    }

    /** The first part of `applyTx`: fee, nonce and proposer credit. */
    method ChargeFee(h: Header, tx: Transaction) returns (err: Option<Error>)
      requires state.Valid()
      modifies state`dirty, state`deleted
      ensures state.Valid()
      ensures match Charge(old(state.View()), h.proposer, tx.body)
              case Ok(w) => err == None && state.View() == w
              case Err(e) => err == Some(e)
    {
      hide Overlay, GoodDb, GoodBuffer, Put, AccountOf;
      var acc := state.GetAccount(tx.body.from);
      if acc.nonce != tx.body.nonce {
        return Some(BadNonce);
      }
      if acc.balance < tx.body.fee {
        return Some(FeeUnpaid);
      }
      if acc.nonce == MAX_UINT64 {
        return Some(NonceExhausted);
      }
      BumpThenSet(state.View(), tx.body.from, acc.balance - tx.body.fee);
      acc := acc.(balance := acc.balance - tx.body.fee);
      acc := acc.(nonce := acc.nonce + 1);
      if tx.body.fee > 0 && h.proposer != "" && tx.body.from != h.proposer {
        state.SetAccount(acc);
        var proposer := state.GetAccount(h.proposer);
        if proposer.balance > MAX_UINT64 - tx.body.fee {
          return Some(ProposerOverflow);
        }
        state.SetAccount(proposer.(balance := proposer.balance + tx.body.fee));
      } else {
        if tx.body.fee > 0 && tx.body.from == h.proposer {
          acc := acc.(balance := acc.balance + tx.body.fee);
        }
        state.SetAccount(acc);
      }
      return None;
    }

    method Apply(h: Header, tx: Transaction) returns (err: Option<Error>)
      requires state.Valid()
      modifies this`log, state`dirty, state`deleted
      ensures state.Valid()
      ensures Reports(ApplyTx(old(state.View()), h, tx), err, state.View(), old(log), log)
    {
      err := ChargeFee(h, tx);
      if err.Some? {
        return;
      }
      if tx.body.txType !in REGISTERED {
        return Some(NoHandler);
      }
      var call := Decode(tx.body.txType, tx.body.payload);
      if call.None? {
        return Some(BadPayload);
      }
      err := Handle(h, tx, call.value);
    }

    /** A failing transaction leaves the buffer and the snapshot stack exactly as they were, so its
        own rollback never fails; a successful one leaves its snapshot behind. */
    method ExecuteOne(h: Header, tx: Transaction) returns (err: Option<Error>)
      requires state.Valid()
      modifies this`log, state`dirty, state`deleted, state`snapshots
      ensures state.Valid()
      ensures match ExecuteTx(old(state.View()), h, tx)
              case Ok(e) => err == None && state.View() == e.view && log == old(log) + [e.event, TxExecuted(tx.id)]
              case Err(x) => err == Some(x) && log == old(log) && state.Pending() == old(state.Pending())
      ensures err.Some? ==> state.snapshots == old(state.snapshots)
      ensures err.None? ==> state.snapshots == old(state.snapshots) + [old(state.Pending())]
    {
      if !Verified(tx) {
        return Some(BadSignature);
      }
      var snapID := state.Snapshot();
      err := Apply(h, tx);
      if err.Some? {
        var reverted := state.RevertToSnapshot(snapID);
        assert reverted;
        return;
      }
      log := log + [TxExecuted(tx.id)];
    }

    /** Runs the transactions in order up to the first failure, whose predecessors stay in effect. The
        snapshots that were on the stack stay below those the transactions leave. */
    method ExecuteAll(h: Header, txs: seq<Transaction>) returns (err: Option<Error>)
      requires state.Valid()
      modifies this`log, state`dirty, state`deleted, state`snapshots
      ensures state.Valid()
      ensures var r := RunTxs(old(state.View()), h, txs);
              err == r.error && state.View() == r.view && log == old(log) + r.events
      ensures old(state.snapshots) <= state.snapshots
    {
      ghost var v := state.View();
      hide ExecuteTx, Overlay, GoodDb, GoodBuffer;
      for i := 0 to |txs|
        invariant state.Valid()
        invariant old(state.snapshots) <= state.snapshots && state.db == old(state.db)
        invariant var r := RunTxs(v, h, txs[..i]);
                  r.error == None && state.View() == r.view && log == old(log) + r.events
      {
        assert txs[..i + 1][..i] == txs[..i];
        err := ExecuteOne(h, txs[i]);
        if err.Some? {
          RunStops(v, h, txs, i + 1);
          return;
        }
      }
      assert txs[..|txs|] == txs;
      return None;
    }
  }
}
