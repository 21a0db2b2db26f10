/** What a run can do to one record: assets, templates and sessions from birth to end. */
module Lifetimes {
  import opened Wrappers
  import opened Types
  import opened State
  import opened Sums
  import opened Rules
  import opened Conservation
  import opened History
  import opened Market
  import opened Ledger

  // ---- Assets ----

  /** The only things one transaction can do to an existing asset. */
  ghost predicate AssetStep(v: View, w: View, tx: Transaction, c: Call, id: string) {
    AssetOf(v, id).Some? ==>
      var a, b, from := AssetOf(v, id).value, AssetOf(w, id), tx.body.from;
      || b == Some(a)
      || (b.None? && c == BurnAsset(id) && a.owner == from && a.activeListingID == "")
      || (a.tradeable && a.owner == from && a.activeListingID == "" && c.TransferAsset? && c.assetID == id
          && b == Some(a.(owner := c.to)))
      || (a.tradeable && a.owner == from && a.activeListingID == "" && c.ListMarket? && c.assetID == id
          && b == Some(a.(activeListingID := ListingID(tx.id, id))))
      || (a.tradeable && a.owner != from && a.activeListingID != "" && c == BuyMarket(a.activeListingID)
          && b == Some(a.(owner := from, activeListingID := "")))
  }

  lemma MintStep(v: View, hist: seq<Transaction>, h: Header, tx: Transaction, t: string, owner: string,
                 properties: string, id: string)
    requires Sourced(v, hist) && WellNumbered(hist + [tx]) && Mint(v, h, tx, t, owner, properties).Ok?
    ensures AssetStep(v, Mint(v, h, tx, t, owner, properties).value.view, tx, MintAsset(t, owner, properties), id)
    ensures Minted(hist, id) ==> AssetOf(Mint(v, h, tx, t, owner, properties).value.view, id) == AssetOf(v, id)
  {
    DerivedIdsAreNew(hist, tx, t);
  }

  lemma BuyStep(v: View, h: Header, tx: Transaction, lid: string, id: string)
    requires Linked(v) && Buy(v, tx.body.from, lid).Ok?
    ensures AssetStep(v, Buy(v, tx.body.from, lid).value.view, tx, BuyMarket(lid), id)
    ensures AssetOf(v, id).None? ==> AssetOf(Buy(v, tx.body.from, lid).value.view, id).None?
  {
    var from := tx.body.from;
    BuyResult(v, from, lid);
    hide Buy;
    var l := ListingOf(v, lid).value;
    assert ListingLinked(v, lid) && AssetLinked(v, l.assetID);
    assert SameAt(v, Buy(v, from, lid).value.view, AssetKey(id)) || id == l.assetID;
  }

  /** The handlers that write one asset, or none, without touching balances. */
  lemma PlainStep(v: View, h: Header, tx: Transaction, c: Call, id: string)
    requires c.BurnAsset? || c.TransferAsset? || c.RegisterTemplate? || c.ListMarket?
    requires Dispatch(v, h, tx, c).Ok?
    ensures AssetStep(v, Dispatch(v, h, tx, c).value.view, tx, c, id)
    ensures AssetOf(v, id).None? ==> AssetOf(Dispatch(v, h, tx, c).value.view, id).None?
  {
    hide TransferTokens, Mint, OpenSession, Settle, Buy;
  }

  /** An asset changes only as listed above, and an asset that is gone never comes back. */
  lemma DispatchAsset(v: View, hist: seq<Transaction>, h: Header, tx: Transaction, c: Call, id: string)
    requires MarketInv(v, hist) && WellNumbered(hist + [tx]) && Dispatch(v, h, tx, c).Ok?
    ensures AssetStep(v, Dispatch(v, h, tx, c).value.view, tx, c, id)
    ensures AssetOf(v, id).None? && Minted(hist, id) ==> AssetOf(Dispatch(v, h, tx, c).value.view, id).None?
  {
    var from := tx.body.from;
    var w := Dispatch(v, h, tx, c).value.view;
    hide Minted, WellNumbered;
    hide TransferTokens, Mint, Burn, GiveAsset, Register, OpenSession, Settle, ListForSale, Buy;
    match c
    case MintAsset(t, owner, properties) => MintStep(v, hist, h, tx, t, owner, properties, id);
    case BuyMarket(lid) => BuyStep(v, h, tx, lid, id);
    case Transfer(to, amount) => TransferGoods(v, from, to, amount); assert SameAt(v, w, AssetKey(id));
    case SessionOpen(sid, game, players, stakes) =>
      OpenGoods(v, h, from, sid, game, players, stakes);
      assert SameAt(v, w, AssetKey(id));
    case SessionResult(sid, result) => SettleGoods(v, h, from, sid, result); assert SameAt(v, w, AssetKey(id));
    case BurnAsset(_) => PlainStep(v, h, tx, c, id);
    case TransferAsset(_, _) => PlainStep(v, h, tx, c, id);
    case RegisterTemplate(_, _, _, _) => PlainStep(v, h, tx, c, id);
    case ListMarket(_, _) => PlainStep(v, h, tx, c, id);
  }

  /** The asset is as it was, or it has been burned. */
  ghost predicate KeptOrGone(v: View, a: Asset) {
    AssetOf(v, a.id).None? || AssetOf(v, a.id) == Some(a)
  }

  lemma FrozenStep(v: View, hist: seq<Transaction>, h: Header, tx: Transaction, a: Asset)
    requires MarketInv(v, hist) && WellNumbered(hist + [tx]) && ExecuteTx(v, h, tx).Ok?
    requires !a.tradeable && Minted(hist, a.id) && KeptOrGone(v, a)
    ensures KeptOrGone(ExecuteTx(v, h, tx).value.view, a)
    ensures AssetOf(v, a.id).None? ==> AssetOf(ExecuteTx(v, h, tx).value.view, a.id).None?
  {
    var w, c := TxParts(v, h, tx);
    hide MarketInv, WellNumbered, ExecuteTx, Dispatch;
    ChargeGoods(v, h.proposer, tx.body);
    assert SameAt(v, w, AssetKey(a.id));
    FrameMarket(v, w, hist);
    DispatchAsset(w, hist, h, tx, c, a.id);
  }

  lemma {:induction false} FrozenRun(v: View, hist: seq<Transaction>, supply: nat, h: Header, txs: seq<Transaction>,
                                     a: Asset)
    requires Inv(v, hist, supply) && h.proposer != ""
    requires !a.tradeable && Minted(hist, a.id) && KeptOrGone(v, a)
    ensures KeptOrGone(RunTxs(v, h, txs).view, a)
    ensures AssetOf(v, a.id).None? ==> AssetOf(RunTxs(v, h, txs).view, a.id).None?
  {
    hide Inv, Minted, ExecuteTx;
    if txs != [] {
      var n := |txs| - 1;
      FrozenRun(v, hist, supply, h, txs[..n], a);
      var before := RunTxs(v, h, txs[..n]);
      if before.error.None? && ExecuteTx(before.view, h, txs[n]).Ok? {
        RunKeepsInv(v, hist, supply, h, txs[..n]);
        assert txs[..n][..n] == txs[..n];
        StepReady(before.view, hist + txs[..n], supply, h, txs[n]);
        MintedPrefix(hist, txs[..n], a.id);
        FrozenStep(before.view, hist + txs[..n], h, txs[n], a);
      }
    }
  }

  lemma StepReady(v: View, hist: seq<Transaction>, supply: nat, h: Header, tx: Transaction)
    requires Inv(v, hist, supply) && ExecuteTx(v, h, tx).Ok?
    ensures MarketInv(v, hist) && WellNumbered(hist + [tx])
  {
    TxNumbered(v, hist, h, tx);
  }

  lemma MintedPrefix(hist: seq<Transaction>, more: seq<Transaction>, id: string)
    requires Minted(hist, id)
    ensures Minted(hist + more, id)
  {
    var i, m :| 0 <= i < |hist| && AssetID(hist[i].id, m) == id;
    assert AssetID((hist + more)[i].id, m) == id;
  }

  /** A non-tradeable asset keeps its owner, and everything else, until it is burned; once burned it
      stays so. This holds over every run of accepted blocks. */
  lemma {:induction false} FrozenForever(v: View, hist: seq<Transaction>, supply: nat, blocks: seq<Block>, a: Asset)
    requires Inv(v, hist, supply) && Proposed(blocks) && Replay(v, blocks).Some?
    requires !a.tradeable && Minted(hist, a.id) && KeptOrGone(v, a)
    ensures KeptOrGone(Replay(v, blocks).value, a)
    ensures AssetOf(v, a.id).None? ==> AssetOf(Replay(v, blocks).value, a.id).None?
  {
    hide Inv, Minted;
    if blocks != [] {
      var n := |blocks| - 1;
      var b := blocks[n];
      FrozenForever(v, hist, supply, blocks[..n], a);
      ReplayKeepsInv(v, hist, supply, blocks[..n]);
      MintedPrefix(hist, AllTxs(blocks[..n]), a.id);
      FrozenRun(Replay(v, blocks[..n]).value, hist + AllTxs(blocks[..n]), supply, b.header, b.txs, a);
    }
  }

  // ---- Templates and sessions ----

  /** Templates are write-once, sessions are never reopened, and a closed session never changes. */
  ghost predicate Persists(v: View, w: View) {
    && (forall id :: TemplateOf(v, id).Some? ==> TemplateOf(w, id) == TemplateOf(v, id))
    && (forall id :: SessionOf(v, id).Some? ==> SessionPersists(v, w, id))
  }

  ghost predicate SessionPersists(v: View, w: View, id: string)
    requires SessionOf(v, id).Some?
  {
    SessionOf(w, id).Some? &&
    var s, t := SessionOf(v, id).value, SessionOf(w, id).value;
    t == s || (s.status.Open? && t == s.(status := Closed, outcome := t.outcome, closedAt := t.closedAt)
               && Sum(Entries(t.outcome)) == Escrow(s))
  }

  lemma PersistsTransitive(u: View, v: View, w: View)
    requires Persists(u, v) && Persists(v, w)
    ensures Persists(u, w)
  {
    forall id | SessionOf(u, id).Some?
      ensures SessionPersists(u, w, id)
    {
      assert SessionPersists(u, v, id) && SessionPersists(v, w, id);
    }
  }

  /** Steps that write no template and no session. */
  ghost predicate SameDeeds(v: View, w: View) {
    forall k: Key :: k.SessionKey? || k.TemplateKey? ==> SameAt(v, w, k)
  }

  lemma SameDeedsPersist(v: View, w: View)
    requires SameDeeds(v, w)
    ensures Persists(v, w)
  {
    forall id
      ensures TemplateOf(v, id).Some? ==> TemplateOf(w, id) == TemplateOf(v, id)
      ensures SessionOf(v, id).Some? ==> SessionPersists(v, w, id)
    {
      assert SameAt(v, w, TemplateKey(id)) && SameAt(v, w, SessionKey(id));
    }
  }

  lemma OpenPersists(v: View, h: Header, from: string, id: string, game: string, players: seq<string>, stakes: uint64)
    requires OpenSession(v, h, from, id, game, players, stakes).Ok?
    ensures Persists(v, OpenSession(v, h, from, id, game, players, stakes).value.view)
  {
    var w := if stakes > 0 then DebitEach(v, players, stakes).value else v;
    forall k: Key | !k.AccountKey?
      ensures SameAt(v, w, k)
    {
      if stakes > 0 {
        DebitEachFrame(v, players, stakes, k);
      }
    }
    var x := OpenSession(v, h, from, id, game, players, stakes).value.view;
    forall i
      ensures TemplateOf(v, i).Some? ==> TemplateOf(x, i) == TemplateOf(v, i)
      ensures SessionOf(v, i).Some? ==> SessionPersists(v, x, i)
    {
      assert SameAt(v, w, TemplateKey(i)) && SameAt(v, w, SessionKey(i));
    }
  }

  lemma SettlePersists(v: View, h: Header, from: string, id: string, result: Payout)
    requires Settle(v, h, from, id, result).Ok?
    ensures Persists(v, Settle(v, h, from, id, result).value.view)
    ensures SessionOf(Settle(v, h, from, id, result).value.view, id).Some?
    ensures SessionOf(Settle(v, h, from, id, result).value.view, id).value.status.Closed?
  {
    var outcome := Entries(result);
    hide Pay, AllPayable, Sum;
    var w := Settle(v, h, from, id, result).value.view;
    forall i
      ensures TemplateOf(v, i).Some? ==> TemplateOf(w, i) == TemplateOf(v, i)
      ensures SessionOf(v, i).Some? ==> SessionPersists(v, w, i)
    {
      PayAt(v, outcome, outcome.Keys, TemplateKey(i));
      PayAt(v, outcome, outcome.Keys, SessionKey(i));
    }
  }

  lemma BuyDeeds(v: View, from: string, id: string)
    requires Buy(v, from, id).Ok?
    ensures SameDeeds(v, Buy(v, from, id).value.view)
  {
    hide Buy;
    BuyResult(v, from, id);
  }

  lemma TransferDeeds(v: View, from: string, to: string, amount: uint64)
    requires TransferTokens(v, from, to, amount).Ok?
    ensures SameDeeds(v, TransferTokens(v, from, to, amount).value.view)
  {
  }

  lemma PlainPersists(v: View, h: Header, tx: Transaction, c: Call)
    requires c.MintAsset? || c.BurnAsset? || c.TransferAsset? || c.RegisterTemplate? || c.ListMarket?
    requires Dispatch(v, h, tx, c).Ok?
    ensures Persists(v, Dispatch(v, h, tx, c).value.view)
  {
    hide TransferTokens, OpenSession, Settle, Buy;
    var w := Dispatch(v, h, tx, c).value.view;
    if c.RegisterTemplate? {
      forall i | SessionOf(v, i).Some?
        ensures SessionPersists(v, w, i)
      {
      }
    } else {
      assert SameDeeds(v, w);
      SameDeedsPersist(v, w);
    }
  }

  lemma DispatchPersists(v: View, h: Header, tx: Transaction, c: Call)
    requires Dispatch(v, h, tx, c).Ok?
    ensures Persists(v, Dispatch(v, h, tx, c).value.view)
  {
    var from := tx.body.from;
    var w := Dispatch(v, h, tx, c).value.view;
    hide Persists, TransferTokens, Mint, Burn, GiveAsset, Register, OpenSession, Settle, ListForSale, Buy;
    match c
    case SessionOpen(id, game, players, stakes) => OpenPersists(v, h, from, id, game, players, stakes);
    case SessionResult(id, result) => SettlePersists(v, h, from, id, result);
    case Transfer(to, amount) => TransferDeeds(v, from, to, amount); SameDeedsPersist(v, w);
    case BuyMarket(id) => BuyDeeds(v, from, id); SameDeedsPersist(v, w);
    case RegisterTemplate(_, _, _, _) => PlainPersists(v, h, tx, c);
    case MintAsset(_, _, _) => PlainPersists(v, h, tx, c);
    case BurnAsset(_) => PlainPersists(v, h, tx, c);
    case TransferAsset(_, _) => PlainPersists(v, h, tx, c);
    case ListMarket(_, _) => PlainPersists(v, h, tx, c);
  }

  lemma ChargeDeeds(v: View, proposer: string, b: TxBody)
    requires Charge(v, proposer, b).Ok?
    ensures SameDeeds(v, Charge(v, proposer, b).value)
  {
  }

  lemma {:induction false} RunPersists(v: View, h: Header, txs: seq<Transaction>)
    ensures Persists(v, RunTxs(v, h, txs).view)
  {
    hide Persists, ExecuteTx;
    if txs == [] {
      SameDeedsPersist(v, v);
    } else {
      var n := |txs| - 1;
      RunPersists(v, h, txs[..n]);
      var before := RunTxs(v, h, txs[..n]);
      if before.error.None? && ExecuteTx(before.view, h, txs[n]).Ok? {
        var w, c := TxParts(before.view, h, txs[n]);
        ChargeDeeds(before.view, h.proposer, txs[n].body);
        SameDeedsPersist(before.view, w);
        DispatchPersists(w, h, txs[n], c);
        PersistsTransitive(before.view, w, Dispatch(w, h, txs[n], c).value.view);
        PersistsTransitive(v, before.view, Dispatch(w, h, txs[n], c).value.view);
      }
    }
  }

  /** Over every run of accepted blocks. */
  lemma {:induction false} ReplayPersists(v: View, blocks: seq<Block>)
    requires Replay(v, blocks).Some?
    ensures Persists(v, Replay(v, blocks).value)
  {
    hide Persists;
    if blocks == [] {
      SameDeedsPersist(v, v);
    } else {
      var n := |blocks| - 1;
      ReplayPersists(v, blocks[..n]);
      var w := Replay(v, blocks[..n]).value;
      RunPersists(w, blocks[n].header, blocks[n].txs);
      PersistsTransitive(v, w, Replay(v, blocks).value);
    }
  }

  // ---- Settlement ----

  /** The creator of an open session distributes the whole escrow among its players. */
  ghost predicate FairResult(v: View, from: string, id: string, result: Payout) {
    && SessionOf(v, id).Some?
    && var s := SessionOf(v, id).value;
    && s.status.Open? && from == s.creator
    && (forall p :: p in Entries(result) ==> p in s.players)
    && Sum(Entries(result)) == s.stakes * |s.players|
  }

  /** A settlement is accepted exactly when it is such a result, the escrow fits in 64 bits and every
      recipient can take its reward. While the supply fits in 64 bits, the last two always hold. */
  lemma SettlementExact(v: View, h: Header, from: string, id: string, result: Payout)
    ensures Settle(v, h, from, id, result).Ok? <==>
            && FairResult(v, from, id, result) && Sum(Entries(result)) <= MAX_UINT64
            && forall p :: p in Entries(result) ==> Balance(v, p) + Entries(result)[p] <= MAX_UINT64
    ensures Total(v) <= MAX_UINT64 ==> (Settle(v, h, from, id, result).Ok? <==> FairResult(v, from, id, result))
  {
    hide Total;
    if Total(v) <= MAX_UINT64 {
      SettleNoOverflow(v, h, from, id, result);
    }
    var outcome := Entries(result);
    assert AllPayable(v, outcome, outcome.Keys) <==> forall p :: p in outcome ==> Payable(v, outcome, p);
  }

  /** A session that has been settled is refused ever after. */
  lemma SettledOnce(v: View, h: Header, from: string, id: string, result: Payout,
                    blocks: seq<Block>, h': Header, from': string, result': Payout)
    requires Settle(v, h, from, id, result).Ok?
    requires Replay(Settle(v, h, from, id, result).value.view, blocks).Some?
    ensures var w := Replay(Settle(v, h, from, id, result).value.view, blocks).value;
            Settle(w, h', from', id, result') == Err(SessionOver)
  {
    var w := Settle(v, h, from, id, result).value.view;
    SettlePersists(v, h, from, id, result);
    ReplayPersists(w, blocks);
    assert SessionPersists(w, Replay(w, blocks).value, id);
  }

  /** What a player owes: one stake for every time the player is named. */
  function Owed(players: seq<string>, stakes: uint64, p: string): nat {
    stakes * multiset(players)[p]
  }

  lemma OwedLast(players: seq<string>, stakes: uint64, p: string)
    requires players != []
    ensures var n := |players| - 1;
            Owed(players, stakes, p) == Owed(players[..n], stakes, p) + if p == players[n] then stakes else 0
  {
    var n := |players| - 1;
    assert players == players[..n] + [players[n]];
    assert multiset(players)[p] == multiset(players[..n])[p] + if p == players[n] then 1 else 0;
  }

  lemma {:induction false} StakesTaken(v: View, players: seq<string>, stakes: uint64, p: string)
    requires DebitEach(v, players, stakes).Some?
    ensures Balance(DebitEach(v, players, stakes).value, p) == Balance(v, p) - Owed(players, stakes, p)
  {
    if players != [] {
      hide Owed;
      OwedLast(players, stakes, p);
      StakesTaken(v, players[..|players| - 1], stakes, p);
    }
  }

  lemma {:induction false} StakesPossible(v: View, players: seq<string>, stakes: uint64)
    requires forall p :: Balance(v, p) >= Owed(players, stakes, p)
    ensures DebitEach(v, players, stakes).Some?
  {
    hide Owed;
    if players != [] {
      var n := |players| - 1;
      forall p
        ensures Balance(v, p) >= Owed(players[..n], stakes, p)
      {
        OwedLast(players, stakes, p);
      }
      StakesPossible(v, players[..n], stakes);
      StakesTaken(v, players[..n], stakes, players[n]);
      OwedLast(players, stakes, players[n]);
    }
  }

  /** Opening a session takes each player's stake once for every time the player is named, and is
      possible exactly when every player can pay for all of them. */
  lemma StakesExact(v: View, players: seq<string>, stakes: uint64)
    ensures DebitEach(v, players, stakes).Some? <==> forall p :: Balance(v, p) >= Owed(players, stakes, p)
    ensures DebitEach(v, players, stakes).Some? ==>
              forall p :: Balance(DebitEach(v, players, stakes).value, p) == Balance(v, p) - Owed(players, stakes, p)
  {
    hide Owed;
    if DebitEach(v, players, stakes).Some? {
      forall p
        ensures Balance(DebitEach(v, players, stakes).value, p) == Balance(v, p) - Owed(players, stakes, p)
      {
        StakesTaken(v, players, stakes, p);
      }
    }
    if forall p :: Balance(v, p) >= Owed(players, stakes, p) {
      StakesPossible(v, players, stakes);
    }
  }
}
