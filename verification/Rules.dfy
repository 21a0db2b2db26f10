/** The transaction rules of vm/ as functions on the flat world state. The executor's methods are
    proved to compute these functions; the ledger's invariants are proved about them. */
module Rules {
  import opened Wrappers
  import opened Crypto
  import opened Types
  import opened State
  import opened Sums

  datatype Error =
    | BadSignature | BadNonce | FeeUnpaid | NonceExhausted | ProposerOverflow | NoHandler | BadPayload
    | ZeroAmount | MissingRecipient | BadRecipientKey | Insufficient | RecipientOverflow
    | MissingTemplateID | TemplateMissing | TemplateExists | BadOwnerKey
    | AssetMissing | NotOwner | AssetListed | NotTradeable
    | MissingSessionID | NoPlayers | SessionExists | SessionMissing | SessionOver | NotCreator
    | NotAPlayer | StakesOverflow | RewardsExceed | RewardsShort | RewardOverflow
    | ZeroPrice | ListingMissing | ListingInactive | OwnListing | SellerOverflow

  predicate IsOverflow(e: Error) {
    e in {ProposerOverflow, RecipientOverflow, StakesOverflow, RewardOverflow, SellerOverflow}
  }

  datatype Event =
    | TokenTransferred(from: string, to: string, amount: uint64)
    | AssetMinted(assetID: string, owner: string)
    | AssetBurned(assetID: string, owner: string)
    | AssetTransferred(assetID: string, from: string, to: string)
    | TemplateRegistered(templateID: string)
    | SessionOpened(sessionID: string)
    | SessionEnded(sessionID: string)
    | MarketListed(listingID: string, assetID: string)
    | MarketBought(listingID: string, assetID: string, buyer: string, seller: string)
    | TxExecuted(txID: string)
    | BlockCommitted(hash: string)

  datatype Effect = Effect(view: View, event: Event)

  type Outcome = Result<Effect, Error>

  // ---- Balances ----

  function Balance(v: View, a: string): uint64 {
    AccountOf(v, a).balance
  }

  function SetBalance(v: View, a: string, n: uint64): View {
    Put(v, AccountV(AccountOf(v, a).(balance := n)))
  }

  function Debit(v: View, a: string, n: uint64): Option<View> {
    if Balance(v, a) < n then None else Some(SetBalance(v, a, Balance(v, a) - n))
  }

  function Credit(v: View, a: string, n: uint64): Option<View> {
    if Balance(v, a) > MAX_UINT64 - n then None else Some(SetBalance(v, a, Balance(v, a) + n))
  }

  // ---- economy/token.go ----

  function TransferTokens(v: View, from: string, to: string, amount: uint64): Outcome {
    if amount == 0 then Err(ZeroAmount)
    else if to == "" then Err(MissingRecipient)
    else if !IsPubKeyHex(to) then Err(BadRecipientKey)
    else match Debit(v, from, amount)
      case None => Err(Insufficient)
      case Some(w) =>
        match Credit(w, to, amount)
        case None => Err(RecipientOverflow)
        case Some(x) => Ok(Effect(x, TokenTransferred(from, to, amount)))
  }

  // ---- asset/template.go and asset/asset.go ----

  function Register(v: View, from: string, id: string, name: string, schema: string, tradeable: bool): Outcome {
    if id == "" then Err(MissingTemplateID)
    else if TemplateOf(v, id).Some? then Err(TemplateExists)
    else Ok(Effect(Put(v, TemplateV(Template(id, name, schema, tradeable, from))), TemplateRegistered(id)))
  }

  function AssetID(txID: string, templateID: string): string {
    Hash(txID + ":asset:" + templateID)
  }

  function Mint(v: View, h: Header, tx: Transaction, templateID: string, owner: string, properties: string): Outcome {
    if templateID == "" then Err(MissingTemplateID)
    else if TemplateOf(v, templateID).None? then Err(TemplateMissing)
    else if owner != "" && !IsPubKeyHex(owner) then Err(BadOwnerKey)
    else
      var o := if owner == "" then tx.body.from else owner;
      var id := AssetID(tx.id, templateID);
      var a := Asset(id, templateID, o, properties, TemplateOf(v, templateID).value.tradeable, h.timestamp, "");
      Ok(Effect(Put(v, AssetV(a)), AssetMinted(id, o)))
  }

  function Burn(v: View, from: string, assetID: string): Outcome {
    match AssetOf(v, assetID)
    case None => Err(AssetMissing)
    case Some(a) =>
      if a.owner != from then Err(NotOwner)
      else if a.activeListingID != "" then Err(AssetListed)
      else Ok(Effect(Drop(v, AssetKey(assetID)), AssetBurned(assetID, a.owner)))
  }

  function GiveAsset(v: View, from: string, assetID: string, to: string): Outcome {
    if to == "" then Err(MissingRecipient)
    else if !IsPubKeyHex(to) then Err(BadRecipientKey)
    else match AssetOf(v, assetID)
      case None => Err(AssetMissing)
      case Some(a) =>
        if a.owner != from then Err(NotOwner)
        else if !a.tradeable then Err(NotTradeable)
        else if a.activeListingID != "" then Err(AssetListed)
        else Ok(Effect(Put(v, AssetV(a.(owner := to))), AssetTransferred(assetID, from, to)))
  }

  // ---- session/session.go ----

  function DebitEach(v: View, players: seq<string>, stakes: uint64): Option<View> {
    if players == [] then Some(v)
    else
      match DebitEach(v, players[..|players| - 1], stakes)
      case None => None
      case Some(w) => Debit(w, players[|players| - 1], stakes)
  }

  function OpenSession(v: View, h: Header, from: string, id: string, gameID: string, players: seq<string>,
                       stakes: uint64): Outcome {
    if id == "" then Err(MissingSessionID)
    else if players == [] then Err(NoPlayers)
    else if SessionOf(v, id).Some? then Err(SessionExists)
    else match (if stakes > 0 then DebitEach(v, players, stakes) else Some(v))
      case None => Err(Insufficient)
      case Some(w) =>
        var s := Session(id, gameID, from, players, stakes, Open, Some(map[]), h.timestamp, 0);
        Ok(Effect(Put(w, SessionV(s)), SessionOpened(id)))
  }

  predicate Payable(v: View, outcome: map<string, uint64>, p: string)
    requires p in outcome
  {
    Balance(v, p) + outcome[p] <= MAX_UINT64
  }

  ghost predicate AllPayable(v: View, outcome: map<string, uint64>, paid: set<string>)
    requires paid <= outcome.Keys
  {
    forall p :: p in paid ==> Payable(v, outcome, p)
  }

  function Rewarded(v: View, outcome: map<string, uint64>, p: string): Value
    requires p in outcome && Payable(v, outcome, p)
  {
    AccountV(AccountOf(v, p).(balance := Balance(v, p) + outcome[p]))
  }

  /** Pay the rewards of the recipients in `paid`, each once. */
  ghost function Pay(v: View, outcome: map<string, uint64>, paid: set<string>): View
    requires paid <= outcome.Keys && AllPayable(v, outcome, paid)
  {
    v + map k | k in AccountKeys(paid) :: Rewarded(v, outcome, k.address)
  }

  ghost function AccountKeys(addresses: set<string>): (r: set<Key>)
    ensures forall k :: k in r <==> k.AccountKey? && k.address in addresses
  {
    set a | a in addresses :: AccountKey(a)
  }

  /** The total locked in a session. */
  function Escrow(s: Session): nat {
    if s.status.Open? then s.stakes * |s.players| else 0
  }

  ghost function Settle(v: View, h: Header, from: string, id: string, result: Payout): Outcome {
    var outcome := Entries(result);
    match SessionOf(v, id)
    case None => Err(SessionMissing)
    case Some(s) =>
      if s.status.Closed? then Err(SessionOver)
      else if from != s.creator then Err(NotCreator)
      else if exists p :: p in outcome && p !in s.players then Err(NotAPlayer)
      else if Escrow(s) > MAX_UINT64 then Err(StakesOverflow)
      else if Sum(outcome) > Escrow(s) then Err(RewardsExceed)
      else if Sum(outcome) < Escrow(s) then Err(RewardsShort)
      else if !AllPayable(v, outcome, outcome.Keys) then Err(RewardOverflow)
      else
        var done := s.(status := Closed, outcome := result, closedAt := h.timestamp);
        Ok(Effect(Put(Pay(v, outcome, outcome.Keys), SessionV(done)), SessionEnded(id)))
  }

  // ---- market/market.go ----

  function ListingID(txID: string, assetID: string): string {
    Hash(txID + ":listing:" + assetID)
  }

  function ListForSale(v: View, h: Header, tx: Transaction, assetID: string, price: uint64): Outcome {
    if price == 0 then Err(ZeroPrice)
    else match AssetOf(v, assetID)
      case None => Err(AssetMissing)
      case Some(a) =>
        if a.owner != tx.body.from then Err(NotOwner)
        else if !a.tradeable then Err(NotTradeable)
        else if a.activeListingID != "" then Err(AssetListed)
        else
          var id := ListingID(tx.id, assetID);
          var w := Put(v, ListingV(Listing(id, assetID, tx.body.from, price, true, h.timestamp)));
          Ok(Effect(Put(w, AssetV(a.(activeListingID := id))), MarketListed(id, assetID)))
  }

  function Buy(v: View, from: string, listingID: string): Outcome {
    match ListingOf(v, listingID)
    case None => Err(ListingMissing)
    case Some(l) =>
      if !l.active then Err(ListingInactive)
      else if l.seller == from then Err(OwnListing)
      else match Debit(v, from, l.price)
        case None => Err(Insufficient)
        case Some(w) =>
          match Credit(w, l.seller, l.price)
          case None => Err(SellerOverflow)
          case Some(x) =>
            match AssetOf(x, l.assetID)
            case None => Err(AssetMissing)
            case Some(a) =>
              var y := Put(x, AssetV(a.(owner := from, activeListingID := "")));
              Ok(Effect(Put(y, ListingV(l.(active := false))), MarketBought(listingID, l.assetID, from, l.seller)))
  }

  // ---- vm/executor.go ----

  ghost function Dispatch(v: View, h: Header, tx: Transaction, c: Call): Outcome {
    var from := tx.body.from;
    match c
    case Transfer(to, amount) => TransferTokens(v, from, to, amount)
    case MintAsset(t, owner, properties) => Mint(v, h, tx, t, owner, properties)
    case BurnAsset(id) => Burn(v, from, id)
    case TransferAsset(id, to) => GiveAsset(v, from, id, to)
    case RegisterTemplate(id, name, schema, tradeable) => Register(v, from, id, name, schema, tradeable)
    case SessionOpen(id, game, players, stakes) => OpenSession(v, h, from, id, game, players, stakes)
    case SessionResult(id, result) => Settle(v, h, from, id, result)
    case ListMarket(id, price) => ListForSale(v, h, tx, id, price)
    case BuyMarket(id) => Buy(v, from, id)
  }

  /** What a transaction asks for, if its payload decodes. */
  function CallOf(tx: Transaction): Option<Call> {
    Decode(tx.body.txType, tx.body.payload)
  }

  function Bump(v: View, a: string): View
    requires AccountOf(v, a).nonce < MAX_UINT64
  {
    var acc := AccountOf(v, a);
    Put(v, AccountV(acc.(nonce := acc.nonce + 1)))
  }

  /** Take the fee from the sender, count the transaction and pay the proposer, if there is one. */
  function Charge(v: View, proposer: string, b: TxBody): Result<View, Error> {
    var acc := AccountOf(v, b.from);
    if acc.nonce != b.nonce then Err(BadNonce)
    else if acc.balance < b.fee then Err(FeeUnpaid)
    else if acc.nonce == MAX_UINT64 then Err(NonceExhausted)
    else if b.from == proposer then Ok(Bump(v, b.from))
    else
      var paid := SetBalance(Bump(v, b.from), b.from, acc.balance - b.fee);
      if b.fee == 0 || proposer == "" then Ok(paid)
      else
        match Credit(paid, proposer, b.fee)
        case None => Err(ProposerOverflow)
        case Some(w) => Ok(w)
  }

  ghost function ApplyTx(v: View, h: Header, tx: Transaction): Outcome {
    match Charge(v, h.proposer, tx.body)
    case Err(e) => Err(e)
    case Ok(w) =>
      if tx.body.txType !in REGISTERED then Err(NoHandler)
      else
        match Decode(tx.body.txType, tx.body.payload)
        case None => Err(BadPayload)
        case Some(c) => Dispatch(w, h, tx, c)
  }

  ghost function ExecuteTx(v: View, h: Header, tx: Transaction): Outcome {
    if !Verified(tx) then Err(BadSignature) else ApplyTx(v, h, tx)
  }

  /** What a list of transactions does: the first `done` took effect, and `error` says why the rest did not. */
  datatype Run = Run(view: View, events: seq<Event>, done: nat, error: Option<Error>)

  ghost function RunTxs(v: View, h: Header, txs: seq<Transaction>): (r: Run)
    ensures r.done <= |txs|
  {
    if txs == [] then Run(v, [], 0, None)
    else
      var before := RunTxs(v, h, txs[..|txs| - 1]);
      if before.error.Some? then before
      else
        var tx := txs[|txs| - 1];
        match ExecuteTx(before.view, h, tx)
        case Err(e) => before.(error := Some(e))
        case Ok(eff) => Run(eff.view, before.events + [eff.event, TxExecuted(tx.id)], |txs|, None)
  }

  lemma {:induction false} RunStops(v: View, h: Header, txs: seq<Transaction>, i: nat)
    requires i <= |txs| && RunTxs(v, h, txs[..i]).error.Some?
    ensures RunTxs(v, h, txs) == RunTxs(v, h, txs[..i])
  {
    if i == |txs| {
      assert txs[..i] == txs;
    } else {
      assert txs[..|txs| - 1][..i] == txs[..i];
      RunStops(v, h, txs[..|txs| - 1], i);
    }
  }

  /** The transactions of a list that took effect. */
  ghost function Ran(v: View, h: Header, txs: seq<Transaction>): seq<Transaction> {
    txs[..RunTxs(v, h, txs).done]
  }

  /** The last transaction of a list takes effect after all the others, or changes nothing. */
  lemma RanLast(v: View, h: Header, txs: seq<Transaction>)
    requires txs != []
    ensures var n := |txs| - 1;
            var before := RunTxs(v, h, txs[..n]);
            if before.error.None? && ExecuteTx(before.view, h, txs[n]).Ok? then
              && Ran(v, h, txs[..n]) == txs[..n] && Ran(v, h, txs) == txs
              && var eff := ExecuteTx(before.view, h, txs[n]).value;
              && RunTxs(v, h, txs).view == eff.view
              && RunTxs(v, h, txs).events == before.events + [eff.event, TxExecuted(txs[n].id)]
            else
              && Ran(v, h, txs) == Ran(v, h, txs[..n]) && RunTxs(v, h, txs).view == before.view
              && RunTxs(v, h, txs).events == before.events
  {
    hide ExecuteTx;
    var n := |txs| - 1;
    var before := RunTxs(v, h, txs[..n]);
    assert txs[..n][..before.done] == txs[..before.done];
    assert txs[..n + 1] == txs;
  }

  lemma AllRan(v: View, h: Header, txs: seq<Transaction>)
    requires RunTxs(v, h, txs).error.None?
    ensures Ran(v, h, txs) == txs
  {
  }

  /** Running one more transaction. */
  lemma RunLast(v: View, h: Header, txs: seq<Transaction>, tx: Transaction)
    requires RunTxs(v, h, txs).error.None?
    ensures var before := RunTxs(v, h, txs);
            RunTxs(v, h, txs + [tx]) ==
            match ExecuteTx(before.view, h, tx)
            case Err(e) => before.(error := Some(e))
            case Ok(eff) => Run(eff.view, before.events + [eff.event, TxExecuted(tx.id)], |txs| + 1, None)
  {
    assert (txs + [tx])[..|txs|] == txs;
  }

  /** The world state after a list of blocks, if every transaction of every block succeeds. */
  ghost function Replay(v: View, blocks: seq<Block>): Option<View> {
    if blocks == [] then Some(v)
    else
      match Replay(v, blocks[..|blocks| - 1])
      case None => None
      case Some(w) =>
        var b := blocks[|blocks| - 1];
        var run := RunTxs(w, b.header, b.txs);
        if run.error.Some? then None else Some(run.view)
  }
}
