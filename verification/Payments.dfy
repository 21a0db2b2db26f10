/** Who pays whom: for each handler that moves tokens, exactly when it succeeds and what it does to
    every balance. In a ledger whose total fits in 64 bits no overflow guard ever refuses. */
module Payments {
  import opened Wrappers
  import opened Crypto
  import opened Types
  import opened State
  import opened Sums
  import opened Rules
  import opened Conservation
  import opened Market

  /** One amount taken from `from` and given to `to`; nothing happens to the net when they coincide. */
  ghost predicate Moved(v: View, w: View, from: string, to: string, n: int) {
    forall a :: Balance(w, a) == Balance(v, a) - (if a == from then n else 0) + (if a == to then n else 0)
  }

  lemma DebitCreditMoves(v: View, from: string, to: string, n: uint64)
    requires Debit(v, from, n).Some? && Credit(Debit(v, from, n).value, to, n).Some?
    ensures Moved(v, Credit(Debit(v, from, n).value, to, n).value, from, to, n)
  {
  }

  /** The recipient's balance can take the amount; a payment to oneself always fits. */
  predicate Fits(v: View, from: string, to: string, n: uint64) {
    from == to || Balance(v, to) + n <= MAX_UINT64
  }

  lemma AlwaysFits(v: View, from: string, to: string, n: uint64)
    requires Total(v) <= MAX_UINT64 && Balance(v, from) >= n
    ensures Fits(v, from, to, n)
  {
    MoveTotal(v, from, to, n);
  }

  /** A transfer succeeds exactly for a positive, affordable amount that a well-formed recipient can take. */
  lemma TransferExact(v: View, from: string, to: string, amount: uint64)
    ensures var r := TransferTokens(v, from, to, amount);
            && (r.Ok? <==> amount > 0 && IsPubKeyHex(to) && Balance(v, from) >= amount && Fits(v, from, to, amount))
            && (r.Ok? ==> Moved(v, r.value.view, from, to, amount))
    ensures Total(v) <= MAX_UINT64 && Balance(v, from) >= amount ==> Fits(v, from, to, amount)
  {
    hide Total, Moved;
    if TransferTokens(v, from, to, amount).Ok? {
      DebitCreditMoves(v, from, to, amount);
    }
    if Total(v) <= MAX_UINT64 && Balance(v, from) >= amount {
      AlwaysFits(v, from, to, amount);
    }
  }

  /** The fee leaves the sender and reaches nobody. */
  ghost predicate Taken(v: View, w: View, from: string, n: int) {
    forall a :: Balance(w, a) == Balance(v, a) - if a == from then n else 0
  }

  /** The charge succeeds exactly for the sender's next nonce and an affordable fee that the proposer, if
      there is one, can take. It moves the fee to the proposer; a sender who is the proposer pays nothing. */
  lemma ChargeExact(v: View, proposer: string, b: TxBody)
    ensures var r := Charge(v, proposer, b);
            && (r.Ok? <==>
                  && b.nonce == AccountOf(v, b.from).nonce && b.nonce < MAX_UINT64 && Balance(v, b.from) >= b.fee
                  && (proposer == "" || Fits(v, b.from, proposer, b.fee)))
            && (r.Ok? ==>
                  if proposer == "" && b.from != "" then Taken(v, r.value, b.from, b.fee)
                  else Moved(v, r.value, b.from, proposer, b.fee))
    ensures Total(v) <= MAX_UINT64 && Balance(v, b.from) >= b.fee ==> Fits(v, b.from, proposer, b.fee)
  {
    hide Total;
    if Total(v) <= MAX_UINT64 && Balance(v, b.from) >= b.fee {
      AlwaysFits(v, b.from, proposer, b.fee);
    }
  }

  /** Beyond the payment, a purchase touches no account. */
  lemma BuyPays(v: View, from: string, id: string, a: string)
    requires Buy(v, from, id).Ok?
    ensures var l := ListingOf(v, id).value;
            && Debit(v, from, l.price).Some? && Credit(Debit(v, from, l.price).value, l.seller, l.price).Some?
            && var paid := Credit(Debit(v, from, l.price).value, l.seller, l.price).value;
            Balance(Buy(v, from, id).value.view, a) == Balance(paid, a)
  {
    hide Debit, Credit;
  }

  /** The price moves from the buyer to the seller. */
  lemma BuyMoves(v: View, from: string, id: string)
    requires Buy(v, from, id).Ok?
    ensures var l := ListingOf(v, id).value; Moved(v, Buy(v, from, id).value.view, from, l.seller, l.price)
  {
    var l := ListingOf(v, id).value;
    hide Buy, Debit, Credit, Balance;
    BuyPays(v, from, id, from);
    DebitCreditMoves(v, from, l.seller, l.price);
    forall a
      ensures var paid := Credit(Debit(v, from, l.price).value, l.seller, l.price).value;
              Balance(Buy(v, from, id).value.view, a) == Balance(paid, a)
    {
      BuyPays(v, from, id, a);
    }
  }

  /** A purchase succeeds exactly when the listing is active, foreign and affordable and its seller can take
      the price, and it moves the listed price from the buyer to the owner of the asset. */
  lemma BuyExact(v: View, from: string, id: string)
    requires Linked(v)
    ensures var r := Buy(v, from, id);
            && (r.Ok? <==>
                  && ListingOf(v, id).Some?
                  && var l := ListingOf(v, id).value;
                  && l.active && l.seller != from && Balance(v, from) >= l.price && Fits(v, from, l.seller, l.price))
            && (r.Ok? ==>
                  var l := ListingOf(v, id).value;
                  && AssetOf(v, l.assetID).Some?
                  && Moved(v, r.value.view, from, AssetOf(v, l.assetID).value.owner, l.price))
    ensures Total(v) <= MAX_UINT64 && ListingOf(v, id).Some? ==>
              var l := ListingOf(v, id).value;
              Balance(v, from) >= l.price ==> Fits(v, from, l.seller, l.price)
  {
    BuyFindsAsset(v, from, id);
    hide Total, Linked;
    if Total(v) <= MAX_UINT64 && ListingOf(v, id).Some? && Balance(v, from) >= ListingOf(v, id).value.price {
      AlwaysFits(v, from, ListingOf(v, id).value.seller, ListingOf(v, id).value.price);
    }
    if Buy(v, from, id).Ok? {
      BuyMoves(v, from, id);
    }
  }

  /** A settlement pays every recipient its reward once, and nobody else. */
  lemma SettlePays(v: View, h: Header, from: string, id: string, result: Payout, a: string)
    requires Settle(v, h, from, id, result).Ok?
    ensures var w, pay := Settle(v, h, from, id, result).value.view, Entries(result);
            Balance(w, a) == Balance(v, a) + if a in pay then pay[a] else 0
  {
    var outcome := Entries(result);
    hide Pay, Sum;
    PayAt(v, outcome, outcome.Keys, AccountKey(a));
  }
}
