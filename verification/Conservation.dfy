/** Tokens are neither made nor lost: balances plus the stakes locked in open sessions. */
module Conservation {
  import opened Wrappers
  import opened Crypto
  import opened Types
  import opened State
  import opened Sums
  import opened Rules

  /** The tokens a stored record stands for. */
  function Weight(x: Value): nat {
    match x
    case AccountV(a) => a.balance
    case SessionV(s) => Escrow(s)
    case _ => 0
  }

  ghost function Weights(v: View): map<Key, nat> {
    map k | k in v :: Weight(v[k])
  }

  /** All tokens of the ledger: the balances and the locked stakes. */
  ghost function Total(v: View): nat {
    Sum(Weights(v))
  }

  function WeightAt(v: View, k: Key): nat {
    if k in v then Weight(v[k]) else 0
  }

  lemma TotalPut(v: View, x: Value)
    requires !x.ForeignV?
    ensures Total(Put(v, x)) == Total(v) - WeightAt(v, KeyOf(x)) + Weight(x)
  {
    hide Sum, Weight;
    assert Weights(Put(v, x)) == Weights(v)[KeyOf(x) := Weight(x)];
    SumUpdate(Weights(v), KeyOf(x), Weight(x));
  }

  lemma TotalDrop(v: View, k: Key)
    ensures Total(Drop(v, k)) == Total(v) - WeightAt(v, k)
  {
    hide Sum, Weight;
    assert Weights(Drop(v, k)) == Weights(v) - {k};
    if k in v {
      SumRemove(Weights(v), k);
    } else {
      assert Weights(v) - {k} == Weights(v);
    }
  }

  /** One entry, or two different ones, never outweigh the total. */
  lemma WeightBound(v: View, j: Key, k: Key)
    requires j != k
    ensures WeightAt(v, j) + WeightAt(v, k) <= Total(v)
  {
    hide Total;
    TotalDrop(v, j);
    TotalDrop(Drop(v, j), k);
  }

  lemma TotalSetBalance(v: View, a: string, n: uint64)
    ensures Total(SetBalance(v, a, n)) == Total(v) - Balance(v, a) + n
  {
    hide Total;
    TotalPut(v, AccountV(AccountOf(v, a).(balance := n)));
  }

  lemma BalanceBound(v: View, a: string)
    ensures Balance(v, a) <= Total(v)
  {
    hide Total;
    WeightBound(v, AccountKey(a), AssetKey(a));
  }

  /** Taking tokens out and putting them back in one place or another: the total returns, and
      a ledger whose total fits in 64 bits cannot overflow the recipient. */
  lemma MoveTotal(v: View, from: string, to: string, n: uint64)
    requires Debit(v, from, n).Some?
    ensures var w := Debit(v, from, n).value;
            && Total(w) == Total(v) - n
            && (Credit(w, to, n).Some? ==> Total(Credit(w, to, n).value) == Total(v))
            && (Total(v) <= MAX_UINT64 ==> Credit(w, to, n).Some?)
  {
    hide Total;
    var w := Debit(v, from, n).value;
    TotalSetBalance(v, from, Balance(v, from) - n);
    BalanceBound(w, to);
    if Credit(w, to, n).Some? {
      TotalSetBalance(w, to, Balance(w, to) + n);
    }
  }

  // ---- The fee ----

  /** A fee reaches no one exactly when the block names no proposer. */
  function Lost(proposer: string, b: TxBody): nat {
    if proposer == "" && b.from != "" then b.fee else 0
  }

  lemma BumpTotal(v: View, a: string)
    requires AccountOf(v, a).nonce < MAX_UINT64
    ensures Total(Bump(v, a)) == Total(v) && Balance(Bump(v, a), a) == Balance(v, a)
  {
    hide Total;
    var acc := AccountOf(v, a);
    TotalPut(v, AccountV(acc.(nonce := acc.nonce + 1)));
  }

  lemma ChargeTotal(v: View, proposer: string, b: TxBody)
    ensures Charge(v, proposer, b).Ok? ==> Total(Charge(v, proposer, b).value) == Total(v) - Lost(proposer, b)
    ensures Total(v) <= MAX_UINT64 ==> Charge(v, proposer, b) != Err(ProposerOverflow)
  {
    hide Total, SetBalance, Bump;
    var acc := AccountOf(v, b.from);
    if acc.nonce == b.nonce && acc.balance >= b.fee && acc.nonce != MAX_UINT64 {
      var w := Bump(v, b.from);
      BumpTotal(v, b.from);
      if b.from != proposer {
        MoveTotal(w, b.from, proposer, b.fee);
      }
    }
  }

  // ---- The handlers ----

  lemma TransferTotal(v: View, from: string, to: string, amount: uint64)
    ensures var r := TransferTokens(v, from, to, amount);
            && (r.Ok? ==> Total(r.value.view) == Total(v))
            && (Total(v) <= MAX_UINT64 ==> r != Err(RecipientOverflow))
  {
    hide Total;
    if Debit(v, from, amount).Some? {
      MoveTotal(v, from, to, amount);
    }
  }

  lemma {:induction false} DebitEachTotal(v: View, players: seq<string>, stakes: uint64)
    requires DebitEach(v, players, stakes).Some?
    ensures Total(DebitEach(v, players, stakes).value) == Total(v) - stakes * |players|
  {
    hide Total;
    if players != [] {
      var n := |players| - 1;
      DebitEachTotal(v, players[..n], stakes);
      var w := DebitEach(v, players[..n], stakes).value;
      TotalSetBalance(w, players[n], Balance(w, players[n]) - stakes);
      assert stakes * |players| == stakes * n + stakes;
    }
  }

  lemma {:induction false} DebitEachFrame(v: View, players: seq<string>, stakes: uint64, k: Key)
    requires DebitEach(v, players, stakes).Some? && !k.AccountKey?
    ensures k in v <==> k in DebitEach(v, players, stakes).value
    ensures k in v ==> v[k] == DebitEach(v, players, stakes).value[k]
  {
    if players != [] {
      DebitEachFrame(v, players[..|players| - 1], stakes, k);
    }
  }

  lemma OpenTotal(v: View, h: Header, from: string, id: string, game: string, players: seq<string>, stakes: uint64)
    ensures var r := OpenSession(v, h, from, id, game, players, stakes);
            r.Ok? ==> Total(r.value.view) == Total(v)
  {
    hide Total;
    var r := OpenSession(v, h, from, id, game, players, stakes);
    if r.Ok? {
      var s := Session(id, game, from, players, stakes, Open, Some(map[]), h.timestamp, 0);
      var w := v;
      if stakes > 0 {
        w := DebitEach(v, players, stakes).value;
        DebitEachTotal(v, players, stakes);
        DebitEachFrame(v, players, stakes, SessionKey(id));
      }
      TotalPut(w, SessionV(s));
      assert Total(w) == Total(v) - stakes * |players|;
    }
  }

  lemma PayAt(v: View, outcome: map<string, uint64>, paid: set<string>, k: Key)
    requires paid <= outcome.Keys && AllPayable(v, outcome, paid)
    ensures k in Pay(v, outcome, paid) <==> k in v || k in AccountKeys(paid)
    ensures k in AccountKeys(paid) ==> Pay(v, outcome, paid)[k] == Rewarded(v, outcome, k.address)
    ensures k in v && k !in AccountKeys(paid) ==> Pay(v, outcome, paid)[k] == v[k]
  {
  }

  lemma PayOne(v: View, outcome: map<string, uint64>, paid: set<string>, p: string)
    requires paid <= outcome.Keys && p in outcome && p !in paid && AllPayable(v, outcome, paid + {p})
    ensures Balance(Pay(v, outcome, paid), p) == Balance(v, p)
    ensures Pay(v, outcome, paid + {p}) == SetBalance(Pay(v, outcome, paid), p, Balance(v, p) + outcome[p])
  {
    hide Pay;
    var w := Pay(v, outcome, paid);
    PayAt(v, outcome, paid, AccountKey(p));
    assert AccountOf(w, p) == AccountOf(v, p);
    var x, y := Pay(v, outcome, paid + {p}), SetBalance(w, p, Balance(v, p) + outcome[p]);
    forall k: Key
      ensures k in x <==> k in y
      ensures k in x ==> x[k] == y[k]
    {
      PayAt(v, outcome, paid, k);
      PayAt(v, outcome, paid + {p}, k);
    }
    SameEntries(x, y);
  }

  ghost function Rewards(outcome: map<string, uint64>, paid: set<string>): map<string, nat>
    requires paid <= outcome.Keys
  {
    map p | p in paid :: outcome[p]
  }

  lemma RewardsSum(outcome: map<string, uint64>, paid: set<string>, p: string)
    requires paid <= outcome.Keys && p in paid
    ensures Sum(Rewards(outcome, paid)) == outcome[p] + Sum(Rewards(outcome, paid - {p}))
  {
    SumRemove(Rewards(outcome, paid), p);
    assert Rewards(outcome, paid) - {p} == Rewards(outcome, paid - {p});
  }

  lemma PayNone(v: View, outcome: map<string, uint64>)
    ensures Pay(v, outcome, {}) == v && Sum(Rewards(outcome, {})) == 0
  {
    assert AccountKeys({}) == {};
    assert Rewards(outcome, {}) == map[];
  }

  lemma {:induction false} PayTotal(v: View, outcome: map<string, uint64>, paid: set<string>)
    requires paid <= outcome.Keys && AllPayable(v, outcome, paid)
    ensures Total(Pay(v, outcome, paid)) == Total(v) + Sum(Rewards(outcome, paid))
  {
    hide Total, Pay, Sum, Rewards;
    if paid == {} {
      PayNone(v, outcome);
    } else {
      var p :| p in paid;
      var rest := paid - {p};
      PayTotal(v, outcome, rest);
      PayOne(v, outcome, rest, p);
      assert rest + {p} == paid;
      RewardsSum(outcome, paid, p);
      TotalSetBalance(Pay(v, outcome, rest), p, Balance(v, p) + outcome[p]);
    }
  }

  /** The session escrow and any one balance fit together inside the total. */
  lemma EscrowBound(v: View, s: Session, p: string)
    requires SessionKey(s.id) in v && v[SessionKey(s.id)] == SessionV(s)
    ensures Escrow(s) + Balance(v, p) <= Total(v)
  {
    hide Total;
    WeightBound(v, SessionKey(s.id), AccountKey(p));
  }

  lemma SettleTotal(v: View, h: Header, from: string, id: string, result: Payout)
    ensures var r := Settle(v, h, from, id, result);
            r.Ok? ==> Total(r.value.view) == Total(v)
  {
    var outcome := Entries(result);
    hide Total;
    var r := Settle(v, h, from, id, result);
    if r.Ok? {
      var s := SessionOf(v, id).value;
      var w := Pay(v, outcome, outcome.Keys);
      PayTotal(v, outcome, outcome.Keys);
      assert Rewards(outcome, outcome.Keys) == outcome;
      assert SessionKey(id) in w && w[SessionKey(id)] == SessionV(s);
      TotalPut(w, SessionV(s.(status := Closed, outcome := result, closedAt := h.timestamp)));
    }
  }

  lemma SettleNoOverflow(v: View, h: Header, from: string, id: string, result: Payout)
    requires Total(v) <= MAX_UINT64
    ensures var r := Settle(v, h, from, id, result);
            r.Err? ==> !IsOverflow(r.error)
  {
    var outcome := Entries(result);
    hide Total;
    var r := Settle(v, h, from, id, result);
    if SessionOf(v, id).Some? {
      var s := SessionOf(v, id).value;
      EscrowBound(v, s, "");
      if s.status.Open? && Sum(outcome) == Escrow(s) {
        forall p | p in outcome
          ensures Payable(v, outcome, p)
        {
          SumRemove(outcome, p);
          EscrowBound(v, s, p);
        }
        assert AllPayable(v, outcome, outcome.Keys);
      }
    }
  }

  lemma BuyTotal(v: View, from: string, id: string)
    ensures var r := Buy(v, from, id);
            && (r.Ok? ==> Total(r.value.view) == Total(v))
            && (Total(v) <= MAX_UINT64 ==> r != Err(SellerOverflow))
  {
    hide Total;
    if ListingOf(v, id).Some? {
      var l := ListingOf(v, id).value;
      if Debit(v, from, l.price).Some? {
        MoveTotal(v, from, l.seller, l.price);
        var w := Debit(v, from, l.price).value;
        if Buy(v, from, id).Ok? {
          var x := Credit(w, l.seller, l.price).value;
          var a := AssetOf(x, l.assetID).value;
          var y := AssetV(a.(owner := from, activeListingID := ""));
          TotalPut(x, y);
          TotalPut(Put(x, y), ListingV(l.(active := false)));
        }
      }
    }
  }

  lemma AssetHandlersTotal(v: View, h: Header, tx: Transaction, c: Call)
    requires c.MintAsset? || c.BurnAsset? || c.TransferAsset? || c.RegisterTemplate? || c.ListMarket?
    ensures var r := Dispatch(v, h, tx, c);
            r.Ok? ==> Total(r.value.view) == Total(v)
  {
    hide Total;
    var r := Dispatch(v, h, tx, c);
    if r.Ok? {
      match c
      case MintAsset(t, owner, properties) =>
        var k := AssetKey(AssetID(tx.id, t));
        TotalPut(v, r.value.view[k]);
      case BurnAsset(id) =>
        TotalDrop(v, AssetKey(id));
      case TransferAsset(id, to) =>
        TotalPut(v, r.value.view[AssetKey(id)]);
      case RegisterTemplate(id, _, _, _) =>
        TotalPut(v, r.value.view[TemplateKey(id)]);
      case ListMarket(id, price) =>
        var l := Listing(ListingID(tx.id, id), id, tx.body.from, price, true, h.timestamp);
        TotalPut(v, ListingV(l));
        TotalPut(Put(v, ListingV(l)), AssetV(AssetOf(v, id).value.(activeListingID := l.id)));
    }
  }

  /** Every handler keeps the total, and none overflows while the total fits in 64 bits. */
  lemma DispatchTotal(v: View, h: Header, tx: Transaction, c: Call)
    ensures var r := Dispatch(v, h, tx, c);
            && (r.Ok? ==> Total(r.value.view) == Total(v))
            && (Total(v) <= MAX_UINT64 && r.Err? ==> !IsOverflow(r.error))
  {
    hide Total, Sum;
    var from := tx.body.from;
    match c
    case Transfer(to, amount) => TransferTotal(v, from, to, amount);
    case SessionOpen(id, game, players, stakes) => hide DebitEach; OpenTotal(v, h, from, id, game, players, stakes);
    case SessionResult(id, result) =>
      SettleTotal(v, h, from, id, result);
      if Total(v) <= MAX_UINT64 {
        SettleNoOverflow(v, h, from, id, result);
      }
      hide Settle;
    case BuyMarket(id) => BuyTotal(v, from, id);
    case MintAsset(_, _, _) => AssetHandlersTotal(v, h, tx, c);
    case BurnAsset(_) => AssetHandlersTotal(v, h, tx, c);
    case TransferAsset(_, _) => AssetHandlersTotal(v, h, tx, c);
    case RegisterTemplate(_, _, _, _) => AssetHandlersTotal(v, h, tx, c);
    case ListMarket(_, _) => AssetHandlersTotal(v, h, tx, c);
  }

  /** A successful transaction changes the total by exactly the fee that reached no proposer. */
  lemma TxConserves(v: View, h: Header, tx: Transaction)
    ensures var r := ExecuteTx(v, h, tx);
            && (r.Ok? ==> Total(r.value.view) == Total(v) - Lost(h.proposer, tx.body))
            && (Total(v) <= MAX_UINT64 && r.Err? ==> !IsOverflow(r.error))
  {
    hide Total;
    ChargeTotal(v, h.proposer, tx.body);
    var w := Charge(v, h.proposer, tx.body);
    if w.Ok? && Decode(tx.body.txType, tx.body.payload).Some? {
      DispatchTotal(w.value, h, tx, Decode(tx.body.txType, tx.body.payload).value);
    }
  }

  /** So a transaction conserves tokens if and only if the fee is zero or some proposer is named. */
  lemma TxConservesExactly(v: View, h: Header, tx: Transaction)
    requires ExecuteTx(v, h, tx).Ok?
    ensures Total(ExecuteTx(v, h, tx).value.view) == Total(v) <==> h.proposer != "" || tx.body.fee == 0
  {
    TxConserves(v, h, tx);
  }

  /** A properly signed transfer with a fee of 3, in a block that names no proposer: it is executed, and the
      ledger shrinks by 3. The payload is any text that decodes to a transfer of one token to the sender. */
  lemma FeeLostWithoutProposer(k: PrivateKey, payload: string, h: Header)
    requires Decode("transfer", payload) == Some(Transfer(Ed25519.publicHex(k), 1)) && h.proposer == ""
    ensures var from := Ed25519.publicHex(k);
            var v := Put(map[], AccountV(Account(from, 10, 0)));
            var b := TxBody("", "transfer", from, 0, 3, 0, payload);
            var r := ExecuteTx(v, h, Transaction(TxHash(b), b, Ed25519.sign(k, TxHash(b))));
            r.Ok? && Total(r.value.view) == Total(v) - 3
  {
    var from := Ed25519.publicHex(k);
    var v := Put(map[], AccountV(Account(from, 10, 0)));
    var b := TxBody("", "transfer", from, 0, 3, 0, payload);
    var tx := Transaction(TxHash(b), b, Ed25519.sign(k, TxHash(b)));
    TxConserves(v, h, tx);
    hide Total;
    assert Verified(tx);
    assert Balance(Charge(v, "", b).value, from) == 7;
  }
}
