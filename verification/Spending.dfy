/** Who can lower a balance: the holder of the key, or whoever names the account as a player of a session. */
module Spending {
  import opened Wrappers
  import opened Types
  import opened State
  import opened Rules
  import opened Market
  import opened Ledger
  import opened Lifetimes
  import opened Payments
  import opened Effects

  /** The call opens a session with positive stakes that names this account as a player. */
  predicate Stakes(c: Call, a: string) {
    c.SessionOpen? && a in c.players && c.stakes > 0
  }

  /** The transaction is signed by this account, or opens a session that names it. */
  predicate MaySpend(tx: Transaction, a: string) {
    && Signed(tx)
    && (tx.body.from == a || (CallOf(tx).Some? && Stakes(CallOf(tx).value, a)))
  }

  ghost predicate SomeMaySpend(txs: seq<Transaction>, a: string) {
    exists i :: 0 <= i < |txs| && MaySpend(txs[i], a)
  }

  lemma SomeMaySpendConcat(s: seq<Transaction>, t: seq<Transaction>, a: string)
    ensures SomeMaySpend(s, a) || SomeMaySpend(t, a) ==> SomeMaySpend(s + t, a)
  {
    hide MaySpend;
    if SomeMaySpend(s, a) {
      var i :| 0 <= i < |s| && MaySpend(s[i], a);
      assert MaySpend((s + t)[i], a);
    }
    if SomeMaySpend(t, a) {
      var i :| 0 <= i < |t| && MaySpend(t[i], a);
      assert MaySpend((s + t)[|s| + i], a);
    }
  }

  lemma SameBalance(v: View, w: View, a: string)
    requires SameAt(v, w, AccountKey(a))
    ensures Balance(w, a) == Balance(v, a)
  {
  }

  lemma OwedByPlayers(players: seq<string>, stakes: uint64, a: string)
    ensures Owed(players, stakes, a) > 0 <==> a in players && stakes > 0
  {
    assert a in players <==> multiset(players)[a] > 0;
    if a in players && stakes > 0 {
      var n: nat := multiset(players)[a];
      assert stakes * n >= stakes;
    }
  }

  lemma OpenSpends(v: View, h: Header, from: string, id: string, game: string, players: seq<string>, stakes: uint64,
                   a: string)
    requires OpenSession(v, h, from, id, game, players, stakes).Ok?
    ensures Balance(OpenSession(v, h, from, id, game, players, stakes).value.view, a) < Balance(v, a)
            <==> a in players && stakes > 0
  {
    hide Balance, OpenSession, Owed;
    OpenExact(v, h, from, id, game, players, stakes);
    OwedByPlayers(players, stakes, a);
  }

  lemma PlainSpends(v: View, h: Header, tx: Transaction, c: Call, a: string)
    requires Dispatch(v, h, tx, c).Ok?
    requires c.MintAsset? || c.BurnAsset? || c.TransferAsset? || c.RegisterTemplate? || c.ListMarket?
    ensures Balance(Dispatch(v, h, tx, c).value.view, a) == Balance(v, a)
  {
    var from, w := tx.body.from, Dispatch(v, h, tx, c).value.view;
    hide Balance, TransferTokens, Mint, Burn, GiveAsset, Register, OpenSession, Settle, ListForSale, Buy;
    match c
    case MintAsset(t, o, p) => MintExact(v, h, tx, t, o, p); SameBalance(v, w, a);
    case BurnAsset(id) => BurnExact(v, from, id); SameBalance(v, w, a);
    case TransferAsset(id, to) => GiveExact(v, from, id, to); SameBalance(v, w, a);
    case RegisterTemplate(id, name, schema, t) => RegisterExact(v, from, id, name, schema, t); SameBalance(v, w, a);
    case ListMarket(id, price) => ListExact(v, h, tx, id, price); SameBalance(v, w, a);
  }

  /** A handler lowers the balance of someone other than the sender if and only if it opens a session with
      positive stakes that names that account. */
  lemma DispatchSpends(v: View, h: Header, tx: Transaction, c: Call, a: string)
    requires Dispatch(v, h, tx, c).Ok? && tx.body.from != a
    ensures Balance(Dispatch(v, h, tx, c).value.view, a) < Balance(v, a) <==> Stakes(c, a)
  {
    var from := tx.body.from;
    hide Balance, TransferTokens, Mint, Burn, GiveAsset, Register, OpenSession, Settle, ListForSale, Buy;
    match c
    case Transfer(to, amount) => TransferExact(v, from, to, amount);
    case BuyMarket(l) => BuyResult(v, from, l); BuyMoves(v, from, l);
    case SessionResult(id, result) => SettlePays(v, h, from, id, result, a);
    case SessionOpen(id, game, players, stakes) => OpenSpends(v, h, from, id, game, players, stakes, a);
    case MintAsset(_, _, _) => PlainSpends(v, h, tx, c, a);
    case BurnAsset(_) => PlainSpends(v, h, tx, c, a);
    case TransferAsset(_, _) => PlainSpends(v, h, tx, c, a);
    case RegisterTemplate(_, _, _, _) => PlainSpends(v, h, tx, c, a);
    case ListMarket(_, _) => PlainSpends(v, h, tx, c, a);
  }

  /** An example: anyone can open a session that takes all tokens of a player. */
  lemma OpenedForAnother(h: Header, from: string, player: string)
    requires from != player
    ensures var v := Put(map[], AccountV(Account(player, 5, 0)));
            var r := OpenSession(v, h, from, "game", "", [player], 5);
            r.Ok? && Balance(v, player) == 5 && Balance(r.value.view, player) == 0
  {
    var v := Put(map[], AccountV(Account(player, 5, 0)));
    OpenExact(v, h, from, "game", "", [player], 5);
    forall p
      ensures Owed([player], 5, p) == if p == player then 5 else 0
    {
      assert multiset([player])[p] == if p == player then 1 else 0;
    }
    hide OpenSession, Owed;
  }

  lemma TxSpends(v: View, h: Header, tx: Transaction, a: string)
    requires ExecuteTx(v, h, tx).Ok?
    ensures Balance(ExecuteTx(v, h, tx).value.view, a) < Balance(v, a) ==> MaySpend(tx, a)
  {
    var w, c := TxParts(v, h, tx);
    VerifyExact(tx);
    ChargeExact(v, h.proposer, tx.body);
    hide ExecuteTx, Charge, Dispatch, Balance, Signed;
    if !MaySpend(tx, a) {
      DispatchSpends(w, h, tx, c, a);
    }
  }

  lemma {:induction false} RunSpends(v: View, h: Header, txs: seq<Transaction>, a: string)
    ensures Balance(RunTxs(v, h, txs).view, a) < Balance(v, a) ==> SomeMaySpend(Ran(v, h, txs), a)
  {
    hide ExecuteTx, Balance, MaySpend;
    if txs != [] {
      RanLast(v, h, txs);
      hide RunTxs, Ran;
      var n := |txs| - 1;
      RunSpends(v, h, txs[..n], a);
      var before := RunTxs(v, h, txs[..n]);
      if before.error.None? && ExecuteTx(before.view, h, txs[n]).Ok? {
        TxSpends(before.view, h, txs[n], a);
        assert MaySpend(txs[n], a) ==> MaySpend([txs[n]][0], a);
        SomeMaySpendConcat(txs[..n], [txs[n]], a);
        assert txs[..n] + [txs[n]] == txs;
      }
    }
  }

  /** Over every run of accepted blocks: a balance falls only if some transaction signed by its key, or some
      opening of a session that names it, was executed. */
  lemma {:induction false} ReplaySpends(v: View, blocks: seq<Block>, a: string)
    requires Replay(v, blocks).Some?
    ensures Balance(Replay(v, blocks).value, a) < Balance(v, a) ==> SomeMaySpend(AllTxs(blocks), a)
  {
    hide RunTxs, Balance, SomeMaySpend;
    if blocks != [] {
      var n := |blocks| - 1;
      var b, u := blocks[n], Replay(v, blocks[..n]).value;
      ReplaySpends(v, blocks[..n], a);
      RunSpends(u, b.header, b.txs, a);
      AllRan(u, b.header, b.txs);
      SomeMaySpendConcat(AllTxs(blocks[..n]), b.txs, a);
    }
  }
}
