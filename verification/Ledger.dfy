/** The invariant of the ledger, over every run of transactions and blocks. */
module Ledger {
  import opened Wrappers
  import opened Types
  import opened State
  import opened Sums
  import opened Rules
  import opened Conservation
  import opened History
  import opened Market

  // ---- Nonces ----

  ghost predicate SameNonces(v: View, w: View) {
    forall a :: AccountOf(v, a).nonce == AccountOf(w, a).nonce
  }

  /** An account's nonce is the number of its executed transactions. */
  ghost predicate Numbered(v: View, hist: seq<Transaction>) {
    forall a :: AccountOf(v, a).nonce == Count(hist, a)
  }

  lemma {:induction false} DebitEachNonces(v: View, players: seq<string>, stakes: uint64)
    requires DebitEach(v, players, stakes).Some?
    ensures SameNonces(v, DebitEach(v, players, stakes).value)
  {
    if players != [] {
      DebitEachNonces(v, players[..|players| - 1], stakes);
    }
  }

  lemma SettleNonces(v: View, h: Header, from: string, id: string, result: Payout)
    requires Settle(v, h, from, id, result).Ok?
    ensures SameNonces(v, Settle(v, h, from, id, result).value.view)
  {
    var outcome := Entries(result);
    hide Pay, AllPayable;
    var w := Settle(v, h, from, id, result).value.view;
    forall a
      ensures AccountOf(v, a).nonce == AccountOf(w, a).nonce
    {
      PayAt(v, outcome, outcome.Keys, AccountKey(a));
    }
  }

  lemma TransferNonces(v: View, from: string, to: string, amount: uint64)
    requires TransferTokens(v, from, to, amount).Ok?
    ensures SameNonces(v, TransferTokens(v, from, to, amount).value.view)
  {
  }

  lemma BuyNonces(v: View, from: string, id: string)
    requires Buy(v, from, id).Ok?
    ensures SameNonces(v, Buy(v, from, id).value.view)
  {
  }

  lemma OpenNonces(v: View, h: Header, from: string, id: string, game: string, players: seq<string>, stakes: uint64)
    requires OpenSession(v, h, from, id, game, players, stakes).Ok?
    ensures SameNonces(v, OpenSession(v, h, from, id, game, players, stakes).value.view)
  {
    if stakes > 0 {
      DebitEachNonces(v, players, stakes);
    }
  }

  /** No handler changes a nonce. */
  lemma DispatchNonces(v: View, h: Header, tx: Transaction, c: Call)
    requires Dispatch(v, h, tx, c).Ok?
    ensures SameNonces(v, Dispatch(v, h, tx, c).value.view)
  {
    var from := tx.body.from;
    match c
    case Transfer(to, amount) => hide TransferTokens; TransferNonces(v, from, to, amount);
    case SessionOpen(id, game, players, stakes) => hide OpenSession; OpenNonces(v, h, from, id, game, players, stakes);
    case SessionResult(id, result) => hide Settle; SettleNonces(v, h, from, id, result);
    case BuyMarket(id) => hide Buy; BuyNonces(v, from, id);
    case MintAsset(_, _, _) =>
    case BurnAsset(_) =>
    case TransferAsset(_, _) =>
    case RegisterTemplate(_, _, _, _) =>
    case ListMarket(_, _) =>
  }

  lemma ChargeNonces(v: View, proposer: string, b: TxBody, a: string)
    requires Charge(v, proposer, b).Ok?
    ensures AccountOf(v, b.from).nonce == b.nonce
    ensures AccountOf(Charge(v, proposer, b).value, a).nonce == AccountOf(v, a).nonce + if a == b.from then 1 else 0
  {
  }

  // ---- The invariant ----

  ghost predicate Inv(v: View, hist: seq<Transaction>, supply: nat) {
    && WellNumbered(hist)
    && Numbered(v, hist)
    && MarketInv(v, hist)
    && Total(v) == supply
  }

  /** A successful transaction decomposes into its charge and its handler. */
  lemma TxParts(v: View, h: Header, tx: Transaction) returns (w: View, c: Call)
    requires ExecuteTx(v, h, tx).Ok?
    ensures Verified(tx) && Charge(v, h.proposer, tx.body) == Ok(w)
    ensures Decode(tx.body.txType, tx.body.payload) == Some(c)
    ensures Dispatch(w, h, tx, c) == ExecuteTx(v, h, tx)
  {
    w := Charge(v, h.proposer, tx.body).value;
    c := Decode(tx.body.txType, tx.body.payload).value;
  }

  lemma TxNumbered(v: View, hist: seq<Transaction>, h: Header, tx: Transaction)
    requires Numbered(v, hist) && WellNumbered(hist) && ExecuteTx(v, h, tx).Ok?
    ensures WellNumbered(hist + [tx]) && Numbered(ExecuteTx(v, h, tx).value.view, hist + [tx])
  {
    var w, c := TxParts(v, h, tx);
    hide ExecuteTx, Dispatch;
    ChargeNonces(v, h.proposer, tx.body, tx.body.from);
    WellNumberedLast(hist, tx);
    DispatchNonces(w, h, tx, c);
    var x := Dispatch(w, h, tx, c).value.view;
    forall a
      ensures AccountOf(x, a).nonce == Count(hist + [tx], a)
    {
      ChargeNonces(v, h.proposer, tx.body, a);
      CountLast(hist, tx, a);
    }
  }

  lemma TxMarket(v: View, hist: seq<Transaction>, h: Header, tx: Transaction)
    requires MarketInv(v, hist) && WellNumbered(hist + [tx]) && ExecuteTx(v, h, tx).Ok?
    ensures MarketInv(ExecuteTx(v, h, tx).value.view, hist + [tx])
  {
    var w, c := TxParts(v, h, tx);
    hide MarketInv, WellNumbered;
    ChargeGoods(v, h.proposer, tx.body);
    FrameMarket(v, w, hist);
    DispatchKeepsMarket(w, hist, h, tx, c);
  }

  /** Every successful transaction of a block with a proposer keeps the invariant. */
  lemma TxKeepsInv(v: View, hist: seq<Transaction>, supply: nat, h: Header, tx: Transaction)
    requires Inv(v, hist, supply) && h.proposer != "" && ExecuteTx(v, h, tx).Ok?
    ensures Inv(ExecuteTx(v, h, tx).value.view, hist + [tx], supply)
  {
    hide ExecuteTx, Numbered, WellNumbered, MarketInv, Total;
    TxNumbered(v, hist, h, tx);
    TxMarket(v, hist, h, tx);
    TxConserves(v, h, tx);
  }

  /** The invariant holds after any list of transactions, finished or not, and while the supply fits
      in 64 bits no transaction is ever refused for an overflow. */
  lemma {:induction false} RunKeepsInv(v: View, hist: seq<Transaction>, supply: nat, h: Header, txs: seq<Transaction>)
    requires Inv(v, hist, supply) && h.proposer != ""
    ensures var r := RunTxs(v, h, txs);
            && r.done <= |txs| && (r.error.None? ==> r.done == |txs|)
            && Inv(r.view, hist + txs[..r.done], supply)
            && (supply <= MAX_UINT64 && r.error.Some? ==> !IsOverflow(r.error.value))
  {
    hide Inv, ExecuteTx, Total;
    if txs == [] {
      assert hist + txs[..0] == hist;
    } else {
      var n := |txs| - 1;
      RunKeepsInv(v, hist, supply, h, txs[..n]);
      var before := RunTxs(v, h, txs[..n]);
      assert txs[..n][..before.done] == txs[..before.done];
      if before.error.None? {
        assert Total(before.view) == supply by { InvTotal(before.view, hist + txs[..n], supply); }
        TxConserves(before.view, h, txs[n]);
        if ExecuteTx(before.view, h, txs[n]).Ok? {
          TxKeepsInv(before.view, hist + txs[..n], supply, h, txs[n]);
          assert hist + txs[..n] + [txs[n]] == hist + txs[..n + 1];
        }
      }
    }
  }

  lemma InvTotal(v: View, hist: seq<Transaction>, supply: nat)
    requires Inv(v, hist, supply)
    ensures Total(v) == supply
  {
  }

  /** All transactions of a list of blocks, in order. */
  function AllTxs(blocks: seq<Block>): seq<Transaction> {
    if blocks == [] then [] else AllTxs(blocks[..|blocks| - 1]) + blocks[|blocks| - 1].txs
  }

  ghost predicate Proposed(blocks: seq<Block>) {
    forall i :: 0 <= i < |blocks| ==> blocks[i].header.proposer != ""
  }

  /** The invariant holds after every accepted list of blocks. */
  lemma {:induction false} ReplayKeepsInv(v: View, hist: seq<Transaction>, supply: nat, blocks: seq<Block>)
    requires Inv(v, hist, supply) && Proposed(blocks) && Replay(v, blocks).Some?
    ensures Inv(Replay(v, blocks).value, hist + AllTxs(blocks), supply)
  {
    hide Inv, RunTxs;
    if blocks == [] {
      assert hist + AllTxs(blocks) == hist;
    } else {
      var n := |blocks| - 1;
      var b := blocks[n];
      ReplayKeepsInv(v, hist, supply, blocks[..n]);
      RunKeepsInv(Replay(v, blocks[..n]).value, hist + AllTxs(blocks[..n]), supply, b.header, b.txs);
      assert b.txs[..|b.txs|] == b.txs;
      assert hist + AllTxs(blocks[..n]) + b.txs == hist + AllTxs(blocks);
    }
  }

  // ---- What an unfinished list leaves behind ----

  lemma TxNonces(v: View, h: Header, tx: Transaction, a: string)
    requires ExecuteTx(v, h, tx).Ok?
    ensures AccountOf(ExecuteTx(v, h, tx).value.view, a).nonce
            == AccountOf(v, a).nonce + if tx.body.from == a then 1 else 0
  {
    var w, c := TxParts(v, h, tx);
    hide ExecuteTx, Dispatch;
    ChargeNonces(v, h.proposer, tx.body, a);
    DispatchNonces(w, h, tx, c);
  }

  lemma {:induction false} RunNonces(v: View, h: Header, txs: seq<Transaction>, a: string)
    ensures var r := RunTxs(v, h, txs);
            && r.done <= |txs| && (r.error.None? ==> r.done == |txs|)
            && AccountOf(r.view, a).nonce == AccountOf(v, a).nonce + Count(txs[..r.done], a)
  {
    hide ExecuteTx, AccountOf, Count;
    if txs == [] {
      assert txs[..0] == [] && Count([], a) == 0 by { CountNone(a); }
    } else {
      var n := |txs| - 1;
      RunNonces(v, h, txs[..n], a);
      var before := RunTxs(v, h, txs[..n]);
      assert txs[..n][..before.done] == txs[..before.done];
      if before.error.None? && ExecuteTx(before.view, h, txs[n]).Ok? {
        TxNonces(before.view, h, txs[n], a);
        CountLast(txs[..n], txs[n], a);
        assert txs[..n] + [txs[n]] == txs == txs[..n + 1];
      }
    }
  }

  lemma {:induction false} FirstRuns(v: View, h: Header, txs: seq<Transaction>)
    requires txs != [] && ExecuteTx(v, h, txs[0]).Ok?
    ensures RunTxs(v, h, txs).done >= 1
  {
    hide ExecuteTx;
    var n := |txs| - 1;
    if n > 0 {
      FirstRuns(v, h, txs[..n]);
    } else {
      assert txs[..n] == [];
    }
  }

  /** A list of transactions leaves the state as it was if and only if it is empty or its first
      transaction is refused. So a failed production leaves nothing in the buffer exactly then. */
  lemma LeavesNothingExactly(v: View, h: Header, txs: seq<Transaction>)
    ensures RunTxs(v, h, txs).view == v <==> txs == [] || ExecuteTx(v, h, txs[0]).Err?
  {
    if txs != [] {
      hide ExecuteTx;
      assert txs[..1][..0] == [];
      if ExecuteTx(v, h, txs[0]).Err? {
        assert RunTxs(v, h, txs[..1]).error.Some? && RunTxs(v, h, txs[..1]).view == v;
        RunStops(v, h, txs, 1);
      } else {
        var a := txs[0].body.from;
        var r := RunTxs(v, h, txs);
        FirstRuns(v, h, txs);
        RunNonces(v, h, txs, a);
        var ran := txs[..r.done];
        CountGrows(ran, 0, |ran|);
        assert ran[..|ran|] == ran;
      }
    }
  }

  // ---- Genesis ----

  /** config/genesis.go: every allocated account starts with its allocation and nonce 0. */
  ghost function GenesisView(alloc: map<string, uint64>): View {
    map k | k in AccountKeys(alloc.Keys) :: AccountV(Account(k.address, alloc[k.address], 0))
  }

  /** Each account starts with its allocation, or with nothing, and there is nothing but accounts. */
  lemma GenesisExact(alloc: map<string, uint64>, k: Key)
    ensures k in GenesisView(alloc) <==> k.AccountKey? && k.address in alloc
    ensures k.AccountKey? ==>
              AccountOf(GenesisView(alloc), k.address)
              == Account(k.address, if k.address in alloc then alloc[k.address] else 0, 0)
  {
  }

  /** The genesis state is a payout of the allocations to an empty ledger. */
  lemma GenesisIsPayout(alloc: map<string, uint64>)
    ensures AllPayable(map[], alloc, alloc.Keys) && Pay(map[], alloc, alloc.Keys) == GenesisView(alloc)
  {
    hide Pay;
    var x, y := Pay(map[], alloc, alloc.Keys), GenesisView(alloc);
    forall k: Key
      ensures k in x <==> k in y
      ensures k in x ==> x[k] == y[k]
    {
      PayAt(map[], alloc, alloc.Keys, k);
    }
    SameEntries(x, y);
  }

  lemma EmptyTotal()
    ensures Total(map[]) == 0
  {
    assert Weights(map[]) == map[];
  }

  lemma GenesisTotal(alloc: map<string, uint64>)
    ensures Total(GenesisView(alloc)) == Sum(alloc)
  {
    hide Total, Pay, GenesisView, Sum;
    GenesisIsPayout(alloc);
    EmptyTotal();
    PayTotal(map[], alloc, alloc.Keys);
    assert Rewards(alloc, alloc.Keys) == alloc;
  }

  lemma GenesisInv(alloc: map<string, uint64>)
    ensures Inv(GenesisView(alloc), [], Sum(alloc))
  {
    GenesisTotal(alloc);
    hide Total;
    var v := GenesisView(alloc);
    forall id
      ensures AssetLinked(v, id) && ListingLinked(v, id) && AssetTemplated(v, id)
    {
    }
  }

  /** From genesis on, in every run of accepted blocks: conservation, linkage, at-most-once. */
  lemma LedgerSafety(alloc: map<string, uint64>, blocks: seq<Block>)
    requires Proposed(blocks) && Replay(GenesisView(alloc), blocks).Some?
    ensures Inv(Replay(GenesisView(alloc), blocks).value, AllTxs(blocks), Sum(alloc))
  {
    GenesisInv(alloc);
    ReplayKeepsInv(GenesisView(alloc), [], Sum(alloc), blocks);
    assert [] + AllTxs(blocks) == AllTxs(blocks);
  }
}
