/** What the owner lists hold, read off the payloads of the executed transactions alone. This covers
    purchases, which the indexer does not hear, and blocks that are rolled back, which it is not told of. */
module IndexContents {
  import opened Wrappers
  import opened Types
  import opened Encoding
  import opened State
  import opened Rules
  import opened Ledger
  import opened Indexing
  import opened Pool

  /** Whether an ID is in an owner's list after a transaction, given whether it was before. */
  function NextListed(listed: bool, tx: Transaction, owner: string, id: string): bool {
    match CallOf(tx)
    case Some(MintAsset(t, o, _)) =>
      listed || (AssetID(tx.id, t) == id && owner == if o == "" then tx.body.from else o)
    case Some(BurnAsset(a)) => listed && (a == "" || a != id || owner != tx.body.from)
    case Some(TransferAsset(a, to)) =>
      if a == "" || a != id then listed else owner == to || (listed && owner != tx.body.from)
    case _ => listed
  }

  function ListedAfter(listed: bool, txs: seq<Transaction>, owner: string, id: string): bool {
    if txs == [] then listed
    else NextListed(ListedAfter(listed, txs[..|txs| - 1], owner, id), txs[|txs| - 1], owner, id)
  }

  lemma {:induction false} ListedConcat(listed: bool, a: seq<Transaction>, b: seq<Transaction>, owner: string,
                                        id: string)
    ensures ListedAfter(listed, a + b, owner, id) == ListedAfter(ListedAfter(listed, a, owner, id), b, owner, id)
  {
    if b == [] {
      assert a + b == a;
    } else {
      ListedConcat(listed, a, b[..|b| - 1], owner, id);
      assert (a + b)[..|a + b| - 1] == a + b[..|b| - 1];
    }
  }

  // ---- One event ----

  ghost predicate NoRepeats(ix: Index) {
    forall owner :: Distinct(Owned(ix, owner))
  }

  lemma AddMembers(ix: Index, owner: string, id: string, o: string, j: string)
    ensures j in Owned(AddTo(ix, owner, id), o) <==> j in Owned(ix, o) || (o == owner && j == id)
    ensures Distinct(Owned(ix, o)) ==> Distinct(Owned(AddTo(ix, owner, id), o))
  {
  }

  lemma RemoveMembers(ix: Index, owner: string, id: string, o: string, j: string)
    ensures j in Owned(RemoveFrom(ix, owner, id), o) <==> j in Owned(ix, o) && !(o == owner && j == id)
    ensures Distinct(Owned(ix, o)) ==> Distinct(Owned(RemoveFrom(ix, owner, id), o))
  {
    if owner in ix {
      SurvivorsMembers(ix[owner], {id}, j);
      if Distinct(ix[owner]) {
        SurvivorsUnique(ix[owner], {id});
      }
    }
  }

  lemma {:induction false} IndexKeepsDistinct(ix: Index, events: seq<Event>)
    requires NoRepeats(ix)
    ensures NoRepeats(IndexAll(ix, events))
  {
    if events != [] {
      var n := |events| - 1;
      IndexKeepsDistinct(ix, events[..n]);
      var jx := IndexAll(ix, events[..n]);
      hide Distinct, AddTo, RemoveFrom, Owned;
      forall owner
        ensures Distinct(Owned(Indexed(jx, events[n]), owner))
      {
        match events[n]
        case AssetMinted(id, o) => AddMembers(jx, o, id, owner, id);
        case AssetBurned(id, o) => RemoveMembers(jx, o, id, owner, id);
        case AssetTransferred(id, from, to) =>
          RemoveMembers(jx, from, id, owner, id);
          AddMembers(RemoveFrom(jx, from, id), to, id, owner, id);
        case _ =>
      }
    }
  }

  // ---- One transaction ----

  lemma DispatchListed(ix: Index, v: View, h: Header, tx: Transaction, c: Call, owner: string, id: string)
    requires Dispatch(v, h, tx, c).Ok? && CallOf(tx) == Some(c) && tx.body.from != ""
    ensures id in Owned(Indexed(ix, Dispatch(v, h, tx, c).value.event), owner)
            <==> NextListed(id in Owned(ix, owner), tx, owner, id)
  {
    var from := tx.body.from;
    hide AddTo, RemoveFrom, Owned;
    hide TransferTokens, Register, OpenSession, Settle, ListForSale, Buy;
    match c
    case MintAsset(t, o, _) => AddMembers(ix, if o == "" then from else o, AssetID(tx.id, t), owner, id);
    case BurnAsset(a) => RemoveMembers(ix, from, a, owner, id);
    case TransferAsset(a, to) =>
      RemoveMembers(ix, from, a, owner, id);
      AddMembers(RemoveFrom(ix, from, a), to, a, owner, id);
    case BuyMarket(l) => BuyEvent(v, from, l);
    case Transfer(_, _) => PlainEvent(v, h, tx, c);
    case SessionOpen(_, _, _, _) => PlainEvent(v, h, tx, c);
    case SessionResult(_, _) => PlainEvent(v, h, tx, c);
    case RegisterTemplate(_, _, _, _) => PlainEvent(v, h, tx, c);
    case ListMarket(_, _) => PlainEvent(v, h, tx, c);
  }

  lemma TxListed(ix: Index, v: View, h: Header, tx: Transaction, owner: string, id: string)
    requires ExecuteTx(v, h, tx).Ok?
    ensures id in Owned(Indexed(ix, ExecuteTx(v, h, tx).value.event), owner)
            <==> NextListed(id in Owned(ix, owner), tx, owner, id)
  {
    var w, c := TxParts(v, h, tx);
    hide ExecuteTx, Dispatch, NextListed, Indexed;
    DispatchListed(ix, w, h, tx, c, owner, id);
  }

  // ---- A list of transactions ----

  /** For every list of transactions and all lists to begin with: an ID is in an owner's list afterwards
      exactly when the payloads of those that ran say so. */
  lemma {:induction false} RunListed(ix: Index, v: View, h: Header, txs: seq<Transaction>, owner: string, id: string)
    ensures id in Owned(IndexAll(ix, RunTxs(v, h, txs).events), owner)
            <==> ListedAfter(id in Owned(ix, owner), Ran(v, h, txs), owner, id)
  {
    hide ExecuteTx, NextListed, Indexed, Owned;
    if txs != [] {
      RanLast(v, h, txs);
      hide RunTxs, Ran;
      var n := |txs| - 1;
      RunListed(ix, v, h, txs[..n], owner, id);
      var before := RunTxs(v, h, txs[..n]);
      if before.error.None? && ExecuteTx(before.view, h, txs[n]).Ok? {
        TxListed(IndexAll(ix, before.events), before.view, h, txs[n], owner, id);
        IndexTwo(ix, before.events, ExecuteTx(before.view, h, txs[n]).value.event, txs[n].id);
      }
    }
  }

  /** The payloads put every ID back into exactly the list of its owner. */
  ghost predicate PutsBack(v: View, txs: seq<Transaction>) {
    forall owner, id :: ListedAfter(OwnedBy(v, owner, id), txs, owner, id) <==> OwnedBy(v, owner, id)
  }

  lemma AgreeingLists(ix: Index, v: View)
    requires Agrees(ix, v)
    ensures NoRepeats(ix) && forall owner, id :: id in Owned(ix, owner) <==> OwnedBy(v, owner, id)
  {
    hide OwnedBy, Owned, Distinct;
    forall owner
      ensures Distinct(Owned(ix, owner)) && forall id :: id in Owned(ix, owner) <==> OwnedBy(v, owner, id)
    {
      assert ListAgrees(ix, v, owner);
    }
  }

  /** After every rolled-back list of transactions, purchases included, the lists fit the restored state if
      and only if the payloads of those that ran put every ID back. */
  lemma RolledBackExactly(ix: Index, v: View, h: Header, txs: seq<Transaction>)
    requires Agrees(ix, v)
    ensures Agrees(IndexAll(ix, RunTxs(v, h, txs).events), v) <==> PutsBack(v, Ran(v, h, txs))
  {
    var jx := IndexAll(ix, RunTxs(v, h, txs).events);
    AgreeingLists(ix, v);
    IndexKeepsDistinct(ix, RunTxs(v, h, txs).events);
    hide RunTxs, Ran, ListedAfter, OwnedBy, Owned, Distinct, IndexAll;
    forall owner, id
      ensures id in Owned(jx, owner) <==> ListedAfter(OwnedBy(v, owner, id), Ran(v, h, txs), owner, id)
    {
      RunListed(ix, v, h, txs, owner, id);
    }
    if Agrees(jx, v) {
      AgreeingLists(jx, v);
    }
  }

  /** A purchase of an asset and its burn by the buyer cancel out in the lists, although the payloads do not
      leave the asset with its owner. */
  lemma BoughtAndBurned(v: View, buy: Transaction, burn: Transaction, l: string, id: string)
    requires CallOf(buy) == Some(BuyMarket(l)) && CallOf(burn) == Some(BurnAsset(id))
    requires AssetOf(v, id).Some? && AssetOf(v, id).value.owner != burn.body.from
    ensures PutsBack(v, [buy, burn]) && !Restores(v, [buy, burn])
  {
    assert [buy, burn][..1] == [buy] && [buy][..0] == [];
    forall owner, j
      ensures ListedAfter(OwnedBy(v, owner, j), [buy, burn], owner, j) <==> OwnedBy(v, owner, j)
    {
      var listed := OwnedBy(v, owner, j);
      assert ListedAfter(listed, [buy], owner, j) == NextListed(ListedAfter(listed, [], owner, j), buy, owner, j);
    }
    assert OwnerAfter(OwnerOf(v, id), [buy, burn], id) == None;
  }

  // ---- Rolled-back mints ----

  predicate MintsID(tx: Transaction, id: string) {
    && CallOf(tx).Some? && CallOf(tx).value.MintAsset?
    && AssetID(tx.id, CallOf(tx).value.templateID) == id
  }

  predicate BurnsID(tx: Transaction, id: string) {
    CallOf(tx) == Some(BurnAsset(id))
  }

  lemma {:induction false} MintStaysListed(v: View, ran: seq<Transaction>, j: nat, id: string) returns (owner: string)
    requires j < |ran| && MintsID(ran[j], id) && forall k :: j < k < |ran| ==> !BurnsID(ran[k], id)
    ensures ListedAfter(OwnedBy(v, owner, id), ran, owner, id)
  {
    var n := |ran| - 1;
    var c := CallOf(ran[n]);
    if j == n {
      owner := if c.value.owner == "" then ran[n].body.from else c.value.owner;
    } else {
      owner := MintStaysListed(v, ran[..n], j, id);
      if c.Some? && c.value.TransferAsset? && c.value.assetID == id {
        owner := c.value.to;
      }
    }
  }

  lemma MintedIsNew(v: View, hist: seq<Transaction>, supply: nat, h: Header, txs: seq<Transaction>, j: nat, id: string)
    requires Inv(v, hist, supply) && h.proposer != "" && j < |Ran(v, h, txs)| && MintsID(txs[j], id)
    ensures AssetOf(v, id).None?
  {
    hide RunTxs, Inv;
    MintedWasNew(v, hist, supply, h, txs, j, CallOf(txs[j]).value.templateID);
  }

  /** After a rolled-back list that minted an asset and did not burn it, the lists never fit: the asset is
      in some list and does not exist. */
  lemma RolledBackMint(ix: Index, v: View, hist: seq<Transaction>, supply: nat, h: Header, txs: seq<Transaction>,
                       j: nat, id: string)
    requires Agrees(ix, v) && Inv(v, hist, supply) && h.proposer != "" && j < |Ran(v, h, txs)|
    requires MintsID(txs[j], id) && forall k :: j < k < |Ran(v, h, txs)| ==> !BurnsID(txs[k], id)
    ensures !Agrees(IndexAll(ix, RunTxs(v, h, txs).events), v)
  {
    var ran := Ran(v, h, txs);
    assert forall k :: 0 <= k < |ran| ==> ran[k] == txs[k];
    hide RunTxs, Inv, Ran, MintsID, BurnsID;
    var owner := MintStaysListed(v, ran, j, id);
    RolledBackExactly(ix, v, h, txs);
    assert !OwnedBy(v, owner, id) by { MintedIsNew(v, hist, supply, h, txs, j, id); }
  }

  /** The simplest such block: a mint, then a transaction that is refused. */
  lemma MintThenRefused(ix: Index, v: View, hist: seq<Transaction>, supply: nat, h: Header, mint: Transaction,
                        bad: Transaction, id: string)
    requires Agrees(ix, v) && Inv(v, hist, supply) && h.proposer != "" && MintsID(mint, id)
    requires ExecuteTx(v, h, mint).Ok? && ExecuteTx(ExecuteTx(v, h, mint).value.view, h, bad).Err?
    ensures var r := RunTxs(v, h, [mint, bad]); r.error.Some? && !Agrees(IndexAll(ix, r.events), v)
  {
    hide ExecuteTx, Inv, Agrees;
    assert RunTxs(v, h, []) == Run(v, [], 0, None);
    RunLast(v, h, [], mint);
    RunLast(v, h, [mint], bad);
    assert [] + [mint] == [mint] && [mint] + [bad] == [mint, bad];
    RolledBackMint(ix, v, hist, supply, h, [mint], 0, id);
  }
}
