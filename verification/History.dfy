/** At-most-once execution: nonces count executed transactions, so no transaction ID repeats and
    every identifier derived from one is new. */
module History {
  import opened Crypto
  import opened Types
  import opened Rules

  /** How many transactions of `a` a history holds. */
  function Count(hist: seq<Transaction>, a: string): nat {
    if hist == [] then 0
    else Count(hist[..|hist| - 1], a) + if hist[|hist| - 1].body.from == a then 1 else 0
  }

  lemma CountNone(a: string)
    ensures Count([], a) == 0
  {
  }

  lemma CountLast(hist: seq<Transaction>, tx: Transaction, a: string)
    ensures Count(hist + [tx], a) == Count(hist, a) + if tx.body.from == a then 1 else 0
  {
    assert (hist + [tx])[..|hist|] == hist;
  }

  /** Every transaction was verified and carried the number of earlier ones of its sender. */
  ghost predicate WellNumbered(hist: seq<Transaction>) {
    forall i :: 0 <= i < |hist| ==> Verified(hist[i]) && hist[i].body.nonce == Count(hist[..i], hist[i].body.from)
  }

  lemma WellNumberedLast(hist: seq<Transaction>, tx: Transaction)
    requires WellNumbered(hist) && Verified(tx) && tx.body.nonce == Count(hist, tx.body.from)
    ensures WellNumbered(hist + [tx])
  {
    var all := hist + [tx];
    forall i | 0 <= i < |all|
      ensures Verified(all[i]) && all[i].body.nonce == Count(all[..i], all[i].body.from)
    {
      assert i < |hist| ==> all[..i] == hist[..i];
      assert all[..|hist|] == hist;
    }
  }

  lemma {:induction false} CountGrows(hist: seq<Transaction>, i: nat, j: nat)
    requires i < j <= |hist|
    ensures Count(hist[..i], hist[i].body.from) < Count(hist[..j], hist[i].body.from)
  {
    assert hist[..j][..j - 1] == hist[..j - 1];
    if i < j - 1 {
      CountGrows(hist, i, j - 1);
    }
  }

  /** No transaction ID takes effect twice. */
  lemma IdsDistinct(hist: seq<Transaction>, i: nat, j: nat)
    requires WellNumbered(hist) && i < j < |hist|
    ensures hist[i].id != hist[j].id
  {
    CountGrows(hist, i, j);
    if hist[i].id == hist[j].id {
      IdFixesSenderAndNonce(hist[i], hist[j]);
    }
  }

  /** Asset IDs of different transactions differ, whatever the templates are. */
  lemma AssetIdsDiffer(s: Transaction, m: string, t: Transaction, n: string)
    requires Verified(s) && Verified(t) && s.id != t.id
    ensures AssetID(s.id, m) != AssetID(t.id, n)
  {
    if AssetID(s.id, m) == AssetID(t.id, n) {
      assert s.id + ":asset:" + m == s.id + [':'] + ("asset:" + m);
      assert t.id + ":asset:" + n == t.id + [':'] + ("asset:" + n);
      DigestPrefixUnique(s.id, "asset:" + m, t.id, "asset:" + n);
    }
  }

  lemma ListingIdsDiffer(s: Transaction, m: string, t: Transaction, n: string)
    requires Verified(s) && Verified(t) && s.id != t.id
    ensures ListingID(s.id, m) != ListingID(t.id, n)
  {
    if ListingID(s.id, m) == ListingID(t.id, n) {
      assert s.id + ":listing:" + m == s.id + [':'] + ("listing:" + m);
      assert t.id + ":listing:" + n == t.id + [':'] + ("listing:" + n);
      DigestPrefixUnique(s.id, "listing:" + m, t.id, "listing:" + n);
    }
  }

  /** `id` is the asset ID that some transaction of the history could have minted. */
  ghost predicate Minted(hist: seq<Transaction>, id: string) {
    exists i, m :: 0 <= i < |hist| && AssetID(hist[i].id, m) == id
  }

  ghost predicate Listed(hist: seq<Transaction>, id: string) {
    exists i, m :: 0 <= i < |hist| && ListingID(hist[i].id, m) == id
  }

  lemma MintedLast(hist: seq<Transaction>, tx: Transaction, id: string)
    ensures Minted(hist, id) ==> Minted(hist + [tx], id)
    ensures Listed(hist, id) ==> Listed(hist + [tx], id)
    ensures Minted(hist + [tx], AssetID(tx.id, id)) && Listed(hist + [tx], ListingID(tx.id, id))
  {
    var all := hist + [tx];
    if Minted(hist, id) {
      var i, m :| 0 <= i < |hist| && AssetID(hist[i].id, m) == id;
      assert AssetID(all[i].id, m) == id;
    }
    if Listed(hist, id) {
      var i, m :| 0 <= i < |hist| && ListingID(hist[i].id, m) == id;
      assert ListingID(all[i].id, m) == id;
    }
    assert AssetID(all[|hist|].id, id) == AssetID(tx.id, id);
    assert ListingID(all[|hist|].id, id) == ListingID(tx.id, id);
  }

  /** What the next transaction mints or lists has never been minted or listed before, even if the
      earlier asset has been burned since. */
  lemma DerivedIdsAreNew(hist: seq<Transaction>, tx: Transaction, m: string)
    requires WellNumbered(hist + [tx])
    ensures !Minted(hist, AssetID(tx.id, m)) && !Listed(hist, ListingID(tx.id, m))
  {
    var all := hist + [tx];
    forall i, n | 0 <= i < |hist|
      ensures AssetID(hist[i].id, n) != AssetID(tx.id, m) && ListingID(hist[i].id, n) != ListingID(tx.id, m)
    {
      IdsDistinct(all, i, |hist|);
      AssetIdsDiffer(all[i], n, all[|hist|], m);
      ListingIdsDiffer(all[i], n, all[|hist|], m);
    }
  }
}
