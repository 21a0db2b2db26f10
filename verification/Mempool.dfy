/** core/mempool.go: a map of pending transactions with a list of their IDs in arrival order. */
module Pool {
  import opened Types
  import opened Encoding

  const MAX_SIZE: nat := 10_000
  const MAX_AGE: int := 3_600_000_000_000
  const MAX_FUTURE: int := 300_000_000_000

  /** The IDs that are not removed, in their order. */
  function Survivors(ids: seq<string>, removed: set<string>): seq<string> {
    if ids == [] then []
    else
      var last := ids[|ids| - 1];
      Survivors(ids[..|ids| - 1], removed) + if last in removed then [] else [last]
  }

  lemma {:induction false} SurvivorsMembers(ids: seq<string>, removed: set<string>, x: string)
    ensures x in Survivors(ids, removed) <==> x in ids && x !in removed
  {
    if ids != [] {
      var n := |ids| - 1;
      SurvivorsMembers(ids[..n], removed, x);
      assert ids == ids[..n] + [ids[n]];
    }
  }

  lemma {:induction false} SurvivorsUnique(ids: seq<string>, removed: set<string>)
    requires Distinct(ids)
    ensures Distinct(Survivors(ids, removed)) && |Survivors(ids, removed)| <= |ids|
  {
    if ids != [] {
      var n := |ids| - 1;
      SurvivorsUnique(ids[..n], removed);
      SurvivorsMembers(ids[..n], removed, ids[n]);
    }
  }

  /** Filtering keeps the order: it can be done piece by piece. */
  lemma {:induction false} SurvivorsConcat(a: seq<string>, b: seq<string>, removed: set<string>)
    ensures Survivors(a + b, removed) == Survivors(a, removed) + Survivors(b, removed)
  {
    if b == [] {
      assert a + b == a;
    } else {
      var n := |b| - 1;
      SurvivorsConcat(a, b[..n], removed);
      assert (a + b)[..|a + b| - 1] == a + b[..n];
    }
  }

  /** A list without repetitions is as long as the set of its elements. */
  lemma {:induction false} UniqueSize(ids: seq<string>)
    requires Distinct(ids)
    ensures |set x | x in ids| == |ids|
  {
    if ids != [] {
      var n := |ids| - 1;
      UniqueSize(ids[..n]);
      assert (set x | x in ids) == (set x | x in ids[..n]) + {ids[n]};
    }
  }

  /** Compaction over the slice's own backing array: the write position never passes the read
      position, so nothing is lost. */
  method Compact(a: array<string>, len: nat, removed: set<string>) returns (kept: nat)
    requires len <= a.Length
    modifies a
    ensures kept <= len && a[..kept] == Survivors(old(a[..len]), removed)
    ensures a[len..] == old(a[len..])
  {
    kept := 0;
    ghost var was := a[..len];
    for i := 0 to len
      invariant kept <= i
      invariant a[..kept] == Survivors(was[..i], removed)
      invariant a[i..] == old(a[i..])
    {
      assert was[..i + 1][..i] == was[..i];
      assert a[i] == a[i..][0] == was[i];
      ghost var done := a[..kept];
      ghost var rest := a[i + 1..];
      assert rest == a[i..][1..] == old(a[i + 1..]);
      if a[i] !in removed {
        a[kept] := a[i];
        kept := kept + 1;
        assert a[..kept] == done + [was[i]];
      }
      assert a[i + 1..] == rest;
    }
    assert was[..len] == was;
  }

  /** Go's `append` to a slice of length `len`: in place while there is capacity, else into a copy. */
  method Append(a: array<string>, len: nat, x: string) returns (b: array<string>)
    requires len <= a.Length
    modifies a
    ensures (b == a || fresh(b)) && len < b.Length
    ensures b[..len + 1] == old(a[..len]) + [x]
  {
    b := a;
    if len == a.Length {
      b := new string[2 * len + 1](_ => "");
      forall i | 0 <= i < len {
        b[i] := a[i];
      }
      assert b[..len] == a[..len];
    }
    b[len] := x;
    assert b[..len] == old(a[..len]);
    assert b[..len + 1] == b[..len] + [x];
  }

  /** The transactions that a list of IDs stands for. */
  ghost function Lookup(ids: seq<string>, txs: map<string, Transaction>): (q: seq<Transaction>)
    requires forall id :: id in ids ==> id in txs
    ensures |q| == |ids| && forall i :: 0 <= i < |ids| ==> q[i] == txs[ids[i]]
  {
    seq(|ids|, i requires 0 <= i < |ids| => txs[ids[i]])
  }

  /** The queue without the named transactions. */
  ghost function Without(q: seq<Transaction>, removed: set<string>): seq<Transaction> {
    if q == [] then []
    else
      var last := q[|q| - 1];
      Without(q[..|q| - 1], removed) + if last.id in removed then [] else [last]
  }

  /** Exactly the named transactions leave, and the others keep their order: removal can be done piece by
      piece, and for one transaction at a time (`WithoutOne`). */
  lemma {:induction false} WithoutConcat(a: seq<Transaction>, b: seq<Transaction>, removed: set<string>)
    ensures Without(a + b, removed) == Without(a, removed) + Without(b, removed)
  {
    if b == [] {
      assert a + b == a;
    } else {
      var n := |b| - 1;
      WithoutConcat(a, b[..n], removed);
      assert (a + b)[..|a + b| - 1] == a + b[..n];
    }
  }

  lemma WithoutOne(t: Transaction, removed: set<string>)
    ensures Without([t], removed) == if t.id in removed then [] else [t]
  {
    assert [t][..0] == [];
  }

  lemma {:induction false} SurvivorsLookup(ids: seq<string>, txs: map<string, Transaction>, removed: set<string>)
    requires forall id :: id in ids ==> id in txs && txs[id].id == id
    ensures forall id :: id in Survivors(ids, removed) ==> id in txs - removed
    ensures Lookup(Survivors(ids, removed), txs - removed) == Without(Lookup(ids, txs), removed)
  {
    forall id | id in Survivors(ids, removed)
      ensures id in txs - removed
    {
      SurvivorsMembers(ids, removed, id);
    }
    if ids != [] {
      var n := |ids| - 1;
      SurvivorsLookup(ids[..n], txs, removed);
      assert Lookup(ids, txs)[..n] == Lookup(ids[..n], txs);
    }
  }

  /** The list names exactly the keys of the map, once each, and every key is its transaction's ID. */
  ghost predicate Consistent(ids: seq<string>, txs: map<string, Transaction>) {
    && Distinct(ids)
    && (forall id :: id in txs <==> id in ids)
    && (forall id :: id in txs ==> txs[id].id == id)
  }

  lemma ConsistentAppend(ids: seq<string>, txs: map<string, Transaction>, tx: Transaction)
    requires Consistent(ids, txs) && tx.id !in txs
    ensures Consistent(ids + [tx.id], txs[tx.id := tx])
    ensures Lookup(ids + [tx.id], txs[tx.id := tx]) == Lookup(ids, txs) + [tx]
  {
  }

  /** `int64` subtraction wraps around. */
  function Wrap64(n: int): int {
    (n + 0x8000_0000_0000_0000) % 0x1_0000_0000_0000_0000 - 0x8000_0000_0000_0000
  }

  /** The age check as written: the difference is taken in 64 bits. */
  predicate Timely(t: int, now: int) {
    && !(now > t && Wrap64(now - t) > MAX_AGE)
    && !(t > now && Wrap64(t - now) > MAX_FUTURE)
  }

  predicate IsInt64(n: int) {
    -0x8000_0000_0000_0000 <= n <= 0x7FFF_FFFF_FFFF_FFFF
  }

  /** The check accepts the window of one hour back and five minutes ahead, and besides exactly the
      timestamps whose distance from the clock does not fit in 64 bits. */
  lemma WindowExact(t: int, now: int)
    requires IsInt64(t) && IsInt64(now)
    ensures Timely(t, now) <==> -MAX_FUTURE <= now - t <= MAX_AGE || !IsInt64(now - t) || !IsInt64(t - now)
  {
    var d := if now > t then now - t else t - now;
    if d <= 0x7FFF_FFFF_FFFF_FFFF {
      assert Wrap64(d) == d;
    } else {
      assert Wrap64(d) == d - 0x1_0000_0000_0000_0000;
    }
  }

  /** A transaction of the distant past: with the clock at 0 or later the oldest timestamp is accepted. */
  lemma OldestAccepted(now: int)
    requires 0 <= now && IsInt64(now)
    ensures Timely(-0x8000_0000_0000_0000, now)
  {
    WindowExact(-0x8000_0000_0000_0000, now);
  }

  class Mempool {
    var txs: map<string, Transaction>
    var ord: array<string>
    var size: nat

    ghost predicate Valid()
      reads this, ord
    {
      && size <= ord.Length
      && size <= MAX_SIZE
      && Consistent(ord[..size], txs)
    }

    /** The pool as a queue, oldest first. */
    ghost function Queue(): (q: seq<Transaction>)
      requires Valid()
      reads this, ord
    {
      Lookup(ord[..size], txs)
    }

    lemma SizeIsCount()
      requires Valid()
      ensures |txs| == size
    {
      UniqueSize(ord[..size]);
      assert txs.Keys == set x | x in ord[..size];
    }

    constructor ()
      ensures Valid() && Queue() == [] && fresh(ord)
    {
      txs := map[];
      ord := new string[0];
      size := 0;
    }

    /** A valid, timely and new transaction joins the end of the queue if there is room. */
    method Add(tx: Transaction, now: int) returns (ok: bool)
      requires Valid()
      modifies this, ord
      ensures Valid() && (ord == old(ord) || fresh(ord))
      ensures ok <==>
              && Signed(tx) && Timely(tx.body.timestamp, now) && |old(Queue())| < MAX_SIZE
              && forall i :: 0 <= i < |old(Queue())| ==> old(Queue())[i].id != tx.id
      ensures Queue() == if ok then old(Queue()) + [tx] else old(Queue())
    {
      if !Verified(tx) {
        return false;
      }
      if now > tx.body.timestamp && Wrap64(now - tx.body.timestamp) > MAX_AGE {
        return false;
      }
      if tx.body.timestamp > now && Wrap64(tx.body.timestamp - now) > MAX_FUTURE {
        return false;
      }
      SizeIsCount();
      if |txs| >= MAX_SIZE {
        return false;
      }
      if tx.id in txs {
        return false;
      }
      Enqueue(tx);
      return true;
    }

    method Enqueue(tx: Transaction)
      requires Valid() && size < MAX_SIZE && tx.id !in txs
      modifies this, ord
      ensures Valid() && (ord == old(ord) || fresh(ord))
      ensures Queue() == old(Queue()) + [tx]
    {
      hide Consistent, Lookup;
      ghost var before := ord[..size];
      ConsistentAppend(before, txs, tx);
      var grown := Append(ord, size, tx.id);
      ord := grown;
      txs := txs[tx.id := tx];
      size := size + 1;
    }

    /** The first `n` transactions of the queue; a limit below one still yields one. */
    method Pending(n: nat) returns (result: seq<Transaction>)
      requires Valid()
      ensures var k := if n < 1 then 1 else n;
              result == if k < |Queue()| then Queue()[..k] else Queue()
    {
      result := [];
      var i := 0;
      while i < size
        invariant 0 <= i <= size && result == Queue()[..i]
        invariant i == 0 || i < n
      {
        var id := ord[i];
        assert ord[..size][i] == id && id in txs;
        assert Queue()[..i + 1] == Queue()[..i] + [txs[id]];
        if id in txs {
          result := result + [txs[id]];
          if |result| >= n {
            return;
          }
        }
        i := i + 1;
      }
    }

    /** The named transactions leave the pool; the others keep their order. */
    method Remove(ids: seq<string>)
      requires Valid()
      modifies this, ord
      ensures Valid() && ord == old(ord)
      ensures Queue() == Without(old(Queue()), set x | x in ids)
    {
      ghost var before := ord[..size];
      var removed: set<string> := {};
      for i := 0 to |ids|
        invariant removed == set x | x in ids[..i]
        invariant txs == old(txs) - removed
        invariant size == old(size) && ord == old(ord) && ord[..size] == before
      {
        assert ids[..i + 1] == ids[..i] + [ids[i]];
        txs := txs - {ids[i]};
        removed := removed + {ids[i]};
      }
      assert ids[..|ids|] == ids;
      size := Compact(ord, size, removed);
      SurvivorsUnique(before, removed);
      SurvivorsLookup(before, old(txs), removed);
      forall id
        ensures id in ord[..size] <==> id in before && id !in removed
      {
        SurvivorsMembers(before, removed, id);
      }
    }
  }
}
