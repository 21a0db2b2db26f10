/** storage/statedb.go: a write buffer over a key-value database, with a stack of snapshots. */
module StateStore {
  import opened Wrappers
  import opened Types
  import opened Encoding
  import opened State

  datatype Buffer = Buffer(dirty: map<Key, Value>, deleted: set<Key>)

  datatype BatchOp = SetOp(key: Key, value: Value) | DeleteOp(key: Key)

  const EMPTY: Buffer := Buffer(map[], {})

  /** A key is never both written and deleted, and only state keys are buffered. */
  ghost predicate GoodBuffer(b: Buffer) {
    && WellKeyed(b.dirty)
    && (forall k :: k in b.deleted ==> !k.ForeignKey?)
    && b.dirty.Keys !! b.deleted
  }

  ghost predicate GoodDb(db: map<Key, Value>) {
    forall k :: k in db ==> Proper(k) && KeyOf(db[k]) == k
  }

  /** The flat map that a database and a buffer over it stand for. */
  ghost function Overlay(db: map<Key, Value>, b: Buffer): View
    requires GoodDb(db) && GoodBuffer(b)
  {
    map k | k in db.Keys + b.dirty.Keys && !k.ForeignKey? && k !in b.deleted ::
      if k in b.dirty then b.dirty[k] else db[k]
  }

  /** Buffered writes and deletes act on the flat map as on a plain map. */
  lemma OverlaySet(db: map<Key, Value>, b: Buffer, x: Value)
    requires GoodDb(db) && GoodBuffer(b) && !x.ForeignV?
    ensures var after := Buffer(b.dirty[KeyOf(x) := x], b.deleted - {KeyOf(x)});
            GoodBuffer(after) && Overlay(db, after) == Put(Overlay(db, b), x)
  {
    SameEntries(Overlay(db, Buffer(b.dirty[KeyOf(x) := x], b.deleted - {KeyOf(x)})), Put(Overlay(db, b), x));
  }

  lemma OverlayDel(db: map<Key, Value>, b: Buffer, k: Key)
    requires GoodDb(db) && GoodBuffer(b) && !k.ForeignKey?
    ensures var after := Buffer(b.dirty - {k}, b.deleted + {k});
            GoodBuffer(after) && Overlay(db, after) == Drop(Overlay(db, b), k)
  {
    SameEntries(Overlay(db, Buffer(b.dirty - {k}, b.deleted + {k})), Drop(Overlay(db, b), k));
  }

  /** The part of a database that the state prefixes select. */
  ghost function Persisted(db: map<Key, Value>): View
    requires GoodDb(db)
  {
    Overlay(db, EMPTY)
  }

  function Apply(db: map<Key, Value>, op: BatchOp): map<Key, Value> {
    match op
    case SetOp(k, x) => db[k := x]
    case DeleteOp(k) => db - {k}
  }

  function ApplyBatch(db: map<Key, Value>, ops: seq<BatchOp>): map<Key, Value> {
    if ops == [] then db else Apply(ApplyBatch(db, ops[..|ops| - 1]), ops[|ops| - 1])
  }

  lemma ApplyLast(db: map<Key, Value>, ops: seq<BatchOp>, op: BatchOp)
    ensures ApplyBatch(db, ops + [op]) == Apply(ApplyBatch(db, ops), op)
  {
    assert (ops + [op])[..|ops|] == ops;
  }

  /** Writing the buffer into the database does not change what the two stand for. */
  lemma FlushKeepsView(db: map<Key, Value>, b: Buffer)
    requires GoodDb(db) && GoodBuffer(b)
    ensures GoodDb((db + b.dirty) - b.deleted)
    ensures Persisted((db + b.dirty) - b.deleted) == Overlay(db, b)
  {
    var flushed := (db + b.dirty) - b.deleted;
    forall k
      ensures k in Persisted(flushed) <==> k in Overlay(db, b)
    {
    }
  }

  lemma HitsExact(db: map<Key, Value>, i: nat)
    requires ProperKeys(db) && i < |STATE_PREFIXES|
    ensures forall k :: k in db ==> (STATE_PREFIXES[i] <= KeyText(k) <==> KindIndex(k) == i)
  {
    hide KeyText, KindIndex;
    forall k | k in db
      ensures STATE_PREFIXES[i] <= KeyText(k) <==> KindIndex(k) == i
    {
      PrefixScanExact(k, i);
    }
  }

  class StateDB {
    var db: map<Key, Value>
    var dirty: map<Key, Value>
    var deleted: set<Key>
    var snapshots: seq<Buffer>

    ghost predicate Valid()
      reads this
    {
      && GoodDb(db)
      && GoodBuffer(Pending())
      && forall i :: 0 <= i < |snapshots| ==> GoodBuffer(snapshots[i])
    }

    function Pending(): Buffer
      reads this
    {
      Buffer(dirty, deleted)
    }

    ghost function View(): View
      requires Valid()
      reads this
    {
      Overlay(db, Pending())
    }

    ghost predicate Clean()
      reads this
    {
      Pending() == EMPTY
    }

    constructor (database: map<Key, Value>)
      requires GoodDb(database)
      ensures Valid() && Clean() && snapshots == [] && db == database
    {
      db, dirty, deleted, snapshots := database, map[], {}, [];
    }

    method Get(k: Key) returns (r: Option<Value>)
      requires Valid() && !k.ForeignKey?
      ensures r == if k in View() then Some(View()[k]) else None
    {
      if k in deleted {
        return None;
      }
      if k in dirty {
        return Some(dirty[k]);
      }
      if k in db {
        return Some(db[k]);
      }
      return None;
    }

    method Set(x: Value)
      requires Valid() && !x.ForeignV?
      modifies this`dirty, this`deleted
      ensures Valid()
      ensures View() == Put(old(View()), x)
    {
      OverlaySet(db, Pending(), x);
      hide Overlay, GoodBuffer, GoodDb;
      var k := KeyOf(x);
      deleted := deleted - {k};
      dirty := dirty[k := x];
    }

    method Del(k: Key)
      requires Valid() && !k.ForeignKey?
      modifies this`dirty, this`deleted
      ensures Valid()
      ensures View() == Drop(old(View()), k)
    {
      OverlayDel(db, Pending(), k);
      hide Overlay, GoodBuffer, GoodDb;
      dirty := dirty - {k};
      deleted := deleted + {k};
    }

    // ---- Typed accessors ----

    method GetAccount(a: string) returns (r: Account)
      requires Valid()
      ensures r == AccountOf(View(), a)
    {
      var data := Get(AccountKey(a));
      if data.None? {
        return Account(a, 0, 0);
      }
      return data.value.account;
    }

    method SetAccount(acc: Account)
      requires Valid()
      modifies this`dirty, this`deleted
      ensures Valid() && View() == Put(old(View()), AccountV(acc))
    {
      Set(AccountV(acc));
    }

    method GetAsset(id: string) returns (r: Option<Asset>)
      requires Valid()
      ensures r == AssetOf(View(), id)
    {
      var data := Get(AssetKey(id));
      return if data.None? then None else Some(data.value.asset);
    }

    method GetTemplate(id: string) returns (r: Option<Template>)
      requires Valid()
      ensures r == TemplateOf(View(), id)
    {
      var data := Get(TemplateKey(id));
      return if data.None? then None else Some(data.value.template);
    }

    method GetSession(id: string) returns (r: Option<Session>)
      requires Valid()
      ensures r == SessionOf(View(), id)
    {
      var data := Get(SessionKey(id));
      return if data.None? then None else Some(data.value.session);
    }

    method GetListing(id: string) returns (r: Option<Listing>)
      requires Valid()
      ensures r == ListingOf(View(), id)
    {
      var data := Get(ListingKey(id));
      return if data.None? then None else Some(data.value.listing);
    }

    // ---- Snapshots ----

    method Snapshot() returns (id: int)
      requires Valid()
      modifies this`snapshots
      ensures Valid() && id == |old(snapshots)|
      ensures snapshots == old(snapshots) + [Pending()]
    {
      snapshots := snapshots + [Pending()];
      id := |snapshots| - 1;
    }

    method RevertToSnapshot(id: int) returns (ok: bool)
      requires Valid()
      modifies this`dirty, this`deleted, this`snapshots
      ensures Valid() && (ok <==> 0 <= id < |old(snapshots)|)
      ensures ok ==> Pending() == old(snapshots)[id] && snapshots == old(snapshots)[..id]
      ensures !ok ==> Pending() == old(Pending()) && snapshots == old(snapshots)
    {
      if id < 0 || id >= |snapshots| {
        return false;
      }
      var snap := snapshots[id];
      dirty := snap.dirty;
      deleted := snap.deleted;
      snapshots := snapshots[..id];
      return true;
    }

    // ---- Root and commit ----

    /** Copy entries of the database, met in any order. */
    method CopyEntries(hits: set<Key>, base: map<string, string>, ghost view: View)
      returns (merged: map<string, string>, ghost scanned: View)
      requires Valid() && base == Text(view) && forall k :: k in hits ==> k in db && !k.ForeignKey?
      ensures merged == Text(scanned)
      ensures forall k :: k in scanned <==> k in view || k in hits
      ensures forall k :: k in scanned ==> scanned[k] == if k in hits then db[k] else view[k]
    {
      hide Text, KeyText, GoodBuffer;
      var rest := hits;
      merged, scanned := base, view;
      while rest != {}
        invariant rest <= hits
        invariant forall k :: k in scanned <==> k in view || k in hits - rest
        invariant forall k :: k in scanned ==> scanned[k] == if k in hits - rest then db[k] else view[k]
        invariant merged == Text(scanned)
      {
        var k :| k in rest;
        TextUpdate(scanned, k, db[k]);
        scanned := Put(scanned, db[k]);
        merged := merged[KeyText(k) := ValueJson(db[k])];
        rest := rest - {k};
      }
    }

    /** One iterator of `ComputeRoot`: copy the entries under one prefix. */
    method ScanPrefix(i: nat, base: map<string, string>, ghost view: View)
      returns (merged: map<string, string>, ghost scanned: View)
      requires Valid() && i < |STATE_PREFIXES| && base == Text(view)
      ensures merged == Text(scanned)
      ensures forall k :: k in scanned <==> k in view || (k in db && KindIndex(k) == i)
      ensures forall k :: k in scanned ==> scanned[k] == if k in db && KindIndex(k) == i then db[k] else view[k]
    {
      hide Text, KeyText, GoodBuffer;
      HitsExact(db, i);
      var hits := set k | k in db && STATE_PREFIXES[i] <= KeyText(k);
      merged, scanned := CopyEntries(hits, base, view);
    }

    /** Step 1 of `ComputeRoot`: scan the database once for each state prefix. */
    method ScanPrefixes() returns (merged: map<string, string>)
      requires Valid()
      ensures merged == Text(Persisted(db))
    {
      merged := map[];
      ghost var seen: View := map[];
      for i := 0 to |STATE_PREFIXES|
        invariant forall k :: k in seen <==> k in db && KindIndex(k) < i
        invariant forall k :: k in seen ==> seen[k] == db[k]
        invariant merged == Text(seen)
      {
        merged, seen := ScanPrefix(i, merged, seen);
      }
      SameEntries(seen, Persisted(db));
    }

    /** Step 2: lay the buffered writes over the scanned entries, in any order. */
    method MergeDirty(base: map<string, string>, ghost view: View)
      returns (merged: map<string, string>, ghost mixed: View)
      requires Valid() && base == Text(view)
      ensures merged == Text(mixed)
      ensures forall k :: k in mixed <==> k in view || k in dirty
      ensures forall k :: k in mixed ==> mixed[k] == if k in dirty then dirty[k] else view[k]
    {
      merged, mixed := base, view;
      var rest := dirty.Keys;
      while rest != {}
        invariant rest <= dirty.Keys
        invariant forall k :: k in mixed <==> k in view || (k in dirty && k !in rest)
        invariant forall k :: k in mixed ==> mixed[k] == if k in dirty && k !in rest then dirty[k] else view[k]
        invariant merged == Text(mixed)
      {
        var k :| k in rest;
        TextUpdate(mixed, k, dirty[k]);
        mixed := Put(mixed, dirty[k]);
        merged := merged[KeyText(k) := ValueJson(dirty[k])];
        rest := rest - {k};
      }
    }

    /** Step 3: take out the deleted keys, in any order. */
    method RemoveDeleted(base: map<string, string>, ghost view: View) returns (merged: map<string, string>)
      requires Valid() && base == Text(view)
      ensures merged == Text(view - deleted)
    {
      merged := base;
      ghost var seen: View := view;
      var rest := deleted;
      while rest != {}
        invariant rest <= deleted
        invariant seen == view - (deleted - rest)
        invariant merged == Text(seen)
      {
        var k :| k in rest;
        TextRemove(seen, k);
        seen := seen - {k};
        merged := merged - {KeyText(k)};
        rest := rest - {k};
      }
      assert seen == view - deleted;
    }

    /** The root depends only on the merged view, not on how it is split or iterated. */
    method ComputeRoot() returns (root: string)
      requires Valid()
      ensures root == Root(View())
    {
      var merged := ScanPrefixes();
      ghost var mixed;
      merged, mixed := MergeDirty(merged, Persisted(db));
      merged := RemoveDeleted(merged, mixed);
      SameEntries(mixed - deleted, View());
      root := EncodeMerged(merged);
    }

    /** The batch of `Commit`, built in whatever order the maps are iterated. */
    method BuildBatch() returns (batch: seq<BatchOp>)
      requires Valid()
      ensures ApplyBatch(db, batch) == (db + dirty) - deleted
    {
      batch := [];
      var rest := dirty.Keys;
      while rest != {}
        invariant rest <= dirty.Keys
        invariant ApplyBatch(db, batch) == db + (map k | k in dirty && k !in rest :: dirty[k])
      {
        var k :| k in rest;
        ApplyLast(db, batch, SetOp(k, dirty[k]));
        batch := batch + [SetOp(k, dirty[k])];
        rest := rest - {k};
      }
      assert ApplyBatch(db, batch) == db + dirty;
      rest := deleted;
      while rest != {}
        invariant rest <= deleted
        invariant ApplyBatch(db, batch) == (db + dirty) - (deleted - rest)
      {
        var k :| k in rest;
        ApplyLast(db, batch, DeleteOp(k));
        batch := batch + [DeleteOp(k)];
        rest := rest - {k};
      }
    }

    /** Flush the buffer as one atomic batch; the view does not change, so neither does the root. */
    method Commit()
      requires Valid()
      modifies this
      ensures Valid() && Clean() && snapshots == []
      ensures View() == old(View())
      ensures db == (old(db) + old(dirty)) - old(deleted)
    {
      var batch := BuildBatch();
      FlushKeepsView(db, Pending());
      db := ApplyBatch(db, batch);
      dirty := map[];
      deleted := {};
      snapshots := [];
    }
  }
}
