/** Length-prefixed byte streams: the preimages of the transaction root (core/block.go) and of the
    state root (storage/statedb.go), and why each determines what was encoded. */
module Encoding {
  import opened Crypto
  import opened Types

  const LIMIT: nat := 0x1_0000_0000

  /** `binary.BigEndian.PutUint32` of `uint32(n)`: the conversion truncates. */
  function BigEndian32(n: nat): string {
    [(n / 0x100_0000 % 0x100) as char, (n / 0x1_0000 % 0x100) as char, (n / 0x100 % 0x100) as char, (n % 0x100) as char]
  }

  function FromBigEndian32(s: string): int
    requires |s| == 4
  {
    s[0] as int * 0x100_0000 + s[1] as int * 0x1_0000 + s[2] as int * 0x100 + s[3] as int
  }

  lemma BigEndian32RoundTrip(n: nat)
    requires n < LIMIT
    ensures FromBigEndian32(BigEndian32(n)) == n
  {
    assert n / 0x100 == n / 0x1_0000 * 0x100 + n / 0x100 % 0x100;
    assert n / 0x1_0000 == n / 0x100_0000 * 0x100 + n / 0x1_0000 % 0x100;
    assert n / 0x100_0000 % 0x100 == n / 0x100_0000;
  }

  function Frame(s: string): string {
    BigEndian32(|s|) + s
  }

  function Frames(items: seq<string>): string {
    if items == [] then [] else Frame(items[0]) + Frames(items[1..])
  }

  predicate Short(items: seq<string>) {
    forall i :: 0 <= i < |items| ==> |items[i]| < LIMIT
  }

  lemma FramePrefixUnique(a: string, x: string, b: string, y: string)
    requires |a| < LIMIT && |b| < LIMIT
    requires Frame(a) + x == Frame(b) + y
    ensures a == b && x == y
  {
    var w := Frame(a) + x;
    assert BigEndian32(|a|) == w[..4] == BigEndian32(|b|);
    BigEndian32RoundTrip(|a|);
    BigEndian32RoundTrip(|b|);
    assert a == w[4..4 + |a|] == b;
    assert x == w[4 + |a|..] == y;
  }

  /** A stream of frames decodes in only one way. */
  lemma {:induction false} FramesInjective(a: seq<string>, b: seq<string>)
    requires Short(a) && Short(b)
    requires Frames(a) == Frames(b)
    ensures a == b
  {
    if a != [] && b != [] {
      FramePrefixUnique(a[0], Frames(a[1..]), b[0], Frames(b[1..]));
      FramesInjective(a[1..], b[1..]);
      assert a == [a[0]] + a[1..] && b == [b[0]] + b[1..];
    }
  }

  lemma {:induction false} FramesAppend(items: seq<string>, last: string)
    ensures Frames(items + [last]) == Frames(items) + Frame(last)
  {
    if items == [] {
      assert [last][1..] == [];
      assert [] + [last] == [last];
    } else {
      FramesAppend(items[1..], last);
      assert (items + [last])[1..] == items[1..] + [last];
    }
  }

  // ---- Transaction root ----

  function Ids(txs: seq<Transaction>): (ids: seq<string>)
    ensures |ids| == |txs|
    ensures forall i :: 0 <= i < |txs| ==> ids[i] == txs[i].id
  {
    seq(|txs|, i requires 0 <= i < |txs| => txs[i].id)
  }

  function TxRootPreimage(ids: seq<string>): string {
    if ids == [] then "empty" else Frames(ids)
  }

  function TxRoot(txs: seq<Transaction>): string {
    Hash(TxRootPreimage(Ids(txs)))
  }

  method ComputeTxRoot(txs: seq<Transaction>) returns (root: string)
    ensures root == TxRoot(txs)
  {
    if |txs| == 0 {
      return Hash("empty");
    }
    var buf := "";
    for i := 0 to |txs|
      invariant buf == Frames(Ids(txs)[..i])
    {
      var id := txs[i].id;
      FramesAppend(Ids(txs)[..i], id);
      assert Ids(txs)[..i + 1] == Ids(txs)[..i] + [id];
      buf := buf + BigEndian32(|id|);
      buf := buf + id;
    }
    assert Ids(txs)[..|txs|] == Ids(txs);
    return Hash(buf);
  }

  /** No non-empty list of IDs is encoded as the five bytes that stand for the empty list. */
  lemma NonEmptyIsNotEmptyMark(ids: seq<string>)
    requires ids != [] && Short(ids)
    ensures Frames(ids) != "empty"
  {
    var w := Frames(ids);
    assert |w| >= 4 + |ids[0]|;
    assert w[..4] == BigEndian32(|ids[0]|);
    BigEndian32RoundTrip(|ids[0]|);
    assert FromBigEndian32("empt") > 5;
    assert "empty"[..4] == "empt";
  }

  /** Two transaction lists have the same root exactly when they list the same IDs in the same order. */
  lemma TxRootInjective(s: seq<Transaction>, t: seq<Transaction>)
    requires Short(Ids(s)) && Short(Ids(t))
    ensures TxRoot(s) == TxRoot(t) <==> Ids(s) == Ids(t)
  {
    if TxRoot(s) == TxRoot(t) {
      assert TxRootPreimage(Ids(s)) == TxRootPreimage(Ids(t));
      if Ids(s) != [] && Ids(t) != [] {
        FramesInjective(Ids(s), Ids(t));
      } else if Ids(s) != [] {
        NonEmptyIsNotEmptyMark(Ids(s));
      } else if Ids(t) != [] {
        NonEmptyIsNotEmptyMark(Ids(t));
      }
    }
  }

  // ---- Sorted keys ----

  /** Go's bytewise string order. */
  predicate Leq(a: string, b: string) {
    a == [] || (b != [] && (a[0] < b[0] || (a[0] == b[0] && Leq(a[1..], b[1..]))))
  }

  lemma {:induction false} LeqTotal(a: string, b: string)
    ensures Leq(a, b) || Leq(b, a)
  {
    if a != [] && b != [] {
      LeqTotal(a[1..], b[1..]);
    }
  }

  lemma {:induction false} LeqAntisymmetric(a: string, b: string)
    requires Leq(a, b) && Leq(b, a)
    ensures a == b
  {
    if a != [] && b != [] {
      LeqAntisymmetric(a[1..], b[1..]);
      assert a == [a[0]] + a[1..] && b == [b[0]] + b[1..];
    }
  }

  lemma {:induction false} LeqTransitive(a: string, b: string, c: string)
    requires Leq(a, b) && Leq(b, c)
    ensures Leq(a, c)
  {
    if a != [] && a[0] == b[0] == c[0] {
      LeqTransitive(a[1..], b[1..], c[1..]);
    }
  }

  /** The two strings agree before `i` and the first one is smaller there. */
  predicate SmallerAt(a: string, b: string, i: nat) {
    i < |a| && i < |b| && a[..i] == b[..i] && a[i] < b[i]
  }

  /** This is the lexicographic order: a prefix comes first, and otherwise the first difference decides. */
  lemma {:induction false} LeqMeans(a: string, b: string)
    ensures Leq(a, b) <==> a <= b || exists i: nat :: SmallerAt(a, b, i)
  {
    if a != [] && b != [] && a[0] == b[0] {
      LeqMeans(a[1..], b[1..]);
      assert a[1..] <= b[1..] ==> a <= b;
      assert a <= b ==> a[1..] <= b[1..];
      if i: nat :| SmallerAt(a[1..], b[1..], i) {
        assert a[..i + 1] == [a[0]] + a[1..][..i] && b[..i + 1] == [b[0]] + b[1..][..i];
        assert SmallerAt(a, b, i + 1);
      }
      if i: nat :| SmallerAt(a, b, i) {
        assert a[1..][..i - 1] == a[..i][1..] && b[1..][..i - 1] == b[..i][1..];
        assert SmallerAt(a[1..], b[1..], i - 1);
      }
    } else if a != [] && b != [] && a[0] < b[0] {
      assert SmallerAt(a, b, 0);
    }
  }

  lemma BigEndian32Order(m: nat, n: nat) returns (i: nat)
    requires m < n < LIMIT
    ensures SmallerAt(BigEndian32(m), BigEndian32(n), i)
  {
    var a, b := BigEndian32(m), BigEndian32(n);
    BigEndian32RoundTrip(m);
    BigEndian32RoundTrip(n);
    i := if a[0] != b[0] then 0 else if a[1] != b[1] then 1 else if a[2] != b[2] then 2 else 3;
  }

  /** Length prefixes sort like the lengths they stand for. */
  lemma BigEndianSorts(m: nat, n: nat)
    requires m < n < LIMIT
    ensures Leq(BigEndian32(m), BigEndian32(n))
  {
    var i := BigEndian32Order(m, n);
    LeqMeans(BigEndian32(m), BigEndian32(n));
  }

  predicate Sorted(keys: seq<string>) {
    forall i, j :: 0 <= i < j < |keys| ==> Leq(keys[i], keys[j])
  }

  predicate Distinct(keys: seq<string>) {
    forall i, j :: 0 <= i < j < |keys| ==> keys[i] != keys[j]
  }

  function Elements(keys: seq<string>): set<string> {
    set k | k in keys
  }

  function Insert(k: string, keys: seq<string>): seq<string> {
    if keys == [] then [k]
    else if Leq(k, keys[0]) then [k] + keys
    else [keys[0]] + Insert(k, keys[1..])
  }

  /** `sort.Strings`. */
  function SortStrings(keys: seq<string>): seq<string> {
    if keys == [] then [] else Insert(keys[0], SortStrings(keys[1..]))
  }

  lemma {:induction false} InsertElements(k: string, keys: seq<string>)
    ensures forall x :: x in Insert(k, keys) <==> x == k || x in keys
  {
    if keys != [] {
      InsertElements(k, keys[1..]);
      assert keys == [keys[0]] + keys[1..];
    }
  }

  /** Prepending a lower bound keeps a list ordered. */
  lemma ConsSorted(k: string, keys: seq<string>)
    requires Sorted(keys) && (forall x :: x in keys ==> Leq(k, x))
    ensures Sorted([k] + keys)
  {
  }

  lemma ConsDistinct(k: string, keys: seq<string>)
    requires Distinct(keys) && k !in keys
    ensures Distinct([k] + keys)
  {
  }

  lemma {:induction false} InsertOrdered(k: string, keys: seq<string>)
    requires Sorted(keys) && Distinct(keys) && k !in keys
    ensures Sorted(Insert(k, keys)) && Distinct(Insert(k, keys))
  {
    InsertElements(k, keys);
    if keys == [] {
    } else if Leq(k, keys[0]) {
      forall x | x in keys
        ensures Leq(k, x)
      {
        if x != keys[0] {
          LeqTransitive(k, keys[0], x);
        }
      }
      ConsSorted(k, keys);
      ConsDistinct(k, keys);
    } else {
      LeqTotal(k, keys[0]);
      InsertElements(k, keys[1..]);
      InsertOrdered(k, keys[1..]);
      ConsSorted(keys[0], Insert(k, keys[1..]));
      ConsDistinct(keys[0], Insert(k, keys[1..]));
    }
  }

  lemma {:induction false} SortStringsCorrect(keys: seq<string>)
    requires Distinct(keys)
    ensures Sorted(SortStrings(keys)) && Distinct(SortStrings(keys))
    ensures Elements(SortStrings(keys)) == Elements(keys)
  {
    if keys != [] {
      SortStringsCorrect(keys[1..]);
      var tail := SortStrings(keys[1..]);
      assert forall x :: x in tail <==> x in Elements(tail);
      assert keys[0] !in tail;
      InsertElements(keys[0], tail);
      InsertOrdered(keys[0], tail);
      assert keys == [keys[0]] + keys[1..];
    }
  }

  lemma FirstIsLeast(a: seq<string>, x: string)
    requires Sorted(a) && a != [] && x in a
    ensures Leq(a[0], x)
  {
    if x == a[0] {
      LeqTotal(x, x);
    }
  }

  lemma TailElements(a: seq<string>)
    requires a != [] && Distinct(a)
    ensures Elements(a[1..]) == Elements(a) - {a[0]}
  {
    assert a == [a[0]] + a[1..];
  }

  lemma EmptyElements(a: seq<string>)
    ensures Elements(a) == {} <==> a == []
  {
    assert a != [] ==> a[0] in Elements(a);
  }

  /** A set of strings has only one sorted enumeration. */
  lemma {:induction false} SortedUnique(a: seq<string>, b: seq<string>)
    requires Sorted(a) && Sorted(b) && Distinct(a) && Distinct(b)
    requires Elements(a) == Elements(b)
    ensures a == b
  {
    if a == [] || b == [] {
      EmptyElements(a);
      EmptyElements(b);
    } else {
      assert a[0] in Elements(b) && b[0] in Elements(a);
      FirstIsLeast(a, b[0]);
      FirstIsLeast(b, a[0]);
      LeqAntisymmetric(a[0], b[0]);
      TailElements(a);
      TailElements(b);
      SortedUnique(a[1..], b[1..]);
      assert a == [a[0]] + a[1..] && b == [b[0]] + b[1..];
    }
  }

  lemma LeastWith(keys: set<string>, m: string, x: string)
    requires m in keys && forall j :: j in keys ==> Leq(m, j)
    ensures exists k :: k in keys + {x} && forall j :: j in keys + {x} ==> Leq(k, j)
  {
    hide Leq;
    LeqTotal(m, x);
    LeqTotal(x, x);
    var k := if Leq(m, x) then m else x;
    assert k in keys + {x};
    forall j | j in keys + {x}
      ensures Leq(k, j)
    {
      if j in keys && k == x {
        LeqTransitive(x, m, j);
      }
    }
  }

  lemma {:induction false} LeastExists(keys: set<string>)
    requires keys != {}
    ensures exists k :: k in keys && forall j :: j in keys ==> Leq(k, j)
  {
    hide Leq;
    var x :| x in keys;
    LeqTotal(x, x);
    if keys == {x} {
      assert x in keys && forall j :: j in keys ==> Leq(x, j);
    } else {
      var rest := keys - {x};
      assert rest != {} by { assert rest == {} ==> keys == {x}; }
      LeastExists(rest);
      var m :| m in rest && forall j :: j in rest ==> Leq(m, j);
      LeastWith(rest, m, x);
      assert keys == rest + {x};
    }
  }

  /** The first key of a set in the string order. */
  function Least(keys: set<string>): (k: string)
    requires keys != {}
    ensures k in keys
  {
    LeastExists(keys);
    assert forall x, y | Leq(x, y) && Leq(y, x) :: x == y by {
      forall x, y | Leq(x, y) && Leq(y, x)
        ensures x == y
      {
        LeqAntisymmetric(x, y);
      }
    }
    var k :| k in keys && forall j :: j in keys ==> Leq(k, j);
    k
  }

  /** The sorted enumeration of a set, whatever order its elements are met in. */
  ghost function SortedKeys(keys: set<string>): seq<string> {
    if keys == {} then [] else var k :| k in keys; Insert(k, SortedKeys(keys - {k}))
  }

  lemma {:induction false} SortedKeysCorrect(keys: set<string>)
    ensures Sorted(SortedKeys(keys)) && Distinct(SortedKeys(keys))
    ensures Elements(SortedKeys(keys)) == keys
  {
    if keys != {} {
      var k :| k in keys && SortedKeys(keys) == Insert(k, SortedKeys(keys - {k}));
      var rest := SortedKeys(keys - {k});
      SortedKeysCorrect(keys - {k});
      assert forall x :: x in rest <==> x in Elements(rest);
      InsertElements(k, rest);
      InsertOrdered(k, rest);
    }
  }

  /** Sorting any enumeration of a set gives its sorted enumeration. */
  lemma SortIsCanonical(keys: seq<string>)
    requires Distinct(keys)
    ensures SortStrings(keys) == SortedKeys(Elements(keys))
  {
    SortStringsCorrect(keys);
    SortedKeysCorrect(Elements(keys));
    SortedUnique(SortStrings(keys), SortedKeys(Elements(keys)));
  }

  // ---- State root ----

  function Pairs(keys: seq<string>, m: map<string, string>): seq<string>
    requires forall k :: k in keys ==> k in m
  {
    if keys == [] then [] else [keys[0], m[keys[0]]] + Pairs(keys[1..], m)
  }

  lemma {:induction false} PairsAppend(keys: seq<string>, k: string, m: map<string, string>)
    requires forall x :: x in keys + [k] ==> x in m
    ensures Pairs(keys + [k], m) == Pairs(keys, m) + [k, m[k]]
  {
    if keys == [] {
      assert [] + [k] == [k];
    } else {
      assert (keys + [k])[1..] == keys[1..] + [k];
      PairsAppend(keys[1..], k, m);
    }
  }

  lemma {:induction false} PairsShort(keys: seq<string>, m: map<string, string>)
    requires ShortMap(m) && forall k :: k in keys ==> k in m
    ensures Short(Pairs(keys, m))
  {
    if keys != [] {
      PairsShort(keys[1..], m);
    }
  }

  lemma {:induction false} PairsInjective(a: seq<string>, m: map<string, string>, b: seq<string>,
                                          n: map<string, string>)
    requires forall k :: k in a ==> k in m
    requires forall k :: k in b ==> k in n
    requires Pairs(a, m) == Pairs(b, n)
    ensures a == b && forall k :: k in a ==> m[k] == n[k]
  {
    if a != [] && b != [] {
      assert Pairs(a, m)[0] == a[0] && Pairs(b, n)[0] == b[0];
      assert Pairs(a, m)[1] == m[a[0]] && Pairs(b, n)[1] == n[b[0]];
      assert Pairs(a, m)[2..] == Pairs(a[1..], m) && Pairs(b, n)[2..] == Pairs(b[1..], n);
      PairsInjective(a[1..], m, b[1..], n);
      assert a == [a[0]] + a[1..] && b == [b[0]] + b[1..];
    }
  }

  predicate ShortMap(m: map<string, string>) {
    forall k :: k in m ==> |k| < LIMIT && |m[k]| < LIMIT
  }

  ghost function RootPreimage(m: map<string, string>): string {
    SortedKeysCorrect(m.Keys);
    assert forall k :: k in SortedKeys(m.Keys) ==> k in Elements(SortedKeys(m.Keys));
    Frames(Pairs(SortedKeys(m.Keys), m))
  }

  /** Two merged stores have the same preimage exactly when they hold the same entries. */
  lemma RootPreimageInjective(m: map<string, string>, n: map<string, string>)
    requires ShortMap(m) && ShortMap(n)
    ensures RootPreimage(m) == RootPreimage(n) <==> m == n
  {
    if RootPreimage(m) == RootPreimage(n) {
      var a, b := SortedKeys(m.Keys), SortedKeys(n.Keys);
      SortedKeysCorrect(m.Keys);
      SortedKeysCorrect(n.Keys);
      assert forall k :: k in a <==> k in Elements(a);
      assert forall k :: k in b <==> k in Elements(b);
      PairsShort(a, m);
      PairsShort(b, n);
      FramesInjective(Pairs(a, m), Pairs(b, n));
      PairsInjective(a, m, b, n);
      assert m.Keys == n.Keys;
    }
  }

  /** `range` over a Go map meets the keys in an unspecified order. */
  method CollectKeys(merged: map<string, string>) returns (keys: seq<string>)
    ensures Distinct(keys) && Elements(keys) == merged.Keys
  {
    keys := [];
    var rest := merged.Keys;
    while rest != {}
      invariant rest <= merged.Keys
      invariant Distinct(keys) && Elements(keys) == merged.Keys - rest
    {
      var k :| k in rest;
      assert k !in Elements(keys);
      assert Elements(keys + [k]) == Elements(keys) + {k};
      keys := keys + [k];
      rest := rest - {k};
    }
  }

  lemma PairFrames(keys: seq<string>, k: string, m: map<string, string>)
    requires forall x :: x in keys + [k] ==> x in m
    ensures Frames(Pairs(keys + [k], m)) == Frames(Pairs(keys, m)) + Frame(k) + Frame(m[k])
  {
    PairsAppend(keys, k, m);
    FramesAppend(Pairs(keys, m), k);
    FramesAppend(Pairs(keys, m) + [k], m[k]);
    assert Pairs(keys, m) + [k, m[k]] == Pairs(keys, m) + [k] + [m[k]];
  }

  method EncodePairs(keys: seq<string>, merged: map<string, string>) returns (buf: string)
    requires forall k :: k in keys ==> k in merged
    ensures buf == Frames(Pairs(keys, merged))
  {
    buf := "";
    for i := 0 to |keys|
      invariant buf == Frames(Pairs(keys[..i], merged))
    {
      var k := keys[i];
      var v := merged[k];
      PairFrames(keys[..i], k, merged);
      assert keys[..i + 1] == keys[..i] + [k];
      ghost var before := buf;
      buf := buf + BigEndian32(|k|);
      buf := buf + k;
      buf := buf + BigEndian32(|v|);
      buf := buf + v;
      assert buf == before + Frame(k) + Frame(v);
    }
    assert keys[..|keys|] == keys;
  }

  /** Steps 4 and 5 of `ComputeRoot`: collect the keys in any order, sort, encode and hash. */
  method EncodeMerged(merged: map<string, string>) returns (root: string)
    ensures root == Hash(RootPreimage(merged))
  {
    var keys := CollectKeys(merged);
    SortIsCanonical(keys);
    keys := SortStrings(keys);
    SortedKeysCorrect(merged.Keys);
    assert forall k :: k in keys <==> k in Elements(keys);
    var buf := EncodePairs(keys, merged);
    root := Hash(buf);
  }
}
