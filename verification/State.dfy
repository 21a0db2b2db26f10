/** The flat world state: one map from prefixed keys to stored records, and its text form. */
module State {
  import opened Wrappers
  import opened Crypto
  import opened Types
  import opened Encoding
  import Witnesses

  /** Keys of the database. The state keys carry the five prefixes of storage/statedb.go; block data
      and the secondary indexes live under other keys of the same database. */
  datatype Key =
    | AccountKey(address: string)
    | AssetKey(id: string)
    | TemplateKey(id: string)
    | SessionKey(id: string)
    | ListingKey(id: string)
    | ForeignKey(text: string)

  datatype Value =
    | AccountV(account: Account)
    | AssetV(asset: Asset)
    | TemplateV(template: Template)
    | SessionV(session: Session)
    | ListingV(listing: Listing)
    | ForeignV(text: string, data: string)

  const STATE_PREFIXES: seq<string> := ["acct:", "asset:", "tmpl:", "sess:", "list:"]

  function KeyText(k: Key): string {
    match k
    case AccountKey(a) => "acct:" + a
    case AssetKey(id) => "asset:" + id
    case TemplateKey(id) => "tmpl:" + id
    case SessionKey(id) => "sess:" + id
    case ListingKey(id) => "list:" + id
    case ForeignKey(t) => t
  }

  predicate HasStatePrefix(s: string) {
    exists i :: 0 <= i < |STATE_PREFIXES| && STATE_PREFIXES[i] <= s
  }

  /** Nothing outside the state store uses a state prefix. */
  predicate Proper(k: Key) {
    k.ForeignKey? ==> !HasStatePrefix(k.text)
  }

  /** Every record is stored under the key built from its own ID. */
  function KeyOf(v: Value): Key {
    match v
    case AccountV(a) => AccountKey(a.address)
    case AssetV(a) => AssetKey(a.id)
    case TemplateV(t) => TemplateKey(t.id)
    case SessionV(s) => SessionKey(s.id)
    case ListingV(l) => ListingKey(l.id)
    case ForeignV(t, _) => ForeignKey(t)
  }

  lemma PrefixOf(k: Key)
    requires !k.ForeignKey?
    ensures match k
            case AccountKey(a) => STATE_PREFIXES[0] <= KeyText(k) && KeyText(k)[5..] == a
            case AssetKey(a) => STATE_PREFIXES[1] <= KeyText(k) && KeyText(k)[6..] == a
            case TemplateKey(a) => STATE_PREFIXES[2] <= KeyText(k) && KeyText(k)[5..] == a
            case SessionKey(a) => STATE_PREFIXES[3] <= KeyText(k) && KeyText(k)[5..] == a
            case ListingKey(a) => STATE_PREFIXES[4] <= KeyText(k) && KeyText(k)[5..] == a
  {
  }

  /** A key starts with at most one state prefix. */
  lemma PrefixUnique(s: string, i: nat, j: nat)
    requires i < |STATE_PREFIXES| && j < |STATE_PREFIXES|
    requires STATE_PREFIXES[i] <= s && STATE_PREFIXES[j] <= s
    ensures i == j
  {
    var p, q := STATE_PREFIXES[i], STATE_PREFIXES[j];
    assert p[0] == s[0] == q[0] && p[1] == s[1] == q[1] && p[2] == s[2] == q[2];
  }

  function KindIndex(k: Key): nat {
    match k
    case AccountKey(_) => 0
    case AssetKey(_) => 1
    case TemplateKey(_) => 2
    case SessionKey(_) => 3
    case ListingKey(_) => 4
    case ForeignKey(_) => 5
  }

  /** The prefix scan with the i-th prefix meets exactly the keys of the i-th kind. */
  lemma PrefixScanExact(k: Key, i: nat)
    requires Proper(k) && i < |STATE_PREFIXES|
    ensures STATE_PREFIXES[i] <= KeyText(k) <==> KindIndex(k) == i
  {
    if !k.ForeignKey? {
      PrefixOf(k);
      if STATE_PREFIXES[i] <= KeyText(k) {
        PrefixUnique(KeyText(k), i, KindIndex(k));
      }
    }
  }

  /** Different keys have different texts. */
  lemma KeyTextInjective(j: Key, k: Key)
    requires Proper(j) && Proper(k) && KeyText(j) == KeyText(k)
    ensures j == k
  {
    if !j.ForeignKey? {
      PrefixOf(j);
      PrefixScanExact(k, KindIndex(j));
      PrefixOf(k);
    } else if !k.ForeignKey? {
      PrefixScanExact(j, KindIndex(k));
      PrefixOf(k);
    }
  }

  ghost predicate WellKeyed(m: map<Key, Value>) {
    forall k :: k in m ==> !k.ForeignKey? && KeyOf(m[k]) == k
  }

  /** The world state as one flat map. */
  type View = m: map<Key, Value> | WellKeyed(m) witness map[]

  function Put(v: View, x: Value): (r: View)
    requires !x.ForeignV?
  {
    v[KeyOf(x) := x]
  }

  function Drop(v: View, k: Key): View {
    v - {k}
  }

  // ---- Typed lookups ----

  /** A missing account reads as an empty one. */
  function AccountOf(v: View, a: string): (r: Account)
    ensures r.address == a
  {
    if AccountKey(a) in v then v[AccountKey(a)].account else Account(a, 0, 0)
  }

  function AssetOf(v: View, id: string): (r: Option<Asset>)
    ensures r.Some? ==> r.value.id == id
  {
    if AssetKey(id) in v then Some(v[AssetKey(id)].asset) else None
  }

  function TemplateOf(v: View, id: string): (r: Option<Template>)
    ensures r.Some? ==> r.value.id == id
  {
    if TemplateKey(id) in v then Some(v[TemplateKey(id)].template) else None
  }

  function SessionOf(v: View, id: string): (r: Option<Session>)
    ensures r.Some? ==> r.value.id == id
  {
    if SessionKey(id) in v then Some(v[SessionKey(id)].session) else None
  }

  function ListingOf(v: View, id: string): (r: Option<Listing>)
    ensures r.Some? ==> r.value.id == id
  {
    if ListingKey(id) in v then Some(v[ListingKey(id)].listing) else None
  }

  // ---- A witness for the encoding of records ----

  function BoolText(b: bool): string {
    if b then "t" else "f"
  }

  /** The entries of a map in key order, so that equal maps give equal lists. */
  function Flatten(m: map<string, uint64>): seq<string> {
    if m == map[] then []
    else
      var k := Least(m.Keys);
      [k, Witnesses.IntText(m[k])] + Flatten(m - {k})
  }

  lemma {:induction false} FlattenInjective(m: map<string, uint64>, n: map<string, uint64>)
    requires Flatten(m) == Flatten(n)
    ensures m == n
  {
    if m != map[] && n != map[] {
      var j, k := Least(m.Keys), Least(n.Keys);
      assert Flatten(m)[0] == j && Flatten(n)[0] == k;
      assert Flatten(m)[1] == Witnesses.IntText(m[j]) && Flatten(n)[1] == Witnesses.IntText(n[k]);
      Witnesses.IntTextInjective(m[j], n[k]);
      assert Flatten(m - {j}) == Flatten(m)[2..] == Flatten(n)[2..] == Flatten(n - {k});
      FlattenInjective(m - {j}, n - {k});
      assert m == (m - {j})[j := m[j]] && n == (n - {k})[k := n[k]];
    }
  }

  function PackPayout(p: Payout): string {
    if p.None? then "null" else ['='] + Witnesses.Pack(Flatten(p.value))
  }

  lemma PackPayoutInjective(p: Payout, q: Payout)
    requires PackPayout(p) == PackPayout(q)
    ensures p == q
  {
    assert "null"[0] == 'n';
    assert p.Some? ==> PackPayout(p)[0] == '=' && PackPayout(p)[1..] == Witnesses.Pack(Flatten(p.value));
    assert q.Some? ==> PackPayout(q)[0] == '=' && PackPayout(q)[1..] == Witnesses.Pack(Flatten(q.value));
    if p.Some? && q.Some? {
      Witnesses.PackInjective(Flatten(p.value), Flatten(q.value));
      FlattenInjective(p.value, q.value);
    }
  }

  /** The fields of a record other than its ID, as texts. */
  function Fields(v: Value): seq<string> {
    match v
    case AccountV(a) => [Witnesses.IntText(a.balance), Witnesses.IntText(a.nonce)]
    case AssetV(a) =>
      [a.templateID, a.owner, a.properties, BoolText(a.tradeable), Witnesses.IntText(a.mintedAt), a.activeListingID]
    case TemplateV(t) => [t.name, t.schema, BoolText(t.tradeable), t.creator]
    case SessionV(s) =>
      [s.gameID, s.creator, Witnesses.Pack(s.players), Witnesses.IntText(s.stakes), BoolText(s.status.Open?),
       PackPayout(s.outcome), Witnesses.IntText(s.createdAt), Witnesses.IntText(s.closedAt)]
    case ListingV(l) =>
      [l.assetID, l.seller, Witnesses.IntText(l.price), BoolText(l.active), Witnesses.IntText(l.createdAt)]
    case ForeignV(_, data) => [data]
  }

  lemma FieldsInjective(x: Value, y: Value)
    requires KeyOf(x) == KeyOf(y) && Fields(x) == Fields(y)
    ensures x == y
  {
    var f, g := Fields(x), Fields(y);
    match x
    case AccountV(a) =>
      assert f[0] == g[0] && f[1] == g[1];
      Witnesses.IntTextInjective(a.balance, y.account.balance);
      Witnesses.IntTextInjective(a.nonce, y.account.nonce);
    case AssetV(a) =>
      assert f[0] == g[0] && f[1] == g[1] && f[2] == g[2] && f[3] == g[3] && f[4] == g[4] && f[5] == g[5];
      Witnesses.IntTextInjective(a.mintedAt, y.asset.mintedAt);
    case TemplateV(t) =>
      assert f[0] == g[0] && f[1] == g[1] && f[2] == g[2] && f[3] == g[3];
    case SessionV(s) =>
      assert f[0] == g[0] && f[1] == g[1] && f[2] == g[2] && f[3] == g[3];
      assert f[4] == g[4] && f[5] == g[5] && f[6] == g[6] && f[7] == g[7];
      Witnesses.PackInjective(s.players, y.session.players);
      Witnesses.IntTextInjective(s.stakes, y.session.stakes);
      PackPayoutInjective(s.outcome, y.session.outcome);
      Witnesses.IntTextInjective(s.createdAt, y.session.createdAt);
      Witnesses.IntTextInjective(s.closedAt, y.session.closedAt);
    case ListingV(l) =>
      assert f[0] == g[0] && f[1] == g[1] && f[2] == g[2] && f[3] == g[3] && f[4] == g[4];
      Witnesses.IntTextInjective(l.price, y.listing.price);
      Witnesses.IntTextInjective(l.createdAt, y.listing.createdAt);
    case ForeignV(_, _) =>
      assert f[0] == g[0];
  }

  function PackValue(v: Value): string {
    Witnesses.Pack(Fields(v))
  }

  lemma PackValueIsEncoding()
    ensures IsValueEncoding(PackValue)
  {
    forall x, y | KeyOf(x) == KeyOf(y) && PackValue(x) == PackValue(y)
      ensures x == y
    {
      Witnesses.PackInjective(Fields(x), Fields(y));
      FieldsInjective(x, y);
    }
  }

  // ---- Text form and root ----

  /** The JSON text of a record determines it among the records that fit the same key. */
  ghost predicate IsValueEncoding(f: Value -> string) {
    forall x, y {:trigger f(x), f(y)} :: KeyOf(x) == KeyOf(y) && f(x) == f(y) ==> x == y
  }

  type ValueEncoding = f: Value -> string | IsValueEncoding(f)
    witness (PackValueIsEncoding(); PackValue)

  /** `json.Marshal` of a stored record. */
  const ValueJson: ValueEncoding

  ghost predicate ProperKeys(m: map<Key, Value>) {
    forall k :: k in m ==> Proper(k)
  }

  /** The store as the source sees it: textual keys and encoded values. */
  ghost function Text(m: map<Key, Value>): map<string, string> {
    if m == map[] then map[] else var k :| k in m; Text(m - {k})[KeyText(k) := ValueJson(m[k])]
  }

  lemma {:induction false} TextSource(m: map<Key, Value>, t: string)
    requires t in Text(m)
    ensures exists k :: k in m && KeyText(k) == t
  {
    var k :| k in m && Text(m) == Text(m - {k})[KeyText(k) := ValueJson(m[k])];
    if t != KeyText(k) {
      TextSource(m - {k}, t);
      var j :| j in m - {k} && KeyText(j) == t;
      assert j in m;
    }
  }

  lemma {:induction false} TextEntry(m: map<Key, Value>, k: Key)
    requires ProperKeys(m) && k in m
    ensures KeyText(k) in Text(m) && Text(m)[KeyText(k)] == ValueJson(m[k])
  {
    var j :| j in m && Text(m) == Text(m - {j})[KeyText(j) := ValueJson(m[j])];
    if j != k {
      TextEntry(m - {j}, k);
      if KeyText(j) == KeyText(k) {
        KeyTextInjective(j, k);
      }
    }
  }

  /** Each entry is found under its text, and nothing else is. */
  lemma TextAt(m: map<Key, Value>, k: Key)
    requires ProperKeys(m) && Proper(k)
    ensures k in m <==> KeyText(k) in Text(m)
    ensures k in m ==> Text(m)[KeyText(k)] == ValueJson(m[k])
  {
    if k in m {
      TextEntry(m, k);
    }
    if KeyText(k) in Text(m) {
      TextSource(m, KeyText(k));
      var j :| j in m && KeyText(j) == KeyText(k);
      KeyTextInjective(j, k);
    }
  }

  lemma TextUpdate(m: map<Key, Value>, k: Key, x: Value)
    requires ProperKeys(m) && Proper(k)
    ensures Text(m[k := x]) == Text(m)[KeyText(k) := ValueJson(x)]
  {
    var n := m[k := x];
    var r := Text(m)[KeyText(k) := ValueJson(x)];
    TextAt(n, k);
    forall t | t in Text(n)
      ensures t in r && Text(n)[t] == r[t]
    {
      TextSource(n, t);
      var j :| j in n && KeyText(j) == t;
      TextAt(n, j);
      if j != k {
        TextAt(m, j);
        if KeyText(j) == KeyText(k) {
          KeyTextInjective(j, k);
        }
      }
    }
    forall t | t in r
      ensures t in Text(n)
    {
      if t != KeyText(k) {
        TextSource(m, t);
        var j :| j in m && KeyText(j) == t;
        TextAt(n, j);
      }
    }
  }

  lemma TextRemove(m: map<Key, Value>, k: Key)
    requires ProperKeys(m) && Proper(k)
    ensures Text(m - {k}) == Text(m) - {KeyText(k)}
  {
    var n := m - {k};
    var r := Text(m) - {KeyText(k)};
    forall t | t in Text(n)
      ensures t in r && Text(n)[t] == r[t]
    {
      TextSource(n, t);
      var j :| j in n && KeyText(j) == t;
      TextAt(n, j);
      TextAt(m, j);
      TextAt(n, k);
    }
    forall t | t in r
      ensures t in Text(n)
    {
      TextSource(m, t);
      var j :| j in m && KeyText(j) == t;
      TextAt(n, j);
    }
  }

  /** The state root is a function of the merged view alone. */
  ghost function Root(v: View): (r: string)
    ensures r != ""
  {
    Hash(RootPreimage(Text(v)))
  }

  lemma SameTextSameEntry(v: View, w: View, k: Key)
    requires Text(v) == Text(w) && k in v
    ensures k in w && v[k] == w[k]
  {
    TextAt(v, k);
    TextAt(w, k);
    var x, y := v[k], w[k];
    assert KeyOf(x) == KeyOf(y) && ValueJson(x) == ValueJson(y);
  }

  lemma SameTextIncluded(v: View, w: View)
    requires Text(v) == Text(w)
    ensures forall k :: k in v ==> k in w && v[k] == w[k]
  {
    forall k | k in v
      ensures k in w && v[k] == w[k]
    {
      SameTextSameEntry(v, w, k);
    }
  }

  lemma SameEntries(v: View, w: View)
    requires forall k :: k in v ==> k in w && v[k] == w[k]
    requires forall k :: k in w ==> k in v
    ensures v == w
  {
  }

  lemma TextInjective(v: View, w: View)
    requires Text(v) == Text(w)
    ensures v == w
  {
    SameTextIncluded(v, w);
    SameTextIncluded(w, v);
    SameEntries(v, w);
  }

  /** Two stores have the same root exactly when their world states are equal. */
  lemma RootInjective(v: View, w: View)
    requires ShortMap(Text(v)) && ShortMap(Text(w))
    ensures Root(v) == Root(w) <==> v == w
  {
    if Root(v) == Root(w) {
      var x, y := RootPreimage(Text(v)), RootPreimage(Text(w));
      assert Hash(x) == Hash(y) ==> x == y;
      RootPreimageInjective(Text(v), Text(w));
      TextInjective(v, w);
    }
  }
}
