/** The records of `core/`: world-state entities, transactions and blocks. */
module Types {
  import opened Wrappers
  import opened Crypto
  import Witnesses

  // ---- World state (core/state.go) ----

  datatype Account = Account(address: string, balance: uint64, nonce: uint64)

  /** `properties` and `schema` are open JSON objects that no rule inspects; they are kept as text. */
  datatype Asset = Asset(
    id: string, templateID: string, owner: string, properties: string, tradeable: bool,
    mintedAt: int, activeListingID: string)

  datatype Template = Template(id: string, name: string, schema: string, tradeable: bool, creator: string)

  datatype Status = Open | Closed

  /** Rewards by recipient. A missing or null JSON object is kept apart from an empty one: both list no
      reward, but they are stored as different text. */
  type Payout = Option<map<string, uint64>>

  function Entries(p: Payout): map<string, uint64> {
    if p.None? then map[] else p.value
  }

  datatype Session = Session(
    id: string, gameID: string, creator: string, players: seq<string>, stakes: uint64,
    status: Status, outcome: Payout, createdAt: int, closedAt: int)

  datatype Listing = Listing(
    id: string, assetID: string, seller: string, price: uint64, active: bool, createdAt: int)

  // ---- Transactions (core/transaction.go) ----

  datatype TxBody = TxBody(
    chainID: string, txType: string, from: string, nonce: uint64, fee: uint64, timestamp: int,
    payload: string)

  datatype Transaction = Transaction(id: string, body: TxBody, signature: string)

  /** JSON re-marshalling compacts the raw payload, so the encoded body fixes every field except
      the insignificant white space of the payload. Only the other fields are assumed recoverable. */
  ghost predicate IsBodyEncoding(f: TxBody -> string) {
    forall a, b :: f(a) == f(b) ==> a.(payload := b.payload) == b
  }

  function PackBody(b: TxBody): string {
    Witnesses.Pack([b.chainID, b.txType, b.from, Witnesses.IntText(b.nonce), Witnesses.IntText(b.fee),
                    Witnesses.IntText(b.timestamp)])
  }

  lemma PackBodyIsEncoding()
    ensures IsBodyEncoding(PackBody)
  {
    forall a, b | PackBody(a) == PackBody(b)
      ensures a.(payload := b.payload) == b
    {
      var x := [a.chainID, a.txType, a.from, Witnesses.IntText(a.nonce), Witnesses.IntText(a.fee),
                Witnesses.IntText(a.timestamp)];
      var y := [b.chainID, b.txType, b.from, Witnesses.IntText(b.nonce), Witnesses.IntText(b.fee),
                Witnesses.IntText(b.timestamp)];
      Witnesses.PackInjective(x, y);
      assert x[0] == y[0] && x[1] == y[1] && x[2] == y[2] && x[3] == y[3] && x[4] == y[4] && x[5] == y[5];
      Witnesses.IntTextInjective(a.nonce, b.nonce);
      Witnesses.IntTextInjective(a.fee, b.fee);
      Witnesses.IntTextInjective(a.timestamp, b.timestamp);
    }
  }

  type BodyEncoding = f: TxBody -> string | IsBodyEncoding(f)
    witness (PackBodyIsEncoding(); PackBody)

  const BodyJson: BodyEncoding

  function TxHash(b: TxBody): string {
    Hash(BodyJson(b))
  }

  /** `Transaction.Verify`: a usable sender key, an untampered ID and a valid signature. */
  predicate Verified(tx: Transaction) {
    && tx.body.from != ""
    && IsPubKeyHex(tx.body.from)
    && tx.id == TxHash(tx.body)
    && Ed25519.verify(tx.body.from, TxHash(tx.body), tx.signature)
  }

  /** The sender's key is well formed, the ID is the digest of this very body, and the key has signed it. */
  predicate Signed(tx: Transaction) {
    && IsPubKeyHex(tx.body.from) && tx.id == Hash(BodyJson(tx.body))
    && Ed25519.verify(tx.body.from, tx.id, tx.signature)
  }

  lemma VerifyExact(tx: Transaction)
    ensures Verified(tx) <==> Signed(tx)
  {
  }

  /** Equal IDs of verified transactions mean equal bodies, up to the white space of the payload; so they have
      the same sender and the same nonce. */
  lemma IdFixesSenderAndNonce(s: Transaction, t: Transaction)
    requires Verified(s) && Verified(t) && s.id == t.id
    ensures s.body.from == t.body.from && s.body.nonce == t.body.nonce
    ensures s.body == t.body.(payload := s.body.payload)
  {
    assert BodyJson(s.body) == BodyJson(t.body);
  }

  /** The decoded payload, one constructor for each registered transaction type. */
  datatype Call =
    | Transfer(to: string, amount: uint64)
    | MintAsset(templateID: string, owner: string, properties: string)
    | BurnAsset(assetID: string)
    | TransferAsset(assetID: string, to: string)
    | RegisterTemplate(id: string, name: string, schema: string, tradeable: bool)
    | SessionOpen(sessionID: string, gameID: string, players: seq<string>, stakes: uint64)
    | SessionResult(sessionID: string, result: Payout)
    | ListMarket(assetID: string, price: uint64)
    | BuyMarket(listingID: string)

  function TypeName(c: Call): string {
    match c
    case Transfer(_, _) => "transfer"
    case MintAsset(_, _, _) => "mint_asset"
    case BurnAsset(_) => "burn_asset"
    case TransferAsset(_, _) => "transfer_asset"
    case RegisterTemplate(_, _, _, _) => "register_template"
    case SessionOpen(_, _, _, _) => "session_open"
    case SessionResult(_, _) => "session_result"
    case ListMarket(_, _) => "list_market"
    case BuyMarket(_) => "buy_market"
  }

  const REGISTERED: set<string> := {
    "transfer", "mint_asset", "burn_asset", "transfer_asset", "register_template",
    "session_open", "session_result", "list_market", "buy_market" }

  /** Each handler decodes the raw payload with the record of its own transaction type. */
  ghost predicate IsDecoder(d: (string, string) -> Option<Call>) {
    forall t, raw :: d(t, raw).Some? ==> TypeName(d(t, raw).value) == t
  }

  type Decoder = d: (string, string) -> Option<Call> | IsDecoder(d)
    witness (_, _) => None

  const Decode: Decoder

  // ---- Blocks (core/block.go) ----

  datatype Header = Header(
    chainID: string, height: int, prevHash: string, stateRoot: string, txRoot: string,
    timestamp: int, proposer: string)

  datatype Block = Block(header: Header, txs: seq<Transaction>, hash: string, signature: string)

  ghost predicate IsHeaderEncoding(f: Header -> string) {
    forall a, b :: f(a) == f(b) ==> a == b
  }

  function PackHeader(h: Header): string {
    Witnesses.Pack([h.chainID, Witnesses.IntText(h.height), h.prevHash, h.stateRoot, h.txRoot,
                    Witnesses.IntText(h.timestamp), h.proposer])
  }

  lemma PackHeaderIsEncoding()
    ensures IsHeaderEncoding(PackHeader)
  {
    forall a, b | PackHeader(a) == PackHeader(b)
      ensures a == b
    {
      var x := [a.chainID, Witnesses.IntText(a.height), a.prevHash, a.stateRoot, a.txRoot,
                Witnesses.IntText(a.timestamp), a.proposer];
      var y := [b.chainID, Witnesses.IntText(b.height), b.prevHash, b.stateRoot, b.txRoot,
                Witnesses.IntText(b.timestamp), b.proposer];
      Witnesses.PackInjective(x, y);
      assert x[0] == y[0] && x[1] == y[1] && x[2] == y[2] && x[3] == y[3];
      assert x[4] == y[4] && x[5] == y[5] && x[6] == y[6];
      Witnesses.IntTextInjective(a.height, b.height);
      Witnesses.IntTextInjective(a.timestamp, b.timestamp);
    }
  }

  type HeaderEncoding = f: Header -> string | IsHeaderEncoding(f)
    witness (PackHeaderIsEncoding(); PackHeader)

  const HeaderJson: HeaderEncoding

  /** `Block.ComputeHash`. */
  function HeaderHash(h: Header): (r: string)
    ensures r != ""
  {
    Hash(HeaderJson(h))
  }

  predicate Hashed(b: Block) {
    b.hash == HeaderHash(b.header)
  }

  /** Hashed blocks with equal hashes have equal headers. */
  lemma HashFixesHeader(a: Block, b: Block)
    requires Hashed(a) && Hashed(b) && a.hash == b.hash
    ensures a.header == b.header
  {
    assert HeaderJson(a.header) == HeaderJson(b.header);
  }
}
