# TOL Chain ledger, verified in Dafny

This project models TOL Chain (a proof-of-authority ledger for games) as a replicated state machine
and proves what its nodes keep over whole runs. It has four layers.

1. **State store** (`State`, `Encoding`, `StateStore`). The world state is one flat map. `StateDB` is a
   write buffer over a database, with a snapshot stack, commit and a state root; it is proved to refine
   the flat map, and the root's byte stream is proved to determine the map.
2. **Transactions** (`Rules`, `Execution`). `Rules` gives every transaction type as a function on the flat
   map. `Execution.Executor` is the imperative code of the executor and its handlers, proved to compute
   those functions, to report the same error, and to roll back exactly. `Conservation`, `Payments`,
   `History`, `Market`, `Ledger`, `Lifetimes`, `Listings` and `OneShot` prove what the rules keep. `Effects` says
   of each handler exactly when it succeeds and what it leaves, `Provenance` where records come from, and
   `Spending` who can lower a balance.
3. **Chain and consensus** (`Chain`, `Consensus`). The hash-linked chain and its store, block validation,
   block production, and the decision taken on one received block. `Agreement` shows what an equal tip hash
   says about two nodes.
4. **Runs** (`Protocol`, `Nodes`). Block sync, catch-up of a follower, and the ledger invariant in every
   state of every run. `Nodes.Node` is the imperative node.

`Pool` is the mempool and `Indexing` the owner index. `IndexContents` says what that index holds and
`IndexRuns` follows it along whole runs. `dafny verify dfyconfig.toml` checks the project.

## How the outside world is modelled

- `crypto.Hash` is an unknown injective function into non-empty lower-case hex strings. Its fixed length
  of 64 is not modelled, since no total injective function has a fixed-length result. ed25519 is an unknown
  scheme whose own signatures verify. JSON encodings of headers and transaction bodies are unknown
  functions from which the header, and the body without its payload, can be recovered: re-marshalling
  compacts the raw payload, so its white space is not assumed recoverable. Payload decoding is an
  unknown partial function. The JSON of a stored record is an unknown function that determines the record
  among those of the same key; a null outcome is kept apart from an empty one. `Witnesses` and `State` give
  concrete functions that satisfy these laws, so they are consistent.
- A Go string or byte slice is a `string`, one character for each byte. Balances, nonces, fees, stakes
  and prices are `uint64` values computed on unbounded integers, so every overflow guard is a proof
  obligation. Heights and times are unbounded integers.
- Database keys are a datatype with one constructor for each prefix; `State.KeyTextInjective` and
  `State.PrefixScanExact` tie it to the textual keys. Stored records are kept as records, each under the
  key built from its own ID; their JSON text matters only for the root.
- Clock readings are parameters. Iteration over a Go map picks keys in an arbitrary order.
- A run is a sequence of steps, each of which is one received batch or one successful production. A step
  is atomic, and a node's executor, store and validator are present, as `cmd/node/main.go` sets them up.

## Results that need a condition

- A transaction conserves tokens if and only if its fee is zero or the block names a proposer
  (`Conservation.TxConservesExactly`, example `Conservation.FeeLostWithoutProposer`). Validation and
  production both guarantee a proposer, so `Protocol.EveryRunSafe` needs no such condition.
- A produced block is accepted by a node in the same state if and only if it is not older than the tip and
  at most 15 seconds ahead of that node's clock (`Consensus.ProducedAccepted`): production does not compare
  its clock with the tip.
- Adding a block keeps the store in agreement with the chain if and only if its hash is new
  (`Chain.AgreementExact`, example `Chain.UnhashedBlockOverwrites`); a block that carries its header's hash
  is always new.
- A handler lowers the balance of an account other than the sender's if and only if it opens a session with
  positive stakes that names that account as a player (`Spending.DispatchSpends`, example
  `Spending.OpenedForAnother`): an opening needs no signature of the players.
- A node of a run holds a good chain if and only if no production so far had a clock behind its tip
  (`Protocol.RunIsGood`).
- A transaction keeps the owner index in agreement if and only if it is not a purchase
  (`Indexing.TxAgrees`). The indexer also hears transactions that are rolled back later. After one of them
  the index fits if and only if it moved no asset (`Indexing.UndoneTxIndex`). After any list of them,
  purchases included, it fits if and only if their payloads put every ID back into the list of its owner
  (`IndexContents.RolledBackExactly`, failing example `IndexContents.MintThenRefused`). For lists without
  purchases that means leaving every asset with its owner (`Indexing.RolledBackIndex`); with a purchase it
  does not (`IndexContents.BoughtAndBurned`). `IndexRuns.EveryRunListed` gives the contents of the index in
  every run, and `IndexRuns.EveryRunIndexed` the runs in which it fits.
- A failed production leaves the effects of the transactions before the failing one in the buffer
  (`Nodes.Node.ProduceBlock`). It leaves nothing if and only if the first transaction is the failing one
  (`Ledger.LeavesNothingExactly`). Runs are therefore stated over successful productions.
- The mempool's age check accepts its documented window and, besides, exactly the timestamps whose distance
  from the clock overflows 64 bits (`Pool.WindowExact`, example `Pool.OldestAccepted`).
- The roll-back after a failed add in `handleBlocks` is dead code: a validated block always follows the
  tip (`Nodes.Node.SyncBlock`).

## Model

| member | source | states |
|---|---|---|
| Protocol.EveryRunSafe | vm/executor.go:35-128 | in every state of every run from genesis, whatever peers send and clocks say: balances plus locked stakes equal the allocations, listed assets and active listings are linked, asset flags equal template flags, nonces count executed transactions, and every asset and listing comes from an executed transaction |
| Protocol.NoReplayInAnyRun | vm/executor.go:79-89 | in every state of every run no two transactions of the chain have the same ID |
| Protocol.OnceInAnyRun | vm/modules/session/session.go:91-93 | in every state of every run no two transactions of the chain settle the same session and no two buy the same listing |
| Protocol.SignedInAnyRun | core/transaction.go:83-96 | in every state of every run each transaction of the chain has a well-formed sender key, the digest of its body as ID and a signature that this key verifies |
| Protocol.OriginsInAnyRun | vm/modules/session/session.go:56-65 | in every state of every run each template, session, asset and listing is what the payload and sender of one executed transaction say, no session is opened and no template registered twice, and every settlement follows an opening by the same sender |
| Protocol.FlagsInAnyRun | vm/modules/asset/template.go:35-41 | in every state of every run the trading flag of an asset is the one in the payload that registered its template |
| Protocol.NobodyElseSpends | vm/executor.go:74-128 | between any two states of a run a balance falls only if the blocks added since hold a transaction signed by its key or an opening, with positive stakes, of a session that names it |
| Protocol.GenuineInAnyRun | consensus/poa.go:127-183 | in every state of every run, whatever the clocks say, each block after the first is signed by the validator whose turn it was, is unaltered and follows its predecessor |
| Protocol.FairInAnyRun | consensus/poa.go:58-60 | in every state of every run each stretch of as many blocks as there are validators holds exactly as many blocks of each validator as it has places in the list |
| OneShot.ReplayOnce | vm/modules/market/market.go:85-87 | the same over every replayable list of blocks, where everything settled is closed and everything bought is inactive |
| Protocol.NoOverflowInAnyRun | vm/executor.go:103-105 | if the allocations sum to at most 2^64-1, no transaction of a block with a proposer is refused for an overflow (proposer, recipient, seller, stakes, reward) in any state of any run |
| Protocol.RunIsGood | network/sync.go:103-161 | a node of a run holds a chain of genuine, linked blocks with matching roots, and is where their replay leads, if and only if no production so far had a clock behind its tip |
| Protocol.ChainsGrow | core/blockchain.go:65-88 | along every run a chain never loses or changes a block |
| Agreement.TipFixesHeaders | core/block.go:35-57 | for contiguous hashed chains from the same height, equal tip hashes give equal lengths and equal headers throughout |
| Agreement.SameTipSameLedger | network/sync.go:134-144 | two good nodes with equal tip hashes, whose tip states a root, have the same headers, the same transaction IDs and the same world state, whatever states they started from |
| Nodes.CatchUp | network/sync.go:69-169 | the exchange between a follower and a server whose good chain extends the follower's ends, with equal chains and equal world states, and leaves the server as it was |
| Nodes.Round | network/sync.go:77-169 | one request and its answer move the follower up by 50 blocks or to the end; a further request follows exactly after a full batch |
| Protocol.CatchUpRound | network/sync.go:77-92 | the served blocks are the follower's next ones and all of them are accepted |
| Protocol.GoodPieceAccepted | network/sync.go:108-161 | a node at a prefix of a good chain accepts every block of the next piece and reaches the replayed state |
| Protocol.ServedExact | network/sync.go:77-92 | for every height and limit the answer holds one block for each height from the requested one on and stops only at the limit, read as 50 outside 1..200, or at a height the chain does not have |
| Nodes.Node.HandleBlocks | network/sync.go:103-170 | for every batch, good or bad, the buffer ends empty, the node ends in the state the protocol function gives, and the events of all executed blocks, rolled-back ones included, have been emitted in order; a follow-up request is sent exactly after a finished full batch |
| Consensus.SyncFolds | network/sync.go:108-161 | the chain grows by exactly the accepted blocks, a subsequence of the batch, and the state is the replay of exactly those |
| Consensus.BatchExact | network/sync.go:108-161 | a block that fails validation or states a wrong root ends the batch, one with a failing transaction is passed over, and any other joins the chain; only then does the node change |
| Consensus.ValidateMeans | consensus/poa.go:127-183 | validation accepts exactly the blocks that pass each check, the proposer being the validator at height modulo their number |
| Consensus.ProposerExact | consensus/poa.go:58-60 | a node may produce exactly when the next height is its turn, for all heights, also those at which Go's remainder is negative |
| Consensus.FairRotation | consensus/poa.go:58-60 | every window of as many heights as there are validators gives each validator exactly as many turns as it has places in the list |
| Consensus.SyncKeepsGood | network/sync.go:108-161 | no batch takes a node from a good chain with matching roots to a bad one |
| Nodes.Node.SyncBlock | network/sync.go:109-160 | validate, execute, compare root, add and commit one block: stop, skip or accept, with chain and state unchanged unless accepted |
| Nodes.Node.TryBlock | network/sync.go:116-144 | a failing block is rolled back past all snapshots its transactions left, the buffer is empty again, and the roll-back cannot fail; its events stay emitted |
| Nodes.Node.HandleGetBlocks | network/sync.go:77-92 | the answer is the stretch of the chain from the requested height, with limits outside 1..200 read as 50, and empty outside the chain |
| Nodes.Node.Hello | network/sync.go:52-57 | asks for 50 blocks from the height above the tip |
| Nodes.Node.ProduceBlock | consensus/poa.go:64-121 | not the proposer: nothing changes; failing transaction: chain and pool unchanged and its predecessors' effects and events stay; success: the signed block is added, its effects are flushed, its transactions leave the pool and the commit is announced |
| Nodes.Propagate | consensus/poa.go:64-121 | one node produces and a node in the same state receives: afterwards chains and world states are equal again if the block is not older than the tip and at most 15 s ahead of the receiver, else the receiver is unchanged |
| Ledger.LeavesNothingExactly | vm/executor.go:35-42 | a list of transactions leaves the state unchanged if and only if it is empty or its first transaction is refused |
| Nodes.Node.Assemble | consensus/poa.go:86-95 | the signed block carries the root of the state its transactions lead to |
| Nodes.Node.NewHeader | core/block.go:90-102 | the header extends the tip, or the genesis hash at height 1, with the transaction root and the clock reading |
| Nodes.Node.Finish | consensus/poa.go:97-118 | adding the produced block cannot fail; it joins the chain, the view is flushed unchanged, the commit is announced and exactly its transactions leave the pool |
| Nodes.CreateGenesisBlock | config/genesis.go:13-39 | for every order of the allocations the committed state holds exactly the allocated accounts with nonce 0, and the signed block 0 has the chain ID, the genesis hash, that state's root and the digest of the chain ID in its header |
| Nodes.Start | cmd/node/main.go:98-117 | a node started on an empty database is at the first state of a run |
| Consensus.ProducedAccepted | consensus/poa.go:64-121 | a node with the same tip and state accepts a produced block, reaching the very state the producer reached, exactly when tip time <= block time <= own clock + 15 s; otherwise it stops unchanged |
| Consensus.ProducedIsGenuine | consensus/poa.go:75-95 | a produced block carries the right proposer, hash, signature, transaction root, link and state root |
| Consensus.RootDoesNotMatter | consensus/poa.go:88-94 | execution does not read the state root, so filling it in afterwards changes nothing |
| Ledger.LedgerSafety | vm/executor.go:35-128 | the invariant holds after every replayable list of blocks with proposers, from the allocations on |
| Ledger.TxKeepsInv | vm/executor.go:45-128 | every successful transaction of a block with a proposer keeps the whole invariant |
| Ledger.RunKeepsInv | vm/executor.go:35-42 | it holds after any list of transactions, finished or stopped, and no refusal is an overflow while the supply fits in 64 bits |
| Ledger.GenesisInv | config/genesis.go:16-26 | the allocated state satisfies it with the sum of the allocations as supply |
| Ledger.GenesisExact | config/genesis.go:16-26 | each account starts with its allocation or nothing and nonce 0, and there is nothing but accounts |
| Ledger.DispatchNonces | vm/registry.go:36-44 | no handler changes a nonce |
| Conservation.TxConserves | vm/executor.go:74-128 | a successful transaction changes balances plus locked stakes by exactly the fee that reached no proposer, also for self-transfers, a sending proposer and repeated players |
| Conservation.TxConservesExactly | vm/executor.go:91-119 | it conserves if and only if a proposer is named or the fee is zero |
| Conservation.FeeLostWithoutProposer | vm/executor.go:94-119 | for every key a properly signed transfer that is executed in a block without a proposer, after which the total is smaller by the fee |
| Conservation.DispatchTotal | vm/registry.go:36-44 | every handler keeps the total, and none overflows while it fits in 64 bits |
| Conservation.SettleTotal | vm/modules/session/session.go:130-149 | a settlement pays out exactly the escrow it closes |
| Conservation.SettleNoOverflow | vm/modules/session/session.go:112-137 | neither the stakes product nor a reward overflows while the total fits in 64 bits |
| Conservation.OpenTotal | vm/modules/session/session.go:39-68 | opening a session locks exactly what it takes from the players |
| Payments.TransferExact | vm/modules/economy/token.go:18-55 | a transfer succeeds exactly for a positive, affordable amount that a well-formed recipient can take, which is always so while the total fits in 64 bits; and its effect on every balance, self-transfer included |
| Payments.ChargeExact | vm/executor.go:75-119 | the charge succeeds exactly for the next nonce and an affordable fee that the proposer, if any, can take; the fee moves to the proposer, or leaves the ledger if there is none |
| Payments.BuyExact | vm/modules/market/market.go:81-133 | in a linked market a purchase succeeds exactly when the listing is active, foreign and affordable and the seller can take the price; it moves exactly the listed price from the buyer to the owner of the asset |
| Payments.SettlePays | vm/modules/session/session.go:130-142 | every recipient is paid its reward once, nobody else anything |
| Effects.ExecuteExact | vm/executor.go:45-128 | a transaction succeeds exactly when it is signed, carries the next nonce, can pay a fee the proposer can take, decodes, and its handler then succeeds |
| Effects.SignatureExact | core/transaction.go:83-96 | a transaction is refused for its signature exactly when key, ID or signature is wrong |
| Effects.RegisteredExactly | vm/registry.go:36-44 | the registered types are exactly those with a handler |
| Effects.ChargeLeaves | vm/executor.go:75-119 | the charge raises the sender's nonce by one and touches no other account but the proposer's and no other record |
| Effects.TransferLeaves | vm/modules/economy/token.go:18-69 | a transfer touches the two accounts only and reports them |
| Effects.RegisterExact | vm/modules/asset/template.go:17-54 | a registration succeeds exactly for a new, non-empty ID, stores the payload with the sender as creator, and touches nothing else |
| Effects.MintExact | vm/modules/asset/asset.go:20-68 | when a mint succeeds, the whole asset it stores, its event, and that it touches nothing else |
| Effects.BurnExact | vm/modules/asset/asset.go:70-100 | a burn succeeds exactly for the owner of an unlisted asset, removes it and touches nothing else |
| Effects.GiveExact | vm/modules/asset/asset.go:102-143 | an asset transfer succeeds exactly for the owner of an unlisted tradeable asset and a well-formed recipient, and changes the owner only |
| Effects.ListExact | vm/modules/market/market.go:20-73 | when listing succeeds, the listing and the marker it stores, its event, and that it touches nothing else |
| Effects.BuyLeaves | vm/modules/market/market.go:75-150 | a purchase hands over the asset, closes the listing, reports both parties and touches two accounts and nothing else |
| Effects.OpenExact | vm/modules/session/session.go:19-79 | an opening succeeds exactly for a new ID and players who can all pay, stores the terms with the sender as creator, takes each player's stakes and touches nothing else |
| Effects.SettleLeaves | vm/modules/session/session.go:81-160 | a settlement closes the session with the given outcome and touches only it and the recipients |
| Spending.DispatchSpends | vm/modules/session/session.go:39-54 | a handler lowers the balance of someone other than the sender if and only if it opens a session with positive stakes that names that account |
| Spending.OpenedForAnother | vm/modules/session/session.go:39-54 | an example in which a session takes all tokens of a player who signed nothing |
| Spending.ReplaySpends | vm/executor.go:74-128 | over every run of accepted blocks a balance falls only through such a transaction or one signed by its key |
| Provenance.ReplayOrigins | vm/modules/session/session.go:56-65 | over every run of accepted blocks records come from payloads, openings and registrations are unique, and openers settle |
| Provenance.TxOpener | vm/modules/session/session.go:94-97 | a successful settlement is sent by whoever opened the session |
| History.IdsDistinct | core/transaction.go:83-96 | no transaction ID takes effect twice |
| History.DerivedIdsAreNew | vm/modules/asset/asset.go:45 | an asset ID or listing ID made now has never been made before, even if that asset was burned |
| Types.IdFixesSenderAndNonce | core/transaction.go:56-96 | verified transactions with equal IDs have equal bodies up to the white space of the payload, so the same sender and nonce |
| Crypto.PubKeyHexExact | crypto/keys.go:48-57 | the accepted keys are exactly the hex encodings of 32 bytes, in either case |
| Market.ListedExactlyOnce | vm/modules/market/market.go:40-62 | an asset is listed exactly when one active listing names it: that one, offered by its owner, the asset being tradeable |
| Market.DispatchKeepsMarket | vm/modules/market/market.go:29-133 | every handler keeps the link between assets and listings, the template flags and the provenance of IDs |
| Market.BuyFindsAsset | vm/modules/market/market.go:118-122 | the asset-not-found branch of a purchase is unreachable and the payee is the owner |
| Lifetimes.DispatchAsset | vm/modules/asset/asset.go:76-132 | an asset changes only by its owner's burn, transfer or listing while unlisted, or by a purchase of its listing; one that is gone never comes back |
| Listings.DispatchListing | vm/modules/market/market.go:29-133 | no handler changes the terms of a listing, and only a purchase of it closes it |
| Listings.ListingForever | vm/modules/market/market.go:81-133 | over every run of accepted blocks price, seller and asset of a listing stay as made, and a closed listing never becomes active again |
| Listings.ForSaleTx | vm/modules/market/market.go:81-133 | while an asset is for sale a transaction buys it exactly when it is a purchase of that listing, moving the listed price to the owner; every other one leaves asset and listing as they are |
| Listings.ForSaleUntilSold | vm/modules/market/market.go:81-133 | over every run of accepted blocks an asset for sale stays as it is under the same terms until such a purchase, after which the listing is closed for good; there is one exactly when some transaction of the blocks asks for it |
| Listings.SoldExactly | vm/modules/market/market.go:81-133 | a list of transactions sells an asset that is for sale exactly when one of those that ran asks for its listing |
| Lifetimes.FrozenForever | vm/modules/asset/asset.go:119-132 | a non-tradeable asset stays as it is until burned, and then stays burned, over every run of accepted blocks |
| Lifetimes.ReplayPersists | vm/modules/asset/template.go:26-44 | over every run templates never change, sessions never reopen, and a closed session never changes |
| Lifetimes.SettlementExact | vm/modules/session/session.go:87-137 | a settlement is accepted exactly when the creator of an open session gives its whole escrow to its players, the escrow fits in 64 bits and every recipient can take its reward; while the total fits in 64 bits the last two always hold |
| Lifetimes.SettledOnce | vm/modules/session/session.go:91-93 | a settled session is refused ever after, whoever asks and whatever the outcome |
| Lifetimes.StakesExact | vm/modules/session/session.go:39-54 | stakes can be taken exactly when every player can pay once for each time it is named, and that is what is taken |
| Execution.Executor.ExecuteAll | vm/executor.go:35-42 | runs the transactions up to the first failure, whose predecessors stay in effect; snapshots already on the stack stay below |
| Execution.Executor.ExecuteOne | vm/executor.go:45-71 | a failing transaction restores buffer and snapshot stack exactly and its roll-back cannot fail; a successful one leaves one snapshot |
| Execution.Executor.Apply | vm/executor.go:74-128 | charge, look up the handler, decode, dispatch: same result, same error, same event as the rule |
| Execution.Executor.ChargeFee | vm/executor.go:75-119 | nonce and balance checks, fee, nonce increment and proposer credit as the rule says, also when the sender proposes |
| Execution.Executor.HandleTransfer | vm/modules/economy/token.go:18-69 | computes the transfer rule, errors included |
| Execution.Executor.HandleRegisterTemplate | vm/modules/asset/template.go:17-54 | computes the registration rule |
| Execution.Executor.HandleMintAsset | vm/modules/asset/asset.go:20-68 | computes the mint rule |
| Execution.Executor.HandleBurnAsset | vm/modules/asset/asset.go:70-100 | computes the burn rule |
| Execution.Executor.HandleTransferAsset | vm/modules/asset/asset.go:102-143 | computes the asset transfer rule |
| Execution.Executor.HandleSessionOpen | vm/modules/session/session.go:19-79 | computes the opening rule |
| Execution.Executor.LockStakes | vm/modules/session/session.go:39-54 | the loop succeeds exactly when all debits do, and then has made them all |
| Execution.Executor.HandleSessionResult | vm/modules/session/session.go:81-160 | for every iteration order of the outcome map, the result and the final state are those of the settlement rule |
| Execution.Executor.CheckRecipients | vm/modules/session/session.go:99-108 | for every order, accepts exactly outcomes whose recipients are all players |
| Execution.Executor.CheckRewards | vm/modules/session/session.go:116-127 | for every order, the wrap-free running check accepts exactly when the rewards sum to the stakes |
| Execution.Executor.Distribute | vm/modules/session/session.go:130-142 | for every order, pays all rewards, or fails exactly when some balance would overflow |
| Execution.Executor.HandleListMarket | vm/modules/market/market.go:20-73 | computes the listing rule |
| Execution.Executor.HandleBuyMarket | vm/modules/market/market.go:75-150 | computes the purchase rule |
| StateStore.StateDB.Get | storage/statedb.go:63-71 | reads the flat map |
| StateStore.StateDB.Set | storage/statedb.go:73-76 | writes the flat map; no key is both written and deleted |
| StateStore.StateDB.Del | storage/statedb.go:78-81 | deletes from the flat map |
| StateStore.StateDB.GetAccount | storage/statedb.go:85-100 | a missing account reads as an empty one with that address |
| StateStore.StateDB.Snapshot | storage/statedb.go:231-248 | pushes the buffer and returns its index |
| StateStore.StateDB.RevertToSnapshot | storage/statedb.go:252-275 | restores the saved buffer and drops it and all later snapshots; fails exactly for indexes off the stack |
| StateStore.StateDB.ComputeRoot | storage/statedb.go:282-329 | for every iteration order and every split between database and buffer, the root is that of the flat map |
| StateStore.StateDB.ScanPrefixes | storage/statedb.go:286-296 | the prefix scans find exactly the state entries of the database |
| StateStore.StateDB.BuildBatch | storage/statedb.go:337-343 | for every iteration order the batch turns the database into the overlay |
| StateStore.StateDB.Commit | storage/statedb.go:334-351 | empties buffer and stack and leaves the flat map, hence the root, unchanged |
| State.RootInjective | storage/statedb.go:282-329 | two stores have equal roots exactly when their world states are equal, for entries under 2^32 bytes |
| State.KeyTextInjective | storage/statedb.go:28-34 | different keys have different texts |
| State.PrefixScanExact | storage/statedb.go:287-288 | a scan with one prefix meets exactly the keys of one kind |
| Encoding.RootPreimageInjective | storage/statedb.go:308-328 | two merged stores give the same byte stream exactly when they are equal |
| Encoding.EncodeMerged | storage/statedb.go:308-328 | collecting keys in any order, sorting and encoding gives the canonical stream |
| Encoding.SortIsCanonical | storage/statedb.go:313 | sorting any enumeration of a key set gives the same list |
| Encoding.LeqMeans | storage/statedb.go:313 | the key order is lexicographic: a prefix comes first, and otherwise the first difference decides |
| Encoding.BigEndianSorts | core/block.go:74-87 | the four-byte length prefixes sort like the lengths they stand for |
| Encoding.TxRootInjective | core/block.go:74-87 | two transaction lists have equal roots exactly when they list the same IDs in the same order |
| Encoding.NonEmptyIsNotEmptyMark | core/block.go:75-77 | no non-empty list is encoded as the mark of the empty list |
| Encoding.ComputeTxRoot | core/block.go:74-87 | the loop computes the transaction root |
| Chain.AgreementExact | core/blockchain.go:65-88 | adding a block keeps store and chain in agreement exactly when its hash is new |
| Chain.HashedIsNew | core/block.go:35-57 | a block that carries its header's hash is always new |
| Chain.UnhashedBlockOverwrites | core/blockchain.go:65-88 | an example in which a block with a copied hash overwrites an earlier one |
| Chain.HeightLookup | storage/leveldb.go:105-112 | lookup by height finds the chain's block of that height and nothing outside the chain |
| Chain.Blockchain.AddBlock | core/blockchain.go:65-88 | accepts exactly the next block, stores it as one batch, and keeps contiguous heights, hash links and agreement with the store |
| Chain.Blockchain.Init | core/blockchain.go:42-60 | rebuilds tip and height from the store |
| Chain.Blockchain.GetBlockByHeight | core/blockchain.go:98-102 | returns the chain's block of that height, or nothing |
| Pool.Mempool.Add | core/mempool.go:31-53 | a properly signed transaction with a new ID that passes the 64-bit age check joins the end of the queue while it holds fewer than 10,000; otherwise nothing changes |
| Pool.WindowExact | core/mempool.go:35-41 | the age check accepts exactly the hour before and the five minutes after the clock, and the timestamps whose distance overflows 64 bits |
| Pool.OldestAccepted | core/mempool.go:35-38 | an example: the oldest timestamp passes |
| Pool.Mempool.Pending | core/mempool.go:64-77 | the first n transactions in arrival order, or all of them; a limit of 0 still yields one |
| Pool.Mempool.Remove | core/mempool.go:80-95 | exactly the named transactions leave and the others keep their order |
| Pool.SurvivorsConcat | core/mempool.go:88-94 | filtering a list of IDs works piece by piece, so the survivors keep their order |
| Pool.WithoutConcat | core/mempool.go:80-95 | removal works piece by piece, so the others keep their order |
| Pool.Compact | core/mempool.go:88-94 | filtering a slice over its own backing array keeps exactly the survivors in order |
| Indexing.IndexAgrees | indexer/indexer.go:28-84 | over every run of accepted blocks without purchases each owner's list holds exactly the owner's live assets, once each |
| Indexing.TxAgrees | indexer/indexer.go:30-33 | one transaction keeps the agreement if and only if it is not a purchase |
| Indexing.RolledBackIndex | indexer/indexer.go:49-84 | after a rolled-back list without purchases the lists fit the restored state if and only if the payloads of those that ran leave every asset with its owner; they fit if none moved an asset and do not if exactly one did |
| IndexContents.RolledBackExactly | indexer/indexer.go:49-84 | after every rolled-back list, purchases included, the lists fit the restored state if and only if the payloads of those that ran put every ID back into exactly the list of its owner |
| IndexContents.RunListed | indexer/indexer.go:49-84 | for all lists to begin with and every list of transactions, an ID is in an owner's list afterwards exactly when the payloads of those that ran say so |
| IndexContents.BoughtAndBurned | indexer/indexer.go:30-33 | a purchase and the buyer's burn of the asset cancel out in the lists, though not in the ledger |
| Indexing.UndoneTxIndex | indexer/indexer.go:49-84 | after one executed and undone transaction, of any type, the lists fit if and only if it is not a mint, a burn or a transfer to someone else |
| Indexing.DispatchOwners | vm/modules/asset/asset.go:20-143 | a successful call other than a purchase keeps all ownership if and only if it is not a mint, a burn or a transfer to someone else |
| Indexing.RunOwner | vm/modules/asset/asset.go:20-143 | who owns an asset after a list of transactions without purchases can be read off the payloads of those that ran |
| IndexContents.RolledBackMint | indexer/indexer.go:49-58 | after a rolled-back list that minted an asset and did not burn it again the lists never fit |
| IndexContents.MintThenRefused | indexer/indexer.go:49-58 | the simplest such block: a mint, then a refused transaction |
| IndexRuns.EveryRunIndexed | indexer/indexer.go:28-84 | in every state of every run, with the events of rolled-back blocks counted in, each list holds exactly the owner's live assets, once each, if no accepted or produced block bought anything and rolled-back blocks put every ID back |
| IndexRuns.EveryRunListed | indexer/indexer.go:28-84 | in every state of every run, without condition, no list repeats an ID, and an ID is in an owner's list exactly when the payloads of all transactions executed so far say so |
| Indexing.Indexer.OnEvent | indexer/indexer.go:49-84 | applies a mint, transfer or burn event to the lists and ignores the others |
| Indexing.Indexer.AddToList | indexer/indexer.go:119-135 | appends an ID that is not yet listed |
| Indexing.Indexer.RemoveFromList | indexer/indexer.go:137-156 | removes every occurrence of an ID and keeps the order of the others |

## Left out

- Execution.Executor.Apply: after an error the buffer is unspecified, as for the handlers it calls, because `ExecuteOne` restores it.
- Goroutine interleaving: no lock spans the execute, add and commit sequence, so each step is taken as atomic.
- Crash recovery between storing a block and committing its state: these are two writes with no joint guarantee in the source.
- Failed productions inside runs: the buffer is not rolled back, and no cleanliness or progress is claimed for them.
- I/O errors of the database, of JSON encoding and of sending to peers.
- 64-bit wrap-around of heights and timestamps; they are unbounded integers here, except in the mempool's age check.
- Null blocks or transactions inside a received message, which make the peer's read loop panic and recover.
- A syncer without validator, executor or state; `cmd/node/main.go` always supplies them.
- The session index (`onSessionOpen`): it expects a list of another type than the event carries, so it never adds anything.
- Chain-ID isolation of transactions: it is checked by the RPC handler and not by the executor.
- `VerifyIntegrity`, `PutBlock`, `PutBlockByHeight`, `SetTip`, `GetBlock` by hash and `Mempool.Get`: unused by the core or plain lookups.
- RPC, HTTP, TCP, TLS, wallet, key store, certificates, configuration files and logging.
