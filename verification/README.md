# A verified model of the name service pallets

The pallets `pns-registrar`, `pns-marketplace` and `pns-resolvers` keep a name service on chain: names under one top-level
domain are registered for a period, renewed, transferred, released, sold or given away; their owners delegate subnames; a
resolver stores records. The facts about a name are spread over a dozen storage maps, many of them indexes of one another,
and every extrinsic writes a different subset of them.

The project has two layers.

- `NameService` is a machine in which every fact is stored once. An extrinsic is a function from a state to a state or an
  error. `AllRuns`, `CleanRuns`, `OwnerRecords`, `Ownership`, `StrayClaims`, `Rows`, `OneName`, `LockOut`, `Promises`
  and `FinePrint` prove what every run of this machine keeps. `Effects` and `Sales` say of each call exactly when it
  succeeds, what it changes and that it changes nothing else, and `Undo` which calls cancel each other.
- `Storage` holds the maps the pallets really have, as the mutable fields of a class. `Nft`, `Registry`, `Subnames`,
  `RegistrarChecks`, `Registrar`, `Marketplace` and `Resolvers` are the pallets, as methods over that storage with the loops
  and branches of the code. Each is proved to keep every index exact (`Valid`) and to do to the represented state (`View`)
  what the machine prescribes, errors included. `Runtime` dispatches extrinsics inside a storage transaction and runs them
  in sequence, `RuntimeApi` answers queries, and `StoragePromises` reads the results back as facts about the maps.

`Labels` and `NameParsing` are the reading of names, `Currency` the balances, `Indexes` the lemmas on single index
changes, `Witnesses` short runs that show where agreement is lost. `Auction` is the candle auction, which the crate leaves
out of its build today (`pallets/pns-registrar/src/lib.rs:6`), and `Candle` what it is for. `Dns` is the in-flight cap and the paced response queue of
the DNS front end.

A node is an inductive value, `Base` or a child with a lower-case label: the reading of a namehash (EIP-137) without
collisions. Time, the block number, the parent hash and the price table change at the start of a block; randomness of the
auction is a parameter.

## Where the code keeps less than it says

- The bare registry `burn` leaves `OwnerToPrimaryName` and `OfferedNames` as they are. `CleanRuns.BurnExact` says exactly
  when that breaks the agreement of claims and tokens, and `Witnesses.BurnLeavesClaim` is a run. When somebody else registers
  the name, the account still claims it and can renew it, list it and handle its subnames, against the comments at
  `pallets/pns-registrar/src/registrar.rs:473` and `:588`: `Witnesses.StrayClaim`. `StrayClaims.ForeignActsExact` says
  exactly when, and `StrayClaims.RunMisclaims` how an account gets there.
- `register` of a name that is still a pending gift leaves the gift in place. `CleanRuns.RegisterExact` and
  `Witnesses.RegisterLeavesGift`. A run is clean when it does neither; `CleanRuns.RunExact` shows that these are the only
  two ways to lose the agreement. The owner records need less: `OwnerRecords.RunRecords` shows that only the acceptance of
  a gift by an account that does not own the name can spoil them.
- `docs/HOW_NAMES_WORK.md:159` lets anyone without an active name register. An account that holds neither a live name of
  its own nor a subname is refused in three cases, and `Rows.RefusedExact` shows that there are no others.
  - It let the name registered to it lapse and still owns it (`Witnesses.LapsedIsRefused`, `Rows.LapsedExact`), against line
    41 of the same document and the comment at `pallets/pns-registrar/src/registrar.rs:397`. The row that minting wrote in
    `AccountToSubnames` is still there; releasing the name takes it away and frees the account, as line 45 says
    (`Rows.ReleaseFrees`).
  - It is listed there under a name that it does not own. That lasts for good (`LockOut.RefusedForever`). An account gets
    there only by transferring or selling a name that was registered to it (`LockOut.RunBecomesStale`), and always by doing
    so (`LockOut.GiverRefusedExactly`, `LockOut.SellerRefusedExactly`, `Ownership.FormerOwnerLockedOut`,
    `Witnesses.GiverIsRefused`).
  - It claims a live name that it does not own (`Witnesses.StrayClaim`, `StrayClaims.RunMisclaims`), until that name lapses
    or is destroyed.
- `docs/HOW_NAMES_WORK.md:77` says that the target of a subname offer cannot already own a name. The code checks this on
  acceptance, not on offer: `Witnesses.OfferedToHolder`, `FinePrint.AcceptExact`, and over runs
  `FinePrint.ActivationChecked`.
- `docs/HOW_NAMES_WORK.md:62` says that a buyer cannot already have a name. The code asks this of the one who is to own the
  name, so not of the buyer of a gift: `Witnesses.HolderBuysGift`, `FinePrint.BuyExact`.
- `docs/HOW_NAMES_WORK.md:64` and the comment at `pallets/pns-marketplace/src/lib.rs:149-151` say that the listing of a name
  that was transferred or released cannot be used. It can when the seller owns the name again:
  `Witnesses.OldListingRevives`, `FinePrint.OpenExact`, `FinePrint.RunListings`.
- One name per account (`docs/HOW_NAMES_WORK.md:140-150`) holds in every run for names that do not wait for their owner to
  accept them (`OneName.RunOne`, `OneName.OneNameEver`). A pending gift is owned besides: `Witnesses.TwoTokens`.
- At the very instant `expire + grace` a name can be renewed (`<=`) and not registered by another, and can no longer be
  transferred (`<`): `FinePrint.GraceEndExact`, `FinePrint.RegisterAfterGrace`, `Witnesses.GraceEndsHere`.
- The comments on `burn` and `release_name` ask for a name without subnames. The code deletes the subnames instead:
  `FinePrint.BurnTakesSubnames`, `Witnesses.BurnedWithSubname`.
- Comments say that lookups of a pending gift return null (`pallets/pns-registrar/src/registrar.rs:125`,
  `pallets/pns-types/src/lib.rs:109`, `pallets/pns-marketplace/src/lib.rs:188`), and `docs/HOW_NAMES_WORK.md:38` that a name
  in its grace period returns nothing. `get_info` and `resolve_name` do so; `lookup` reads neither `OfferedNames` nor the
  expiry: `Witnesses.PendingGiftAnswers`, `Witnesses.GraceAnswers`, `RuntimeApi.PendingGiftLooksUp`.
  `RuntimeApi.LookupAgainstInfo` gives the exact set of nodes on which `lookup` answers and `get_info` does not. Where both
  answer they may name different accounts (`Witnesses.RegisterLeavesGift`); they agree exactly when the owner record is
  right (`RuntimeApi.SameAccountExact`).
- The block recorded with a name is said to be that of its last registration or renewal (`pallets/pns-types/src/lib.rs:65`);
  a renewal does not record it. The block hash record is said never to be written on transfer
  (`pallets/pns-registrar/src/traits.rs:301`); it is. `Witnesses.RecordedBlocks`, `FinePrint.RenewOnlyExpiry`,
  `FinePrint.TransferRewrites`.
- The comment on `register` speaks of names longer than ten characters. No name is too short:
  `FinePrint.TooShortExact`; the runs in `Witnesses` register names of one letter.
- The comments at `pallets/pns-resolvers/src/resolvers.rs:200-202` and `pallets/pns-registrar/src/registry.rs:521-523` offer
  names of subnames to `set_record`, `set_text` and `burn`. Every such call fails, for every caller:
  `FinePrint.DottedRefused`.

## Model

| member | source | states |
|---|---|---|
| `Runtime.Launch` | runtime/src/genesis_config_presets.rs:51-118 | Started from genesis and taken through any sequence of extrinsics and blocks, the storage has every index exact, represents the run of the name service, is well formed, has at most one row and one settled name per account and only nodes that can be spelled, and, if the run was clean, has claims, gifts and owner records that agree with the tokens |
| `Runtime.Execute` | pallets/pns-registrar/src/registrar.rs:333-335 | Executing a sequence of extrinsics on the storage is `Run` of the name service: the maps and indexes refine the machine in which every fact is stored once |
| `Runtime.Dispatch` | pallets/pns-registrar/src/registrar.rs:333-335 | One extrinsic is one `Step`: the same error in the same cases, all indexes exact afterwards, and a failed extrinsic leaves the storage as it was |
| `Runtime.CallAsAccount` | pallets/pns-registrar/src/registrar.rs:292-816 | A signed extrinsic of any pallet returns the error, or leaves the state, that the name service prescribes for the call with its name arguments read |
| `Runtime.CallAsManager` | pallets/pns-registrar/src/registrar.rs:292-318 | The manager calls likewise; every other call is refused to the manager |
| `Storage.Chain.constructor` | runtime/src/genesis_config_presets.rs:51-118 | The genesis storage has exact indexes and represents the genesis state of the name service |
| `AllRuns.RunCore` | pallets/pns-registrar/src/registry.rs:650-795 | In every run: subnames sit one level below a registered name and are never addressed to its owner, no account holds two subnames, subnames of a name stay within its capacity, no registration reaches beyond one period from now, records exist only where they may and anchors wherever they must, and the balances add up to the issuance |
| `AllRuns.PerformCore` | pallets/pns-registrar/src/registrar.rs:335-816 | Every signed extrinsic keeps all of these facts |
| `AllRuns.OfferWithinCapacity` | pallets/pns-registrar/src/registry.rs:385-399 | An offer that passes the capacity check keeps every name within its capacity |
| `AllRuns.PutSubUnique` | pallets/pns-registrar/src/registry.rs:693-722 | An acceptance by an account without a subname keeps subnames unique |
| `AllRuns.DropSubRecorded` | pallets/pns-registrar/src/registry.rs:741-779 | Taking a subname away takes its record away exactly when it was active, so no stray record remains |
| `AllRuns.SetOwnerRecorded` | pallets/pns-registrar/src/registry.rs:432-448 | A transfer leaves the anchors of the name and of every other name, and no record of a subname that it cleared |
| `AllRuns.MintRecorded` | pallets/pns-registrar/src/registry.rs:310-363 | A fresh or taken-over name has its two anchors and leaves no record of the subnames it displaced |
| `CleanRuns.StepExact` | pallets/pns-registrar/src/registry.rs:528-534 | From a state where claims, gifts and owner records agree with the tokens, a step ends in such a state if and only if it is not a bare `burn` of a claimed or gifted name nor a `register` of a name that is still a pending gift |
| `CleanRuns.RunExact` | pallets/pns-registrar/src/registrar.rs:335-470 | A run passes only through agreeing states if and only if every step of it is clean |
| `CleanRuns.RunConsistent` | pallets/pns-registrar/src/registrar.rs:390-449 | In every clean run: a claim, live or lapsed, names a token the account owns and no gift; a live name that is no gift is claimed by its owner; a gift is owned by its recipient, not listed and without subnames; no account has both a valid name and a subname; the owner record of a name is its owner |
| `CleanRuns.BurnExact` | pallets/pns-registrar/src/registry.rs:528-534 | The bare `burn` keeps the agreement exactly when the name is neither claimed by the caller nor a pending gift |
| `CleanRuns.RegisterExact` | pallets/pns-registrar/src/registrar.rs:335-470 | `register` keeps the agreement exactly when the name is not a pending gift, or is the gift that the same call turns down |
| `CleanRuns.TimeAgreed` | pallets/pns-registrar/src/registrar.rs:993-999 | The passing of time alone keeps the agreement |
| `CleanRuns.RecipientCanReject` | pallets/pns-registrar/src/registrar.rs:345-361 | In an agreeing state the burn of a gift that its recipient turns down always passes its ownership check |
| `OwnerRecords.RunRecords` | pallets/pns-registrar/src/registrar.rs:747-784 | The owner record of every name is its owner all through a run, clean or not, if and only if no gift is accepted by an account that does not own the name |
| `OwnerRecords.PerformRecords` | pallets/pns-resolvers/src/resolvers.rs:288-298 | Every signed extrinsic keeps the owner records right, save the acceptance of a gift, which does if and only if the caller owns the name |
| `Promises.OneNameEach` | pallets/pns-registrar/src/registrar.rs:390-400 | In agreeing states the claim of an account is exactly the live accepted name it owns |
| `OneName.RunOne` | pallets/pns-registrar/src/registrar.rs:390-449 | In every run, clean or not, a live name that does not wait for its owner to accept it is claimed by its owner, who holds no subname |
| `OneName.OneNameEver` | pallets/pns-registrar/src/registrar.rs:117-121 | So no account owns two such names, nor such a name and a subname |
| `OneName.ResolutionExact` | runtime/src/apis.rs:294-317 | In every run `get_info` returns an account if and only if the account claims and owns the name, which has not expired and is no pending gift |
| `Promises.ForwardIffReverse` | runtime/src/apis.rs:294-317 | `get_info` of a name returns an account if and only if the account claims the name and it has not expired |
| `Promises.ResolveIsParse` | runtime/src/apis.rs:337-364 | On names without a dot, `resolve_name` is `get_info` of the node that the shared parser computes |
| `Promises.GiftEndsByRecipient` | pallets/pns-registrar/src/registrar.rs:747-784 | A signed extrinsic ends a pending gift only as its acceptance or rejection by the recipient |
| `Promises.RunGifts` | pallets/pns-registrar/src/registrar.rs:747-784 | Over every run, a gift that is no longer pending as it was was answered by its recipient at a step at which it still was |
| `Promises.RegisterKeepsOthersGifts` | pallets/pns-registrar/src/registrar.rs:345-361 | `register` removes no gift but the one its caller, the recipient, turns down |
| `Promises.RenewalNeverShortens` | pallets/pns-registrar/src/registrar.rs:481-514 | A renewal never brings the expiry forward |
| `Promises.GraceNeverOverflows` | pallets/pns-registrar/src/registrar.rs:852-877 | While one period and its grace fit the 64-bit clock, adding the grace period to an expiry does not overflow |
| `Promises.NewOwnerStartsClean` | pallets/pns-registrar/src/registry.rs:432-448 | After a registration, a transfer, a sale or a gift sale the name has its new owner, no subnames, and exactly the two anchor records, with that owner in the first |
| `Promises.RunSpellings` | pallets/pns-registrar/src/registrar.rs:594-631 | In every run the label stored with a subname is a valid spelling of the label its node was made from |
| `Promises.SettleMoves` | pallets/pns-marketplace/src/lib.rs:206-224 | A sale takes exactly the price from the buyer, gives the seller the price less the fee, burns the fee and touches no one else |
| `Promises.RunConserves` | pallets/pns-marketplace/src/lib.rs:194-265 | Over every run the issuance falls by exactly the fees that the events report |
| `Currency.ProtocolFeeBounded` | pallets/pns-marketplace/src/lib.rs:214-217 | The fee never exceeds its share of the price, even when the product saturates, and never the price |
| `Currency.WithdrawBurns` | pallets/pns-registrar/src/registrar.rs:419-425 | A withdrawal takes the value from the payer and from the issuance |
| `Currency.PayMoves` | pallets/pns-marketplace/src/lib.rs:206-211 | A payment moves the value and leaves the issuance |
| `Effects.RegisterExact` | pallets/pns-registrar/src/registrar.rs:335-470 | `register` succeeds if and only if the label is valid, the registrar open, the name not reserved and not registered within its grace period, the owner free to receive and not the official, and the caller can pay the price of the length and stay alive |
| `Effects.RegisterEffect` | pallets/pns-registrar/src/registrar.rs:405-449 | The caller has exactly the fee less and nobody else more or less, the owner included; the fee is the one reported; owner, expiry, capacity, fee, length and block of the name; its row moves; every other name, row and subname is as it was |
| `Effects.RegisterClaimsEffect` | pallets/pns-registrar/src/registrar.rs:405-452 | The owner claims the name, the previous owner of a lapsed one no longer does, and every other claim, gift and listing is as it was |
| `Effects.RegisterZoneEffect` | pallets/pns-registrar/src/registrar.rs:450-467 | The name has its two anchors; of a previous registration and its subnames nothing is left; nothing else stored changes |
| `Effects.RegisterRejecting` | pallets/pns-registrar/src/registrar.rs:345-361 | Registering with an offer to turn down is turning it down, which destroys the gift or withdraws the subname offer, and then registering, with the same result or error; an offer that the caller may not turn down fails the call |
| `Effects.RegistrationPaid` | pallets/pns-registrar/src/registrar.rs:419-425 | Whoever the owner is and whatever is turned down, the signer of a registration pays exactly the fee that the event reports and no other balance changes |
| `Effects.FeeExact` | pallets/pns-registrar/src/price_oracle.rs:178-185 | The fee is the price of the length of the label, and the last price for every longer one; none without a label or a price |
| `Effects.RenewExact` | pallets/pns-registrar/src/registrar.rs:481-514 | `renew` succeeds if and only if the registrar is open, the claimed name registered and its grace period not over, the new expiry fits the clock, and the caller can pay |
| `Effects.RenewEffect` | pallets/pns-registrar/src/registrar.rs:481-514 | The caller pays exactly the price of the stored length, which the event reports; the expiry is one period from now; nothing else changes |
| `Effects.BurnEffect` | pallets/pns-registrar/src/registry.rs:528-534 | `burn` succeeds for the owner of the named node and nobody else; the name is gone with its row, its subnames and everything stored under them, and nothing else changes |
| `Effects.ReleaseNameEffect` | pallets/pns-registrar/src/registrar.rs:572-584 | `release_name` succeeds if and only if the caller owns the name it claims; the name is destroyed and the claim gone |
| `Effects.TransferEffect` | pallets/pns-registrar/src/registrar.rs:521-561 | `transfer` succeeds exactly when the caller owns the claimed name, its grace period has not ended and the receiver may receive; owner and claim move, subnames go, of the records only the anchors stay, for the new owner; nothing else changes |
| `Effects.OfferEffect` | pallets/pns-registrar/src/registrar.rs:594-631 | Exactly when an offer succeeds; it adds one pending subname, to the target and in the spelling given, and the parent has one more; nothing else changes |
| `Effects.AcceptEffect` | pallets/pns-registrar/src/registrar.rs:640-671 | Exactly when an acceptance succeeds; the subname turns active and its owner record names the caller; nothing else changes |
| `Effects.RejectEffect` | pallets/pns-registrar/src/registrar.rs:680-703 | Exactly when a rejection succeeds; the subname turns rejected; nothing else changes |
| `Effects.RevokeEffect` | pallets/pns-registrar/src/registrar.rs:712-733 | Revocation succeeds exactly when the caller claims the parent of the subname; the subname is gone, the parent has one fewer, nothing is stored under it if it was active; every other subname, all names and everything else are as they were |
| `Effects.ReleaseSubEffect` | pallets/pns-registrar/src/registrar.rs:793-816 | The holder of an active subname, and nobody else, gives it up; it is gone with all that is stored under it, the parent has one fewer, and nothing else changes |
| `Effects.AcceptGiftEffect` | pallets/pns-registrar/src/registrar.rs:747-784 | Exactly when a gift can be accepted; the recipient claims the name, its anchors are written for the recipient, the offer is gone; nothing else changes |
| `Effects.SetRecordEffect` | pallets/pns-resolvers/src/resolvers.rs:205-230 | The owner of an unexpired name, and nobody else, stores a record of any kind but the two anchors; that record has the content given and nothing else changes |
| `Effects.SetTextEffect` | pallets/pns-resolvers/src/resolvers.rs:239-254 | The same for texts |
| `Effects.ManagerEffect` | pallets/pns-registrar/src/registrar.rs:292-318 | What the three manager calls change and when they succeed; no account can make them and the manager no other |
| `Sales.ListEffect` | pallets/pns-marketplace/src/lib.rs:154-168 | Exactly when a name can be listed; the listing of the claimed name has the caller as seller and the price and expiry given; every other listing and everything else is as it was |
| `Sales.CancelEffect` | pallets/pns-marketplace/src/lib.rs:173-181 | The claimant of a listed name, and nobody else, takes the listing away; nothing else changes |
| `Sales.SettleIs` | pallets/pns-marketplace/src/lib.rs:206-224 | A price is settled exactly when the buyer has it, the seller can pay the fee out of what arrives, and both keep the existential deposit; then the price moves and the fee is burned |
| `Sales.FeeIsShare` | pallets/pns-marketplace/src/lib.rs:214-217 | The protocol fee is the share of the price in basis points, rounded down, of a product that stops at 128 bits |
| `Sales.BuyEffect` | pallets/pns-marketplace/src/lib.rs:194-265 | Exactly when a purchase succeeds; price and fee move, the name is handed over to the buyer who claims it, the seller claims it no longer, the listing is gone, the event reports it; nothing else changes |
| `Sales.GiftEffect` | pallets/pns-marketplace/src/lib.rs:226-254 | Exactly when a purchase for another succeeds; the same, but the recipient owns the name, has it offered by the buyer and claims nothing yet |
| `Sales.ListedPriceIsPaid` | pallets/pns-marketplace/src/lib.rs:154-265 | Over both calls: whoever buys a name as it was just listed, for whomever, has exactly the listed price less, and the seller that price less the fee more |
| `Sales.ListThenCancel` | pallets/pns-marketplace/src/lib.rs:154-181 | Taking a fresh listing away restores the state |
| `Undo.OfferThenRevoke` | pallets/pns-registrar/src/registry.rs:654-759 | Revoking a fresh offer restores the state |
| `Undo.OfferAcceptRelease` | pallets/pns-registrar/src/registry.rs:654-779 | Offering, accepting and releasing a subname under which nothing was stored restores the state |
| `Undo.ReserveThenFree` | pallets/pns-registrar/src/registrar.rs:292-318 | Freeing a name that was just reserved restores the state |
| `Undo.LastRecordCounts` | pallets/pns-resolvers/src/resolvers.rs:205-230 | Storing a record twice leaves what the second call alone leaves |
| `Ownership.RunOwners` | pallets/pns-registrar/src/registrar.rs:521-584 | If a name no longer belongs to the account that owned it, then at some step that account still owned it and it transferred, released, burned or turned it down, or its unexpired listing was paid for, or the name was registered after its grace period |
| `Ownership.PerformOwners` | pallets/pns-marketplace/src/lib.rs:194-245 | Every signed extrinsic leaves every name with its owner unless it is one of these |
| `Ownership.StaleForever` | pallets/pns-registrar/src/registry.rs:332 | A row that lists a name under an account that does not own it stays, and stays so, in every run |
| `Ownership.PerformNoNewOwner` | pallets/pns-registrar/src/registry.rs:650-652 | No signed extrinsic makes an account the owner of a name that it is listed under and does not own |
| `Ownership.FormerOwnerLockedOut` | pallets/pns-registrar/src/registry.rs:432-436 | An account that gave away the name registered to it is refused every registration after every later run, whatever offer the call turns down |
| `Ownership.RowBlocks` | pallets/pns-registrar/src/registry.rs:650-652 | An account with a row of the index can neither receive a name nor take a subname, unless the offer that a `register` turns down takes its last row away |
| `Ownership.DepartureExact` | pallets/pns-registrar/src/registry.rs:223-271 | Handing a name on makes the row of the account under it stale, if there is one, and leaves every other as it was; releasing a name makes no row stale and none fresh |
| `Rows.RunRows` | pallets/pns-registrar/src/registry.rs:325-332 | In every run, clean or not: no account is listed under two names, an account listed under a name holds no subname and claims no other name, and claims that one if it owns it |
| `Rows.RefusedExact` | pallets/pns-registrar/src/registrar.rs:390-400 | An account is refused as a receiver if and only if it holds a name (a live one it claims and owns, or a subname), or is listed under a name it does not own, or claims and owns the lapsed name registered to it, or claims a live name it does not own |
| `Rows.LapsedExact` | pallets/pns-registrar/src/registrar.rs:390-400 | An account whose claim has lapsed may receive a name if and only if the name was not registered to it and it holds no subname |
| `Rows.ReleaseFrees` | pallets/pns-registrar/src/registrar.rs:572-584 | An account that releases its name, live or lapsed, has no row left and may receive another at once, unless it holds a subname |
| `StrayClaims.RunMisclaims` | pallets/pns-registrar/src/registry.rs:528-534 | Over every run an account comes to claim a name that it does not own only by burning the name it claims, by turning it down in a registration for another, or by accepting a gift that it does not own |
| `StrayClaims.ForeignActsExact` | pallets/pns-registrar/src/registrar.rs:481-514 | An account can renew, list, delist or handle the subnames of a registered name that it does not own if and only if it claims the name |
| `LockOut.RefusedForever` | pallets/pns-registrar/src/registry.rs:650-652 | An account is refused as the receiver of a name after every later run if and only if it is listed under a name that it does not own |
| `LockOut.CanFreeItself` | pallets/pns-registrar/src/registry.rs:528-534 | An account without such a row is admitted again after a run of its own calls and the passing of time: it burns what it is listed under, releases its subname and lets its claim lapse |
| `LockOut.StaleRefused` | pallets/pns-registrar/src/registrar.rs:390-400 | After every run, every registration, transfer, sale, gift, acceptance of a gift and acceptance of a subname that would give such an account something fails |
| `LockOut.GiverRefusedExactly` | pallets/pns-registrar/src/registrar.rs:521-561 | An account that transfers its name is refused for good if and only if the name was registered to it |
| `LockOut.SellerRefusedExactly` | pallets/pns-marketplace/src/lib.rs:194-265 | The seller of a bought name is refused for good if and only if the name was registered to it, or it was refused for good before |
| `LockOut.RunBecomesStale` | pallets/pns-registrar/src/registry.rs:432-436 | Over every run an account comes to be listed under a name that it does not own only by transferring or selling the name while it owned it and was listed under it |
| `LockOut.ReleaserNotRefused` | pallets/pns-registrar/src/registrar.rs:572-584 | An account that releases its name is not refused for good |
| `LockOut.RunSpellable` | pallets/pns-types/src/lib.rs:168-220 | In every run every name and subname is the node of some text, so that its owner can address it |
| `FinePrint.ActivationChecked` | pallets/pns-registrar/src/registry.rs:693-722 | Over every run, whoever comes to hold a subname accepted it at a step at which it had no valid name and no row |
| `FinePrint.RunSubnames` | pallets/pns-registrar/src/registry.rs:741-779 | If after any run an account no longer holds a subname that it held, then at some step it still held it and it released it, the claimant of the parent revoked it, or the parent was taken from its owner by an authorised call |
| `FinePrint.AcceptExact` | pallets/pns-registrar/src/registry.rs:693-722 | The target of a pending offer below an unexpired name can accept if and only if it may receive a name |
| `FinePrint.OfferExact` | pallets/pns-registrar/src/registry.rs:654-691 | Exactly when an offer succeeds; what its target holds plays no part |
| `FinePrint.GraceEndExact` | pallets/pns-registrar/src/registrar.rs:489-493 | A claimed name is refused renewal if and only if its grace period is over, and transfer if and only if it is over or ends now, so the two differ exactly at that instant |
| `FinePrint.RegisterAfterGrace` | pallets/pns-registrar/src/registrar.rs:852-862 | A registration that nothing else stands against is refused as occupied up to and including the end of the grace period, and not after |
| `FinePrint.BurnTakesSubnames` | pallets/pns-registrar/src/registry.rs:223-271 | The burn of a name and the release of a claimed one succeed if and only if the caller owns it, whatever subnames there are, and take exactly those away |
| `FinePrint.OpenExact` | pallets/pns-marketplace/src/lib.rs:198-204 | A listing, however old, is open to a buyer if and only if it has not expired, the buyer is not the seller, and the seller owns the name now |
| `FinePrint.RunListings` | pallets/pns-marketplace/src/lib.rs:154-181 | Over every run, a listing ends only by its cancellation by the claimant of the name or by a purchase |
| `FinePrint.BuyExact` | pallets/pns-marketplace/src/lib.rs:194-265 | A listing that is open and paid for is delivered if and only if the one who is to own the name may receive it, the grace period has not ended and, for a gift, the recipient is neither buyer nor seller and the name no pending gift; what the buyer of a gift holds plays no part |
| `FinePrint.RenewOnlyExpiry` | pallets/pns-registrar/src/registrar.rs:481-514 | A renewal touches no name but the claimed one and of that one only the expiry, so the block recorded with it stays that of the registration |
| `FinePrint.TransferRewrites` | pallets/pns-registrar/src/registry.rs:439-448 | A transfer writes the block hash record anew and leaves the texts of the name as they were |
| `FinePrint.RunReserved` | pallets/pns-registrar/src/registrar.rs:384-387 | A name that is not registered and stays reserved all through a run is not registered by it |
| `FinePrint.TooShortExact` | pallets/pns-registrar/src/registrar.rs:335-470 | A registration is refused for the length of its label if and only if there is no label |
| `FinePrint.DottedRefused` | pallets/pns-resolvers/src/resolvers.rs:200-254 | Under every name with a dot, `set_record`, `set_text` and `burn` fail for every caller |
| `Witnesses.BurnLeavesClaim` | pallets/pns-registrar/src/registry.rs:528-534 | A run of two extrinsics after which an account claims a name that does not exist |
| `Witnesses.StrayClaim` | pallets/pns-registrar/src/registry.rs:528-534 | A run after which an account that owns nothing, is listed nowhere and holds no subname is refused a name and the release of its claim, and can renew the name of another, offer subnames below it and list it |
| `Witnesses.RegisterLeavesGift` | pallets/pns-registrar/src/registrar.rs:405-449 | A run after which a name owned by one account is recorded as a gift to another, who accepts it and is then in its owner record, so that `lookup` and `get_info` name different accounts |
| `Witnesses.GiverIsRefused` | pallets/pns-registrar/src/registry.rs:432-436 | A run after which an account that holds nothing is refused every name |
| `Witnesses.OfferedToHolder` | pallets/pns-registrar/src/registry.rs:654-691 | A run in which a subname is offered to an account that has a valid name, which then cannot accept |
| `Witnesses.GraceEndsHere` | pallets/pns-registrar/src/registrar.rs:864-877 | A run to the instant at which a name can be renewed and neither transferred nor registered |
| `Witnesses.BurnedWithSubname` | pallets/pns-registrar/src/registry.rs:519-534 | A run after which a name with a subname can be both burned and released, taking the subname along |
| `Witnesses.LapsedIsRefused` | pallets/pns-registrar/src/registrar.rs:390-400 | A run after which an account whose name has lapsed, with no valid name, no subname and no stale row, is refused every registration, its own lapsed name included, until it releases that name |
| `Witnesses.OldListingRevives` | pallets/pns-marketplace/src/lib.rs:149-168 | A run in which a name is listed, released and registered again by the same account, and the old listing can be bought |
| `Witnesses.PendingGiftAnswers` | runtime/src/apis.rs:294-317 | A run after which `get_info` of a pending gift returns nothing and `lookup` the recipient |
| `Witnesses.GraceAnswers` | runtime/src/apis.rs:294-317 | A run after which `get_info` of a name in its grace period returns nothing and `lookup` its owner |
| `Witnesses.HolderBuysGift` | pallets/pns-marketplace/src/lib.rs:194-265 | A run after which an account with a valid name can buy a name for another account and not for itself |
| `Witnesses.TwoTokens` | pallets/pns-registrar/src/registrar.rs:1078-1132 | A run after which an account owns two live names, one of them a gift that it has not answered |
| `Witnesses.RecordedBlocks` | pallets/pns-registrar/src/registrar.rs:481-514 | A run after which a renewed name still carries the block of its registration, and a transferred one the block hash of its transfer |
| `StoragePromises.CountersWithinCapacity` | pallets/pns-registrar/src/registry.rs:385-399 | The counter on the token of a name equals the number of its subname records and is within its capacity |
| `StoragePromises.NoSubnameTokens` | pallets/pns-registrar/src/registry.rs:501-512 | Subnames sit at depth two below a registered name and have no token and no trace, so the branches for subname tokens are dead |
| `StoragePromises.SlateInStorage` | pallets/pns-registrar/src/registry.rs:483-515 | After a handover the counter is zero and no index has a row under the name |
| `StoragePromises.OneIndexRow` | pallets/pns-registrar/src/registry.rs:650-652 | `AccountToSubnames` has at most one row per account, of a name or of a subname |
| `Nft.Transfer` | pallets/pns-registrar/src/nft.rs:226-242 | Moves the token exactly when the sender owns it, and keeps the owner index its inverse |
| `Nft.Mint` | pallets/pns-registrar/src/nft.rs:244-274 | Adds a token; index and issuance stay exact when the token is new |
| `Nft.Burn` | pallets/pns-registrar/src/nft.rs:276-293 | Removes the token exactly when the sender owns it; the checked subtraction never fails |
| `Registry.ClearChild` | pallets/pns-registrar/src/registry.rs:492-512 | One turn of the bulk deletion removes the record of the child, its index rows and its resolver records |
| `Registry.ClearChildren` | pallets/pns-registrar/src/registry.rs:489-512 | The bulk-delete loop removes exactly the collected children, from the records, both account indexes and the resolver |
| `Registry.ClearSubnames` | pallets/pns-registrar/src/registry.rs:483-515 | Bulk deletion removes every subname of the root and nothing else, keeps every index exact and resets the counter |
| `Registry.DoBurn` | pallets/pns-registrar/src/registry.rs:223-271 | The owner alone destroys a name other than the base: token, registration, trace, row, subnames and records go together and every index stays exact; the errors for a missing token, a stranger and the base node |
| `Registry.DoTransfer` | pallets/pns-registrar/src/registry.rs:405-458 | The owner alone hands a name on while its grace period has not ended: new owner, no subnames, no records but the anchors, every index exact; the errors otherwise |
| `Registry.TakeOver` | pallets/pns-registrar/src/registry.rs:310-327 | Taking a lapsed name over clears it, moves the token and moves the row from the old owner to the new |
| `Registry.MintFresh` | pallets/pns-registrar/src/registry.rs:359-363 | Under the base node, a fresh name enters tokens, traces, rows and the base counter with every index exact |
| `Registry.MintSubname` | pallets/pns-registrar/src/registry.rs:277-373 | The owner of the parent alone mints below it, and not for itself. Under the base node: a fresh name is minted, a lapsed one is cleared and taken over, a live one is occupied, and a fee that cannot be taken is an error. Below a registered name: within the capacity, a token, a row, a trace and an index entry |
| `Registry.MintBelow` | pallets/pns-registrar/src/registry.rs:328-358 | Below a registered name: exactly what is written, or the error of the payment or of the capacity |
| `Registry.MintUnderBase` | pallets/pns-registrar/src/registry.rs:304-363 | Under the base node: fresh, lapsed or occupied, and paid or refused, with every index exact |
| `Registry.AddChildren` | pallets/pns-registrar/src/registry.rs:374-384 | Adds one to the counter of an existing token |
| `Registry.Burn` | pallets/pns-registrar/src/registry.rs:528-534 | Burns the node that the name parses to, or reports a name that does not parse |
| `Registry.SetOfficial` | pallets/pns-registrar/src/registry.rs:538-559 | The office and the base token change hands together |
| `Subnames.AddChildrenWithCheck` | pallets/pns-registrar/src/registry.rs:385-399 | Takes a slot exactly when the counter is below the capacity |
| `Subnames.SubChildren` | pallets/pns-registrar/src/registry.rs:460-472 | Gives a slot back exactly when the counter is positive |
| `Subnames.OfferSubname` | pallets/pns-registrar/src/registry.rs:654-691 | Offers below a registered name only, not to its owner, not twice and within the capacity: the check on the counter is the check on the number of subnames; record, indexes and slot are entered together |
| `Subnames.AcceptSubnameOffer` | pallets/pns-registrar/src/registry.rs:693-722 | Refused to an account with a valid name or any row; otherwise the record turns active and moves from the index of offers to that of holders |
| `Subnames.RejectSubnameOffer` | pallets/pns-registrar/src/registry.rs:724-739 | The target alone turns a pending offer into a rejected record, which leaves the index of offers and keeps its slot |
| `Subnames.RemoveSubname` | pallets/pns-registrar/src/registry.rs:741-759 | Takes a record out of every index and gives its slot back; the counter never underflows |
| `Subnames.RevokeSubname` | pallets/pns-registrar/src/registry.rs:741-759 | Takes a subname of the given parent away in any state, with its index rows and slot, and with its records if it was active |
| `Subnames.ReleaseSubname` | pallets/pns-registrar/src/registry.rs:761-779 | The holder alone gives an active subname up, with its record, index rows, slot and records |
| `Subnames.RevokePendingOfferForTarget` | pallets/pns-registrar/src/registry.rs:781-795 | The target alone withdraws a pending offer, with its index rows and slot |
| `Subnames.ChecksAgree` | pallets/pns-registrar/src/registry.rs:650-652 | The checks on an account read the storage as the name service does: a valid claim, and any row of the index |
| `RegistrarChecks.DoPayments` | pallets/pns-registrar/src/registrar.rs:405-449 | Forgets the previous owner's claim, takes the fee or fails, and writes the registration, keeping the capacity of a registered name |
| `RegistrarChecks.WithdrawFee` | pallets/pns-registrar/src/registrar.rs:419-425 | Withdraws and burns, or fails, as `Withdraw` says |
| `Registrar.AdmitReceiver` | pallets/pns-registrar/src/registrar.rs:390-400 | Admits an account exactly when it has no valid name and no row, and drops a lapsed claim |
| `Registrar.AddReserved` | pallets/pns-registrar/src/registrar.rs:292-302 | Adds the node of a valid label to the reserved list, or reports a label that does not parse |
| `Registrar.RemoveReserved` | pallets/pns-registrar/src/registrar.rs:308-318 | Takes the node of a valid label off the reserved list, or reports a label that does not parse |
| `Registrar.RejectPending` | pallets/pns-registrar/src/registrar.rs:345-361 | Turns down a gift, which burns the name, or a subname offer, which is withdrawn; only the recipient or target may, and every other case has its error |
| `Registrar.RegisterTop` | pallets/pns-registrar/src/registrar.rs:375-467 | Registers a name for one period: refused on overflow, when reserved, when the owner may not receive or is the official, when occupied or unpaid; otherwise minted, claimed, anchored and reported, and a lapsed claim of the owner forgotten |
| `Registrar.Register` | pallets/pns-registrar/src/registrar.rs:335-470 | The whole call on the storage, errors in the order of the checks: it does what `Effects.RegisterExact`, `Effects.RegisterEffect` and `Effects.RegisterRejecting` say of `register`, the caller paying, and keeps every index exact |
| `Registrar.Renew` | pallets/pns-registrar/src/registrar.rs:481-514 | The call on the storage: it does what `Effects.RenewEffect` says, up to and including the end of the grace period |
| `Registrar.Transfer` | pallets/pns-registrar/src/registrar.rs:521-561 | Hands the claimed name to an account that may receive it, before the end of the grace period, and moves the claim |
| `Registrar.ReleaseName` | pallets/pns-registrar/src/registrar.rs:572-584 | Drops the claim and burns the claimed name |
| `Registrar.OfferSubdomain` | pallets/pns-registrar/src/registrar.rs:594-631 | Records an offer below the claimed, unexpired name, within its capacity and not to its owner; a valid label always fits the bounded vector |
| `Registrar.AcceptSubdomain` | pallets/pns-registrar/src/registrar.rs:640-671 | The target that may receive a name makes the subname active below an unexpired name, and its owner record is written |
| `Registrar.RejectSubdomain` | pallets/pns-registrar/src/registrar.rs:680-703 | The target turns the offer of the named subname down |
| `Registrar.RevokeSubdomain` | pallets/pns-registrar/src/registrar.rs:712-733 | The call on the storage: it takes the named subname away in any state, as `Effects.RevokeEffect` says, with its index rows and its slot |
| `Registrar.ReleaseSubdomain` | pallets/pns-registrar/src/registrar.rs:793-816 | The holder gives the named subname up |
| `Registrar.AcceptOfferedName` | pallets/pns-registrar/src/registrar.rs:747-784 | The recipient of an unexpired gift that may receive a name claims it, and the anchors are written for it |
| `Registrar.TransferName` | pallets/pns-registrar/src/registrar.rs:1054-1076 | A sale moves the name to a buyer that may receive it, ends the seller's claim to it and makes the buyer's |
| `Registrar.OfferBoughtName` | pallets/pns-registrar/src/registrar.rs:1078-1132 | A gift sale moves the token to a recipient that may receive it, ends the seller's claim, makes none, and records the gift; a name already offered is refused |
| `Marketplace.CreateListing` | pallets/pns-marketplace/src/lib.rs:154-168 | The call on the storage: it lists the claimed name at the price and until the time given, as `Sales.ListEffect` says, unless it is listed |
| `Marketplace.CancelListing` | pallets/pns-marketplace/src/lib.rs:173-181 | The call on the storage: it takes the listing of the claimed name away, as `Sales.CancelEffect` says |
| `Marketplace.SettlePrice` | pallets/pns-marketplace/src/lib.rs:206-224 | The buyer pays the price to the seller and the fee is burned from the seller, or an error is returned |
| `Marketplace.AnchoredAlready` | pallets/pns-marketplace/src/lib.rs:244-254 | Clearing and anchoring a name again after a sale changes nothing |
| `Marketplace.BuyName` | pallets/pns-marketplace/src/lib.rs:194-265 | An open listing whose seller still owns the name is paid and delivered, to the buyer or as a gift, and the listing ends; otherwise the error of the first check that fails |
| `Resolvers.SetSs58Record` | pallets/pns-resolvers/src/resolvers.rs:288-298 | Writes the owner record |
| `Resolvers.SetOriginRecord` | pallets/pns-resolvers/src/resolvers.rs:305-310 | Writes the block hash record |
| `Resolvers.ClearRecordsExceptSs58` | pallets/pns-resolvers/src/resolvers.rs:318-326 | The loop removes every record of the node but the owner record, and nothing of any other node |
| `Resolvers.ClearAllRecords` | pallets/pns-resolvers/src/resolvers.rs:332-335 | Removes all records and texts of the node and nothing else |
| `Resolvers.UseableAgrees` | runtime/src/configs/mod.rs:280-291 | For every name that parses, the check of the runtime lets exactly the owner of an unexpired name edit it |
| `Resolvers.SetRecord` | pallets/pns-resolvers/src/resolvers.rs:205-230 | The owner of an unexpired name writes any record of it but the two anchors, and nobody else |
| `Resolvers.SetText` | pallets/pns-resolvers/src/resolvers.rs:239-254 | The owner of an unexpired name writes a text of it, and nobody else |
| `Resolvers.LookupRecords` | pallets/pns-resolvers/src/resolvers.rs:151-193 | The loop answers with the two anchors that exist, then with `Answers` to the request, which `Resolvers.AnswersOne` and `Resolvers.AnswersConcat` determine for every request |
| `Resolvers.AnswersExact` | pallets/pns-resolvers/src/resolvers.rs:151-193 | A record is among the requested answers if and only if it was requested, is of no blocked type, and is stored and not empty; the blocked types are the sixteen named ones by `Resolvers.AnswersOne` |
| `Resolvers.AnswersOne` | pallets/pns-resolvers/src/resolvers.rs:152-191 | A plain type is answered by what is stored for it unless that is empty, and each of the sixteen named types by nothing |
| `Resolvers.AnswersConcat` | pallets/pns-resolvers/src/resolvers.rs:183-191 | The answer to a request in two parts is the answer to the first, then that to the second: order and repetitions are kept |
| `RuntimeApi.QueriesAgree` | runtime/src/apis.rs:294-364 | `get_info` and `resolve_name` on the storage answer as the name service does |
| `RuntimeApi.InfoExact` | runtime/src/apis.rs:294-317 | When `get_info` answers, and which field of the name is which field of the answer |
| `RuntimeApi.RegistrationResolves` | runtime/src/apis.rs:337-364 | Over both calls: a registered name resolves to the owner given, one period from now, the fee that the caller paid and this block |
| `RuntimeApi.LookupByName` | runtime/src/apis.rs:365-369 | A name that does not parse is answered with nothing, any other as its node is |
| `RuntimeApi.LookupExact` | pallets/pns-resolvers/src/resolvers.rs:151-193 | In every run a registered name answers first with its account and block hash, an active subname with its holder and nothing else whatever is asked, and everything else with nothing |
| `RuntimeApi.StoredIsLookedUp` | pallets/pns-resolvers/src/resolvers.rs:151-230 | Over both calls: after an owner stores a record of a plain type, a lookup of that type returns the two anchors and then exactly what was stored |
| `RuntimeApi.NamedTypesAddNothing` | pallets/pns-resolvers/src/resolvers.rs:152-169 | A request for named types, however many, adds nothing to the anchors |
| `RuntimeApi.AnswersInOrder` | pallets/pns-resolvers/src/resolvers.rs:183-191 | Plain types that are stored are answered one for one, in the order and as often as they are asked |
| `RuntimeApi.LookupAgainstInfo` | pallets/pns-resolvers/src/resolvers.rs:151-193 | `lookup` answers where `get_info` does not if and only if the node is a registered name that is a pending gift or has expired, or an active subname |
| `RuntimeApi.SameAccountExact` | pallets/pns-resolvers/src/resolvers.rs:151-193 | Where both answer, `lookup` and `get_info` name the same account if and only if the owner record of the name is its owner |
| `RuntimeApi.PendingGiftLooksUp` | runtime/src/apis.rs:365-369 | For a pending gift `get_info` returns nothing and `lookup` returns the recipient, who has not accepted it |
| `Labels.LowerIsNormal` | pallets/pns-registrar/src/traits.rs:259-273 | A label is valid exactly when its lower case is in normal form, which lower-casing fixes |
| `Labels.AlphabetExact` | pallets/pns-registrar/src/traits.rs:259-273 | The bytes of a label are the digits and the letters of either case |
| `Labels.LowerCaseExact` | pallets/pns-registrar/src/traits.rs:187-216 | Lower case maps every capital to the small letter at its place and keeps every other byte |
| `Labels.LabelExact` | pallets/pns-registrar/src/traits.rs:259-273 | A label is valid if and only if it has 1 to 63 bytes, all of them digits or letters |
| `NameParsing.ParseAgreesWithLabels` | pallets/pns-types/src/lib.rs:168-195 | Parsing equals `new_with_len` and `encode_with_node` on names with no dot or one, and refuses names with more |
| `NameParsing.RenderParse` | pallets/pns-types/src/lib.rs:168-195 | Rendering what a name parses to gives its lower case |
| `NameParsing.ParseRender` | pallets/pns-types/src/lib.rs:168-195 | Parsing the rendering of a node of depth one or two gives the node back |
| `NameParsing.SameNodeIffSameLowerCase` | pallets/pns-types/src/lib.rs:168-220 | Two accepted names parse to the same node if and only if they are equal in lower case |
| `Auction.Pallet.HandleBid` | pallets/pns-registrar/src/auction.rs:248-307 | Exactly when a bid is refused; a higher bid is reserved in full and becomes the snapshot, any other changes nothing; the currency of every account, free plus reserved, is unchanged |
| `Auction.Pallet.BidToBeat` | pallets/pns-registrar/src/auction.rs:265-271 | In every valid state the bid to beat is the latest snapshot and no bidder has more reserved, so the top-up never underflows |
| `Auction.Pallet.TakeSample` | pallets/pns-registrar/src/auction.rs:168-183 | At the next block the sample before the latest always has a snapshot, so sampling never fails, and the new snapshot is a copy of it |
| `Auction.Pallet.CheckAuctionEnd` | pallets/pns-registrar/src/auction.rs:309-335 | An auction ends when it is over and the randomness is newer than its end; its snapshots go and the one of the sample drawn is returned, which is the sample that `Auction.DrawnExact` says |
| `Auction.Pallet.DrainReserves` | pallets/pns-registrar/src/auction.rs:338-342 | Settlement gives every bidder exactly what it had reserved on the node, and leaves no row of the node |
| `Auction.Pallet.ManageAuctionEnd` | pallets/pns-registrar/src/auction.rs:337-363 | Every bidder gets its reserve back; the winner pays its bid to the official account exactly when neither falls below the existential deposit; the expiry is set exactly when it is paid and the name registered exactly when besides the mint succeeds; nothing is undone |
| `Auction.Pallet.TrySettle` | pallets/pns-registrar/src/auction.rs:184-190 | A decided auction is settled for the bid of the drawn sample, which exists and is covered: who wins, what is paid and the free balance of every account; any other auction is left alone |
| `Auction.Pallet.OnInitialize` | pallets/pns-registrar/src/auction.rs:165-194 | At every block all auctions stay sampled without gaps and with rising, covered bids; exactly the decided ones end, each once, in some order; each is paid if and only if winner and official account stay alive after the settlements before it, for the drawn bid; and the free balance of every account is given |
| `Auction.RunAuctions` | pallets/pns-registrar/src/auction.rs:165-307 | Over every run of bids and blocks, step by step: a bid is taken exactly when the name is free, the auction not over, the bid the highest and the bidder able to reserve it, and then becomes the snapshot and is reserved, and has no effect otherwise; a block settles the decided auctions for the bids drawn from the snapshots of the time; and every account has what it had less the bids it won and paid, the official account these besides |
| `Auction.DrawnWasTaken` | pallets/pns-registrar/src/auction.rs:319-324 | The drawn sample, which `Auction.DrawnExact` determines, is one of those taken, so a winner is there |
| `Auction.DrawnExact` | pallets/pns-registrar/src/auction.rs:319-324 | A random number draws the sample that its remainder by the ending period lies in, and no other |
| `Auction.DrawnOnto` | pallets/pns-registrar/src/auction.rs:319-324 | A sample can be drawn if and only if it is one of the ending period |
| `Auction.SameDraw` | pallets/pns-registrar/src/auction.rs:319-324 | Two random numbers draw the same sample if and only if their remainders lie in the same sample |
| `Auction.LatestExact` | pallets/pns-registrar/src/auction.rs:236-246 | Until the ending period is over the latest sample is the one that the block lies in, and then the last |
| `Auction.Pallet.StatusExact` | pallets/pns-registrar/src/auction.rs:227-246 | Each status exactly: no auction, before its start, the sample of the ending period and the place in it, or the blocks since its end |
| `Candle.HighestAtTheDrawWins` | pallets/pns-registrar/src/auction.rs:248-335 | The candle law, over every run of bids and blocks: a name is sold to whoever placed the highest of the bids taken on it up to the sample drawn, at that bid |
| `Candle.SnapshotsExplained` | pallets/pns-registrar/src/auction.rs:168-183 | In every run the snapshot of each sample is the last bid taken in that sample or before, and bids rise |
| `Candle.EndsExactly` | pallets/pns-registrar/src/auction.rs:309-335 | In every run an auction ends at a block if and only if its ending period is over and the random number was not known before its end |
| `Candle.HoldAuctions` | pallets/pns-registrar/src/auction.rs:165-307 | Auctions held on the pallet, from an empty start, are runs in the sense of these laws |
| `Dns.NeverOverTheCap` | pallets/pns-ddns/src/dns_server.rs:340-348 | Under every interleaving at most the limit of requests hold a guard, the counter is the guards plus the requests still deciding, and it never wraps |
| `Dns.TakeCounts` | pallets/pns-ddns/src/dns_server.rs:487-493 | Every atomic action keeps the count, and a decrement meets a positive counter |
| `Dns.EntryExact` | pallets/pns-ddns/src/dns_server.rs:340-348 | A request is let through exactly when fewer than the limit are in flight before it, and turned away exactly when not; the others are untouched |
| `Dns.CapReached` | pallets/pns-ddns/src/dns_server.rs:340-348 | The cap is reached: from an idle server the limit of requests can hold guards at once |
| `Dns.ResponseQueue.Tick` | pallets/pns-ddns/src/dns_server.rs:140-151 | A tick answers the waiters at the front, in order and now, up to the first that is not ripe, and keeps the rest |
| `Dns.ResponseQueue.Receive` | pallets/pns-ddns/src/dns_server.rs:152-154 | An arrival goes to the back |
| `Dns.Pace` | pallets/pns-ddns/src/dns_server.rs:127-166 | Over every run of arrivals and ticks responses leave in order of arrival, none early, none lost, none twice; every arrival joins the back and every tick answers the longest ripe prefix |
| `Dns.NoneLeftBehind` | pallets/pns-ddns/src/dns_server.rs:140-151 | When waiters enter in the order of their times, a tick leaves no ripe one behind |
| `Dns.ReadyIsSent` | pallets/pns-ddns/src/dns_server.rs:140-151 | In every run in which requests enter in the order of their times, a tick answers everyone who came in before it and whose time has come |

## Left out

- Hashing and encoding: keccak, SCALE and the check for valid UTF-8, which the check for ASCII letters and digits implies; two different names never share a node here.
- Integer widths beyond those stated: 64-bit time is unbounded (`Promises.GraceNeverOverflows` says when that is harmless), and so are the 32-bit children counter of the base token, the 128-bit balances and issuance of the NFT class, and block numbers.
- Events other than the four that report a burned fee, weights, origins and account lookup.
- Other activity on balances, locks and reserves outside the auction, and the reaping of accounts; a payment that would go below the existential deposit fails.
- Errors keep their names but not the pallet they come from.
- `redeem_code.rs`, which is not part of the runtime, and `for_redeem_code`.
- `price_oracle.rs` but for the fee of a length, and `origin.rs`: the price table is a parameter of a block, of any length where the pallet has eleven prices, and the manager is an origin.
- `account_dashboard`, whose list of subnames inherits the rows of top-level names, `all` and `get_listing`.
- The Bloom filters, rate limiters, penalties and caches of the DNS front end, `authority.rs` and the record type tables.
- Migrations, benchmarks, mocks, the node service, RPC and HTTP.
- Liveness, such as a response eventually leaving the queue.
- Auction.Pallet.HandleBid: does not model the parsing of the name and the test that its length may be auctioned; the opening of an auction is written after the reserve is taken, because a failed reserve undoes it.
- Auction.Pallet.ManageAuctionEnd: whether the mint succeeds is a parameter, and of the expiry only that it is set and not its value, because the two calls no longer exist in the registry and the registrar.
- Auction.Pallet.OnInitialize: needs a positive ending period and one call for every block; the end of an auction is an unbounded sum where the code saturates.
- Dns.NeverOverTheCap: requests in flight are assumed to fit the 64-bit counter.
- Runtime.Execute: clock, block number, parent hash and prices come with each block; the manager's change of prices is such a block.
