/** Short runs from genesis that show where the code keeps less than its comments say. */
module Witnesses {
  import opened Types
  import opened Labels
  import opened NameParsing
  import opened Currency
  import opened NameService
  import opened AllRuns
  import opened CleanRuns
  import opened Ownership
  import opened StrayClaims
  import Promises
  import RuntimeApi

  const ALICE := AccountId(1)
  const BOB := AccountId(2)
  const CAROL := AccountId(3)

  /** The label `a` and its node. */
  const NAME: Bytes := [97]
  const NODE := Child(Base, NAME)

  const CONFIG := Config(10, 100, 5, 0, 0, true)
  const FREE_OF_CHARGE := Env(0, 0, 0, [0])

  function Start(): State {
    Genesis(CONFIG, FREE_OF_CHARGE, AccountId(0), {}, Money(map[], 0))
  }

  lemma NameParses()
    ensures Top(NAME) == Some(NODE) && |Lower(NAME)| == 1 && ParseNameToNode(NAME, Base) == Some(NODE)
  {
    assert Lower(NAME) == NAME;
    assert CheckLabel(NAME);
    assert NAME[0] != DOT;
  }

  function FirstName(): State {
    Start().(dir := Directory(map[NODE := Name(ALICE, 100, 5, 0, 1, 0)], map[], {(ALICE, NODE)}),
             claims := Claims(map[ALICE := NODE], map[], map[]),
             zone := Zone(map[(NODE, SS58) := AccountBytes(ALICE), (NODE, ORIGIN) := HashBytes(0)], map[]),
             events := [NameRegistered(NODE, ALICE, 100, 0)])
  }

  lemma Registered()
    ensures Step(Start(), Signed(ALICE, Register(NAME, ALICE, None))) == FirstName()
  {
    hide ParseNameToNode, Lower, CheckLabel;
    NameParses();
  }

  lemma RunTwo(s: State, x: Extrinsic, y: Extrinsic)
    ensures Run(s, [x, y]) == Step(Step(s, x), y)
  {
    hide Step;
    RunAppend(s, [x], y);
    RunAppend(s, [], x);
    assert [x] + [y] == [x, y] && [] + [x] == [x];
  }

  /** The bare `burn` leaves the claim of the account that burned its name. */
  lemma BurnLeavesClaim()
    ensures var s := Run(Start(), [Signed(ALICE, Register(NAME, ALICE, None)), Signed(ALICE, Burn(NAME))]);
            !Consistent(s) && s.claims.primary == map[ALICE := NODE] && NODE !in s.dir.names
  {
    hide ParseNameToNode, Lower, CheckLabel, Run;
    RunTwo(Start(), Signed(ALICE, Register(NAME, ALICE, None)), Signed(ALICE, Burn(NAME)));
    Registered();
    NameParses();
    var s := Step(FirstName(), Signed(ALICE, Burn(NAME)));
    assert s.claims == FirstName().claims && s.dir.names == map[];
    assert ALICE in s.claims.primary;
  }

  lemma HandedOver()
    ensures var s := Step(FirstName(), Signed(ALICE, Transfer(BOB)));
            && s.dir == Directory(map[NODE := Name(BOB, 100, 5, 0, 1, 0)], map[], {(ALICE, NODE)})
            && s.claims.primary == map[BOB := NODE]
  {
    hide Wipe, KeepSs58, WriteAnchors, SubsUnder;
    assert !BlockedByRow(FirstName().dir, BOB);
    assert DoTransfer(FirstName(), ALICE, BOB).Ok?;
  }

  /** An account that gave its name away holds nothing, yet is refused a new name. */
  lemma GiverIsRefused(name: Bytes)
    ensures var s := Run(Start(), [Signed(ALICE, Register(NAME, ALICE, None)), Signed(ALICE, Transfer(BOB))]);
            && s.dir.names.Keys == {NODE} && s.dir.names[NODE].owner == BOB
            && s.claims.primary == map[BOB := NODE] && s.dir.subs == map[]
            && Apply(s, Signed(ALICE, Register(name, ALICE, None))).Err?
  {
    hide Top, Lower, Run, Step, HasValidName, Withdraw, RegistrationFee, Mint, RegisterClaims, RegisterZone;
    RunTwo(Start(), Signed(ALICE, Register(NAME, ALICE, None)), Signed(ALICE, Transfer(BOB)));
    Registered();
    HandedOver();
    var s := Step(FirstName(), Signed(ALICE, Transfer(BOB)));
    assert (ALICE, NODE) in s.dir.held;
    assert BlockedByRow(s.dir, ALICE);
  }

  // A gift that is never accepted, and outlives the registration it was bought with

  function Gifted(): State {
    FirstName().(dir := Directory(map[NODE := Name(BOB, 100, 5, 0, 1, 0)], map[], {(ALICE, NODE)}),
                 claims := Claims(map[], map[NODE := OfferedName(CAROL, BOB)], map[]),
                 zone := Zone(map[(NODE, SS58) := AccountBytes(BOB), (NODE, ORIGIN) := HashBytes(0)], map[]),
                 events := FirstName().events + [NameBoughtForRecipient(NODE, ALICE, CAROL, BOB, 0, 0)])
  }

  function ForSale(): State {
    FirstName().(claims := FirstName().claims.(listings := map[NODE := Listing(ALICE, 0, 50)]))
  }

  lemma Listed()
    ensures Step(FirstName(), Signed(ALICE, CreateListing(0, 50))) == ForSale()
  {
  }

  lemma BobsZone()
    ensures WriteAnchors(KeepSs58(Wipe(FirstName().zone, SubsUnder(map[], NODE)), NODE), NODE, BOB, 0) == Gifted().zone
  {
    var cleared := Wipe(FirstName().zone, SubsUnder(map[], NODE));
    assert cleared.records == FirstName().zone.records && cleared.texts == map[];
    assert KeepSs58(cleared, NODE).records == map[(NODE, SS58) := AccountBytes(ALICE)];
  }

  lemma Delivered()
    ensures var s := FirstName().(claims := FirstName().claims.(listings := map[]));
            GiftName(s, ALICE, CAROL, BOB, NODE) == Ok(Gifted().(events := s.events))
  {
    BobsZone();
    hide Wipe, WriteAnchors, KeepSs58, SubsUnder;
    var s := FirstName().(claims := FirstName().claims.(listings := map[]));
    assert !BlockedByRow(s.dir, BOB);
    var t := GiftName(s, ALICE, CAROL, BOB, NODE);
    assert t.value.dir == Gifted().dir;
    assert t.value.claims == Gifted().claims;
  }

  lemma BoughtForBob()
    ensures Step(ForSale(), Signed(CAROL, BuyName(NAME, Some(BOB)))) == Gifted()
  {
    hide Top, Lower, Run, GiftName;
    NameParses();
    Delivered();
    assert ForSale().claims.listings - {NODE} == map[];
  }

  const LATER := Env(200, 0, 0, [0])

  /** Registering a lapsed gift leaves it recorded as a gift to an account that no longer owns it. When that account
      accepts, the owner record of the name follows it. */
  lemma RegisterLeavesGift()
    ensures var s := Run(Start(), [Signed(ALICE, Register(NAME, ALICE, None)), Signed(ALICE, CreateListing(0, 50)),
                                   Signed(CAROL, BuyName(NAME, Some(BOB))), NewBlock(LATER),
                                   Signed(CAROL, Register(NAME, CAROL, None))]);
            && !Consistent(s)
            && NODE in s.dir.names && s.dir.names[NODE].owner == CAROL
            && s.claims.offered == map[NODE := OfferedName(CAROL, BOB)]
            && var t := Step(s, Signed(BOB, AcceptOfferedName(NAME)));
               && NODE in t.dir.names && t.dir.names[NODE].owner == CAROL
               && (NODE, SS58) in t.zone.records && t.zone.records[(NODE, SS58)] == AccountBytes(BOB)
               && Promises.GetInfo(t, NODE).Some? && Promises.GetInfo(t, NODE).value.owner == CAROL
               && Misclaims(t, BOB) && HasValidName(t, BOB)
  {
    hide Step, Run, Top, Lower;
    var x1, x2 := Signed(ALICE, Register(NAME, ALICE, None)), Signed(ALICE, CreateListing(0, 50));
    var x3, x4 := Signed(CAROL, BuyName(NAME, Some(BOB))), NewBlock(LATER);
    var x5 := Signed(CAROL, Register(NAME, CAROL, None));
    RunTwo(Start(), x1, x2);
    RunAppend(Start(), [x1, x2], x3);
    RunAppend(Start(), [x1, x2, x3], x4);
    RunAppend(Start(), [x1, x2, x3, x4], x5);
    assert [x1, x2] + [x3] == [x1, x2, x3] && [x1, x2, x3] + [x4] == [x1, x2, x3, x4];
    assert [x1, x2, x3, x4] + [x5] == [x1, x2, x3, x4, x5];
    Registered();
    Listed();
    BoughtForBob();
    TakenOver();
    RecordOfAnother(Run(Start(), [x1, x2, x3, x4, x5]));
  }

  /** The directory and the claims after the takeover. */
  ghost predicate CarolOwns(s: State) {
    && s.sys == Start().sys.(env := LATER)
    && s.dir == Directory(map[NODE := Name(CAROL, 300, 5, 0, 1, 0)], map[], {(ALICE, NODE), (CAROL, NODE)})
    && s.claims == Claims(map[CAROL := NODE], map[NODE := OfferedName(CAROL, BOB)], map[])
  }

  lemma TakenOver()
    ensures var s := Step(Step(Gifted(), NewBlock(LATER)), Signed(CAROL, Register(NAME, CAROL, None)));
            CarolOwns(s) && !Consistent(s)
  {
    hide Top, Lower, Run, RegisterZone;
    NameParses();
    var s := Step(Gifted(), NewBlock(LATER));
    assert !BlockedByRow(s.dir, CAROL);
    var r := RegisterNode(s, CAROL, NODE, 1, CAROL);
    assert r.Ok?;
    assert r.value.dir.names == map[NODE := Name(CAROL, 300, 5, 0, 1, 0)] && r.value.dir.subs == map[];
    assert r.value.dir.held == {(ALICE, NODE), (CAROL, NODE)};
    assert r.value.claims.primary == map[CAROL := NODE];
  }

  /** The former recipient can still accept: the owner record of the name then names an account that does not own it. */
  lemma RecordOfAnother(s: State)
    requires CarolOwns(s)
    ensures var x := Signed(BOB, AcceptOfferedName(NAME));
            && Apply(s, x).Ok?
            && NODE in Step(s, x).dir.names && Step(s, x).dir.names[NODE].owner == CAROL
            && (NODE, SS58) in Step(s, x).zone.records
            && Step(s, x).zone.records[(NODE, SS58)] == AccountBytes(BOB)
            && Promises.GetInfo(Step(s, x), NODE).Some? && Promises.GetInfo(Step(s, x), NODE).value.owner == CAROL
            && Misclaims(Step(s, x), BOB) && HasValidName(Step(s, x), BOB)
            && !OwnersRecorded(Step(s, x).dir, Step(s, x).zone)
  {
    hide Top, Lower, Run;
    NameParses();
    assert !BlockedByRow(s.dir, BOB);
    assert DoAcceptGift(s, BOB, Some(NODE)).Ok?;
  }

  // An offer to an account that has a name

  const OTHER: Bytes := [98]
  const OTHER_NODE := Child(Base, OTHER)
  const LABEL: Bytes := [120]
  const SUB_NODE := Child(NODE, LABEL)

  lemma LabelsParse()
    ensures Top(OTHER) == Some(OTHER_NODE) && |Lower(OTHER)| == 1
    ensures NewLabel(LABEL) == Some(LABEL) && Sub(NAME, LABEL) == Some(SUB_NODE)
  {
    assert Lower(OTHER) == OTHER && Lower(LABEL) == LABEL && Lower(NAME) == NAME;
    assert CheckLabel(OTHER) && CheckLabel(LABEL) && CheckLabel(NAME);
  }

  lemma BobRegistered()
    ensures var s := Step(FirstName(), Signed(BOB, Register(OTHER, BOB, None)));
            && s.sys == Start().sys && s.dir.subs == map[]
            && s.dir.names == map[NODE := Name(ALICE, 100, 5, 0, 1, 0), OTHER_NODE := Name(BOB, 100, 5, 0, 1, 0)]
            && s.claims.primary == map[ALICE := NODE, BOB := OTHER_NODE]
  {
    hide Top, Lower, Run, RegisterZone;
    LabelsParse();
    assert !BlockedByRow(FirstName().dir, BOB);
    assert RegisterNode(FirstName(), BOB, OTHER_NODE, 1, BOB).Ok?;
  }

  /** A subname is offered to an account that has a valid name of its own; the account cannot accept. */
  lemma OfferedToHolder()
    ensures var s := Run(Start(), [Signed(ALICE, Register(NAME, ALICE, None)), Signed(BOB, Register(OTHER, BOB, None))]);
            var x := Signed(ALICE, OfferSubdomain(LABEL, BOB));
            && HasValidName(s, BOB) && Apply(s, x).Ok?
            && Step(s, x).dir.subs == map[SUB_NODE := SubnameRecord(NODE, LABEL, BOB, Offered)]
            && Apply(Step(s, x), Signed(BOB, AcceptSubdomain(NAME, LABEL))) == Err(TargetAlreadyOwnsName)
  {
    hide Top, Sub, NewLabel, Lower, Run;
    RunTwo(Start(), Signed(ALICE, Register(NAME, ALICE, None)), Signed(BOB, Register(OTHER, BOB, None)));
    Registered();
    BobRegistered();
    OfferTaken(Step(FirstName(), Signed(BOB, Register(OTHER, BOB, None))));
  }

  lemma OfferTaken(s: State)
    requires s.sys == Start().sys && s.dir.subs == map[]
    requires s.dir.names == map[NODE := Name(ALICE, 100, 5, 0, 1, 0), OTHER_NODE := Name(BOB, 100, 5, 0, 1, 0)]
    requires s.claims.primary == map[ALICE := NODE, BOB := OTHER_NODE]
    ensures var x := Signed(ALICE, OfferSubdomain(LABEL, BOB));
            && HasValidName(s, BOB) && Apply(s, x).Ok?
            && Step(s, x).dir.subs == map[SUB_NODE := SubnameRecord(NODE, LABEL, BOB, Offered)]
            && Apply(Step(s, x), Signed(BOB, AcceptSubdomain(NAME, LABEL))) == Err(TargetAlreadyOwnsName)
  {
    hide Top, Sub, NewLabel, Lower, Run, BlockedByRow;
    LabelsParse();
    assert SubsUnder(s.dir.subs, NODE) == {};
  }

  // The last instant of the grace period

  const LAST_INSTANT := Env(110, 0, 0, [0])

  /** At the instant at which its grace period ends a name can be renewed, and neither transferred nor registered. */
  lemma GraceEndsHere()
    ensures var s := Run(Start(), [Signed(ALICE, Register(NAME, ALICE, None)), NewBlock(LAST_INSTANT)]);
            && Apply(s, Signed(ALICE, Renew)).Ok?
            && Apply(s, Signed(ALICE, Transfer(BOB))) == Err(NotOwned)
            && Apply(s, Signed(CAROL, Register(NAME, CAROL, None))) == Err(Occupied)
  {
    hide Top, Lower, Run;
    RunTwo(Start(), Signed(ALICE, Register(NAME, ALICE, None)), NewBlock(LAST_INSTANT));
    Registered();
    NameParses();
    var s := Step(FirstName(), NewBlock(LAST_INSTANT));
    assert s == FirstName().(sys := FirstName().sys.(env := LAST_INSTANT));
    assert !BlockedByRow(s.dir, CAROL);
  }

  // A name that is burned and released with a subname below it

  function WithSubname(): State {
    FirstName().(dir := FirstName().dir.(subs := map[SUB_NODE := SubnameRecord(NODE, LABEL, BOB, Offered)]))
  }

  lemma SubnameOffered()
    ensures Step(FirstName(), Signed(ALICE, OfferSubdomain(LABEL, BOB))) == WithSubname()
  {
    hide Top, Sub, NewLabel, Lower, Run;
    LabelsParse();
    assert SubsUnder(FirstName().dir.subs, NODE) == {};
  }

  lemma Burned()
    ensures Apply(WithSubname(), Signed(ALICE, Burn(NAME))).Ok?
    ensures Step(WithSubname(), Signed(ALICE, Burn(NAME))).dir.subs == map[]
  {
    hide ParseNameToNode, Lower, Run, Wipe, SubsUnder;
    NameParses();
  }

  lemma Released()
    ensures Apply(WithSubname(), Signed(ALICE, ReleaseName)).Ok?
    ensures Step(WithSubname(), Signed(ALICE, ReleaseName)).dir.subs == map[]
  {
    hide ParseNameToNode, Lower, Run, Wipe, SubsUnder;
  }

  /** Both the burn and the release of a name with a pending subname go through, and take the subname along. */
  lemma BurnedWithSubname()
    ensures var s := Run(Start(), [Signed(ALICE, Register(NAME, ALICE, None)),
                                   Signed(ALICE, OfferSubdomain(LABEL, BOB))]);
            && SubsUnder(s.dir.subs, NODE) == {SUB_NODE}
            && Apply(s, Signed(ALICE, Burn(NAME))).Ok? && Step(s, Signed(ALICE, Burn(NAME))).dir.subs == map[]
            && Apply(s, Signed(ALICE, ReleaseName)).Ok? && Step(s, Signed(ALICE, ReleaseName)).dir.subs == map[]
  {
    hide Run, Step, Apply;
    RunTwo(Start(), Signed(ALICE, Register(NAME, ALICE, None)), Signed(ALICE, OfferSubdomain(LABEL, BOB)));
    Registered();
    SubnameOffered();
    Burned();
    Released();
  }

  // An account whose name has lapsed

  function Lapsed(): State {
    FirstName().(sys := FirstName().sys.(env := LATER))
  }

  lemma LapsedRefused()
    ensures var s := Lapsed();
            && Apply(s, Signed(ALICE, Register(NAME, ALICE, None))) == Err(AlreadyHoldsSubdomain)
            && Apply(s, Signed(ALICE, Register(OTHER, ALICE, None))) == Err(AlreadyHoldsSubdomain)
  {
    hide Top, Lower, Run;
    NameParses();
    LabelsParse();
    RowIsBlock(Lapsed().dir, ALICE, NODE);
  }

  lemma LapsedReleased()
    ensures var s := Step(Lapsed(), Signed(ALICE, ReleaseName));
            s.dir == Directory(map[], map[], {}) && s.claims == Claims(map[], map[], map[]) && s.sys == Lapsed().sys
            && s.money == Start().money
  {
    hide Wipe, SubsUnder;
    var s := Step(Lapsed(), Signed(ALICE, ReleaseName));
    assert s.dir.names == map[] && s.dir.subs == map[] && s.dir.held == {} && s.claims.primary == map[];
  }

  lemma RegisteredAfresh(s: State)
    requires s.dir == Directory(map[], map[], {}) && s.claims == Claims(map[], map[], map[]) && s.sys == Lapsed().sys
    requires s.money == Start().money
    ensures Apply(s, Signed(ALICE, Register(OTHER, ALICE, None))).Ok?
  {
    hide Top, Lower, Run, RegisterZone;
    LabelsParse();
    assert !BlockedByRow(s.dir, ALICE);
  }

  /** An account that let its name lapse past the grace period, and has no valid name, no subname and no stale row, is
      refused every registration, its own lapsed name included, until it releases that name. */
  lemma LapsedIsRefused()
    ensures var s := Run(Start(), [Signed(ALICE, Register(NAME, ALICE, None)), NewBlock(LATER)]);
            && !HasValidName(s, ALICE) && s.dir.subs == map[] && !Stale(s.dir, ALICE, NODE)
            && Apply(s, Signed(ALICE, Register(NAME, ALICE, None))) == Err(AlreadyHoldsSubdomain)
            && Apply(s, Signed(ALICE, Register(OTHER, ALICE, None))) == Err(AlreadyHoldsSubdomain)
            && Apply(Step(s, Signed(ALICE, ReleaseName)), Signed(ALICE, Register(OTHER, ALICE, None))).Ok?
  {
    hide Run, Apply, Step;
    RunTwo(Start(), Signed(ALICE, Register(NAME, ALICE, None)), NewBlock(LATER));
    Registered();
    TimePasses();
    LapsedRefused();
    LapsedReleased();
    RegisteredAfresh(Step(Lapsed(), Signed(ALICE, ReleaseName)));
  }

  lemma TimePasses()
    ensures Step(FirstName(), NewBlock(LATER)) == Lapsed()
  {
  }

  // A listing that outlives the ownership it was made with

  function ListedNoMore(): State {
    ForSale().(dir := Directory(map[], map[], {}), claims := Claims(map[], map[], ForSale().claims.listings),
               zone := Zone(map[], map[]))
  }

  lemma ListedReleased()
    ensures Step(ForSale(), Signed(ALICE, ReleaseName)) == ListedNoMore()
  {
    var s := Step(ForSale(), Signed(ALICE, ReleaseName));
    assert SubsUnder(ForSale().dir.subs, NODE) == {};
    assert s.dir.names == map[] && s.dir.subs == map[] && s.dir.held == {} && s.claims.primary == map[];
    assert s.zone.records == map[] && s.zone.texts == map[];
  }

  lemma ListedAgain()
    ensures var s := Step(ListedNoMore(), Signed(ALICE, Register(NAME, ALICE, None)));
            s.dir == ForSale().dir && s.claims == ForSale().claims && s.sys == ForSale().sys && s.money == ForSale().money
  {
    hide Top, Lower, Run, RegisterZone;
    NameParses();
    assert !BlockedByRow(ListedNoMore().dir, ALICE);
    var r := RegisterNode(ListedNoMore(), ALICE, NODE, 1, ALICE);
    assert r.Ok?;
    assert r.value.dir.names == ForSale().dir.names && r.value.dir.held == ForSale().dir.held;
    assert r.value.claims.primary == ForSale().claims.primary;
  }

  lemma BoughtByCarol(s: State)
    requires s.dir == ForSale().dir && s.claims == ForSale().claims && s.sys == ForSale().sys
    requires s.money == ForSale().money
    ensures Apply(s, Signed(CAROL, BuyName(NAME, None))).Ok?
  {
    hide Top, Lower, Run, Wipe, KeepSs58, WriteAnchors, SubsUnder;
    NameParses();
    assert !BlockedByRow(s.dir, CAROL);
  }

  /** A name is listed, released and registered again by the same account: the old listing can be bought. */
  lemma OldListingRevives()
    ensures var s := Run(Start(), [Signed(ALICE, Register(NAME, ALICE, None)), Signed(ALICE, CreateListing(0, 50)),
                                   Signed(ALICE, ReleaseName), Signed(ALICE, Register(NAME, ALICE, None))]);
            Apply(s, Signed(CAROL, BuyName(NAME, None))).Ok?
  {
    hide Run, Apply, Step;
    var x1, x2 := Signed(ALICE, Register(NAME, ALICE, None)), Signed(ALICE, CreateListing(0, 50));
    var x3 := Signed(ALICE, ReleaseName);
    RunTwo(Start(), x1, x2);
    RunAppend(Start(), [x1, x2], x3);
    RunAppend(Start(), [x1, x2, x3], x1);
    assert [x1, x2] + [x3] == [x1, x2, x3] && [x1, x2, x3] + [x1] == [x1, x2, x3, x1];
    Registered();
    Listed();
    ListedReleased();
    ListedAgain();
    BoughtByCarol(Step(ListedNoMore(), x1));
  }

  // What lookups answer that other queries do not

  lemma GiftAnswers(types: seq<RecordType>)
    ensures Promises.GetInfo(Gifted(), NODE) == None
    ensures |RuntimeApi.LookupAt(Gifted().zone, NODE, types)| >= 2
    ensures RuntimeApi.LookupAt(Gifted().zone, NODE, types)[0] == (SS58, AccountBytes(BOB))
  {
  }

  /** A pending gift: `get_info` returns nothing, `lookup` the recipient. */
  lemma PendingGiftAnswers(types: seq<RecordType>)
    ensures var s := Run(Start(), [Signed(ALICE, Register(NAME, ALICE, None)), Signed(ALICE, CreateListing(0, 50)),
                                   Signed(CAROL, BuyName(NAME, Some(BOB)))]);
            && Promises.GetInfo(s, NODE) == None
            && |RuntimeApi.LookupAt(s.zone, NODE, types)| >= 2
            && RuntimeApi.LookupAt(s.zone, NODE, types)[0] == (SS58, AccountBytes(BOB))
  {
    hide Run, Step, RuntimeApi.LookupAt, Promises.GetInfo;
    var x1, x2 := Signed(ALICE, Register(NAME, ALICE, None)), Signed(ALICE, CreateListing(0, 50));
    var x3 := Signed(CAROL, BuyName(NAME, Some(BOB)));
    RunTwo(Start(), x1, x2);
    RunAppend(Start(), [x1, x2], x3);
    assert [x1, x2] + [x3] == [x1, x2, x3];
    Registered();
    Listed();
    BoughtForBob();
    GiftAnswers(types);
  }

  const IN_GRACE := Env(105, 0, 0, [0])

  /** A name in its grace period: `get_info` returns nothing, `lookup` the owner. */
  lemma GraceAnswers(types: seq<RecordType>)
    ensures var s := Run(Start(), [Signed(ALICE, Register(NAME, ALICE, None)), NewBlock(IN_GRACE)]);
            && Promises.GetInfo(s, NODE) == None
            && |RuntimeApi.LookupAt(s.zone, NODE, types)| >= 2
            && RuntimeApi.LookupAt(s.zone, NODE, types)[0] == (SS58, AccountBytes(ALICE))
  {
    hide Run;
    RunTwo(Start(), Signed(ALICE, Register(NAME, ALICE, None)), NewBlock(IN_GRACE));
    Registered();
  }

  // A buyer who has a name, and an account with two tokens

  lemma CarolRegistered()
    ensures var s := Step(ForSale(), Signed(CAROL, Register(OTHER, CAROL, None)));
            CarolHolds(s)
  {
    hide Top, Lower, Run, RegisterZone;
    LabelsParse();
    assert !BlockedByRow(ForSale().dir, CAROL);
    var r := RegisterNode(ForSale(), CAROL, OTHER_NODE, 1, CAROL);
    assert r.Ok?;
    assert r.value.claims.primary == map[ALICE := NODE, CAROL := OTHER_NODE];
    assert r.value.dir.held == {(ALICE, NODE), (CAROL, OTHER_NODE)};
  }

  ghost predicate CarolHolds(s: State) {
    && s.sys == Start().sys && s.dir.subs == map[] && s.money == Start().money
    && s.dir.names == map[NODE := Name(ALICE, 100, 5, 0, 1, 0), OTHER_NODE := Name(CAROL, 100, 5, 0, 1, 0)]
    && s.dir.held == {(ALICE, NODE), (CAROL, OTHER_NODE)}
    && s.claims == Claims(map[ALICE := NODE, CAROL := OTHER_NODE], map[], ForSale().claims.listings)
  }

  lemma GiftByHolder(s: State)
    requires CarolHolds(s)
    ensures Apply(s, Signed(CAROL, BuyName(NAME, Some(BOB)))).Ok?
  {
    hide Top, Lower, Run, Wipe, KeepSs58, WriteAnchors, SubsUnder, SetOwner, ForgetPrimary;
    NameParses();
    assert !BlockedByRow(s.dir, BOB);
  }

  lemma NotForItself(s: State)
    requires CarolHolds(s)
    ensures HasValidName(s, CAROL)
    ensures Apply(s, Signed(CAROL, BuyName(NAME, None))) == Err(AlreadyHasCanonicalName)
  {
    hide Top, Lower, Run, TransferNode, BlockedByRow;
    NameParses();
  }

  /** An account with a valid name buys a name for another account, and cannot buy it for itself. */
  lemma HolderBuysGift()
    ensures var s := Run(Start(), [Signed(ALICE, Register(NAME, ALICE, None)), Signed(ALICE, CreateListing(0, 50)),
                                   Signed(CAROL, Register(OTHER, CAROL, None))]);
            && HasValidName(s, CAROL)
            && Apply(s, Signed(CAROL, BuyName(NAME, Some(BOB)))).Ok?
            && Apply(s, Signed(CAROL, BuyName(NAME, None))) == Err(AlreadyHasCanonicalName)
  {
    hide Run, Apply, Step, HasValidName;
    var x1, x2 := Signed(ALICE, Register(NAME, ALICE, None)), Signed(ALICE, CreateListing(0, 50));
    var x3 := Signed(CAROL, Register(OTHER, CAROL, None));
    RunTwo(Start(), x1, x2);
    RunAppend(Start(), [x1, x2], x3);
    assert [x1, x2] + [x3] == [x1, x2, x3];
    Registered();
    Listed();
    CarolRegistered();
    GiftByHolder(Step(ForSale(), x3));
    NotForItself(Step(ForSale(), x3));
  }

  lemma GiftedRegisters()
    ensures var s := Step(Gifted(), Signed(BOB, Register(OTHER, BOB, None)));
            && NODE in s.dir.names && s.dir.names[NODE].owner == BOB
            && OTHER_NODE in s.dir.names && s.dir.names[OTHER_NODE].owner == BOB
  {
    hide Top, Lower, Run, RegisterZone;
    LabelsParse();
    assert !BlockedByRow(Gifted().dir, BOB);
    assert RegisterNode(Gifted(), BOB, OTHER_NODE, 1, BOB).Ok?;
  }

  /** An account owns two live names at once, one of them a gift that it has not answered. */
  lemma TwoTokens()
    ensures var s := Run(Start(), [Signed(ALICE, Register(NAME, ALICE, None)), Signed(ALICE, CreateListing(0, 50)),
                                   Signed(CAROL, BuyName(NAME, Some(BOB))), Signed(BOB, Register(OTHER, BOB, None))]);
            Owns(s.dir, NODE, BOB) && Owns(s.dir, OTHER_NODE, BOB)
  {
    hide Run, Step;
    var x1, x2 := Signed(ALICE, Register(NAME, ALICE, None)), Signed(ALICE, CreateListing(0, 50));
    var x3, x4 := Signed(CAROL, BuyName(NAME, Some(BOB))), Signed(BOB, Register(OTHER, BOB, None));
    RunTwo(Start(), x1, x2);
    RunAppend(Start(), [x1, x2], x3);
    RunAppend(Start(), [x1, x2, x3], x4);
    assert [x1, x2] + [x3] == [x1, x2, x3] && [x1, x2, x3] + [x4] == [x1, x2, x3, x4];
    Registered();
    Listed();
    BoughtForBob();
    GiftedRegisters();
  }

  // What a renewal and a transfer record

  const NEXT := Env(50, 5, 7, [0])

  /** Renewed in block five, a name still carries the block of its registration; transferred there, it carries the hash
      of that block. */
  lemma RecordedBlocks()
    ensures var s := Run(Start(), [Signed(ALICE, Register(NAME, ALICE, None)), NewBlock(NEXT)]);
            var r, t := Step(s, Signed(ALICE, Renew)), Step(s, Signed(ALICE, Transfer(BOB)));
            && NODE in r.dir.names && r.dir.names[NODE].expire == 150 && r.dir.names[NODE].lastBlock == 0
            && (NODE, ORIGIN) in t.zone.records && t.zone.records[(NODE, ORIGIN)] == HashBytes(7)
  {
    hide Run;
    RunTwo(Start(), Signed(ALICE, Register(NAME, ALICE, None)), NewBlock(NEXT));
    Registered();
    var s := Step(FirstName(), NewBlock(NEXT));
    assert s == FirstName().(sys := FirstName().sys.(env := NEXT));
    assert !BlockedByRow(s.dir, BOB);
  }

  // A claim that outlives the name

  function Burnt(): State {
    FirstName().(dir := Directory(map[], map[], {}), zone := Zone(map[], map[]))
  }

  lemma NameBurnt()
    ensures Step(FirstName(), Signed(ALICE, Burn(NAME))) == Burnt()
  {
    hide ParseNameToNode, Lower, Run;
    NameParses();
    var s := Step(FirstName(), Signed(ALICE, Burn(NAME)));
    assert SubsUnder(FirstName().dir.subs, NODE) == {};
    assert s.dir.names == map[] && s.dir.subs == map[] && s.dir.held == {};
    assert s.zone.records == map[] && s.zone.texts == map[];
  }

  /** Bob owns the name, and both claim it. */
  ghost predicate BothClaim(s: State) {
    && s.sys == Start().sys && s.money == Start().money
    && s.dir == Directory(map[NODE := Name(BOB, 100, 5, 0, 1, 0)], map[], {(BOB, NODE)})
    && s.claims == Claims(map[ALICE := NODE, BOB := NODE], map[], map[])
  }

  lemma BobTakesIt()
    ensures BothClaim(Step(Burnt(), Signed(BOB, Register(NAME, BOB, None))))
  {
    hide Top, Lower, Run, RegisterZone;
    NameParses();
    assert !BlockedByRow(Burnt().dir, BOB);
    var r := RegisterNode(Burnt(), BOB, NODE, 1, BOB);
    assert r.Ok?;
    assert r.value.claims.primary == map[ALICE := NODE, BOB := NODE];
  }

  lemma StrayRefused(s: State)
    requires BothClaim(s)
    ensures Apply(s, Signed(ALICE, Register(OTHER, ALICE, None))) == Err(AlreadyHasCanonicalName)
    ensures Apply(s, Signed(ALICE, ReleaseName)) == Err(NoPermission)
  {
    hide Top, Lower, Run, BlockedByRow;
    LabelsParse();
  }

  lemma StrayActs(s: State)
    requires BothClaim(s)
    ensures Apply(s, Signed(ALICE, Renew)).Ok?
    ensures Apply(s, Signed(ALICE, OfferSubdomain(LABEL, CAROL))).Ok?
    ensures Apply(s, Signed(ALICE, CreateListing(0, 50))).Ok?
  {
    hide Top, Lower, NewLabel, Run;
    LabelsParse();
    assert SubsUnder(s.dir.subs, NODE) == {};
  }

  /** An account that burned the name it claimed, after somebody else registered it: it owns nothing, is listed nowhere
      and holds no subname, and is refused a name and the release of its claim. Meanwhile it can renew the name of the
      other, offer subnames below it and list it. */
  lemma StrayClaim()
    ensures var s := Run(Start(), [Signed(ALICE, Register(NAME, ALICE, None)), Signed(ALICE, Burn(NAME)),
                                   Signed(BOB, Register(NAME, BOB, None))]);
            && BothClaim(s) && Misclaims(s, ALICE)
            && Apply(s, Signed(ALICE, Register(OTHER, ALICE, None))) == Err(AlreadyHasCanonicalName)
            && Apply(s, Signed(ALICE, ReleaseName)) == Err(NoPermission)
            && Apply(s, Signed(ALICE, Renew)).Ok?
            && Apply(s, Signed(ALICE, OfferSubdomain(LABEL, CAROL))).Ok?
            && Apply(s, Signed(ALICE, CreateListing(0, 50))).Ok?
  {
    hide Run, Apply, Step;
    var x1, x2 := Signed(ALICE, Register(NAME, ALICE, None)), Signed(ALICE, Burn(NAME));
    var x3 := Signed(BOB, Register(NAME, BOB, None));
    RunTwo(Start(), x1, x2);
    RunAppend(Start(), [x1, x2], x3);
    assert [x1, x2] + [x3] == [x1, x2, x3];
    Registered();
    NameBurnt();
    BobTakesIt();
    StrayRefused(Step(Burnt(), x3));
    StrayActs(Step(Burnt(), x3));
  }
}
