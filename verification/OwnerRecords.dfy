/** The owner record of a name is its owner: kept by every run, clean or not, in which gifts are accepted only by the
    owners of the names. */
module OwnerRecords {
  import opened Types
  import opened Labels
  import opened NameParsing
  import opened Currency
  import opened NameService
  import opened AllRuns
  import opened CleanRuns
  import opened Ownership

  lemma BurnNodeRecords(s: State, caller: AccountId, node: Node)
    requires OwnersRecorded(s.dir, s.zone) && BurnNode(s, caller, node).Ok?
    ensures var t := BurnNode(s, caller, node).value; OwnersRecorded(t.dir, t.zone)
  {
    hide OwnersRecorded, Remove, Wipe, SubsUnder;
    RemoveOwnersRecorded(s.dir, s.zone, node);
  }

  lemma RevokeNodeRecords(s: State, parent: Node, node: Node)
    requires OwnersRecorded(s.dir, s.zone) && RevokeNode(s, parent, node).Ok?
    ensures var t := RevokeNode(s, parent, node).value; OwnersRecorded(t.dir, t.zone)
  {
    hide OwnersRecorded, Wipe;
    SameNamesOwnersRecorded(s.dir, DropSub(s.dir, node), s.zone);
  }

  lemma TransferNodeRecords(s: State, from: AccountId, to: AccountId, node: Node)
    requires OwnersRecorded(s.dir, s.zone) && TransferNode(s, from, to, node).Ok?
    ensures var t := TransferNode(s, from, to, node).value; OwnersRecorded(t.dir, t.zone)
  {
    hide OwnersRecorded, SetOwner, Wipe, SubsUnder, KeepSs58, WriteAnchors;
    SetOwnerOwnersRecorded(s.dir, s.zone, node, to, s.sys.env.parentHash);
  }

  lemma RegisterNodeRecords(s: State, caller: AccountId, node: Node, labelLen: nat, owner: AccountId)
    requires OwnersRecorded(s.dir, s.zone) && RegisterNode(s, caller, node, labelLen, owner).Ok?
    ensures var t := RegisterNode(s, caller, node, labelLen, owner).value; OwnersRecorded(t.dir, t.zone)
  {
    hide OwnersRecorded, Mint, Vacate, WriteAnchors, RegisterClaims, FreeReceiver, Withdraw, RegistrationFee, Live;
    var fee := RegistrationFee(s.sys.env.prices, labelLen).value;
    var name := FreshName(s, node, owner, s.sys.env.now + s.sys.cfg.maxDuration, fee, labelLen);
    MintOwnersRecorded(s.dir, s.zone, node, name, s.sys.env.parentHash);
  }

  lemma RegisterRecords(s: State, who: AccountId, act: Action)
    requires OwnersRecorded(s.dir, s.zone) && act.ARegister? && Perform(s, who, act).Ok?
    ensures var t := Perform(s, who, act).value; OwnersRecorded(t.dir, t.zone)
  {
    hide OwnersRecorded, BurnNode, RevokeNode, RegisterNode;
    var s0 := s;
    if act.reject.Some? {
      var node := act.reject.value.value;
      if node in s.claims.offered {
        BurnNodeRecords(s.(claims := DropOffer(s.claims, node)), who, node);
      } else {
        RevokeNodeRecords(s, s.dir.subs[node].parent, node);
      }
      s0 := RejectOffer(s, who, act.reject.value).value;
    }
    RegisterNodeRecords(s0, who, act.top.value, act.labelLen, act.owner);
  }

  lemma BuyRecords(s: State, who: AccountId, top: Option<Node>, recipient: Option<AccountId>)
    requires OwnersRecorded(s.dir, s.zone) && DoBuy(s, who, top, recipient).Ok?
    ensures var t := DoBuy(s, who, top, recipient).value; OwnersRecorded(t.dir, t.zone)
  {
    hide OwnersRecorded, TransferNode, FreeReceiver, Settle, ProtocolFee, SetPrimary, DropPrimary, ForgetPrimary;
    var l := s.claims.listings[top.value];
    var s1 := s.(claims := s.claims.(listings := s.claims.listings - {top.value}));
    TransferNodeRecords(s1, l.seller, if recipient.Some? then recipient.value else who, top.value);
  }

  lemma SubnameRecords(s: State, who: AccountId, act: Action)
    requires WellShaped(s.dir) && OwnersRecorded(s.dir, s.zone) && Perform(s, who, act).Ok?
    requires act.AOffer? || act.AAccept? || act.AReject? || act.ARevoke? || act.AReleaseSub?
    ensures var t := Perform(s, who, act).value; OwnersRecorded(t.dir, t.zone)
  {
    hide OwnersRecorded, Wipe, SubsUnder, PutRecord, BlockedByRow, HasValidName;
    var t := Perform(s, who, act).value;
    SameNamesOwnersRecorded(s.dir, t.dir, s.zone);
    if act.AAccept? {
      PutRecordOwnersRecorded(t.dir, s.zone, act.node.value, SS58, AccountBytes(who));
    }
  }

  /** Accepting a gift writes the caller into the owner record, so it keeps the records right if and only if the
      caller owns the name. */
  lemma AcceptGiftExact(s: State, who: AccountId, top: Option<Node>)
    requires OwnersRecorded(s.dir, s.zone) && DoAcceptGift(s, who, top).Ok?
    ensures var t := DoAcceptGift(s, who, top).value;
            OwnersRecorded(t.dir, t.zone) <==> Owns(s.dir, top.value, who)
  {
    hide FreeReceiver;
    var t := DoAcceptGift(s, who, top).value;
    assert (top.value, SS58) in t.zone.records && t.zone.records[(top.value, SS58)] == AccountBytes(who);
  }

  /** Every signed call keeps the owner records right, save the acceptance of a gift by someone who does not own the
      name. */
  lemma PerformRecords(s: State, who: AccountId, act: Action)
    requires WellShaped(s.dir) && OwnersRecorded(s.dir, s.zone) && Perform(s, who, act).Ok?
    ensures var t := Perform(s, who, act).value;
            OwnersRecorded(t.dir, t.zone) <==> (act.AAcceptGift? ==> Owns(s.dir, act.top.value, who))
  {
    hide WellShaped, OwnersRecorded, DoRegister, DoBuy, DoAcceptGift, BurnNode, TransferNode, FreeReceiver, DoOffer,
      DoAccept, DoReject, DoRevoke, DoReleaseSub, Withdraw, RegistrationFee, SetExpire, Owns;
    match act
    case ARegister(_, _, _, _, _) => RegisterRecords(s, who, act);
    case ARenew => RenewRecords(s, who);
    case ATransfer(to) => TransferNodeRecords(s, who, to, s.claims.primary[who]);
    case AReleaseName => BurnNodeRecords(s.(claims := DropPrimary(s.claims, who)), who, s.claims.primary[who]);
    case ABurn(node) => BurnNodeRecords(s, who, node.value);
    case AAcceptGift(top) => AcceptGiftExact(s, who, top);
    case ABuy(top, recipient) => BuyRecords(s, who, top, recipient);
    case ASetRecord(_, _, _) => EditRecords(s, who, act);
    case ASetText(_, _, _) => EditRecords(s, who, act);
    case AList(_, _) =>
    case ACancel =>
    case _ => SubnameRecords(s, who, act);
  }

  lemma RenewRecords(s: State, who: AccountId)
    requires OwnersRecorded(s.dir, s.zone) && DoRenew(s, who).Ok?
    ensures var t := DoRenew(s, who).value; OwnersRecorded(t.dir, t.zone)
  {
    hide OwnersRecorded, Withdraw, RegistrationFee;
    SameNamesOwnersRecorded(s.dir, DoRenew(s, who).value.dir, s.zone);
  }

  lemma EditRecords(s: State, who: AccountId, act: Action)
    requires OwnersRecorded(s.dir, s.zone) && (act.ASetRecord? || act.ASetText?) && Perform(s, who, act).Ok?
    ensures var t := Perform(s, who, act).value; OwnersRecorded(t.dir, t.zone)
  {
  }

  /** A step that does not accept a gift on behalf of someone who does not own the name. */
  ghost predicate OwnAccept(s: State, x: Extrinsic) {
    x.Signed? && Apply(s, x).Ok? && x.call.AcceptOfferedName? ==> Owns(s.dir, Top(x.call.name).value, x.who)
  }

  lemma StepRecords(s: State, x: Extrinsic)
    requires Core(s) && OwnersRecorded(s.dir, s.zone)
    ensures OwnersRecorded(Step(s, x).dir, Step(s, x).zone) <==> OwnAccept(s, x)
  {
    hide OwnersRecorded, Perform, Owns, ParseNameToNode, NewLabel, Sub, Lower, NoStacking, Recorded, Balanced,
      OneSubnameEach, WithinCapacity, WellShaped;
    if x.Signed? && Apply(s, x).Ok? {
      PerformRecords(s, x.who, Resolve(x.call));
    }
  }

  ghost predicate OwnAccepts(s: State, xs: seq<Extrinsic>)
    decreases |xs|
  {
    xs == [] || (OwnAccepts(s, xs[..|xs| - 1]) && OwnAccept(Run(s, xs[..|xs| - 1]), xs[|xs| - 1]))
  }

  ghost predicate RecordsRight(s: State) {
    OwnersRecorded(s.dir, s.zone)
  }

  /** The owner record of every name is its owner all through a run, clean or not, if and only if no gift is accepted
      by an account that does not own the name. */
  lemma {:induction false} RunRecords(s: State, xs: seq<Extrinsic>)
    requires Core(s) && RecordsRight(s)
    ensures (forall i :: 0 <= i <= |xs| ==> RecordsRight(Run(s, xs[..i]))) <==> OwnAccepts(s, xs)
    decreases |xs|
  {
    hide Core, OwnersRecorded, OwnAccept, Step;
    if xs == [] {
      assert xs[..0] == xs;
    } else {
      var k := |xs| - 1;
      var rest := xs[..k];
      RunRecords(s, rest);
      RunCore(s, rest);
      assert forall i :: 0 <= i <= k ==> rest[..i] == xs[..i];
      assert xs[..k + 1] == xs && rest[..k] == rest;
      if RecordsRight(Run(s, rest)) {
        StepRecords(Run(s, rest), xs[k]);
      }
    }
  }
}
