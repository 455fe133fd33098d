/** Who can change the owner of a name, and what a former owner is left with. */
module Ownership {
  import opened Types
  import opened Labels
  import opened NameParsing
  import opened Currency
  import opened NameService

  ghost predicate Owns(d: Directory, n: Node, a: AccountId) {
    n in d.names && d.names[n].owner == a
  }

  /** A signed call that may take name `n` away from its owner: the owner transfers, releases, burns or turns it
      down; or somebody pays for a listing that the owner made and that has not expired; or somebody registers
      the name after the end of its grace period. */
  ghost predicate Authorised(s: State, who: AccountId, a: Action, n: Node)
    requires n in s.dir.names
  {
    match a
    case ATransfer(_) => Owns(s.dir, n, who) && who in s.claims.primary && s.claims.primary[who] == n
    case AReleaseName => Owns(s.dir, n, who) && who in s.claims.primary && s.claims.primary[who] == n
    case ABurn(m) => m == Some(n) && Owns(s.dir, n, who)
    case ARegister(_, top, _, _, reject) =>
      (reject == Some(Some(n)) && Owns(s.dir, n, who)) || (top == Some(n) && !Live(s.sys, s.dir, n))
    case ABuy(m, _) =>
      && m == Some(n)
      && n in s.claims.listings
      && Owns(s.dir, n, s.claims.listings[n].seller)
      && s.sys.env.now < s.claims.listings[n].expiresAt
      && who != s.claims.listings[n].seller
    case _ => false
  }

  lemma BurnNodeOwners(s: State, caller: AccountId, node: Node, n: Node)
    requires BurnNode(s, caller, node).Ok? && n in s.dir.names
    ensures Owns(s.dir, node, caller)
    ensures n != node ==> Owns(BurnNode(s, caller, node).value.dir, n, s.dir.names[n].owner)
  {
    hide Wipe, SubsUnder, SubsOutside;
  }

  lemma TransferNodeOwners(s: State, from: AccountId, to: AccountId, node: Node, n: Node)
    requires TransferNode(s, from, to, node).Ok? && n in s.dir.names
    ensures Owns(s.dir, node, from)
    ensures n != node ==> Owns(TransferNode(s, from, to, node).value.dir, n, s.dir.names[n].owner)
    ensures Owns(TransferNode(s, from, to, node).value.dir, node, to)
  {
    hide Wipe, SubsUnder, SubsOutside, KeepSs58, WriteAnchors;
  }

  lemma RejectOfferOwners(s: State, caller: AccountId, parsed: Option<Node>, n: Node)
    requires RejectOffer(s, caller, parsed).Ok? && n in s.dir.names
    ensures var d := RejectOffer(s, caller, parsed).value.dir;
            n in d.names ==> d.names[n] == s.dir.names[n]
    ensures var d := RejectOffer(s, caller, parsed).value.dir;
            n !in d.names ==> parsed == Some(n) && Owns(s.dir, n, caller)
  {
    hide Wipe, SubsUnder, SubsOutside;
  }

  lemma RegisterNodeOwners(s: State, caller: AccountId, node: Node, labelLen: nat, owner: AccountId, n: Node)
    requires RegisterNode(s, caller, node, labelLen, owner).Ok? && n in s.dir.names
    ensures !Live(s.sys, s.dir, node)
    ensures n != node ==> Owns(RegisterNode(s, caller, node, labelLen, owner).value.dir, n, s.dir.names[n].owner)
  {
    hide Wipe, SubsUnder, SubsOutside, RegisterClaims, RegisterZone, FreeReceiver, Withdraw, RegistrationFee;
  }

  lemma RegisterOwners(s: State, who: AccountId, a: Action, n: Node)
    requires a.ARegister? && Perform(s, who, a).Ok? && n in s.dir.names
    ensures Authorised(s, who, a, n) || Owns(Perform(s, who, a).value.dir, n, s.dir.names[n].owner)
  {
    hide RejectOffer, RegisterNode;
    var s0 := s;
    if a.reject.Some? {
      RejectOfferOwners(s, who, a.reject.value, n);
      s0 := RejectOffer(s, who, a.reject.value).value;
      RejectOfferSystem(s, who, a.reject.value);
    }
    if n in s0.dir.names {
      RegisterNodeOwners(s0, who, a.top.value, a.labelLen, a.owner, n);
    }
  }

  lemma RejectOfferSystem(s: State, caller: AccountId, parsed: Option<Node>)
    requires RejectOffer(s, caller, parsed).Ok?
    ensures RejectOffer(s, caller, parsed).value.sys == s.sys
  {
    hide Wipe, SubsUnder, Remove, DropSub;
  }

  lemma BuyOwners(s: State, who: AccountId, top: Option<Node>, recipient: Option<AccountId>, n: Node)
    requires DoBuy(s, who, top, recipient).Ok? && n in s.dir.names
    ensures Authorised(s, who, ABuy(top, recipient), n)
            || Owns(DoBuy(s, who, top, recipient).value.dir, n, s.dir.names[n].owner)
  {
    hide TransferNode, FreeReceiver, Settle, ProtocolFee, ForgetPrimary, SetPrimary, DropPrimary;
    var node := top.value;
    var l := s.claims.listings[node];
    var s1 := s.(claims := s.claims.(listings := s.claims.listings - {node}));
    TransferNodeOwners(s1, l.seller, if recipient.Some? then recipient.value else who, node, n);
  }

  /** Every signed call leaves every name with its owner, unless it is authorised to take it. */
  lemma {:induction false} PerformOwners(s: State, who: AccountId, a: Action, n: Node)
    requires Perform(s, who, a).Ok? && n in s.dir.names
    ensures Authorised(s, who, a, n) || Owns(Perform(s, who, a).value.dir, n, s.dir.names[n].owner)
  {
    hide DoRegister, DoBuy, BurnNode, TransferNode, FreeReceiver, Wipe, BlockedByRow, HasValidName, Withdraw,
      RegistrationFee, SubsUnder, PutRecord, WriteAnchors;
    match a
    case ARegister(_, _, _, _, _) => RegisterOwners(s, who, a, n);
    case ATransfer(to) => TransferNodeOwners(s, who, to, s.claims.primary[who], n);
    case AReleaseName =>
      BurnNodeOwners(s.(claims := DropPrimary(s.claims, who)), who, s.claims.primary[who], n);
    case ABurn(node) => BurnNodeOwners(s, who, node.value, n);
    case ABuy(top, recipient) => BuyOwners(s, who, top, recipient, n);
    case _ =>
  }

  /** The owner of `n` may change, or the name disappear, only in a step that is authorised to do so. */
  ghost predicate AuthorisedStep(s: State, x: Extrinsic, n: Node) {
    n in s.dir.names && x.Signed? && Apply(s, x).Ok? && Authorised(s, x.who, Resolve(x.call), n)
  }

  lemma StepOwners(s: State, x: Extrinsic, n: Node)
    requires n in s.dir.names
    ensures AuthorisedStep(s, x, n) || Owns(Step(s, x).dir, n, s.dir.names[n].owner)
  {
    hide Perform, Resolve, Top, Authorised;
    if x.Signed? && Apply(s, x).Ok? {
      PerformOwners(s, x.who, Resolve(x.call), n);
    }
  }

  /** Ownership is stable: if, after any run, a name no longer belongs to the account that owned it before, then
      at some step of the run that account still owned it and the step was authorised. */
  lemma {:induction false} RunOwners(s: State, xs: seq<Extrinsic>, n: Node, a: AccountId)
    requires Owns(s.dir, n, a) && !Owns(Run(s, xs).dir, n, a)
    ensures exists i :: 0 <= i < |xs| && Owns(Run(s, xs[..i]).dir, n, a) && AuthorisedStep(Run(s, xs[..i]), xs[i], n)
    decreases |xs|
  {
    hide Step, AuthorisedStep;
    if xs != [] {
      var k := |xs| - 1;
      if Owns(Run(s, xs[..k]).dir, n, a) {
        StepOwners(Run(s, xs[..k]), xs[k], n);
        assert AuthorisedStep(Run(s, xs[..k]), xs[k], n);
      } else {
        RunOwners(s, xs[..k], n, a);
        var i :| 0 <= i < k && Owns(Run(s, xs[..k][..i]).dir, n, a)
                 && AuthorisedStep(Run(s, xs[..k][..i]), xs[..k][i], n);
        assert xs[..k][..i] == xs[..i] && xs[..k][i] == xs[i];
      }
    }
  }

  // Rows of the account-to-subnames index that name a top-level name

  lemma RejectOfferRows(s: State, caller: AccountId, parsed: Option<Node>, a: AccountId, n: Node)
    requires RejectOffer(s, caller, parsed).Ok? && (a, n) in s.dir.held && !Owns(s.dir, n, a)
    ensures var d := RejectOffer(s, caller, parsed).value.dir; (a, n) in d.held && !Owns(d, n, a)
  {
    hide Wipe, SubsUnder, SubsOutside;
  }

  lemma RegisterNodeRows(s: State, caller: AccountId, node: Node, labelLen: nat, owner: AccountId, a: AccountId, n: Node)
    requires RegisterNode(s, caller, node, labelLen, owner).Ok? && (a, n) in s.dir.held && !Owns(s.dir, n, a)
    ensures (a, n) in RegisterNode(s, caller, node, labelLen, owner).value.dir.held
  {
    hide Wipe, SubsUnder, SubsOutside, RegisterClaims, RegisterZone, FreeReceiver, Withdraw, RegistrationFee, FreshName;
  }

  lemma PerformRows(s: State, who: AccountId, act: Action, a: AccountId, n: Node)
    requires Perform(s, who, act).Ok? && (a, n) in s.dir.held && !Owns(s.dir, n, a)
    ensures (a, n) in Perform(s, who, act).value.dir.held
  {
    hide RejectOffer, RegisterNode, FreeReceiver, Wipe, BlockedByRow, HasValidName, Withdraw, RegistrationFee,
      SubsUnder, SubsOutside, PutRecord, WriteAnchors, KeepSs58, Settle, ProtocolFee, ForgetPrimary;
    if act.ARegister? {
      var s0 := s;
      if act.reject.Some? {
        RejectOfferRows(s, who, act.reject.value, a, n);
        s0 := RejectOffer(s, who, act.reject.value).value;
      }
      RegisterNodeRows(s0, who, act.top.value, act.labelLen, act.owner, a, n);
    }
  }

  lemma RegisterBlocked(s: State, who: AccountId, act: Action, n: Node)
    requires act.ARegister? && (act.owner, n) in s.dir.held && !Owns(s.dir, n, act.owner)
    ensures Perform(s, who, act).Err?
  {
    hide RejectOffer, HasValidName, BlockedByRow, Withdraw, RegistrationFee, Mint, RegisterClaims, RegisterZone, Owns;
    if act.reject.None? {
      RowIsBlock(s.dir, act.owner, n);
    } else if RejectOffer(s, who, act.reject.value).Ok? {
      RejectOfferRows(s, who, act.reject.value, act.owner, n);
      RowIsBlock(RejectOffer(s, who, act.reject.value).value.dir, act.owner, n);
    }
  }

  lemma RowIsBlock(d: Directory, a: AccountId, n: Node)
    requires (a, n) in d.held
    ensures BlockedByRow(d, a)
  {
    assert (a, n).0 == a;
  }

  lemma ReceiveBlocked(s: State, to: AccountId, n: Node)
    requires (to, n) in s.dir.held
    ensures FreeReceiver(s, to).Fail?
  {
    hide BlockedByRow, HasValidName;
    RowIsBlock(s.dir, to, n);
  }

  lemma BuyNoNewOwner(s: State, who: AccountId, top: Option<Node>, recipient: Option<AccountId>, a: AccountId, n: Node)
    requires DoBuy(s, who, top, recipient).Ok? && (a, n) in s.dir.held && !Owns(s.dir, n, a)
    ensures !Owns(DoBuy(s, who, top, recipient).value.dir, n, a)
  {
    hide FreeReceiver, Settle, ProtocolFee, Wipe, SubsUnder, SubsOutside, WriteAnchors, KeepSs58, SetPrimary,
      DropPrimary, ForgetPrimary;
    var s1 := s.(claims := s.claims.(listings := s.claims.listings - {top.value}));
    ReceiveBlocked(s1, a, n);
  }

  lemma RegisterNodeNoNewOwner(s: State, caller: AccountId, node: Node, labelLen: nat, owner: AccountId, a: AccountId,
                               n: Node)
    requires RegisterNode(s, caller, node, labelLen, owner).Ok? && owner != a && !Owns(s.dir, n, a)
    ensures !Owns(RegisterNode(s, caller, node, labelLen, owner).value.dir, n, a)
  {
    hide Wipe, SubsUnder, SubsOutside, RegisterClaims, RegisterZone, FreeReceiver, Withdraw, RegistrationFee;
  }

  lemma RegisterNoNewOwner(s: State, who: AccountId, act: Action, a: AccountId, n: Node)
    requires act.ARegister? && Perform(s, who, act).Ok? && (a, n) in s.dir.held && !Owns(s.dir, n, a)
    ensures !Owns(Perform(s, who, act).value.dir, n, a)
  {
    hide RejectOffer, RegisterNode, Owns;
    var s0 := s;
    if act.reject.Some? {
      RejectOfferRows(s, who, act.reject.value, a, n);
      s0 := RejectOffer(s, who, act.reject.value).value;
    }
    if act.owner == a {
      RegisterBlocked(s, who, act, n);
    } else {
      RegisterNodeNoNewOwner(s0, who, act.top.value, act.labelLen, act.owner, a, n);
    }
  }

  /** An account listed under a name it does not own cannot come to own it: every way to receive a name refuses an
      account with a row. */
  lemma PerformNoNewOwner(s: State, who: AccountId, act: Action, a: AccountId, n: Node)
    requires Perform(s, who, act).Ok? && (a, n) in s.dir.held && !Owns(s.dir, n, a)
    ensures !Owns(Perform(s, who, act).value.dir, n, a)
  {
    hide DoRegister, DoBuy, FreeReceiver, Wipe, BlockedByRow, HasValidName, Withdraw, RegistrationFee, SubsUnder,
      SubsOutside, PutRecord, WriteAnchors, KeepSs58, SetPrimary, DropPrimary, ForgetPrimary, Live;
    if act.ARegister? {
      RegisterNoNewOwner(s, who, act, a, n);
    } else if act.ABuy? {
      BuyNoNewOwner(s, who, act.top, act.recipient, a, n);
    } else {
      ReceiveBlocked(s, a, n);
    }
  }

  /** A row of the index that names a top-level name its account does not own. */
  ghost predicate Stale(d: Directory, a: AccountId, n: Node) {
    (a, n) in d.held && !Owns(d, n, a)
  }

  /** A stale row stays stale in every run. */
  lemma {:induction false} StaleForever(s: State, xs: seq<Extrinsic>, a: AccountId, n: Node)
    requires Stale(s.dir, a, n)
    ensures Stale(Run(s, xs).dir, a, n)
    decreases |xs|
  {
    hide Perform, Resolve, Owns, Top;
    if xs != [] {
      var k := |xs| - 1;
      StaleForever(s, xs[..k], a, n);
      var s1, x := Run(s, xs[..k]), xs[k];
      if x.Signed? && Apply(s1, x).Ok? {
        PerformRows(s1, x.who, Resolve(x.call), a, n);
        PerformNoNewOwner(s1, x.who, Resolve(x.call), a, n);
      }
    }
  }

  /** Giving a name away locks out the account it was registered to, for good: after any later run it is refused
      every registration, whatever offer is turned down with the call. */
  lemma {:induction false} FormerOwnerLockedOut(s: State, to: AccountId, xs: seq<Extrinsic>, a: AccountId, n: Node,
                                                who: AccountId, name: Bytes, reject: Option<Bytes>)
    requires (a, n) in s.dir.held && a in s.claims.primary && s.claims.primary[a] == n
    requires DoTransfer(s, a, to).Ok?
    ensures Apply(Run(DoTransfer(s, a, to).value, xs), Signed(who, Register(name, a, reject))).Err?
  {
    var s1 := DoTransfer(s, a, to).value;
    assert Stale(s1.dir, a, n) by {
      hide Wipe, SubsUnder, SubsOutside, WriteAnchors, KeepSs58, HasValidName;
      RowIsBlock(s.dir, a, n);
    }
    hide DoTransfer, Perform, Owns, ParseNameToNode, Top, Lower;
    StaleForever(s1, xs, a, n);
    RegisterBlocked(Run(s1, xs), who, Resolve(Register(name, a, reject)), n);
  }

  /** A signed call that would give an account a name or a subname. */
  predicate GivesTo(x: Extrinsic, a: AccountId) {
    x.Signed? &&
    match x.call
    case Register(_, owner, _) => owner == a
    case Transfer(to) => to == a
    case AcceptSubdomain(_, _) => x.who == a
    case AcceptOfferedName(_) => x.who == a
    case BuyName(_, None) => x.who == a
    case BuyName(_, Some(recipient)) => recipient == a
    case _ => false
  }

  /** An account with any row can neither receive a name nor take a subname, unless the offer it turns down with a
      registration takes its last row away. */
  lemma RowBlocks(s: State, x: Extrinsic, a: AccountId)
    requires BlockedByRow(s.dir, a) && GivesTo(x, a)
    ensures Apply(s, x).Ok? ==>
              && x.call.Register? && x.call.rejectOffer.Some?
              && var rejected := RejectOffer(s, x.who, ParseNameToNode(x.call.rejectOffer.value, Base));
                 rejected.Ok? && !BlockedByRow(rejected.value.dir, a)
  {
    hide BlockedByRow, HasValidName, Live, ParseNameToNode, CheckLabel, Lower, TransferNode, Settle, ProtocolFee,
      Withdraw, RegistrationFee, Mint, RegisterClaims, RegisterZone, SetPrimary, DropPrimary, ForgetPrimary,
      RejectOffer;
  }

  /** What a departure does to the stale rows of an account: handing a name on makes its row stale, if the account has
      one; releasing a name takes the row along. */
  lemma DepartureExact(s: State, a: AccountId, to: AccountId)
    ensures DoReleaseName(s, a).Ok? ==>
              forall m :: Stale(DoReleaseName(s, a).value.dir, a, m) <==> Stale(s.dir, a, m)
    ensures DoTransfer(s, a, to).Ok? ==>
              forall m :: Stale(DoTransfer(s, a, to).value.dir, a, m)
                          <==> Stale(s.dir, a, m) || (m == s.claims.primary[a] && (a, m) in s.dir.held)
  {
    hide Wipe, SubsUnder, SubsOutside, BlockedByRow, WriteAnchors, KeepSs58;
  }
}
