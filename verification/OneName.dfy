/** One name per account, in every run, clean or not. */
module OneName {
  import opened Types
  import opened Currency
  import opened NameService
  import opened Ownership
  import opened Rows
  import Promises

  /** A gift that waits for the account that owns the name. */
  ghost predicate Pending(s: State, n: Node) {
    n in s.dir.names && n in s.claims.offered && s.claims.offered[n].recipient == s.dir.names[n].owner
  }

  /** A live name that does not wait for its owner to accept it. */
  ghost predicate Settled(s: State, n: Node) {
    Live(s.sys, s.dir, n) && !Pending(s, n)
  }

  /** A settled name is claimed by its owner, who holds no subname. */
  ghost predicate ClaimedByOwner(s: State) {
    forall n :: Settled(s, n) ==>
      && s.dir.names[n].owner in s.claims.primary && s.claims.primary[s.dir.names[n].owner] == n
      && !HoldsActiveSubname(s.dir, s.dir.names[n].owner)
  }

  /** Settled names that stay settled with the same owner and claim, or the one name `newly` that is newly claimed. */
  lemma Carried(s: State, t: State, newly: Option<Node>)
    requires ClaimedByOwner(s)
    requires forall n :: Settled(t, n) && newly != Some(n) ==>
               && Settled(s, n) && t.dir.names[n].owner == s.dir.names[n].owner
               && (s.claims.primary[t.dir.names[n].owner] == n ==>
                     t.dir.names[n].owner in t.claims.primary && t.claims.primary[t.dir.names[n].owner] == n)
               && (HoldsActiveSubname(t.dir, t.dir.names[n].owner) ==> HoldsActiveSubname(s.dir, t.dir.names[n].owner))
    requires newly.Some? && Settled(t, newly.value) ==>
               var a := t.dir.names[newly.value].owner;
               a in t.claims.primary && t.claims.primary[a] == newly.value && !HoldsActiveSubname(t.dir, a)
    ensures ClaimedByOwner(t)
  {
    hide HoldsActiveSubname;
  }

  lemma BurnNodeOne(s: State, claims: Claims, caller: AccountId, node: Node)
    requires ClaimedByOwner(s) && BurnNode(s.(claims := claims), caller, node).Ok?
    requires claims.primary == s.claims.primary
             || (caller in s.claims.primary && s.claims.primary[caller] == node
                 && claims.primary == s.claims.primary - {caller})
    requires claims.offered == s.claims.offered || claims.offered == s.claims.offered - {node}
    ensures ClaimedByOwner(BurnNode(s.(claims := claims), caller, node).value)
  {
    hide Wipe, SubsUnder, HoldsActiveSubname;
    var t := BurnNode(s.(claims := claims), caller, node).value;
    forall a ensures HoldsActiveSubname(t.dir, a) ==> HoldsActiveSubname(s.dir, a) {
      FewerActive(s.dir, t.dir, a);
    }
    Carried(s, t, None);
  }

  lemma RevokeNodeOne(s: State, parent: Node, node: Node)
    requires ClaimedByOwner(s) && RevokeNode(s, parent, node).Ok?
    ensures ClaimedByOwner(RevokeNode(s, parent, node).value)
  {
    hide Wipe, HoldsActiveSubname;
    var t := RevokeNode(s, parent, node).value;
    forall a ensures HoldsActiveSubname(t.dir, a) ==> HoldsActiveSubname(s.dir, a) {
      FewerActive(s.dir, t.dir, a);
    }
    Carried(s, t, None);
  }

  lemma RejectOfferOne(s: State, caller: AccountId, parsed: Option<Node>)
    requires ClaimedByOwner(s) && RejectOffer(s, caller, parsed).Ok?
    ensures ClaimedByOwner(RejectOffer(s, caller, parsed).value)
  {
    hide ClaimedByOwner, BurnNode, RevokeNode;
    var node := parsed.value;
    if node in s.claims.offered {
      BurnNodeOne(s, DropOffer(s.claims, node), caller, node);
    } else {
      RevokeNodeOne(s, s.dir.subs[node].parent, node);
    }
  }

  /** An account that may receive a name owns none that is settled. */
  lemma FreeOwnsNone(s: State, a: AccountId)
    requires ClaimedByOwner(s) && !HasValidName(s, a)
    ensures forall n :: Settled(s, n) ==> s.dir.names[n].owner != a
  {
    hide HoldsActiveSubname;
  }

  lemma RegisterNodeOne(s: State, caller: AccountId, node: Node, labelLen: nat, owner: AccountId)
    requires ClaimedByOwner(s) && RegisterNode(s, caller, node, labelLen, owner).Ok?
    ensures ClaimedByOwner(RegisterNode(s, caller, node, labelLen, owner).value)
  {
    hide Wipe, SubsUnder, HoldsActiveSubname, RegisterZone, HasHeldRow, Withdraw, RegistrationFee;
    var t := RegisterNode(s, caller, node, labelLen, owner).value;
    FreeOwnsNone(s, owner);
    forall a ensures HoldsActiveSubname(t.dir, a) ==> HoldsActiveSubname(s.dir, a) {
      FewerActive(s.dir, t.dir, a);
    }
    Carried(s, t, Some(node));
  }

  /** A name moves to an account that may receive one, and is claimed by it or becomes a pending gift to it. */
  lemma HandOverOne(s: State, from: AccountId, to: AccountId, node: Node, claims: Claims)
    requires ClaimedByOwner(s) && TransferNode(s, from, to, node).Ok? && FreeReceiver(s, to).Pass?
    requires forall a :: a in s.claims.primary && a != to && !(a == from && s.claims.primary[a] == node) ==>
                           a in claims.primary && claims.primary[a] == s.claims.primary[a]
    requires (to in claims.primary && claims.primary[to] == node)
             || (node in claims.offered && claims.offered[node].recipient == to)
    requires forall n :: n != node ==>
                           (n in claims.offered <==> n in s.claims.offered)
                           && (n in claims.offered ==> claims.offered[n] == s.claims.offered[n])
    ensures ClaimedByOwner(TransferNode(s, from, to, node).value.(claims := claims))
  {
    hide Wipe, SubsUnder, HoldsActiveSubname, HasHeldRow, WriteAnchors, KeepSs58;
    var t := TransferNode(s, from, to, node).value.(claims := claims);
    FreeOwnsNone(s, to);
    forall a ensures HoldsActiveSubname(t.dir, a) ==> HoldsActiveSubname(s.dir, a) {
      FewerActive(s.dir, t.dir, a);
    }
    Carried(s, t, Some(node));
  }

  lemma AcceptGiftOne(s: State, who: AccountId, top: Option<Node>)
    requires ClaimedByOwner(s) && DoAcceptGift(s, who, top).Ok?
    ensures ClaimedByOwner(DoAcceptGift(s, who, top).value)
  {
    hide HoldsActiveSubname, HasHeldRow, WriteAnchors;
    FreeOwnsNone(s, who);
    var n := top.value;
    if Owns(s.dir, n, who) {
      Carried(s, DoAcceptGift(s, who, top).value, Some(n));
    } else {
      Carried(s, DoAcceptGift(s, who, top).value, None);
    }
  }

  lemma AcceptOne(s: State, who: AccountId, sub: Option<Node>)
    requires ClaimedByOwner(s) && DoAccept(s, who, sub).Ok?
    ensures ClaimedByOwner(DoAccept(s, who, sub).value)
  {
    var t := DoAccept(s, who, sub).value;
    FreeOwnsNone(s, who);
    forall a | a != who ensures HoldsActiveSubname(t.dir, a) ==> HoldsActiveSubname(s.dir, a) {
    }
    hide HoldsActiveSubname, HasHeldRow, PutRecord;
    Carried(s, t, None);
  }

  lemma RegisterOne(s: State, who: AccountId, act: Action)
    requires ClaimedByOwner(s) && act.ARegister? && Perform(s, who, act).Ok?
    ensures ClaimedByOwner(Perform(s, who, act).value)
  {
    hide ClaimedByOwner, RejectOffer, RegisterNode;
    var s0 := s;
    if act.reject.Some? {
      RejectOfferOne(s, who, act.reject.value);
      s0 := RejectOffer(s, who, act.reject.value).value;
    }
    RegisterNodeOne(s0, who, act.top.value, act.labelLen, act.owner);
  }

  lemma TransferOne(s: State, who: AccountId, to: AccountId)
    requires ClaimedByOwner(s) && DoTransfer(s, who, to).Ok?
    ensures ClaimedByOwner(DoTransfer(s, who, to).value)
  {
    hide ClaimedByOwner, TransferNode, FreeReceiver;
    HandOverOne(s, who, to, s.claims.primary[who], DoTransfer(s, who, to).value.claims);
  }

  lemma BuyOne(s: State, who: AccountId, top: Option<Node>, recipient: Option<AccountId>)
    requires ClaimedByOwner(s) && DoBuy(s, who, top, recipient).Ok?
    ensures ClaimedByOwner(DoBuy(s, who, top, recipient).value)
  {
    hide TransferNode, FreeReceiver, Settle, ProtocolFee, HoldsActiveSubname;
    var l := s.claims.listings[top.value];
    var s1 := s.(claims := s.claims.(listings := s.claims.listings - {top.value}));
    Carried(s, s1, None);
    hide ClaimedByOwner;
    HandOverOne(s1, l.seller, if recipient.Some? then recipient.value else who, top.value,
                DoBuy(s, who, top, recipient).value.claims);
    Carried(DoBuy(s, who, top, recipient).value.(money := s.money, events := s.events),
            DoBuy(s, who, top, recipient).value, None);
  }

  lemma SubnameOne(s: State, who: AccountId, act: Action)
    requires ClaimedByOwner(s) && Perform(s, who, act).Ok? && (act.AOffer? || act.AReject? || act.AReleaseSub?)
    ensures ClaimedByOwner(Perform(s, who, act).value)
  {
    hide Wipe, SubsUnder, HoldsActiveSubname;
    var t := Perform(s, who, act).value;
    forall a ensures HoldsActiveSubname(t.dir, a) ==> HoldsActiveSubname(s.dir, a) {
      FewerActive(s.dir, t.dir, a);
    }
    Carried(s, t, None);
  }

  lemma QuietOne(s: State, who: AccountId, act: Action)
    requires ClaimedByOwner(s) && Perform(s, who, act).Ok?
    requires act.AList? || act.ACancel? || act.ASetRecord? || act.ASetText?
    ensures ClaimedByOwner(Perform(s, who, act).value)
  {
    hide HoldsActiveSubname, PutRecord;
    Carried(s, Perform(s, who, act).value, None);
  }

  lemma RenewOne(s: State, who: AccountId)
    requires ClaimedByOwner(s) && DoRenew(s, who).Ok?
    ensures ClaimedByOwner(DoRenew(s, who).value)
  {
    hide Withdraw, RegistrationFee, HoldsActiveSubname;
    var t := DoRenew(s, who).value;
    forall a ensures HoldsActiveSubname(t.dir, a) ==> HoldsActiveSubname(s.dir, a) {
      FewerActive(s.dir, t.dir, a);
    }
    Carried(s, t, None);
  }

  lemma PerformOne(s: State, who: AccountId, act: Action)
    requires ClaimedByOwner(s) && Perform(s, who, act).Ok?
    ensures ClaimedByOwner(Perform(s, who, act).value)
  {
    hide ClaimedByOwner, DoRegister, DoBuy, DoTransfer, DoRenew, DoAccept, DoAcceptGift, BurnNode, RevokeNode, DoOffer,
      DoReject, DoReleaseSub, DoList, DoCancel, DoSetRecord, DoSetText;
    match act
    case ARegister(_, _, _, _, _) => RegisterOne(s, who, act);
    case ARenew => RenewOne(s, who);
    case ATransfer(to) => TransferOne(s, who, to);
    case AReleaseName => BurnNodeOne(s, DropPrimary(s.claims, who), who, s.claims.primary[who]);
    case AAccept(node) => AcceptOne(s, who, node);
    case ARevoke(lab) => RevokeNodeOne(s, s.claims.primary[who], Child(s.claims.primary[who], lab.value));
    case AAcceptGift(top) => AcceptGiftOne(s, who, top);
    case ABurn(node) => BurnNodeOne(s, s.claims, who, node.value);
    case ABuy(top, recipient) => BuyOne(s, who, top, recipient);
    case AOffer(_, _, _) => SubnameOne(s, who, act);
    case AReject(_) => SubnameOne(s, who, act);
    case AReleaseSub(_) => SubnameOne(s, who, act);
    case _ => QuietOne(s, who, act);
  }

  /** Root calls and the passing of time settle no name. */
  lemma SystemOne(s: State, y: System)
    requires ClaimedByOwner(s) && y.cfg == s.sys.cfg && y.env.now >= s.sys.env.now
    ensures ClaimedByOwner(s.(sys := y))
  {
    hide HoldsActiveSubname;
    Carried(s, s.(sys := y), None);
  }

  /** In every run a live name that does not wait for its owner to accept it is claimed by its owner, who holds no
      subname. */
  lemma {:induction false} RunOne(s: State, xs: seq<Extrinsic>)
    requires ClaimedByOwner(s)
    ensures ClaimedByOwner(Run(s, xs))
    decreases |xs|
  {
    hide ClaimedByOwner, Perform, Resolve, Top;
    if xs != [] {
      var s1, x := Run(s, xs[..|xs| - 1]), xs[|xs| - 1];
      RunOne(s, xs[..|xs| - 1]);
      if x.Signed? && Apply(s1, x).Ok? {
        PerformOne(s1, x.who, Resolve(x.call));
      } else if Apply(s1, x).Ok? {
        SystemOne(s1, Step(s1, x).sys);
      }
    }
  }

  lemma GenesisOne(cfg: Config, env: Env, official: AccountId, reserved: set<Node>, money: Money)
    ensures ClaimedByOwner(Genesis(cfg, env, official, reserved, money))
  {
  }

  /** So no account owns two such names, nor such a name and a subname. */
  lemma OneNameEver(s: State, n: Node, m: Node)
    requires ClaimedByOwner(s) && Settled(s, n) && Settled(s, m) && s.dir.names[n].owner == s.dir.names[m].owner
    ensures n == m && !HoldsActiveSubname(s.dir, s.dir.names[n].owner)
  {
    hide HoldsActiveSubname;
  }

  /** Resolution in every run: `get_info` returns an account if and only if the account claims and owns the name, which
      has not expired and is not a pending gift. */
  lemma ResolutionExact(s: State, n: Node, a: AccountId)
    requires ClaimedByOwner(s)
    ensures Promises.GetInfo(s, n).Some? && Promises.GetInfo(s, n).value.owner == a <==>
              && a in s.claims.primary && s.claims.primary[a] == n && Owns(s.dir, n, a)
              && n !in s.claims.offered && s.sys.env.now < s.dir.names[n].expire
  {
    hide HoldsActiveSubname;
    if Promises.GetInfo(s, n).Some? {
      assert Settled(s, n);
    }
  }
}
