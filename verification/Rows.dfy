/** The account-to-subnames index over every run, clean or not: at most one row per account, and what it stands for. */
module Rows {
  import opened Types
  import opened Currency
  import opened NameService
  import opened Ownership
  import opened StrayClaims

  /** No account is listed under two names. */
  ghost predicate OneRowEach(d: Directory) {
    forall a, n, m :: (a, n) in d.held && (a, m) in d.held ==> n == m
  }

  /** An account listed under a name holds no subname. */
  ghost predicate NoSubnameBeside(d: Directory) {
    forall a, n :: (a, n) in d.held ==> !HoldsActiveSubname(d, a)
  }

  /** An account listed under a name claims no other, and claims that one if it owns it. */
  ghost predicate ListedAsClaimed(d: Directory, c: Claims) {
    && (forall a, n :: (a, n) in d.held && a in c.primary ==> c.primary[a] == n)
    && (forall a, n :: (a, n) in d.held && Owns(d, n, a) ==> a in c.primary && c.primary[a] == n)
  }

  ghost predicate RowsOk(s: State) {
    OneRowEach(s.dir) && NoSubnameBeside(s.dir) && ListedAsClaimed(s.dir, s.claims)
  }

  // Changes to the directory and the claims

  lemma FewerActive(d: Directory, d': Directory, a: AccountId)
    requires forall n :: n in d'.subs && d'.subs[n].state == Active ==>
                           n in d.subs && d.subs[n].state == Active && d.subs[n].target == d'.subs[n].target
    ensures HoldsActiveSubname(d', a) ==> HoldsActiveSubname(d, a)
  {
  }

  /** Rows and ownership only shrink for listed accounts, and so do subnames; claims of listed accounts stay. */
  lemma ShrinkRows(s: State, t: State)
    requires RowsOk(s) && t.dir.held <= s.dir.held
    requires forall n :: n in t.dir.subs && t.dir.subs[n].state == Active ==>
                           n in s.dir.subs && s.dir.subs[n].state == Active
                           && s.dir.subs[n].target == t.dir.subs[n].target
    requires forall a, n :: (a, n) in t.dir.held && a in t.claims.primary ==>
                              a in s.claims.primary && t.claims.primary[a] == s.claims.primary[a]
    requires forall a, n :: (a, n) in t.dir.held && Owns(t.dir, n, a) ==>
                              Owns(s.dir, n, a) && (a in s.claims.primary ==> a in t.claims.primary)
    ensures RowsOk(t)
  {
    forall a, n | (a, n) in t.dir.held ensures !HoldsActiveSubname(t.dir, a) {
      FewerActive(s.dir, t.dir, a);
    }
  }

  lemma FreeHasNone(s: State, a: AccountId, n: Node)
    requires FreeReceiver(s, a).Pass?
    ensures (a, n) !in s.dir.held && !HoldsActiveSubname(s.dir, a)
  {
    if (a, n) in s.dir.held {
      RowIsBlock(s.dir, a, n);
    }
  }

  lemma BurnNodeRows(s: State, claims: Claims, caller: AccountId, node: Node)
    requires RowsOk(s) && BurnNode(s.(claims := claims), caller, node).Ok?
    requires claims.primary == s.claims.primary
             || (caller in s.claims.primary && s.claims.primary[caller] == node
                 && claims.primary == s.claims.primary - {caller})
    ensures RowsOk(BurnNode(s.(claims := claims), caller, node).value)
  {
    hide Wipe, SubsUnder, HoldsActiveSubname;
    ShrinkRows(s, BurnNode(s.(claims := claims), caller, node).value);
  }

  lemma RevokeNodeRows(s: State, parent: Node, node: Node)
    requires RowsOk(s) && RevokeNode(s, parent, node).Ok?
    ensures RowsOk(RevokeNode(s, parent, node).value)
  {
    hide Wipe, HoldsActiveSubname;
    ShrinkRows(s, RevokeNode(s, parent, node).value);
  }

  lemma RejectOfferRowsOk(s: State, caller: AccountId, parsed: Option<Node>)
    requires RowsOk(s) && RejectOffer(s, caller, parsed).Ok?
    ensures RowsOk(RejectOffer(s, caller, parsed).value)
  {
    hide RowsOk, BurnNode, RevokeNode;
    var node := parsed.value;
    if node in s.claims.offered {
      BurnNodeRows(s, DropOffer(s.claims, node), caller, node);
    } else {
      RevokeNodeRows(s, s.dir.subs[node].parent, node);
    }
  }

  lemma RegisterNodeRowsOk(s: State, caller: AccountId, node: Node, labelLen: nat, owner: AccountId)
    requires RowsOk(s) && RegisterNode(s, caller, node, labelLen, owner).Ok?
    ensures RowsOk(RegisterNode(s, caller, node, labelLen, owner).value)
  {
    hide Wipe, SubsUnder, HoldsActiveSubname, RegisterZone, FreeReceiver, Withdraw, RegistrationFee, Live;
    var t := RegisterNode(s, caller, node, labelLen, owner).value;
    forall n ensures (owner, n) !in s.dir.held && !HoldsActiveSubname(s.dir, owner) {
      FreeHasNone(s, owner, n);
    }
    forall a ensures HoldsActiveSubname(t.dir, a) ==> HoldsActiveSubname(s.dir, a) {
      FewerActive(s.dir, t.dir, a);
    }
  }

  /** A name moves to an account that may receive one, with or without a claim. */
  lemma HandOverRows(s: State, from: AccountId, to: AccountId, node: Node, claims: Claims)
    requires RowsOk(s) && TransferNode(s, from, to, node).Ok? && FreeReceiver(s, to).Pass? && from != to
    requires forall a :: a != from && a != to ==>
                           (a in claims.primary <==> a in s.claims.primary)
                           && (a in claims.primary ==> claims.primary[a] == s.claims.primary[a])
    requires from in claims.primary ==>
               from in s.claims.primary && claims.primary[from] == s.claims.primary[from] != node
    requires from in s.claims.primary && s.claims.primary[from] != node ==> from in claims.primary
    ensures RowsOk(TransferNode(s, from, to, node).value.(claims := claims))
  {
    hide Wipe, SubsUnder, HoldsActiveSubname, FreeReceiver, WriteAnchors, KeepSs58;
    forall n ensures (to, n) !in s.dir.held {
      FreeHasNone(s, to, n);
    }
    ShrinkRows(s, TransferNode(s, from, to, node).value.(claims := claims));
  }

  // Extrinsics

  lemma RegisterRowsOk(s: State, who: AccountId, act: Action)
    requires RowsOk(s) && act.ARegister? && Perform(s, who, act).Ok?
    ensures RowsOk(Perform(s, who, act).value)
  {
    hide RowsOk, RejectOffer, RegisterNode;
    var s0 := s;
    if act.reject.Some? {
      RejectOfferRowsOk(s, who, act.reject.value);
      s0 := RejectOffer(s, who, act.reject.value).value;
    }
    RegisterNodeRowsOk(s0, who, act.top.value, act.labelLen, act.owner);
  }

  lemma TransferRowsOk(s: State, who: AccountId, to: AccountId)
    requires RowsOk(s) && DoTransfer(s, who, to).Ok?
    ensures who != to && RowsOk(DoTransfer(s, who, to).value)
  {
    hide RowsOk, Wipe, SubsUnder, SubsOutside, BlockedByRow, WriteAnchors, KeepSs58, SetOwner;
    HandOverRows(s, who, to, s.claims.primary[who], DoTransfer(s, who, to).value.claims);
  }

  lemma BuyRowsOk(s: State, who: AccountId, top: Option<Node>, recipient: Option<AccountId>)
    requires RowsOk(s) && DoBuy(s, who, top, recipient).Ok?
    ensures RowsOk(DoBuy(s, who, top, recipient).value)
  {
    hide TransferNode, FreeReceiver, Settle, ProtocolFee, HoldsActiveSubname;
    var l := s.claims.listings[top.value];
    var s1 := s.(claims := s.claims.(listings := s.claims.listings - {top.value}));
    HandOverRows(s1, l.seller, if recipient.Some? then recipient.value else who, top.value,
                 DoBuy(s, who, top, recipient).value.claims);
  }

  lemma AcceptRowsOk(s: State, who: AccountId, sub: Option<Node>)
    requires RowsOk(s) && DoAccept(s, who, sub).Ok?
    ensures RowsOk(DoAccept(s, who, sub).value)
  {
    hide HasValidName, PutRecord;
    var t := DoAccept(s, who, sub).value;
    forall n ensures (who, n) !in s.dir.held {
      if (who, n) in s.dir.held {
        RowIsBlock(s.dir, who, n);
      }
    }
    forall a, n | (a, n) in t.dir.held ensures !HoldsActiveSubname(t.dir, a) {
      assert !HoldsActiveSubname(s.dir, a);
    }
  }

  lemma AcceptGiftRowsOk(s: State, who: AccountId, top: Option<Node>)
    requires RowsOk(s) && DoAcceptGift(s, who, top).Ok?
    ensures RowsOk(DoAcceptGift(s, who, top).value)
  {
    hide FreeReceiver, WriteAnchors, HoldsActiveSubname;
    forall n ensures (who, n) !in s.dir.held {
      FreeHasNone(s, who, n);
    }
  }

  lemma QuietRowsOk(s: State, who: AccountId, act: Action)
    requires RowsOk(s) && Perform(s, who, act).Ok?
    requires act.AOffer? || act.AReject? || act.AReleaseSub? || act.AList? || act.ACancel?
             || act.ASetRecord? || act.ASetText?
    ensures RowsOk(Perform(s, who, act).value)
  {
    hide Wipe, SubsUnder, HoldsActiveSubname, PutRecord;
    ShrinkRows(s, Perform(s, who, act).value);
  }

  lemma RenewRowsOk(s: State, who: AccountId)
    requires RowsOk(s) && DoRenew(s, who).Ok?
    ensures RowsOk(DoRenew(s, who).value)
  {
    hide Withdraw, RegistrationFee, HoldsActiveSubname;
    ShrinkRows(s, DoRenew(s, who).value);
  }

  lemma PerformRowsOk(s: State, who: AccountId, act: Action)
    requires RowsOk(s) && Perform(s, who, act).Ok?
    ensures RowsOk(Perform(s, who, act).value)
  {
    hide RowsOk, DoRegister, DoBuy, DoTransfer, DoRenew, DoAccept, DoAcceptGift, BurnNode, RevokeNode, DoOffer, DoReject,
      DoReleaseSub, DoList, DoCancel, DoSetRecord, DoSetText;
    match act
    case ARegister(_, _, _, _, _) => RegisterRowsOk(s, who, act);
    case ARenew => RenewRowsOk(s, who);
    case ATransfer(to) => TransferRowsOk(s, who, to);
    case AReleaseName => BurnNodeRows(s, DropPrimary(s.claims, who), who, s.claims.primary[who]);
    case AAccept(node) => AcceptRowsOk(s, who, node);
    case ARevoke(lab) => RevokeNodeRows(s, s.claims.primary[who], Child(s.claims.primary[who], lab.value));
    case AAcceptGift(top) => AcceptGiftRowsOk(s, who, top);
    case ABurn(node) => BurnNodeRows(s, s.claims, who, node.value);
    case ABuy(top, recipient) => BuyRowsOk(s, who, top, recipient);
    case _ => QuietRowsOk(s, who, act);
  }

  /** In every run an account has at most one row of the index: a name it is listed under, besides which it holds no
      subname and claims no other name, or one subname. */
  lemma {:induction false} RunRows(s: State, xs: seq<Extrinsic>)
    requires RowsOk(s)
    ensures RowsOk(Run(s, xs))
    decreases |xs|
  {
    hide HoldsActiveSubname, Perform, Resolve, Top;
    if xs != [] {
      var s1, x := Run(s, xs[..|xs| - 1]), xs[|xs| - 1];
      RunRows(s, xs[..|xs| - 1]);
      if x.Signed? && Apply(s1, x).Ok? {
        PerformRowsOk(s1, x.who, Resolve(x.call));
      }
    }
  }

  lemma GenesisRows(cfg: Config, env: Env, official: AccountId, reserved: set<Node>, money: Money)
    ensures RowsOk(Genesis(cfg, env, official, reserved, money))
  {
  }

  // Who is refused, exactly

  /** An account whose claim has lapsed may receive a name if and only if the name was not registered to it and it holds
      no subname. */
  lemma LapsedExact(s: State, a: AccountId)
    requires RowsOk(s) && a in s.claims.primary && !Live(s.sys, s.dir, s.claims.primary[a])
    ensures FreeReceiver(s, a).Pass? <==> (a, s.claims.primary[a]) !in s.dir.held && !HoldsActiveSubname(s.dir, a)
  {
    if (a, s.claims.primary[a]) in s.dir.held {
      RowIsBlock(s.dir, a, s.claims.primary[a]);
    }
  }

  /** An account that holds a name: a live one that it claims and owns, or a subname. */
  ghost predicate HoldsName(s: State, a: AccountId) {
    (HasValidName(s, a) && Owns(s.dir, s.claims.primary[a], a)) || HoldsActiveSubname(s.dir, a)
  }

  /** A claimed and owned name that has lapsed and was registered to the account. */
  ghost predicate OwnLapsed(s: State, a: AccountId) {
    && a in s.claims.primary && (a, s.claims.primary[a]) in s.dir.held
    && Owns(s.dir, s.claims.primary[a], a) && !Live(s.sys, s.dir, s.claims.primary[a])
  }

  /** Who is refused as the receiver of a name: an account that holds one, and apart from these exactly an account that is
      listed under a name it does not own, that owns its lapsed name, or that claims a live name it does not own. */
  lemma RefusedExact(s: State, a: AccountId)
    requires RowsOk(s)
    ensures FreeReceiver(s, a).Fail? <==>
              || HoldsName(s, a)
              || (exists n :: Stale(s.dir, a, n))
              || OwnLapsed(s, a)
              || (Misclaims(s, a) && Live(s.sys, s.dir, s.claims.primary[a]))
  {
    if FreeReceiver(s, a).Fail? && !HasValidName(s, a) && !HoldsActiveSubname(s.dir, a) {
      var row :| row in s.dir.held && row.0 == a;
      assert (a, row.1) in s.dir.held;
      assert Stale(s.dir, a, row.1) || Owns(s.dir, row.1, a);
    } else if FreeReceiver(s, a).Pass? {
      forall n ensures (a, n) !in s.dir.held {
        FreeHasNone(s, a, n);
      }
    }
  }

  /** An account that releases its name, live or lapsed, has no row left and may receive another at once, unless it holds
      a subname. */
  lemma ReleaseFrees(s: State, a: AccountId)
    requires RowsOk(s) && DoReleaseName(s, a).Ok?
    ensures var t := DoReleaseName(s, a).value;
            && !HasHeldRow(t.dir, a)
            && (FreeReceiver(t, a).Pass? <==> !HoldsActiveSubname(t.dir, a))
    ensures forall n :: !Stale(s.dir, a, n)
  {
    hide Wipe, SubsUnder, SubsOutside, HoldsActiveSubname;
    var t := DoReleaseName(s, a).value;
    forall row | row in t.dir.held ensures row.0 != a {
      assert row in s.dir.held && row == (row.0, row.1);
    }
  }
}
