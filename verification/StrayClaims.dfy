/** Claims to names that the claimant does not own: how they arise, what they allow, and what holds in spite of them. */
module StrayClaims {
  import opened Types
  import opened Currency
  import opened NameService
  import opened Ownership

  /** An account that claims a name it does not own, registered or not. */
  ghost predicate Misclaims(s: State, a: AccountId) {
    a in s.claims.primary && !Owns(s.dir, s.claims.primary[a], a)
  }

  // How a stray claim arises

  /** A call that leaves a stray claim: the account burns the name it claims, turns it down in a registration, or accepts
      a gift that it does not own. */
  ghost predicate Strays(s: State, who: AccountId, act: Action, a: AccountId) {
    && who == a
    && match act
       case ABurn(n) => a in s.claims.primary && n == Some(s.claims.primary[a]) && Owns(s.dir, s.claims.primary[a], a)
       case ARegister(_, _, _, owner, reject) =>
         && a in s.claims.primary && reject == Some(Some(s.claims.primary[a])) && owner != a
         && Owns(s.dir, s.claims.primary[a], a)
       case AAcceptGift(n) => n.Some? && !Owns(s.dir, n.value, a)
       case _ => false
  }

  lemma RejectStrays(s: State, who: AccountId, parsed: Option<Node>, a: AccountId)
    requires RejectOffer(s, who, parsed).Ok? && Misclaims(RejectOffer(s, who, parsed).value, a) && !Misclaims(s, a)
    ensures who == a && a in s.claims.primary && parsed == Some(s.claims.primary[a])
  {
    hide Wipe, SubsUnder, SubsOutside;
  }

  lemma RegisterNodeStrays(s: State, caller: AccountId, node: Node, labelLen: nat, owner: AccountId, a: AccountId)
    requires RegisterNode(s, caller, node, labelLen, owner).Ok?
    requires Misclaims(RegisterNode(s, caller, node, labelLen, owner).value, a)
    ensures Misclaims(s, a) && owner != a
  {
    hide Wipe, SubsUnder, SubsOutside, RegisterZone, FreeReceiver, Withdraw, RegistrationFee, Live;
  }

  lemma RegisterStrays(s: State, who: AccountId, act: Action, a: AccountId)
    requires act.ARegister? && Perform(s, who, act).Ok? && Misclaims(Perform(s, who, act).value, a) && !Misclaims(s, a)
    ensures Strays(s, who, act, a)
  {
    hide RejectOffer, RegisterNode;
    var s0 := s;
    if act.reject.Some? {
      s0 := RejectOffer(s, who, act.reject.value).value;
    }
    RegisterNodeStrays(s0, who, act.top.value, act.labelLen, act.owner, a);
    if act.reject.Some? {
      RejectStrays(s, who, act.reject.value, a);
    }
  }

  lemma BuyStrays(s: State, who: AccountId, top: Option<Node>, recipient: Option<AccountId>, a: AccountId)
    requires DoBuy(s, who, top, recipient).Ok? && Misclaims(DoBuy(s, who, top, recipient).value, a)
    ensures Misclaims(s, a)
  {
    hide FreeReceiver, Settle, ProtocolFee, Wipe, SubsUnder, SubsOutside, WriteAnchors, KeepSs58;
  }

  lemma PerformStrays(s: State, who: AccountId, act: Action, a: AccountId)
    requires Perform(s, who, act).Ok? && Misclaims(Perform(s, who, act).value, a) && !Misclaims(s, a)
    ensures Strays(s, who, act, a)
  {
    hide DoRegister, DoBuy, FreeReceiver, Wipe, BlockedByRow, HasValidName, Withdraw, RegistrationFee, SubsUnder,
      SubsOutside, PutRecord, WriteAnchors, KeepSs58, Live;
    if act.ARegister? {
      RegisterStrays(s, who, act, a);
    } else if act.ABuy? {
      BuyStrays(s, who, act.top, act.recipient, a);
    }
  }

  ghost predicate StrayingStep(s: State, x: Extrinsic, a: AccountId) {
    x.Signed? && Apply(s, x).Ok? && Strays(s, x.who, Resolve(x.call), a)
  }

  /** Over every run an account comes to claim a name that it does not own only by its own doing: at some step it burned
      the name it claimed, turned it down, or accepted a gift that it did not own. */
  lemma {:induction false} RunMisclaims(s: State, xs: seq<Extrinsic>, a: AccountId)
    requires !Misclaims(s, a) && Misclaims(Run(s, xs), a)
    ensures exists i :: 0 <= i < |xs| && StrayingStep(Run(s, xs[..i]), xs[i], a)
    decreases |xs|
  {
    hide Perform, Resolve, Top, Strays;
    if xs != [] {
      var k := |xs| - 1;
      var s1, x := Run(s, xs[..k]), xs[k];
      if Misclaims(s1, a) {
        RunMisclaims(s, xs[..k], a);
        var i :| 0 <= i < k && StrayingStep(Run(s, xs[..k][..i]), xs[..k][i], a);
        assert xs[..k][..i] == xs[..i] && xs[..k][i] == xs[i];
      } else {
        PerformStrays(s1, x.who, Resolve(x.call), a);
        assert StrayingStep(Run(s, xs[..k]), xs[k], a);
      }
    }
  }

  // What a claim allows

  /** A signed call that acts on the name the caller claims, without asking who owns it. */
  ghost predicate ActsOn(s: State, a: AccountId, act: Action, n: Node) {
    && (act.ARenew? || act.AOffer? || act.ARevoke? || act.AList? || act.ACancel?)
    && a in s.claims.primary && s.claims.primary[a] == n && Perform(s, a, act).Ok?
  }

  /** An account can act on a registered name that it does not own, by renewing it, listing it or handling its subnames,
      if and only if it claims the name. */
  lemma ForeignActsExact(s: State, a: AccountId, n: Node)
    requires n in s.dir.names && !Owns(s.dir, n, a)
    ensures (exists act :: ActsOn(s, a, act, n)) <==> Misclaims(s, a) && s.claims.primary[a] == n
  {
    if a in s.claims.primary && s.claims.primary[a] == n {
      if n in s.claims.listings {
        assert ActsOn(s, a, ACancel, n);
      } else {
        assert ActsOn(s, a, AList(0, s.sys.env.now + 1), n);
      }
    }
  }
}
