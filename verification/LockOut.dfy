/** Exactly which accounts are refused for good. */
module LockOut {
  import opened Types
  import opened Labels
  import opened NameParsing
  import opened Currency
  import opened NameService
  import opened AllRuns
  import opened Ownership
  import opened Promises
  import opened Rows

  // Everything registered can be spelled

  ghost predicate NamesNormal(d: Directory) {
    forall n :: n in d.names ==> IsTop(n) && IsNormal(n.lab)
  }

  /** Every name and every subname is the node of some text, so its owner can address it. */
  ghost predicate Spellable(d: Directory) {
    NamesNormal(d) && SpellingsMatch(d)
  }

  lemma RegisterAddsTop(s: State, who: AccountId, act: Action, n: Node)
    requires act.ARegister? && Perform(s, who, act).Ok? && n in Perform(s, who, act).value.dir.names
    ensures n in s.dir.names || act.top == Some(n)
  {
    hide FreeReceiver, Wipe, Withdraw, RegistrationFee, SubsUnder, SubsOutside, FreshName, RegisterZone, RegisterClaims,
      Live;
  }

  lemma BuyAddsNone(s: State, who: AccountId, top: Option<Node>, recipient: Option<AccountId>)
    requires DoBuy(s, who, top, recipient).Ok?
    ensures DoBuy(s, who, top, recipient).value.dir.names.Keys == s.dir.names.Keys
  {
    hide FreeReceiver, Settle, ProtocolFee, Wipe, SubsUnder, SubsOutside, WriteAnchors, KeepSs58, SetPrimary,
      DropPrimary, ForgetPrimary;
  }

  lemma PerformAddsTop(s: State, who: AccountId, act: Action, n: Node)
    requires Perform(s, who, act).Ok? && n in Perform(s, who, act).value.dir.names
    ensures n in s.dir.names || (act.ARegister? && act.top == Some(n))
  {
    hide DoRegister, DoBuy, FreeReceiver, Wipe, BlockedByRow, HasValidName, Withdraw, RegistrationFee, SubsUnder,
      SubsOutside, PutRecord, WriteAnchors, KeepSs58, Live, SetPrimary, DropPrimary, ForgetPrimary;
    if act.ARegister? {
      RegisterAddsTop(s, who, act, n);
    } else if act.ABuy? {
      BuyAddsNone(s, who, act.top, act.recipient);
    }
  }

  lemma {:induction false} RunNamesNormal(s: State, xs: seq<Extrinsic>)
    requires NamesNormal(s.dir)
    ensures NamesNormal(Run(s, xs).dir)
    decreases |xs|
  {
    hide Perform, Lower, CheckLabel, IsNormal, ParseNameToNode;
    if xs != [] {
      var s1, x := Run(s, xs[..|xs| - 1]), xs[|xs| - 1];
      RunNamesNormal(s, xs[..|xs| - 1]);
      if x.Signed? && Apply(s1, x).Ok? {
        forall n | n in Step(s1, x).dir.names ensures IsTop(n) && IsNormal(n.lab) {
          PerformAddsTop(s1, x.who, Resolve(x.call), n);
          if n !in s1.dir.names {
            LowerIsNormal(x.call.name);
          }
        }
      }
    }
  }

  lemma RunSpellable(s: State, xs: seq<Extrinsic>)
    requires Spellable(s.dir)
    ensures Spellable(Run(s, xs).dir)
  {
    hide NamesNormal, SpellingsMatch, Run;
    RunNamesNormal(s, xs);
    RunSpellings(s, xs);
  }

  lemma GenesisSpellable(cfg: Config, env: Env, official: AccountId, reserved: set<Node>, money: Money)
    ensures Spellable(Genesis(cfg, env, official, reserved, money).dir)
  {
  }

  // An account with a stale row is refused everything

  /** After any run, every call that would give such an account a name or a subname fails. */
  lemma StaleRefused(s: State, xs: seq<Extrinsic>, a: AccountId, n: Node, x: Extrinsic)
    requires Stale(s.dir, a, n) && GivesTo(x, a)
    ensures Apply(Run(s, xs), x).Err?
  {
    hide Run, Owns, Perform, BlockedByRow, RejectOffer, ParseNameToNode, Top, Sub, NewLabel, Lower;
    StaleForever(s, xs, a, n);
    RowIsBlock(Run(s, xs).dir, a, n);
    if x.call.Register? {
      RegisterBlocked(Run(s, xs), x.who, Resolve(x.call), n);
    } else {
      RowBlocks(Run(s, xs), x, a);
    }
  }

  // How an account comes to be listed under a name that it does not own

  /** A call by which the owner of a name hands it on or sells it. */
  ghost predicate Departs(s: State, who: AccountId, act: Action, a: AccountId, n: Node) {
    || (act.ATransfer? && who == a && a in s.claims.primary && s.claims.primary[a] == n)
    || (act.ABuy? && act.top == Some(n) && n in s.claims.listings && s.claims.listings[n].seller == a)
  }

  lemma RegisterLeavesNone(s: State, who: AccountId, act: Action, a: AccountId, n: Node)
    requires act.ARegister? && Perform(s, who, act).Ok? && Stale(Perform(s, who, act).value.dir, a, n)
    ensures Stale(s.dir, a, n)
  {
    hide FreeReceiver, Wipe, Withdraw, RegistrationFee, SubsUnder, SubsOutside, RegisterZone, RegisterClaims, Live;
  }

  lemma BuyLeavesSeller(s: State, who: AccountId, top: Option<Node>, recipient: Option<AccountId>, a: AccountId, n: Node)
    requires DoBuy(s, who, top, recipient).Ok? && Stale(DoBuy(s, who, top, recipient).value.dir, a, n)
    ensures Stale(s.dir, a, n)
            || (Owns(s.dir, n, a) && (a, n) in s.dir.held && Departs(s, who, ABuy(top, recipient), a, n))
  {
    hide FreeReceiver, Settle, ProtocolFee, Wipe, SubsUnder, SubsOutside, WriteAnchors, KeepSs58, SetPrimary,
      DropPrimary, ForgetPrimary;
  }

  lemma PerformLeaves(s: State, who: AccountId, act: Action, a: AccountId, n: Node)
    requires Perform(s, who, act).Ok? && Stale(Perform(s, who, act).value.dir, a, n) && !Stale(s.dir, a, n)
    ensures Owns(s.dir, n, a) && (a, n) in s.dir.held && Departs(s, who, act, a, n)
  {
    hide DoRegister, DoBuy, FreeReceiver, Wipe, BlockedByRow, HasValidName, Withdraw, RegistrationFee, SubsUnder,
      SubsOutside, PutRecord, WriteAnchors, KeepSs58, SetPrimary, DropPrimary, ForgetPrimary, Live;
    if act.ARegister? {
      RegisterLeavesNone(s, who, act, a, n);
    } else if act.ABuy? {
      BuyLeavesSeller(s, who, act.top, act.recipient, a, n);
    }
  }

  ghost predicate DepartingStep(s: State, x: Extrinsic, a: AccountId, n: Node) {
    && Owns(s.dir, n, a) && (a, n) in s.dir.held
    && x.Signed? && Apply(s, x).Ok? && Departs(s, x.who, Resolve(x.call), a, n)
  }

  /** Over every run an account comes to be listed under a name that it does not own only by transferring or selling the
      name while it owned it and was listed under it. */
  lemma {:induction false} RunBecomesStale(s: State, xs: seq<Extrinsic>, a: AccountId, n: Node)
    requires !Stale(s.dir, a, n) && Stale(Run(s, xs).dir, a, n)
    ensures exists i :: 0 <= i < |xs| && DepartingStep(Run(s, xs[..i]), xs[i], a, n)
    decreases |xs|
  {
    hide Perform, Resolve, Top, Stale, Owns, Departs;
    if xs != [] {
      var k := |xs| - 1;
      var s1, x := Run(s, xs[..k]), xs[k];
      if Stale(s1.dir, a, n) {
        RunBecomesStale(s, xs[..k], a, n);
        var i :| 0 <= i < k && DepartingStep(Run(s, xs[..k][..i]), xs[..k][i], a, n);
        assert xs[..k][..i] == xs[..i] && xs[..k][i] == xs[i];
      } else {
        assert Step(s1, x).dir != s1.dir;
        PerformLeaves(s1, x.who, Resolve(x.call), a, n);
        assert DepartingStep(Run(s, xs[..k]), xs[k], a, n);
      }
    }
  }

  // An account without a stale row can free itself

  ghost function RowsOf(d: Directory, a: AccountId): set<(AccountId, Node)> {
    set row | row in d.held && row.0 == a
  }

  ghost predicate NoneStale(d: Directory, a: AccountId) {
    forall n :: !Stale(d, a, n)
  }

  /** The calls that an account makes itself, and the passing of time. */
  ghost predicate OwnMoves(xs: seq<Extrinsic>, a: AccountId) {
    forall i :: 0 <= i < |xs| ==> (xs[i].Signed? && xs[i].who == a) || xs[i].NewBlock?
  }

  lemma BurnListed(s: State, a: AccountId, n: Node)
    requires NamesNormal(s.dir) && Owns(s.dir, n, a)
    ensures IsNameNode(n, Base)
    ensures Step(s, Signed(a, Burn(Render(n)))).dir == Remove(s.dir, n)
  {
    hide Wipe, SubsUnder, SubsOutside, ParseNameToNode, Render, Lower, IsNormal;
    ParseRender(n, Base);
  }

  lemma RemoveRows(d: Directory, a: AccountId, n: Node)
    requires Owns(d, n, a) && (a, n) in d.held && NoneStale(d, a)
    ensures NoneStale(Remove(d, n), a)
    ensures RowsOf(Remove(d, n), a) == RowsOf(d, a) - {(a, n)}
  {
    hide SubsOutside;
    forall m ensures !Stale(Remove(d, n), a, m) {
      assert !Stale(d, a, m);
    }
  }

  /** Burning every name it is listed under leaves the account without a row of a name. */
  lemma BurnAll(s: State, a: AccountId) returns (xs: seq<Extrinsic>)
    requires Core(s) && Spellable(s.dir) && NoneStale(s.dir, a)
    ensures OwnMoves(xs, a) && !HasHeldRow(Run(s, xs).dir, a)
    decreases |RowsOf(s.dir, a)|
  {
    hide Core, Step, NamesNormal, SpellingsMatch;
    if RowsOf(s.dir, a) == {} {
      xs := [];
      forall row | row in s.dir.held ensures row.0 != a {
        assert row !in RowsOf(s.dir, a);
      }
    } else {
      var row :| row in RowsOf(s.dir, a);
      var n := row.1;
      assert row == (a, n) && !Stale(s.dir, a, n);
      BurnListed(s, a, n);
      RemoveRows(s.dir, a, n);
      var x := Signed(a, Burn(Render(n)));
      assert Run(s, [x]) == Step(s, x) by {
        RunAppend(s, [], x);
        assert [] + [x] == [x];
      }
      RunCore(s, [x]);
      RunSpellable(s, [x]);
      var ys := BurnAll(Step(s, x), a);
      RunConcat(s, [x], ys);
      xs := [x] + ys;
    }
  }

  lemma SubnameSpelled(d: Directory, m: Node)
    requires WellShaped(d) && Spellable(d) && m in d.subs
    ensures m.Child? && m.parent.Child? && Sub(m.parent.lab, d.subs[m].spelling) == Some(m)
  {
    LowerIsNormal(m.parent.lab);
  }

  /** Releasing the one subname it may hold leaves the account without an active subname. */
  lemma ReleaseHeld(s: State, a: AccountId) returns (xs: seq<Extrinsic>)
    requires Core(s) && Spellable(s.dir) && !HasHeldRow(s.dir, a)
    ensures OwnMoves(xs, a) && !BlockedByRow(Run(s, xs).dir, a)
  {
    hide Recorded, NoStacking, WithinCapacity, Balanced, Spellable, Wipe, Lower, CheckLabel;
    if HoldsActiveSubname(s.dir, a) {
      var m :| m in s.dir.subs && s.dir.subs[m].state == Active && s.dir.subs[m].target == a;
      SubnameSpelled(s.dir, m);
      var x := Signed(a, ReleaseSubdomain(m.parent.lab, s.dir.subs[m].spelling));
      assert Step(s, x).dir == DropSub(s.dir, m);
      assert Run(s, [x]) == Step(s, x) by {
        RunAppend(s, [], x);
        assert [] + [x] == [x];
      }
      xs := [x];
    } else {
      xs := [];
    }
  }

  /** One full period and a grace period from now, no name that is registered now is live. */
  lemma AllLapse(s: State, a: AccountId) returns (xs: seq<Extrinsic>)
    requires Core(s) && !BlockedByRow(s.dir, a)
    ensures OwnMoves(xs, a) && FreeReceiver(Run(s, xs), a).Pass?
  {
    hide Recorded, DirectoryOk, Balanced, BlockedByRow;
    var x := NewBlock(s.sys.env.(now := s.sys.env.now + s.sys.cfg.maxDuration + s.sys.cfg.grace + 1));
    assert Run(s, [x]) == Step(s, x) by {
      RunAppend(s, [], x);
      assert [] + [x] == [x];
    }
    xs := [x];
  }

  /** An account without a stale row can be admitted again by its own doing and by waiting: it burns the names it is
      listed under, releases the subname it holds and lets what it still claims lapse. */
  lemma CanFreeItself(s: State, a: AccountId) returns (xs: seq<Extrinsic>)
    requires Core(s) && Spellable(s.dir) && NoneStale(s.dir, a)
    ensures OwnMoves(xs, a) && FreeReceiver(Run(s, xs), a).Pass?
  {
    hide Core, Spellable, NoneStale, HasHeldRow, BlockedByRow, FreeReceiver, Run;
    var burns := BurnAll(s, a);
    RunCore(s, burns);
    RunSpellable(s, burns);
    var releases := ReleaseHeld(Run(s, burns), a);
    RunConcat(s, burns, releases);
    RunCore(s, burns + releases);
    var wait := AllLapse(Run(s, burns + releases), a);
    RunConcat(s, burns + releases, wait);
    xs := burns + releases + wait;
  }

  /** An account is refused as the receiver of a name in every later run if and only if the index lists it under a
      name that it does not own. */
  lemma RefusedForever(s: State, a: AccountId)
    requires Core(s) && Spellable(s.dir)
    ensures (exists n :: Stale(s.dir, a, n)) <==> (forall xs :: FreeReceiver(Run(s, xs), a).Fail?)
  {
    hide Core, Spellable, FreeReceiver, Run, Owns;
    if n :| Stale(s.dir, a, n) {
      forall xs ensures FreeReceiver(Run(s, xs), a).Fail? {
        StaleForever(s, xs, a, n);
        ReceiveBlocked(Run(s, xs), a, n);
      }
    } else {
      var xs := CanFreeItself(s, a);
      assert FreeReceiver(Run(s, xs), a).Pass?;
    }
  }

  lemma OneStep(s: State, x: Extrinsic)
    requires Core(s) && Spellable(s.dir)
    ensures Core(Step(s, x)) && Spellable(Step(s, x).dir)
  {
    hide Core, Spellable, Step;
    RunAppend(s, [], x);
    assert [] + [x] == [x];
    RunCore(s, [x]);
    RunSpellable(s, [x]);
  }

  /** An account that hands its name on is refused for good if and only if the name was registered to it, so that it is
      listed under it. */
  lemma GiverRefusedExactly(s: State, a: AccountId, to: AccountId)
    requires Core(s) && Spellable(s.dir) && RowsOk(s) && DoTransfer(s, a, to).Ok?
    ensures (forall xs :: FreeReceiver(Run(DoTransfer(s, a, to).value, xs), a).Fail?)
            <==> (a, s.claims.primary[a]) in s.dir.held
  {
    hide Core, Spellable, RowsOk, FreeReceiver, Run, DoTransfer, Stale;
    GiverNotStale(s, a, to);
    var n := s.claims.primary[a];
    DepartureExact(s, a, to);
    OneStep(s, Signed(a, Transfer(to)));
    var t := DoTransfer(s, a, to).value;
    RefusedForever(t, a);
    assert (a, n) in s.dir.held ==> Stale(t.dir, a, n);
  }

  /** An account that owns the name it claims has no stale row. */
  lemma GiverNotStale(s: State, a: AccountId, to: AccountId)
    requires RowsOk(s) && DoTransfer(s, a, to).Ok?
    ensures a in s.claims.primary && forall n :: !Stale(s.dir, a, n)
  {
    hide HoldsActiveSubname, FreeReceiver, Wipe, SubsUnder, KeepSs58, WriteAnchors, SetOwner;
  }

  lemma SaleExact(s: State, who: AccountId, top: Option<Node>, recipient: Option<AccountId>)
    requires DoBuy(s, who, top, recipient).Ok?
    ensures top.Some? && top.value in s.claims.listings
    ensures var n, a := top.value, s.claims.listings[top.value].seller;
            forall m :: Stale(DoBuy(s, who, top, recipient).value.dir, a, m)
                        <==> Stale(s.dir, a, m) || (m == n && (a, n) in s.dir.held)
  {
    hide FreeReceiver, Settle, ProtocolFee, Wipe, SubsUnder, SubsOutside, WriteAnchors, KeepSs58, SetPrimary,
      DropPrimary, ForgetPrimary;
  }

  /** An account that sells its name is refused for good if and only if the name was registered to it, or it was refused
      for good before. */
  lemma SellerRefusedExactly(s: State, x: Extrinsic)
    requires Core(s) && Spellable(s.dir) && x.Signed? && x.call.BuyName? && Apply(s, x).Ok?
    ensures var n := Top(x.call.name);
            && n.Some? && n.value in s.claims.listings
            && var a := s.claims.listings[n.value].seller;
               ((forall xs :: FreeReceiver(Run(Step(s, x), xs), a).Fail?)
                <==> (a, n.value) in s.dir.held || exists m :: Stale(s.dir, a, m))
  {
    hide Core, Spellable, FreeReceiver, Run, DoBuy, Stale, Top;
    SaleExact(s, x.who, Top(x.call.name), x.call.recipient);
    OneStep(s, x);
    var n := Top(x.call.name).value;
    var a := s.claims.listings[n].seller;
    RefusedForever(Step(s, x), a);
    assert (a, n) in s.dir.held ==> Stale(Step(s, x).dir, a, n);
  }

  /** An account that releases its name is not refused for good. */
  lemma ReleaserNotRefused(s: State, a: AccountId)
    requires Core(s) && Spellable(s.dir) && RowsOk(s) && DoReleaseName(s, a).Ok?
    ensures exists xs :: FreeReceiver(Run(DoReleaseName(s, a).value, xs), a).Pass?
  {
    hide Core, Spellable, RowsOk, FreeReceiver, Run, DoReleaseName, Stale, HoldsActiveSubname;
    ReleaseFrees(s, a);
    DepartureExact(s, a, a);
    OneStep(s, Signed(a, ReleaseName));
    RefusedForever(DoReleaseName(s, a).value, a);
  }
}
