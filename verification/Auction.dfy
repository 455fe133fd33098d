/** The candle auction of pns-registrar/src/auction.rs, which the crate leaves out of its build today
    (pns-registrar/src/lib.rs:6). While an auction runs the winning bid is sampled, block by block; the sample that
    decides is drawn at random after the end. */
module Auction {
  import opened Types
  import opened Currency

  datatype Bid = Bid(bidder: AccountId, amount: nat)

  datatype AuctionStatus =
    | StartingPeriod
    | AuctionNotExist
    | EndingPeriod(sample: nat, subSample: nat)
    | VrfDelay(blocks: nat)

  /** A winning bid that was paid. */
  datatype Sale = Sale(node: Node, bid: Bid)

  type Winners = map<(Node, nat), Bid>

  type Rows = map<(Node, AccountId), nat>

  /** The constants of the pallet. The offset of the deciding sample is a remainder by the ending period, which must
      therefore be positive. */
  datatype Terms = Terms(endingPeriod: nat, sampleLength: nat, minimalPrice: nat, existential: nat,
                         official: AccountId)
  {
    function Step(): (n: nat)
      ensures n > 0
    {
      if sampleLength == 0 then 1 else sampleLength
    }

    /** The latest sample taken `elapsed` blocks after the start. */
    function Latest(elapsed: nat): nat
      requires endingPeriod > 0
    {
      (if elapsed < endingPeriod then elapsed else endingPeriod - 1) / Step()
    }

    /** The sample that a random number decides on. */
    function Drawn(raw: nat): nat
      requires endingPeriod > 0
    {
      (raw % endingPeriod) / Step()
    }
  }

  // What holds of the storage of one auction

  /** A snapshot exists for every sample up to the latest and for no other. */
  ghost predicate Complete(w: Winners, node: Node, latest: nat) {
    forall k: nat :: (node, k) in w <==> k <= latest
  }

  /** Bids only rise from one sample to the next. */
  ghost predicate Rising(w: Winners, node: Node) {
    forall j: nat, k: nat :: j <= k && (node, j) in w && (node, k) in w ==> w[(node, j)].amount <= w[(node, k)].amount
  }

  /** The bidder of every snapshot has at least the bid reserved. */
  ghost predicate Covered(w: Winners, rows: Rows, node: Node) {
    forall k: nat :: (node, k) in w ==>
      (node, w[(node, k)].bidder) in rows && rows[(node, w[(node, k)].bidder)] >= w[(node, k)].amount
  }

  /** Nobody has more reserved than the top bid. */
  ghost predicate Capped(w: Winners, rows: Rows, node: Node, latest: nat) {
    (node, latest) in w && forall b :: (node, b) in rows ==> rows[(node, b)] <= w[(node, latest)].amount
  }

  ghost predicate Running(t: Terms, w: Winners, rows: Rows, node: Node, start: nat, now: nat) {
    && t.endingPeriod > 0
    && start <= now
    && Complete(w, node, t.Latest(now - start))
    && Rising(w, node)
    && Covered(w, rows, node)
    && Capped(w, rows, node, t.Latest(now - start))
  }

  ghost predicate Idle(w: Winners, rows: Rows, node: Node) {
    && (forall k: nat :: (node, k) !in w)
    && (forall b :: (node, b) !in rows)
  }

  ghost predicate NodeOk(t: Terms, info: map<Node, nat>, w: Winners, rows: Rows, node: Node, now: nat) {
    if node in info then Running(t, w, rows, node, info[node], now) else Idle(w, rows, node)
  }

  // Reserves of an account, over all auctions

  ghost function RowsOf(rows: Rows, a: AccountId): Rows {
    map k | k in rows && k.1 == a :: rows[k]
  }

  /** What an account has reserved is the sum of its rows. */
  ghost predicate Backed(reserved: map<AccountId, nat>, rows: Rows) {
    forall a :: Amount(reserved, a) == Total(RowsOf(rows, a))
  }

  function Amount(m: map<AccountId, nat>, a: AccountId): nat {
    if a in m then m[a] else 0
  }

  function Row(rows: Rows, node: Node, a: AccountId): nat {
    if (node, a) in rows then rows[(node, a)] else 0
  }

  /** What an account paid for the names it won. */
  ghost function Spent(sales: seq<Sale>, a: AccountId): nat {
    if sales == [] then 0
    else
      var last := sales[|sales| - 1].bid;
      Spent(sales[..|sales| - 1], a) + if last.bidder == a then last.amount else 0
  }

  ghost function Earned(sales: seq<Sale>): nat {
    if sales == [] then 0 else Earned(sales[..|sales| - 1]) + sales[|sales| - 1].bid.amount
  }

  /** What the sales change in the currency of an account, free and reserved together. */
  ghost function Gain(t: Terms, sales: seq<Sale>, a: AccountId): int {
    (if a == t.official then Earned(sales) else 0) - Spent(sales, a)
  }

  lemma {:induction false} GainConcat(t: Terms, xs: seq<Sale>, ys: seq<Sale>, a: AccountId)
    ensures Gain(t, xs + ys, a) == Gain(t, xs, a) + Gain(t, ys, a)
    decreases |ys|
  {
    if ys == [] {
      assert xs + ys == xs;
    } else {
      var k := |ys| - 1;
      GainConcat(t, xs, ys[..k], a);
      assert (xs + ys)[..|xs| + k] == xs + ys[..k];
    }
  }

  lemma GainOne(t: Terms, sale: Sale, a: AccountId)
    ensures Gain(t, [], a) == 0
    ensures Gain(t, [sale], a) == (if a == t.official then sale.bid.amount else 0)
                                  - if a == sale.bid.bidder then sale.bid.amount else 0
  {
    assert [sale][..0] == [];
  }

  // How each change moves through the storage

  /** The latest sample moves by at most one from one block to the next. */
  lemma LatestMoves(t: Terms, elapsed: nat)
    requires t.endingPeriod > 0
    ensures t.Latest(elapsed) <= t.Latest(elapsed + 1) <= t.Latest(elapsed) + 1
    ensures t.Latest(0) == 0
  {
    var n := t.Step();
    if elapsed + 1 < t.endingPeriod {
      DivisionStep(elapsed, n);
    }
    assert 0 / n == 0;
  }

  lemma DivisionStep(a: nat, n: nat)
    requires n > 0
    ensures a / n <= (a + 1) / n <= a / n + 1
  {
    DivisionMonotone(a, a + 1, n);
    var q, q' := a / n, (a + 1) / n;
    assert a < n * (q + 1) && n * q' <= a + 1;
    assert n * (q + 2) == n * (q + 1) + n;
    if q' > q + 1 {
      ProductMonotone(n, q + 2, q');
    }
  }

  /** The drawn sample is one of those taken. */
  lemma DrawnWasTaken(t: Terms, raw: nat, elapsed: nat)
    requires t.endingPeriod > 0 && elapsed + 1 >= t.endingPeriod
    ensures t.Drawn(raw) <= t.Latest(elapsed)
  {
    DivisionMonotone(raw % t.endingPeriod, t.endingPeriod - 1, t.Step());
  }

  /** Block `i` after the start lies in sample `k`: samples are consecutive stretches of the sample length, or of one
      block where that is zero. */
  ghost predicate InSample(t: Terms, i: nat, k: nat) {
    if t.sampleLength == 0 then i == k else k * t.sampleLength <= i < (k + 1) * t.sampleLength
  }

  lemma QuotientExact(i: nat, n: nat, k: nat)
    requires n > 0
    ensures i / n == k <==> k * n <= i < (k + 1) * n
  {
    var q := i / n;
    assert q * n <= i < (q + 1) * n by {
      assert i == n * q + i % n;
    }
    if k < q {
      assert (k + 1) * n <= q * n by { ProductMonotone(n, k + 1, q); }
    } else if k > q {
      assert (q + 1) * n <= k * n by { ProductMonotone(n, q + 1, k); }
    }
  }

  /** Every block lies in exactly one sample: the quotient by the step. */
  lemma SampleIsQuotient(t: Terms, i: nat, k: nat)
    ensures InSample(t, i, k) <==> i / t.Step() == k
  {
    QuotientExact(i, t.Step(), k);
  }

  /** A random number draws the sample that its remainder by the ending period lies in. */
  lemma DrawnExact(t: Terms, raw: nat, k: nat)
    requires t.endingPeriod > 0
    ensures t.Drawn(raw) == k <==> InSample(t, raw % t.endingPeriod, k)
    ensures t.Drawn(raw) * t.Step() <= raw % t.endingPeriod < (t.Drawn(raw) + 1) * t.Step()
  {
    SampleIsQuotient(t, raw % t.endingPeriod, k);
  }

  /** Until the ending period is over, the latest sample is the one that the present block lies in; then it is the
      last. */
  lemma LatestExact(t: Terms, elapsed: nat, k: nat)
    requires t.endingPeriod > 0
    ensures t.Latest(elapsed) == k <==> InSample(t, if elapsed < t.endingPeriod then elapsed else t.endingPeriod - 1, k)
  {
    SampleIsQuotient(t, if elapsed < t.endingPeriod then elapsed else t.endingPeriod - 1, k);
  }

  /** Every sample of the ending period can decide, and no other. */
  lemma DrawnOnto(t: Terms, k: nat)
    requires t.endingPeriod > 0
    ensures (exists raw :: t.Drawn(raw) == k) <==> k <= t.Latest(t.endingPeriod - 1)
  {
    var n, last := t.Step(), t.endingPeriod - 1;
    if k <= t.Latest(last) {
      ProductMonotone(n, k, last / n);
      SmallRemainder(k * n, t.endingPeriod);
      SampleIsQuotient(t, k * n, k);
      assert InSample(t, k * n, k);
      assert t.Drawn(k * n) == k;
    }
    if raw :| t.Drawn(raw) == k {
      DrawnWasTaken(t, raw, last);
    }
  }

  lemma SmallRemainder(a: nat, n: nat)
    requires a < n
    ensures a % n == a
  {
  }

  /** Two random numbers draw the same sample exactly when their remainders lie in the same sample. */
  lemma SameDraw(t: Terms, raw: nat, raw': nat)
    requires t.endingPeriod > 0
    ensures t.Drawn(raw) == t.Drawn(raw') <==>
              exists k :: InSample(t, raw % t.endingPeriod, k) && InSample(t, raw' % t.endingPeriod, k)
  {
    DrawnExact(t, raw, t.Drawn(raw));
    DrawnExact(t, raw', t.Drawn(raw));
    if k :| InSample(t, raw % t.endingPeriod, k) && InSample(t, raw' % t.endingPeriod, k) {
      DrawnExact(t, raw, k);
      DrawnExact(t, raw', k);
    }
  }

  lemma DivisionMonotone(a: nat, b: nat, n: nat)
    requires a <= b && n > 0
    ensures a / n <= b / n
  {
    assert n * (a / n) <= a && b < n * (b / n + 1);
    if a / n > b / n {
      ProductMonotone(n, b / n + 1, a / n);
    }
  }

  lemma ProductMonotone(n: nat, x: nat, y: nat)
    requires x <= y
    ensures n * x <= n * y
  {
  }

  lemma RowRaised(rows: Rows, node: Node, a: AccountId, v: nat)
    ensures Total(RowsOf(rows[(node, a) := v], a)) == Total(RowsOf(rows, a)) - Row(rows, node, a) + v
    ensures forall b :: b != a ==> RowsOf(rows[(node, a) := v], b) == RowsOf(rows, b)
  {
    assert RowsOf(rows[(node, a) := v], a) == RowsOf(rows, a)[(node, a) := v];
    TotalUpdate(RowsOf(rows, a), (node, a), v);
  }

  /** A reserve raised together with its row stays backed. */
  lemma RowBacked(reserved: map<AccountId, nat>, reserved': map<AccountId, nat>, rows: Rows, node: Node, a: AccountId,
                  v: nat)
    requires Backed(reserved, rows) && Row(rows, node, a) <= v
    requires forall b :: Amount(reserved', b) == Amount(reserved, b) + if b == a then v - Row(rows, node, a) else 0
    ensures Backed(reserved', rows[(node, a) := v])
  {
    RowRaised(rows, node, a, v);
  }

  lemma RowDropped(rows: Rows, node: Node, a: AccountId)
    requires (node, a) in rows
    ensures Total(RowsOf(rows - {(node, a)}, a)) == Total(RowsOf(rows, a)) - rows[(node, a)]
    ensures forall b :: b != a ==> RowsOf(rows - {(node, a)}, b) == RowsOf(rows, b)
    ensures rows[(node, a)] <= Total(RowsOf(rows, a))
  {
    assert RowsOf(rows - {(node, a)}, a) == RowsOf(rows, a) - {(node, a)};
    TotalRemove(RowsOf(rows, a), (node, a));
  }

  /** A block later a running auction needs a snapshot for its latest sample; the one before it will do. */
  lemma Sampled(t: Terms, w: Winners, rows: Rows, node: Node, start: nat, now: nat)
    requires Running(t, w, rows, node, start, now)
    ensures now + 1 - start >= t.endingPeriod ==> (node, t.Latest(now + 1 - start)) in w
    ensures var latest := t.Latest(now + 1 - start);
            if (node, latest) in w then Running(t, w, rows, node, start, now + 1)
            else latest > 0 && (node, latest - 1) in w
                 && Running(t, w[(node, latest) := w[(node, latest - 1)]], rows, node, start, now + 1)
  {
    LatestMoves(t, now - start);
  }

  /** A higher bid replaces the latest snapshot, once the bidder's row covers it. */
  lemma Raised(t: Terms, w: Winners, rows: Rows, node: Node, start: nat, now: nat, bid: Bid)
    requires Running(t, w, rows, node, start, now)
    requires bid.amount > w[(node, t.Latest(now - start))].amount
    ensures Running(t, w[(node, t.Latest(now - start)) := bid], rows[(node, bid.bidder) := bid.amount], node, start, now)
  {
  }

  lemma Opened(t: Terms, w: Winners, rows: Rows, node: Node, now: nat, bid: Bid)
    requires Idle(w, rows, node) && t.endingPeriod > 0
    ensures Running(t, w[(node, 0) := bid], rows[(node, bid.bidder) := bid.amount], node, now, now)
  {
    LatestMoves(t, 0);
  }

  function OtherRows(rows: Rows, node: Node): Rows {
    map k | k in rows && k.0 != node :: rows[k]
  }

  function OtherWinners(w: Winners, node: Node): Winners {
    map k | k in w && k.0 != node :: w[k]
  }

  lemma PayKeepsTotal(m: Money, existential: nat, from: AccountId, to: AccountId, value: nat)
    requires Pay(m, existential, from, to, value).Ok?
    ensures Total(Pay(m, existential, from, to, value).value.free) == Total(m.free)
  {
    if value != 0 && from != to {
      TotalUpdate(m.free, from, Free(m, from) - value);
      TotalUpdate(m.free[from := Free(m, from) - value], to, Free(m, to) + value);
    }
  }

  /** The same storage, as far as one node can see. */
  ghost predicate SameAt(info: map<Node, nat>, w: Winners, rows: Rows, info': map<Node, nat>, w': Winners, rows': Rows,
                         m: Node)
  {
    && (m in info <==> m in info') && (m in info ==> info[m] == info'[m])
    && (forall k: nat :: (m, k) in w <==> (m, k) in w') && (forall k: nat :: (m, k) in w ==> w[(m, k)] == w'[(m, k)])
    && (forall b :: (m, b) in rows <==> (m, b) in rows')
    && (forall b :: (m, b) in rows ==> rows[(m, b)] == rows'[(m, b)])
  }

  lemma Elsewhere(t: Terms, info: map<Node, nat>, w: Winners, rows: Rows, info': map<Node, nat>, w': Winners,
                  rows': Rows, m: Node, now: nat)
    requires SameAt(info, w, rows, info', w', rows', m) && NodeOk(t, info, w, rows, m, now)
    ensures NodeOk(t, info', w', rows', m, now)
  {
  }

  lemma SameTransitive(info: map<Node, nat>, w: Winners, rows: Rows, info1: map<Node, nat>, w1: Winners, rows1: Rows,
                       info2: map<Node, nat>, w2: Winners, rows2: Rows, m: Node)
    requires SameAt(info, w, rows, info1, w1, rows1, m) && SameAt(info1, w1, rows1, info2, w2, rows2, m)
    ensures SameAt(info, w, rows, info2, w2, rows2, m)
  {
  }

  /** An auction that goes on keeps its start, its reserves and the snapshots it has. */
  ghost predicate Kept(info: map<Node, nat>, w: Winners, rows: Rows, info': map<Node, nat>, w': Winners, rows': Rows,
                       m: Node)
  {
    m in info' ==>
      && m in info && info'[m] == info[m]
      && (forall a :: Row(rows', m, a) == Row(rows, m, a))
      && (forall k: nat :: (m, k) in w ==> (m, k) in w' && w'[(m, k)] == w[(m, k)])
      && (forall k: nat :: (m, k) in w' && (m, k) !in w ==> k > 0 && (m, k - 1) in w && w'[(m, k)] == w[(m, k - 1)])
  }

  lemma KeptSame(info: map<Node, nat>, w: Winners, rows: Rows, info1: map<Node, nat>, w1: Winners, rows1: Rows,
                 info2: map<Node, nat>, w2: Winners, rows2: Rows, m: Node)
    requires Kept(info, w, rows, info1, w1, rows1, m) && SameAt(info1, w1, rows1, info2, w2, rows2, m)
    ensures Kept(info, w, rows, info2, w2, rows2, m)
  {
    if m in info2 {
      forall a ensures Row(rows2, m, a) == Row(rows, m, a) {
        assert Row(rows1, m, a) == Row(rows, m, a);
        assert (m, a) in rows1 <==> (m, a) in rows2;
      }
    }
  }

  /** Over, and decided by randomness that was not known before the end. */
  predicate IsDecided(t: Terms, info: map<Node, nat>, node: Node, now: nat, knownSince: nat) {
    node in info && info[node] + t.endingPeriod <= now && info[node] + t.endingPeriod <= knownSince
  }

  /** What a node looks like after its turn at the start of block `now`. */
  ghost predicate Visited(t: Terms, info: map<Node, nat>, w: Winners, rows: Rows, info': map<Node, nat>, w': Winners,
                          rows': Rows, m: Node, now: nat, knownSince: nat)
  {
    && NodeOk(t, info', w', rows', m, now)
    && (m in info' <==> m in info && !IsDecided(t, info, m, now, knownSince))
    && Kept(info, w, rows, info', w', rows', m)
  }

  /** What one node sells at the start of block `now`: nothing unless it is decided, and then the drawn bid to its
      bidder, unless the payment is refused to keep an account alive. */
  ghost predicate SoldAt(t: Terms, info: map<Node, nat>, w: Winners, node: Node, now: nat, raw: nat, knownSince: nat,
                         sales: seq<Sale>)
    requires t.endingPeriod > 0
  {
    && (sales != [] ==>
          && IsDecided(t, info, node, now, knownSince) && (node, t.Drawn(raw)) in w
          && sales == [Sale(node, w[(node, t.Drawn(raw))])])
    && (IsDecided(t, info, node, now, knownSince) && t.existential == 0 ==> sales != [])
  }

  /** A bid can be paid out of the given balances without either account falling below the existential deposit. */
  ghost predicate Payable(t: Terms, bid: Bid, bidderFree: int, officialFree: int) {
    || bid.amount == 0 || bid.bidder == t.official
    || (bidderFree >= bid.amount + t.existential && officialFree + bid.amount >= t.existential)
  }

  /** The winner, with its reserve back, can pay. */
  ghost predicate CanPay(t: Terms, money: Money, rows: Rows, node: Node, winner: Bid) {
    Payable(t, winner, Free(money, winner.bidder) + Row(rows, node, winner.bidder),
            Free(money, t.official) + Row(rows, node, t.official))
  }

  /** How one node settles, in balances. */
  ghost predicate SettledAt(t: Terms, info: map<Node, nat>, w: Winners, rows: Rows, node: Node, now: nat, raw: nat,
                            knownSince: nat, money: Money, money': Money, sales: seq<Sale>)
    requires t.endingPeriod > 0
  {
    if IsDecided(t, info, node, now, knownSince) then
      && (node, t.Drawn(raw)) in w
      && sales == (if CanPay(t, money, rows, node, w[(node, t.Drawn(raw))])
                   then [Sale(node, w[(node, t.Drawn(raw))])] else [])
      && forall a :: Free(money', a) == Free(money, a) + Row(rows, node, a) + Gain(t, sales, a)
    else
      sales == [] && money' == money
  }

  // Settling several auctions, one after the other

  /** What an account gets back from the auctions in `order`. */
  ghost function Released(rows: Rows, order: seq<Node>, a: AccountId): nat {
    if order == [] then 0 else Released(rows, order[..|order| - 1], a) + Row(rows, order[|order| - 1], a)
  }

  ghost function Balance(t: Terms, money: Money, rows: Rows, order: seq<Node>, sales: seq<Sale>, a: AccountId): int {
    Free(money, a) + Released(rows, order, a) + Gain(t, sales, a)
  }

  /** The sales of the auctions in `order`: each is paid if and only if it can be, out of what the winner and the
      official account have after the auctions before it and with the reserves of this one back. */
  ghost function Settled(t: Terms, money: Money, rows: Rows, w: Winners, drawn: nat, order: seq<Node>): seq<Sale> {
    if order == [] then []
    else
      var k := |order| - 1;
      var before := Settled(t, money, rows, w, drawn, order[..k]);
      if (order[k], drawn) in w
         && var bid := w[(order[k], drawn)];
            Payable(t, bid, Balance(t, money, rows, order, before, bid.bidder),
                    Balance(t, money, rows, order, before, t.official))
      then before + [Sale(order[k], w[(order[k], drawn)])]
      else before
  }

  /** `order` lists the decided auctions, each once. */
  ghost predicate Agenda(t: Terms, info: map<Node, nat>, now: nat, knownSince: nat, todo: set<Node>, order: seq<Node>) {
    && (forall m :: m in order <==> IsDecided(t, info, m, now, knownSince) && m !in todo)
    && (forall i, j :: 0 <= i < j < |order| ==> order[i] != order[j])
  }

  ghost predicate InBalance(t: Terms, money: Money, rows: Rows, order: seq<Node>, sales: seq<Sale>, money': Money) {
    forall a :: Free(money', a) == Balance(t, money, rows, order, sales, a)
  }

  lemma OneMoreSettled(t: Terms, info: map<Node, nat>, w: Winners, rows: Rows, node: Node, now: nat, raw: nat,
                       knownSince: nat, money: Money, money1: Money, money2: Money, order: seq<Node>, sales: seq<Sale>,
                       more: seq<Sale>)
    requires t.endingPeriod > 0 && SettledAt(t, info, w, rows, node, now, raw, knownSince, money1, money2, more)
    requires sales == Settled(t, money, rows, w, t.Drawn(raw), order) && InBalance(t, money, rows, order, sales, money1)
    ensures var order' := if IsDecided(t, info, node, now, knownSince) then order + [node] else order;
            && sales + more == Settled(t, money, rows, w, t.Drawn(raw), order')
            && InBalance(t, money, rows, order', sales + more, money2)
  {
    hide Gain, Payable;
    if IsDecided(t, info, node, now, knownSince) {
      var order' := order + [node];
      assert order'[..|order|] == order;
      forall a ensures Balance(t, money, rows, order', sales, a) == Free(money1, a) + Row(rows, node, a) {
      }
      forall a ensures Balance(t, money, rows, order', sales + more, a) == Free(money2, a) {
        GainConcat(t, sales, more, a);
      }
      assert more == [] ==> sales + more == sales;
    } else {
      assert sales + more == sales;
    }
  }

  lemma OneMoreOnAgenda(t: Terms, info: map<Node, nat>, now: nat, knownSince: nat, todo: set<Node>, order: seq<Node>,
                        node: Node)
    requires Agenda(t, info, now, knownSince, todo, order) && node in todo
    ensures Agenda(t, info, now, knownSince, todo - {node},
                   if IsDecided(t, info, node, now, knownSince) then order + [node] else order)
  {
    assert node !in order;
    var order' := order + [node];
    assert forall m :: m in order' <==> m in order || m == node;
  }

  /** Every sale is the drawn bid of a decided auction. */
  ghost predicate AllDrawn(t: Terms, info: map<Node, nat>, w: Winners, now: nat, raw: nat, knownSince: nat,
                           sales: seq<Sale>)
    requires t.endingPeriod > 0
  {
    forall x :: x in sales ==>
      IsDecided(t, info, x.node, now, knownSince) && (x.node, t.Drawn(raw)) in w && x.bid == w[(x.node, t.Drawn(raw))]
  }

  ghost function SoldNodes(sales: seq<Sale>): set<Node> {
    set x | x in sales :: x.node
  }

  /** No auction is sold twice. */
  ghost predicate SoldOnce(sales: seq<Sale>) {
    forall i, j :: 0 <= i < j < |sales| ==> sales[i].node != sales[j].node
  }

  /** One more node is visited. */
  lemma OneMoreSold(t: Terms, info: map<Node, nat>, w: Winners, now: nat, raw: nat, knownSince: nat, sales: seq<Sale>,
                    node: Node, more: seq<Sale>)
    requires t.endingPeriod > 0
    requires AllDrawn(t, info, w, now, raw, knownSince, sales) && SoldOnce(sales) && node !in SoldNodes(sales)
    requires SoldAt(t, info, w, node, now, raw, knownSince, more)
    ensures AllDrawn(t, info, w, now, raw, knownSince, sales + more) && SoldOnce(sales + more)
    ensures SoldNodes(sales + more) == SoldNodes(sales) + if more != [] then {node} else {}
  {
    assert forall i :: 0 <= i < |sales| ==> sales[i].node in SoldNodes(sales);
    if more != [] {
      var last := more[0];
      assert last in sales + more;
      forall n | n in SoldNodes(sales) + {node} ensures n in SoldNodes(sales + more) {
        if n != node {
          var x :| x in sales && x.node == n;
          assert x in sales + more;
        }
      }
    } else {
      assert sales + more == sales;
    }
  }

  /** A decided auction had all its samples one block before. */
  lemma DrawnBefore(t: Terms, info: map<Node, nat>, w: Winners, rows: Rows, node: Node, before: nat, raw: nat,
                    knownSince: nat)
    requires NodeOk(t, info, w, rows, node, before) && IsDecided(t, info, node, before + 1, knownSince)
    ensures t.endingPeriod > 0 && (node, t.Drawn(raw)) in w
  {
    DrawnWasTaken(t, raw, before - info[node]);
  }

  /** The drawn bid of a decided auction exists and is covered, and nothing is left once the auction is gone. */
  lemma DrawnCovered(t: Terms, info: map<Node, nat>, w: Winners, rows: Rows, node: Node, now: nat, raw: nat,
                     knownSince: nat)
    requires NodeOk(t, info, w, rows, node, now) && IsDecided(t, info, node, now, knownSince)
    ensures t.endingPeriod > 0 && (node, t.Drawn(raw)) in w
    ensures Row(rows, node, w[(node, t.Drawn(raw))].bidder) >= w[(node, t.Drawn(raw))].amount
    ensures NodeOk(t, info - {node}, OtherWinners(w, node), OtherRows(rows, node), node, now)
  {
    DrawnWasTaken(t, raw, now - info[node]);
  }

  lemma VisitedSame(t: Terms, info: map<Node, nat>, w: Winners, rows: Rows, info1: map<Node, nat>, w1: Winners,
                    rows1: Rows, info2: map<Node, nat>, w2: Winners, rows2: Rows, m: Node, now: nat, knownSince: nat)
    requires Visited(t, info, w, rows, info1, w1, rows1, m, now, knownSince)
    requires SameAt(info1, w1, rows1, info2, w2, rows2, m)
    ensures Visited(t, info, w, rows, info2, w2, rows2, m, now, knownSince)
  {
    hide Kept;
    Elsewhere(t, info1, w1, rows1, info2, w2, rows2, m, now);
    KeptSame(info, w, rows, info1, w1, rows1, info2, w2, rows2, m);
  }

  lemma SameVisited(t: Terms, info: map<Node, nat>, w: Winners, rows: Rows, info1: map<Node, nat>, w1: Winners,
                    rows1: Rows, info2: map<Node, nat>, w2: Winners, rows2: Rows, m: Node, now: nat, knownSince: nat)
    requires SameAt(info, w, rows, info1, w1, rows1, m)
    requires Visited(t, info1, w1, rows1, info2, w2, rows2, m, now, knownSince)
    ensures Visited(t, info, w, rows, info2, w2, rows2, m, now, knownSince)
  {
    hide NodeOk;
    if m in info2 {
      forall a ensures Row(rows2, m, a) == Row(rows, m, a) {
        assert Row(rows2, m, a) == Row(rows1, m, a);
        assert (m, a) in rows1 <==> (m, a) in rows;
      }
    }
  }

  // Whole runs

  /** What the auctions, the reserves, the balances and the registry are at one time. */
  datatype Book = Book(block: nat, info: map<Node, nat>, winning: Winners, rows: Rows, money: Money,
                       registered: set<Node>)

  datatype Input =
    | PlaceBid(bidder: AccountId, node: Node, amount: nat)
    | BeginBlock(raw: nat, knownSince: nat, mintable: set<Node>)

  /** The auctions settled by one input, in order, and the sales among them. */
  datatype Round = Round(order: seq<Node>, sales: seq<Sale>)

  /** The sample that a bid on the node belongs to. */
  ghost function SampleAt(t: Terms, b: Book, node: Node): nat
    requires t.endingPeriod > 0
  {
    if node in b.info && b.info[node] <= b.block then t.Latest(b.block - b.info[node]) else 0
  }

  /** The name is free, the auction is not over, the bid beats the latest snapshot, or the minimal price where there is no
      auction yet, and the bidder can reserve what is missing. */
  ghost predicate BidTaken(t: Terms, b: Book, bid: Bid, node: Node)
    requires t.endingPeriod > 0
  {
    && node !in b.registered
    && (if node in b.info then
          && b.block < b.info[node] + t.endingPeriod
          && (node, SampleAt(t, b, node)) in b.winning
          && bid.amount > b.winning[(node, SampleAt(t, b, node))].amount
        else bid.amount > t.minimalPrice)
    && Free(b.money, bid.bidder) >= bid.amount - Row(b.rows, node, bid.bidder) + t.existential
  }

  /** A bid that is taken becomes the snapshot of its sample and is reserved in full; any other changes nothing. */
  ghost predicate BidPlaced(t: Terms, b: Book, b': Book, bid: Bid, node: Node)
    requires t.endingPeriod > 0
  {
    if BidTaken(t, b, bid, node) then
      && b'.block == b.block && b'.registered == b.registered
      && b'.info == (if node in b.info then b.info else b.info[node := b.block])
      && b'.winning == b.winning[(node, SampleAt(t, b, node)) := bid]
      && b'.rows == b.rows[(node, bid.bidder) := bid.amount]
      && forall a :: Free(b'.money, a) == Free(b.money, a)
                                          - if a == bid.bidder then bid.amount - Row(b.rows, node, a) else 0
    else
      b' == b
  }

  /** A block samples every running auction and settles the decided ones in the order of the round, for the bids drawn
      from the snapshots of `b`. */
  ghost predicate BlockBegun(t: Terms, b: Book, b': Book, raw: nat, knownSince: nat, mintable: set<Node>, round: Round)
    requires t.endingPeriod > 0
  {
    && b'.block == b.block + 1
    && (forall node :: Visited(t, b.info, b.winning, b.rows, b'.info, b'.winning, b'.rows, node, b'.block, knownSince))
    && Agenda(t, b.info, b'.block, knownSince, {}, round.order)
    && round.sales == Settled(t, b.money, b.rows, b.winning, t.Drawn(raw), round.order)
    && AllDrawn(t, b.info, b.winning, b'.block, raw, knownSince, round.sales)
    && InBalance(t, b.money, b.rows, round.order, round.sales, b'.money)
    && b'.registered == b.registered + SoldNodes(round.sales) * mintable
  }

  ghost predicate Follows(t: Terms, b: Book, input: Input, b': Book, round: Round)
    requires t.endingPeriod > 0
  {
    match input
    case PlaceBid(bidder, node, amount) =>
      round == Round([], []) && BidPlaced(t, b, b', Bid(bidder, amount), node)
    case BeginBlock(raw, knownSince, mintable) => BlockBegun(t, b, b', raw, knownSince, mintable, round)
  }

  ghost function AllSales(rounds: seq<Round>): seq<Sale> {
    if rounds == [] then [] else AllSales(rounds[..|rounds| - 1]) + rounds[|rounds| - 1].sales
  }

  // The pallet

  class Pallet {
    const terms: Terms
    var block: nat
    var auctionInfo: map<Node, nat>
    var ongoingAuctions: set<Node>
    var reservedAmounts: Rows
    var winning: Winners
    var money: Money
    var reserved: map<AccountId, nat>
    var registered: set<Node>
    var expirySet: set<Node>

    /** Every auction's snapshots and reserves are in order at block `now`. */
    ghost predicate InOrder(now: nat)
      reads `auctionInfo, `winning, `reservedAmounts
    {
      forall node :: NodeOk(terms, auctionInfo, winning, reservedAmounts, node, now)
    }

    /** The storage as a value. */
    function Page(): Book
      reads this
    {
      Book(block, auctionInfo, winning, reservedAmounts, money, registered)
    }

    ghost predicate Valid()
      reads this
    {
      && terms.endingPeriod > 0
      && auctionInfo.Keys <= ongoingAuctions
      && InOrder(block)
      && Backed(reserved, reservedAmounts)
    }

    /** All the currency there is, free and reserved. */
    ghost function Wealth(): nat
      reads `money, `reserved
    {
      Total(money.free) + Total(reserved)
    }

    /** All the currency of one account. */
    ghost function Worth(a: AccountId): nat
      reads `money, `reserved
    {
      Free(money, a) + Amount(reserved, a)
    }

    constructor (terms: Terms, block: nat, money: Money, registered: set<Node>)
      requires terms.endingPeriod > 0
      ensures Valid() && this.terms == terms && Page() == Book(block, map[], map[], map[], money, registered)
    {
      this.terms, this.block := terms, block;
      auctionInfo, ongoingAuctions, reservedAmounts, winning := map[], {}, map[], map[];
      this.money, reserved, this.registered, expirySet := money, map[], registered, {};
      new;
      forall a ensures RowsOf(reservedAmounts, a) == map[] {
      }
    }

    function Status(now: nat, node: Node): AuctionStatus
      reads this
    {
      if node !in auctionInfo then AuctionNotExist
      else if now < auctionInfo[node] then StartingPeriod
      else
        var duration := now - auctionInfo[node];
        if duration < terms.endingPeriod then EndingPeriod(duration / terms.Step(), duration % terms.Step())
        else VrfDelay(duration - terms.endingPeriod)
    }

    /** `ReservableCurrency::reserve`. */
    method Reserve(who: AccountId, value: nat) returns (r: Result<()>)
      modifies `money, `reserved
      ensures match r
              case Ok(_) =>
                && (value == 0 || Free(old(money), who) >= value + terms.existential)
                && money == old(money).(free := money.free)
                && (forall a :: Free(money, a) == Free(old(money), a) - if a == who then value else 0)
                && (forall a :: Amount(reserved, a) == Amount(old(reserved), a) + if a == who then value else 0)
                && Wealth() == old(Wealth())
              case Err(_) =>
                && value > 0 && Free(money, who) < value + terms.existential
                && money == old(money) && reserved == old(reserved)
    {
      if value == 0 {
        return Ok(());
      }
      :- Ensure(Free(money, who) >= value + terms.existential, CurrencyError);
      TotalUpdate(money.free, who, Free(money, who) - value);
      TotalUpdate(reserved, who, Amount(reserved, who) + value);
      money := money.(free := money.free[who := Free(money, who) - value]);
      reserved := reserved[who := Amount(reserved, who) + value];
      return Ok(());
    }

    /** `ReservableCurrency::unreserve`: as much of `value` as there is. */
    method Unreserve(who: AccountId, value: nat)
      modifies `money, `reserved
      ensures var released := if value <= Amount(old(reserved), who) then value else Amount(old(reserved), who);
              && money == old(money).(free := money.free)
              && (forall a :: Free(money, a) == Free(old(money), a) + if a == who then released else 0)
              && (forall a :: Amount(reserved, a) == Amount(old(reserved), a) - if a == who then released else 0)
              && Wealth() == old(Wealth())
    {
      var released := if value <= Amount(reserved, who) then value else Amount(reserved, who);
      TotalUpdate(money.free, who, Free(money, who) + released);
      TotalUpdate(reserved, who, Amount(reserved, who) - released);
      money := money.(free := money.free[who := Free(money, who) + released]);
      reserved := reserved[who := Amount(reserved, who) - released];
    }

    /** Where an auction stands: the sample of the ending period and the place in it, or the blocks since its end. */
    lemma StatusExact(now: nat, node: Node)
      ensures Status(now, node).AuctionNotExist? <==> node !in auctionInfo
      ensures Status(now, node).StartingPeriod? <==> node in auctionInfo && now < auctionInfo[node]
      ensures Status(now, node).EndingPeriod? <==>
                node in auctionInfo && auctionInfo[node] <= now < auctionInfo[node] + terms.endingPeriod
      ensures Status(now, node).EndingPeriod? ==>
                var k, j := Status(now, node).sample, Status(now, node).subSample;
                && InSample(terms, now - auctionInfo[node], k)
                && auctionInfo[node] + k * terms.Step() + j == now && j < terms.Step()
      ensures Status(now, node).VrfDelay? ==>
                node in auctionInfo && now == auctionInfo[node] + terms.endingPeriod + Status(now, node).blocks
    {
      if Status(now, node).EndingPeriod? {
        SampleIsQuotient(terms, now - auctionInfo[node], Status(now, node).sample);
      }
    }

    function CurrentWinning(node: Node, offset: nat): Option<Bid>
      reads this
    {
      if (node, offset) in winning then Some(winning[(node, offset)])
      else if offset > 0 && (node, offset - 1) in winning then Some(winning[(node, offset - 1)])
      else None
    }

    /** The sample that a bid on the node belongs to now. */
    ghost function Sample(node: Node): nat
      reads this
      requires terms.endingPeriod > 0
    {
      if node in auctionInfo && auctionInfo[node] <= block then terms.Latest(block - auctionInfo[node]) else 0
    }

    function BidChecks(node: Node, amount: nat): Check
      reads this
    {
      if node in registered then Fail(NameHasRegistered)
      else if Status(block, node).VrfDelay? then Fail(AuctionEnded)
      else Ensure(Status(block, node).AuctionNotExist? ==> amount > terms.minimalPrice, BidNotEnough)
    }

    /** In every valid state the bid to beat is the latest snapshot, and no bidder has more than it reserved. */
    lemma BidToBeat(node: Node, bidder: AccountId, amount: nat)
      requires Valid()
      ensures BidChecks(node, amount).Fail? <==>
                || node in registered
                || Status(block, node).VrfDelay?
                || (node !in auctionInfo && amount <= terms.minimalPrice)
      ensures BidChecks(node, amount).Pass? ==>
                Status(block, node) == if node in auctionInfo && auctionInfo[node] <= block
                                       then EndingPeriod(Sample(node), (block - auctionInfo[node]) % terms.Step())
                                       else AuctionNotExist
      ensures node in auctionInfo ==> auctionInfo[node] <= block && (node, Sample(node)) in winning
      ensures CurrentWinning(node, Sample(node))
              == if node in auctionInfo then Some(winning[(node, Sample(node))]) else None
      ensures Row(reservedAmounts, node, bidder)
              <= if node in auctionInfo then winning[(node, Sample(node))].amount else 0
    {
      assert NodeOk(terms, auctionInfo, winning, reservedAmounts, node, block);
    }

    /** Whether a bid beats what is there. The first bid opens the auction. */
    ghost predicate Outbids(node: Node, amount: nat)
      reads this
      requires Valid()
    {
      node in auctionInfo ==> (node, Sample(node)) in winning && amount > winning[(node, Sample(node))].amount
    }

    /** Writes a winning bid whose reserve has been taken, opening the auction if there is none. */
    method Enter(node: Node, offset: nat, bid: Bid)
      requires terms.endingPeriod > 0 && auctionInfo.Keys <= ongoingAuctions && InOrder(block)
      requires Backed(reserved, reservedAmounts[(node, bid.bidder) := bid.amount])
      requires offset == Sample(node)
      requires node in auctionInfo ==> (node, offset) in winning && bid.amount > winning[(node, offset)].amount
      modifies `auctionInfo, `ongoingAuctions, `reservedAmounts, `winning
      ensures Valid()
      ensures auctionInfo == if node in old(auctionInfo) then old(auctionInfo) else old(auctionInfo)[node := block]
      ensures winning == old(winning)[(node, offset) := bid]
      ensures reservedAmounts == old(reservedAmounts)[(node, bid.bidder) := bid.amount]
    {
      assert NodeOk(terms, auctionInfo, winning, reservedAmounts, node, block);
      if node in auctionInfo {
        Raised(terms, winning, reservedAmounts, node, auctionInfo[node], block, bid);
      } else {
        Opened(terms, winning, reservedAmounts, node, block, bid);
        auctionInfo := auctionInfo[node := block];
        ongoingAuctions := ongoingAuctions + {node};
      }
      reservedAmounts := reservedAmounts[(node, bid.bidder) := bid.amount];
      winning := winning[(node, offset) := bid];
      forall m ensures NodeOk(terms, auctionInfo, winning, reservedAmounts, m, block) {
        if m != node {
          assert NodeOk(terms, old(auctionInfo), old(winning), old(reservedAmounts), m, block);
          Elsewhere(terms, old(auctionInfo), old(winning), old(reservedAmounts), auctionInfo, winning, reservedAmounts, m,
                    block);
        }
      }
    }

    /** `bid`, a transaction. A bid that beats the top one is reserved in full and becomes the snapshot of the
        current sample; any other bid changes nothing. */
    method HandleBid(bidder: AccountId, node: Node, amount: nat) returns (r: Result<()>)
      requires Valid()
      modifies `auctionInfo, `ongoingAuctions, `reservedAmounts, `winning, `money, `reserved
      ensures Valid() && Wealth() == old(Wealth()) && forall a :: Worth(a) == old(Worth(a))
      ensures r.Err? <==>
                || node in registered
                || old(Status(block, node)).VrfDelay?
                || (node !in old(auctionInfo) && amount <= terms.minimalPrice)
                || (old(Outbids(node, amount)) && amount > Row(old(reservedAmounts), node, bidder)
                    && Free(old(money), bidder)
                       < amount - Row(old(reservedAmounts), node, bidder) + terms.existential)
      ensures r.Ok? && old(Outbids(node, amount)) ==>
                && auctionInfo == (if node in old(auctionInfo) then old(auctionInfo) else old(auctionInfo)[node := block])
                && winning == old(winning)[(node, old(Sample(node))) := Bid(bidder, amount)]
                && reservedAmounts == old(reservedAmounts)[(node, bidder) := amount]
                && Row(old(reservedAmounts), node, bidder) <= amount
                && forall a :: Free(money, a) == Free(old(money), a)
                                                 - if a == bidder then amount - Row(old(reservedAmounts), node, a) else 0
      ensures r.Err? || !old(Outbids(node, amount)) ==>
                && auctionInfo == old(auctionInfo) && winning == old(winning) && money == old(money)
                && reservedAmounts == old(reservedAmounts) && reserved == old(reserved)
    {
      hide InOrder, Wealth, Backed, BidChecks, Status, CurrentWinning;
      BidToBeat(node, bidder, amount);
      :- BidChecks(node, amount);
      var status := Status(block, node);
      var offset := if status.EndingPeriod? then status.sample else 0;
      var current := CurrentWinning(node, offset);
      if current.Some? && amount <= current.value.amount {
        return Ok(());
      }
      var already := Row(reservedAmounts, node, bidder);
      if amount < already {
        assert false; // the top-up never underflows
      }
      var _ :- Reserve(bidder, amount - already);
      RowBacked(old(reserved), reserved, reservedAmounts, node, bidder, amount);
      Enter(node, offset, Bid(bidder, amount));
      return Ok(());
    }

    /** Gives one reserve back. */
    method ReleaseRow(node: Node, a: AccountId)
      requires Backed(reserved, reservedAmounts) && (node, a) in reservedAmounts
      modifies `reservedAmounts, `money, `reserved
      ensures reservedAmounts == old(reservedAmounts) - {(node, a)}
      ensures Backed(reserved, reservedAmounts) && Wealth() == old(Wealth())
      ensures forall b :: Worth(b) == old(Worth(b))
      ensures forall b :: Free(money, b) == Free(old(money), b) + if b == a then old(reservedAmounts)[(node, a)] else 0
    {
      hide Wealth;
      RowDropped(reservedAmounts, node, a);
      assert Amount(reserved, a) == Total(RowsOf(reservedAmounts, a));
      Unreserve(a, reservedAmounts[(node, a)]);
      reservedAmounts := reservedAmounts - {(node, a)};
    }

    /** Gives every reserve of an auction back. */
    method DrainReserves(node: Node)
      requires Backed(reserved, reservedAmounts)
      modifies `reservedAmounts, `money, `reserved
      ensures reservedAmounts == OtherRows(old(reservedAmounts), node)
      ensures Backed(reserved, reservedAmounts) && Wealth() == old(Wealth())
      ensures forall a :: Worth(a) == old(Worth(a))
      ensures forall a :: Free(money, a) == Free(old(money), a) + Row(old(reservedAmounts), node, a)
    {
      hide Wealth, Backed;
      var todo := set k | k in reservedAmounts && k.0 == node :: k.1;
      while todo != {}
        invariant forall k :: k in reservedAmounts <==> k in old(reservedAmounts) && (k.0 != node || k.1 in todo)
        invariant forall k :: k in reservedAmounts ==> reservedAmounts[k] == old(reservedAmounts)[k]
        invariant forall a :: a in todo ==> (node, a) in reservedAmounts
        invariant Backed(reserved, reservedAmounts) && Wealth() == old(Wealth())
        invariant forall a :: Worth(a) == old(Worth(a))
        invariant forall a :: Free(money, a) == Free(old(money), a)
                                                + if a in todo then 0 else Row(old(reservedAmounts), node, a)
        decreases todo
      {
        var a :| a in todo;
        ReleaseRow(node, a);
        todo := todo - {a};
      }
      assert reservedAmounts == OtherRows(old(reservedAmounts), node);
    }

    method CheckAuctionEnd(now: nat, node: Node, raw: nat, knownSince: nat) returns (winner: Option<Bid>)
      requires terms.endingPeriod > 0
      modifies `auctionInfo, `winning
      ensures if IsDecided(terms, old(auctionInfo), node, now, knownSince) then
                && auctionInfo == old(auctionInfo) - {node} && winning == OtherWinners(old(winning), node)
                && winner == Lookup(old(winning), (node, terms.Drawn(raw)))
              else
                auctionInfo == old(auctionInfo) && winning == old(winning) && winner == None
    {
      if !IsDecided(terms, auctionInfo, node, now, knownSince) {
        return None;
      }
      winner := Lookup(winning, (node, terms.Drawn(raw)));
      winning := OtherWinners(winning, node);
      auctionInfo := auctionInfo - {node};
    }

    /** Settles an auction. What the winner gets back covers the bid, so the payment is refused only to keep an
        account alive. The expiry of a paid name is set before the mint. Nothing is undone: after a refused payment
        the reserves stay released, and after a mint that the registry refuses the payment stands. */
    method ManageAuctionEnd(node: Node, winner: Bid, mintable: bool) returns (r: Result<()>, paid: bool)
      requires Backed(reserved, reservedAmounts)
      requires Row(reservedAmounts, node, winner.bidder) >= winner.amount
      modifies `reservedAmounts, `money, `reserved, `registered, `expirySet
      ensures reservedAmounts == OtherRows(old(reservedAmounts), node)
      ensures Backed(reserved, reservedAmounts) && Wealth() == old(Wealth())
      ensures forall a :: Worth(a) == old(Worth(a)) + if paid then Gain(terms, [Sale(node, winner)], a) else 0
      ensures forall a :: Free(money, a) == Free(old(money), a) + Row(old(reservedAmounts), node, a)
                                            + if paid then Gain(terms, [Sale(node, winner)], a) else 0
      ensures paid <==> CanPay(terms, old(money), old(reservedAmounts), node, winner)
      ensures r.Ok? <==> paid && mintable
      ensures registered == if r.Ok? then old(registered) + {node} else old(registered)
      ensures expirySet == if paid then old(expirySet) + {node} else old(expirySet)
    {
      forall a ensures Gain(terms, [Sale(node, winner)], a) == (if a == terms.official then winner.amount else 0)
                                                              - if a == winner.bidder then winner.amount else 0
      {
        GainOne(terms, Sale(node, winner), a);
      }
      hide Gain, Wealth, Backed;
      DrainReserves(node);
      var settled := Pay(money, terms.existential, winner.bidder, terms.official, winner.amount);
      if settled.Err? {
        return Err(settled.error), false;
      }
      TransferWorth(settled.value, winner);
      money := settled.value;
      expirySet := expirySet + {node};
      if !mintable {
        return Err(Occupied), true;
      }
      registered := registered + {node};
      return Ok(()), true;
    }

    lemma TransferWorth(m: Money, winner: Bid)
      requires Pay(money, terms.existential, winner.bidder, terms.official, winner.amount) == Ok(m)
      ensures Total(m.free) + Total(reserved) == Wealth()
      ensures forall a :: Free(m, a) == Free(money, a) + (if a == terms.official then winner.amount else 0)
                                        - if a == winner.bidder then winner.amount else 0
    {
      PayKeepsTotal(money, terms.existential, winner.bidder, terms.official, winner.amount);
    }

    /** The part of `on_initialize` that samples: the snapshot before the latest sample always exists. */
    method TakeSample(node: Node)
      requires block > 0 && NodeOk(terms, auctionInfo, winning, reservedAmounts, node, block - 1)
      modifies `winning
      ensures NodeOk(terms, auctionInfo, winning, reservedAmounts, node, block)
      ensures forall k :: k in old(winning) ==> k in winning && winning[k] == old(winning)[k]
      ensures forall k :: k in winning && k.0 != node ==> k in old(winning)
      ensures forall k: nat :: (node, k) in winning && (node, k) !in old(winning) ==>
                k > 0 && (node, k - 1) in old(winning) && winning[(node, k)] == old(winning)[(node, k - 1)]
    {
      hide Complete, Rising, Covered, Capped, Idle;
      var status := Status(block, node);
      if node in auctionInfo {
        Sampled(terms, winning, reservedAmounts, node, auctionInfo[node], block - 1);
      }
      if status.EndingPeriod? && (node, status.sample) !in winning {
        winning := winning[(node, status.sample) := winning[(node, status.sample - 1)]];
      }
    }

    /** The part of `on_initialize` that settles. The drawn sample always names a winner, whose reserve covers the
        bid. Every bidder gets its reserve back, and the winner pays the drawn bid to the official account. */
    method TrySettle(node: Node, raw: nat, knownSince: nat, mintable: bool) returns (sales: seq<Sale>)
      requires terms.endingPeriod > 0 && Backed(reserved, reservedAmounts)
      requires NodeOk(terms, auctionInfo, winning, reservedAmounts, node, block)
      modifies `auctionInfo, `winning, `reservedAmounts, `money, `reserved, `registered, `expirySet
      ensures NodeOk(terms, auctionInfo, winning, reservedAmounts, node, block)
      ensures Backed(reserved, reservedAmounts) && Wealth() == old(Wealth())
      ensures forall a :: Worth(a) == old(Worth(a)) + Gain(terms, sales, a)
      ensures registered == old(registered) + if sales != [] && mintable then {node} else {}
      ensures expirySet == old(expirySet) + if sales != [] then {node} else {}
      ensures if IsDecided(terms, old(auctionInfo), node, block, knownSince) then
                && auctionInfo == old(auctionInfo) - {node} && winning == OtherWinners(old(winning), node)
                && reservedAmounts == OtherRows(old(reservedAmounts), node)
                && (node, terms.Drawn(raw)) in old(winning)
                && var winner := old(winning)[(node, terms.Drawn(raw))];
                   && sales == (if CanPay(terms, old(money), old(reservedAmounts), node, winner)
                                then [Sale(node, winner)] else [])
                   && (terms.existential == 0 ==> sales != [])
                   && forall a :: Free(money, a) == Free(old(money), a) + Row(old(reservedAmounts), node, a)
                                                    + Gain(terms, sales, a)
              else
                && auctionInfo == old(auctionInfo) && winning == old(winning) && sales == []
                && reservedAmounts == old(reservedAmounts) && money == old(money) && reserved == old(reserved)
    {
      hide Backed, Wealth, Gain, NodeOk;
      forall a ensures Gain(terms, [], a) == 0 {
        GainOne(terms, Sale(node, Bid(a, 0)), a);
      }
      if IsDecided(terms, auctionInfo, node, block, knownSince) {
        DrawnCovered(terms, auctionInfo, winning, reservedAmounts, node, block, raw, knownSince);
      }
      var winner := CheckAuctionEnd(block, node, raw, knownSince);
      sales := [];
      if winner.Some? {
        var _, paid := ManageAuctionEnd(node, winner.value, mintable);
        if paid {
          sales := [Sale(node, winner.value)];
        }
      }
    }

    /** The turn of one node in `on_initialize`. */
    method Visit(node: Node, raw: nat, knownSince: nat, mintable: bool) returns (sales: seq<Sale>)
      requires block > 0 && terms.endingPeriod > 0 && Backed(reserved, reservedAmounts)
      requires NodeOk(terms, auctionInfo, winning, reservedAmounts, node, block - 1)
      modifies `auctionInfo, `winning, `reservedAmounts, `money, `reserved, `registered, `expirySet
      ensures Backed(reserved, reservedAmounts) && Wealth() == old(Wealth())
      ensures forall a :: Worth(a) == old(Worth(a)) + Gain(terms, sales, a)
      ensures registered == old(registered) + if sales != [] && mintable then {node} else {}
      ensures expirySet == old(expirySet) + if sales != [] then {node} else {}
      ensures auctionInfo.Keys <= old(auctionInfo).Keys
      ensures forall m :: m != node ==>
                SameAt(old(auctionInfo), old(winning), old(reservedAmounts), auctionInfo, winning, reservedAmounts, m)
      ensures Visited(terms, old(auctionInfo), old(winning), old(reservedAmounts), auctionInfo, winning, reservedAmounts,
                      node, block, knownSince)
      ensures SoldAt(terms, old(auctionInfo), old(winning), node, block, raw, knownSince, sales)
      ensures SettledAt(terms, old(auctionInfo), old(winning), old(reservedAmounts), node, block, raw, knownSince,
                        old(money), money, sales)
    {
      hide Backed, Wealth, NodeOk, Gain, CanPay;
      if IsDecided(terms, auctionInfo, node, block, knownSince) {
        DrawnBefore(terms, auctionInfo, winning, reservedAmounts, node, block - 1, raw, knownSince);
      }
      TakeSample(node);
      sales := TrySettle(node, raw, knownSince, mintable);
    }

    /** The start of a block: every running auction gets the snapshot of its sample, every decided one is settled
        and leaves no reserve behind, every other one goes on with its bids and reserves. Each decided auction is sold
        at most once, for the drawn bid to its bidder, and apart from these payments no account gains or loses. */
    method OnInitialize(raw: nat, knownSince: nat, mintable: set<Node>) returns (sales: seq<Sale>, order: seq<Node>)
      requires Valid()
      modifies this
      ensures Valid() && block == old(block) + 1 && Wealth() == old(Wealth())
      ensures forall node :: Visited(terms, old(auctionInfo), old(winning), old(reservedAmounts), auctionInfo, winning,
                                     reservedAmounts, node, block, knownSince)
      ensures AllDrawn(terms, old(auctionInfo), old(winning), block, raw, knownSince, sales) && SoldOnce(sales)
      ensures Agenda(terms, old(auctionInfo), block, knownSince, {}, order)
      ensures sales == Settled(terms, old(money), old(reservedAmounts), old(winning), terms.Drawn(raw), order)
      ensures InBalance(terms, old(money), old(reservedAmounts), order, sales, money)
      ensures terms.existential == 0 ==>
                forall node :: IsDecided(terms, old(auctionInfo), node, block, knownSince) ==> node in SoldNodes(sales)
      ensures forall a :: Worth(a) == old(Worth(a)) + Gain(terms, sales, a)
      ensures registered == old(registered) + SoldNodes(sales) * mintable
      ensures expirySet == old(expirySet) + SoldNodes(sales)
    {
      hide SameAt, Visited, NodeOk, Wealth, Gain, AllDrawn, SoldOnce, SoldAt, Backed, SettledAt, Settled, InBalance,
        Agenda;
      ghost var info, w, rows := auctionInfo, winning, reservedAmounts;
      block := block + 1;
      var todo := ongoingAuctions;
      sales, order := [], [];
      StartOfRound(terms, info, w, rows, todo, old(block), block, knownSince);
      StartOfSales(terms, info, w, rows, block, raw, knownSince, old(money), todo);
      while todo != {}
        invariant block == old(block) + 1 && auctionInfo.Keys <= ongoingAuctions && todo <= ongoingAuctions
        invariant Backed(reserved, reservedAmounts) && Wealth() == old(Wealth())
        invariant forall m :: m in todo ==> SameAt(info, w, rows, auctionInfo, winning, reservedAmounts, m)
        invariant forall m :: m !in todo ==>
                    Visited(terms, info, w, rows, auctionInfo, winning, reservedAmounts, m, block, knownSince)
        invariant AllDrawn(terms, info, w, block, raw, knownSince, sales) && SoldOnce(sales)
        invariant SoldNodes(sales) !! todo
        invariant Agenda(terms, info, block, knownSince, todo, order)
        invariant sales == Settled(terms, old(money), rows, w, terms.Drawn(raw), order)
        invariant InBalance(terms, old(money), rows, order, sales, money)
        invariant terms.existential == 0 ==>
                    forall m :: IsDecided(terms, info, m, block, knownSince) && m !in todo ==> m in SoldNodes(sales)
        invariant forall a :: Worth(a) == old(Worth(a)) + Gain(terms, sales, a)
        invariant registered == old(registered) + SoldNodes(sales) * mintable
        invariant expirySet == old(expirySet) + SoldNodes(sales)
        decreases todo
      {
        var node :| node in todo;
        Elsewhere(terms, info, w, rows, auctionInfo, winning, reservedAmounts, node, old(block));
        ghost var info1, w1, rows1, money1 := auctionInfo, winning, reservedAmounts, money;
        var decided := IsDecided(terms, auctionInfo, node, block, knownSince);
        var more := Visit(node, raw, knownSince, node in mintable);
        SoldSame(terms, info, w, rows, info1, w1, rows1, node, block, raw, knownSince, more);
        SettledSame(terms, info, w, rows, info1, w1, rows1, node, block, raw, knownSince, money1, money, more);
        OneMoreSettled(terms, info, w, rows, node, block, raw, knownSince, old(money), money1, money, order, sales, more);
        OneMoreOnAgenda(terms, info, block, knownSince, todo, order, node);
        todo := todo - {node};
        if decided {
          order := order + [node];
        }
        OneMoreSold(terms, info, w, block, raw, knownSince, sales, node, more);
        forall a ensures Gain(terms, sales + more, a) == Gain(terms, sales, a) + Gain(terms, more, a) {
          GainConcat(terms, sales, more, a);
        }
        sales := sales + more;
        forall m | m in todo ensures SameAt(info, w, rows, auctionInfo, winning, reservedAmounts, m) {
          SameTransitive(info, w, rows, info1, w1, rows1, auctionInfo, winning, reservedAmounts, m);
        }
        forall m | m !in todo
          ensures Visited(terms, info, w, rows, auctionInfo, winning, reservedAmounts, m, block, knownSince)
        {
          if m == node {
            SameVisited(terms, info, w, rows, info1, w1, rows1, auctionInfo, winning, reservedAmounts, m, block,
                        knownSince);
          } else {
            VisitedSame(terms, info, w, rows, info1, w1, rows1, auctionInfo, winning, reservedAmounts, m, block,
                        knownSince);
          }
        }
      }
      AllVisited(terms, info, w, rows, auctionInfo, winning, reservedAmounts, block, knownSince);
    }
  }

  lemma StartOfSales(t: Terms, info: map<Node, nat>, w: Winners, rows: Rows, now: nat, raw: nat, knownSince: nat,
                     money: Money, todo: set<Node>)
    requires t.endingPeriod > 0 && info.Keys <= todo
    ensures Settled(t, money, rows, w, t.Drawn(raw), []) == [] && InBalance(t, money, rows, [], [], money)
    ensures Agenda(t, info, now, knownSince, todo, [])
    ensures AllDrawn(t, info, w, now, raw, knownSince, []) && SoldOnce([]) && SoldNodes([]) == {}
    ensures forall a :: Gain(t, [], a) == 0
  {
  }

  lemma SoldSame(t: Terms, info: map<Node, nat>, w: Winners, rows: Rows, info1: map<Node, nat>, w1: Winners, rows1: Rows,
                 node: Node, now: nat, raw: nat, knownSince: nat, sales: seq<Sale>)
    requires t.endingPeriod > 0 && SameAt(info, w, rows, info1, w1, rows1, node)
    requires SoldAt(t, info1, w1, node, now, raw, knownSince, sales)
    ensures SoldAt(t, info, w, node, now, raw, knownSince, sales)
    ensures t.existential == 0 && IsDecided(t, info, node, now, knownSince) ==> sales != []
  {
  }

  lemma SettledSame(t: Terms, info: map<Node, nat>, w: Winners, rows: Rows, info1: map<Node, nat>, w1: Winners,
                    rows1: Rows, node: Node, now: nat, raw: nat, knownSince: nat, money: Money, money': Money,
                    sales: seq<Sale>)
    requires t.endingPeriod > 0 && SameAt(info, w, rows, info1, w1, rows1, node)
    requires SettledAt(t, info1, w1, rows1, node, now, raw, knownSince, money, money', sales)
    ensures SettledAt(t, info, w, rows, node, now, raw, knownSince, money, money', sales)
    ensures IsDecided(t, info, node, now, knownSince) == IsDecided(t, info1, node, now, knownSince)
  {
    hide Gain;
    forall a ensures Row(rows, node, a) == Row(rows1, node, a) {
      assert (node, a) in rows <==> (node, a) in rows1;
    }
  }

  /** One input. */
  method Feed(p: Pallet, input: Input) returns (round: Round)
    requires p.Valid()
    modifies p
    ensures p.Valid() && p.Wealth() == old(p.Wealth())
    ensures forall a :: p.Worth(a) == old(p.Worth(a)) + Gain(p.terms, round.sales, a)
    ensures Follows(p.terms, old(p.Page()), input, p.Page(), round)
  {
    match input {
      case PlaceBid(bidder, node, amount) =>
        FeedBid(p, bidder, node, amount);
        round := Round([], []);
        forall a ensures Gain(p.terms, [], a) == 0 {
          GainOne(p.terms, Sale(Base, Bid(a, 0)), a);
        }
      case BeginBlock(raw, knownSince, mintable) =>
        hide Gain, Visited, Agenda, Settled, AllDrawn, InBalance;
        var sales, order := p.OnInitialize(raw, knownSince, mintable);
        round := Round(order, sales);
    }
  }

  method FeedBid(p: Pallet, bidder: AccountId, node: Node, amount: nat)
    requires p.Valid()
    modifies p
    ensures p.Valid() && p.Wealth() == old(p.Wealth()) && forall a :: p.Worth(a) == old(p.Worth(a))
    ensures BidPlaced(p.terms, old(p.Page()), p.Page(), Bid(bidder, amount), node)
  {
    assert NodeOk(p.terms, p.auctionInfo, p.winning, p.reservedAmounts, node, p.block);
    var _ := p.HandleBid(bidder, node, amount);
  }

  /** Any run of bids and blocks, whatever is bid and whatever is drawn. The snapshots stay complete and rising and the
      reserves cover them. Each input does what it may: a bid is placed or has no effect, a block settles the decided
      auctions for the bids drawn from the snapshots of the time. And every account ends with what it had, less the bids
      it won and paid; the official account has these besides. */
  method RunAuctions(p: Pallet, inputs: seq<Input>) returns (rounds: seq<Round>, ghost trace: seq<Book>)
    requires p.Valid()
    modifies p
    ensures p.Valid() && p.Wealth() == old(p.Wealth())
    ensures forall a :: p.Worth(a) == old(p.Worth(a)) + Gain(p.terms, AllSales(rounds), a)
    ensures |rounds| == |inputs| && |trace| == |inputs| + 1
    ensures trace[0] == old(p.Page()) && trace[|inputs|] == p.Page()
    ensures forall i :: 0 <= i < |inputs| ==> Follows(p.terms, trace[i], inputs[i], trace[i + 1], rounds[i])
  {
    hide Gain, Follows;
    rounds, trace := [], [p.Page()];
    forall a ensures Gain(p.terms, [], a) == 0 {
      GainOne(p.terms, Sale(Base, Bid(a, 0)), a);
    }
    for i := 0 to |inputs|
      invariant p.Valid() && p.Wealth() == old(p.Wealth())
      invariant |rounds| == i && |trace| == i + 1 && trace[0] == old(p.Page()) && trace[i] == p.Page()
      invariant forall a :: p.Worth(a) == old(p.Worth(a)) + Gain(p.terms, AllSales(rounds), a)
      invariant forall j :: 0 <= j < i ==> Follows(p.terms, trace[j], inputs[j], trace[j + 1], rounds[j])
    {
      var round := Feed(p, inputs[i]);
      forall a ensures Gain(p.terms, AllSales(rounds) + round.sales, a)
                       == Gain(p.terms, AllSales(rounds), a) + Gain(p.terms, round.sales, a)
      {
        GainConcat(p.terms, AllSales(rounds), round.sales, a);
      }
      assert (rounds + [round])[..i] == rounds;
      rounds, trace := rounds + [round], trace + [p.Page()];
    }
  }

  lemma StartOfRound(t: Terms, info: map<Node, nat>, w: Winners, rows: Rows, todo: set<Node>, before: nat,
                     now: nat, knownSince: nat)
    requires info.Keys <= todo && forall m :: NodeOk(t, info, w, rows, m, before)
    ensures forall m :: SameAt(info, w, rows, info, w, rows, m)
    ensures forall m :: m !in todo ==> Visited(t, info, w, rows, info, w, rows, m, now, knownSince)
  {
    forall m | m !in todo ensures Visited(t, info, w, rows, info, w, rows, m, now, knownSince) {
      assert NodeOk(t, info, w, rows, m, before);
    }
  }

  lemma AllVisited(t: Terms, info: map<Node, nat>, w: Winners, rows: Rows, info': map<Node, nat>, w': Winners,
                   rows': Rows, now: nat, knownSince: nat)
    requires forall m :: Visited(t, info, w, rows, info', w', rows', m, now, knownSince)
    ensures forall m :: NodeOk(t, info', w', rows', m, now)
  {
    hide NodeOk;
    forall m ensures NodeOk(t, info', w', rows', m, now) {
      assert Visited(t, info, w, rows, info', w', rows', m, now, knownSince);
    }
  }
}
