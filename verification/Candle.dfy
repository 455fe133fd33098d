/** What a candle auction is for: the auction ends at a moment that nobody knows, and the name goes to whoever was highest
    at that moment. Proved over whole runs of bids and blocks. */
module Candle {
  import opened Types
  import opened Currency
  import opened Auction

  /** A bid that was taken, with the sample it fell in. */
  datatype Heard = Heard(sample: nat, bid: Bid)

  /** A run that starts without auctions: what `Auction.RunAuctions` reports. */
  ghost predicate IsRun(t: Terms, inputs: seq<Input>, trace: seq<Book>, rounds: seq<Round>) {
    && t.endingPeriod > 0 && |trace| == |inputs| + 1 && |rounds| == |inputs|
    && trace[0].info == map[] && trace[0].winning == map[]
    && forall i :: 0 <= i < |inputs| ==> Follows(t, trace[i], inputs[i], trace[i + 1], rounds[i])
  }

  /** The bids taken on a node since its auction was opened, in order. */
  ghost function History(t: Terms, inputs: seq<Input>, trace: seq<Book>, node: Node, i: nat): seq<Heard>
    requires t.endingPeriod > 0 && |trace| == |inputs| + 1 && i <= |inputs|
    decreases i
  {
    if i == 0 || node !in trace[i].info then []
    else
      var before := History(t, inputs, trace, node, i - 1);
      match inputs[i - 1]
      case PlaceBid(bidder, n, amount) =>
        if n == node && BidTaken(t, trace[i - 1], Bid(bidder, amount), node)
        then before + [Heard(SampleAt(t, trace[i - 1], node), Bid(bidder, amount))] else before
      case BeginBlock(_, _, _) => before
  }

  /** The last bid of a history that fell in sample `k` or before. */
  ghost function LastUpTo(h: seq<Heard>, k: nat): Option<Bid> {
    if h == [] then None
    else if h[|h| - 1].sample <= k then Some(h[|h| - 1].bid)
    else LastUpTo(h[..|h| - 1], k)
  }

  ghost predicate RisingBids(h: seq<Heard>) {
    forall i, j :: 0 <= i < j < |h| ==> h[i].bid.amount < h[j].bid.amount
  }

  /** In a rising history that is the highest of them, and no other is as high. */
  lemma {:induction false} LastIsHighest(h: seq<Heard>, k: nat)
    requires RisingBids(h)
    ensures LastUpTo(h, k).Some? ==>
              && (exists x :: x in h && x.sample <= k && x.bid == LastUpTo(h, k).value)
              && (forall x :: x in h && x.sample <= k && x.bid != LastUpTo(h, k).value ==>
                    x.bid.amount < LastUpTo(h, k).value.amount)
    ensures LastUpTo(h, k).None? ==> forall x :: x in h ==> x.sample > k
  {
    if h != [] {
      var front, last := h[..|h| - 1], h[|h| - 1];
      assert h == front + [last];
      if last.sample <= k {
        assert last in h;
      } else {
        LastIsHighest(front, k);
      }
    }
  }

  /** The history of a running auction explains every snapshot; where there is no auction there is none. */
  ghost predicate Explains(t: Terms, b: Book, node: Node, h: seq<Heard>)
    requires t.endingPeriod > 0
  {
    if node in b.info then
      && b.info[node] <= b.block && h != [] && RisingBids(h)
      && var latest := t.Latest(b.block - b.info[node]);
      && (forall x :: x in h ==> x.sample <= latest)
      && (forall k: nat :: (node, k) in b.winning <==> k <= latest)
      && (forall k: nat :: k <= latest ==> LastUpTo(h, k) == Some(b.winning[(node, k)]))
    else
      forall k: nat :: (node, k) !in b.winning
  }

  lemma LastAppended(h: seq<Heard>, x: Heard, k: nat)
    ensures LastUpTo(h + [x], k) == if x.sample <= k then Some(x.bid) else LastUpTo(h, k)
  {
    assert (h + [x])[..|h|] == h;
  }

  lemma LastOfAll(h: seq<Heard>, k: nat)
    requires h != [] && forall x :: x in h ==> x.sample <= k
    ensures LastUpTo(h, k) == Some(h[|h| - 1].bid)
  {
    assert h[|h| - 1] in h;
  }

  lemma BidExplained(t: Terms, b: Book, b': Book, node: Node, h: seq<Heard>, bid: Bid)
    requires t.endingPeriod > 0 && Explains(t, b, node, h) && (node !in b.info ==> h == [])
    requires BidTaken(t, b, bid, node) && BidPlaced(t, b, b', bid, node)
    ensures Explains(t, b', node, h + [Heard(SampleAt(t, b, node), bid)])
  {
    var s := SampleAt(t, b, node);
    LatestMoves(t, 0);
    if node in b.info {
      LastOfAll(h, s);
    }
    assert s == t.Latest(b'.block - b'.info[node]);
    forall k: nat | k <= s
      ensures LastUpTo(h + [Heard(s, bid)], k) == Some(b'.winning[(node, k)])
    {
      LastAppended(h, Heard(s, bid), k);
    }
  }

  lemma BlockExplained(t: Terms, b: Book, b': Book, node: Node, h: seq<Heard>, knownSince: nat)
    requires t.endingPeriod > 0 && Explains(t, b, node, h) && b'.block == b.block + 1
    requires Visited(t, b.info, b.winning, b.rows, b'.info, b'.winning, b'.rows, node, b'.block, knownSince)
    ensures Explains(t, b', node, h)
  {
    hide RisingBids, Rising, Covered, Capped;
    if node !in b'.info {
      return;
    }
    var before, latest := t.Latest(b.block - b.info[node]), t.Latest(b'.block - b'.info[node]);
    LatestMoves(t, b.block - b.info[node]);
    forall k: nat | k <= latest
      ensures LastUpTo(h, k) == Some(b'.winning[(node, k)])
    {
      if k > before {
        LastOfAll(h, before);
        LastOfAll(h, k);
      }
    }
  }

  /** In every run the snapshots of an auction are explained by the bids that were taken on it. */
  lemma {:induction false} SnapshotsExplained(t: Terms, inputs: seq<Input>, trace: seq<Book>, rounds: seq<Round>,
                                              node: Node, i: nat)
    requires IsRun(t, inputs, trace, rounds) && i <= |inputs|
    ensures Explains(t, trace[i], node, History(t, inputs, trace, node, i))
    decreases i
  {
    hide Explains, BidTaken, Visited, Agenda, Settled, AllDrawn, InBalance;
    if i == 0 {
      NothingToExplain(t, trace[i], node);
    } else {
      var b, b', input := trace[i - 1], trace[i], inputs[i - 1];
      SnapshotsExplained(t, inputs, trace, rounds, node, i - 1);
      var h := History(t, inputs, trace, node, i - 1);
      assert Follows(t, b, input, b', rounds[i - 1]);
      match input
      case PlaceBid(bidder, n, amount) =>
        var bid := Bid(bidder, amount);
        if n == node && BidTaken(t, b, bid, node) {
          BidExplained(t, b, b', node, h, bid);
        } else {
          OtherBid(t, b, b', node, h, bid, n);
          NoneNeeded(t, b', node, h);
        }
      case BeginBlock(raw, knownSince, mintable) =>
        BlockExplained(t, b, b', node, h, knownSince);
        NoneNeeded(t, b', node, h);
    }
  }

  lemma NothingToExplain(t: Terms, b: Book, node: Node)
    requires t.endingPeriod > 0 && node !in b.info && forall k: nat :: (node, k) !in b.winning
    ensures Explains(t, b, node, [])
  {
  }

  lemma NoneNeeded(t: Terms, b: Book, node: Node, h: seq<Heard>)
    requires t.endingPeriod > 0 && Explains(t, b, node, h)
    ensures node !in b.info ==> Explains(t, b, node, [])
  {
  }

  lemma OtherBid(t: Terms, b: Book, b': Book, node: Node, h: seq<Heard>, bid: Bid, n: Node)
    requires t.endingPeriod > 0 && Explains(t, b, node, h)
    requires BidPlaced(t, b, b', bid, n) && (n == node ==> !BidTaken(t, b, bid, n))
    ensures Explains(t, b', node, h)
  {
    hide BidTaken, RisingBids;
  }

  /** An auction ends at the first block by which its ending period is over and a random number is there that was not
      known before; until then nothing ends it. */
  lemma EndsExactly(t: Terms, inputs: seq<Input>, trace: seq<Book>, rounds: seq<Round>, i: nat, node: Node)
    requires IsRun(t, inputs, trace, rounds) && i < |inputs| && node in trace[i].info
    ensures node !in trace[i + 1].info <==>
              && inputs[i].BeginBlock?
              && trace[i].info[node] + t.endingPeriod <= trace[i].block + 1
              && trace[i].info[node] + t.endingPeriod <= inputs[i].knownSince
    ensures node in trace[i + 1].info ==> trace[i + 1].info[node] == trace[i].info[node]
  {
    hide NodeOk, Agenda, Settled, AllDrawn, InBalance, BidTaken;
    var b, b' := trace[i], trace[i + 1];
    assert Follows(t, b, inputs[i], b', rounds[i]);
    if inputs[i].BeginBlock? {
      assert Visited(t, b.info, b.winning, b.rows, b'.info, b'.winning, b'.rows, node, b'.block, inputs[i].knownSince);
    }
  }

  /** The candle law. In every run, whoever a name is sold to placed the highest of the bids that were taken on it up to
      the sample drawn, and pays that bid. */
  lemma HighestAtTheDrawWins(t: Terms, inputs: seq<Input>, trace: seq<Book>, rounds: seq<Round>, i: nat, sale: Sale)
    requires IsRun(t, inputs, trace, rounds) && i < |inputs| && inputs[i].BeginBlock? && sale in rounds[i].sales
    ensures sale.node in trace[i].info && sale.node !in trace[i + 1].info
    ensures var h, drawn := History(t, inputs, trace, sale.node, i), t.Drawn(inputs[i].raw);
            && (exists x :: x in h && x.sample <= drawn && x.bid == sale.bid)
            && (forall x :: x in h && x.sample <= drawn && x.bid != sale.bid ==> x.bid.amount < sale.bid.amount)
  {
    hide Visited, Agenda, Settled, InBalance, RisingBids;
    var b, b', raw := trace[i], trace[i + 1], inputs[i].raw;
    var h := History(t, inputs, trace, sale.node, i);
    assert Follows(t, b, inputs[i], b', rounds[i]);
    SnapshotsExplained(t, inputs, trace, rounds, sale.node, i);
    DrawnWasTaken(t, raw, b.block - b.info[sale.node]);
    LastIsHighest(h, t.Drawn(raw));
    EndsExactly(t, inputs, trace, rounds, i, sale.node);
  }

  /** Auctions held on the pallet, from an empty start, are such a run. */
  method HoldAuctions(terms: Terms, block: nat, money: Money, registered: set<Node>, inputs: seq<Input>)
    returns (rounds: seq<Round>, ghost trace: seq<Book>)
    requires terms.endingPeriod > 0
    ensures IsRun(terms, inputs, trace, rounds)
  {
    hide Follows;
    var p := new Pallet(terms, block, money, registered);
    rounds, trace := RunAuctions(p, inputs);
  }
}
