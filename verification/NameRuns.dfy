/** Name auctions over whole runs: how often they close, who claims them, how bids grow. */
module NameRuns {
  import opened Base
  import opened Arith
  import opened Ledgers
  import opened Markets
  import opened Ram
  import opened Staking
  import opened Auction
  import opened ProducerPay
  import opened Channel
  import opened Economy

  lemma AuctionAside(n: nat, w: World, e: Env, a: Action)
    requires n >= 1 && !a.NameAct? && Step(n, w, e, a).Ok?
    ensures Step(n, w, e, a).value.auction == w.auction
  {
  }

  // ---------- closing ----------

  /** The i-th entry closes an auction. */
  ghost predicate Closes(n: nat, w: World, log: seq<Entry>, i: nat)
    requires n >= 1 && i < |log|
  {
    match log[i].a
    case NameAct(NewBlock(lastSchedule, threshold)) =>
      MayClose(Run(n, w, log[..i]).auction, log[i].e, lastSchedule, threshold)
    case _ => false
  }

  /** Block slots do not run backwards, and start after the last close. */
  ghost predicate Slotted(w: World, log: seq<Entry>) {
    && (forall i :: 0 <= i < |log| ==> w.auction.lastClose <= log[i].e.slot < U32)
    && (forall i, j :: 0 <= i < j < |log| ==> log[i].e.slot <= log[j].e.slot)
  }

  lemma LastCloseStep(n: nat, w: World, x: Entry)
    requires n >= 1
    ensures var w' := Apply(n, w, x);
      w'.auction.lastClose == w.auction.lastClose || w'.auction.lastClose == x.e.slot
  {
    hide TokenStep, RamStep, StakeStep, PayStep, ChannelStep, MayClose, Biddable, Transfer;
    hide NameSuffix.Suffix, HasDot;
    if Step(n, w, x.e, x.a).Ok? && !x.a.NameAct? {
      AuctionAside(n, w, x.e, x.a);
    }
  }

  lemma {:induction false} LastCloseBounds(n: nat, w: World, log: seq<Entry>, slot: nat)
    requires n >= 1 && w.auction.lastClose <= slot
    requires forall i :: 0 <= i < |log| ==> log[i].e.slot <= slot
    ensures Run(n, w, log).auction.lastClose <= slot
    decreases |log|
  {
    hide Apply;
    if log != [] {
      var k := |log| - 1;
      LastCloseBounds(n, w, log[..k], slot);
      LastCloseStep(n, Run(n, w, log[..k]), log[k]);
    }
  }

  /** Once an auction has closed, the recorded slot never goes back before it. */
  lemma {:induction false} LastCloseSince(n: nat, w: World, log: seq<Entry>, i: nat, j: nat)
    requires n >= 1 && i < j <= |log| && Slotted(w, log) && Closes(n, w, log, i)
    ensures Run(n, w, log[..j]).auction.lastClose >= log[i].e.slot
    decreases j
  {
    hide Apply;
    var k := j - 1;
    assert log[..j][..k] == log[..k];
    LastCloseStep(n, Run(n, w, log[..k]), log[k]);
    if i == k {
      CloseRecorded(n, Run(n, w, log[..k]), log[k]);
    } else {
      LastCloseSince(n, w, log, i, k);
    }
  }

  lemma CloseRecorded(n: nat, w: World, x: Entry)
    requires n >= 1 && x.a.NameAct? && x.a.b.NewBlock?
    requires MayClose(w.auction, x.e, x.a.b.lastSchedule, x.a.b.threshold)
    ensures Apply(n, w, x).auction.lastClose == x.e.slot
  {
  }

  /** Any two closes of a run are more than a day of slots apart. */
  lemma ClosesApart(n: nat, w: World, log: seq<Entry>, i: nat, j: nat)
    requires n >= 1 && i < j < |log| && Slotted(w, log)
    requires Closes(n, w, log, i) && Closes(n, w, log, j)
    ensures log[j].e.slot - log[i].e.slot > BLOCKS_PER_DAY
  {
    hide Run;
    LastCloseSince(n, w, log, i, j);
    LastCloseBounds(n, w, log[..j], log[j].e.slot);
    var a := Run(n, w, log[..j]).auction;
    assert (log[j].e.slot - a.lastClose) % U32 == log[j].e.slot - a.lastClose;
  }

  // ---------- claiming ----------

  /** The entry opens the account `x` in the name of `creator`. */
  predicate Claims(y: Entry, creator: Account, x: Account) {
    y.a == NameAct(OpenAccount(creator, x))
  }

  lemma ClosedRowStep(n: nat, w: World, y: Entry, cap: int, x: Account)
    requires n >= 1 && Kernel(w, cap) && x in w.auction.bids && w.auction.bids[x].bid < 0
    requires !Claims(y, w.auction.bids[x].bidder, x)
    ensures var w' := Apply(n, w, y);
      x in w'.auction.bids && w'.auction.bids[x] == w.auction.bids[x]
  {
    hide TokenStep, RamStep, StakeStep, PayStep, ChannelStep, Biddable, Transfer, NewAccount, MayClose;
    hide Sound, TablesAgree, BookInRange, BucketsSound;
    if Step(n, w, y.e, y.a).Ok? {
      match y.a {
        case NameAct(NewBlock(lastSchedule, threshold)) =>
          if MayClose(w.auction, y.e, lastSchedule, threshold) {
            ClosesTheHighest(w.auction, y.e, lastSchedule, threshold);
          }
        case NameAct(OpenAccount(creator, newact)) =>
          OnlyTheWinnerClaims(w.auction, w.userres, creator, newact);
        case NameAct(PlaceBid(bidder, newname, bid)) =>
        case _ => AuctionAside(n, w, y.e, y.a);
      }
    }
  }

  /** A closed auction stays, bid and winner unchanged, until the winner creates the account. */
  lemma {:induction false} ClosedUntilClaimed(n: nat, w: World, log: seq<Entry>, cap: int, x: Account)
    requires n >= 1 && Kernel(w, cap) && x in w.auction.bids && w.auction.bids[x].bid < 0
    requires forall i :: 0 <= i < |log| ==> !Claims(log[i], w.auction.bids[x].bidder, x)
    ensures var w' := Run(n, w, log);
      x in w'.auction.bids && w'.auction.bids[x] == w.auction.bids[x]
    decreases |log|
  {
    hide Kernel, Apply, Claims;
    if log != [] {
      var k := |log| - 1;
      ClosedUntilClaimed(n, w, log[..k], cap, x);
      RunKeepsKernel(n, w, log[..k], cap);
      ClosedRowStep(n, Run(n, w, log[..k]), log[k], cap, x);
    }
  }

  // ---------- outbidding ----------

  /** The entry is a successful bid on `x`. */
  predicate BidsOn(n: nat, w: World, y: Entry, x: Account)
    requires n >= 1
  {
    match y.a
    case NameAct(PlaceBid(_, newname, _)) => newname == x && Step(n, w, y.e, y.a).Ok?
    case _ => false
  }

  function CountBids(n: nat, w: World, log: seq<Entry>, x: Account): nat
    requires n >= 1
  {
    if log == [] then 0
    else
      var k := |log| - 1;
      CountBids(n, w, log[..k], x) + if BidsOn(n, Run(n, w, log[..k]), log[k], x) then 1 else 0
  }

  /** The size of the highest bid on `x`, open or closed. */
  function HighBid(w: World, x: Account): int {
    if x in w.auction.bids then Abs(w.auction.bids[x].bid) else 0
  }

  predicate Unclaimed(y: Entry, x: Account) {
    !(y.a.NameAct? && y.a.b.OpenAccount? && y.a.b.newact == x)
  }

  /** A bid on `x` raises the highest one by more than a tenth; anything else leaves it. */
  lemma HighBidStep(n: nat, w: World, y: Entry, cap: int, x: Account)
    requires n >= 1 && Kernel(w, cap) && x in w.auction.bids && Unclaimed(y, x)
    ensures var w' := Apply(n, w, y);
      && x in w'.auction.bids
      && (BidsOn(n, w, y, x) ==> 10 * HighBid(w', x) > 11 * HighBid(w, x))
      && (!BidsOn(n, w, y, x) ==> HighBid(w', x) == HighBid(w, x))
  {
    hide TokenStep, RamStep, StakeStep, PayStep, ChannelStep, Biddable, Transfer, NewAccount, MayClose;
    hide Sound, TablesAgree, BookInRange, BucketsSound;
    if Step(n, w, y.e, y.a).Ok? {
      match y.a {
        case NameAct(NewBlock(lastSchedule, threshold)) =>
          if MayClose(w.auction, y.e, lastSchedule, threshold) {
            ClosesTheHighest(w.auction, y.e, lastSchedule, threshold);
          }
        case NameAct(OpenAccount(creator, newact)) =>
          OnlyTheWinnerClaims(w.auction, w.userres, creator, newact);
        case NameAct(PlaceBid(bidder, newname, bid)) =>
        case _ => AuctionAside(n, w, y.e, y.a);
      }
    }
  }

  /** After k further bids on a name, 10^k times the highest bid is at least 11^k times the first. */
  lemma {:induction false} BidsGrow(n: nat, w: World, log: seq<Entry>, cap: int, x: Account)
    requires n >= 1 && Kernel(w, cap) && x in w.auction.bids
    requires forall i :: 0 <= i < |log| ==> Unclaimed(log[i], x)
    ensures x in Run(n, w, log).auction.bids
    ensures var k := CountBids(n, w, log, x);
      Pow(10, k) * HighBid(Run(n, w, log), x) >= Pow(11, k) * HighBid(w, x)
    decreases |log|
  {
    hide Kernel, Unclaimed, Apply, BidsOn, HighBid, Pow;
    if log == [] {
      PowZero(10);
      PowZero(11);
    } else {
      var k := |log| - 1;
      BidsGrow(n, w, log[..k], cap, x);
      RunKeepsKernel(n, w, log[..k], cap);
      var w1 := Run(n, w, log[..k]);
      HighBidStep(n, w1, log[k], cap, x);
      if BidsOn(n, w1, log[k], x) {
        var c := CountBids(n, w, log[..k], x);
        PowNext(10, c);
        PowNext(11, c);
        GrowOnce(Pow(10, c), Pow(11, c), HighBid(w, x), HighBid(w1, x), HighBid(Run(n, w, log), x));
      }
    }
  }

  lemma PowZero(b: nat)
    ensures Pow(b, 0) == 1
  {
  }

  lemma PowNext(b: nat, k: nat)
    ensures Pow(b, k + 1) == b * Pow(b, k)
  {
  }

  lemma GrowOnce(p: nat, q: nat, b0: int, b1: int, b2: int)
    requires p * b1 >= q * b0 && 10 * b2 > 11 * b1
    ensures 10 * p * b2 >= 11 * q * b0
  {
    assert p * (10 * b2 - 11 * b1) >= 0;
    assert p * (10 * b2 - 11 * b1) == 10 * p * b2 - 11 * (p * b1);
    assert 11 * q * b0 == 11 * (q * b0);
  }
}
