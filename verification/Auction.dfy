/** The auction of short account names: bidname, its closing in onblock, and newaccount. */
module Auction {
  import opened Base
  import opened MapSums
  import opened Ledgers
  import opened Ram
  import opened NameSuffix

  const BLOCKS_PER_DAY: nat := 172_800
  const USECONDS_PER_DAY: nat := 86_400_000_000
  const SCHEDULE_SLOTS: nat := 240

  /** A negative `bid` is a closed auction waiting to be claimed. */
  datatype Bid = Bid(bidder: Account, bid: int, time: nat)

  type Bids = map<Account, Bid>

  datatype AuctionState = AuctionState(bids: Bids, lastClose: nat)

  // ---------- the index by highest bid ----------

  /** The key is the negated bid read as unsigned. */
  function ByHighBid(b: Bid): nat { (-b.bid) % U64 }

  predicate Before(bids: Bids, x: Account, y: Account)
    requires x in bids && y in bids
  {
    ByHighBid(bids[x]) < ByHighBid(bids[y]) || (ByHighBid(bids[x]) == ByHighBid(bids[y]) && x <= y)
  }

  predicate IsFirst(bids: Bids, x: Account) {
    x in bids && forall y :: y in bids ==> Before(bids, x, y)
  }

  lemma {:induction false} FirstExists(bids: Bids)
    requires bids != map[]
    ensures exists x :: IsFirst(bids, x)
    decreases |bids|
  {
    var x :| x in bids;
    var rest := bids - {x};
    assert forall z :: z in bids ==> z == x || z in rest;
    if rest == map[] {
      assert IsFirst(bids, x);
    } else {
      FirstExists(rest);
      var y :| IsFirst(rest, y);
      assert IsFirst(bids, if Before(bids, x, y) then x else y);
    }
  }

  /** The row at the head of the index. */
  function First(bids: Bids): (x: Account)
    requires bids != map[]
    ensures IsFirst(bids, x)
  {
    FirstExists(bids);
    var x :| IsFirst(bids, x);
    x
  }

  // ---------- actions ----------

  /** Names that may be bid on: a bare suffix of at most eleven characters that is no account yet. */
  predicate Biddable(e: Env, newname: Account) {
    && Suffix(newname) == newname
    && newname != 0
    && newname % 16 == 0
    && newname / 16 % 32 == 0
    && !e.isAccount(newname)
  }

  /** A bid must beat the highest one by more than a tenth, and not be one's own. */
  predicate Outbids(current: Bid, bidder: Account, amount: int) {
    current.bid > 0 && amount - current.bid > current.bid / 10 && current.bidder != bidder
  }

  function BidName(l: Ledger, a: AuctionState, e: Env, bidder: Account, newname: Account, bid: Asset)
    : Result<(Ledger, AuctionState)>
  {
    if !Biddable(e, newname) || bid.symbol != CORE || bid.amount <= 0 then Err
    else
      var l1 :- Send(l, e, bidder, EOSIO_NAMES, bid);
      var a' := a.(bids := a.bids[newname := Bid(bidder, bid.amount, e.time)]);
      if newname !in a.bids then Ok((l1, a'))
      else
        var current := a.bids[newname];
        if !Outbids(current, bidder, bid.amount) then Err
        else
          var l2 :- Send(l1, e, EOSIO_NAMES, current.bidder, Asset(current.bid, CORE));
          Ok((l2, a'))
  }

  /** Differences of slots are 32-bit and of times 64-bit unsigned. */
  predicate MayClose(a: AuctionState, e: Env, lastSchedule: nat, threshold: nat) {
    && (e.slot - lastSchedule) % U32 > SCHEDULE_SLOTS
    && (e.slot - a.lastClose) % U32 > BLOCKS_PER_DAY
    && a.bids != map[]
    && a.bids[First(a.bids)].bid > 0
    && a.bids[First(a.bids)].time < (e.time - USECONDS_PER_DAY) % U64
    && threshold > 0
    && (e.time - threshold) % U64 > 14 * USECONDS_PER_DAY
  }

  function OnBlock(a: AuctionState, e: Env, lastSchedule: nat, threshold: nat): AuctionState {
    if !MayClose(a, e, lastSchedule, threshold) then a
    else
      var x := First(a.bids);
      AuctionState(a.bids[x := a.bids[x].(bid := -a.bids[x].bid)], e.slot)
  }

  /** Among the first twelve characters. */
  predicate HasDot(n: nat) { exists i :: 0 <= i < 12 && Char(n, i) == 0 }

  /** Names with a dot or fewer than twelve characters need an auction won, or their suffix as creator. */
  function NewAccount(a: AuctionState, u: UserRes, creator: Account, newact: Account): Result<(AuctionState, UserRes)> {
    if newact in u then Err
    else
      var u' := u[newact := Resources(0, 0, 0)];
      if creator == EOSIO || !HasDot(newact) then Ok((a, u'))
      else if Suffix(newact) != newact then if creator == Suffix(newact) then Ok((a, u')) else Err
      else if newact !in a.bids || a.bids[newact].bidder != creator || a.bids[newact].bid >= 0 then Err
      else Ok((a.(bids := a.bids - {newact}), u'))
  }

  // ---------- what the index order means ----------

  ghost predicate BidsInRange(bids: Bids) {
    forall x :: x in bids ==> bids[x].bid != 0 && InRange(bids[x].bid)
  }

  /** At most one auction is closed and unclaimed. */
  ghost predicate OneClosed(bids: Bids) {
    forall x, y :: x in bids && y in bids && bids[x].bid < 0 && bids[y].bid < 0 ==> x == y
  }

  ghost predicate AuctionSound(a: AuctionState) { BidsInRange(a.bids) && OneClosed(a.bids) }

  /** Negated and unsigned, closed auctions come first and open ones follow from the highest bid down. */
  lemma IndexOrder(b: Bid, c: Bid)
    requires b.bid != 0 && c.bid != 0 && InRange(b.bid) && InRange(c.bid)
    ensures ByHighBid(b) < ByHighBid(c) <==>
      (b.bid < 0 < c.bid) || (c.bid < b.bid < 0) || (0 < c.bid < b.bid)
  {
    assert b.bid > 0 ==> ByHighBid(b) == U64 - b.bid;
    assert c.bid > 0 ==> ByHighBid(c) == U64 - c.bid;
  }

  /**
   * An auction closes only while none is waiting to be claimed, more than a day of slots after the one
   * before, and it is one with the highest bid of all.
   */
  lemma ClosesTheHighest(a: AuctionState, e: Env, lastSchedule: nat, threshold: nat)
    requires AuctionSound(a) && MayClose(a, e, lastSchedule, threshold)
    ensures var x := First(a.bids);
      var a' := OnBlock(a, e, lastSchedule, threshold);
      && (forall y :: y in a.bids ==> 0 < a.bids[y].bid <= a.bids[x].bid)
      && a'.bids == a.bids[x := Bid(a.bids[x].bidder, -a.bids[x].bid, a.bids[x].time)]
      && a'.lastClose == e.slot
      && (a.lastClose <= e.slot < U32 ==> e.slot - a.lastClose > BLOCKS_PER_DAY)
      && (USECONDS_PER_DAY <= e.time < U64 ==> a.bids[x].time + USECONDS_PER_DAY < e.time)
      && (threshold <= e.time < U64 ==> 0 < threshold < e.time - 14 * USECONDS_PER_DAY)
      && AuctionSound(a')
  {
    hide ByHighBid, First;
    var x := First(a.bids);
    forall y | y in a.bids ensures 0 < a.bids[y].bid <= a.bids[x].bid {
      assert Before(a.bids, x, y);
      IndexOrder(a.bids[x], a.bids[y]);
      IndexOrder(a.bids[y], a.bids[x]);
    }
  }

  /** The largest bid, and of several the one on the first name. */
  predicate Highest(bids: Bids, x: Account) {
    x in bids && forall y :: y in bids ==> bids[y].bid < bids[x].bid || (bids[y].bid == bids[x].bid && x <= y)
  }

  /** With no auction closed the head of the index is the highest bid; with one closed it is that one. */
  lemma HeadOfIndex(bids: Bids)
    requires BidsInRange(bids) && bids != map[]
    ensures bids[First(bids)].bid > 0 <==> forall y :: y in bids ==> bids[y].bid > 0
    ensures (forall y :: y in bids ==> bids[y].bid > 0) ==> forall x :: Highest(bids, x) <==> x == First(bids)
  {
    hide ByHighBid, First;
    var h := First(bids);
    forall y | y in bids ensures bids[h].bid > 0 ==> 0 < bids[y].bid <= bids[h].bid {
      assert Before(bids, h, y);
      IndexOrder(bids[h], bids[y]);
      IndexOrder(bids[y], bids[h]);
    }
    if forall y :: y in bids ==> bids[y].bid > 0 {
      forall y | y in bids ensures bids[y].bid < bids[h].bid || (bids[y].bid == bids[h].bid && h <= y) {
        assert Before(bids, h, y);
        IndexOrder(bids[h], bids[y]);
        IndexOrder(bids[y], bids[h]);
      }
    }
  }

  /**
   * While clocks do not run backwards, an auction closes in exactly the blocks that reach the scheduling part, a
   * day of slots after the last close, if none is closed, the highest bid is over a day old and the chain has
   * been active for over 14 days; no other block changes anything.
   */
  lemma ClosesExactly(a: AuctionState, e: Env, lastSchedule: nat, threshold: nat)
    requires AuctionSound(a) && lastSchedule <= e.slot < U32 && a.lastClose <= e.slot
    requires 24 * 3600 * 1_000_000 <= e.time < U64 && threshold <= e.time
    ensures MayClose(a, e, lastSchedule, threshold) <==>
      && e.slot - lastSchedule > 2 * 120
      && e.slot - a.lastClose > 2 * 24 * 3600
      && a.bids != map[] && (forall y :: y in a.bids ==> a.bids[y].bid > 0)
      && (forall x :: Highest(a.bids, x) ==> a.bids[x].time + 24 * 3600 * 1_000_000 < e.time)
      && 0 < threshold && threshold + 14 * 24 * 3600 * 1_000_000 < e.time
    ensures !MayClose(a, e, lastSchedule, threshold) ==> OnBlock(a, e, lastSchedule, threshold) == a
  {
    hide First, Highest;
    if a.bids != map[] {
      HeadOfIndex(a.bids);
    }
  }

  /** What may be bid on, exactly: no account yet, no dot before a character, one to eleven characters. */
  lemma BiddableNames(e: Env, newname: Account)
    ensures var cs := Chars(newname);
      Biddable(e, newname) <==>
      !e.isAccount(newname) && cs[0] != 0 && cs[11] == 0 && cs[12] == 0 && TrailingDotsOnly(cs, 0)
  {
    hide Suffix;
    OwnSuffix(newname);
    var cs := Chars(newname);
    NoInnerDot(cs, 0);
    assert Pow2(4) == 16;
    if newname == 0 {
      assert cs[0] == 0;
    } else if TrailingDotsOnly(cs, 0) && cs[0] == 0 {
      AllDots(newname);
    }
  }

  lemma AllDots(n: Account)
    requires forall i :: 0 <= i < 13 ==> Chars(n)[i] == 0
    ensures n == 0
  {
    PackUnpack(n);
    assert Chars(n)[..12] == Dots(12);
    HornerDots(12);
  }

  /** No dot at or after position `k` precedes a character. */
  predicate TrailingDotsOnly(cs: seq<nat>, k: nat) {
    forall i, j :: k <= i < j < |cs| && cs[i] == 0 ==> cs[j] == 0
  }

  /** The creator's name is what follows the last dot that precedes a character. */
  predicate LastLabel(cs: seq<nat>, creator: seq<nat>)
    requires |cs| == 13
  {
    exists d :: 0 <= d < 12 && cs[d] == 0 && cs[d + 1] != 0
      && TrailingDotsOnly(cs, d + 1) && creator == cs[d + 1..] + Dots(d + 1)
  }

  predicate Won(a: AuctionState, creator: Account, name: Account) {
    name in a.bids && a.bids[name].bidder == creator && a.bids[name].bid < 0
  }

  /**
   * The naming rule, read off the characters: a free name of twelve characters is open to all, a shorter one
   * without inner dots only to the winner of its auction, and one with inner dots only to the account named
   * by its last label. A name that is claimed so leaves the auction, and the account starts with nothing.
   */
  lemma NamingRule(a: AuctionState, u: UserRes, creator: Account, newact: Account)
    ensures var cs := Chars(newact);
      NewAccount(a, u, creator, newact).Ok? <==>
      && newact !in u
      && (|| creator == EOSIO
          || (forall i :: 0 <= i < 12 ==> cs[i] != 0)
          || (TrailingDotsOnly(cs, 0) && Won(a, creator, newact))
          || LastLabel(cs, Chars(creator)))
    ensures NewAccount(a, u, creator, newact).Ok? ==>
      var (a', u') := NewAccount(a, u, creator, newact).value;
      var cs := Chars(newact);
      var claimed := creator != EOSIO && TrailingDotsOnly(cs, 0) && exists i :: 0 <= i < 12 && cs[i] == 0;
      && u' == u[newact := Resources(0, 0, 0)]
      && a'.lastClose == a.lastClose
      && a'.bids == if claimed then a.bids - {newact} else a.bids
  {
    hide Suffix, LastLabel, TrailingDotsOnly;
    InnerDots(newact, creator);
    assert HasDot(newact) <==> !(forall i :: 0 <= i < 12 ==> Chars(newact)[i] != 0);
  }

  /** Without inner dots a name is its own suffix; with them its suffix is its last label. */
  lemma InnerDots(n: Account, creator: Account)
    ensures Suffix(n) == n <==> TrailingDotsOnly(Chars(n), 0)
    ensures LastLabel(Chars(n), Chars(creator)) <==> Suffix(n) != n && creator == Suffix(n)
  {
    var cs := Chars(n);
    OwnSuffix(n);
    UnpackPack(SuffixChars(cs));
    PackUnpack(creator);
    NoInnerDot(cs, 0);
    LabelIsSuffix(cs, Chars(creator));
  }

  lemma NoInnerDot(cs: seq<nat>, k: nat)
    requires |cs| == 13 && k <= 12
    ensures (forall i :: k <= i < 12 ==> !ActualDot(cs, i)) <==> TrailingDotsOnly(cs, k)
  {
    if forall i :: k <= i < 12 ==> !ActualDot(cs, i) {
      forall i, j | k <= i < j < |cs| && cs[i] == 0 ensures cs[j] == 0 {
        assert !ActualDot(cs, i);
      }
    }
  }

  /** The last inner dot is where the last label starts. */
  lemma LabelStarts(cs: seq<nat>)
    requires |cs| == 13 && !TrailingDotsOnly(cs, 0)
    ensures var d := LastActualDot(cs, 12);
      0 <= d && cs[d] == 0 && cs[d + 1] != 0 && TrailingDotsOnly(cs, d + 1)
  {
    hide LastActualDot, TrailingDotsOnly;
    var d := LastActualDot(cs, 12);
    NoInnerDot(cs, 0);
    NoInnerDot(cs, d + 1);
    if d + 1 < 12 {
      assert !ActualDot(cs, d + 1);
    }
  }

  lemma LabelStartsOnce(cs: seq<nat>, c: nat)
    requires |cs| == 13 && c < 12 && cs[c] == 0 && cs[c + 1] != 0 && TrailingDotsOnly(cs, c + 1)
    ensures c == LastActualDot(cs, 12) && !TrailingDotsOnly(cs, 0)
  {
    hide LastActualDot, TrailingDotsOnly;
    assert ActualDot(cs, c);
    NoInnerDot(cs, 0);
    NoInnerDot(cs, c + 1);
  }

  lemma LabelIsSuffix(cs: seq<nat>, creator: seq<nat>)
    requires |cs| == 13
    ensures LastLabel(cs, creator) <==> !TrailingDotsOnly(cs, 0) && creator == SuffixChars(cs)
  {
    hide LastActualDot, TrailingDotsOnly, Dots;
    if LastLabel(cs, creator) {
      var c :| 0 <= c < 12 && cs[c] == 0 && cs[c + 1] != 0
        && TrailingDotsOnly(cs, c + 1) && creator == cs[c + 1..] + Dots(c + 1);
      LabelStartsOnce(cs, c);
    }
    if !TrailingDotsOnly(cs, 0) {
      LabelStarts(cs);
    }
  }

  /** A closed auction leaves the table only when its winner creates the account. */
  lemma OnlyTheWinnerClaims(a: AuctionState, u: UserRes, creator: Account, newact: Account)
    requires NewAccount(a, u, creator, newact).Ok?
    ensures var a' := NewAccount(a, u, creator, newact).value.0;
      && a'.lastClose == a.lastClose
      && (forall x :: x in a.bids && x !in a'.bids ==> x == newact && a.bids[x].bid < 0 && a.bids[x].bidder == creator)
      && (forall x :: x in a'.bids ==> x in a.bids && a'.bids[x] == a.bids[x])
      && (AuctionSound(a) ==> AuctionSound(a'))
  {
    hide Suffix, HasDot;
  }

  // ---------- escrow ----------

  ghost function EachBid(): (Account, Bid) -> int {
    (x: Account, b: Bid) => Abs(b.bid)
  }

  /** Tokens held by eosio.names beyond the bids it holds. */
  ghost function BidSurplus(l: Ledger, a: AuctionState): int {
    Core(l, EOSIO_NAMES) - SumBy(a.bids, EachBid())
  }

  /** The bidder pays eosio.names, which returns the bid that was beaten. */
  ghost predicate BidMoves(l: Ledger, l': Ledger, bidder: Account, bid: int, loser: Account, back: int) {
    forall b :: Core(l', b) ==
      Core(l, b)
      + (if b == EOSIO_NAMES then bid - back else 0)
      - (if b == bidder then bid else 0)
      + (if b == loser then back else 0)
  }

  /** What the beaten bidder gets back. */
  function Beaten(a: AuctionState, newname: Account): int { if newname in a.bids then a.bids[newname].bid else 0 }

  function Loser(a: AuctionState, newname: Account, bidder: Account): Account {
    if newname in a.bids then a.bids[newname].bidder else bidder
  }

  /** A bid moves its own amount in and the beaten one out. */
  lemma BidNameMoves(l: Ledger, a: AuctionState, e: Env, bidder: Account, newname: Account, bid: Asset)
    requires Sound(l) && BidName(l, a, e, bidder, newname, bid).Ok?
    ensures bidder != EOSIO_NAMES && Loser(a, newname, bidder) != EOSIO_NAMES && 0 < bid.amount <= MAX_AMOUNT
    ensures newname in a.bids ==> Loser(a, newname, bidder) != CHANNEL_SYS && Beaten(a, newname) > 0
    ensures var l' := BidName(l, a, e, bidder, newname, bid).value.0;
      && Sound(l') && l'.stats == l.stats
      && BidMoves(l, l', bidder, bid.amount, Loser(a, newname, bidder), Beaten(a, newname))
  {
    hide Suffix;
    TransferEffect(l, e, bidder, EOSIO_NAMES, bid);
    var l1 := Send(l, e, bidder, EOSIO_NAMES, bid).value;
    if newname in a.bids {
      TransferEffect(l1, e, EOSIO_NAMES, a.bids[newname].bidder, Asset(a.bids[newname].bid, CORE));
    }
  }

  /** So the escrow covers every bid exactly as before. */
  lemma BidNameBacked(l: Ledger, a: AuctionState, e: Env, bidder: Account, newname: Account, bid: Asset)
    requires Sound(l) && AuctionSound(a)
    requires BidName(l, a, e, bidder, newname, bid).Ok?
    ensures var (l', a') := BidName(l, a, e, bidder, newname, bid).value;
      && AuctionSound(a') && a'.lastClose == a.lastClose && BidSurplus(l', a') == BidSurplus(l, a)
      && a'.bids == a.bids[newname := Bid(bidder, bid.amount, e.time)]
  {
    hide Suffix, Transfer, SumBy;
    BidNameMoves(l, a, e, bidder, newname, bid);
    var a' := BidName(l, a, e, bidder, newname, bid).value.1;
    assert a.bids - {newname} == a'.bids - {newname};
    SumChange(a.bids, a'.bids, EachBid(), newname);
  }

  lemma BidNameKeepsLock(l: Ledger, a: AuctionState, e: Env, bidder: Account, newname: Account, bid: Asset, b: Account)
    requires Sound(l) && CoreToken(l) && BidName(l, a, e, bidder, newname, bid).Ok?
    requires b != HDDBASEFOUND && b != FUND_SYS
    requires b == EOSIO_NAMES && newname in a.bids ==>
      var loser := a.bids[newname].bidder; loser != EOSIO_STAKE && loser != YOTTAFORFEIT && loser != FORFEIT_SYS
    ensures KeepsLock(l, BidName(l, a, e, bidder, newname, bid).value.0, e, b)
  {
    hide Suffix, HasDot;
    TransferEffect(l, e, bidder, EOSIO_NAMES, bid);
    TransferKeepsLock(l, e, bidder, EOSIO_NAMES, bid, b);
    var l1 := Send(l, e, bidder, EOSIO_NAMES, bid).value;
    if newname in a.bids {
      TransferKeepsLock(l1, e, EOSIO_NAMES, a.bids[newname].bidder, Asset(a.bids[newname].bid, CORE), b);
    }
  }

  /**
   * While the escrow covers the bids, a bid goes through exactly if the name may be bid on, the bidder can pay,
   * and a bid before it is open, another's, beaten by more than a tenth and can be returned: the tokens to
   * return it are always there.
   */
  lemma BeatenBidIsReturned(l: Ledger, a: AuctionState, e: Env, bidder: Account, newname: Account, bid: Asset)
    requires Sound(l) && CoreToken(l) && AuctionSound(a) && BidSurplus(l, a) >= 0
    requires !e.frozen(EOSIO_NAMES) && e.deposit(EOSIO_NAMES) == 0 && e.lock(EOSIO_NAMES) == 0
    ensures BidName(l, a, e, bidder, newname, bid).Ok? <==>
      && Biddable(e, newname) && bid.symbol == CORE
      && MayTransfer(l, e, bidder, EOSIO_NAMES, bid)
      && (newname in a.bids ==>
            var current := a.bids[newname];
            && current.bid > 0 && 10 * bid.amount > 11 * current.bid && current.bidder != bidder
            && e.isAccount(current.bidder) && current.bidder != EOSIO_NAMES && current.bidder != CHANNEL_SYS)
  {
    hide Suffix, HasDot, Transfer, Biddable, SumBy;
    TransferEffect(l, e, bidder, EOSIO_NAMES, bid);
    SumBounds(a.bids, EachBid(), newname);
    if MayTransfer(l, e, bidder, EOSIO_NAMES, bid) && newname in a.bids && bid.symbol == CORE {
      var l1 := Send(l, e, bidder, EOSIO_NAMES, bid).value;
      BalanceBounds(l1, EOSIO_NAMES, CORE.code);
      TransferEffect(l1, e, EOSIO_NAMES, a.bids[newname].bidder, Asset(a.bids[newname].bid, CORE));
    }
  }

  /** Closing an auction changes no bid's size, and claiming it frees the winning bid. */
  lemma CloseAndClaimSurplus(l: Ledger, a: AuctionState, u: UserRes, e: Env, lastSchedule: nat, threshold: nat,
                             creator: Account, newact: Account)
    requires AuctionSound(a)
    ensures BidSurplus(l, OnBlock(a, e, lastSchedule, threshold)) == BidSurplus(l, a)
    ensures NewAccount(a, u, creator, newact).Ok? ==>
      BidSurplus(l, NewAccount(a, u, creator, newact).value.0) >= BidSurplus(l, a)
  {
    hide Suffix, HasDot;
    if MayClose(a, e, lastSchedule, threshold) {
      var x := First(a.bids);
      var a' := OnBlock(a, e, lastSchedule, threshold);
      assert a.bids - {x} == a'.bids - {x};
      SumChange(a.bids, a'.bids, EachBid(), x);
    }
    if NewAccount(a, u, creator, newact).Ok? {
      var a' := NewAccount(a, u, creator, newact).value.0;
      assert a.bids - {newact} == a'.bids - {newact};
      SumChange(a.bids, a'.bids, EachBid(), newact);
    }
  }
}
