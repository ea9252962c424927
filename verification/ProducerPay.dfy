/** Block producers' pay: rewardprods issues new tokens into three buckets and shares them out. */
module ProducerPay {
  import opened Base
  import opened Arith
  import opened Ledgers
  import opened Ram

  const SECONDS_PER_YEAR: nat := 31_449_600
  const USECONDS_PER_YEAR: nat := 31_449_600_000_000
  const INITIAL_TIMESTAMP: nat := 1_578_621_600
  const SEO_YEAR: seq<nat> := [1000, 300, 300, 300, 300, 300, 300, 300, 300, 300, 300, 300]
  const SEO_BASE: nat := 100_000
  const PRECISION: nat := 10_000

  type Votes = v: real | v >= 0.0

  datatype Producer = Producer(owner: Account, votes: Votes)

  /** What waits to be paid for being a producer, for votes and for blocks, and when it was last filled. */
  datatype Buckets = Buckets(base: int, vote: int, block: int, lastFill: nat)

  // ---------- filling ----------

  function YearIndex(now: nat): int { TruncDiv(now - INITIAL_TIMESTAMP, SECONDS_PER_YEAR) }

  predicate InSchedule(now: nat) { 0 <= YearIndex(now) < |SEO_YEAR| }

  function YearlyBudget(now: nat): nat
    requires InSchedule(now)
  {
    SEO_YEAR[YearIndex(now)] * SEO_BASE * PRECISION
  }

  /**
   * The schedule: a hundred million tokens in the first year from January 2020, for which the year before it
   * passes as well, thirty million in each of the eleven years after, and nothing outside.
   */
  lemma Schedule(now: nat, year: nat)
    ensures InSchedule(now) <==> 1_578_621_600 - 31_449_600 < now < 1_578_621_600 + 12 * 31_449_600
    ensures year < 12 && 0 <= now - 1_578_621_600 - year * 31_449_600 < 31_449_600 ==>
      InSchedule(now) && YearlyBudget(now) == (if year == 0 then 100_000_000 else 30_000_000) * 10_000
    ensures 1_578_621_600 - 31_449_600 < now < 1_578_621_600 ==> YearlyBudget(now) == 100_000_000 * 10_000
  {
    if year < 12 && 0 <= now - 1_578_621_600 - year * 31_449_600 < 31_449_600 {
      assert YearIndex(now) == year;
    }
  }

  /** The share of the yearly budget for `usecs` microseconds, in exact arithmetic and rounded down. */
  function NewTokens(now: nat, usecs: nat): nat
    requires InSchedule(now)
  {
    YearlyBudget(now) * usecs / USECONDS_PER_YEAR
  }

  /** Three fifths for the base pay, and half of the rest each for blocks and votes. */
  function Filled(p: Buckets, tokens: nat, time: nat): (p': Buckets)
    ensures p'.base + p'.vote + p'.block == p.base + p.vote + p.block + tokens
    ensures 0 <= 3 * tokens - 5 * (p'.base - p.base) < 5
    ensures 0 <= (p'.vote - p.vote) - (p'.block - p.block) <= 1
  {
    var toBase := tokens * 3 / 5;
    var toBlock := (tokens - toBase) / 2;
    Buckets(p.base + toBase, p.vote + (tokens - toBase - toBlock), p.block + toBlock, time)
  }

  /** The year table is read before anything else; an index outside it is undefined and fails here. */
  function Fill(l: Ledger, p: Buckets, e: Env): Result<(Ledger, Buckets)> {
    var usecs := (e.time - p.lastFill) % U64;
    if !InSchedule(e.now) then Err
    else if usecs == 0 then Ok((l, p))
    else
      var tokens := NewTokens(e.now, usecs);
      var issued :- IssueToIssuer(l, EOSIO, Asset(tokens, CORE));
      var funded :- Send(issued, e, EOSIO, HDDBASEFOUND, Asset(tokens, CORE));
      Ok((funded, Filled(p, tokens, e.time)))
  }

  // ---------- sharing ----------

  function TotalVotes(ps: seq<Producer>): (w: real)
    ensures w >= 0.0
  {
    if ps == [] then 0.0 else TotalVotes(ps[..|ps| - 1]) + ps[|ps| - 1].votes
  }

  /** A producer's part of the vote bucket before rounding. */
  function ExactShare(bucket: int, votes: real, total: real): real
    requires total > 0.0
  {
    bucket as real * votes / total
  }

  function VoteShare(bucket: int, votes: real, total: real): int {
    if total > 0.0 then ExactShare(bucket, votes, total).Floor else 0
  }

  datatype Share = Share(owner: Account, base: int, block: int, vote: int) {
    function Total(): int { base + block + vote }
  }

  /** Everyone shares the base and the votes; only the first-level producers share the blocks. */
  function ShareOf(p: Buckets, top: seq<Producer>, rest: seq<Producer>, i: nat): Share
    requires top != [] && i < |top| + |rest|
  {
    var all := top + rest;
    Share(all[i].owner,
          p.base / |all|,
          if i < |top| then p.block / |top| else 0,
          VoteShare(p.vote, all[i].votes, TotalVotes(all)))
  }

  function Payroll(p: Buckets, top: seq<Producer>, rest: seq<Producer>): (s: seq<Share>)
    requires top != []
    ensures |s| == |top| + |rest|
    ensures forall i :: 0 <= i < |s| ==> s[i] == ShareOf(p, top, rest, i)
  {
    seq(|top| + |rest|, i requires 0 <= i < |top| + |rest| => ShareOf(p, top, rest, i))
  }

  function BasePaid(s: seq<Share>): int { if s == [] then 0 else BasePaid(s[..|s| - 1]) + s[|s| - 1].base }
  function BlockPaid(s: seq<Share>): int { if s == [] then 0 else BlockPaid(s[..|s| - 1]) + s[|s| - 1].block }
  function VotePaid(s: seq<Share>): int { if s == [] then 0 else VotePaid(s[..|s| - 1]) + s[|s| - 1].vote }

  /** Pays every share that is not empty. */
  function PayAll(l: Ledger, e: Env, s: seq<Share>): Result<Ledger> {
    if s == [] then Ok(l)
    else
      var last := s[|s| - 1];
      var l' :- PayAll(l, e, s[..|s| - 1]);
      if last.Total() > 0 then Send(l', e, HDDBASEFOUND, last.owner, Asset(last.Total(), CORE)) else Ok(l')
  }

  /** Without a start, or without first-level producers, nothing happens. */
  function RewardProds(l: Ledger, p: Buckets, e: Env, top: seq<Producer>, rest: seq<Producer>)
    : Result<(Ledger, Buckets)>
  {
    if p.lastFill == 0 || top == [] then Ok((l, p))
    else
      var (l1, p1) :- Fill(l, p, e);
      var s := Payroll(p1, top, rest);
      var l2 :- PayAll(l1, e, s);
      Ok((l2, Buckets(p1.base % (|top| + |rest|), p1.vote - VotePaid(s), p1.block % |top|, p1.lastFill)))
  }

  // ---------- the shares fit their buckets ----------

  ghost predicate BucketsSound(p: Buckets) { p.base >= 0 && p.vote >= 0 && p.block >= 0 }

  /** The base and block shares add up to all but the remainder of the division. */
  lemma {:induction false} EqualShares(p: Buckets, top: seq<Producer>, rest: seq<Producer>, k: nat)
    requires top != [] && k <= |top| + |rest|
    ensures BasePaid(Payroll(p, top, rest)[..k]) == k * (p.base / (|top| + |rest|))
    ensures BlockPaid(Payroll(p, top, rest)[..k]) == (if k < |top| then k else |top|) * (p.block / |top|)
  {
    hide VoteShare, TotalVotes;
    var s := Payroll(p, top, rest);
    if k > 0 {
      assert s[..k][..k - 1] == s[..k - 1];
      EqualShares(p, top, rest, k - 1);
      assert s[k - 1] == ShareOf(p, top, rest, k - 1);
      var b := p.base / (|top| + |rest|);
      var c := p.block / |top|;
      OneMore(k, b);
      OneMore(k, c);
    }
  }

  lemma OneMore(k: nat, x: int)
    ensures k * x == (k - 1) * x + x
  {
  }

  /** Rounded down, the vote shares of a prefix stay below its exact share, each by less than one unit. */
  lemma {:induction false} VoteShares(p: Buckets, top: seq<Producer>, rest: seq<Producer>, k: nat)
    requires BucketsSound(p) && top != [] && k <= |top| + |rest| && TotalVotes(top + rest) > 0.0
    ensures var paid := VotePaid(Payroll(p, top, rest)[..k]) as real;
      var due := ExactShare(p.vote, TotalVotes((top + rest)[..k]), TotalVotes(top + rest));
      paid <= due && (if k == 0 then due == 0.0 else due - k as real < paid)
  {
    hide ExactShare;
    var s, all := Payroll(p, top, rest), top + rest;
    var w := TotalVotes(all);
    if k == 0 {
      NoShare(p.vote, w);
    } else {
      assert s[..k][..k - 1] == s[..k - 1];
      assert all[..k][..k - 1] == all[..k - 1];
      VoteShares(p, top, rest, k - 1);
      assert s[k - 1] == ShareOf(p, top, rest, k - 1);
      SharesAdd(p.vote, TotalVotes(all[..k - 1]), all[k - 1].votes, w);
    }
  }

  /** An exact share is to the bucket as the votes are to all votes. */
  lemma InProportion(v: int, x: real, w: real)
    requires w > 0.0
    ensures ExactShare(v, x, w) * w == v as real * x
  {
  }

  lemma NoShare(v: int, w: real)
    requires w > 0.0
    ensures ExactShare(v, 0.0, w) == 0.0
  {
  }

  lemma SharesAdd(v: int, x: real, y: real, w: real)
    requires w > 0.0
    ensures ExactShare(v, x + y, w) == ExactShare(v, x, w) + ExactShare(v, y, w)
  {
  }

  lemma WholeShare(v: int, w: real)
    requires w > 0.0
    ensures ExactShare(v, w, w) == v as real
  {
  }

  /** The votes of a prefix are part of all votes, so its exact share is part of the bucket. */
  lemma {:induction false} PrefixVotes(ps: seq<Producer>, k: nat)
    requires k <= |ps|
    ensures TotalVotes(ps[..k]) <= TotalVotes(ps)
    decreases |ps|
  {
    if k == |ps| {
      assert ps[..k] == ps;
    } else {
      assert ps[..|ps| - 1][..k] == ps[..k];
      PrefixVotes(ps[..|ps| - 1], k);
    }
  }

  lemma ShareMonotone(v: int, x: real, w: real)
    requires v >= 0 && 0.0 <= x <= w && w > 0.0
    ensures ExactShare(v, x, w) <= v as real
  {
    WholeShare(v, w);
    SharesAdd(v, x, w - x, w);
    var y := v as real * (w - x);
    assert y >= 0.0;
    assert y / w >= 0.0;
  }

  lemma ShareFits(bucket: nat, n: nat, k: nat)
    requires 0 < n && k <= n
    ensures k * (bucket / n) <= bucket
    ensures n * (bucket / n) == bucket - bucket % n
  {
    FloorTimes(bucket, n);
    MulMonotone(k, n, bucket / n, bucket / n);
    Commutes(n, bucket / n);
  }

  lemma VotesWithinBucket(p: Buckets, top: seq<Producer>, rest: seq<Producer>, k: nat)
    requires BucketsSound(p) && top != [] && k <= |top| + |rest|
    ensures VotePaid(Payroll(p, top, rest)[..k]) <= p.vote
  {
    hide ExactShare;
    var all := top + rest;
    if TotalVotes(all) > 0.0 {
      VoteShares(p, top, rest, k);
      PrefixVotes(all, k);
      ShareMonotone(p.vote, TotalVotes(all[..k]), TotalVotes(all));
    } else {
      NoVotesNoPay(p, top, rest, k);
    }
  }

  /** No prefix of the payroll is paid more than any of the three buckets holds. */
  lemma PaidWithinBuckets(p: Buckets, top: seq<Producer>, rest: seq<Producer>, k: nat)
    requires BucketsSound(p) && top != [] && k <= |top| + |rest|
    ensures var s := Payroll(p, top, rest)[..k];
      BasePaid(s) <= p.base && BlockPaid(s) <= p.block && VotePaid(s) <= p.vote
  {
    EqualShares(p, top, rest, k);
    ShareFits(p.base, |top| + |rest|, k);
    ShareFits(p.block, |top|, if k < |top| then k else |top|);
    VotesWithinBucket(p, top, rest, k);
  }

  lemma {:induction false} NoVotesNoPay(p: Buckets, top: seq<Producer>, rest: seq<Producer>, k: nat)
    requires top != [] && k <= |top| + |rest| && TotalVotes(top + rest) <= 0.0
    ensures VotePaid(Payroll(p, top, rest)[..k]) == 0
  {
    var s := Payroll(p, top, rest);
    if k > 0 {
      assert s[..k][..k - 1] == s[..k - 1];
      NoVotesNoPay(p, top, rest, k - 1);
    }
  }

  /** What stays behind: remainders of base and block, and less than one unit of votes per producer. */
  lemma Leftovers(p: Buckets, top: seq<Producer>, rest: seq<Producer>)
    requires BucketsSound(p) && top != []
    ensures var s := Payroll(p, top, rest);
      && p.base - BasePaid(s) == p.base % (|top| + |rest|)
      && p.block - BlockPaid(s) == p.block % |top|
      && 0 <= p.vote - VotePaid(s)
      && (TotalVotes(top + rest) > 0.0 ==> p.vote - VotePaid(s) < |top| + |rest|)
      && (TotalVotes(top + rest) == 0.0 ==> VotePaid(s) == 0)
  {
    hide ExactShare, ShareOf;
    var n := |top| + |rest|;
    var s := Payroll(p, top, rest);
    assert s[..n] == s && (top + rest)[..n] == top + rest;
    EqualShares(p, top, rest, n);
    ShareFits(p.base, n, n);
    ShareFits(p.block, |top|, |top|);
    VotesWithinBucket(p, top, rest, n);
    if TotalVotes(top + rest) > 0.0 {
      VoteShares(p, top, rest, n);
      WholeShare(p.vote, TotalVotes(top + rest));
    } else {
      NoVotesNoPay(p, top, rest, n);
    }
  }

  // ---------- tokens ----------

  function TotalPaid(s: seq<Share>): int { BasePaid(s) + BlockPaid(s) + VotePaid(s) }

  /** Tokens held by hddbasefound beyond the buckets. */
  function PaySurplus(l: Ledger, p: Buckets): int { Core(l, HDDBASEFOUND) - p.base - p.vote - p.block }

  /** What the payroll gives to `a`. */
  function Received(s: seq<Share>, a: Account): int {
    if s == [] then 0
    else Received(s[..|s| - 1], a) + if s[|s| - 1].owner == a then s[|s| - 1].Total() else 0
  }

  /**
   * What the i-th producer earns, straight from the lists: an equal part of the base, on the first level an equal
   * part of the blocks, and a part of the votes in proportion, all rounded down.
   */
  function Earning(p: Buckets, top: seq<Producer>, rest: seq<Producer>, i: nat): int
    requires top != [] && i < |top| + |rest|
  {
    var total := TotalVotes(top + rest);
    p.base / (|top| + |rest|)
    + (if i < |top| then p.block / |top| else 0)
    + (if total > 0.0 then ExactShare(p.vote, (top + rest)[i].votes, total).Floor else 0)
  }

  /** What the producers named `a` among the first `k` earn. */
  function Earned(p: Buckets, top: seq<Producer>, rest: seq<Producer>, k: nat, a: Account): int
    requires top != [] && k <= |top| + |rest|
  {
    if k == 0 then 0
    else
      Earned(p, top, rest, k - 1, a)
      + if (top + rest)[k - 1].owner == a then Earning(p, top, rest, k - 1) else 0
  }

  lemma ShareIsEarned(p: Buckets, top: seq<Producer>, rest: seq<Producer>, i: nat)
    requires top != [] && i < |top| + |rest|
    ensures ShareOf(p, top, rest, i).owner == (top + rest)[i].owner
    ensures ShareOf(p, top, rest, i).Total() == Earning(p, top, rest, i)
  {
    hide TotalVotes, ExactShare;
  }

  /** The payroll gives every producer what it earned. */
  lemma {:induction false} EarnedIsReceived(p: Buckets, top: seq<Producer>, rest: seq<Producer>, k: nat, a: Account)
    requires top != [] && k <= |top| + |rest|
    ensures Received(Payroll(p, top, rest)[..k], a) == Earned(p, top, rest, k, a)
    decreases k
  {
    hide TotalVotes, Earning, ShareOf;
    var s := Payroll(p, top, rest);
    if k > 0 {
      assert s[..k][..k - 1] == s[..k - 1];
      EarnedIsReceived(p, top, rest, k - 1, a);
      ShareIsEarned(p, top, rest, k - 1);
    }
  }

  /** Nobody but hddbasefound has less core tokens than before. */
  ghost predicate OnlyPaysOut(l: Ledger, l': Ledger) {
    forall a :: a != HDDBASEFOUND ==> Core(l', a) >= Core(l, a)
  }

  lemma ShareNotNegative(p: Buckets, top: seq<Producer>, rest: seq<Producer>, i: nat)
    requires BucketsSound(p) && top != [] && i < |top| + |rest|
    ensures var s := ShareOf(p, top, rest, i); s.base >= 0 && s.block >= 0 && s.vote >= 0
  {
    var v := (top + rest)[i].votes;
    var w := TotalVotes(top + rest);
    if w > 0.0 {
      var x := p.vote as real * v;
      assert x >= 0.0;
      assert x / w >= 0.0;
    }
  }

  lemma {:induction false} PayAllEffect(l: Ledger, e: Env, s: seq<Share>)
    requires Sound(l) && PayAll(l, e, s).Ok?
    requires forall i :: 0 <= i < |s| ==> s[i].Total() >= 0
    ensures var l' := PayAll(l, e, s).value;
      && Sound(l') && l'.stats == l.stats && OnlyPaysOut(l, l')
      && Core(l', HDDBASEFOUND) == Core(l, HDDBASEFOUND) - TotalPaid(s)
      && (forall a :: a != HDDBASEFOUND ==> Core(l', a) == Core(l, a) + Received(s, a))
    decreases |s|
  {
    hide Transfer;
    if s != [] {
      var last := s[|s| - 1];
      PayAllEffect(l, e, s[..|s| - 1]);
      var l1 := PayAll(l, e, s[..|s| - 1]).value;
      if last.Total() > 0 {
        TransferEffect(l1, e, HDDBASEFOUND, last.owner, Asset(last.Total(), CORE));
      }
    }
  }

  lemma AllEarned(p: Buckets, top: seq<Producer>, rest: seq<Producer>)
    requires top != []
    ensures forall a :: Received(Payroll(p, top, rest), a) == Earned(p, top, rest, |top| + |rest|, a)
  {
    hide Earned, Received;
    var n := |top| + |rest|;
    var s := Payroll(p, top, rest);
    assert s[..n] == s;
    forall a ensures Received(s, a) == Earned(p, top, rest, n, a) {
      EarnedIsReceived(p, top, rest, n, a);
    }
  }

  /** Filling issues the new tokens, hands them to hddbasefound and adds them to the buckets. */
  lemma FillEffect(l: Ledger, p: Buckets, e: Env)
    requires Sound(l) && CoreToken(l) && BucketsSound(p) && Fill(l, p, e).Ok?
    ensures InSchedule(e.now)
    ensures var (l', p') := Fill(l, p, e).value;
      var tokens := NewTokens(e.now, (e.time - p.lastFill) % U64);
      && Sound(l') && CoreToken(l') && CoreCap(l') == CoreCap(l) && l'.stats.Keys == l.stats.Keys
      && CoreSupply(l') == CoreSupply(l) + tokens
      && BucketsSound(p')
      && p'.base + p'.vote + p'.block == p.base + p.vote + p.block + tokens
      && 0 <= 3 * tokens - 5 * (p'.base - p.base) < 5
      && 0 <= (p'.vote - p.vote) - (p'.block - p.block) <= 1
      && p'.lastFill == (if (e.time - p.lastFill) % U64 == 0 then p.lastFill else e.time)
      && (forall a :: Core(l', a) == Core(l, a) + (if a == HDDBASEFOUND then tokens else 0))
  {
    hide Transfer, IssueToIssuer, NewTokens;
    var usecs := (e.time - p.lastFill) % U64;
    var tokens := NewTokens(e.now, usecs);
    if usecs == 0 {
      NoTimeNoTokens(e.now);
    } else {
      var q := Asset(tokens, CORE);
      IssueEffect(l, EOSIO, q);
      TransferEffect(IssueToIssuer(l, EOSIO, q).value, e, EOSIO, HDDBASEFOUND, q);
    }
  }

  lemma NoTimeNoTokens(now: nat)
    requires InSchedule(now)
    ensures NewTokens(now, 0) == 0
  {
  }

  /**
   * One rewardprods leaves hddbasefound exactly as solvent as it was, the buckets with their remainders, and the
   * supply larger by exactly the new tokens; every producer receives what it earned, and nobody else pays.
   */
  lemma RewardProdsEffect(l: Ledger, p: Buckets, e: Env, top: seq<Producer>, rest: seq<Producer>)
    requires Sound(l) && CoreToken(l) && BucketsSound(p) && p.lastFill > 0 && top != []
    requires RewardProds(l, p, e, top, rest).Ok?
    ensures InSchedule(e.now)
    ensures var (l', p') := RewardProds(l, p, e, top, rest).value;
      && Sound(l') && CoreToken(l') && CoreCap(l') == CoreCap(l) && l'.stats.Keys == l.stats.Keys
      && BucketsSound(p')
      && PaySurplus(l', p') == PaySurplus(l, p)
      && OnlyPaysOut(l, l')
      && (forall a :: a != HDDBASEFOUND ==>
            Core(l', a) == Core(l, a) + Earned(Fill(l, p, e).value.1, top, rest, |top| + |rest|, a))
      && p'.base == Fill(l, p, e).value.1.base % (|top| + |rest|)
      && p'.block == Fill(l, p, e).value.1.block % |top|
      && CoreSupply(l') == CoreSupply(l) + NewTokens(e.now, (e.time - p.lastFill) % U64)
      && p'.lastFill == (if (e.time - p.lastFill) % U64 == 0 then p.lastFill else e.time)
  {
    hide Fill, ExactShare, Transfer, NewTokens, Earned, Received, ShareOf;
    var (l1, p1) := Fill(l, p, e).value;
    FillEffect(l, p, e);
    AllEarned(p1, top, rest);
    var s := Payroll(p1, top, rest);
    forall i | 0 <= i < |s| ensures s[i].Total() >= 0 {
      ShareNotNegative(p1, top, rest, i);
    }
    PayAllEffect(l1, e, s);
    Leftovers(p1, top, rest);
  }

  // ---------- when pay goes through ----------

  /** Everyone who is due something can be paid by hddbasefound. */
  ghost predicate Payable(e: Env, s: seq<Share>) {
    forall i :: 0 <= i < |s| && s[i].Total() > 0 ==>
      e.isAccount(s[i].owner) && s[i].owner != HDDBASEFOUND && s[i].owner != CHANNEL_SYS
  }

  lemma PayableLast(e: Env, s: seq<Share>)
    requires s != []
    ensures var last := s[|s| - 1];
      Payable(e, s) <==>
      && Payable(e, s[..|s| - 1])
      && (last.Total() > 0 ==> e.isAccount(last.owner) && last.owner != HDDBASEFOUND && last.owner != CHANNEL_SYS)
  {
    assert s == s[..|s| - 1] + [s[|s| - 1]];
  }

  /** A payroll within the fund is paid if and only if everyone on it can be. */
  lemma {:induction false} PayAllExact(l: Ledger, e: Env, s: seq<Share>)
    requires Sound(l) && CoreToken(l) && TotalPaid(s) <= Core(l, HDDBASEFOUND)
    requires forall i :: 0 <= i < |s| ==> s[i].Total() >= 0
    ensures PayAll(l, e, s).Ok? <==> Payable(e, s)
    decreases |s|
  {
    hide Transfer, Payable;
    if s == [] {
      assert Payable(e, s) by { PayableNobody(e); }
    } else {
      var front, last := s[..|s| - 1], s[|s| - 1];
      PayableLast(e, s);
      PayAllExact(l, e, front);
      if PayAll(l, e, front).Ok? && last.Total() > 0 {
        PayAllEffect(l, e, front);
        var l1 := PayAll(l, e, front).value;
        BalanceBounds(l1, HDDBASEFOUND, CORE.code);
        TransferEffect(l1, e, HDDBASEFOUND, last.owner, Asset(last.Total(), CORE));
      }
    }
  }

  lemma PayableNobody(e: Env)
    ensures Payable(e, [])
  {
  }

  /** New tokens can be issued and handed on: within the cap, by an eosio that may send all it has beyond its lock. */
  predicate MayFill(l: Ledger, p: Buckets, e: Env) {
    && InSchedule(e.now)
    && var usecs := (e.time - p.lastFill) % U64;
       usecs > 0 ==>
         && MayIssue(l, EOSIO, Asset(NewTokens(e.now, usecs), CORE))
         && e.isAccount(HDDBASEFOUND) && !e.frozen(EOSIO)
         && Core(l, EOSIO) >= e.deposit(EOSIO) + e.lock(EOSIO)
  }

  lemma FillExact(l: Ledger, p: Buckets, e: Env)
    requires Sound(l) && CoreToken(l)
    ensures Fill(l, p, e).Ok? <==> MayFill(l, p, e)
  {
    hide Transfer, IssueToIssuer, NewTokens;
    if InSchedule(e.now) && (e.time - p.lastFill) % U64 > 0 {
      var q := Asset(NewTokens(e.now, (e.time - p.lastFill) % U64), CORE);
      IssueEffect(l, EOSIO, q);
      BalanceBounds(l, EOSIO, CORE.code);
      if MayIssue(l, EOSIO, q) {
        TransferEffect(IssueToIssuer(l, EOSIO, q).value, e, EOSIO, HDDBASEFOUND, q);
      }
    }
  }

  /**
   * While the fund covers the buckets, rewardprods never fails for lack of tokens: it goes through if and only
   * if the new tokens can be issued and every producer due something can be paid.
   */
  lemma RewardProdsFunded(l: Ledger, p: Buckets, e: Env, top: seq<Producer>, rest: seq<Producer>)
    requires Sound(l) && CoreToken(l) && BucketsSound(p) && PaySurplus(l, p) >= 0 && p.lastFill > 0 && top != []
    ensures RewardProds(l, p, e, top, rest).Ok? <==>
      MayFill(l, p, e) &&
      var filled := Fill(l, p, e);
      filled.Ok? && Payable(e, Payroll(filled.value.1, top, rest))
  {
    hide Fill, MayFill, ExactShare, ShareOf, NewTokens, Payable;
    FillExact(l, p, e);
    if Fill(l, p, e).Ok? {
      FillEffect(l, p, e);
      var (l1, p1) := Fill(l, p, e).value;
      var s := Payroll(p1, top, rest);
      forall i | 0 <= i < |s| ensures s[i].Total() >= 0 {
        ShareNotNegative(p1, top, rest, i);
      }
      Leftovers(p1, top, rest);
      PayAllExact(l1, e, s);
    }
  }

  /** Rounding down loses less than one unit. */
  lemma Rate(now: nat, usecs: nat)
    requires InSchedule(now)
    ensures var t := NewTokens(now, usecs);
      t * USECONDS_PER_YEAR <= YearlyBudget(now) * usecs < (t + 1) * USECONDS_PER_YEAR
  {
  }

  // ---------- what a loop over the payroll needs ----------

  /** If the whole payroll can be paid, so can each prefix. */
  lemma {:induction false} PayPrefix(l: Ledger, e: Env, s: seq<Share>, k: nat)
    requires k <= |s| && PayAll(l, e, s).Ok?
    ensures PayAll(l, e, s[..k]).Ok?
    decreases |s|
  {
    if k == |s| {
      assert s[..k] == s;
    } else {
      assert s[..|s| - 1][..k] == s[..k];
      PayPrefix(l, e, s[..|s| - 1], k);
    }
  }

  /** One more share: what it adds to the sums and to the payments. */
  lemma PayOneMore(l: Ledger, e: Env, s: seq<Share>, k: nat)
    requires k < |s| && PayAll(l, e, s[..k]).Ok?
    ensures BasePaid(s[..k + 1]) == BasePaid(s[..k]) + s[k].base
    ensures BlockPaid(s[..k + 1]) == BlockPaid(s[..k]) + s[k].block
    ensures VotePaid(s[..k + 1]) == VotePaid(s[..k]) + s[k].vote
    ensures PayAll(l, e, s[..k + 1]) ==
      (if s[k].Total() > 0
       then Send(PayAll(l, e, s[..k]).value, e, HDDBASEFOUND, s[k].owner, Asset(s[k].Total(), CORE))
       else PayAll(l, e, s[..k]))
  {
    assert s[..k + 1][..k] == s[..k];
  }

  /** The guard that stops a payment beyond the buckets never stops a share. */
  lemma GuardIdle(p: Buckets, top: seq<Producer>, rest: seq<Producer>, k: nat)
    requires BucketsSound(p) && top != [] && k < |top| + |rest|
    ensures var s := Payroll(p, top, rest);
      s[k].Total() + TotalPaid(s[..k]) <= p.base + p.block + p.vote
  {
    var s := Payroll(p, top, rest);
    PaidWithinBuckets(p, top, rest, k + 1);
    assert s[..k + 1][..k] == s[..k];
  }

  lemma PayNobody(l: Ledger, e: Env)
    ensures PayAll(l, e, []) == Ok(l)
  {
  }

  lemma PayAllFails(l: Ledger, e: Env, s: seq<Share>, k: nat)
    requires k <= |s| && PayAll(l, e, s[..k]).Err?
    ensures PayAll(l, e, s).Err?
  {
    if PayAll(l, e, s).Ok? {
      PayPrefix(l, e, s, k);
    }
  }

  lemma FillKeepsBuckets(l: Ledger, p: Buckets, e: Env)
    requires BucketsSound(p) && Fill(l, p, e).Ok?
    ensures BucketsSound(Fill(l, p, e).value.1)
  {
    hide Transfer, IssueToIssuer, NewTokens;
  }
}
