/**
 * The eosio.system contract: actions that change its tables step by step and send token transfers inline.
 * A method that reports failure leaves the tables as they were when the assertion failed; the chain then
 * rolls the transaction back.
 */
module SystemContracts {
  import opened Base
  import opened Arith
  import opened Ledgers
  import opened TokenContract
  import opened Markets
  import opened ExchangeRelay
  import R = Ram
  import S = Staking
  import A = Auction
  import P = ProducerPay
  import opened NameSuffix

  class SystemContract {
    const token: Token
    const market: ExchangeState

    var maxRam: nat
    var reserved: nat
    var ramStake: int

    var userres: R.UserRes
    var delband: S.Delband
    var refunds: S.Refunds
    var voters: S.Voters

    var bids: A.Bids
    var lastNameClose: nat

    var perbaseBucket: int
    var pervoteBucket: int
    var perblockBucket: int
    var lastFill: nat

    ghost function RamTables(): R.RamState
      reads this, market
    {
      R.RamState(market.State(), maxRam, reserved, ramStake)
    }

    ghost function StakeTables(): S.StakeState
      reads this
    {
      S.StakeState(delband, refunds, voters)
    }

    ghost function AuctionTables(): A.AuctionState
      reads this
    {
      A.AuctionState(bids, lastNameClose)
    }

    ghost function PayTables(): P.Buckets
      reads this
    {
      P.Buckets(perbaseBucket, pervoteBucket, perblockBucket, lastFill)
    }

    constructor (token: Token, market: ExchangeState, ram: R.RamState, userres: R.UserRes, stakes: S.StakeState,
                 auction: A.AuctionState, pay: P.Buckets)
      requires market.State() == ram.market
      ensures this.token == token && this.market == market
      ensures RamTables() == ram && this.userres == userres && StakeTables() == stakes
      ensures AuctionTables() == auction && PayTables() == pay
    {
      this.token, this.market := token, market;
      maxRam, reserved, ramStake := ram.maxRam, ram.reserved, ram.stake;
      this.userres := userres;
      delband, refunds, voters := stakes.delband, stakes.refunds, stakes.voters;
      bids, lastNameClose := auction.bids, auction.lastClose;
      perbaseBucket, pervoteBucket, perblockBucket, lastFill := pay.base, pay.vote, pay.block, pay.lastFill;
    }

    /** Puts the tables back; the market row is restored by itself. */
    method RestoreRam(ram: R.RamState, userres: R.UserRes)
      requires market.State() == ram.market
      modifies this`maxRam, this`reserved, this`ramStake, this`userres
      ensures RamTables() == ram && this.userres == userres
    {
      maxRam, reserved, ramStake := ram.maxRam, ram.reserved, ram.stake;
      this.userres := userres;
    }

    method RestoreStakes(stakes: S.StakeState)
      modifies this`delband, this`refunds, this`voters
      ensures StakeTables() == stakes
    {
      delband, refunds, voters := stakes.delband, stakes.refunds, stakes.voters;
    }

    method RestoreNamesAndPay(auction: A.AuctionState, pay: P.Buckets)
      modifies this`bids, this`lastNameClose, this`perbaseBucket, this`pervoteBucket, this`perblockBucket, this`lastFill
      ensures AuctionTables() == auction && PayTables() == pay
    {
      bids, lastNameClose := auction.bids, auction.lastClose;
      perbaseBucket, pervoteBucket, perblockBucket, lastFill := pay.base, pay.vote, pay.block, pay.lastFill;
    }

    /** An inline transfer; its memo is none that channel.sys would accept. */
    method Send(e: Env, from: Account, to: Account, q: Asset) returns (ok: bool)
      modifies token
      ensures Delivers(ok, token.State(), R.Send(old(token.State()), e, from, to, q))
    {
      if to == CHANNEL_SYS {
        return false;
      }
      ok := token.Transfer(e, from, to, q);
    }

    // ---------- RAM ----------

    method BuyRamBytes(e: Env, payer: Account, receiver: Account, bytes: nat) returns (ok: bool)
      requires market.n >= 1
      modifies this`reserved, this`ramStake, this`userres, token, market
      ensures Delivers(ok, (token.State(), RamTables(), userres),
                       R.BuyRamBytes(market.n, old(token.State()), old(RamTables()), old(userres), e,
                                     payer, receiver, bytes))
    {
      var copy := new ExchangeState(market.n, Market(market.supply, market.base, market.quote));
      var price;
      ok, price := copy.Convert(Asset(bytes, RAM), CORE);
      if ok {
        ok := BuyRam(e, payer, receiver, price);
      }
    }

    method BuyRam(e: Env, payer: Account, receiver: Account, quant: Asset) returns (ok: bool)
      requires market.n >= 1
      modifies this`reserved, this`ramStake, this`userres, token, market
      ensures Delivers(ok, (token.State(), RamTables(), userres),
                       R.BuyRam(market.n, old(token.State()), old(RamTables()), old(userres), e,
                                payer, receiver, quant))
    {
      hide Transfer, Markets.Convert, R.Send;
      if quant.amount <= 0 || R.IsYtaAccount(receiver) {
        return false;
      }
      var fee := (quant.amount + 199) / 200;
      var quantAfterFee := Asset(quant.amount - fee, quant.symbol);
      ok := Send(e, payer, EOSIO_RAM, quantAfterFee);
      if ok && fee > 0 {
        ok := Send(e, payer, EOSIO_RAMFEE, Asset(fee, quant.symbol));
      }
      if !ok {
        return;
      }
      var bytesOut;
      ok, bytesOut := market.Convert(quantAfterFee, RAM);
      if !ok || bytesOut.amount <= 0 {
        return false;
      }
      reserved := (reserved + bytesOut.amount) % U64;
      ramStake := ramStake + quantAfterFee.amount;
      if receiver !in userres {
        userres := userres[receiver := R.Resources(0, 0, bytesOut.amount)];
      } else {
        var row := userres[receiver];
        userres := userres[receiver := row.(ram := row.ram + bytesOut.amount)];
      }
    }

    method SellRam(e: Env, account: Account, bytes: int) returns (ok: bool)
      requires market.n >= 1
      modifies this`reserved, this`ramStake, this`userres, token, market
      ensures Delivers(ok, (token.State(), RamTables(), userres),
                       R.SellRam(market.n, old(token.State()), old(RamTables()), old(userres), e, account, bytes))
    {
      hide Transfer, Markets.Convert, R.Send;
      if bytes <= 0 || R.IsYtaAccount(account) || account !in userres || userres[account].ram < bytes {
        return false;
      }
      var tokensOut;
      ok, tokensOut := market.Convert(Asset(bytes, RAM), CORE);
      if !ok || tokensOut.amount <= 1 {
        return false;
      }
      reserved := (reserved - bytes) % U64;
      ramStake := ramStake - tokensOut.amount;
      if ramStake < 0 {
        return false;
      }
      var row := userres[account];
      userres := userres[account := row.(ram := row.ram - bytes)];
      ok := Send(e, EOSIO_RAM, account, tokensOut);
      var fee := (tokensOut.amount + 199) / 200;
      if ok && fee > 0 {
        ok := Send(e, account, EOSIO_RAMFEE, Asset(fee, CORE));
      }
    }

    method SetRam(size: nat) returns (ok: bool)
      modifies this`maxRam, market
      ensures Delivers(ok, RamTables(), R.SetRam(old(RamTables()), size))
    {
      if !(maxRam < size) || !(size < R.MAX_RAM_LIMIT) || !(size > reserved) {
        return false;
      }
      var delta := size - maxRam;
      market.base := market.base + delta;
      maxRam := size;
      return true;
    }

    // ---------- staking ----------

    method DelegateBw(e: Env, from: Account, receiver: Account, net: Int64, cpu: Int64, transfer: bool)
      returns (ok: bool)
      modifies this`delband, this`refunds, this`voters, this`userres, token
      ensures Delivers(ok, (token.State(), StakeTables(), userres),
                       S.DelegateBw(old(token.State()), old(StakeTables()), old(userres), e,
                                    from, receiver, net, cpu, transfer))
    {
      hide S.ChangeBw;
      var total := Plus(net, cpu);
      if cpu < 0 || net < 0 || total.Err? || total.value <= 0 || (transfer && from == receiver) {
        return false;
      }
      if transfer {
        var k := (from, CORE.code);
        if k !in token.accounts || token.accounts[k].symbol != CORE {
          return false;
        }
        var frozenAsset := e.deposit(from);
        frozenAsset := frozenAsset + e.lock(from);
        if token.accounts[k].amount - frozenAsset < total.value {
          return false;
        }
      }
      ok := ChangeBw(e, from, receiver, net, cpu, transfer);
    }

    method UndelegateBw(e: Env, from: Account, receiver: Account, net: Int64, cpu: Int64) returns (ok: bool)
      modifies this`delband, this`refunds, this`voters, this`userres, token
      ensures Delivers(ok, (token.State(), StakeTables(), userres),
                       S.UndelegateBw(old(token.State()), old(StakeTables()), old(userres), e,
                                      from, receiver, net, cpu))
    {
      hide S.ChangeBw;
      var total := Plus(cpu, net);
      if cpu < 0 || net < 0 || total.Err? || total.value <= 0 {
        return false;
      }
      ok := ChangeBw(e, from, receiver, -net, -cpu, false);
    }

    method ChangeBw(e: Env, from: Account, receiver: Account, dn: Int64, dc: Int64, transfer: bool) returns (ok: bool)
      modifies this`delband, this`refunds, this`voters, this`userres, token
      ensures Delivers(ok, (token.State(), StakeTables(), userres),
                       S.ChangeBw(old(token.State()), old(StakeTables()), old(userres), e,
                                  from, receiver, dn, dc, transfer))
    {
      hide S.Restake, S.Retotal, S.SettleAndPay, S.Revote;
      var sum := Plus(dn, dc);
      if (dn == 0 && dc == 0) || sum.Err? || Abs(sum.value) < Max(Abs(dn), Abs(dc)) {
        return false;
      }
      if R.IsYtaAccount(receiver) {
        return false;
      }
      var owner := from;
      if transfer {
        owner := receiver;
      }
      ok := UpdateDelband(owner, receiver, dn, dc);
      if !ok { return; }
      ok := UpdateTotals(receiver, dn, dc);
      if !ok { return; }
      ok := UpdateRefund(e, from, owner, receiver, dn, dc, transfer);
      if !ok { return; }
      ok := UpdateVoter(owner, dn + dc);
    }

    method UpdateDelband(owner: Account, receiver: Account, dn: Int64, dc: Int64) returns (ok: bool)
      modifies this`delband
      ensures Delivers(ok, delband, S.Restake(old(delband), owner, receiver, dn, dc))
    {
      var k := (owner, receiver);
      if k !in delband {
        if !InRange(dn) || !InRange(dc) {
          return false;
        }
        delband := delband[k := S.Stake(dn, dc)];
      } else {
        var net, cpu := Plus(delband[k].net, dn), Plus(delband[k].cpu, dc);
        if net.Err? || cpu.Err? {
          return false;
        }
        delband := delband[k := S.Stake(net.value, cpu.value)];
      }
      if delband[k].net < 0 || delband[k].cpu < 0 {
        return false;
      }
      if delband[k].net == 0 && delband[k].cpu == 0 {
        delband := delband - {k};
      }
      assert delband == S.Restake(old(delband), owner, receiver, dn, dc).value;
      return true;
    }

    method UpdateTotals(receiver: Account, dn: Int64, dc: Int64) returns (ok: bool)
      modifies this`userres
      ensures Delivers(ok, userres, S.Retotal(old(userres), receiver, dn, dc))
    {
      if receiver !in userres {
        if !InRange(dn) || !InRange(dc) {
          return false;
        }
        userres := userres[receiver := R.Resources(dn, dc, 0)];
      } else {
        var row := userres[receiver];
        var net, cpu := Plus(row.net, dn), Plus(row.cpu, dc);
        if net.Err? || cpu.Err? {
          return false;
        }
        userres := userres[receiver := R.Resources(net.value, cpu.value, row.ram)];
      }
      var tot := userres[receiver];
      if tot.net < 0 || tot.cpu < 0 {
        return false;
      }
      if tot.net == 0 && tot.cpu == 0 && tot.ram == 0 {
        userres := userres - {receiver};
      }
      assert userres == S.Retotal(old(userres), receiver, dn, dc).value;
      return true;
    }

    /** Creates, changes or erases the owner's refund and pays in what it does not cover. */
    method UpdateRefund(e: Env, from: Account, owner: Account, receiver: Account, dn: Int64, dc: Int64, transfer: bool)
      returns (ok: bool)
      modifies this`refunds, token
      ensures Delivers(ok, (refunds, token.State()),
                       S.SettleAndPay(old(token.State()), old(refunds), e, from, owner, receiver, dn, dc, transfer))
    {
      hide Transfer, S.Settle;
      if from == EOSIO_STAKE {
        return true;
      }
      var pay;
      ok, pay := NetRefund(e.now, owner, !transfer && owner == receiver, dn, dc);
      if ok && 0 < pay {
        ok := token.Transfer(e, from, EOSIO_STAKE, Asset(pay, CORE));
      }
    }

    method NetRefund(now: nat, owner: Account, toSelf: bool, dn: Int64, dc: Int64) returns (ok: bool, pay: int)
      modifies this`refunds
      ensures Delivers(ok, (refunds, pay), S.Settle(old(refunds), now, owner, toSelf, dn, dc))
    {
      var netBalance, cpuBalance: int := dn, dc;
      var isUndelegating := netBalance + cpuBalance < 0;
      pay := 0;
      if toSelf || isUndelegating {
        if owner in refunds {
          var r := refunds[owner];
          if netBalance < 0 || cpuBalance < 0 {
            r := r.(time := now);
          }
          var net, cpu := Plus(r.net, -netBalance), Plus(r.cpu, -cpuBalance);
          if net.Err? || cpu.Err? {
            return false, 0;
          }
          r := r.(net := net.value, cpu := cpu.value);
          if r.net < 0 {
            netBalance := -r.net;
            r := r.(net := 0);
          } else {
            netBalance := 0;
          }
          if r.cpu < 0 {
            cpuBalance := -r.cpu;
            r := r.(cpu := 0);
          } else {
            cpuBalance := 0;
          }
          refunds := if r.net == 0 && r.cpu == 0 then refunds - {owner} else refunds[owner := r];
        } else if netBalance < 0 || cpuBalance < 0 {
          var r := S.RefundRequest(now, 0, 0);
          if netBalance < 0 {
            r := r.(net := -netBalance);
            netBalance := 0;
          }
          if cpuBalance < 0 {
            r := r.(cpu := -cpuBalance);
            cpuBalance := 0;
          }
          refunds := refunds[owner := r];
        }
      }
      var sum := Plus(netBalance, cpuBalance);
      if sum.Err? {
        return false, 0;
      }
      return true, sum.value;
    }

    method UpdateVoter(owner: Account, total: int) returns (ok: bool)
      modifies this`voters
      ensures Delivers(ok, voters, S.Revote(old(voters), owner, total))
    {
      if owner !in voters {
        voters := voters[owner := Wrap64(total)];
      } else {
        voters := voters[owner := Wrap64(voters[owner] + total)];
      }
      return 0 <= voters[owner];
    }

    method Refund(e: Env, owner: Account) returns (ok: bool)
      modifies this`refunds, token
      ensures Delivers(ok, (token.State(), StakeTables()), S.Refund(old(token.State()), old(StakeTables()), e, owner))
    {
      hide Transfer, R.Send;
      if owner !in refunds || (refunds[owner].time + S.REFUND_DELAY) % U32 > e.now {
        return false;
      }
      var total := Plus(refunds[owner].net, refunds[owner].cpu);
      if total.Err? {
        return false;
      }
      ok := Send(e, EOSIO_STAKE, owner, Asset(total.value, CORE));
      refunds := refunds - {owner};
    }

    // ---------- names ----------

    method BidName(e: Env, bidder: Account, newname: Account, bid: Asset) returns (ok: bool)
      modifies this`bids, token
      ensures Delivers(ok, (token.State(), AuctionTables()),
                       A.BidName(old(token.State()), old(AuctionTables()), e, bidder, newname, bid))
    {
      hide Suffix, Transfer, R.Send;
      var suffix := ComputeSuffix(newname);
      if suffix != newname || newname == 0 || newname % 16 != 0 || newname / 16 % 32 != 0 || e.isAccount(newname) {
        return false;
      }
      if bid.symbol != CORE || bid.amount <= 0 {
        return false;
      }
      ok := Send(e, bidder, EOSIO_NAMES, bid);
      if !ok { return; }
      if newname !in bids {
        bids := bids[newname := A.Bid(bidder, bid.amount, e.time)];
      } else {
        var current := bids[newname];
        if current.bid <= 0 || bid.amount - current.bid <= current.bid / 10 || current.bidder == bidder {
          return false;
        }
        ok := Send(e, EOSIO_NAMES, current.bidder, Asset(current.bid, CORE));
        bids := bids[newname := A.Bid(bidder, bid.amount, e.time)];
      }
    }

    /** The part of onblock that closes an auction. */
    method OnBlock(e: Env, lastSchedule: nat, threshold: nat)
      modifies this`bids, this`lastNameClose
      ensures AuctionTables() == A.OnBlock(old(AuctionTables()), e, lastSchedule, threshold)
    {
      if (e.slot - lastSchedule) % U32 > A.SCHEDULE_SLOTS {
        if (e.slot - lastNameClose) % U32 > A.BLOCKS_PER_DAY && bids != map[] {
          var highest := A.First(bids);
          var row := bids[highest];
          if row.bid > 0 && row.time < (e.time - A.USECONDS_PER_DAY) % U64 && threshold > 0
             && (e.time - threshold) % U64 > 14 * A.USECONDS_PER_DAY {
            lastNameClose := e.slot;
            bids := bids[highest := row.(bid := -row.bid)];
          }
        }
      }
    }

    /** Looks for a dot among the first twelve characters, last first. */
    static method FindDot(newact: Account) returns (hasDot: bool)
      ensures hasDot == A.HasDot(newact)
    {
      hasDot := false;
      var tmp := newact / 16;
      assert Pow2(4) == 16;
      for i := 0 to 12
        invariant tmp == newact / Pow2(4 + 5 * i)
        invariant hasDot <==> exists j :: 12 - i <= j < 12 && Char(newact, j) == 0
      {
        assert tmp % 32 == Char(newact, 11 - i);
        hasDot := hasDot || tmp % 32 == 0;
        Pow2Add(5, 4 + 5 * i);
        assert Pow2(5) == 32;
        QuotientOfQuotient(newact, Pow2(4 + 5 * i), 32);
        tmp := tmp / 32;
      }
    }

    method NewAccount(creator: Account, newact: Account) returns (ok: bool)
      modifies this`bids, this`userres
      ensures Delivers(ok, (AuctionTables(), userres),
                       A.NewAccount(old(AuctionTables()), old(userres), creator, newact))
    {
      hide Suffix, A.HasDot;
      if creator != EOSIO {
        var hasDot := FindDot(newact);
        if hasDot {
          var suffix := ComputeSuffix(newact);
          if suffix == newact {
            if newact !in bids || bids[newact].bidder != creator || bids[newact].bid >= 0 {
              return false;
            }
            bids := bids - {newact};
          } else if creator != suffix {
            return false;
          }
        }
      }
      if newact in userres {
        return false;
      }
      userres := userres[newact := R.Resources(0, 0, 0)];
      return true;
    }

    // ---------- producer pay ----------

    method StartReward(e: Env, tops: nat, rests: nat) returns (ok: bool)
      modifies this`lastFill
      ensures ok <==> old(lastFill) == 0 && tops >= 21 && rests >= 42
      ensures lastFill == if ok then e.time else old(lastFill)
    {
      if lastFill != 0 || tops < 21 || rests < 42 {
        return false;
      }
      lastFill := e.time;
      return true;
    }

    method FillBuckets(e: Env) returns (ok: bool)
      modifies this`perbaseBucket, this`pervoteBucket, this`perblockBucket, this`lastFill, token
      ensures Delivers(ok, (token.State(), PayTables()), P.Fill(old(token.State()), old(PayTables()), e))
    {
      hide Transfer, IssueToIssuer, R.Send;
      if !P.InSchedule(e.now) {
        return false;
      }
      var usecs := (e.time - lastFill) % U64;
      var budget := P.YearlyBudget(e.now);
      if usecs > 0 {
        var newTokens := budget * usecs / P.USECONDS_PER_YEAR;
        var toBase := newTokens * 3 / 5;
        var toProducers := newTokens - toBase;
        var toBlock := toProducers / 2;
        var toVote := toProducers - toBlock;
        ok := token.Issue(e, EOSIO, EOSIO, Asset(newTokens, CORE));
        if !ok { return; }
        ok := Send(e, EOSIO, HDDBASEFOUND, Asset(newTokens, CORE));
        if !ok { return; }
        perbaseBucket := perbaseBucket + toBase;
        pervoteBucket := pervoteBucket + toVote;
        perblockBucket := perblockBucket + toBlock;
        lastFill := e.time;
      }
      return true;
    }

    static method SumVotes(top: seq<P.Producer>, rest: seq<P.Producer>) returns (total: real)
      ensures total == P.TotalVotes(top + rest)
    {
      total := 0.0;
      for i := 0 to |top|
        invariant total == P.TotalVotes(top[..i])
      {
        assert top[..i + 1][..i] == top[..i];
        total := total + top[i].votes;
      }
      assert top[..|top|] == (top + rest)[..|top|];
      for i := 0 to |rest|
        invariant total == P.TotalVotes((top + rest)[..|top| + i])
      {
        assert (top + rest)[..|top| + i + 1][..|top| + i] == (top + rest)[..|top| + i];
        total := total + rest[i].votes;
      }
      assert (top + rest)[..|top| + |rest|] == top + rest;
    }

    /** What one producer is due from the buckets. */
    method ShareFor(top: seq<P.Producer>, rest: seq<P.Producer>, totalVotes: real, i: nat) returns (s: P.Share)
      requires top != [] && i < |top| + |rest| && totalVotes == P.TotalVotes(top + rest)
      ensures s == P.ShareOf(PayTables(), top, rest, i)
    {
      hide P.ExactShare, P.TotalVotes;
      var numProducers, numMain := |top| + |rest|, |top|;
      var base := perbaseBucket / numProducers;
      var block := 0;
      if i < |top| {
        block := perblockBucket / numMain;
      }
      var it := if i < |top| then top[i] else rest[i - |top|];
      assert it == (top + rest)[i];
      var vote := 0;
      if totalVotes > 0.0 {
        vote := P.ExactShare(pervoteBucket, it.votes, totalVotes).Floor;
      }
      s := P.Share(it.owner, base, block, vote);
    }

    /**
     * Issues, fills the buckets and pays every producer, guarding each payment and clamping the buckets at
     * zero as the source does; that the result is the unguarded specification shows both to be idle.
     */
    method RewardProds(e: Env, top: seq<P.Producer>, rest: seq<P.Producer>) returns (ok: bool)
      requires P.BucketsSound(PayTables())
      modifies this`perbaseBucket, this`pervoteBucket, this`perblockBucket, this`lastFill, token
      ensures Delivers(ok, (token.State(), PayTables()),
                       P.RewardProds(old(token.State()), old(PayTables()), e, top, rest))
    {
      hide P.Fill, P.ShareOf, Transfer, R.Send, P.PayAll;
      if lastFill == 0 || |top| < 1 {
        return true;
      }
      ghost var l0, p0 := token.State(), PayTables();
      ok := FillBuckets(e);
      if !ok { return; }
      ghost var l1, p1 := token.State(), PayTables();
      P.FillKeepsBuckets(l0, p0, e);
      ghost var shares := P.Payroll(p1, top, rest);
      var totalPay := perbaseBucket + perblockBucket + pervoteBucket;
      var paidBase, paidBlock, paidVote, paidTotal := 0, 0, 0, 0;
      var totalVotes := SumVotes(top, rest);
      P.PayNobody(l1, e);
      for i := 0 to |top| + |rest|
        invariant PayTables() == p1
        invariant P.PayAll(l1, e, shares[..i]) == Ok(token.State())
        invariant paidBase == P.BasePaid(shares[..i]) && paidBlock == P.BlockPaid(shares[..i])
        invariant paidVote == P.VotePaid(shares[..i]) && paidTotal == paidBase + paidBlock + paidVote
      {
        var share := ShareFor(top, rest, totalVotes, i);
        assert share == shares[i];
        P.GuardIdle(p1, top, rest, i);
        P.PayOneMore(l1, e, shares, i);
        P.ShareNotNegative(p1, top, rest, i);
        if share.Total() > 0 && share.Total() + paidTotal <= totalPay {
          paidTotal := paidTotal + share.Total();
          paidBase := paidBase + share.base;
          paidBlock := paidBlock + share.block;
          paidVote := paidVote + share.vote;
          ok := Send(e, HDDBASEFOUND, share.owner, Asset(share.Total(), CORE));
          if !ok {
            P.PayAllFails(l1, e, shares, i + 1);
            return;
          }
        }
      }
      assert shares[..|shares|] == shares;
      P.Leftovers(p1, top, rest);
      perbaseBucket := perbaseBucket - paidBase;
      pervoteBucket := pervoteBucket - paidVote;
      perblockBucket := perblockBucket - paidBlock;
      perbaseBucket := Max(perbaseBucket, 0);
      pervoteBucket := Max(pervoteBucket, 0);
      perblockBucket := Max(perblockBucket, 0);
      return true;
    }
  }
}
