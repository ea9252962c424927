/** The contracts together, and transactions that either take effect as a whole or not at all. */
module Chains {
  import opened Base
  import opened Ledgers
  import opened TokenContract
  import opened Markets
  import opened ExchangeRelay
  import R = Ram
  import S = Staking
  import A = Auction
  import P = ProducerPay
  import C = Channel
  import opened SystemContracts
  import opened ChannelContract
  import opened Economy
  import opened RamRuns

  class Chain {
    const token: Token
    const market: ExchangeState
    const system: SystemContract
    const channel: ChannelSys

    ghost predicate Linked()
      reads this
    {
      system.token == token && channel.token == token && system.market == market && market.n >= 1
    }

    ghost function State(): World
      requires Linked()
      reads this, token, market, system, channel
    {
      World(token.State(), channel.cbalances, system.RamTables(), system.userres, system.StakeTables(),
            system.AuctionTables(), system.PayTables())
    }

    constructor (token: Token, market: ExchangeState, system: SystemContract, channel: ChannelSys)
      requires system.token == token && channel.token == token && system.market == market && market.n >= 1
      ensures this.token == token && this.market == market && this.system == system && this.channel == channel
      ensures Linked()
    {
      this.token, this.market, this.system, this.channel := token, market, system, channel;
    }

    method PushToken(e: Env, a: TokenAction) returns (ok: bool)
      requires Linked()
      modifies token, channel
      ensures Delivers(ok, State(), TokenStep(old(State()), e, a))
    {
      hide Ledgers.Create, Ledgers.Retire, IssueToIssuer, C.Deliver, Transfer;
      match a
      case TokenCreate(issuer, max) => ok := token.Create(issuer, max);
      case TokenIssue(auth, to, q, memo) =>
        ok := token.Issue(e, auth, auth, q);
        if ok && to != auth {
          ok := channel.Deliver(e, auth, to, q, memo);
        }
      case TokenRetire(holder, q) => ok := token.Retire(holder, q);
      case TokenTransfer(from, to, q, memo) => ok := channel.Deliver(e, from, to, q, memo);
    }

    method PushRam(e: Env, a: RamAction) returns (ok: bool)
      requires Linked()
      modifies token, market, system
      ensures Delivers(ok, State(), RamStep(market.n, old(State()), e, a))
    {
      hide R.BuyRam, R.BuyRamBytes, R.SellRam, R.SetRam;
      match a
      case RamBuy(payer, receiver, quant) => ok := system.BuyRam(e, payer, receiver, quant);
      case RamBuyBytes(payer, receiver, bytes) => ok := system.BuyRamBytes(e, payer, receiver, bytes);
      case RamSell(account, bytes) => ok := system.SellRam(e, account, bytes);
      case RamSet(size) => ok := system.SetRam(size);
    }

    method PushStake(e: Env, a: StakeAction) returns (ok: bool)
      requires Linked()
      modifies token, system
      ensures Delivers(ok, State(), StakeStep(old(State()), e, a))
    {
      hide S.DelegateBw, S.UndelegateBw, S.Refund;
      match a
      case Delegate(from, receiver, net, cpu, transfer) =>
        ok := system.DelegateBw(e, from, receiver, net, cpu, transfer);
      case Undelegate(from, receiver, net, cpu) => ok := system.UndelegateBw(e, from, receiver, net, cpu);
      case ClaimRefund(owner) => ok := system.Refund(e, owner);
    }

    method PushName(e: Env, a: NameAction) returns (ok: bool)
      requires Linked()
      modifies token, system
      ensures Delivers(ok, State(), NameStep(old(State()), e, a))
    {
      hide A.BidName, A.OnBlock, A.NewAccount;
      match a
      case PlaceBid(bidder, newname, bid) => ok := system.BidName(e, bidder, newname, bid);
      case NewBlock(lastSchedule, threshold) =>
        system.OnBlock(e, lastSchedule, threshold);
        ok := true;
      case OpenAccount(creator, newact) => ok := system.NewAccount(creator, newact);
    }

    method PushPay(e: Env, a: PayAction) returns (ok: bool)
      requires Linked() && P.BucketsSound(system.PayTables())
      modifies token, system
      ensures Delivers(ok, State(), PayStep(old(State()), e, a))
    {
      hide P.RewardProds;
      match a
      case StartPay(tops, rests) => ok := system.StartReward(e, tops, rests);
      case PayProducers(top, rest) => ok := system.RewardProds(e, top, rest);
    }

    method PushChannel(e: Env, a: ChannelAction) returns (ok: bool)
      requires Linked()
      modifies token, channel
      ensures Delivers(ok, State(), ChannelStep(old(State()), e, a))
    {
      hide C.Mapc, C.Feetoc, C.Subfee, C.Splitgas, C.Rewardnode;
      match a
      case MapOut(user, quant, gas) => ok := channel.Mapc(e, user, quant, gas);
      case FeeToBalance(user, quant) => ok := channel.Feetoc(user, quant);
      case TakeFee(user, quant) => ok := channel.Subfee(user, quant);
      case SplitGas => ok := channel.Splitgas(e);
      case RewardNode(user, quant) => ok := channel.Rewardnode(user, quant);
    }

    /** Puts every table back. */
    method Restore(w: World)
      requires Linked()
      modifies token, market, system, channel
      ensures State() == w
    {
      token.Restore(w.ledger);
      market.Restore(w.ram.market);
      channel.Restore(w.book);
      system.RestoreRam(w.ram, w.userres);
      system.RestoreStakes(w.stakes);
      system.RestoreNamesAndPay(w.auction, w.pay);
    }

    method Snapshot() returns (w: World)
      requires Linked()
      ensures w == State()
    {
      var relay := Market(market.supply, market.base, market.quote);
      var ram := R.RamState(relay, system.maxRam, system.reserved, system.ramStake);
      w := World(Ledger(token.stats, token.accounts), channel.cbalances, ram, system.userres,
                 S.StakeState(system.delband, system.refunds, system.voters),
                 A.AuctionState(system.bids, system.lastNameClose),
                 P.Buckets(system.perbaseBucket, system.pervoteBucket, system.perblockBucket, system.lastFill));
    }

    /**
     * Runs one transaction: all of it, or, when any assertion on the way fails, none of it. The books of
     * every contract are kept either way, and those of the RAM market unless RAM was bought with something
     * else than core tokens.
     */
    method Push(e: Env, a: Action, ghost cap: int, ghost q0: nat, ghost s0: nat) returns (ok: bool)
      requires Linked() && Kernel(State(), cap)
      modifies token, market, system, channel
      ensures ok <==> Step(market.n, old(State()), e, a).Ok?
      ensures State() == Apply(market.n, old(State()), Entry(e, a))
      ensures Kernel(State(), cap)
      ensures old(RamSound(State(), q0, s0)) ==>
        (RamSound(State(), q0, s0) <==> !ok || UnbackedBy(a) == 0)
    {
      hide Kernel, RamSound, TokenStep, RamStep, StakeStep, NameStep, PayStep, ChannelStep;
      var before := Snapshot();
      match a {
        case TokenAct(t) => ok := PushToken(e, t);
        case RamAct(r) => ok := PushRam(e, r);
        case StakeAct(s) => ok := PushStake(e, s);
        case NameAct(b) => ok := PushName(e, b);
        case PayAct(p) =>
          KernelBuckets(before, cap);
          ok := PushPay(e, p);
        case ChannelAct(c) => ok := PushChannel(e, c);
      }
      if ok {
        StepKeepsKernel(market.n, before, e, a, cap);
        if RamSound(before, q0, s0) {
          StepKeepsRamExactly(market.n, before, e, a, cap, q0, s0);
        }
      } else {
        Restore(before);
      }
    }
  }

  lemma KernelBuckets(w: World, cap: int)
    requires Kernel(w, cap)
    ensures P.BucketsSound(w.pay)
  {
  }
}
