/** Every contract account keeps the tokens it owes, over any run of the whole economy. */
module Solvency {
  import opened Base
  import opened Ledgers
  import opened Markets
  import opened Ram
  import opened Staking
  import opened Auction
  import opened ProducerPay
  import opened Channel
  import opened Economy
  import opened RamRuns

  /** The account whose tokens an action may spend; contracts spending their own are not listed. */
  function Spender(a: Action): Option<Account> {
    match a
    case TokenAct(TokenCreate(_, _)) => None
    case TokenAct(TokenIssue(auth, _, _, _)) => Some(auth)
    case TokenAct(TokenRetire(holder, _)) => Some(holder)
    case TokenAct(TokenTransfer(from, _, _, _)) => Some(from)
    case RamAct(RamBuy(payer, _, _)) => Some(payer)
    case RamAct(RamBuyBytes(payer, _, _)) => Some(payer)
    case RamAct(RamSell(_, _)) => None
    case RamAct(RamSet(_)) => None
    case StakeAct(Delegate(from, _, _, _, _)) => Some(from)
    case StakeAct(Undelegate(from, _, _, _)) => Some(from)
    case StakeAct(ClaimRefund(_)) => None
    case NameAct(PlaceBid(bidder, _, _)) => Some(bidder)
    case NameAct(_) => None
    case PayAct(_) => None
    case ChannelAct(_) => None
  }

  /** The five accounts that hold tokens for others. */
  datatype Holder = StakeHolder | RamHolder | NameHolder | PayHolder | ChannelHolder

  function AccountOf(h: Holder): Account {
    match h
    case StakeHolder => EOSIO_STAKE
    case RamHolder => EOSIO_RAM
    case NameHolder => EOSIO_NAMES
    case PayHolder => HDDBASEFOUND
    case ChannelHolder => CHANNEL_SYS
  }

  /** What the account has beyond what it owes. */
  ghost function Surplus(w: World, h: Holder): int {
    match h
    case StakeHolder => EscrowSurplus(w.ledger, w.stakes)
    case RamHolder => Core(w.ledger, EOSIO_RAM) - w.ram.stake
    case NameHolder => BidSurplus(w.ledger, w.auction)
    case PayHolder => PaySurplus(w.ledger, w.pay)
    case ChannelHolder => Backing(w.ledger, w.book)
  }

  /** Tokens and channel rows alone have moved, and not to the holder's loss. */
  lemma SurplusKept(w: World, l: Ledger, b: Book, h: Holder)
    requires Core(l, AccountOf(h)) >= Core(w.ledger, AccountOf(h))
    requires h.ChannelHolder? ==> Backing(l, b) >= Backing(w.ledger, w.book)
    ensures Surplus(w.(ledger := l, book := b), h) >= Surplus(w, h)
  {
  }

  lemma TokenStepCovers(w: World, e: Env, a: TokenAction, cap: int, h: Holder)
    requires Kernel(w, cap) && TokenStep(w, e, a).Ok? && Spender(TokenAct(a)) != Some(AccountOf(h))
    ensures Surplus(TokenStep(w, e, a).value, h) >= Surplus(w, h)
  {
    hide Sound, BookInRange, TablesAgree, AuctionSound, Deliver, IssueToIssuer, Retire;
    hide MapSums.SumBy, Surplus;
    var w' := TokenStep(w, e, a).value;
    match a {
      case TokenCreate(issuer, max) =>
      case TokenIssue(auth, to, q, memo) =>
        IssueEffect(w.ledger, auth, q);
        if to != auth {
          DeliverEffect(IssueToIssuer(w.ledger, auth, q).value, w.book, e, auth, to, q, memo);
        }
      case TokenRetire(holder, q) => RetireEffect(w.ledger, holder, q);
      case TokenTransfer(from, to, q, memo) => DeliverEffect(w.ledger, w.book, e, from, to, q, memo);
    }
    SurplusKept(w, w'.ledger, w'.book, h);
  }

  lemma BuyRamCovers(n: nat, w: World, e: Env, payer: Account, receiver: Account, quant: Asset, cap: int, h: Holder)
    requires n >= 1 && Kernel(w, cap) && payer != AccountOf(h)
    requires BuyRam(n, w.ledger, w.ram, w.userres, e, payer, receiver, quant).Ok?
    ensures var (l, r, u) := BuyRam(n, w.ledger, w.ram, w.userres, e, payer, receiver, quant).value;
      var w' := w.(ledger := l, ram := r, userres := u);
      if h.RamHolder? then Surplus(w', h) == Surplus(w, h) - UnbackedBy(RamAct(RamBuy(payer, receiver, quant)))
      else Surplus(w', h) >= Surplus(w, h)
  {
    hide Sound, BookInRange, TablesAgree, AuctionSound, BuyRam;
    hide MapSums.SumBy;
    BuyRamEffect(n, w.ledger, w.ram, w.userres, e, payer, receiver, quant);
  }

  lemma RamStepCovers(n: nat, w: World, e: Env, a: RamAction, cap: int, h: Holder)
    requires n >= 1 && Kernel(w, cap) && RamStep(n, w, e, a).Ok? && Spender(RamAct(a)) != Some(AccountOf(h))
    ensures if h.RamHolder? then Surplus(RamStep(n, w, e, a).value, h) == Surplus(w, h) - UnbackedBy(RamAct(a))
      else Surplus(RamStep(n, w, e, a).value, h) >= Surplus(w, h)
  {
    hide Sound, BookInRange, TablesAgree, AuctionSound, BuyRam, SellRam, Convert;
    hide MapSums.SumBy;
    match a {
      case RamBuy(payer, receiver, quant) => BuyRamCovers(n, w, e, payer, receiver, quant, cap, h);
      case RamBuyBytes(payer, receiver, bytes) =>
        RamSold(n, w.ram.market, bytes);
        BuyRamCovers(n, w, e, payer, receiver, Convert(n, w.ram.market, Asset(bytes, RAM), CORE).value.1, cap, h);
      case RamSell(account, bytes) => SellRamEffect(n, w.ledger, w.ram, w.userres, e, account, bytes);
      case RamSet(size) =>
    }
  }

  lemma ChangeBwCovers(w: World, e: Env, from: Account, receiver: Account, dn: Int64, dc: Int64, transfer: bool,
                       cap: int, h: Holder)
    requires Kernel(w, cap) && from != AccountOf(h)
    requires ChangeBw(w.ledger, w.stakes, w.userres, e, from, receiver, dn, dc, transfer).Ok?
    ensures var (l, s, u) := ChangeBw(w.ledger, w.stakes, w.userres, e, from, receiver, dn, dc, transfer).value;
      Surplus(w.(ledger := l, stakes := s, userres := u), h) >= Surplus(w, h)
  {
    hide Sound, BookInRange, TablesAgree, AuctionSound, ChangeBw;
    hide MapSums.SumBy;
    ChangeBwEffect(w.ledger, w.stakes, w.userres, e, from, receiver, dn, dc, transfer, AccountOf(h));
    ChangeBwBacked(w.ledger, w.stakes, w.userres, e, from, receiver, dn, dc, transfer);
  }

  lemma StakeStepCovers(w: World, e: Env, a: StakeAction, cap: int, h: Holder)
    requires Kernel(w, cap) && StakeStep(w, e, a).Ok? && Spender(StakeAct(a)) != Some(AccountOf(h))
    ensures Surplus(StakeStep(w, e, a).value, h) >= Surplus(w, h)
  {
    hide Sound, BookInRange, AuctionSound, ChangeBw, Refund, Surplus;
    match a {
      case Delegate(from, receiver, net, cpu, transfer) =>
        ChangeBwCovers(w, e, from, receiver, net, cpu, transfer, cap, h);
      case Undelegate(from, receiver, net, cpu) =>
        ChangeBwCovers(w, e, from, receiver, -net, -cpu, false, cap, h);
      case ClaimRefund(owner) => RefundCovers(w, e, owner, cap, h);
    }
  }

  lemma RefundCovers(w: World, e: Env, owner: Account, cap: int, h: Holder)
    requires Kernel(w, cap) && Refund(w.ledger, w.stakes, e, owner).Ok?
    ensures var (l, s) := Refund(w.ledger, w.stakes, e, owner).value;
      Surplus(w.(ledger := l, stakes := s), h) >= Surplus(w, h)
  {
    hide Sound, BookInRange, AuctionSound, Refund;
    hide MapSums.SumBy;
    RefundEffect(w.ledger, w.stakes, e, owner);
    assert Owed(w.stakes.refunds, owner) >= 0;
  }

  lemma NameStepCovers(w: World, e: Env, a: NameAction, cap: int, h: Holder)
    requires Kernel(w, cap) && NameStep(w, e, a).Ok? && Spender(NameAct(a)) != Some(AccountOf(h))
    ensures Surplus(NameStep(w, e, a).value, h) >= Surplus(w, h)
  {
    hide Sound, BookInRange, TablesAgree, AuctionSound, BidName, MayClose, NewAccount, OnBlock;
    hide MapSums.SumBy;
    match a {
      case PlaceBid(bidder, newname, bid) =>
        BidNameMoves(w.ledger, w.auction, e, bidder, newname, bid);
        BidNameBacked(w.ledger, w.auction, e, bidder, newname, bid);
      case NewBlock(lastSchedule, threshold) =>
        CloseAndClaimSurplus(w.ledger, w.auction, w.userres, e, lastSchedule, threshold, 0, 0);
      case OpenAccount(creator, newact) =>
        CloseAndClaimSurplus(w.ledger, w.auction, w.userres, e, 0, 0, creator, newact);
    }
  }

  lemma PayStepCovers(w: World, e: Env, a: PayAction, cap: int, h: Holder)
    requires Kernel(w, cap) && PayStep(w, e, a).Ok?
    ensures Surplus(PayStep(w, e, a).value, h) >= Surplus(w, h)
  {
    hide Sound, BookInRange, TablesAgree, AuctionSound, Fill, PayAll;
    hide MapSums.SumBy;
    match a {
      case StartPay(_, _) =>
      case PayProducers(top, rest) =>
        if w.pay.lastFill > 0 && top != [] {
          RewardProdsEffect(w.ledger, w.pay, e, top, rest);
        }
    }
  }

  lemma ChannelStepCovers(w: World, e: Env, a: ChannelAction, cap: int, h: Holder)
    requires Kernel(w, cap) && ChannelStep(w, e, a).Ok?
    ensures Surplus(ChannelStep(w, e, a).value, h) >= Surplus(w, h)
  {
    hide Sound, BookInRange, TablesAgree, AuctionSound, Mapc, Feetoc, Subfee, Splitgas, Rewardnode;
    hide MapSums.SumBy;
    match a {
      case MapOut(user, quant, gas) => MapcEffect(w.ledger, w.book, e, user, quant, gas);
      case FeeToBalance(user, quant) => FeetocEffect(w.book, user, quant);
      case TakeFee(user, quant) => SubfeeEffect(w.book, user, quant);
      case SplitGas => SplitgasEffect(w.book, e);
      case RewardNode(user, quant) => RewardnodeEffect(w.book, user, quant);
    }
  }

  /**
   * No action lowers what a contract account has beyond its debts, unless that account signed it; except that
   * eosio.ram answers for RAM bought with anything but core tokens, by exactly what was not paid.
   */
  lemma StepCovers(n: nat, w: World, e: Env, a: Action, cap: int, h: Holder)
    requires n >= 1 && Kernel(w, cap) && Step(n, w, e, a).Ok? && Spender(a) != Some(AccountOf(h))
    ensures Surplus(Step(n, w, e, a).value, h) >= Surplus(w, h) - (if h.RamHolder? then UnbackedBy(a) else 0)
    ensures h.RamHolder? && a.RamAct? ==> Surplus(Step(n, w, e, a).value, h) == Surplus(w, h) - UnbackedBy(a)
  {
    hide Kernel, Spender, Surplus, TokenStep, RamStep, StakeStep, NameStep, PayStep, ChannelStep;
    match a {
      case TokenAct(t) => TokenStepCovers(w, e, t, cap, h);
      case RamAct(r) => RamStepCovers(n, w, e, r, cap, h);
      case StakeAct(s) => StakeStepCovers(w, e, s, cap, h);
      case NameAct(b) => NameStepCovers(w, e, b, cap, h);
      case PayAct(p) => PayStepCovers(w, e, p, cap, h);
      case ChannelAct(c) => ChannelStepCovers(w, e, c, cap, h);
    }
  }

  /**
   * Over any run the escrows of stakes, bids, pay and the channel stay as solvent as they started, and that of
   * RAM but for the purchases not paid in core tokens.
   */
  lemma {:induction false} RunCovers(n: nat, w: World, log: seq<Entry>, cap: int, h: Holder)
    requires n >= 1 && Kernel(w, cap)
    requires forall i :: 0 <= i < |log| ==> Spender(log[i].a) != Some(AccountOf(h))
    ensures Surplus(Run(n, w, log), h) >= Surplus(w, h) - (if h.RamHolder? then Unbacked(n, w, log) else 0)
    decreases |log|
  {
    hide Kernel, Spender, Surplus, Step, UnbackedBy;
    if log != [] {
      var k := |log| - 1;
      RunCovers(n, w, log[..k], cap, h);
      RunKeepsKernel(n, w, log[..k], cap);
      var w1 := Run(n, w, log[..k]);
      if Step(n, w1, log[k].e, log[k].a).Ok? {
        StepCovers(n, w1, log[k].e, log[k].a, cap, h);
      }
    }
  }

  /**
   * A chain whose escrow starts solvent pays every due refund in every state it can reach, to every owner that
   * can receive it and to no other.
   */
  lemma RefundsAlwaysPaid(n: nat, w: World, log: seq<Entry>, cap: int, e: Env, owner: Account)
    requires n >= 1 && Kernel(w, cap) && EscrowSurplus(w.ledger, w.stakes) >= 0
    requires forall i :: 0 <= i < |log| ==> Spender(log[i].a) != Some(EOSIO_STAKE)
    requires !e.frozen(EOSIO_STAKE) && e.deposit(EOSIO_STAKE) == 0 && e.lock(EOSIO_STAKE) == 0
    ensures var q := Run(n, w, log).stakes.refunds;
      Step(n, Run(n, w, log), e, StakeAct(ClaimRefund(owner))).Ok? <==>
      owner in q && Due(q[owner], e.now) && Refundable(e, owner)
  {
    hide Sound, AuctionSound, BookInRange, Run, Refund, Due;
    hide MapSums.SumBy;
    RunKeepsKernel(n, w, log, cap);
    RunCovers(n, w, log, cap, StakeHolder);
    var w' := Run(n, w, log);
    DueRefundIsPaid(w'.ledger, w'.stakes, e, owner);
  }

  /**
   * In every state reached from a solvent auction, without eosio.names signing anything, a bid goes through
   * exactly if it is valid, high enough and can be paid: the beaten bid is always there to be returned.
   */
  lemma BeatenBidsAlwaysReturned(n: nat, w: World, log: seq<Entry>, cap: int, e: Env,
                                 bidder: Account, newname: Account, bid: Asset)
    requires n >= 1 && Kernel(w, cap) && BidSurplus(w.ledger, w.auction) >= 0
    requires forall i :: 0 <= i < |log| ==> Spender(log[i].a) != Some(EOSIO_NAMES)
    requires !e.frozen(EOSIO_NAMES) && e.deposit(EOSIO_NAMES) == 0 && e.lock(EOSIO_NAMES) == 0
    ensures var w' := Run(n, w, log);
      Step(n, w', e, NameAct(PlaceBid(bidder, newname, bid))).Ok? <==>
      && Biddable(e, newname) && bid.symbol == CORE
      && MayTransfer(w'.ledger, e, bidder, EOSIO_NAMES, bid)
      && (newname in w'.auction.bids ==>
            var current := w'.auction.bids[newname];
            && current.bid > 0 && 10 * bid.amount > 11 * current.bid && current.bidder != bidder
            && e.isAccount(current.bidder) && current.bidder != EOSIO_NAMES && current.bidder != CHANNEL_SYS)
  {
    hide Sound, AuctionSound, BookInRange, TablesAgree, Run, BidName, Biddable, Outbids, MayTransfer;
    hide MapSums.SumBy;
    RunKeepsKernel(n, w, log, cap);
    RunCovers(n, w, log, cap, NameHolder);
    var w' := Run(n, w, log);
    BeatenBidIsReturned(w'.ledger, w'.auction, e, bidder, newname, bid);
  }

  /**
   * In every state reached from a solvent fund, without hddbasefound signing anything, rewardprods goes through
   * if and only if the new tokens can be issued and every producer due something can be paid.
   */
  lemma PayAlwaysFunded(n: nat, w: World, log: seq<Entry>, cap: int, e: Env, top: seq<Producer>, rest: seq<Producer>)
    requires n >= 1 && Kernel(w, cap) && PaySurplus(w.ledger, w.pay) >= 0
    requires forall i :: 0 <= i < |log| ==> Spender(log[i].a) != Some(HDDBASEFOUND)
    requires Run(n, w, log).pay.lastFill > 0 && top != []
    ensures var w' := Run(n, w, log);
      Step(n, w', e, PayAct(PayProducers(top, rest))).Ok? <==>
      MayFill(w'.ledger, w'.pay, e) &&
      var filled := Fill(w'.ledger, w'.pay, e);
      filled.Ok? && Payable(e, Payroll(filled.value.1, top, rest))
  {
    hide Sound, AuctionSound, BookInRange, TablesAgree, Run, RewardProds, MayFill, Fill, Payable, ShareOf;
    RunKeepsKernel(n, w, log, cap);
    RunCovers(n, w, log, cap, PayHolder);
    var w' := Run(n, w, log);
    RewardProdsFunded(w'.ledger, w'.pay, e, top, rest);
  }

  // ---------- the channel's rows ----------

  /** Channel rows are non-negative and backed. */
  ghost predicate ChannelSound(w: World) { BookSound(w.book) && Backing(w.ledger, w.book) >= 0 }

  /** The gas to split is backed by tokens, so it is below the cap and its product cannot overflow. */
  lemma GasBelowCap(w: World, cap: int)
    requires Kernel(w, cap) && ChannelSound(w) && cap * 80 < I63
    ensures Row(w.book, GAS_SYS, 1) * 80 < I63
  {
    MapSums.SumBounds(w.book, EachRow(), (GAS_SYS, 1));
    BalanceBounds(w.ledger, CHANNEL_SYS, CORE.code);
  }

  lemma StepKeepsRows(n: nat, w: World, e: Env, a: Action, cap: int)
    requires n >= 1 && Kernel(w, cap) && ChannelSound(w) && cap * 80 < I63 && Step(n, w, e, a).Ok?
    ensures BookSound(Step(n, w, e, a).value.book)
  {
    hide Sound, AuctionSound, BookInRange, BookSound, TablesAgree, BucketsSound;
    hide Deliver, IssueToIssuer, RamStep, StakeStep, NameStep, PayStep, Mapc, Feetoc, Subfee, Splitgas, Rewardnode;
    OtherStepsKeepBook(n, w, e, a);
    match a {
      case TokenAct(TokenIssue(auth, to, q, memo)) =>
        IssueEffect(w.ledger, auth, q);
        if to != auth {
          DeliverEffect(IssueToIssuer(w.ledger, auth, q).value, w.book, e, auth, to, q, memo);
        }
      case TokenAct(TokenTransfer(from, to, q, memo)) => DeliverEffect(w.ledger, w.book, e, from, to, q, memo);
      case ChannelAct(MapOut(user, quant, gas)) => MapcEffect(w.ledger, w.book, e, user, quant, gas);
      case ChannelAct(FeeToBalance(user, quant)) => FeetocEffect(w.book, user, quant);
      case ChannelAct(TakeFee(user, quant)) => SubfeeEffect(w.book, user, quant);
      case ChannelAct(SplitGas) =>
        GasBelowCap(w, cap);
        SplitgasEffect(w.book, e);
      case ChannelAct(RewardNode(user, quant)) => RewardnodeEffect(w.book, user, quant);
      case _ =>
    }
  }

  lemma OtherStepsKeepBook(n: nat, w: World, e: Env, a: Action)
    requires n >= 1 && Step(n, w, e, a).Ok?
    ensures !a.TokenAct? && !a.ChannelAct? ==> Step(n, w, e, a).value.book == w.book
  {
  }

  /**
   * If the core cap is below 2^63/80, no channel row ever becomes negative: every row stays backed, so the
   * gas is within the supply and the split never overflows.
   */
  lemma {:induction false} RunKeepsRows(n: nat, w: World, log: seq<Entry>, cap: int)
    requires n >= 1 && Kernel(w, cap) && ChannelSound(w) && cap * 80 < I63
    requires forall i :: 0 <= i < |log| ==> Spender(log[i].a) != Some(CHANNEL_SYS)
    ensures ChannelSound(Run(n, w, log))
    decreases |log|
  {
    hide Kernel, Spender, Step, BookSound, Backing;
    if log != [] {
      var k := |log| - 1;
      RunKeepsRows(n, w, log[..k], cap);
      RunKeepsKernel(n, w, log[..k], cap);
      var w1 := Run(n, w, log[..k]);
      if Step(n, w1, log[k].e, log[k].a).Ok? {
        StepKeepsRows(n, w1, log[k].e, log[k].a, cap);
        StepCovers(n, w1, log[k].e, log[k].a, cap, ChannelHolder);
      }
    }
  }

  /** A chain with that cap, all of whose issued tokens are gas collected by the channel. */
  function GasWorld(cap: int): World {
    var l := Ledger(map[CORE.code := Stat(OVERFLOWING_GAS, cap, CORE, EOSIO)],
                    map[(CHANNEL_SYS, CORE.code) := Asset(OVERFLOWING_GAS, CORE)]);
    Genesis(l, 0, map[]).(book := GasOnly())
  }

  lemma GasWorldSound(cap: int)
    requires OVERFLOWING_GAS <= cap <= MAX_AMOUNT
    ensures Kernel(GasWorld(cap), cap) && ChannelSound(GasWorld(cap))
  {
    var l := GasWorld(cap).ledger;
    var k: (Account, nat) := (CHANNEL_SYS, CORE.code);
    MapSums.SumSplit(l.accounts, HeldIn(CORE.code), k);
    assert l.accounts - {k} == map[];
    assert TotalHeld(l, CORE.code) == OVERFLOWING_GAS;
    GenesisKernel(l, 0, map[]);
    GasOnlyTotal();
  }

  lemma GasWorldOverflows(n: nat, cap: int)
    requires n >= 1
    ensures !ChannelSound(Run(n, GasWorld(cap), [Entry(UsdPriced(), ChannelAct(SplitGas))]))
  {
    hide Splitgas;
    SplitOverflows();
    var log := [Entry(UsdPriced(), ChannelAct(SplitGas))];
    assert log[..0] == [];
    assert Run(n, GasWorld(cap), log) == Apply(n, GasWorld(cap), log[0]);
  }

  ghost predicate NotSignedBy(log: seq<Entry>, a: Account) {
    forall i :: 0 <= i < |log| ==> Spender(log[i].a) != Some(a)
  }

  /** The bound is the right one: channel rows stay non-negative and backed in all runs exactly below it. */
  lemma RowsStayExactly(n: nat, cap: int)
    requires n >= 1 && cap <= MAX_AMOUNT
    ensures (forall w, log ::
               Kernel(w, cap) && ChannelSound(w) && NotSignedBy(log, CHANNEL_SYS)
               ==> ChannelSound(Run(n, w, log)))
      <==> cap * 80 < I63
  {
    hide Kernel, ChannelSound, Run, GasWorld;
    if cap * 80 < I63 {
      forall w, log | Kernel(w, cap) && ChannelSound(w) && NotSignedBy(log, CHANNEL_SYS)
        ensures ChannelSound(Run(n, w, log))
      {
        RunKeepsRows(n, w, log, cap);
      }
    } else {
      GasWorldSound(cap);
      GasWorldOverflows(n, cap);
      assert NotSignedBy([Entry(UsdPriced(), ChannelAct(SplitGas))], CHANNEL_SYS);
    }
  }

  // ---------- from the beginning ----------

  /** At the start every contract account has at least what it owes. */
  lemma GenesisSolvent(l: Ledger, maxRam: nat, u: UserRes, h: Holder)
    requires Sound(l) && CoreSupply(l) > 0
    ensures Surplus(Genesis(l, maxRam, u), h) >= 0
  {
    BalanceBounds(l, AccountOf(h), CORE.code);
  }

  /**
   * After any run from a fresh market in which RAM was paid for in core tokens, every quota can be sold without
   * the stake going negative, and eosio.ram has the tokens to pay for it.
   */
  lemma SalesAlwaysCovered(n: nat, l: Ledger, maxRam: nat, u: UserRes, log: seq<Entry>, account: Account, bytes: int)
    requires n >= 1 && Sound(l) && CoreToken(l) && CoreSupply(l) > 0 && maxRam < U64 && Opened(u)
    requires Unbacked(n, Genesis(l, maxRam, u), log) == 0
    requires forall i :: 0 <= i < |log| ==> Spender(log[i].a) != Some(EOSIO_RAM)
    requires 0 < bytes <= Quota(Run(n, Genesis(l, maxRam, u), log).userres, account)
    ensures var w := Run(n, Genesis(l, maxRam, u), log);
      && Convert(n, w.ram.market, Asset(bytes, RAM), CORE).Ok?
      && var out := Convert(n, w.ram.market, Asset(bytes, RAM), CORE).value.1.amount;
         out <= w.ram.stake <= Core(w.ledger, EOSIO_RAM)
  {
    hide Sound, TablesAgree, AuctionSound, BookInRange, Run, Unbacked, Convert, Spender;
    hide MapSums.SumBy;
    var w0 := Genesis(l, maxRam, u);
    GenesisKernel(l, maxRam, u);
    GenesisRam(l, maxRam, u);
    GenesisSolvent(l, maxRam, u, RamHolder);
    RunKeepsRamExactly(n, w0, log, CoreCap(l), CoreSupply(l) / 1000, 100_000_000_000_000);
    RunCovers(n, w0, log, CoreCap(l), RamHolder);
    var w := Run(n, w0, log);
    SellKeeps(n, w.ram, w.userres, account, bytes, CoreSupply(l) / 1000, 100_000_000_000_000);
  }
}
