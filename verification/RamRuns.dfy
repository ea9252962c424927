/** The RAM market over whole runs: its books hold exactly while RAM is paid for in core tokens. */
module RamRuns {
  import opened Base
  import opened Ledgers
  import opened Markets
  import opened Ram
  import opened Staking
  import opened Auction
  import opened ProducerPay
  import opened Channel
  import opened Economy

  /** The byte books and the price invariant of a market created with `q0` core tokens and supply `s0`. */
  ghost predicate RamSound(w: World, q0: nat, s0: nat) {
    BytesSound(w.ram, w.userres) && PriceSound(w.ram, q0, s0)
  }

  /** What an action, when it succeeds, adds to the stake without paying it in core tokens. */
  function UnbackedBy(a: Action): nat {
    match a
    case RamAct(RamBuy(_, _, quant)) =>
      if quant.symbol == CORE || quant.amount <= 0 then 0 else quant.amount - Fee(quant.amount)
    case _ => 0
  }

  /** The same over a run: a failing transaction adds nothing. */
  function Unbacked(n: nat, w: World, log: seq<Entry>): nat
    requires n >= 1
  {
    if log == [] then 0
    else
      var k := |log| - 1;
      Unbacked(n, w, log[..k]) +
      (if Step(n, Run(n, w, log[..k]), log[k].e, log[k].a).Ok? then UnbackedBy(log[k].a) else 0)
  }

  /** The market's core tokens beyond the stake. */
  function Headroom(w: World): int { w.ram.market.quote - w.ram.stake }

  // ---------- one step ----------

  lemma OtherStepsKeepRam(n: nat, w: World, e: Env, a: Action)
    requires n >= 1 && Step(n, w, e, a).Ok? && !a.RamAct?
    ensures Step(n, w, e, a).value.ram == w.ram
    ensures !a.StakeAct? && !a.NameAct? ==> Step(n, w, e, a).value.userres == w.userres
  {
  }

  lemma RamStepHeadroom(n: nat, w: World, e: Env, a: RamAction, cap: int)
    requires n >= 1 && Kernel(w, cap) && RamStep(n, w, e, a).Ok?
    ensures Headroom(RamStep(n, w, e, a).value) == Headroom(w) - UnbackedBy(RamAct(a))
    ensures a.RamBuy? && a.quant.symbol != CORE ==> UnbackedBy(RamAct(a)) > 0
  {
    hide Sound, BookInRange, TablesAgree, AuctionSound, BuyRam, SellRam, Convert;
    match a {
      case RamBuy(payer, receiver, quant) =>
        BuyRamEffect(n, w.ledger, w.ram, w.userres, e, payer, receiver, quant);
      case RamBuyBytes(payer, receiver, bytes) =>
        RamSold(n, w.ram.market, bytes);
        BuyRamEffect(n, w.ledger, w.ram, w.userres, e, payer, receiver,
                     Convert(n, w.ram.market, Asset(bytes, RAM), CORE).value.1);
      case RamSell(account, bytes) => SellRamEffect(n, w.ledger, w.ram, w.userres, e, account, bytes);
      case RamSet(size) =>
    }
  }

  /** The stake and the market's core tokens move together, except for what is not paid in core tokens. */
  lemma StepHeadroom(n: nat, w: World, e: Env, a: Action, cap: int)
    requires n >= 1 && Kernel(w, cap) && Step(n, w, e, a).Ok?
    ensures Headroom(Step(n, w, e, a).value) == Headroom(w) - UnbackedBy(a)
  {
    hide Kernel, RamStep, TokenStep, StakeStep, NameStep, PayStep, ChannelStep;
    if a.RamAct? {
      RamStepHeadroom(n, w, e, a.r, cap);
    } else {
      OtherStepsKeepRam(n, w, e, a);
    }
  }

  lemma RamStepExact(n: nat, w: World, e: Env, a: RamAction, cap: int, q0: nat, s0: nat)
    requires n >= 1 && Kernel(w, cap) && RamSound(w, q0, s0) && RamStep(n, w, e, a).Ok?
    ensures RamSound(RamStep(n, w, e, a).value, q0, s0) <==> UnbackedBy(RamAct(a)) == 0
  {
    hide Sound, BookInRange, BytesSound, PriceSound, TablesAgree, AuctionSound, BuyRam, SellRam, SetRam, Convert;
    RamStepHeadroom(n, w, e, a, cap);
    match a {
      case RamBuy(payer, receiver, quant) =>
        BuyRamExact(n, w.ledger, w.ram, w.userres, e, payer, receiver, quant, q0, s0);
      case RamBuyBytes(payer, receiver, bytes) =>
        RamSold(n, w.ram.market, bytes);
        BuyRamExact(n, w.ledger, w.ram, w.userres, e, payer, receiver,
                    Convert(n, w.ram.market, Asset(bytes, RAM), CORE).value.1, q0, s0);
      case RamSell(account, bytes) => SellRamKeeps(n, w.ledger, w.ram, w.userres, e, account, bytes, q0, s0);
      case RamSet(size) => SetRamKeeps(w.ram, w.userres, size, q0, s0);
    }
  }

  lemma StakeStepKeepsBytes(w: World, e: Env, a: StakeAction)
    requires BytesSound(w.ram, w.userres) && StakeStep(w, e, a).Ok?
    ensures BytesSound(w.ram, StakeStep(w, e, a).value.userres)
  {
    hide BytesSound, ChangeBw, Refund;
    match a {
      case Delegate(from, receiver, net, cpu, transfer) =>
        ChangeBwKeepsBytes(w.ledger, w.stakes, w.userres, e, from, receiver, net, cpu, transfer, w.ram);
      case Undelegate(from, receiver, net, cpu) =>
        ChangeBwKeepsBytes(w.ledger, w.stakes, w.userres, e, from, receiver, -net, -cpu, false, w.ram);
      case ClaimRefund(owner) =>
    }
  }

  lemma NameStepKeepsBytes(w: World, e: Env, a: NameAction)
    requires BytesSound(w.ram, w.userres) && NameStep(w, e, a).Ok?
    ensures BytesSound(w.ram, NameStep(w, e, a).value.userres)
  {
    hide NameSuffix.Suffix, HasDot, BidName, OnBlock;
    if a.OpenAccount? {
      var u, u' := w.userres, NameStep(w, e, a).value.userres;
      assert u - {a.newact} == u' - {a.newact};
      MapSums.SumChange(u, u', RamHeld(), a.newact);
    }
  }

  /** A step keeps the market's books if and only if it does not buy RAM for anything but core tokens. */
  lemma StepKeepsRamExactly(n: nat, w: World, e: Env, a: Action, cap: int, q0: nat, s0: nat)
    requires n >= 1 && Kernel(w, cap) && RamSound(w, q0, s0) && Step(n, w, e, a).Ok?
    ensures RamSound(Step(n, w, e, a).value, q0, s0) <==> UnbackedBy(a) == 0
  {
    hide Kernel, BytesSound, PriceSound, RamStep, TokenStep, StakeStep, NameStep, PayStep, ChannelStep;
    if a.RamAct? {
      RamStepExact(n, w, e, a.r, cap, q0, s0);
    } else {
      OtherStepsKeepRam(n, w, e, a);
      if a.StakeAct? {
        StakeStepKeepsBytes(w, e, a.s);
      } else if a.NameAct? {
        NameStepKeepsBytes(w, e, a.b);
      }
    }
  }

  // ---------- runs ----------

  lemma {:induction false} RunHeadroom(n: nat, w: World, log: seq<Entry>, cap: int)
    requires n >= 1 && Kernel(w, cap)
    ensures Headroom(Run(n, w, log)) == Headroom(w) - Unbacked(n, w, log)
    decreases |log|
  {
    hide Kernel, Step, Headroom, UnbackedBy;
    if log != [] {
      var k := |log| - 1;
      RunHeadroom(n, w, log[..k], cap);
      RunKeepsKernel(n, w, log[..k], cap);
      var w1 := Run(n, w, log[..k]);
      if Step(n, w1, log[k].e, log[k].a).Ok? {
        StepHeadroom(n, w1, log[k].e, log[k].a, cap);
      }
    }
  }

  lemma {:induction false} PaidInCore(n: nat, w: World, log: seq<Entry>, cap: int, q0: nat, s0: nat)
    requires n >= 1 && Kernel(w, cap) && RamSound(w, q0, s0) && Unbacked(n, w, log) == 0
    ensures RamSound(Run(n, w, log), q0, s0)
    decreases |log|
  {
    hide Kernel, RamSound, Step, UnbackedBy;
    if log != [] {
      var k := |log| - 1;
      PaidInCore(n, w, log[..k], cap, q0, s0);
      RunKeepsKernel(n, w, log[..k], cap);
      var w1 := Run(n, w, log[..k]);
      if Step(n, w1, log[k].e, log[k].a).Ok? {
        StepKeepsRamExactly(n, w1, log[k].e, log[k].a, cap, q0, s0);
      }
    }
  }

  /**
   * After any run the market's books hold if and only if no purchase that succeeded was paid in anything but
   * core tokens: what such a purchase breaks, nothing later repairs.
   */
  lemma RunKeepsRamExactly(n: nat, w: World, log: seq<Entry>, cap: int, q0: nat, s0: nat)
    requires n >= 1 && Kernel(w, cap) && RamSound(w, q0, s0)
    ensures RamSound(Run(n, w, log), q0, s0) <==> Unbacked(n, w, log) == 0
  {
    hide Kernel, BytesSound, Run, Unbacked;
    if Unbacked(n, w, log) == 0 {
      PaidInCore(n, w, log, cap, q0, s0);
    }
    RunHeadroom(n, w, log, cap);
  }

  /** A fresh market, however small the supply it is made from. */
  lemma GenesisRam(l: Ledger, maxRam: nat, u: UserRes)
    requires CoreSupply(l) > 0 && maxRam < U64 && Opened(u)
    ensures RamSound(Genesis(l, maxRam, u), CoreSupply(l) / 1000, 100_000_000_000_000)
  {
    NewMarketIsSound(CoreSupply(l), maxRam, u);
  }

  /**
   * After any run from a fresh market in which RAM was paid for in core tokens, the market still has what it
   * was made with, and has kept its product.
   */
  lemma MarketNeverDrained(n: nat, l: Ledger, maxRam: nat, u: UserRes, log: seq<Entry>)
    requires n >= 1 && Sound(l) && CoreToken(l) && CoreSupply(l) > 0 && maxRam < U64 && Opened(u)
    requires Unbacked(n, Genesis(l, maxRam, u), log) == 0
    ensures var r := Run(n, Genesis(l, maxRam, u), log).ram;
      && r.market.supply == 100_000_000_000_000
      && r.market.quote == CoreSupply(l) / 1000 + r.stake >= CoreSupply(l) / 1000
      && r.market.base <= r.maxRam
      && r.market.base * r.market.quote >= r.maxRam * (CoreSupply(l) / 1000)
  {
    hide Sound, Run, Unbacked, Kernel, MapSums.SumBy;
    GenesisKernel(l, maxRam, u);
    GenesisRam(l, maxRam, u);
    RunKeepsRamExactly(n, Genesis(l, maxRam, u), log, CoreCap(l), CoreSupply(l) / 1000, 100_000_000_000_000);
  }
}
