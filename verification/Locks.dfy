/** Locked tokens may be staked, but over any run they never leave their holder. */
module Locks {
  import opened Base
  import opened Ledgers
  import opened Markets
  import opened Ram
  import opened Staking
  import opened Auction
  import opened ProducerPay
  import opened Channel
  import opened Economy

  /** The escrow of stakes, and the two senders whose deposits and locks the token contract never looks at. */
  predicate Unprotected(a: Account) { a == EOSIO_STAKE || a == HDDBASEFOUND || a == FUND_SYS }

  /** Receivers for which a sender's lock does not count. */
  predicate Lenient(to: Account) { to == EOSIO_STAKE || to == YOTTAFORFEIT || to == FORFEIT_SYS }

  /**
   * The ways by which locked tokens may leave a holder: sent to a lenient receiver, by a transfer of its own or
   * as the proceeds of RAM or a beaten bid that eosio.ram or eosio.names pays out, and retirement.
   */
  predicate ExemptRoute(w: World, act: Action, a: Account) {
    match act
    case TokenAct(TokenTransfer(from, to, q, _)) => from == a && Lenient(to)
    case TokenAct(TokenRetire(holder, _)) => holder == a
    case RamAct(RamSell(seller, _)) => a == EOSIO_RAM && Lenient(seller)
    case NameAct(PlaceBid(_, newname, _)) =>
      a == EOSIO_NAMES && newname in w.auction.bids && Lenient(w.auction.bids[newname].bidder)
    case _ => false
  }

  ghost function WealthOf(w: World, a: Account): int { Wealth(w.ledger, w.stakes, a) }

  /** After a step the holder has no less than before, or at least what is deposited and locked. */
  ghost predicate Held(w: World, w': World, e: Env, a: Account) {
    WealthOf(w', a) >= WealthOf(w, a) || WealthOf(w', a) >= e.deposit(a) + e.lock(a)
  }

  /** Stakes and refunds unchanged, it is enough that the liquid tokens stay. */
  lemma LiquidHeld(w: World, w': World, e: Env, a: Account)
    requires TablesAgree(w.stakes, w.userres) && w'.stakes == w.stakes
    requires KeepsLock(w.ledger, w'.ledger, e, a)
    ensures Held(w, w', e, a)
  {
    hide MapSums.SumBy;
    StakeBounds(w.stakes.delband, a, a);
  }

  lemma TokenStepHolds(w: World, e: Env, t: TokenAction, cap: int, a: Account)
    requires Kernel(w, cap) && TokenStep(w, e, t).Ok?
    requires !Unprotected(a) && !ExemptRoute(w, TokenAct(t), a)
    ensures KeepsLock(w.ledger, TokenStep(w, e, t).value.ledger, e, a)
  {
    hide Sound, BookInRange, TablesAgree, AuctionSound, IssueToIssuer, Retire, Transfer;
    match t {
      case TokenCreate(issuer, max) =>
      case TokenIssue(auth, to, q, memo) =>
        IssueEffect(w.ledger, auth, q);
        if to != auth {
          var l := IssueToIssuer(w.ledger, auth, q).value;
          TransferEffect(l, e, auth, to, q);
          DeliverKeepsLock(l, w.book, e, auth, to, q, memo, a);
        }
      case TokenRetire(holder, q) => RetireEffect(w.ledger, holder, q);
      case TokenTransfer(from, to, q, memo) =>
        if a == from && q.symbol == CORE { TransferKeepsLock(w.ledger, e, from, to, q, a); }
        DeliverKeepsLock(w.ledger, w.book, e, from, to, q, memo, a);
    }
  }

  /** Passing a deposit on can only add to a user's tokens, and leaves channel.sys as it was. */
  lemma DeliverKeepsLock(l: Ledger, b: Book, e: Env, from: Account, to: Account, q: Asset, memo: Memo, a: Account)
    requires Sound(l) && CoreToken(l) && Deliver(l, b, e, from, to, q, memo).Ok?
    ensures var l' := Deliver(l, b, e, from, to, q, memo).value.0;
      && (a == from ==> Core(l', a) >= Core(Transfer(l, e, from, to, q).value, a))
      && (a != from || q.symbol != CORE ==> Core(l', a) >= Core(l, a))
      && Core(l', a) >= Core(l, a) - (if a == from && q.symbol == CORE then q.amount else 0)
  {
    hide Transfer, Add;
    TransferEffect(l, e, from, to, q);
    var l1 := Transfer(l, e, from, to, q).value;
    if to == CHANNEL_SYS && memo.kind == 4 {
      TransferEffect(l1, e, CHANNEL_SYS, memo.user, q);
    }
  }

  lemma RamStepHolds(n: nat, w: World, e: Env, r: RamAction, cap: int, a: Account)
    requires n >= 1 && Kernel(w, cap) && RamStep(n, w, e, r).Ok?
    requires !Unprotected(a) && !ExemptRoute(w, RamAct(r), a)
    ensures KeepsLock(w.ledger, RamStep(n, w, e, r).value.ledger, e, a)
  {
    hide Sound, BookInRange, TablesAgree, AuctionSound, BuyRam, SellRam, Convert;
    match r {
      case RamBuy(payer, receiver, quant) =>
        BuyRamKeepsLock(n, w.ledger, w.ram, w.userres, e, payer, receiver, quant, a);
      case RamBuyBytes(payer, receiver, bytes) =>
        BuyRamKeepsLock(n, w.ledger, w.ram, w.userres, e, payer, receiver,
                        Convert(n, w.ram.market, Asset(bytes, RAM), CORE).value.1, a);
      case RamSell(account, bytes) => SellRamKeepsLock(n, w.ledger, w.ram, w.userres, e, account, bytes, a);
      case RamSet(size) =>
    }
  }

  lemma StakeStepHolds(w: World, e: Env, s: StakeAction, cap: int, a: Account)
    requires Kernel(w, cap) && StakeStep(w, e, s).Ok? && !Unprotected(a)
    ensures Held(w, StakeStep(w, e, s).value, e, a)
  {
    hide Sound, BookInRange, TablesAgree, AuctionSound, ChangeBw, Refund;
    hide MapSums.SumBy;
    match s {
      case Delegate(from, receiver, net, cpu, transfer) =>
        if from == EOSIO_STAKE {
          ChangeBwEffect(w.ledger, w.stakes, w.userres, e, from, receiver, net, cpu, transfer, a);
        } else {
          DelegateKeepsLock(w.ledger, w.stakes, w.userres, e, from, receiver, net, cpu, transfer, a);
        }
      case Undelegate(from, receiver, net, cpu) =>
        if from == EOSIO_STAKE {
          ChangeBwEffect(w.ledger, w.stakes, w.userres, e, from, receiver, -net, -cpu, false, a);
        } else {
          ChangeBwKeepsWealth(w.ledger, w.stakes, w.userres, e, from, receiver, -net, -cpu, false, a);
        }
      case ClaimRefund(owner) => RefundHolds(w, e, owner, cap, a);
    }
  }

  lemma RefundHolds(w: World, e: Env, owner: Account, cap: int, a: Account)
    requires Kernel(w, cap) && Refund(w.ledger, w.stakes, e, owner).Ok? && a != EOSIO_STAKE
    ensures var (l, s) := Refund(w.ledger, w.stakes, e, owner).value;
      Wealth(l, s, a) == WealthOf(w, a)
  {
    hide Refund;
    RefundEffect(w.ledger, w.stakes, e, owner);
  }

  /** Whatever the action, a user's tokens, stakes and refunds together keep the deposit and the lock. */
  lemma StepHolds(n: nat, w: World, e: Env, act: Action, cap: int, a: Account)
    requires n >= 1 && Kernel(w, cap) && Step(n, w, e, act).Ok?
    requires !Unprotected(a) && !ExemptRoute(w, act, a)
    ensures Held(w, Step(n, w, e, act).value, e, a)
  {
    hide Sound, BookInRange, TablesAgree, AuctionSound, Held, KeepsLock;
    hide BidName, OnBlock, NewAccount, RewardProds, Mapc, Feetoc, Subfee, Splitgas, Rewardnode;
    hide TokenStep, RamStep, StakeStep;
    var w' := Step(n, w, e, act).value;
    match act {
      case TokenAct(t) =>
        TokenStepHolds(w, e, t, cap, a);
        TokenKeepsStakes(w, e, t);
        LiquidHeld(w, w', e, a);
      case RamAct(r) =>
        RamStepHolds(n, w, e, r, cap, a);
        RamKeepsStakes(n, w, e, r);
        LiquidHeld(w, w', e, a);
      case StakeAct(s) => StakeStepHolds(w, e, s, cap, a);
      case NameAct(b) =>
        NameStepHolds(w, e, b, cap, a);
        LiquidHeld(w, w', e, a);
      case PayAct(p) =>
        PayStepHolds(w, e, p, cap, a);
        LiquidHeld(w, w', e, a);
      case ChannelAct(c) =>
        ChannelStepHolds(w, e, c, cap, a);
        LiquidHeld(w, w', e, a);
    }
  }

  lemma TokenKeepsStakes(w: World, e: Env, t: TokenAction)
    requires TokenStep(w, e, t).Ok?
    ensures TokenStep(w, e, t).value.stakes == w.stakes
  {
  }

  lemma RamKeepsStakes(n: nat, w: World, e: Env, r: RamAction)
    requires n >= 1 && RamStep(n, w, e, r).Ok?
    ensures RamStep(n, w, e, r).value.stakes == w.stakes
  {
    hide BuyRam, BuyRamBytes, SellRam, SetRam;
  }

  lemma NameStepHolds(w: World, e: Env, b: NameAction, cap: int, a: Account)
    requires Kernel(w, cap) && NameStep(w, e, b).Ok?
    requires !Unprotected(a) && !ExemptRoute(w, NameAct(b), a)
    ensures KeepsLock(w.ledger, NameStep(w, e, b).value.ledger, e, a)
  {
    hide Sound, BidName, OnBlock, NewAccount;
    match b {
      case PlaceBid(bidder, newname, bid) => BidNameKeepsLock(w.ledger, w.auction, e, bidder, newname, bid, a);
      case NewBlock(_, _) =>
      case OpenAccount(_, _) =>
    }
  }

  lemma PayStepHolds(w: World, e: Env, p: PayAction, cap: int, a: Account)
    requires Kernel(w, cap) && PayStep(w, e, p).Ok? && !Unprotected(a)
    ensures KeepsLock(w.ledger, PayStep(w, e, p).value.ledger, e, a)
  {
    hide Sound, Fill, PayAll;
    match p {
      case StartPay(_, _) =>
      case PayProducers(top, rest) =>
        if w.pay.lastFill > 0 && top != [] {
          RewardProdsEffect(w.ledger, w.pay, e, top, rest);
        }
    }
  }

  lemma ChannelStepHolds(w: World, e: Env, c: ChannelAction, cap: int, a: Account)
    requires Kernel(w, cap) && ChannelStep(w, e, c).Ok? && !Unprotected(a)
    ensures KeepsLock(w.ledger, ChannelStep(w, e, c).value.ledger, e, a)
  {
    hide Sound, Mapc, Feetoc, Subfee, Splitgas, Rewardnode;
    match c {
      case MapOut(user, quant, gas) => MapcKeepsLock(w.ledger, w.book, e, user, quant, gas, a);
      case FeeToBalance(_, _) =>
      case TakeFee(_, _) =>
      case SplitGas =>
      case RewardNode(_, _) =>
    }
  }

  /** Both transfers of mapc respect what channel.sys has deposited and locked. */
  lemma MapcKeepsLock(l: Ledger, b: Book, e: Env, user: Account, quant: Asset, gas: Asset, a: Account)
    requires Sound(l) && CoreToken(l) && BookInRange(b) && Mapc(l, b, e, user, quant, gas).Ok?
    ensures KeepsLock(l, Mapc(l, b, e, user, quant, gas).value.0, e, a)
  {
    hide Transfer, Take, MapSums.SumBy;
    TransferEffect(l, e, CHANNEL_SYS, YTAPRO_MAP, quant);
    var l1 := Transfer(l, e, CHANNEL_SYS, YTAPRO_MAP, quant).value;
    TransferEffect(l1, e, CHANNEL_SYS, YTAPRO_MAP, gas);
  }

  /**
   * A user who starts with at least `floor` in all, and whose deposit and lock never fall below `floor`,
   * still has at least `floor` after any run without an exempt route.
   */
  lemma {:induction false} LockedTokensStay(n: nat, w: World, log: seq<Entry>, cap: int, a: Account, floor: nat)
    requires n >= 1 && Kernel(w, cap) && !Unprotected(a) && WealthOf(w, a) >= floor
    requires forall i :: 0 <= i < |log| ==> !ExemptRoute(Run(n, w, log[..i]), log[i].a, a)
    requires forall i :: 0 <= i < |log| ==> log[i].e.deposit(a) + log[i].e.lock(a) >= floor
    ensures WealthOf(Run(n, w, log), a) >= floor
    decreases |log|
  {
    hide Kernel, ExemptRoute, Step, WealthOf;
    if log != [] {
      var k := |log| - 1;
      forall i | 0 <= i < k ensures !ExemptRoute(Run(n, w, log[..k][..i]), log[..k][i].a, a) {
        assert log[..k][..i] == log[..i];
      }
      LockedTokensStay(n, w, log[..k], cap, a, floor);
      RunKeepsKernel(n, w, log[..k], cap);
      var w1 := Run(n, w, log[..k]);
      if Step(n, w1, log[k].e, log[k].a).Ok? {
        StepHolds(n, w1, log[k].e, log[k].a, cap, a);
      }
    }
  }

  // ---------- why delegatebw checks stakes given away ----------

  /** One holder with ten locked units, and nothing else. */
  function TenLocked(): Ledger {
    Ledger(map[CORE.code := Stat(10, 10, CORE, EOSIO)], map[(1, CORE.code) := Asset(10, CORE)])
  }

  function AllLocked(): Env {
    Env(0, 0, 0, a => true, a => 0, a => 10, a => false, 0, 0)
  }

  /**
   * changebw itself lets locked tokens be staked, and so would let them be given away: without the check
   * in delegatebw, a holder with only locked tokens ends with none.
   */
  lemma GivingAwayNeedsTheCheck()
    ensures var s := StakeState(map[], map[], map[]);
      var r := ChangeBw(TenLocked(), s, map[], AllLocked(), 1, 2, 10, 0, true);
      && Wealth(TenLocked(), s, 1) >= AllLocked().deposit(1) + AllLocked().lock(1)
      && r.Ok?
      && Wealth(r.value.0, r.value.1, 1) < AllLocked().deposit(1) + AllLocked().lock(1)
      && DelegateBw(TenLocked(), s, map[], AllLocked(), 1, 2, 10, 0, true).Err?
  {
    hide MapSums.SumBy, ChangeBw;
    var s := StakeState(map[], map[], map[]);
    TenLockedSound();
    NothingStaked();
    LockedStakeGoesThrough();
    ChangeBwKeepsWealth(TenLocked(), s, map[], AllLocked(), 1, 2, 10, 0, true, 1);
  }

  lemma NothingStaked()
    ensures TablesAgree(StakeState(map[], map[], map[]), map[])
    ensures StakedBy(map[], 1) == 0
  {
    assert forall r :: NetTo(map[], r) == 0 && CpuTo(map[], r) == 0 && StakedBy(map[], r) == 0;
  }

  lemma LockedStakeGoesThrough()
    ensures ChangeBw(TenLocked(), StakeState(map[], map[], map[]), map[], AllLocked(), 1, 2, 10, 0, true).Ok?
  {
    hide MapSums.SumBy;
    assert Transfer(TenLocked(), AllLocked(), 1, EOSIO_STAKE, Asset(10, CORE)).Ok?;
  }

  lemma TenLockedSound()
    ensures Sound(TenLocked())
  {
    var m := TenLocked().accounts;
    var k: (Account, nat) := (1, CORE.code);
    MapSums.SumSplit(m, HeldIn(CORE.code), k);
    assert m - {k} == map[];
    assert TotalHeld(TenLocked(), CORE.code) == 10;
  }
}
