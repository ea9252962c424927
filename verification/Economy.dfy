/** The contracts' shared tables as one state machine; a transaction is one atomic step. */
module Economy {
  import opened Base
  import opened Ledgers
  import opened Markets
  import opened Ram
  import opened Staking
  import opened Auction
  import opened ProducerPay
  import opened Channel

  datatype World = World(
    ledger: Ledger,
    book: Book,
    ram: RamState,
    userres: UserRes,
    stakes: StakeState,
    auction: AuctionState,
    pay: Buckets)

  datatype TokenAction =
    | TokenCreate(issuer: Account, max: Asset)
    | TokenIssue(auth: Account, dest: Account, issued: Asset, note: Memo)
    | TokenRetire(holder: Account, retired: Asset)
    | TokenTransfer(from: Account, to: Account, q: Asset, memo: Memo)

  datatype RamAction =
    | RamBuy(payer: Account, receiver: Account, quant: Asset)
    | RamBuyBytes(buyer: Account, user: Account, wanted: nat)
    | RamSell(account: Account, bytes: int)
    | RamSet(size: nat)

  datatype StakeAction =
    | Delegate(from: Account, receiver: Account, net: Int64, cpu: Int64, transfer: bool)
    | Undelegate(source: Account, user: Account, unNet: Int64, unCpu: Int64)
    | ClaimRefund(owner: Account)

  datatype NameAction =
    | PlaceBid(bidder: Account, newname: Account, bid: Asset)
    | NewBlock(lastSchedule: nat, threshold: nat)
    | OpenAccount(creator: Account, newact: Account)

  datatype PayAction =
    | StartPay(tops: nat, rests: nat)
    | PayProducers(top: seq<Producer>, rest: seq<Producer>)

  datatype ChannelAction =
    | MapOut(user: Account, quant: Asset, gas: Asset)
    | FeeToBalance(payer: Account, fee: Asset)
    | TakeFee(debtor: Account, taken: Asset)
    | SplitGas
    | RewardNode(node: Account, reward: Asset)

  datatype Action =
    | TokenAct(t: TokenAction)
    | RamAct(r: RamAction)
    | StakeAct(s: StakeAction)
    | NameAct(b: NameAction)
    | PayAct(p: PayAction)
    | ChannelAct(c: ChannelAction)

  // ---------- steps ----------

  function TokenStep(w: World, e: Env, a: TokenAction): Result<World> {
    match a
    case TokenCreate(issuer, max) =>
      var l :- Ledgers.Create(w.ledger, issuer, max);
      Ok(w.(ledger := l))
    case TokenIssue(auth, to, q, memo) =>
      var l :- IssueToIssuer(w.ledger, auth, q);
      if to == auth then Ok(w.(ledger := l))
      else
        var (l', b) :- Deliver(l, w.book, e, auth, to, q, memo);
        Ok(w.(ledger := l', book := b))
    case TokenRetire(holder, q) =>
      var l :- Retire(w.ledger, holder, q);
      Ok(w.(ledger := l))
    case TokenTransfer(from, to, q, memo) =>
      var (l, b) :- Deliver(w.ledger, w.book, e, from, to, q, memo);
      Ok(w.(ledger := l, book := b))
  }

  function RamStep(n: nat, w: World, e: Env, a: RamAction): Result<World>
    requires n >= 1
  {
    match a
    case RamBuy(payer, receiver, quant) =>
      var (l, r, u) :- BuyRam(n, w.ledger, w.ram, w.userres, e, payer, receiver, quant);
      Ok(w.(ledger := l, ram := r, userres := u))
    case RamBuyBytes(payer, receiver, bytes) =>
      var (l, r, u) :- BuyRamBytes(n, w.ledger, w.ram, w.userres, e, payer, receiver, bytes);
      Ok(w.(ledger := l, ram := r, userres := u))
    case RamSell(account, bytes) =>
      var (l, r, u) :- SellRam(n, w.ledger, w.ram, w.userres, e, account, bytes);
      Ok(w.(ledger := l, ram := r, userres := u))
    case RamSet(size) =>
      var r :- SetRam(w.ram, size);
      Ok(w.(ram := r))
  }

  function StakeStep(w: World, e: Env, a: StakeAction): Result<World> {
    match a
    case Delegate(from, receiver, net, cpu, transfer) =>
      var (l, s, u) :- DelegateBw(w.ledger, w.stakes, w.userres, e, from, receiver, net, cpu, transfer);
      Ok(w.(ledger := l, stakes := s, userres := u))
    case Undelegate(from, receiver, net, cpu) =>
      var (l, s, u) :- UndelegateBw(w.ledger, w.stakes, w.userres, e, from, receiver, net, cpu);
      Ok(w.(ledger := l, stakes := s, userres := u))
    case ClaimRefund(owner) =>
      var (l, s) :- Refund(w.ledger, w.stakes, e, owner);
      Ok(w.(ledger := l, stakes := s))
  }

  function NameStep(w: World, e: Env, a: NameAction): Result<World> {
    match a
    case PlaceBid(bidder, newname, bid) =>
      var (l, b) :- BidName(w.ledger, w.auction, e, bidder, newname, bid);
      Ok(w.(ledger := l, auction := b))
    case NewBlock(lastSchedule, threshold) =>
      Ok(w.(auction := OnBlock(w.auction, e, lastSchedule, threshold)))
    case OpenAccount(creator, newact) =>
      var (b, u) :- NewAccount(w.auction, w.userres, creator, newact);
      Ok(w.(auction := b, userres := u))
  }

  /** Pay starts once, with at least 21 first-level and 42 second-level producers. */
  function PayStep(w: World, e: Env, a: PayAction): Result<World> {
    match a
    case StartPay(tops, rests) =>
      if w.pay.lastFill != 0 || tops < 21 || rests < 42 then Err
      else Ok(w.(pay := w.pay.(lastFill := e.time)))
    case PayProducers(top, rest) =>
      var (l, p) :- RewardProds(w.ledger, w.pay, e, top, rest);
      Ok(w.(ledger := l, pay := p))
  }

  function ChannelStep(w: World, e: Env, a: ChannelAction): Result<World> {
    match a
    case MapOut(user, quant, gas) =>
      var (l, b) :- Mapc(w.ledger, w.book, e, user, quant, gas);
      Ok(w.(ledger := l, book := b))
    case FeeToBalance(user, quant) =>
      var b :- Feetoc(w.book, user, quant);
      Ok(w.(book := b))
    case TakeFee(user, quant) =>
      var b :- Subfee(w.book, user, quant);
      Ok(w.(book := b))
    case SplitGas =>
      var b :- Splitgas(w.book, e);
      Ok(w.(book := b))
    case RewardNode(user, quant) =>
      var b :- Rewardnode(w.book, user, quant);
      Ok(w.(book := b))
  }

  function Step(n: nat, w: World, e: Env, a: Action): Result<World>
    requires n >= 1
  {
    match a
    case TokenAct(t) => TokenStep(w, e, t)
    case RamAct(r) => RamStep(n, w, e, r)
    case StakeAct(s) => StakeStep(w, e, s)
    case NameAct(b) => NameStep(w, e, b)
    case PayAct(p) => PayStep(w, e, p)
    case ChannelAct(c) => ChannelStep(w, e, c)
  }

  /** The stakes of a step are those it names: net as net, cpu as cpu, and for whom. */
  lemma StakeStepRows(n: nat, w: World, e: Env, a: StakeAction)
    requires n >= 1 && Sound(w.ledger) && TablesAgree(w.stakes, w.userres) && Step(n, w, e, StakeAct(a)).Ok?
    ensures var w' := Step(n, w, e, StakeAct(a)).value;
      match a
      case Delegate(from, receiver, net, cpu, transfer) =>
        StakeMoved(w.stakes, w.userres, w'.stakes, w'.userres, if transfer then receiver else from, receiver, net, cpu)
      case Undelegate(from, receiver, net, cpu) =>
        StakeMoved(w.stakes, w.userres, w'.stakes, w'.userres, from, receiver, -net, -cpu)
      case ClaimRefund(owner) =>
        w'.stakes == w.stakes.(refunds := w.stakes.refunds - {owner}) && w'.userres == w.userres
  {
    hide Sound, TablesAgree, DelegateBw, UndelegateBw, StakeMoved, Transfer;
    match a {
      case Delegate(from, receiver, net, cpu, transfer) =>
        DelegateEffect(w.ledger, w.stakes, w.userres, e, from, receiver, net, cpu, transfer);
      case Undelegate(from, receiver, net, cpu) =>
        UndelegateEffect(w.ledger, w.stakes, w.userres, e, from, receiver, net, cpu);
      case ClaimRefund(owner) =>
    }
  }

  /** RAM goes to the receiver a purchase names and comes from the seller; the limit becomes the size asked for. */
  lemma RamStepRows(n: nat, w: World, e: Env, a: RamAction)
    requires n >= 1 && Sound(w.ledger) && CoreToken(w.ledger) && BytesSound(w.ram, w.userres)
    requires Step(n, w, e, RamAct(a)).Ok?
    ensures var w' := Step(n, w, e, RamAct(a)).value;
      match a
      case RamBuy(_, receiver, quant) =>
        exists bytes: nat :: bytes > 0 && QuotaShift(w.userres, w'.userres, receiver, bytes)
      case RamBuyBytes(_, receiver, wanted) =>
        exists bytes: nat :: bytes > 0 && QuotaShift(w.userres, w'.userres, receiver, bytes)
      case RamSell(seller, bytes) => QuotaShift(w.userres, w'.userres, seller, -bytes)
      case RamSet(size) => w'.ram.maxRam == size && w'.userres == w.userres
  {
    hide Sound, BytesSound, QuotaShift, BuyRam, SellRam, Convert, Transfer;
    match a {
      case RamBuy(payer, receiver, quant) =>
        BuyRamEffect(n, w.ledger, w.ram, w.userres, e, payer, receiver, quant);
      case RamBuyBytes(payer, receiver, bytes) =>
        BuyRamEffect(n, w.ledger, w.ram, w.userres, e, payer, receiver,
                     Convert(n, w.ram.market, Asset(bytes, RAM), CORE).value.1);
      case RamSell(account, bytes) => SellRamEffect(n, w.ledger, w.ram, w.userres, e, account, bytes);
      case RamSet(size) =>
    }
  }

  /** The channel's rows move between exactly the users and kinds an action names. */
  lemma ChannelStepRows(n: nat, w: World, e: Env, a: ChannelAction)
    requires n >= 1 && Sound(w.ledger) && BookInRange(w.book) && Step(n, w, e, ChannelAct(a)).Ok?
    ensures var w' := Step(n, w, e, ChannelAct(a)).value;
      match a
      case MapOut(user, quant, gas) =>
        forall u, k :: Row(w'.book, u, k) ==
          Row(w.book, u, k) - (if u == user && k == 1 then quant.amount + gas.amount else 0)
      case FeeToBalance(user, quant) => Shifts(w.book, w'.book, (user, 2), (user, 1), quant.amount)
      case TakeFee(user, quant) => Shifts(w.book, w'.book, (user, 2), (GAS_SYS, 1), quant.amount)
      case SplitGas => Row(w.book, GAS_SYS, 1) > 0 ==> Row(w'.book, GAS_SYS, 1) == 0
      case RewardNode(user, quant) => Shifts(w.book, w'.book, (NODE_SYS, 1), (user, 1), quant.amount)
  {
    hide Sound, BookInRange, Mapc, Feetoc, Subfee, Splitgas, Rewardnode, Shifts;
    match a {
      case MapOut(user, quant, gas) => MapcEffect(w.ledger, w.book, e, user, quant, gas);
      case FeeToBalance(user, quant) => FeetocEffect(w.book, user, quant);
      case TakeFee(user, quant) => SubfeeEffect(w.book, user, quant);
      case SplitGas => SplitgasEffect(w.book, e);
      case RewardNode(user, quant) => RewardnodeEffect(w.book, user, quant);
    }
  }

  // ---------- runs ----------

  datatype Entry = Entry(e: Env, a: Action)

  /** A failing transaction leaves no trace. */
  function Apply(n: nat, w: World, x: Entry): World
    requires n >= 1
  {
    var r := Step(n, w, x.e, x.a);
    if r.Ok? then r.value else w
  }

  function Run(n: nat, w: World, log: seq<Entry>): World
    requires n >= 1
  {
    if log == [] then w else Apply(n, Run(n, w, log[..|log| - 1]), log[|log| - 1])
  }

  // ---------- the invariant of every run ----------

  /** What holds in every reachable state; `cap` is the core token's maximum supply. */
  ghost predicate Kernel(w: World, cap: int) {
    && Sound(w.ledger) && CoreToken(w.ledger) && CoreCap(w.ledger) == cap
    && BookInRange(w.book)
    && TablesAgree(w.stakes, w.userres)
    && AuctionSound(w.auction)
    && BucketsSound(w.pay)
  }

  lemma TokenStepKeeps(w: World, e: Env, a: TokenAction, cap: int)
    requires Kernel(w, cap) && TokenStep(w, e, a).Ok?
    ensures Kernel(TokenStep(w, e, a).value, cap)
  {
    hide Sound, BookInRange, TablesAgree, AuctionSound, Deliver, IssueToIssuer, Retire;
    match a {
      case TokenCreate(issuer, max) => CreateEffect(w.ledger, issuer, max);
      case TokenIssue(auth, to, q, memo) =>
        IssueEffect(w.ledger, auth, q);
        if to != auth {
          DeliverEffect(IssueToIssuer(w.ledger, auth, q).value, w.book, e, auth, to, q, memo);
        }
      case TokenRetire(holder, q) => RetireEffect(w.ledger, holder, q);
      case TokenTransfer(from, to, q, memo) => DeliverEffect(w.ledger, w.book, e, from, to, q, memo);
    }
  }

  /** RAM quotas may change without the stakes noticing. */
  lemma SameTotals(s: StakeState, u: UserRes, u': UserRes)
    requires TablesAgree(s, u)
    requires forall a ::
      ResourcesAt(u', a).net == ResourcesAt(u, a).net && ResourcesAt(u', a).cpu == ResourcesAt(u, a).cpu
    ensures TablesAgree(s, u')
  {
  }

  lemma BuyRamKeepsKernel(n: nat, w: World, e: Env, payer: Account, receiver: Account, quant: Asset, cap: int)
    requires n >= 1 && Kernel(w, cap)
    requires BuyRam(n, w.ledger, w.ram, w.userres, e, payer, receiver, quant).Ok?
    ensures var (l, r, u) := BuyRam(n, w.ledger, w.ram, w.userres, e, payer, receiver, quant).value;
      Kernel(w.(ledger := l, ram := r, userres := u), cap)
  {
    hide Sound, BookInRange, TablesAgree, AuctionSound, Convert, Transfer;
    BuyRamEffect(n, w.ledger, w.ram, w.userres, e, payer, receiver, quant);
    var (l, r, u) := BuyRam(n, w.ledger, w.ram, w.userres, e, payer, receiver, quant).value;
    SameTotals(w.stakes, w.userres, u);
  }

  lemma RamStepKeeps(n: nat, w: World, e: Env, a: RamAction, cap: int)
    requires n >= 1 && Kernel(w, cap) && RamStep(n, w, e, a).Ok?
    ensures Kernel(RamStep(n, w, e, a).value, cap)
  {
    hide Sound, BookInRange, TablesAgree, AuctionSound, BuyRam, SetRam, Convert, Transfer;
    match a {
      case RamBuy(payer, receiver, quant) => BuyRamKeepsKernel(n, w, e, payer, receiver, quant, cap);
      case RamBuyBytes(payer, receiver, bytes) =>
        BuyRamKeepsKernel(n, w, e, payer, receiver, Convert(n, w.ram.market, Asset(bytes, RAM), CORE).value.1, cap);
      case RamSell(account, bytes) =>
        SellRamEffect(n, w.ledger, w.ram, w.userres, e, account, bytes);
        SameTotals(w.stakes, w.userres, SellRam(n, w.ledger, w.ram, w.userres, e, account, bytes).value.2);
      case RamSet(size) =>
    }
  }

  lemma ChangeBwKeepsKernel(w: World, e: Env, from: Account, receiver: Account, dn: Int64, dc: Int64, transfer: bool,
                            cap: int)
    requires Kernel(w, cap)
    requires ChangeBw(w.ledger, w.stakes, w.userres, e, from, receiver, dn, dc, transfer).Ok?
    ensures var (l, s, u) := ChangeBw(w.ledger, w.stakes, w.userres, e, from, receiver, dn, dc, transfer).value;
      Kernel(w.(ledger := l, stakes := s, userres := u), cap)
  {
    hide Sound, BookInRange, TablesAgree, AuctionSound, ChangeBw;
    ChangeBwEffect(w.ledger, w.stakes, w.userres, e, from, receiver, dn, dc, transfer, from);
    ChangeBwKeepsTables(w.ledger, w.stakes, w.userres, e, from, receiver, dn, dc, transfer);
  }

  lemma StakeStepKeeps(w: World, e: Env, a: StakeAction, cap: int)
    requires Kernel(w, cap) && StakeStep(w, e, a).Ok?
    ensures Kernel(StakeStep(w, e, a).value, cap)
  {
    hide Sound, BookInRange, AuctionSound, ChangeBw, Refund;
    match a {
      case Delegate(from, receiver, net, cpu, transfer) =>
        ChangeBwKeepsKernel(w, e, from, receiver, net, cpu, transfer, cap);
      case Undelegate(from, receiver, net, cpu) =>
        ChangeBwKeepsKernel(w, e, from, receiver, -net, -cpu, false, cap);
      case ClaimRefund(owner) => RefundEffect(w.ledger, w.stakes, e, owner);
    }
  }

  lemma NameStepKeeps(w: World, e: Env, a: NameAction, cap: int)
    requires Kernel(w, cap) && NameStep(w, e, a).Ok?
    ensures Kernel(NameStep(w, e, a).value, cap)
  {
    hide Sound, BookInRange, AuctionSound, BidName, MayClose, NewAccount;
    match a {
      case PlaceBid(bidder, newname, bid) =>
        BidNameMoves(w.ledger, w.auction, e, bidder, newname, bid);
        BidNameBacked(w.ledger, w.auction, e, bidder, newname, bid);
      case NewBlock(lastSchedule, threshold) =>
        if MayClose(w.auction, e, lastSchedule, threshold) {
          ClosesTheHighest(w.auction, e, lastSchedule, threshold);
        }
      case OpenAccount(creator, newact) =>
        OnlyTheWinnerClaims(w.auction, w.userres, creator, newact);
        FreshAccount(w.auction, w.userres, creator, newact);
        SameTotals(w.stakes, w.userres, NewAccount(w.auction, w.userres, creator, newact).value.1);
    }
  }

  lemma FreshAccount(a: AuctionState, u: UserRes, creator: Account, newact: Account)
    requires NewAccount(a, u, creator, newact).Ok?
    ensures forall b :: ResourcesAt(NewAccount(a, u, creator, newact).value.1, b) == ResourcesAt(u, b)
  {
    hide NameSuffix.Suffix, HasDot;
  }

  lemma PayStepKeeps(w: World, e: Env, a: PayAction, cap: int)
    requires Kernel(w, cap) && PayStep(w, e, a).Ok?
    ensures Kernel(PayStep(w, e, a).value, cap)
  {
    hide Sound, BookInRange, TablesAgree, AuctionSound, Fill, PayAll;
    match a {
      case StartPay(_, _) =>
      case PayProducers(top, rest) =>
        if w.pay.lastFill > 0 && top != [] {
          RewardProdsEffect(w.ledger, w.pay, e, top, rest);
        }
    }
  }

  lemma ChannelStepKeeps(w: World, e: Env, a: ChannelAction, cap: int)
    requires Kernel(w, cap) && ChannelStep(w, e, a).Ok?
    ensures Kernel(ChannelStep(w, e, a).value, cap)
  {
    hide Sound, BookInRange, TablesAgree, AuctionSound, Mapc, Feetoc, Subfee, Splitgas, Rewardnode;
    match a {
      case MapOut(user, quant, gas) => MapcEffect(w.ledger, w.book, e, user, quant, gas);
      case FeeToBalance(user, quant) => FeetocEffect(w.book, user, quant);
      case TakeFee(user, quant) => SubfeeEffect(w.book, user, quant);
      case SplitGas => SplitgasEffect(w.book, e);
      case RewardNode(user, quant) => RewardnodeEffect(w.book, user, quant);
    }
  }

  /** Every action of every contract keeps every book: this is what holds in all reachable states. */
  lemma StepKeepsKernel(n: nat, w: World, e: Env, a: Action, cap: int)
    requires n >= 1 && Kernel(w, cap) && Step(n, w, e, a).Ok?
    ensures Kernel(Step(n, w, e, a).value, cap)
  {
    hide Kernel, TokenStep, RamStep, StakeStep, NameStep, PayStep, ChannelStep;
    match a {
      case TokenAct(t) => TokenStepKeeps(w, e, t, cap);
      case RamAct(r) => RamStepKeeps(n, w, e, r, cap);
      case StakeAct(s) => StakeStepKeeps(w, e, s, cap);
      case NameAct(b) => NameStepKeeps(w, e, b, cap);
      case PayAct(p) => PayStepKeeps(w, e, p, cap);
      case ChannelAct(c) => ChannelStepKeeps(w, e, c, cap);
    }
  }

  /** So every run of transactions does, whatever they are and whether or not they succeed. */
  lemma {:induction false} RunKeepsKernel(n: nat, w: World, log: seq<Entry>, cap: int)
    requires n >= 1 && Kernel(w, cap)
    ensures Kernel(Run(n, w, log), cap)
    decreases |log|
  {
    hide Kernel, Step;
    if log != [] {
      var k := |log| - 1;
      RunKeepsKernel(n, w, log[..k], cap);
      var w1 := Run(n, w, log[..k]);
      if Step(n, w1, log[k].e, log[k].a).Ok? {
        StepKeepsKernel(n, w1, log[k].e, log[k].a, cap);
      }
    }
  }

  // ---------- where runs start ----------

  /**
   * The tables when the market has just been created: accounts may have been opened, but nothing has been
   * bought, staked, bid, paid or channelled.
   */
  function Genesis(l: Ledger, maxRam: nat, u: UserRes): World
    requires CoreSupply(l) > 0
  {
    World(l, map[], RamState(NewMarket(CoreSupply(l), maxRam, 0).value, maxRam, 0, 0), u,
          StakeState(map[], map[], map[]), AuctionState(map[], 0), Buckets(0, 0, 0, 0))
  }

  /** Rows as newaccount writes them. */
  ghost predicate Opened(u: UserRes) { forall a :: a in u ==> u[a] == Resources(0, 0, 0) }

  /** Any sound ledger with a core token is a state to start from. */
  lemma GenesisKernel(l: Ledger, maxRam: nat, u: UserRes)
    requires Sound(l) && CoreToken(l) && CoreSupply(l) > 0 && Opened(u)
    ensures Kernel(Genesis(l, maxRam, u), CoreCap(l))
  {
    hide Sound;
    assert forall r :: NetTo(map[], r) == 0 && CpuTo(map[], r) == 0 && StakedBy(map[], r) == 0;
  }
}
