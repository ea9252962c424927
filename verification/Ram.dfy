/** Buying, selling and enlarging RAM: buyram, buyrambytes, sellram and setram. */
module Ram {
  import opened Base
  import opened Arith
  import opened MapSums
  import opened Ledgers
  import opened Markets

  datatype Resources = Resources(net: int, cpu: int, ram: int)

  type UserRes = map<Account, Resources>

  /** The RAM fields of the global state, with the market row. */
  datatype RamState = RamState(market: Market, maxRam: nat, reserved: nat, stake: int)

  const MAX_RAM_LIMIT: nat := 0x4_0000_0000_0000  // 1024^5

  /** The contracts' own accounts, for which nobody may stake or buy RAM. */
  predicate IsYtaAccount(a: Account) {
    a == HDDPOOL || a == HDDDEPOSIT || a == HDDLOCK || a == FUND_SYS || a == CHANNEL_SYS
  }

  /** The .5% fee, rounded up. */
  function Fee(amount: nat): (fee: nat)
    ensures 200 * fee >= amount > 200 * (fee - 1)
  {
    (amount + 199) / 200
  }

  /** An inline transfer whose memo names no channel user; channel.sys rejects those. */
  function Send(l: Ledger, e: Env, from: Account, to: Account, q: Asset): Result<Ledger> {
    if to == CHANNEL_SYS then Err else Transfer(l, e, from, to, q)
  }

  /** The market row written when the system contract first sees a positive core supply. */
  function NewMarket(coreSupply: nat, maxRam: nat, reserved: nat): Result<Market>
    requires reserved <= maxRam
  {
    if coreSupply == 0 then Err else Ok(Market(100_000_000_000_000, maxRam - reserved, coreSupply / 1000))
  }

  function Quota(u: UserRes, a: Account): int { if a in u then u[a].ram else 0 }

  /** Only `a`'s quota changed, by `bytes`, in its old row or a new one. */
  ghost predicate QuotaShift(u: UserRes, u': UserRes, a: Account, bytes: int) {
    && (forall b :: Quota(u', b) == Quota(u, b) + (if b == a then bytes else 0))
    && u'.Keys == u.Keys + {a}
  }

  function GrantRam(u: UserRes, a: Account, bytes: int): UserRes {
    u[a := if a in u then u[a].(ram := u[a].ram + bytes) else Resources(0, 0, bytes)]
  }

  function BuyRam(n: nat, l: Ledger, r: RamState, u: UserRes, e: Env,
                  payer: Account, receiver: Account, quant: Asset): Result<(Ledger, RamState, UserRes)>
    requires n >= 1
  {
    if quant.amount <= 0 || IsYtaAccount(receiver) then Err
    else
      var fee := Fee(quant.amount);
      var cost := Asset(quant.amount - fee, quant.symbol);
      var l1 :- Send(l, e, payer, EOSIO_RAM, cost);
      var l2 :- Send(l1, e, payer, EOSIO_RAMFEE, Asset(fee, quant.symbol));
      var (m, out) :- Convert(n, r.market, cost, RAM);
      if out.amount <= 0 then Err
      else
        Ok((l2,
            RamState(m, r.maxRam, (r.reserved + out.amount) % U64, r.stake + cost.amount),
            GrantRam(u, receiver, out.amount)))
  }

  /** The price of selling `bytes`, on a copy of the market, is what the buyer then spends. */
  function BuyRamBytes(n: nat, l: Ledger, r: RamState, u: UserRes, e: Env,
                       payer: Account, receiver: Account, bytes: nat): Result<(Ledger, RamState, UserRes)>
    requires n >= 1
  {
    var (_, price) :- Convert(n, r.market, Asset(bytes, RAM), CORE);
    BuyRam(n, l, r, u, e, payer, receiver, price)
  }

  function SellRam(n: nat, l: Ledger, r: RamState, u: UserRes, e: Env,
                   account: Account, bytes: int): Result<(Ledger, RamState, UserRes)>
    requires n >= 1
  {
    if bytes <= 0 || IsYtaAccount(account) || account !in u || u[account].ram < bytes then Err
    else
      var (m, out) :- Convert(n, r.market, Asset(bytes, RAM), CORE);
      if out.amount <= 1 || r.stake - out.amount < 0 then Err
      else
        var l1 :- Send(l, e, EOSIO_RAM, account, out);
        var l2 :- Send(l1, e, account, EOSIO_RAMFEE, Asset(Fee(out.amount), CORE));
        Ok((l2,
            RamState(m, r.maxRam, (r.reserved - bytes) % U64, r.stake - out.amount),
            GrantRam(u, account, -bytes)))
  }

  function SetRam(r: RamState, size: nat): Result<RamState>
  {
    if !(r.maxRam < size < MAX_RAM_LIMIT) || size <= r.reserved then Err
    else Ok(r.(market := r.market.(base := r.market.base + (size - r.maxRam)), maxRam := size))
  }

  // ---------- the invariant ----------

  ghost function RamHeld(): (Account, Resources) -> int {
    (a: Account, v: Resources) => v.ram
  }

  /** Free and reserved RAM make up the whole, and the reserved bytes are the users' quotas. */
  ghost predicate BytesSound(r: RamState, u: UserRes) {
    && r.market.base + r.reserved == r.maxRam < U64
    && SumBy(u, RamHeld()) == r.reserved
    && forall a :: a in u ==> u[a].ram >= 0
  }

  /**
   * A market created with `q0` core tokens and supply `s0` still holds `q0` and everything staked since,
   * and its product has kept up with the RAM it started from or was given.
   */
  ghost predicate PriceSound(r: RamState, q0: nat, s0: nat) {
    && r.market.supply == s0 > 0
    && r.market.quote == q0 + r.stake
    && r.stake >= 0
    && r.market.base * r.market.quote >= r.maxRam * q0
  }

  /** A fresh market satisfies the invariant, whatever the supply it was created from. */
  lemma NewMarketIsSound(coreSupply: nat, maxRam: nat, u: UserRes)
    requires coreSupply > 0 && maxRam < U64
    requires forall a :: a in u ==> u[a].ram == 0
    ensures var r := RamState(NewMarket(coreSupply, maxRam, 0).value, maxRam, 0, 0);
      BytesSound(r, u) && PriceSound(r, coreSupply / 1000, 100_000_000_000_000)
  {
    NoRamHeld(u);
  }

  lemma {:induction false} NoRamHeld(u: UserRes)
    requires forall a :: a in u ==> u[a].ram == 0
    ensures SumBy(u, RamHeld()) == 0
    decreases |u|
  {
    if u != map[] {
      var a :| a in u && SumBy(u, RamHeld()) == RamHeld()(a, u[a]) + SumBy(u - {a}, RamHeld());
      NoRamHeld(u - {a});
    }
  }

  lemma Granted(u: UserRes, a: Account, bytes: int)
    ensures SumBy(GrantRam(u, a, bytes), RamHeld()) == SumBy(u, RamHeld()) + bytes
  {
    assert u - {a} == GrantRam(u, a, bytes) - {a};
    SumChange(u, GrantRam(u, a, bytes), RamHeld(), a);
  }

  /** The quote connector never falls below what the market was created with. */
  lemma QuoteFloor(r: RamState, q0: nat, base: nat, quote: nat)
    requires base <= r.maxRam && base * quote >= r.maxRam * q0
    ensures q0 > 0 && r.maxRam > 0 ==> quote >= q0
  {
    if q0 > 0 && r.maxRam > 0 {
      MulMonotone(base, r.maxRam, quote, quote);
      CancelFactorLeft(q0, quote, r.maxRam);
    }
  }

  lemma BuyPrice(n: nat, r: RamState, cost: nat, q0: nat, s0: nat)
    requires n >= 1 && cost > 0 && PriceSound(r, q0, s0)
    ensures var out := SwapOut(n, s0, r.market.quote, r.market.base, cost);
      out <= r.market.base &&
      (r.market.base - out) * (r.market.quote + cost) >= r.maxRam * q0
  {
    var b, q := r.market.base, r.market.quote;
    SwapKeepsProduct(n, s0, q, b, cost);
    var out := SwapOut(n, s0, q, b, cost);
    Commutes(q, b);
    Commutes(q + cost, b - out);
  }

  /** Buying for core tokens keeps the RAM books and the price invariant. */
  lemma BuyKeeps(n: nat, r: RamState, u: UserRes, receiver: Account, cost: nat, q0: nat, s0: nat)
    requires n >= 1 && cost > 0 && BytesSound(r, u) && PriceSound(r, q0, s0)
    ensures Convert(n, r.market, Asset(cost, CORE), RAM).Ok?
    ensures var (m, out) := Convert(n, r.market, Asset(cost, CORE), RAM).value;
      var r' := RamState(m, r.maxRam, (r.reserved + out.amount) % U64, r.stake + cost);
      BytesSound(r', GrantRam(u, receiver, out.amount)) && PriceSound(r', q0, s0)
  {
    BuyIsSwap(n, r.market, cost);
    BuyPrice(n, r, cost, q0, s0);
    Granted(u, receiver, SwapOut(n, s0, r.market.quote, r.market.base, cost));
  }

  lemma SellPrice(n: nat, r: RamState, bytes: nat, q0: nat, s0: nat)
    requires n >= 1 && bytes > 0 && PriceSound(r, q0, s0)
    requires r.market.base + bytes <= r.maxRam
    ensures var out := SwapOut(n, s0, r.market.base, r.market.quote, bytes);
      out <= r.stake &&
      (r.market.base + bytes) * (r.market.quote - out) >= r.maxRam * q0
  {
    var out := SwapOut(n, s0, r.market.base, r.market.quote, bytes);
    SwapKeepsProduct(n, s0, r.market.base, r.market.quote, bytes);
    QuoteFloor(r, q0, r.market.base + bytes, r.market.quote - out);
  }

  /**
   * Selling never takes out more than was staked, so the last assertion of sellram cannot fail and the
   * unsigned count of reserved bytes cannot wrap.
   */
  lemma SellKeeps(n: nat, r: RamState, u: UserRes, account: Account, bytes: int, q0: nat, s0: nat)
    requires n >= 1 && BytesSound(r, u) && PriceSound(r, q0, s0)
    requires account in u && 0 < bytes <= u[account].ram
    ensures Convert(n, r.market, Asset(bytes, RAM), CORE).Ok?
    ensures var (m, out) := Convert(n, r.market, Asset(bytes, RAM), CORE).value;
      var r' := RamState(m, r.maxRam, (r.reserved - bytes) % U64, r.stake - out.amount);
      && r.stake - out.amount >= 0
      && bytes <= r.reserved
      && BytesSound(r', GrantRam(u, account, -bytes))
      && PriceSound(r', q0, s0)
  {
    SumBounds(u, RamHeld(), account);
    SellIsSwap(n, r.market, bytes);
    SellPrice(n, r, bytes, q0, s0);
    Granted(u, account, -bytes);
  }

  /** RAM can only be enlarged, up to a limit, and all that is added is free. */
  lemma SetRamExact(r: RamState, u: UserRes, size: nat)
    requires BytesSound(r, u)
    ensures SetRam(r, size).Ok? <==> r.maxRam < size < 1024 * 1024 * 1024 * 1024 * 1024
    ensures SetRam(r, size).Ok? ==>
      var r' := SetRam(r, size).value;
      && r'.maxRam == size && r'.market.base + r.reserved == size
      && r'.market.quote == r.market.quote && r'.market.supply == r.market.supply
      && r'.reserved == r.reserved && r'.stake == r.stake
  {
  }

  /** Enlarging RAM keeps both as well. */
  lemma SetRamKeeps(r: RamState, u: UserRes, size: nat, q0: nat, s0: nat)
    requires BytesSound(r, u) && PriceSound(r, q0, s0) && SetRam(r, size).Ok?
    ensures BytesSound(SetRam(r, size).value, u) && PriceSound(SetRam(r, size).value, q0, s0)
  {
    var d := size - r.maxRam;
    var q := r.market.quote;
    MulMonotone(d, d, q0, q);
    assert (r.market.base + d) * q == r.market.base * q + d * q;
    assert (r.maxRam + d) * q0 == r.maxRam * q0 + d * q0;
  }

  // ---------- whole actions ----------

  /** The payer's `quant` reaches eosio.ram and eosio.ramfee. */
  ghost predicate PaysFor(l: Ledger, l': Ledger, payer: Account, cost: int, fee: int) {
    forall a :: Core(l', a) ==
      Core(l, a)
      - (if a == payer then cost + fee else 0)
      + (if a == EOSIO_RAM then cost else 0)
      + (if a == EOSIO_RAMFEE then fee else 0)
  }

  lemma PayTwice(l: Ledger, e: Env, payer: Account, cost: int, fee: int)
    requires Sound(l)
    requires Send(l, e, payer, EOSIO_RAM, Asset(cost, CORE)).Ok?
    requires Send(Send(l, e, payer, EOSIO_RAM, Asset(cost, CORE)).value, e, payer, EOSIO_RAMFEE, Asset(fee, CORE)).Ok?
    ensures var l1 := Send(l, e, payer, EOSIO_RAM, Asset(cost, CORE)).value;
      var l2 := Send(l1, e, payer, EOSIO_RAMFEE, Asset(fee, CORE)).value;
      && payer != EOSIO_RAM && payer != EOSIO_RAMFEE && 0 < cost <= MAX_AMOUNT
      && Sound(l2) && l2.stats == l.stats && PaysFor(l, l2, payer, cost, fee)
  {
    TransferEffect(l, e, payer, EOSIO_RAM, Asset(cost, CORE));
    var l1 := Send(l, e, payer, EOSIO_RAM, Asset(cost, CORE)).value;
    TransferEffect(l1, e, payer, EOSIO_RAMFEE, Asset(fee, CORE));
  }

  /** Paid in another currency, the same two transfers move no core tokens. */
  lemma PayElsewhere(l: Ledger, e: Env, payer: Account, cost: int, fee: int, symbol: Symbol)
    requires Sound(l) && CoreToken(l) && symbol != CORE
    requires Send(l, e, payer, EOSIO_RAM, Asset(cost, symbol)).Ok?
    requires Send(Send(l, e, payer, EOSIO_RAM, Asset(cost, symbol)).value, e, payer, EOSIO_RAMFEE,
                  Asset(fee, symbol)).Ok?
    ensures var l1 := Send(l, e, payer, EOSIO_RAM, Asset(cost, symbol)).value;
      var l2 := Send(l1, e, payer, EOSIO_RAMFEE, Asset(fee, symbol)).value;
      && payer != EOSIO_RAM && payer != EOSIO_RAMFEE && 0 < cost <= MAX_AMOUNT
      && Sound(l2) && l2.stats == l.stats && forall a :: Core(l2, a) == Core(l, a)
  {
    TransferEffect(l, e, payer, EOSIO_RAM, Asset(cost, symbol));
    var l1 := Send(l, e, payer, EOSIO_RAM, Asset(cost, symbol)).value;
    TransferEffect(l1, e, payer, EOSIO_RAMFEE, Asset(fee, symbol));
  }

  /**
   * buyram looks at no symbol: it takes core tokens, or a currency that happens to be called RAM or RAMCORE.
   * Only core tokens reach the market and eosio.ram, but the stake grows by the cost either way.
   */
  lemma BuyRamEffect(n: nat, l: Ledger, r: RamState, u: UserRes, e: Env,
                     payer: Account, receiver: Account, quant: Asset)
    requires n >= 1 && Sound(l) && CoreToken(l)
    requires BuyRam(n, l, r, u, e, payer, receiver, quant).Ok?
    ensures quant.symbol == CORE || quant.symbol == RAM || quant.symbol == RAMCORE
    ensures 0 < Fee(quant.amount) < quant.amount <= MAX_AMOUNT + Fee(quant.amount)
    ensures payer != EOSIO_RAM && payer != EOSIO_RAMFEE
    ensures var (l', r', u') := BuyRam(n, l, r, u, e, payer, receiver, quant).value;
      && Sound(l') && l'.stats == l.stats
      && (quant.symbol == CORE ==>
            PaysFor(l, l', payer, quant.amount - Fee(quant.amount), Fee(quant.amount)))
      && (quant.symbol != CORE ==> forall a :: Core(l', a) == Core(l, a))
    ensures var (l', r', u') := BuyRam(n, l, r, u, e, payer, receiver, quant).value;
      var cost := quant.amount - Fee(quant.amount);
      var out := r.market.base + (if quant.symbol == RAM then cost else 0) - r'.market.base;
      && r'.maxRam == r.maxRam
      && r'.stake == r.stake + cost
      && r'.market.quote == r.market.quote + (if quant.symbol == CORE then cost else 0)
      && out > 0 && r'.reserved == (r.reserved + out) % U64
      && u' == GrantRam(u, receiver, out) && QuotaShift(u, u', receiver, out)
  {
    hide Transfer, SumBy, Convert;
    var fee := Fee(quant.amount);
    RamBought(n, r.market, Asset(quant.amount - fee, quant.symbol));
    if quant.symbol == CORE {
      PayTwice(l, e, payer, quant.amount - fee, fee);
    } else {
      PayElsewhere(l, e, payer, quant.amount - fee, fee, quant.symbol);
    }
  }

  /**
   * A purchase keeps the price invariant if and only if it is paid in core tokens, and the byte books if and
   * only if it is not paid in a currency called RAM.
   */
  lemma BuyRamExact(n: nat, l: Ledger, r: RamState, u: UserRes, e: Env,
                    payer: Account, receiver: Account, quant: Asset, q0: nat, s0: nat)
    requires n >= 1 && Sound(l) && CoreToken(l) && BytesSound(r, u) && PriceSound(r, q0, s0)
    requires BuyRam(n, l, r, u, e, payer, receiver, quant).Ok?
    ensures var (l', r', u') := BuyRam(n, l, r, u, e, payer, receiver, quant).value;
      && (PriceSound(r', q0, s0) <==> quant.symbol == CORE)
      && (BytesSound(r', u') <==> quant.symbol != RAM)
  {
    hide Transfer, SumBy, Convert;
    BuyRamEffect(n, l, r, u, e, payer, receiver, quant);
    var (l', r', u') := BuyRam(n, l, r, u, e, payer, receiver, quant).value;
    if quant.symbol == CORE {
      BuyKeeps(n, r, u, receiver, quant.amount - Fee(quant.amount), q0, s0);
    } else if quant.symbol == RAMCORE {
      Granted(u, receiver, r.market.base - r'.market.base);
    }
  }

  lemma BuyRamKeepsLock(n: nat, l: Ledger, r: RamState, u: UserRes, e: Env,
                        payer: Account, receiver: Account, quant: Asset, a: Account)
    requires n >= 1 && Sound(l) && CoreToken(l)
    requires BuyRam(n, l, r, u, e, payer, receiver, quant).Ok?
    requires a != HDDBASEFOUND && a != FUND_SYS
    ensures KeepsLock(l, BuyRam(n, l, r, u, e, payer, receiver, quant).value.0, e, a)
  {
    hide Convert, Transfer, SumBy;
    var fee := Fee(quant.amount);
    var cost := Asset(quant.amount - fee, quant.symbol);
    TransferEffect(l, e, payer, EOSIO_RAM, cost);
    TransferKeepsLock(l, e, payer, EOSIO_RAM, cost, a);
    var l1 := Send(l, e, payer, EOSIO_RAM, cost).value;
    TransferKeepsLock(l1, e, payer, EOSIO_RAMFEE, Asset(fee, quant.symbol), a);
  }

  /** eosio.ram pays the seller, who passes the fee on. */
  ghost predicate PaysOut(l: Ledger, l': Ledger, seller: Account, out: int, fee: int) {
    forall a :: Core(l', a) ==
      Core(l, a)
      + (if a == seller then out - fee else 0)
      - (if a == EOSIO_RAM then out else 0)
      + (if a == EOSIO_RAMFEE then fee else 0)
  }

  lemma PayOutTwice(l: Ledger, e: Env, seller: Account, out: nat)
    requires Sound(l) && Send(l, e, EOSIO_RAM, seller, Asset(out, CORE)).Ok?
    requires Send(Send(l, e, EOSIO_RAM, seller, Asset(out, CORE)).value, e, seller, EOSIO_RAMFEE,
                  Asset(Fee(out), CORE)).Ok?
    ensures var l1 := Send(l, e, EOSIO_RAM, seller, Asset(out, CORE)).value;
      var l2 := Send(l1, e, seller, EOSIO_RAMFEE, Asset(Fee(out), CORE)).value;
      && seller != EOSIO_RAM && seller != EOSIO_RAMFEE && seller != CHANNEL_SYS
      && Sound(l2) && l2.stats == l.stats && PaysOut(l, l2, seller, out, Fee(out))
  {
    hide Transfer;
    TransferEffect(l, e, EOSIO_RAM, seller, Asset(out, CORE));
    var l1 := Send(l, e, EOSIO_RAM, seller, Asset(out, CORE)).value;
    TransferEffect(l1, e, seller, EOSIO_RAMFEE, Asset(Fee(out), CORE));
  }

  /** A successful sellram pays out of the stake exactly what leaves eosio.ram and the market. */
  lemma SellRamEffect(n: nat, l: Ledger, r: RamState, u: UserRes, e: Env, account: Account, bytes: int)
    requires n >= 1 && Sound(l)
    requires SellRam(n, l, r, u, e, account, bytes).Ok?
    ensures var (l', r', u') := SellRam(n, l, r, u, e, account, bytes).value;
      && account != EOSIO_RAM && account != EOSIO_RAMFEE && account != CHANNEL_SYS
      && Sound(l') && l'.stats == l.stats
      && 0 < Fee(r.stake - r'.stake) < r.stake - r'.stake
      && r'.maxRam == r.maxRam && r'.market.base == r.market.base + bytes
      && r'.market.quote - r'.stake == r.market.quote - r.stake
      && u' == GrantRam(u, account, -bytes) && QuotaShift(u, u', account, -bytes)
      && PaysOut(l, l', account, r.stake - r'.stake, Fee(r.stake - r'.stake))
  {
    hide SumBy, Convert, Transfer;
    RamSold(n, r.market, bytes);
    PayOutTwice(l, e, account, Convert(n, r.market, Asset(bytes, RAM), CORE).value.1.amount);
  }

  /** And keeps the RAM books and the price invariant. */
  lemma SellRamKeeps(n: nat, l: Ledger, r: RamState, u: UserRes, e: Env, account: Account, bytes: int,
                     q0: nat, s0: nat)
    requires n >= 1 && BytesSound(r, u) && PriceSound(r, q0, s0)
    requires SellRam(n, l, r, u, e, account, bytes).Ok?
    ensures var (_, r', u') := SellRam(n, l, r, u, e, account, bytes).value;
      BytesSound(r', u') && PriceSound(r', q0, s0)
  {
    hide SumBy, Convert, Transfer;
    SellKeeps(n, r, u, account, bytes, q0, s0);
  }

  /** eosio.ram's own deposit and lock are respected when it pays a seller, unless the tokens go by an exempt route. */
  lemma SellRamKeepsLock(n: nat, l: Ledger, r: RamState, u: UserRes, e: Env, account: Account, bytes: int, a: Account)
    requires n >= 1 && Sound(l) && CoreToken(l) && SellRam(n, l, r, u, e, account, bytes).Ok?
    requires a == EOSIO_RAM ==> account != EOSIO_STAKE && account != YOTTAFORFEIT && account != FORFEIT_SYS
    ensures KeepsLock(l, SellRam(n, l, r, u, e, account, bytes).value.0, e, a)
  {
    hide SumBy, Convert, Transfer;
    SellRamEffect(n, l, r, u, e, account, bytes);
    if a == EOSIO_RAM {
      RamSold(n, r.market, bytes);
      var out := Convert(n, r.market, Asset(bytes, RAM), CORE).value.1;
      TransferKeepsLock(l, e, EOSIO_RAM, account, out, a);
      var l1 := Send(l, e, EOSIO_RAM, account, out).value;
      TransferEffect(l, e, EOSIO_RAM, account, out);
      TransferEffect(l1, e, account, EOSIO_RAMFEE, Asset(Fee(out.amount), CORE));
    }
  }

  /** Accounts of the contracts, for which nobody buys or sells RAM. */
  const RESERVED: set<Account> := {HDDPOOL, HDDDEPOSIT, HDDLOCK, FUND_SYS, CHANNEL_SYS}

  /** Core tokens that an account may send to the RAM accounts, when `extra` is added to what it has. */
  predicate MaySpend(l: Ledger, e: Env, a: Account, amount: int, extra: int) {
    && a != EOSIO_RAM && a != EOSIO_RAMFEE
    && Core(l, a) + extra >= amount
    && (a !in {HDDBASEFOUND, FUND_SYS} ==> !e.frozen(a) && Core(l, a) + extra >= amount + e.deposit(a) + e.lock(a))
  }

  /** A purchase for core tokens goes through exactly if the payer can spend them and they buy at least a byte. */
  lemma BuyRamSucceeds(n: nat, l: Ledger, r: RamState, u: UserRes, e: Env,
                       payer: Account, receiver: Account, amount: int)
    requires n >= 1 && Sound(l) && CoreToken(l) && r.market.supply > 0
    ensures BuyRam(n, l, r, u, e, payer, receiver, Asset(amount, CORE)).Ok? <==>
      && amount >= 2 && receiver !in RESERVED
      && e.isAccount(EOSIO_RAM) && e.isAccount(EOSIO_RAMFEE)
      && MaySpend(l, e, payer, amount, 0)
      && SwapOut(n, r.market.supply, r.market.quote, r.market.base, amount - Fee(amount)) > 0
  {
    hide Transfer, Convert, SwapOut, SumBy;
    if amount >= 2 {
      var fee := Fee(amount);
      var cost := Asset(amount - fee, CORE);
      BuyIsSwap(n, r.market, amount - fee);
      BalanceBounds(l, payer, CORE.code);
      TransferEffect(l, e, payer, EOSIO_RAM, cost);
      if MayTransfer(l, e, payer, EOSIO_RAM, cost) {
        TransferEffect(Transfer(l, e, payer, EOSIO_RAM, cost).value, e, payer, EOSIO_RAMFEE, Asset(fee, CORE));
      }
    } else if amount == 1 {
      TransferEffect(l, e, payer, EOSIO_RAM, Asset(0, CORE));
    }
  }

  /**
   * A sale goes through exactly if the seller has the bytes, they are worth more than one unit, and the seller
   * can be paid and can pay the fee out of it. The market and eosio.ram always cover it.
   */
  lemma SellRamFunded(n: nat, l: Ledger, r: RamState, u: UserRes, e: Env,
                      account: Account, bytes: int, q0: nat, s0: nat)
    requires n >= 1 && Sound(l) && CoreToken(l) && BytesSound(r, u) && PriceSound(r, q0, s0)
    requires Core(l, EOSIO_RAM) >= r.stake
    requires !e.frozen(EOSIO_RAM) && e.deposit(EOSIO_RAM) == 0 && e.lock(EOSIO_RAM) == 0
    ensures SellRam(n, l, r, u, e, account, bytes).Ok? <==>
      && 0 < bytes <= Quota(u, account) && account !in RESERVED
      && e.isAccount(account) && e.isAccount(EOSIO_RAMFEE)
      && var out := SwapOut(n, s0, r.market.base, r.market.quote, bytes);
         out > 1 && MaySpend(l, e, account, Fee(out), out)
  {
    hide SumBy, SwapOut, Transfer, Convert;
    if 0 < bytes <= Quota(u, account) {
      SellKeeps(n, r, u, account, bytes, q0, s0);
      SellIsSwap(n, r.market, bytes);
      var out := Asset(SwapOut(n, s0, r.market.base, r.market.quote, bytes), CORE);
      if out.amount > 1 {
        SoldAndPaid(l, e, account, out.amount);
      }
    }
  }

  lemma SoldAndPaid(l: Ledger, e: Env, account: Account, out: nat)
    requires Sound(l) && CoreToken(l) && 1 < out <= Core(l, EOSIO_RAM)
    requires !e.frozen(EOSIO_RAM) && e.deposit(EOSIO_RAM) == 0 && e.lock(EOSIO_RAM) == 0
    ensures var paid := Send(l, e, EOSIO_RAM, account, Asset(out, CORE));
      (paid.Ok? && Send(paid.value, e, account, EOSIO_RAMFEE, Asset(Fee(out), CORE)).Ok?) <==>
      && account != CHANNEL_SYS && e.isAccount(account) && e.isAccount(EOSIO_RAMFEE)
      && MaySpend(l, e, account, Fee(out), out)
  {
    hide Transfer, SumBy;
    BalanceBounds(l, EOSIO_RAM, CORE.code);
    BalanceBounds(l, account, CORE.code);
    TransferEffect(l, e, EOSIO_RAM, account, Asset(out, CORE));
    var paid := Send(l, e, EOSIO_RAM, account, Asset(out, CORE));
    if paid.Ok? {
      TransferEffect(paid.value, e, account, EOSIO_RAMFEE, Asset(Fee(out), CORE));
    }
  }

  /** buyrambytes spends exactly what selling the bytes would bring, fee included. */
  lemma BuyRamBytesPays(n: nat, l: Ledger, r: RamState, u: UserRes, e: Env,
                        payer: Account, receiver: Account, bytes: nat)
    requires n >= 1 && Sound(l) && CoreToken(l) && r.market.supply > 0 && bytes > 0
    ensures var price := SwapOut(n, r.market.supply, r.market.base, r.market.quote, bytes);
      var done := BuyRamBytes(n, l, r, u, e, payer, receiver, bytes);
      && (done.Ok? <==> BuyRam(n, l, r, u, e, payer, receiver, Asset(price, CORE)).Ok?)
      && (done.Ok? ==>
            var (l', r', u') := done.value;
            && PaysFor(l, l', payer, price - Fee(price), Fee(price))
            && r'.stake == r.stake + price - Fee(price)
            && r'.market.quote == r.market.quote + price - Fee(price)
            && QuotaShift(u, u', receiver, r.market.base - r'.market.base))
  {
    hide Transfer, Convert, SwapOut, SumBy, BuyRam;
    var price := SwapOut(n, r.market.supply, r.market.base, r.market.quote, bytes);
    SellIsSwap(n, r.market, bytes);
    if BuyRam(n, l, r, u, e, payer, receiver, Asset(price, CORE)).Ok? {
      BuyRamEffect(n, l, r, u, e, payer, receiver, Asset(price, CORE));
    }
  }

  /**
   * Documented as buying an exact amount, buyrambytes always delivers less: the price it pays is the one
   * for selling, before the fee.
   */
  lemma BuyRamBytesFallsShort(n: nat, l: Ledger, r: RamState, u: UserRes, e: Env,
                              payer: Account, receiver: Account, bytes: nat)
    requires n >= 1 && Alive(r.market)
    requires BuyRamBytes(n, l, r, u, e, payer, receiver, bytes).Ok?
    ensures var u' := BuyRamBytes(n, l, r, u, e, payer, receiver, bytes).value.2;
      receiver in u' && 0 < u'[receiver].ram - (if receiver in u then u[receiver].ram else 0) < bytes
  {
    hide Transfer, Convert;
    var m := r.market;
    if bytes == 0 {
      NothingTraded(n, m, RAM, CORE);
    } else {
      SellIsSwap(n, m, bytes);
      var price := SwapOut(n, m.supply, m.base, m.quote, bytes);
      SpentInFull(n, l, r, u, e, payer, receiver, price);
      BuyIsSwap(n, m, price - Fee(price));
      ShortDelivery(n, m, bytes);
    }
  }

  /** A purchase that succeeds spends something beyond the fee. */
  lemma SpentInFull(n: nat, l: Ledger, r: RamState, u: UserRes, e: Env,
                    payer: Account, receiver: Account, price: nat)
    requires n >= 1 && BuyRam(n, l, r, u, e, payer, receiver, Asset(price, CORE)).Ok?
    ensures price > Fee(price)
  {
    hide Convert;
  }

  /** Spending the proceeds of a sale less the fee buys back less than was sold. */
  lemma ShortDelivery(n: nat, m: Market, bytes: nat)
    requires n >= 1 && Alive(m) && bytes > 0
    requires var price := SwapOut(n, m.supply, m.base, m.quote, bytes); price > Fee(price)
    ensures var price := SwapOut(n, m.supply, m.base, m.quote, bytes);
      SwapOut(n, m.supply, m.quote, m.base, price - Fee(price)) < bytes
  {
    hide SwapOut;
    var price := SwapOut(n, m.supply, m.base, m.quote, bytes);
    var cost := price - Fee(price);
    SwapBound(n, m.supply, m.base, m.quote, bytes);
    SwapBound(n, m.supply, m.quote, m.base, cost);
    Short(m.base, m.quote, bytes, price, cost, SwapOut(n, m.supply, m.quote, m.base, cost));
  }

  lemma Short(b: nat, q: nat, bytes: nat, price: nat, cost: nat, out: nat)
    requires b > 0 && q > 0 && 0 < cost < price
    requires price * (b + bytes) <= q * bytes
    requires out * (q + cost) <= b * cost
    ensures out < bytes
  {
    // cost * b < price * b <= q * bytes, and out * q <= b * cost
    MulMonotone(cost + 1, price, b, b);
    assert (cost + 1) * b == cost * b + b;
    assert price * (b + bytes) == price * b + price * bytes;
    assert out * (q + cost) == out * q + out * cost;
    Commutes(b, cost);
    if out >= bytes {
      MulMonotone(bytes, out, q, q);
      Commutes(bytes, q);
    }
  }
}
