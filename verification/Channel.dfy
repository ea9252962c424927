/** The channel.sys ledger: balances other chains' users hold through the channel account. */
module Channel {
  import opened Base
  import opened MapSums
  import opened Arith
  import opened Ledgers

  /** One row per user and kind: 1 is the channel balance, 2 the prepaid fee. */
  type Book = map<(Account, nat), int>

  /** A transfer's memo, parsed: "kind:user:..." or something else. */
  datatype Memo = Plain | For(kind: nat, user: Account)

  function Row(b: Book, user: Account, kind: nat): int { if (user, kind) in b then b[(user, kind)] else 0 }

  /** Adds to a row, creating it when absent. */
  function Add(b: Book, user: Account, kind: nat, amount: int): Result<Book> {
    if (user, kind) !in b then Ok(b[(user, kind) := amount])
    else
      var sum :- Plus(b[(user, kind)], amount);
      Ok(b[(user, kind) := sum])
  }

  /** Takes a non-negative amount from an existing row that covers it. */
  function Take(b: Book, user: Account, kind: nat, amount: int): Result<Book> {
    if (user, kind) !in b || b[(user, kind)] < amount then Err
    else
      var left :- Plus(b[(user, kind)], -amount);
      Ok(b[(user, kind) := left])
  }

  // ---------- deposits ----------

  /** What channel.sys does on hearing of a transfer; kind 4 is passed on to the named user's deposit. */
  function TransferCore(b: Book, from: Account, to: Account, q: Asset, memo: Memo): Result<(Book, Option<Account>)> {
    if to != CHANNEL_SYS then Ok((b, None))
    else if q.symbol != CORE || memo.Plain? then Err
    else if memo.kind == 1 || memo.kind == 2 then
      if from != FUND_SYS then Err
      else
        var b' :- Add(b, memo.user, 1, q.amount);
        Ok((b', None))
    else if memo.kind == 3 then
      if from != STORE_SYS then Err
      else
        var b' :- Add(b, memo.user, 1, q.amount);
        Ok((b', None))
    else if memo.kind == 4 then
      if from != YTAPRO_MAP then Err else Ok((b, Some(memo.user)))
    else if memo.kind == 5 then
      if from != YTAPRO_MAP then Err
      else
        var b' :- Add(b, memo.user, 2, q.amount);
        Ok((b', None))
    else Err
  }

  /** The token side of hdddeposit's paydeppool2: channel.sys sends the deposit on to the user. */
  function PassOn(l: Ledger, e: Env, user: Account, q: Asset): Result<Ledger> {
    if e.frozen(user) || e.lock(user) != 0 then Err else Transfer(l, e, CHANNEL_SYS, user, q)
  }

  /** A transfer together with everything its notification sets off in the same transaction. */
  function Deliver(l: Ledger, b: Book, e: Env, from: Account, to: Account, q: Asset, memo: Memo)
    : Result<(Ledger, Book)>
  {
    var l1 :- Transfer(l, e, from, to, q);
    var (b', pass) :- TransferCore(b, from, to, q, memo);
    match pass
    case None => Ok((l1, b'))
    case Some(user) =>
      var l2 :- PassOn(l1, e, user, q);
      Ok((l2, b'))
  }

  // ---------- actions ----------

  function Mapc(l: Ledger, b: Book, e: Env, user: Account, quant: Asset, gas: Asset): Result<(Ledger, Book)> {
    if quant.symbol != CORE || gas.symbol != CORE || user == NODE_SYS || quant.amount <= 0 || gas.amount <= 0 then Err
    else
      var total :- Plus(quant.amount, gas.amount);
      var b' :- Take(b, user, 1, total);
      var l1 :- Transfer(l, e, CHANNEL_SYS, YTAPRO_MAP, quant);
      var l2 :- Transfer(l1, e, CHANNEL_SYS, YTAPRO_MAP, gas);
      Ok((l2, b'))
  }

  function Feetoc(b: Book, user: Account, quant: Asset): Result<Book> {
    if quant.symbol != CORE || quant.amount <= 0 then Err
    else
      var b1 :- Take(b, user, 2, quant.amount);
      Add(b1, user, 1, quant.amount)
  }

  function Subfee(b: Book, user: Account, quant: Asset): Result<Book> {
    if quant.symbol != CORE || quant.amount < 0 then Err
    else
      var b1 :- Take(b, user, 2, quant.amount);
      Add(b1, GAS_SYS, 1, quant.amount)
  }

  /** 20 + 60 / (yta/usd + 1), rounded down. */
  function SplitRate(yta: nat, usd: nat): nat
    requires yta + usd > 0
  {
    20 + 60 * usd / (yta + usd)
  }

  /** The node's part: a 64-bit product divided by a hundred. */
  function NodePart(amount: int, rate: nat): int { TruncDiv(Wrap64(amount * rate), 100) }

  /** Splits what gas.sys has collected between node.sys and null.sys. */
  function Splitgas(b: Book, e: Env): Result<Book> {
    if e.ytaPrice + e.usdPrice == 0 || (GAS_SYS, 1) !in b then Err
    else
      var amount := b[(GAS_SYS, 1)];
      if amount <= 0 then Ok(b)
      else
        var node := NodePart(amount, SplitRate(e.ytaPrice, e.usdPrice));
        if node > amount || !InRange(node) || !InRange(amount - node) then Err
        else
          var b1 :- Add(b[(GAS_SYS, 1) := 0], NODE_SYS, 1, node);
          Add(b1, NULL_SYS, 1, amount - node)
  }

  function Rewardnode(b: Book, user: Account, quant: Asset): Result<Book> {
    if quant.symbol != CORE || quant.amount <= 0 then Err
    else
      var b1 :- Take(b, NODE_SYS, 1, quant.amount);
      Add(b1, user, 1, quant.amount)
  }

  // ---------- conservation ----------

  ghost function EachRow(): ((Account, nat), int) -> int {
    (k: (Account, nat), v: int) => v
  }

  ghost function TotalRows(b: Book): int { SumBy(b, EachRow()) }

  /** Rows are never negative and within the asset range. */
  ghost predicate BookSound(b: Book) { forall k :: k in b ==> 0 <= b[k] <= MAX_AMOUNT }

  ghost predicate BookInRange(b: Book) { forall k :: k in b ==> InRange(b[k]) }

  lemma AddEffect(b: Book, user: Account, kind: nat, amount: int)
    requires BookInRange(b) && InRange(amount) && Add(b, user, kind, amount).Ok?
    ensures var b' := Add(b, user, kind, amount).value;
      && BookInRange(b')
      && TotalRows(b') == TotalRows(b) + amount
      && (BookSound(b) && amount >= 0 ==> BookSound(b'))
  {
    var b' := Add(b, user, kind, amount).value;
    assert b - {(user, kind)} == b' - {(user, kind)};
    SumChange(b, b', EachRow(), (user, kind));
  }

  lemma TakeEffect(b: Book, user: Account, kind: nat, amount: int)
    requires BookInRange(b) && InRange(amount) && Take(b, user, kind, amount).Ok?
    ensures var b' := Take(b, user, kind, amount).value;
      && BookInRange(b')
      && TotalRows(b') == TotalRows(b) - amount
      && (BookSound(b) && amount >= 0 ==> BookSound(b'))
  {
    var b' := Take(b, user, kind, amount).value;
    assert b - {(user, kind)} == b' - {(user, kind)};
    SumChange(b, b', EachRow(), (user, kind));
  }

  /** Exactly one row loses `x` and one gains it. */
  ghost predicate Shifts(b: Book, b': Book, from: (Account, nat), to: (Account, nat), x: int) {
    forall u: Account, k: nat ::
      Row(b', u, k) == Row(b, u, k) - (if (u, k) == from then x else 0) + (if (u, k) == to then x else 0)
  }

  /** An amount of core tokens that the book has for a user, in a row that exists. */
  predicate InRow(b: Book, user: Account, kind: nat, q: Asset) {
    q.symbol == CORE && (user, kind) in b && q.amount <= Row(b, user, kind)
  }

  /** Moving between rows needs the row to cover it, and while all rows fit the asset range nothing else. */
  lemma MovesSucceed(b: Book, user: Account, q: Asset)
    requires BookSound(b) && TotalRows(b) <= MAX_AMOUNT
    ensures Feetoc(b, user, q).Ok? <==> InRow(b, user, 2, q) && q.amount > 0
    ensures Subfee(b, user, q).Ok? <==> InRow(b, user, 2, q) && q.amount >= 0
    ensures Rewardnode(b, user, q).Ok? <==> InRow(b, NODE_SYS, 1, q) && q.amount > 0
  {
    hide SumBy;
    if q.amount >= 0 {
      ShiftFits(b, (user, 2), (user, 1), q.amount);
      ShiftFits(b, (user, 2), (GAS_SYS, 1), q.amount);
      ShiftFits(b, (NODE_SYS, 1), (user, 1), q.amount);
    }
  }

  /** What leaves one row fits into any other. */
  lemma ShiftFits(b: Book, from: (Account, nat), to: (Account, nat), x: nat)
    requires BookSound(b) && TotalRows(b) <= MAX_AMOUNT
    ensures from != to && x <= Row(b, from.0, from.1) ==> Row(b, to.0, to.1) + x <= MAX_AMOUNT
  {
    hide SumBy;
    var rest := b - {from};
    SumChange(b, rest, EachRow(), from);
    SumBounds(rest, EachRow(), to);
    assert to != from ==> (to in rest <==> to in b);
  }

  /** Moving between rows keeps the total and every row non-negative. */
  lemma FeetocEffect(b: Book, user: Account, quant: Asset)
    requires BookInRange(b) && Feetoc(b, user, quant).Ok?
    ensures var b' := Feetoc(b, user, quant).value;
      BookInRange(b') && (BookSound(b) ==> BookSound(b')) && TotalRows(b') == TotalRows(b)
      && Shifts(b, b', (user, 2), (user, 1), quant.amount)
  {
    TakeEffect(b, user, 2, quant.amount);
    AddEffect(Take(b, user, 2, quant.amount).value, user, 1, quant.amount);
  }

  lemma SubfeeEffect(b: Book, user: Account, quant: Asset)
    requires BookInRange(b) && Subfee(b, user, quant).Ok?
    ensures var b' := Subfee(b, user, quant).value;
      BookInRange(b') && (BookSound(b) ==> BookSound(b')) && TotalRows(b') == TotalRows(b)
      && Shifts(b, b', (user, 2), (GAS_SYS, 1), quant.amount)
  {
    TakeEffect(b, user, 2, quant.amount);
    AddEffect(Take(b, user, 2, quant.amount).value, GAS_SYS, 1, quant.amount);
  }

  lemma RewardnodeEffect(b: Book, user: Account, quant: Asset)
    requires BookInRange(b) && Rewardnode(b, user, quant).Ok?
    ensures var b' := Rewardnode(b, user, quant).value;
      BookInRange(b') && (BookSound(b) ==> BookSound(b')) && TotalRows(b') == TotalRows(b)
      && Shifts(b, b', (NODE_SYS, 1), (user, 1), quant.amount)
  {
    TakeEffect(b, NODE_SYS, 1, quant.amount);
    AddEffect(Take(b, NODE_SYS, 1, quant.amount).value, user, 1, quant.amount);
  }

  // ---------- splitting the gas ----------

  /** The rate is 20 and sixty times the dollar's part of the prices, rounded down: between 20 and 80. */
  lemma SplitRateBounds(yta: nat, usd: nat)
    requires yta + usd > 0
    ensures 20 <= SplitRate(yta, usd) <= 80
    ensures var r := SplitRate(yta, usd);
      (r - 20) * (yta + usd) <= 60 * usd < (r - 19) * (yta + usd)
  {
    FloorTimes(60 * usd, yta + usd);
    if 60 * usd / (yta + usd) > 60 {
      MulMonotone(61, 60 * usd / (yta + usd), yta + usd, yta + usd);
    }
  }

  /** The node's part is the exact percentage exactly while the product fits in 63 bits. */
  lemma NodePartExact(amount: nat, rate: nat)
    requires 0 < amount <= MAX_AMOUNT && 20 <= rate <= 80
    ensures NodePart(amount, rate) == amount * rate / 100 <==> amount * rate < I63
    ensures amount * rate < I63 ==> 0 <= NodePart(amount, rate) <= amount
  {
    WrappedHundredth(amount * rate);
    MulMonotone(amount, amount, rate, 80);
  }

  lemma WrappedHundredth(p: nat)
    ensures TruncDiv(Wrap64(p), 100) == p / 100 <==> p < I63
  {
    if p >= I63 {
      assert Wrap64(p) <= p - U64;
    }
  }

  /**
   * The split empties gas.sys into node.sys and null.sys. A sound book stays sound if and only if the node's
   * part, which an overflow may make negative, does not exceed what node.sys has; null.sys never loses.
   */
  lemma SplitgasEffect(b: Book, e: Env)
    requires BookInRange(b) && Splitgas(b, e).Ok?
    ensures var b' := Splitgas(b, e).value;
      var amount := Row(b, GAS_SYS, 1);
      var node := if amount > 0 then NodePart(amount, SplitRate(e.ytaPrice, e.usdPrice)) else 0;
      && BookInRange(b')
      && TotalRows(b') == TotalRows(b)
      && (BookSound(b) ==> (BookSound(b') <==> Row(b, NODE_SYS, 1) + node >= 0))
      && (BookSound(b) && amount * 80 < I63 ==> BookSound(b'))
      && forall u, k :: Row(b', u, k) ==
           if amount > 0 && u == GAS_SYS && k == 1 then 0
           else Row(b, u, k)
                + (if u == NODE_SYS && k == 1 then node else 0)
                + (if amount > 0 && u == NULL_SYS && k == 1 then amount - node else 0)
  {
    hide NodePart, SplitRate, SumBy, Add;
    var amount := b[(GAS_SYS, 1)];
    if amount > 0 {
      var rate := SplitRate(e.ytaPrice, e.usdPrice);
      SplitRateBounds(e.ytaPrice, e.usdPrice);
      NodePartExact(amount, rate);
      MulMonotone(amount, amount, rate, 80);
      Parted(b, NodePart(amount, rate));
    }
  }

  /** The rows after `node` of the gas goes to node.sys and the rest to null.sys. */
  lemma Parted(b: Book, node: int)
    requires BookInRange(b) && (GAS_SYS, 1) in b && InRange(node)
    requires var amount := b[(GAS_SYS, 1)]; 0 < amount && node <= amount && InRange(amount - node)
    requires Add(b[(GAS_SYS, 1) := 0], NODE_SYS, 1, node).Ok?
    requires var b1 := Add(b[(GAS_SYS, 1) := 0], NODE_SYS, 1, node).value;
      Add(b1, NULL_SYS, 1, b[(GAS_SYS, 1)] - node).Ok?
    ensures var amount := b[(GAS_SYS, 1)];
      var b1 := Add(b[(GAS_SYS, 1) := 0], NODE_SYS, 1, node).value;
      var b' := Add(b1, NULL_SYS, 1, amount - node).value;
      && BookInRange(b')
      && TotalRows(b') == TotalRows(b)
      && (BookSound(b) ==> (BookSound(b') <==> Row(b, NODE_SYS, 1) + node >= 0))
      && forall u, k :: Row(b', u, k) ==
           if u == GAS_SYS && k == 1 then 0
           else Row(b, u, k)
                + (if u == NODE_SYS && k == 1 then node else 0)
                + (if u == NULL_SYS && k == 1 then amount - node else 0)
  {
    hide SumBy;
    var amount := b[(GAS_SYS, 1)];
    var b0 := b[(GAS_SYS, 1) := 0];
    assert b - {(GAS_SYS, 1)} == b0 - {(GAS_SYS, 1)};
    SumChange(b, b0, EachRow(), (GAS_SYS, 1));
    AddEffect(b0, NODE_SYS, 1, node);
    var b1 := Add(b0, NODE_SYS, 1, node).value;
    AddEffect(b1, NULL_SYS, 1, amount - node);
    var b' := Add(b1, NULL_SYS, 1, amount - node).value;
    assert (NODE_SYS, 1) in b' && b'[(NODE_SYS, 1)] == Row(b, NODE_SYS, 1) + node;
  }

  /** While rows are backed and the product fits, the split goes through whenever there are prices and a gas row. */
  lemma SplitSucceeds(b: Book, e: Env)
    requires BookSound(b) && TotalRows(b) <= MAX_AMOUNT && Row(b, GAS_SYS, 1) * 80 < I63
    ensures Splitgas(b, e).Ok? <==> e.ytaPrice + e.usdPrice > 0 && (GAS_SYS, 1) in b
  {
    hide SumBy, NodePart, SplitRate;
    if e.ytaPrice + e.usdPrice > 0 && (GAS_SYS, 1) in b && b[(GAS_SYS, 1)] > 0 {
      var amount := b[(GAS_SYS, 1)];
      var rate := SplitRate(e.ytaPrice, e.usdPrice);
      SplitRateBounds(e.ytaPrice, e.usdPrice);
      MulMonotone(amount, amount, rate, 80);
      NodePartExact(amount, rate);
      ShiftFits(b, (GAS_SYS, 1), (NODE_SYS, 1), amount);
      ShiftFits(b, (GAS_SYS, 1), (NULL_SYS, 1), amount);
    }
  }

  /** The least gas whose product with the highest rate overflows. */
  const OVERFLOWING_GAS: nat := 115_292_150_460_684_698

  function GasOnly(): Book { map[(GAS_SYS, 1) := OVERFLOWING_GAS] }

  /** Prices at which the node gets four fifths. */
  function UsdPriced(): Env { Env(0, 0, 0, a => true, a => 0, a => 0, a => false, 0, 1) }

  lemma GasOnlyTotal()
    ensures TotalRows(GasOnly()) == OVERFLOWING_GAS
  {
    var k: (Account, nat) := (GAS_SYS, 1);
    SumSplit(GasOnly(), EachRow(), k);
    assert GasOnly() - {k} == map[];
  }

  /** That much gas is split all the same, and leaves node.sys with a negative row. */
  lemma SplitOverflows()
    ensures BookSound(GasOnly())
    ensures Splitgas(GasOnly(), UsdPriced()).Ok?
    ensures Row(Splitgas(GasOnly(), UsdPriced()).value, NODE_SYS, 1) < 0
    ensures !BookSound(Splitgas(GasOnly(), UsdPriced()).value)
  {
    assert SplitRate(0, 1) == 80;
    assert NodePart(OVERFLOWING_GAS, 80) == -92_233_720_368_547_757;
    assert (NODE_SYS, 1) in Splitgas(GasOnly(), UsdPriced()).value;
  }

  /** Every book of at most `cap` survives every split exactly while 80 times the cap fits in 63 bits. */
  lemma SplitsKeepRowsExactly(cap: int)
    ensures (forall b: Book, e: Env :: BookSound(b) && TotalRows(b) <= cap && Splitgas(b, e).Ok?
               ==> BookSound(Splitgas(b, e).value))
      <==> cap * 80 < I63
  {
    hide Splitgas, SumBy;
    if cap * 80 < I63 {
      forall b: Book, e: Env | BookSound(b) && TotalRows(b) <= cap && Splitgas(b, e).Ok?
        ensures BookSound(Splitgas(b, e).value)
      {
        SumBounds(b, EachRow(), (GAS_SYS, 1));
        SumBounds(b, EachRow(), (NODE_SYS, 1));
        SplitgasEffect(b, e);
      }
    } else {
      GasOnlyTotal();
      SplitOverflows();
    }
  }

  // ---------- backing ----------

  /** Tokens held by channel.sys beyond what its rows add up to. */
  ghost function Backing(l: Ledger, b: Book): int { Core(l, CHANNEL_SYS) - TotalRows(b) }

  /**
   * A mapping out takes from the user's row, and from no other, exactly what leaves the channel account for
   * ytapro.map, even if the sum wraps.
   */
  lemma MapcEffect(l: Ledger, b: Book, e: Env, user: Account, quant: Asset, gas: Asset)
    requires Sound(l) && BookInRange(b) && Mapc(l, b, e, user, quant, gas).Ok?
    ensures var (l', b') := Mapc(l, b, e, user, quant, gas).value;
      && Sound(l') && l'.stats == l.stats
      && BookInRange(b') && (BookSound(b) ==> BookSound(b'))
      && Backing(l', b') == Backing(l, b)
      && quant.amount > 0 && gas.amount > 0
      && (forall u, k :: Row(b', u, k) ==
            Row(b, u, k) - (if u == user && k == 1 then quant.amount + gas.amount else 0))
      && (forall a :: a != CHANNEL_SYS ==>
            Core(l', a) == Core(l, a) + (if a == YTAPRO_MAP then quant.amount + gas.amount else 0))
  {
    TransferEffect(l, e, CHANNEL_SYS, YTAPRO_MAP, quant);
    var l1 := Transfer(l, e, CHANNEL_SYS, YTAPRO_MAP, quant).value;
    TransferEffect(l1, e, CHANNEL_SYS, YTAPRO_MAP, gas);
    TakeEffect(b, user, 1, quant.amount + gas.amount);
  }

  /** It goes through exactly if the row covers both amounts, and so does channel.sys beyond its own reserve. */
  lemma MapcSucceeds(l: Ledger, b: Book, e: Env, user: Account, quant: Asset, gas: Asset)
    requires Sound(l) && CoreToken(l) && BookSound(b)
    requires InRange(quant.amount) && InRange(gas.amount)
    ensures Mapc(l, b, e, user, quant, gas).Ok? <==>
      && user != NODE_SYS
      && quant.symbol == CORE && gas.symbol == CORE && quant.amount > 0 && gas.amount > 0
      && (user, 1) in b && quant.amount + gas.amount <= Row(b, user, 1)
      && e.isAccount(YTAPRO_MAP) && !e.frozen(CHANNEL_SYS)
      && Core(l, CHANNEL_SYS) >= quant.amount + gas.amount + e.deposit(CHANNEL_SYS) + e.lock(CHANNEL_SYS)
  {
    hide Transfer, SumBy;
    BalanceBounds(l, CHANNEL_SYS, CORE.code);
    TransferEffect(l, e, CHANNEL_SYS, YTAPRO_MAP, quant);
    if Transfer(l, e, CHANNEL_SYS, YTAPRO_MAP, quant).Ok? {
      var l1 := Transfer(l, e, CHANNEL_SYS, YTAPRO_MAP, quant).value;
      TransferEffect(l1, e, CHANNEL_SYS, YTAPRO_MAP, gas);
    }
  }

  /** The row a deposit of each kind is entered in. */
  function KindRow(kind: nat): nat { if kind == 5 then 2 else 1 }

  /** Who may deposit with which kind of memo. */
  predicate MayDeposit(from: Account, q: Asset, memo: Memo) {
    && q.symbol == CORE && memo.For?
    && ((memo.kind in {1, 2} && from == FUND_SYS) || (memo.kind == 3 && from == STORE_SYS)
        || (memo.kind in {4, 5} && from == YTAPRO_MAP))
  }

  /** What else passing a deposit of kind 4 on to its user takes. */
  predicate MayPassOn(l: Ledger, e: Env, user: Account) {
    && user != CHANNEL_SYS && e.isAccount(user) && !e.frozen(user) && e.lock(user) == 0
    && (user !in {YOTTAFORFEIT, FORFEIT_SYS} ==>
          && !e.frozen(CHANNEL_SYS)
          && Core(l, CHANNEL_SYS) >=
             e.deposit(CHANNEL_SYS) + (if user == EOSIO_STAKE then 0 else e.lock(CHANNEL_SYS)))
  }

  /**
   * While the rows are backed, a deposit that may be transferred is refused only for its sender and memo, or,
   * for kind 4, because it cannot be passed on: rows are bounded by the supply, so none overflows. It raises
   * the one row its kind names, or for kind 4 none, and the tokens stay with channel.sys or go on to the user.
   */
  lemma DepositEntered(l: Ledger, b: Book, e: Env, from: Account, q: Asset, memo: Memo)
    requires Sound(l) && CoreToken(l) && BookSound(b) && Backing(l, b) >= 0
    ensures Deliver(l, b, e, from, CHANNEL_SYS, q, memo).Ok? <==>
      && MayTransfer(l, e, from, CHANNEL_SYS, q)
      && MayDeposit(from, q, memo)
      && (memo.kind == 4 ==> MayPassOn(l, e, memo.user))
    ensures Deliver(l, b, e, from, CHANNEL_SYS, q, memo).Ok? ==>
      var (l', b') := Deliver(l, b, e, from, CHANNEL_SYS, q, memo).value;
      var holder := if memo.kind == 4 then memo.user else CHANNEL_SYS;
      && (forall u, k :: Row(b', u, k) == Row(b, u, k)
            + (if memo.kind != 4 && u == memo.user && k == KindRow(memo.kind) then q.amount else 0))
      && (forall a :: Core(l', a) ==
            Core(l, a) + (if a == holder then q.amount else 0) - (if a == from then q.amount else 0))
  {
    hide Transfer, SumBy, PassOn, TransferCore, MayDeposit, Row, MayTransfer, MayPassOn;
    TransferEffect(l, e, from, CHANNEL_SYS, q);
    if MayTransfer(l, e, from, CHANNEL_SYS, q) {
      FromOutside(l, e, from, q);
      var l1 := Transfer(l, e, from, CHANNEL_SYS, q).value;
      if q.symbol == CORE {
        BalanceBounds(l1, CHANNEL_SYS, CORE.code);
      }
      DepositHeard(b, from, q, memo);
      if MayDeposit(from, q, memo) && memo.kind == 4 {
        PassedOn(l, l1, e, memo.user, q);
      }
    }
  }

  lemma FromOutside(l: Ledger, e: Env, from: Account, q: Asset)
    requires MayTransfer(l, e, from, CHANNEL_SYS, q)
    ensures q.amount > 0 && from != CHANNEL_SYS
  {
  }

  lemma PassedOn(l: Ledger, l1: Ledger, e: Env, user: Account, q: Asset)
    requires Sound(l) && Sound(l1) && CoreToken(l1) && q.symbol == CORE && q.amount > 0
    requires Core(l1, CHANNEL_SYS) == Core(l, CHANNEL_SYS) + q.amount
    ensures PassOn(l1, e, user, q).Ok? <==> MayPassOn(l, e, user)
    ensures PassOn(l1, e, user, q).Ok? ==>
      forall a :: Core(PassOn(l1, e, user, q).value, a) ==
        Core(l1, a) + (if a == user then q.amount else 0) - (if a == CHANNEL_SYS then q.amount else 0)
  {
    hide Transfer, SumBy;
    BalanceBounds(l, CHANNEL_SYS, CORE.code);
    BalanceBounds(l1, CHANNEL_SYS, CORE.code);
    TransferEffect(l1, e, CHANNEL_SYS, user, q);
  }

  /** Any other transfer is just that. */
  lemma DeliveredElsewhere(l: Ledger, b: Book, e: Env, from: Account, to: Account, q: Asset, memo: Memo)
    requires Sound(l) && to != CHANNEL_SYS
    ensures Deliver(l, b, e, from, to, q, memo).Ok? <==> MayTransfer(l, e, from, to, q)
    ensures Deliver(l, b, e, from, to, q, memo).Ok? ==>
      var (l', b') := Deliver(l, b, e, from, to, q, memo).value;
      b' == b && Sound(l') && Moves(l, l', from, to, q)
  {
    hide Transfer, SumBy, MayTransfer;
    TransferEffect(l, e, from, to, q);
  }

  lemma DepositHeard(b: Book, from: Account, q: Asset, memo: Memo)
    requires BookSound(b) && q.amount > 0 && (q.symbol == CORE ==> TotalRows(b) + q.amount <= MAX_AMOUNT)
    ensures TransferCore(b, from, CHANNEL_SYS, q, memo).Ok? <==> MayDeposit(from, q, memo)
    ensures MayDeposit(from, q, memo) ==>
      var (b', pass) := TransferCore(b, from, CHANNEL_SYS, q, memo).value;
      && memo.For? && q.symbol == CORE
      && pass == (if memo.kind == 4 then Some(memo.user) else None)
      && forall u, k :: Row(b', u, k) == Row(b, u, k)
           + (if memo.kind != 4 && u == memo.user && k == KindRow(memo.kind) then q.amount else 0)
  {
    hide SumBy;
    if MayDeposit(from, q, memo) {
      SumBounds(b, EachRow(), (memo.user, KindRow(memo.kind)));
    }
  }

  /**
   * Every delivery to the channel account is entered for a user or passed on in full, so no transfer that
   * the channel account does not itself make changes its backing.
   */
  lemma DeliverEffect(l: Ledger, b: Book, e: Env, from: Account, to: Account, q: Asset, memo: Memo)
    requires Sound(l) && CoreToken(l) && BookInRange(b) && Deliver(l, b, e, from, to, q, memo).Ok?
    ensures var (l', b') := Deliver(l, b, e, from, to, q, memo).value;
      && Sound(l') && l'.stats == l.stats
      && BookInRange(b') && (BookSound(b) ==> BookSound(b'))
      && (from != CHANNEL_SYS ==> Backing(l', b') == Backing(l, b))
      && (forall a :: a != from ==> Core(l', a) >= Core(l, a))
  {
    hide Transfer, Add;
    TransferEffect(l, e, from, to, q);
    var l1 := Transfer(l, e, from, to, q).value;
    if to == CHANNEL_SYS {
      if memo.kind == 4 {
        TransferEffect(l1, e, CHANNEL_SYS, memo.user, q);
      } else {
        AddEffect(b, memo.user, if memo.kind == 5 then 2 else 1, q.amount);
      }
    }
  }
}
