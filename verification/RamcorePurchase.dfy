/** What buying RAM with a currency called RAMCORE does to a market that was sound. */
module RamcorePurchase {
  import opened Base
  import opened Arith
  import opened Ledgers
  import opened Markets
  import opened Ram
  import opened Economy
  import opened RamRuns
  import opened Solvency

  // ---------- redeeming one unit ----------

  /** Bernoulli's inequality for 1 + 1/left. */
  lemma {:induction false} GrowsSlowly(left: nat, k: nat)
    requires k <= left + 1
    ensures (left + 1 - k) * Pow(left + 1, k) <= (left + 1) * Pow(left, k)
  {
    if k > 0 {
      GrowsSlowly(left, k - 1);
      NextPower(left, k - 1, Pow(left + 1, k - 1), Pow(left, k - 1));
    }
  }

  lemma NextPower(left: nat, k: nat, p: nat, q: nat)
    requires k <= left && (left + 1 - k) * p <= (left + 1) * q
    ensures (left - k) * ((left + 1) * p) <= (left + 1) * (left * q)
  {
    assert (left - k) * (left + 1) <= left * (left + 1 - k);
    MulMonotone((left - k) * (left + 1), left * (left + 1 - k), p, p);
    Associates(left - k, left + 1, p);
    Associates(left, left + 1 - k, p);
    MulMonotone(left, left, (left + 1 - k) * p, (left + 1) * q);
    Associates(left, left + 1, q);
    Associates(left + 1, left, q);
    Commutes(left, left + 1);
  }

  /** With a supply of more than twice n, one unit redeems something and no more than there is. */
  lemma RedeemsOne(n: nat, left: nat, c: nat)
    requires n >= 1 && left >= 2 * n && c >= left
    ensures 0 < Redeemed(n, left, c, 1) <= c
  {
    hide Pow;
    var p, d := Pow(left, n), Pow(left + 1, n) - Pow(left, n);
    AtLeast(n, left);
    AtMost(n, left);
    QuotientWithin(c, d, p, left, Pow(left, n - 1));
  }

  lemma QuotientWithin(c: nat, d: nat, p: nat, left: nat, low: nat)
    requires 0 < p == left * low && c >= left && low <= d <= p
    ensures 0 < c * d / p <= c
  {
    MulMonotone(left, c, low, d);
    MulMonotone(c, c, d, p);
    FloorTimes(c * d, p);
    CancelFactor(c * d / p, c, p);
  }

  lemma AtLeast(n: nat, left: nat)
    requires n >= 1
    ensures Pow(left, n) == left * Pow(left, n - 1)
    ensures Pow(left + 1, n) >= Pow(left, n) + Pow(left, n - 1)
  {
    var low := Pow(left, n - 1);
    PowMonotone(left, left + 1, n - 1);
    MulMonotone(left + 1, left + 1, low, Pow(left + 1, n - 1));
    assert (left + 1) * low == left * low + low;
  }

  lemma AtMost(n: nat, left: nat)
    requires n >= 1 && left >= 2 * n
    ensures Pow(left + 1, n) <= 2 * Pow(left, n)
  {
    hide Pow;
    var x, y, s := Pow(left + 1, n), Pow(left, n), left + 1 - n;
    GrowsSlowly(left, n);
    MulMonotone(left + 1, 2 * s, y, y);
    assert 2 * s * y == s * (2 * y) by { Associates(s, 2, y); }
    CancelFactorLeft(x, 2 * y, s);
  }

  // ---------- the purchase ----------

  /** One holder of all core tokens, who also holds two units of a currency called RAMCORE. */
  function TwoCoins(): Ledger {
    Ledger(map[CORE.code := Stat(1000, 1000, CORE, EOSIO), RAMCORE.code := Stat(2, 2, RAMCORE, 1)],
           map[(1, CORE.code) := Asset(1000, CORE), (1, RAMCORE.code) := Asset(2, RAMCORE)])
  }

  function NothingLocked(): Env { Env(0, 0, 0, a => true, a => 0, a => 0, a => false, 0, 0) }

  const PURCHASE := RamAct(RamBuy(1, 1, Asset(2, RAMCORE)))

  /** The market as created over `TwoCoins`, with as many bytes as it has supply. */
  function Before(): World { Genesis(TwoCoins(), 100_000_000_000_000, map[]) }

  lemma TwoCoinsSound()
    ensures Sound(TwoCoins())
  {
    var m := TwoCoins().accounts;
    var c: (Account, nat) := (1, CORE.code);
    var x: (Account, nat) := (1, RAMCORE.code);
    forall code ensures TotalHeld(TwoCoins(), code) == HeldIn(code)(c, m[c]) + HeldIn(code)(x, m[x]) {
      MapSums.SumSplit(m, HeldIn(code), c);
      MapSums.SumSplit(m - {c}, HeldIn(code), x);
      assert m - {c} - {x} == map[];
    }
  }

  lemma RamcoreIsASymbol()
    ensures ValidSymbol(RAMCORE)
  {
    assert Letters(0x45);
    assert Letters(0x4552);
    assert Letters(0x45524F);
    assert Letters(0x45524F43);
    assert Letters(0x45524F434D);
    assert Letters(0x45524F434D41);
  }

  lemma PurchasePaid()
    ensures var l, e := TwoCoins(), NothingLocked();
      && Send(l, e, 1, EOSIO_RAM, Asset(1, RAMCORE)).Ok?
      && Send(Send(l, e, 1, EOSIO_RAM, Asset(1, RAMCORE)).value, e, 1, EOSIO_RAMFEE, Asset(1, RAMCORE)).Ok?
  {
    hide Transfer, MapSums.SumBy, Letters;
    var l, e := TwoCoins(), NothingLocked();
    TwoCoinsSound();
    RamcoreIsASymbol();
    TransferEffect(l, e, 1, EOSIO_RAM, Asset(1, RAMCORE));
    var l1 := Send(l, e, 1, EOSIO_RAM, Asset(1, RAMCORE)).value;
    TransferEffect(l1, e, 1, EOSIO_RAMFEE, Asset(1, RAMCORE));
  }

  lemma PurchaseDelivered(n: nat, m: Market)
    requires 1 <= n <= 10_000_000_000_000 && m.supply == m.base == 100_000_000_000_000
    ensures Convert(n, m, Asset(1, RAMCORE), RAM).Ok? && Convert(n, m, Asset(1, RAMCORE), RAM).value.1.amount > 0
  {
    hide Redeemed;
    RedeemsOne(n, m.supply - 1, m.base);
  }

  lemma BeforeSound()
    ensures Kernel(Before(), 1000) && RamSound(Before(), 1, 100_000_000_000_000)
    ensures Surplus(Before(), RamHolder) == 0
  {
    hide Kernel, RamSound, MapSums.SumBy, Sound;
    TwoCoinsSound();
    GenesisKernel(TwoCoins(), 100_000_000_000_000, map[]);
    GenesisRam(TwoCoins(), 100_000_000_000_000, map[]);
  }

  lemma PurchaseGoesThrough(n: nat)
    requires 1 <= n <= 10_000_000_000_000
    ensures Step(n, Before(), NothingLocked(), PURCHASE).Ok?
  {
    hide Transfer, Convert, MapSums.SumBy;
    PurchasePaid();
    PurchaseDelivered(n, Before().ram.market);
  }

  /**
   * In a state where every invariant holds, the purchase goes through and leaves the market's books wrong and
   * eosio.ram without the tokens it answers for. The source's n is 2000.
   */
  lemma RamcorePurchaseBreaksTheMarket(n: nat)
    requires 1 <= n <= 10_000_000_000_000
    ensures Kernel(Before(), 1000) && RamSound(Before(), 1, 100_000_000_000_000)
    ensures Surplus(Before(), RamHolder) == 0
    ensures var r := Step(n, Before(), NothingLocked(), PURCHASE);
      && r.Ok?
      && !PriceSound(r.value.ram, 1, 100_000_000_000_000)
      && Surplus(r.value, RamHolder) == -1
  {
    hide Kernel, BytesSound, Surplus, Step, Before;
    BeforeSound();
    PurchaseGoesThrough(n);
    StepHeadroom(n, Before(), NothingLocked(), PURCHASE, 1000);
    StepCovers(n, Before(), NothingLocked(), PURCHASE, 1000, RamHolder);
  }
}
