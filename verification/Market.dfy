/**
 * The Bancor relay behind RAM prices, in exact arithmetic.
 *
 * Both connectors have the same weight, so a deposit raises the supply by the n-th root of the
 * relative growth and a redemption undoes it with the n-th power (n = 2000 for weight .5). The
 * doubles of the source are replaced by exact numbers; truncation to int64 stays a floor.
 */
module Markets {
  import opened Base
  import opened Arith

  function Pow(b: nat, n: nat): (p: nat)
    ensures b > 0 ==> p > 0
  {
    if n == 0 then 1 else b * Pow(b, n - 1)
  }

  lemma {:induction false} PowMonotone(a: nat, b: nat, n: nat)
    requires a <= b
    ensures Pow(a, n) <= Pow(b, n)
  {
    if n > 0 {
      PowMonotone(a, b, n - 1);
      MulMonotone(a, b, Pow(a, n - 1), Pow(b, n - 1));
    }
  }

  lemma {:induction false} PowDoubles(r: nat, x: nat, n: nat)
    requires r > 0 && x > 2 * r && n >= 1
    ensures Pow(x, n) > 2 * Pow(r, n)
  {
    var p, q := Pow(r, n - 1), Pow(x, n - 1);
    PowMonotone(r, x, n - 1);
    assert x * q >= x * p by { MulMonotone(x, x, p, q); }
    assert x * p > (2 * r) * p by { MulMonotone(2 * r + 1, x, p, p); assert (2 * r + 1) * p == 2 * r * p + p; }
    assert (2 * r) * p == 2 * (r * p);
  }

  // ---------- one leg ----------

  /** Issuing `i` keeps the supply's n-th power within the growth of a connector from b+t to b+2t. */
  predicate Affordable(n: nat, r: nat, b: nat, t: nat, i: nat) {
    Pow(r + i, n) * (b + t) <= (b + 2 * t) * Pow(r, n)
  }

  /** What `convert_to_exchange` issues against supply `r` for `t` put into a connector holding `b`. */
  function Issued(n: nat, r: nat, b: nat, t: nat): (i: nat)
    requires n >= 1 && r > 0 && b + t > 0
    ensures Affordable(n, r, b, t, i)
    ensures forall j :: j > i ==> !Affordable(n, r, b, t, j)
  {
    NeverTwice(n, r, b, t);
    LargestUpTo(n, r, b, t, r)
  }

  function LargestUpTo(n: nat, r: nat, b: nat, t: nat, k: nat): (i: nat)
    requires n >= 1 && r > 0 && b + t > 0
    requires forall j :: j > k ==> !Affordable(n, r, b, t, j)
    ensures Affordable(n, r, b, t, i)
    ensures forall j :: j > i ==> !Affordable(n, r, b, t, j)
  {
    if Affordable(n, r, b, t, k) then k
    else
      FreeIsAffordable(n, r, b, t);
      LargestUpTo(n, r, b, t, k - 1)
  }

  lemma FreeIsAffordable(n: nat, r: nat, b: nat, t: nat)
    ensures Affordable(n, r, b, t, 0)
  {
    MulMonotone(b + t, b + 2 * t, Pow(r, n), Pow(r, n));
  }

  /** More than doubling the supply is never affordable. */
  lemma NeverTwice(n: nat, r: nat, b: nat, t: nat)
    requires n >= 1 && r > 0 && b + t > 0
    ensures forall j :: j > r ==> !Affordable(n, r, b, t, j)
  {
    forall j | j > r ensures !Affordable(n, r, b, t, j) {
      PowDoubles(r, r + j, n);
      Exceeds(Pow(r, n), Pow(r + j, n), b, t);
    }
  }

  lemma Exceeds(p: nat, q: nat, b: nat, t: nat)
    requires q > 2 * p && b + t > 0
    ensures q * (b + t) > (b + 2 * t) * p
  {
    MulMonotone(2 * p + 1, q, b + t, b + t);
    assert (2 * p + 1) * (b + t) == (2 * b + 2 * t) * p + (b + t);
    MulMonotone(b + 2 * t, 2 * b + 2 * t, p, p);
  }

  /** What `convert_from_exchange` pays from a connector holding `c` for `i` burnt down to supply `r`. */
  function Redeemed(n: nat, r: nat, c: nat, i: nat): nat
    requires r > 0
  {
    PowMonotone(r, r + i, n);
    c * (Pow(r + i, n) - Pow(r, n)) / Pow(r, n)
  }

  // ---------- two legs ----------

  /** The output of putting `t` into connector `cin` and redeeming from `cout`. */
  function SwapOut(n: nat, r: nat, cin: nat, cout: nat, t: nat): nat
    requires n >= 1 && r > 0 && cin + t > 0
  {
    Redeemed(n, r, cout, Issued(n, r, cin, t))
  }

  /** Root and power cancel: the two legs pay at most a constant-product swap would. */
  lemma SwapBound(n: nat, r: nat, cin: nat, cout: nat, t: nat)
    requires n >= 1 && r > 0 && cin + t > 0
    ensures SwapOut(n, r, cin, cout, t) * (cin + t) <= cout * t
  {
    hide Pow;
    var i := Issued(n, r, cin, t);
    PowMonotone(r, r + i, n);
    var p, d := Pow(r, n), Pow(r + i, n) - Pow(r, n);
    Growth(p, d, cin, t);
    FloorTimes(cout * d, p);
    ChainBound(SwapOut(n, r, cin, cout, t), p, cin + t, cout, d, t);
  }

  lemma Growth(p: nat, d: nat, b: nat, t: nat)
    requires (p + d) * (b + t) <= (b + 2 * t) * p
    ensures d * (b + t) <= t * p
  {
    assert (p + d) * (b + t) == p * b + p * t + d * (b + t);
    assert (b + 2 * t) * p == p * b + p * t + t * p;
  }

  lemma ChainBound(out: nat, p: nat, s: nat, c: nat, d: nat, t: nat)
    requires p > 0
    requires out * p <= c * d
    requires d * s <= t * p
    ensures out * s <= c * t
  {
    assert out * s * p <= c * t * p by {
      assert out * s * p == out * p * s;
      MulMonotone(out * p, c * d, s, s);
      assert c * d * s == c * (d * s);
      MulMonotone(c, c, d * s, t * p);
      assert c * (t * p) == c * t * p;
    }
    CancelFactor(out * s, c * t, p);
  }

  /** Redeeming pays the growth of the supply's n-th power, rounded down. */
  lemma RedeemedExact(n: nat, r: nat, c: nat, i: nat)
    requires r > 0
    ensures var out, p := Redeemed(n, r, c, i), Pow(r, n);
      out * p <= c * (Pow(r + i, n) - p) < (out + 1) * p
  {
    hide Pow;
    PowMonotone(r, r + i, n);
    FloorTimes(c * (Pow(r + i, n) - Pow(r, n)), Pow(r, n));
  }

  /**
   * The two legs pay no less than whole units allow: for every issue that the deposit affords, the payout is
   * less than one unit short of what redeeming it is worth.
   */
  lemma SwapTight(n: nat, r: nat, cin: nat, cout: nat, t: nat, j: nat)
    requires n >= 1 && r > 0 && cin + t > 0 && Affordable(n, r, cin, t, j)
    ensures cout * (Pow(r + j, n) - Pow(r, n)) < (SwapOut(n, r, cin, cout, t) + 1) * Pow(r, n)
  {
    hide Pow, Affordable, Redeemed;
    var i := Issued(n, r, cin, t);
    assert j <= i;
    PowMonotone(r, r + j, n);
    PowMonotone(r + j, r + i, n);
    RedeemedExact(n, r, cout, i);
    MulMonotone(cout, cout, Pow(r + j, n) - Pow(r, n), Pow(r + i, n) - Pow(r, n));
  }

  /** The product of the connectors never falls and the paying one is never drained. */
  lemma SwapKeepsProduct(n: nat, r: nat, cin: nat, cout: nat, t: nat)
    requires n >= 1 && r > 0 && cin + t > 0
    ensures SwapOut(n, r, cin, cout, t) <= cout
    ensures cin > 0 && cout > 0 ==> SwapOut(n, r, cin, cout, t) < cout
    ensures (cin + t) * (cout - SwapOut(n, r, cin, cout, t)) >= cin * cout
  {
    SwapBound(n, r, cin, cout, t);
    ProductKept(SwapOut(n, r, cin, cout, t), cin, cout, t);
  }

  lemma ProductKept(out: nat, cin: nat, cout: nat, t: nat)
    requires cin + t > 0 && out * (cin + t) <= cout * t
    ensures out <= cout
    ensures cin > 0 && cout > 0 ==> out < cout
    ensures (cin + t) * (cout - out) >= cin * cout
  {
    assert cout * t <= cout * (cin + t) by { MulMonotone(cout, cout, t, cin + t); }
    CancelFactor(out, cout, cin + t);
    assert (cin + t) * (cout - out) == cin * cout + cout * t - out * (cin + t);
    if cin > 0 && cout > 0 {
      MulMonotone(1, cin, 1, cout);
    }
  }

  // ---------- the exchange ----------

  datatype Market = Market(supply: nat, base: nat, quote: nat)

  /**
   * `convert`: sell an asset for another, through the exchange token when need be. The source divides
   * by zero when an empty connector receives nothing or the whole supply is redeemed; both fail here. So does
   * redeeming more than the supply, or more than a connector holds, either of which the source would let go
   * negative; only exchange tokens paid in from outside can do that (`CoverNeverMissing`).
   */
  function Convert(n: nat, m: Market, from: Asset, to: Symbol): Result<(Market, Asset)>
    requires n >= 1
    decreases if from.symbol == RAMCORE then 0 else 1
  {
    if from.amount < 0 || m.supply == 0 then Err
    else if from.symbol == RAM then
      if m.base + from.amount == 0 then Err
      else
        var issued := Issued(n, m.supply, m.base, from.amount);
        var m' := m.(supply := m.supply + issued, base := m.base + from.amount);
        Then(n, m', Asset(issued, RAMCORE), to)
    else if from.symbol == CORE then
      if m.quote + from.amount == 0 then Err
      else
        var issued := Issued(n, m.supply, m.quote, from.amount);
        var m' := m.(supply := m.supply + issued, quote := m.quote + from.amount);
        Then(n, m', Asset(issued, RAMCORE), to)
    else if from.symbol != RAMCORE || from.amount >= m.supply then Err
    else
      var left := m.supply - from.amount;
      if to == RAM then
        var out := Redeemed(n, left, m.base, from.amount);
        if out > m.base then Err else Ok((Market(left, m.base - out, m.quote), Asset(out, RAM)))
      else if to == CORE then
        var out := Redeemed(n, left, m.quote, from.amount);
        if out > m.quote then Err else Ok((Market(left, m.base, m.quote - out), Asset(out, CORE)))
      else Err
  }

  /** Go on converting until the wanted symbol is reached. */
  function Then(n: nat, m: Market, got: Asset, to: Symbol): Result<(Market, Asset)>
    requires n >= 1 && got.symbol == RAMCORE
    decreases 1, 0
  {
    if to == got.symbol then Ok((m, got)) else Convert(n, m, got, to)
  }

  /** RAM for core tokens: two legs, the supply as before, and no product lost. */
  lemma SellIsSwap(n: nat, m: Market, bytes: nat)
    requires n >= 1 && m.supply > 0 && bytes > 0
    ensures var out := SwapOut(n, m.supply, m.base, m.quote, bytes);
      out <= m.quote &&
      Convert(n, m, Asset(bytes, RAM), CORE) ==
        Ok((Market(m.supply, m.base + bytes, m.quote - out), Asset(out, CORE)))
  {
    SwapKeepsProduct(n, m.supply, m.base, m.quote, bytes);
  }

  /** Core tokens for RAM: likewise. */
  lemma BuyIsSwap(n: nat, m: Market, tokens: nat)
    requires n >= 1 && m.supply > 0 && tokens > 0
    ensures var out := SwapOut(n, m.supply, m.quote, m.base, tokens);
      out <= m.base &&
      Convert(n, m, Asset(tokens, CORE), RAM) ==
        Ok((Market(m.supply, m.base - out, m.quote + tokens), Asset(out, RAM)))
  {
    SwapKeepsProduct(n, m.supply, m.quote, m.base, tokens);
  }

  /** Exchange tokens for either side: one leg, which pays what the supply's n-th power shrinks by. */
  lemma BurnPays(n: nat, m: Market, burnt: int, to: Symbol)
    requires n >= 1 && (to == RAM || to == CORE) && Convert(n, m, Asset(burnt, RAMCORE), to).Ok?
    ensures var (m', out) := Convert(n, m, Asset(burnt, RAMCORE), to).value;
      var p, q := Pow(m.supply - burnt, n), Pow(m.supply, n);
      && 0 <= burnt < m.supply == m'.supply + burnt
      && out.symbol == to
      && m'.base == m.base - (if to == RAM then out.amount else 0)
      && m'.quote == m.quote - (if to == CORE then out.amount else 0)
      && out.amount * p <= (if to == RAM then m.base else m.quote) * (q - p) < (out.amount + 1) * p
  {
    hide Redeemed, Pow;
    RedeemedExact(n, m.supply - burnt, if to == RAM then m.base else m.quote, burnt);
  }

  /**
   * Whatever pays for RAM, the connectors move by what went in and what came out; the core connector
   * moves only if core tokens were paid.
   */
  lemma RamBought(n: nat, m: Market, paid: Asset)
    requires n >= 1 && Convert(n, m, paid, RAM).Ok?
    ensures paid.symbol == CORE || paid.symbol == RAM || paid.symbol == RAMCORE
    ensures var (m', out) := Convert(n, m, paid, RAM).value;
      && out.amount >= 0
      && m'.quote == m.quote + (if paid.symbol == CORE then paid.amount else 0)
      && m'.base == m.base + (if paid.symbol == RAM then paid.amount else 0) - out.amount
  {
    hide Issued, Redeemed;
  }

  /**
   * The check that a connector covers what is redeemed from it, which the source does not have, stops nothing
   * that starts from RAM or core tokens: those conversions fail only for a negative amount, a dead market or
   * nothing at all in the receiving connector.
   */
  lemma CoverNeverMissing(n: nat, m: Market, from: Asset, to: Symbol)
    requires n >= 1 && (from.symbol == RAM || from.symbol == CORE) && (to == RAM || to == CORE)
    ensures Convert(n, m, from, to).Ok? <==>
      from.amount >= 0 && m.supply > 0 && (if from.symbol == RAM then m.base else m.quote) + from.amount > 0
  {
    hide Issued, Redeemed, Pow;
    var c := if from.symbol == RAM then m.base else m.quote;
    if from.amount >= 0 && m.supply > 0 && c + from.amount > 0 {
      var d := if to == RAM then m.base else m.quote;
      Covered(n, m.supply, c, if to == from.symbol then d + from.amount else d, from.amount);
    }
  }

  lemma Covered(n: nat, r: nat, cin: nat, cout: nat, t: nat)
    requires n >= 1 && r > 0 && cin + t > 0
    ensures Redeemed(n, r, cout, Issued(n, r, cin, t)) <= cout
  {
    SwapKeepsProduct(n, r, cin, cout, t);
  }

  /** RAM sold for core tokens moves both connectors. */
  lemma RamSold(n: nat, m: Market, bytes: int)
    requires n >= 1 && Convert(n, m, Asset(bytes, RAM), CORE).Ok?
    ensures var (m', out) := Convert(n, m, Asset(bytes, RAM), CORE).value;
      && out.symbol == CORE && out.amount >= 0
      && m'.quote == m.quote - out.amount
      && m'.base == m.base + bytes
  {
    hide Issued, Redeemed;
  }

  // ---------- trading runs ----------

  datatype Trade = Buy(tokens: nat) | Sell(bytes: nat)

  /** The market after one trade; nothing changes when nothing is traded. */
  function Traded(n: nat, m: Market, d: Trade): Market
    requires n >= 1
  {
    var r := match d
      case Buy(t) => Convert(n, m, Asset(t, CORE), RAM)
      case Sell(b) => Convert(n, m, Asset(b, RAM), CORE);
    if r.Ok? then r.value.0 else m
  }

  function TradedAll(n: nat, m: Market, ds: seq<Trade>): Market
    requires n >= 1
    decreases ds
  {
    if ds == [] then m else TradedAll(n, Traded(n, m, ds[0]), ds[1..])
  }

  predicate Alive(m: Market) { m.supply > 0 && m.base > 0 && m.quote > 0 }

  /** One trade restores the supply, keeps both connectors alive and never lowers the product. */
  lemma TradeKeepsProduct(n: nat, m: Market, d: Trade)
    requires n >= 1 && Alive(m)
    ensures var m' := Traded(n, m, d);
      Alive(m') && m'.supply == m.supply && m'.base * m'.quote >= m.base * m.quote
  {
    hide Convert, SwapOut;
    match d {
      case Buy(t) =>
        if t > 0 {
          BuyIsSwap(n, m, t);
          SwapKeepsProduct(n, m.supply, m.quote, m.base, t);
          Commutes(m.base, m.quote);
          Commutes(m.quote + t, m.base - SwapOut(n, m.supply, m.quote, m.base, t));
        } else {
          NothingTraded(n, m, CORE, RAM);
        }
      case Sell(b) =>
        if b > 0 {
          SellIsSwap(n, m, b);
          SwapKeepsProduct(n, m.supply, m.base, m.quote, b);
        } else {
          NothingTraded(n, m, RAM, CORE);
        }
    }
  }

  /** So does any run of trades. */
  lemma {:induction false} TradesKeepProduct(n: nat, m: Market, ds: seq<Trade>)
    requires n >= 1 && Alive(m)
    ensures var m' := TradedAll(n, m, ds);
      Alive(m') && m'.supply == m.supply && m'.base * m'.quote >= m.base * m.quote
    decreases ds
  {
    if ds != [] {
      TradeKeepsProduct(n, m, ds[0]);
      TradesKeepProduct(n, Traded(n, m, ds[0]), ds[1..]);
    }
  }

  /** Selling nothing issues nothing and returns nothing. */
  lemma NothingTraded(n: nat, m: Market, from: Symbol, to: Symbol)
    requires n >= 1 && Alive(m)
    requires (from == RAM && to == CORE) || (from == CORE && to == RAM)
    ensures Convert(n, m, Asset(0, from), to) == Ok((m, Asset(0, to)))
  {
    hide Issued, Pow;
    IssuesNothing(n, m.supply, if from == RAM then m.base else m.quote);
    RedeemsNothing(n, m.supply, if from == RAM then m.quote else m.base);
  }

  lemma IssuesNothing(n: nat, r: nat, c: nat)
    requires n >= 1 && r > 0 && c > 0
    ensures Issued(n, r, c, 0) == 0
  {
    hide Pow;
    var i := Issued(n, r, c, 0);
    if i > 0 {
      PowStrict(r, r + i, n);
      CancelFactor(Pow(r + i, n), Pow(r, n), c);
    }
  }

  lemma RedeemsNothing(n: nat, r: nat, c: nat)
    requires r > 0
    ensures Redeemed(n, r, c, 0) == 0
  {
    hide Pow;
    assert c * (Pow(r + 0, n) - Pow(r, n)) == 0;
  }

  lemma {:induction false} PowStrict(a: nat, b: nat, n: nat)
    requires 0 < a < b && n >= 1
    ensures Pow(a, n) < Pow(b, n)
  {
    var x, y := Pow(a, n - 1), Pow(b, n - 1);
    PowMonotone(a, b, n - 1);
    MulMonotone(b, b, x, y);
    MulMonotone(a + 1, b, x, x);
    assert (a + 1) * x == a * x + x;
  }

  /** However trades interleave, whoever gives back all the RAM has paid at least what came out. */
  lemma TradersNeverGain(n: nat, m: Market, ds: seq<Trade>)
    requires n >= 1 && Alive(m)
    requires TradedAll(n, m, ds).base <= m.base
    ensures TradedAll(n, m, ds).quote >= m.quote
  {
    TradesKeepProduct(n, m, ds);
    var m' := TradedAll(n, m, ds);
    MulMonotone(m'.base, m.base, m'.quote, m'.quote);
    CancelFactorLeft(m.quote, m'.quote, m.base);
  }

}
