/** The exchange_state record: a relay whose supply and connectors change in place. */
module ExchangeRelay {
  import opened Base
  import opened Markets

  datatype Side = BaseSide | QuoteSide

  class ExchangeState {
    const n: nat  // reciprocal of weight/1000
    var supply: nat
    var base: nat
    var quote: nat

    ghost function State(): Market
      reads this
    {
      Market(supply, base, quote)
    }

    constructor (n: nat, m: Market)
      ensures State() == m && this.n == n
    {
      this.n := n;
      supply, base, quote := m.supply, m.base, m.quote;
    }

    method Restore(m: Market)
      modifies this
      ensures State() == m
    {
      supply, base, quote := m.supply, m.base, m.quote;
    }

    /** Takes `amount` into one connector and issues exchange tokens for it. */
    method ConvertToExchange(c: Side, amount: nat) returns (issued: nat)
      requires n >= 1 && supply > 0
      requires (if c == BaseSide then base else quote) + amount > 0
      modifies this
      ensures issued == Issued(n, old(supply), if c == BaseSide then old(base) else old(quote), amount)
      ensures supply == old(supply) + issued
      ensures base == old(base) + (if c == BaseSide then amount else 0)
      ensures quote == old(quote) + (if c == QuoteSide then amount else 0)
    {
      issued := Issued(n, supply, if c == BaseSide then base else quote, amount);
      supply := supply + issued;
      match c {
        case BaseSide => base := base + amount;
        case QuoteSide => quote := quote + amount;
      }
    }

    /** Burns exchange tokens and pays from one connector; fails when it cannot cover the payment. */
    method ConvertFromExchange(c: Side, amount: nat) returns (ok: bool, out: nat)
      requires n >= 1 && amount < supply
      modifies this
      ensures out == Redeemed(n, old(supply) - amount, if c == BaseSide then old(base) else old(quote), amount)
      ensures ok <==> out <= (if c == BaseSide then old(base) else old(quote))
      ensures ok ==> supply == old(supply) - amount
      ensures ok ==> base == old(base) - (if c == BaseSide then out else 0)
      ensures ok ==> quote == old(quote) - (if c == QuoteSide then out else 0)
    {
      out := Redeemed(n, supply - amount, if c == BaseSide then base else quote, amount);
      supply := supply - amount;
      match c {
        case BaseSide =>
          if out > base { return false, out; }
          base := base - out;
        case QuoteSide =>
          if out > quote { return false, out; }
          quote := quote - out;
      }
      return true, out;
    }

    /** Converts by way of the exchange token; ends after at most two legs. */
    method Convert(from: Asset, to: Symbol) returns (ok: bool, got: Asset)
      requires n >= 1
      modifies this
      ensures Delivers(ok, (State(), got), Markets.Convert(n, old(State()), from, to))
      decreases if from.symbol == RAMCORE then 0 else 1
    {
      got := from;
      if from.amount < 0 || supply == 0 {
        return false, got;
      }
      if from.symbol != RAMCORE {
        var side;
        if from.symbol == RAM {
          side := BaseSide;
        } else if from.symbol == CORE {
          side := QuoteSide;
        } else {
          return false, got;
        }
        if (if side == BaseSide then base else quote) + from.amount == 0 {
          return false, got;
        }
        var issued := ConvertToExchange(side, from.amount);
        got := Asset(issued, RAMCORE);
      } else {
        var side;
        if to == RAM {
          side := BaseSide;
        } else if to == CORE {
          side := QuoteSide;
        } else {
          return false, got;
        }
        if from.amount >= supply {
          return false, got;
        }
        var out;
        ok, out := ConvertFromExchange(side, from.amount);
        got := Asset(out, to);
        if !ok {
          return;
        }
      }
      ok := true;
      if to != got.symbol {
        ok, got := Convert(got, to);
      }
    }
  }
}
