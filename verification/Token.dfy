/** The eosio.token contract: tables changed in place, one balance row at a time. */
module TokenContract {
  import opened Base
  import opened Ledgers

  class Token {
    var stats: map<nat, Stat>
    var accounts: map<(Account, nat), Asset>

    ghost function State(): Ledger
      reads this
    {
      Ledger(stats, accounts)
    }

    constructor ()
      ensures State() == Ledger(map[], map[])
    {
      stats, accounts := map[], map[];
    }

    /** Undo everything since `l` was the state. */
    method Restore(l: Ledger)
      modifies this
      ensures State() == l
    {
      stats, accounts := l.stats, l.accounts;
    }

    method Create(issuer: Account, max: Asset) returns (ok: bool)
      modifies this
      ensures Delivers(ok, State(), Ledgers.Create(old(State()), issuer, max))
    {
      var sym := max.symbol;
      if !ValidSymbol(sym) || !ValidAsset(max) || max.amount <= 0 || sym.code in stats {
        return false;
      }
      stats := stats[sym.code := Stat(0, max.amount, sym, issuer)];
      return true;
    }

    method Issue(e: Env, auth: Account, to: Account, q: Asset) returns (ok: bool)
      modifies this
      ensures Delivers(ok, State(), Ledgers.Issue(old(State()), e, auth, to, q))
    {
      hide Credit, Ledgers.Transfer;
      var code := q.symbol.code;
      if !ValidSymbol(q.symbol) || code !in stats {
        return false;
      }
      var st := stats[code];
      if auth != st.issuer || !ValidAsset(q) || q.amount <= 0 || q.symbol != st.symbol
        || q.amount > st.max - st.supply {
        return false;
      }
      if !InRange(st.supply + q.amount) {
        return false;
      }
      stats := stats[code := st.(supply := st.supply + q.amount)];
      ok := AddBalance(st.issuer, q);
      if ok && to != st.issuer {
        ok := Transfer(e, st.issuer, to, q);
      }
    }

    method Retire(auth: Account, q: Asset) returns (ok: bool)
      modifies this
      ensures Delivers(ok, State(), Ledgers.Retire(old(State()), auth, q))
    {
      var code := q.symbol.code;
      if !ValidSymbol(q.symbol) || code !in stats {
        return false;
      }
      var st := stats[code];
      if auth != st.issuer || !ValidAsset(q) || q.amount <= 0 || q.symbol != st.symbol {
        return false;
      }
      if !InRange(st.supply - q.amount) {
        return false;
      }
      stats := stats[code := st.(supply := st.supply - q.amount)];
      ok := SubBalance(st.issuer, q);
    }

    method Transfer(e: Env, from: Account, to: Account, q: Asset) returns (ok: bool)
      modifies this
      ensures Delivers(ok, State(), Ledgers.Transfer(old(State()), e, from, to, q))
    {
      if from == to || !e.isAccount(to) || q.symbol.code !in stats {
        return false;
      }
      var st := stats[q.symbol.code];
      if !ValidAsset(q) || q.amount <= 0 || q.symbol != st.symbol {
        return false;
      }
      if q.symbol != CORE || from == HDDBASEFOUND || from == FUND_SYS {
        ok := SubBalance(from, q);
      } else if to == YOTTAFORFEIT || to == FORFEIT_SYS {
        ok := SubBalance(from, q);
      } else {
        ok := SubBalanceYta(e, from, q, to);
      }
      if ok {
        ok := AddBalance(to, q);
      }
    }

    method SubBalance(owner: Account, v: Asset) returns (ok: bool)
      modifies this
      ensures Delivers(ok, State(), Debit(old(State()), owner, v))
    {
      var k := (owner, v.symbol.code);
      if k !in accounts || accounts[k].amount < v.amount {
        return false;
      }
      if accounts[k].amount == v.amount {
        accounts := accounts - {k};
      } else {
        if accounts[k].symbol != v.symbol {
          return false;
        }
        accounts := accounts[k := Asset(accounts[k].amount - v.amount, v.symbol)];
      }
      return true;
    }

    method SubBalanceYta(e: Env, owner: Account, v: Asset, to: Account) returns (ok: bool)
      modifies this
      ensures Delivers(ok, State(), DebitUnreserved(old(State()), e, owner, v, to))
    {
      var k := (owner, v.symbol.code);
      if k !in accounts || e.frozen(owner) || v.symbol != CORE {
        return false;
      }
      if to == EOSIO_STAKE {
        if accounts[k].amount - e.deposit(owner) < v.amount {
          return false;
        }
      } else {
        var frozenAsset := e.deposit(owner);
        frozenAsset := frozenAsset + e.lock(owner);
        if accounts[k].amount - frozenAsset < v.amount {
          return false;
        }
      }
      if accounts[k].amount == v.amount {
        accounts := accounts - {k};
      } else {
        if accounts[k].symbol != v.symbol {
          return false;
        }
        accounts := accounts[k := Asset(accounts[k].amount - v.amount, v.symbol)];
      }
      return true;
    }

    method AddBalance(owner: Account, v: Asset) returns (ok: bool)
      modifies this
      ensures Delivers(ok, State(), Credit(old(State()), owner, v))
    {
      var k := (owner, v.symbol.code);
      if k !in accounts {
        accounts := accounts[k := v];
      } else {
        if accounts[k].symbol != v.symbol || !InRange(accounts[k].amount + v.amount) {
          return false;
        }
        accounts := accounts[k := Asset(accounts[k].amount + v.amount, v.symbol)];
      }
      return true;
    }
  }
}
