/** The channel.sys contract: debits and credits of its cbalances rows, in place. */
module ChannelContract {
  import opened Base
  import opened Ledgers
  import opened TokenContract
  import C = Channel

  class ChannelSys {
    const token: Token
    var cbalances: C.Book

    constructor (token: Token, book: C.Book)
      ensures this.token == token && cbalances == book
    {
      this.token, cbalances := token, book;
    }

    method Restore(book: C.Book)
      modifies this
      ensures cbalances == book
    {
      cbalances := book;
    }

    method AddRow(user: Account, kind: nat, amount: int) returns (ok: bool)
      modifies this
      ensures Delivers(ok, cbalances, C.Add(old(cbalances), user, kind, amount))
    {
      if (user, kind) in cbalances {
        var sum := Plus(cbalances[(user, kind)], amount);
        if sum.Err? {
          return false;
        }
        cbalances := cbalances[(user, kind) := sum.value];
      } else {
        cbalances := cbalances[(user, kind) := amount];
      }
      return true;
    }

    method TakeRow(user: Account, kind: nat, amount: int) returns (ok: bool)
      modifies this
      ensures Delivers(ok, cbalances, C.Take(old(cbalances), user, kind, amount))
    {
      if (user, kind) !in cbalances || cbalances[(user, kind)] < amount {
        return false;
      }
      var left := Plus(cbalances[(user, kind)], -amount);
      if left.Err? {
        return false;
      }
      cbalances := cbalances[(user, kind) := left.value];
      return true;
    }

    /** The notification of a token transfer; reports whom to pass a deposit on to. */
    method TransferCore(from: Account, to: Account, q: Asset, memo: C.Memo) returns (ok: bool, pass: Option<Account>)
      modifies this
      ensures Delivers(ok, (cbalances, pass), C.TransferCore(old(cbalances), from, to, q, memo))
    {
      pass := None;
      if to != CHANNEL_SYS {
        return true, None;
      }
      if q.symbol != CORE || memo.Plain? {
        return false, None;
      }
      if memo.kind == 1 || memo.kind == 2 {
        if from != FUND_SYS {
          return false, None;
        }
        ok := AddRow(memo.user, 1, q.amount);
      } else if memo.kind == 3 {
        if from != STORE_SYS {
          return false, None;
        }
        ok := AddRow(memo.user, 1, q.amount);
      } else if memo.kind == 4 {
        if from != YTAPRO_MAP {
          return false, None;
        }
        return true, Some(memo.user);
      } else if memo.kind == 5 {
        if from != YTAPRO_MAP {
          return false, None;
        }
        ok := AddRow(memo.user, 2, q.amount);
      } else {
        return false, None;
      }
    }

    /** A transfer, its notification, and the deposit that a notification may pass on. */
    method Deliver(e: Env, from: Account, to: Account, q: Asset, memo: C.Memo) returns (ok: bool)
      modifies this, token
      ensures Delivers(ok, (token.State(), cbalances),
                       C.Deliver(old(token.State()), old(cbalances), e, from, to, q, memo))
    {
      hide Transfer, C.TransferCore;
      ok := token.Transfer(e, from, to, q);
      if !ok { return; }
      var pass;
      ok, pass := TransferCore(from, to, q, memo);
      if ok && pass.Some? {
        if e.frozen(pass.value) || e.lock(pass.value) != 0 {
          return false;
        }
        ok := token.Transfer(e, CHANNEL_SYS, pass.value, q);
      }
    }

    method Mapc(e: Env, user: Account, quant: Asset, gas: Asset) returns (ok: bool)
      modifies this, token
      ensures Delivers(ok, (token.State(), cbalances), C.Mapc(old(token.State()), old(cbalances), e, user, quant, gas))
    {
      hide Transfer, C.Take;
      if quant.symbol != CORE || gas.symbol != CORE || user == NODE_SYS || quant.amount <= 0 || gas.amount <= 0 {
        return false;
      }
      var total := Plus(quant.amount, gas.amount);
      if total.Err? {
        return false;
      }
      ok := TakeRow(user, 1, total.value);
      if !ok { return; }
      ok := token.Transfer(e, CHANNEL_SYS, YTAPRO_MAP, quant);
      if !ok { return; }
      ok := token.Transfer(e, CHANNEL_SYS, YTAPRO_MAP, gas);
    }

    method Feetoc(user: Account, quant: Asset) returns (ok: bool)
      modifies this
      ensures Delivers(ok, cbalances, C.Feetoc(old(cbalances), user, quant))
    {
      if quant.symbol != CORE || quant.amount <= 0 {
        return false;
      }
      ok := TakeRow(user, 2, quant.amount);
      if ok {
        ok := AddRow(user, 1, quant.amount);
      }
    }

    method Subfee(user: Account, quant: Asset) returns (ok: bool)
      modifies this
      ensures Delivers(ok, cbalances, C.Subfee(old(cbalances), user, quant))
    {
      if quant.amount < 0 || quant.symbol != CORE {
        return false;
      }
      ok := TakeRow(user, 2, quant.amount);
      if ok {
        ok := AddRow(GAS_SYS, 1, quant.amount);
      }
    }

    method Splitgas(e: Env) returns (ok: bool)
      modifies this
      ensures Delivers(ok, cbalances, C.Splitgas(old(cbalances), e))
    {
      if e.ytaPrice + e.usdPrice == 0 {
        return false;
      }
      var rate := C.SplitRate(e.ytaPrice, e.usdPrice);
      if (GAS_SYS, 1) !in cbalances {
        return false;
      }
      var amount := cbalances[(GAS_SYS, 1)];
      if amount <= 0 {
        return true;
      }
      cbalances := cbalances[(GAS_SYS, 1) := 0];
      var amountNode := TruncDiv(Wrap64(amount * rate), 100);
      if amountNode > amount {
        return false;
      }
      var amountNull := amount - amountNode;
      if !InRange(amountNode) || !InRange(amountNull) {
        return false;
      }
      ok := AddRow(NODE_SYS, 1, amountNode);
      if ok {
        ok := AddRow(NULL_SYS, 1, amountNull);
      }
    }

    method Rewardnode(user: Account, quant: Asset) returns (ok: bool)
      modifies this
      ensures Delivers(ok, cbalances, C.Rewardnode(old(cbalances), user, quant))
    {
      if quant.amount <= 0 || quant.symbol != CORE {
        return false;
      }
      ok := TakeRow(NODE_SYS, 1, quant.amount);
      if ok {
        ok := AddRow(user, 1, quant.amount);
      }
    }
  }
}
