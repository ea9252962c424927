/** The tables of eosio.token as values: what each action does to them, and what every action keeps. */
module Ledgers {
  import opened Base
  import opened MapSums

  datatype Stat = Stat(supply: int, max: int, symbol: Symbol, issuer: Account)

  /** `stats` is keyed by symbol code; `accounts` holds one row per owner and symbol code. */
  datatype Ledger = Ledger(stats: map<nat, Stat>, accounts: map<(Account, nat), Asset>)

  function Balance(l: Ledger, a: Account, code: nat): int {
    if (a, code) in l.accounts then l.accounts[(a, code)].amount else 0
  }

  /** The liquid balance in the core token. */
  function Core(l: Ledger, a: Account): int { Balance(l, a, CORE.code) }

  function CoreSupply(l: Ledger): int { if CORE.code in l.stats then l.stats[CORE.code].supply else 0 }

  function CoreCap(l: Ledger): int { if CORE.code in l.stats then l.stats[CORE.code].max else 0 }

  ghost function HeldIn(code: nat): ((Account, nat), Asset) -> int {
    (k: (Account, nat), v: Asset) => if k.1 == code then v.amount else 0
  }

  ghost function TotalHeld(l: Ledger, code: nat): int { SumBy(l.accounts, HeldIn(code)) }

  // ---------- balance rows ----------

  /** The row holds enough; the symbols are compared only when something is left. */
  predicate Covers(l: Ledger, owner: Account, v: Asset) {
    var k := (owner, v.symbol.code);
    && k in l.accounts
    && l.accounts[k].amount >= v.amount
    && (l.accounts[k].amount > v.amount ==> l.accounts[k].symbol == v.symbol)
  }

  /** `sub_balance`: the row is erased when it is used up. */
  function Debit(l: Ledger, owner: Account, v: Asset): Result<Ledger>
  {
    var k := (owner, v.symbol.code);
    if !Covers(l, owner, v) then Err
    else
      var left := l.accounts[k].amount - v.amount;
      Ok(l.(accounts := if left == 0 then l.accounts - {k} else l.accounts[k := Asset(left, v.symbol)]))
  }

  /** What an account may not send away: its storage deposit, and its lock unless it stakes. */
  function Reserved(e: Env, owner: Account, to: Account): nat {
    if to == EOSIO_STAKE then e.deposit(owner) else e.deposit(owner) + e.lock(owner)
  }

  function DebitUnreserved(l: Ledger, e: Env, owner: Account, value: Asset, to: Account): Result<Ledger>
  {
    var k := (owner, value.symbol.code);
    if e.frozen(owner) || k !in l.accounts || value.symbol != CORE then Err
    else if l.accounts[k].amount - Reserved(e, owner, to) < value.amount then Err
    else Debit(l, owner, value)
  }

  /** A row to add to, if there is one, has the same symbol and room below the asset range. */
  predicate Takes(l: Ledger, owner: Account, v: Asset) {
    var k := (owner, v.symbol.code);
    k in l.accounts ==> l.accounts[k].symbol == v.symbol && InRange(l.accounts[k].amount + v.amount)
  }

  /** `add_balance`: the row is created when there is none. */
  function Credit(l: Ledger, owner: Account, v: Asset): Result<Ledger>
  {
    var k := (owner, v.symbol.code);
    if !Takes(l, owner, v) then Err
    else Ok(l.(accounts := l.accounts[k := Asset(Balance(l, owner, v.symbol.code) + v.amount, v.symbol)]))
  }

  // ---------- actions ----------

  function Create(l: Ledger, issuer: Account, max: Asset): Result<Ledger>
  {
    if !ValidAsset(max) || max.amount <= 0 || max.symbol.code in l.stats then Err
    else Ok(l.(stats := l.stats[max.symbol.code := Stat(0, max.amount, max.symbol, issuer)]))
  }

  /** An amount an action may move: of an existing currency, positive and within range. */
  predicate Movable(l: Ledger, q: Asset) {
    && ValidAsset(q)
    && q.amount > 0
    && q.symbol.code in l.stats
    && q.symbol == l.stats[q.symbol.code].symbol
  }

  /** Senders and receivers for which the deposit and lock tables are not consulted. */
  predicate Exempt(from: Account, to: Account, q: Asset) {
    q.symbol != CORE || from == HDDBASEFOUND || from == FUND_SYS || to == YOTTAFORFEIT || to == FORFEIT_SYS
  }

  function Transfer(l: Ledger, e: Env, from: Account, to: Account, q: Asset): Result<Ledger>
  {
    if from == to || !e.isAccount(to) || !Movable(l, q) then Err
    else
      var paid :- if Exempt(from, to, q) then Debit(l, from, q) else DebitUnreserved(l, e, from, q, to);
      Credit(paid, to, q)
  }

  function WithSupply(l: Ledger, code: nat, supply: int): Ledger
    requires code in l.stats
  {
    l.(stats := l.stats[code := l.stats[code].(supply := supply)])
  }

  /** `issue` credits the issuer; passing the tokens on is a transfer of its own. */
  function IssueToIssuer(l: Ledger, auth: Account, q: Asset): Result<Ledger>
  {
    if !Movable(l, q) then Err
    else
      var st := l.stats[q.symbol.code];
      if auth != st.issuer || q.amount > st.max - st.supply || !InRange(st.supply + q.amount) then Err
      else Credit(WithSupply(l, q.symbol.code, st.supply + q.amount), auth, q)
  }

  function Issue(l: Ledger, e: Env, auth: Account, to: Account, q: Asset): Result<Ledger>
  {
    var issued :- IssueToIssuer(l, auth, q);
    if to == auth then Ok(issued) else Transfer(issued, e, auth, to, q)
  }

  function Retire(l: Ledger, auth: Account, q: Asset): Result<Ledger>
  {
    if !Movable(l, q) then Err
    else
      var st := l.stats[q.symbol.code];
      if auth != st.issuer || !InRange(st.supply - q.amount) then Err
      else Debit(WithSupply(l, q.symbol.code, st.supply - q.amount), auth, q)
  }

  // ---------- what every action keeps ----------

  /** Every stored balance is positive and carries its currency's symbol. */
  ghost predicate RowsSound(l: Ledger) {
    forall k :: k in l.accounts ==>
      && k.1 in l.stats
      && l.accounts[k].symbol == l.stats[k.1].symbol
      && l.accounts[k].amount > 0
  }

  /** Every currency is stored under its own code with a supply within its cap. */
  ghost predicate StatsSound(l: Ledger) {
    forall c :: c in l.stats ==>
      && l.stats[c].symbol.code == c
      && 0 <= l.stats[c].supply <= l.stats[c].max <= MAX_AMOUNT
  }

  /** The supply of every currency is exactly what its holders have. */
  ghost predicate SupplySound(l: Ledger) {
    forall c {:trigger TotalHeld(l, c)} :: c in l.stats ==> TotalHeld(l, c) == l.stats[c].supply
  }

  ghost predicate Sound(l: Ledger) { RowsSound(l) && StatsSound(l) && SupplySound(l) }

  /** No balance exceeds the supply, so none can leave the asset range. */
  lemma BalanceBounds(l: Ledger, a: Account, code: nat)
    requires Sound(l)
    ensures 0 <= Balance(l, a, code) <= MAX_AMOUNT
    ensures code in l.stats ==> Balance(l, a, code) <= l.stats[code].supply
    ensures code !in l.stats ==> Balance(l, a, code) == 0
  {
    SumBounds(l.accounts, HeldIn(code), (a, code));
    assert code in l.stats ==> TotalHeld(l, code) == l.stats[code].supply;
  }

  /** Any two holders together have no more than the supply. */
  lemma PairBounds(l: Ledger, a: Account, b: Account, code: nat)
    requires Sound(l) && code in l.stats && a != b
    ensures Balance(l, a, code) + Balance(l, b, code) <= l.stats[code].supply
  {
    var rest := l.accounts - {(a, code)};
    SumChange(l.accounts, rest, HeldIn(code), (a, code));
    SumBounds(rest, HeldIn(code), (b, code));
    assert TotalHeld(l, code) == l.stats[code].supply;
  }

  /** Nobody's balance differs between `l` and `l'` except by `q` leaving `from` and reaching `to`. */
  ghost predicate Moves(l: Ledger, l': Ledger, from: Account, to: Account, q: Asset) {
    forall a, c :: Balance(l', a, c) ==
      Balance(l, a, c)
      + (if c == q.symbol.code && a == to then q.amount else 0)
      - (if c == q.symbol.code && a == from then q.amount else 0)
  }

  /** One row replaced or erased: every other balance stands. */
  lemma RowChange(l: Ledger, l': Ledger, a: Account, code: nat)
    requires l.accounts - {(a, code)} == l'.accounts - {(a, code)}
    ensures forall b: Account, c :: b != a || c != code ==> Balance(l', b, c) == Balance(l, b, c)
  {
    forall b: Account, c | b != a || c != code ensures Balance(l', b, c) == Balance(l, b, c) {
      assert (b, c) in l.accounts <==> (b, c) in (l.accounts - {(a, code)});
      assert (b, c) in l'.accounts <==> (b, c) in (l'.accounts - {(a, code)});
      if (b, c) in l.accounts {
        assert (l.accounts - {(a, code)})[(b, c)] == (l'.accounts - {(a, code)})[(b, c)];
      }
    }
  }

  /** One row replaced or erased: the holdings of its currency move with it, the others stand. */
  lemma HeldChange(l: Ledger, l': Ledger, a: Account, code: nat, c: nat)
    requires l.accounts - {(a, code)} == l'.accounts - {(a, code)}
    ensures TotalHeld(l', c) ==
      TotalHeld(l, c) + (if c == code then Balance(l', a, c) - Balance(l, a, c) else 0)
  {
    SumChange(l.accounts, l'.accounts, HeldIn(c), (a, code));
  }

  /** A debit that succeeds takes exactly `v` from one row. */
  lemma DebitEffect(l: Ledger, owner: Account, v: Asset)
    requires RowsSound(l) && Movable(l, v)
    requires Debit(l, owner, v).Ok?
    ensures var l' := Debit(l, owner, v).value;
      && l'.stats == l.stats
      && RowsSound(l')
      && l'.accounts - {(owner, v.symbol.code)} == l.accounts - {(owner, v.symbol.code)}
      && Balance(l', owner, v.symbol.code) == Balance(l, owner, v.symbol.code) - v.amount >= 0
  {
  }

  lemma DebitSucceeds(l: Ledger, owner: Account, v: Asset)
    requires RowsSound(l) && Movable(l, v) && Balance(l, owner, v.symbol.code) >= v.amount
    ensures Debit(l, owner, v).Ok?
  {
  }

  /** A credit below the supply never overflows and adds exactly `v` to one row. */
  lemma CreditEffect(l: Ledger, owner: Account, v: Asset)
    requires RowsSound(l) && Movable(l, v)
    requires 0 <= Balance(l, owner, v.symbol.code) <= MAX_AMOUNT - v.amount
    ensures Credit(l, owner, v).Ok?
    ensures var l' := Credit(l, owner, v).value;
      && l'.stats == l.stats
      && RowsSound(l')
      && l'.accounts - {(owner, v.symbol.code)} == l.accounts - {(owner, v.symbol.code)}
      && Balance(l', owner, v.symbol.code) == Balance(l, owner, v.symbol.code) + v.amount
  {
  }

  /** A positive amount of a currency that exists, in its own precision. */
  predicate Spendable(l: Ledger, q: Asset) {
    && 0 < q.amount <= MAX_AMOUNT
    && ValidSymbol(q.symbol)
    && q.symbol.code in l.stats && l.stats[q.symbol.code].symbol == q.symbol
  }

  /**
   * The whole of what a sender must satisfy: no clause about overflow remains. Core tokens of an ordinary
   * account must leave its deposit behind, and unless they are staked its lock; forfeits need not.
   */
  predicate MayTransfer(l: Ledger, e: Env, from: Account, to: Account, q: Asset) {
    && from != to
    && e.isAccount(to)
    && Spendable(l, q)
    && Balance(l, from, q.symbol.code) >= q.amount
    && (q.symbol == CORE && from !in {HDDBASEFOUND, FUND_SYS} && to !in {YOTTAFORFEIT, FORFEIT_SYS} ==>
          && !e.frozen(from)
          && Core(l, from) >= q.amount + e.deposit(from) + (if to == EOSIO_STAKE then 0 else e.lock(from)))
  }

  /** Crediting what was just debited conserves every currency. */
  lemma DebitThenCredit(l: Ledger, from: Account, to: Account, q: Asset)
    requires Sound(l) && Movable(l, q) && from != to
    requires Debit(l, from, q).Ok?
    ensures var paid := Debit(l, from, q).value;
      Credit(paid, to, q).Ok? &&
      var l' := Credit(paid, to, q).value;
      Sound(l') && l'.stats == l.stats && Moves(l, l', from, to, q)
  {
    var code := q.symbol.code;
    var paid := Debit(l, from, q).value;
    BalanceBounds(l, to, code);
    PairBounds(l, from, to, code);
    DebitEffect(l, from, q);
    RowChange(l, paid, from, code);
    CreditEffect(paid, to, q);
    var l' := Credit(paid, to, q).value;
    RowChange(paid, l', to, code);
    forall c | c in l'.stats ensures TotalHeld(l', c) == TotalHeld(l, c) {
      HeldChange(l, paid, from, code, c);
      HeldChange(paid, l', to, code, c);
    }
  }

  /** A transfer succeeds exactly when the sender may make it, and conserves every currency. */
  lemma TransferEffect(l: Ledger, e: Env, from: Account, to: Account, q: Asset)
    requires Sound(l)
    ensures Transfer(l, e, from, to, q).Ok? <==> MayTransfer(l, e, from, to, q)
    ensures Transfer(l, e, from, to, q).Ok? ==>
      var l' := Transfer(l, e, from, to, q).value;
      Sound(l') && l'.stats == l.stats && Moves(l, l', from, to, q)
  {
    if from != to && e.isAccount(to) && Movable(l, q) {
      BalanceBounds(l, from, q.symbol.code);
      if Debit(l, from, q).Ok? {
        DebitThenCredit(l, from, to, q);
      }
    }
  }

  /** The core token exists, with its proper precision. */
  predicate CoreToken(l: Ledger) { CORE.code in l.stats && l.stats[CORE.code].symbol == CORE }

  /** An account either gained core tokens or still has all that is deposited and locked. */
  ghost predicate KeepsLock(l: Ledger, l': Ledger, e: Env, a: Account) {
    Core(l', a) >= Core(l, a) || Core(l', a) >= e.deposit(a) + e.lock(a)
  }

  /** Any transfer that is neither exempt nor a stake leaves the deposit and the lock with the sender. */
  lemma TransferKeepsLock(l: Ledger, e: Env, from: Account, to: Account, q: Asset, a: Account)
    requires Sound(l) && CoreToken(l) && Transfer(l, e, from, to, q).Ok?
    requires a == from && q.symbol == CORE ==> to != EOSIO_STAKE && !Exempt(from, to, q)
    ensures KeepsLock(l, Transfer(l, e, from, to, q).value, e, a)
  {
    TransferEffect(l, e, from, to, q);
  }

  /** One holder gains or loses `delta` and the supply moves by as much. */
  lemma Rebalanced(l: Ledger, l': Ledger, a: Account, code: nat, delta: int)
    requires Sound(l) && code in l.stats && RowsSound(l')
    requires 0 <= l.stats[code].supply + delta <= l.stats[code].max
    requires l'.stats == WithSupply(l, code, l.stats[code].supply + delta).stats
    requires l'.accounts - {(a, code)} == l.accounts - {(a, code)}
    requires Balance(l', a, code) == Balance(l, a, code) + delta
    ensures Sound(l')
    ensures forall b, c :: Balance(l', b, c) == Balance(l, b, c) + (if c == code && b == a then delta else 0)
  {
    RowChange(l, l', a, code);
    forall c | c in l'.stats ensures TotalHeld(l', c) == l'.stats[c].supply {
      HeldChange(l, l', a, code, c);
    }
  }

  predicate MayIssue(l: Ledger, auth: Account, q: Asset) {
    && Spendable(l, q)
    && auth == l.stats[q.symbol.code].issuer
    && l.stats[q.symbol.code].supply + q.amount <= l.stats[q.symbol.code].max
  }

  predicate MayRetire(l: Ledger, auth: Account, q: Asset) {
    && Spendable(l, q)
    && auth == l.stats[q.symbol.code].issuer
    && Balance(l, auth, q.symbol.code) >= q.amount
  }

  /** `l'` is `l` after `delta` of one currency is created in, or destroyed from, the hands of `a`. */
  ghost predicate Mints(l: Ledger, l': Ledger, a: Account, code: nat, delta: int) {
    && code in l.stats
    && l'.stats == WithSupply(l, code, l.stats[code].supply + delta).stats
    && forall b, c :: Balance(l', b, c) == Balance(l, b, c) + (if c == code && b == a then delta else 0)
  }

  /** Changing a recorded supply touches no balance row. */
  lemma SupplyAside(l: Ledger, code: nat, supply: int, q: Asset)
    requires RowsSound(l) && code in l.stats
    ensures var l' := WithSupply(l, code, supply);
      RowsSound(l') && (Movable(l, q) ==> Movable(l', q))
  {
  }

  /** Issuing succeeds exactly within the cap, and raises supply and issuer's balance together. */
  lemma IssueEffect(l: Ledger, auth: Account, q: Asset)
    requires Sound(l)
    ensures IssueToIssuer(l, auth, q).Ok? <==> MayIssue(l, auth, q)
    ensures MayIssue(l, auth, q) ==> Sound(IssueToIssuer(l, auth, q).value)
    ensures MayIssue(l, auth, q) ==>
      Mints(l, IssueToIssuer(l, auth, q).value, auth, q.symbol.code, q.amount)
  {
    hide SumBy, Credit, Letters;
    if MayIssue(l, auth, q) {
      IssueGoesThrough(l, auth, q);
    }
  }

  lemma IssueGoesThrough(l: Ledger, auth: Account, q: Asset)
    requires Sound(l) && MayIssue(l, auth, q)
    ensures var issued := Credit(WithSupply(l, q.symbol.code, l.stats[q.symbol.code].supply + q.amount), auth, q);
      issued.Ok? && Sound(issued.value) && Mints(l, issued.value, auth, q.symbol.code, q.amount)
  {
    hide SumBy, Credit;
    var code := q.symbol.code;
    BalanceBounds(l, auth, code);
    var raised := WithSupply(l, code, l.stats[code].supply + q.amount);
    SupplyAside(l, code, l.stats[code].supply + q.amount, q);
    assert Balance(raised, auth, code) == Balance(l, auth, code);
    CreditEffect(raised, auth, q);
    Rebalanced(l, Credit(raised, auth, q).value, auth, code, q.amount);
  }

  /** Retiring succeeds exactly when covered, and lowers both together. */
  lemma RetireEffect(l: Ledger, auth: Account, q: Asset)
    requires Sound(l)
    ensures Retire(l, auth, q).Ok? <==> MayRetire(l, auth, q)
    ensures MayRetire(l, auth, q) ==> Sound(Retire(l, auth, q).value)
    ensures MayRetire(l, auth, q) ==>
      Mints(l, Retire(l, auth, q).value, auth, q.symbol.code, -q.amount)
  {
    hide SumBy;
    if MayRetire(l, auth, q) {
      RetireGoesThrough(l, auth, q);
    }
  }

  lemma RetireGoesThrough(l: Ledger, auth: Account, q: Asset)
    requires Sound(l) && MayRetire(l, auth, q)
    ensures var retired := Debit(WithSupply(l, q.symbol.code, l.stats[q.symbol.code].supply - q.amount), auth, q);
      retired.Ok? && Sound(retired.value) && Mints(l, retired.value, auth, q.symbol.code, -q.amount)
  {
    hide SumBy, Debit;
    var code := q.symbol.code;
    BalanceBounds(l, auth, code);
    var lowered := WithSupply(l, code, l.stats[code].supply - q.amount);
    SupplyAside(l, code, l.stats[code].supply - q.amount, q);
    DebitSucceeds(lowered, auth, q);
    DebitEffect(lowered, auth, q);
    Rebalanced(l, Debit(lowered, auth, q).value, auth, code, -q.amount);
  }

  /** A currency of a new code starts with nothing issued, under its issuer and cap, and disturbs no other. */
  lemma CreateEffect(l: Ledger, issuer: Account, max: Asset)
    requires Sound(l)
    ensures Create(l, issuer, max).Ok? <==>
      0 < max.amount <= MAX_AMOUNT && ValidSymbol(max.symbol) && max.symbol.code !in l.stats
    ensures Create(l, issuer, max).Ok? ==>
      var l' := Create(l, issuer, max).value;
      && Sound(l')
      && l'.accounts == l.accounts
      && l'.stats.Keys == l.stats.Keys + {max.symbol.code}
      && (forall c :: c in l.stats ==> l'.stats[c] == l.stats[c])
      && var st := l'.stats[max.symbol.code];
         st.supply == 0 && st.max == max.amount && st.symbol == max.symbol && st.issuer == issuer
  {
    if Create(l, issuer, max).Ok? {
      var l' := Create(l, issuer, max).value;
      NothingHeld(l.accounts, max.symbol.code);
      assert forall c :: TotalHeld(l', c) == TotalHeld(l, c);
    }
  }

  lemma {:induction false} NothingHeld(m: map<(Account, nat), Asset>, code: nat)
    requires forall k :: k in m ==> k.1 != code
    ensures SumBy(m, HeldIn(code)) == 0
    decreases |m|
  {
    if m != map[] {
      var j :| j in m && SumBy(m, HeldIn(code)) == HeldIn(code)(j, m[j]) + SumBy(m - {j}, HeldIn(code));
      NothingHeld(m - {j}, code);
    }
  }
}
