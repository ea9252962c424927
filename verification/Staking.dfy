/** Staking for bandwidth and the delayed refunds: delegatebw, undelegatebw, changebw and refund. */
module Staking {
  import opened Base
  import opened MapSums
  import opened Ledgers
  import opened Ram

  const REFUND_DELAY: nat := 259_200  // three days, in seconds

  datatype Stake = Stake(net: int, cpu: int)

  datatype RefundRequest = RefundRequest(time: nat, net: int, cpu: int)

  type Delband = map<(Account, Account), Stake>
  type Refunds = map<Account, RefundRequest>
  type Voters = map<Account, int>

  /** Who staked how much for whom, what waits to be paid back, and everyone's voting stake. */
  datatype StakeState = StakeState(delband: Delband, refunds: Refunds, voters: Voters)

  function StakeAt(d: Delband, from: Account, to: Account): Stake {
    if (from, to) in d then d[(from, to)] else Stake(0, 0)
  }

  function ResourcesAt(u: UserRes, a: Account): Resources {
    if a in u then u[a] else Resources(0, 0, 0)
  }

  /** What is waiting to be refunded to `a`. */
  function Owed(q: Refunds, a: Account): int {
    if a in q then q[a].net + q[a].cpu else 0
  }

  function Voted(v: Voters, a: Account): int { if a in v then v[a] else 0 }

  // ---------- the four tables changebw touches ----------

  function Restake(d: Delband, owner: Account, receiver: Account, dn: int, dc: int): Result<Delband> {
    var row := StakeAt(d, owner, receiver);
    var net :- Plus(row.net, dn);
    var cpu :- Plus(row.cpu, dc);
    if net < 0 || cpu < 0 then Err
    else if net == 0 && cpu == 0 then Ok(d - {(owner, receiver)})
    else Ok(d[(owner, receiver) := Stake(net, cpu)])
  }

  function Retotal(u: UserRes, receiver: Account, dn: int, dc: int): Result<UserRes> {
    var row := ResourcesAt(u, receiver);
    var net :- Plus(row.net, dn);
    var cpu :- Plus(row.cpu, dc);
    if net < 0 || cpu < 0 then Err
    else if net == 0 && cpu == 0 && row.ram == 0 then Ok(u - {receiver})
    else Ok(u[receiver := Resources(net, cpu, row.ram)])
  }

  /** The voting stake is a bare 64-bit counter; only its sign is checked. */
  function Revote(v: Voters, owner: Account, total: int): Result<Voters> {
    var staked := Wrap64(Voted(v, owner) + total);
    if staked < 0 then Err else Ok(v[owner := staked])
  }

  /**
   * Sets a change of stake off against the owner's pending refund, net and cpu separately. Returns the
   * new refunds and what remains to be paid in.
   */
  function Settle(q: Refunds, now: nat, owner: Account, toSelf: bool, dn: int, dc: int): Result<(Refunds, int)> {
    if !toSelf && dn + dc >= 0 then
      var pay :- Plus(dn, dc);
      Ok((q, pay))
    else if owner in q then
      var net :- Plus(q[owner].net, -dn);
      var cpu :- Plus(q[owner].cpu, -dc);
      var pay :- Plus(Max(-net, 0), Max(-cpu, 0));
      var time := if dn < 0 || dc < 0 then now else q[owner].time;
      if net <= 0 && cpu <= 0 then Ok((q - {owner}, pay))
      else Ok((q[owner := RefundRequest(time, Max(net, 0), Max(cpu, 0))], pay))
    else
      var pay :- Plus(Max(dn, 0), Max(dc, 0));
      if dn < 0 || dc < 0 then Ok((q[owner := RefundRequest(now, Max(-dn, 0), Max(-dc, 0))], pay))
      else Ok((q, pay))
  }

  // ---------- actions ----------

  /** With the transfer flag the stake belongs to the receiver. */
  function Owner(from: Account, receiver: Account, transfer: bool): Account {
    if transfer then receiver else from
  }

  predicate SignsAgree(dn: int, dc: int) {
    Plus(dn, dc).Ok? && Abs(Plus(dn, dc).value) >= Max(Abs(dn), Abs(dc)) && (dn != 0 || dc != 0)
  }

  function ChangeBw(l: Ledger, s: StakeState, u: UserRes, e: Env, from: Account, receiver: Account,
                    dn: int, dc: int, transfer: bool): Result<(Ledger, StakeState, UserRes)>
  {
    if !SignsAgree(dn, dc) || IsYtaAccount(receiver) then Err
    else
      var owner := Owner(from, receiver, transfer);
      var d :- Restake(s.delband, owner, receiver, dn, dc);
      var u' :- Retotal(u, receiver, dn, dc);
      var (q, l') :- SettleAndPay(l, s.refunds, e, from, owner, receiver, dn, dc, transfer);
      var v :- Revote(s.voters, owner, dn + dc);
      Ok((l', StakeState(d, q, v), u'))
  }

  /** Stake changes of eosio.stake itself move no tokens. */
  function SettleAndPay(l: Ledger, q: Refunds, e: Env, from: Account, owner: Account, receiver: Account,
                        dn: int, dc: int, transfer: bool): Result<(Refunds, Ledger)>
  {
    if from == EOSIO_STAKE then Ok((q, l))
    else
      var (q', pay) :- Settle(q, e.now, owner, !transfer && owner == receiver, dn, dc);
      if pay <= 0 then Ok((q', l))
      else
        var l' :- Transfer(l, e, from, EOSIO_STAKE, Asset(pay, CORE));
        Ok((q', l'))
  }

  function DelegateBw(l: Ledger, s: StakeState, u: UserRes, e: Env, from: Account, receiver: Account,
                      net: Int64, cpu: Int64, transfer: bool): Result<(Ledger, StakeState, UserRes)>
  {
    var total :- Plus(net, cpu);
    if cpu < 0 || net < 0 || total <= 0 || (transfer && from == receiver) then Err
    else if transfer && !MayGiveAway(l, e, from, total) then Err
    else ChangeBw(l, s, u, e, from, receiver, net, cpu, transfer)
  }

  /** A stake given away must be covered by unlocked tokens, as an ordinary transfer would be. */
  predicate MayGiveAway(l: Ledger, e: Env, from: Account, total: int) {
    var k := (from, CORE.code);
    k in l.accounts && l.accounts[k].symbol == CORE &&
    l.accounts[k].amount - (e.deposit(from) + e.lock(from)) >= total
  }

  function UndelegateBw(l: Ledger, s: StakeState, u: UserRes, e: Env, from: Account, receiver: Account,
                        net: Int64, cpu: Int64): Result<(Ledger, StakeState, UserRes)>
  {
    var total :- Plus(cpu, net);
    if cpu < 0 || net < 0 || total <= 0 then Err
    else ChangeBw(l, s, u, e, from, receiver, -net, -cpu, false)
  }

  /** Request time plus delay is a 32-bit sum. */
  predicate Due(q: RefundRequest, now: nat) { (q.time + REFUND_DELAY) % U32 <= now }

  function Refund(l: Ledger, s: StakeState, e: Env, owner: Account): Result<(Ledger, StakeState)> {
    if owner !in s.refunds || !Due(s.refunds[owner], e.now) then Err
    else
      var total :- Plus(s.refunds[owner].net, s.refunds[owner].cpu);
      var l' :- Send(l, e, EOSIO_STAKE, owner, Asset(total, CORE));
      Ok((l', s.(refunds := s.refunds - {owner})))
  }

  // ---------- the tables agree ----------

  ghost function NetFor(r: Account): ((Account, Account), Stake) -> int {
    (k: (Account, Account), v: Stake) => if k.1 == r then v.net else 0
  }

  ghost function CpuFor(r: Account): ((Account, Account), Stake) -> int {
    (k: (Account, Account), v: Stake) => if k.1 == r then v.cpu else 0
  }

  ghost function OwnedBy(f: Account): ((Account, Account), Stake) -> int {
    (k: (Account, Account), v: Stake) => if k.0 == f then v.net + v.cpu else 0
  }

  ghost function EachStake(): ((Account, Account), Stake) -> int {
    (k: (Account, Account), v: Stake) => v.net + v.cpu
  }

  ghost function EachRefund(): (Account, RefundRequest) -> int {
    (a: Account, v: RefundRequest) => v.net + v.cpu
  }

  /** Net and cpu staked for `r`, and all that `f` owns. */
  ghost function NetTo(d: Delband, r: Account): int { SumBy(d, NetFor(r)) }
  ghost function CpuTo(d: Delband, r: Account): int { SumBy(d, CpuFor(r)) }
  ghost function StakedBy(d: Delband, f: Account): int { SumBy(d, OwnedBy(f)) }
  ghost function TotalStaked(d: Delband): int { SumBy(d, EachStake()) }
  ghost function TotalOwed(q: Refunds): int { SumBy(q, EachRefund()) }

  ghost predicate DelbandSound(d: Delband) {
    forall k :: k in d ==> 0 <= d[k].net <= MAX_AMOUNT && 0 <= d[k].cpu <= MAX_AMOUNT && d[k].net + d[k].cpu > 0
  }

  /** Refund rows are never negative and exist only with something to refund. */
  ghost predicate RefundsSound(q: Refunds) {
    forall a :: a in q ==> 0 <= q[a].net <= MAX_AMOUNT && 0 <= q[a].cpu <= MAX_AMOUNT && q[a].net + q[a].cpu > 0
  }

  /** Every receiver's totals are the sums of what was staked for it. */
  ghost predicate TotalsAgree(d: Delband, u: UserRes) {
    forall r :: ResourcesAt(u, r).net == NetTo(d, r) <= MAX_AMOUNT && ResourcesAt(u, r).cpu == CpuTo(d, r) <= MAX_AMOUNT
  }

  /** Every owner's voting stake is the sum of what it staked. */
  ghost predicate VotersAgree(d: Delband, v: Voters) {
    forall f :: Voted(v, f) == StakedBy(d, f) < I63
  }

  ghost predicate TablesAgree(s: StakeState, u: UserRes) {
    && DelbandSound(s.delband)
    && RefundsSound(s.refunds)
    && TotalsAgree(s.delband, u)
    && VotersAgree(s.delband, s.voters)
  }

  /** Deltas that pass the first checks have one sign, and their sum did not wrap. */
  lemma AgreeingSigns(dn: Int64, dc: Int64)
    requires SignsAgree(dn, dc)
    ensures InRange(dn) && InRange(dc) && Plus(dn, dc) == Ok(dn + dc) && dn + dc != 0
    ensures (dn >= 0 && dc >= 0) || (dn <= 0 && dc <= 0)
  {
  }

  /** Restaking moves exactly the sums the row takes part in. */
  lemma RestakeSums(d: Delband, owner: Account, receiver: Account, dn: int, dc: int)
    requires DelbandSound(d) && InRange(dn) && InRange(dc) && dn + dc != 0
    requires Restake(d, owner, receiver, dn, dc).Ok?
    ensures var d' := Restake(d, owner, receiver, dn, dc).value;
      && DelbandSound(d')
      && TotalStaked(d') == TotalStaked(d) + dn + dc
      && (forall r :: NetTo(d', r) == NetTo(d, r) + (if r == receiver then dn else 0))
      && (forall r :: CpuTo(d', r) == CpuTo(d, r) + (if r == receiver then dc else 0))
      && (forall f :: StakedBy(d', f) == StakedBy(d, f) + (if f == owner then dn + dc else 0))
  {
    var d' := Restake(d, owner, receiver, dn, dc).value;
    var k := (owner, receiver);
    assert d - {k} == d' - {k};
    SumChange(d, d', EachStake(), k);
    forall r ensures NetTo(d', r) == NetTo(d, r) + (if r == receiver then dn else 0) {
      SumChange(d, d', NetFor(r), k);
    }
    forall r ensures CpuTo(d', r) == CpuTo(d, r) + (if r == receiver then dc else 0) {
      SumChange(d, d', CpuFor(r), k);
    }
    forall f ensures StakedBy(d', f) == StakedBy(d, f) + (if f == owner then dn + dc else 0) {
      SumChange(d, d', OwnedBy(f), k);
    }
  }

  /** The receiver's totals follow; its RAM quota stays. */
  lemma RetotalAgrees(d: Delband, d': Delband, u: UserRes, receiver: Account, dn: int, dc: int)
    requires TotalsAgree(d, u) && InRange(dn) && InRange(dc)
    requires forall r :: NetTo(d', r) == NetTo(d, r) + (if r == receiver then dn else 0)
    requires forall r :: CpuTo(d', r) == CpuTo(d, r) + (if r == receiver then dc else 0)
    requires ResourcesAt(u, receiver).net >= 0 && ResourcesAt(u, receiver).cpu >= 0
    requires Retotal(u, receiver, dn, dc).Ok?
    ensures var u' := Retotal(u, receiver, dn, dc).value;
      TotalsAgree(d', u') && forall a :: ResourcesAt(u', a).ram == ResourcesAt(u, a).ram
  {
    var u' := Retotal(u, receiver, dn, dc).value;
    forall a ensures ResourcesAt(u', a).ram == ResourcesAt(u, a).ram
             ensures a != receiver ==> ResourcesAt(u', a) == ResourcesAt(u, a)
    {
    }
  }

  /** A voting stake that would wrap past 2^63 turns negative and is refused; any other is exact. */
  lemma RevoteAgrees(d: Delband, d': Delband, v: Voters, owner: Account, total: int)
    requires VotersAgree(d, v) && InRange(total)
    requires 0 <= Voted(v, owner) && Revote(v, owner, total).Ok?
    requires forall f :: StakedBy(d', f) == StakedBy(d, f) + (if f == owner then total else 0)
    ensures VotersAgree(d', Revote(v, owner, total).value)
  {
    var x := Voted(v, owner) + total;
    assert x >= I63 ==> Wrap64(x) == x - U64;
  }

  /** No sum of stakes is negative, and each covers the row it includes. */
  lemma StakeBounds(d: Delband, owner: Account, receiver: Account)
    requires DelbandSound(d)
    ensures 0 <= StakeAt(d, owner, receiver).net <= NetTo(d, receiver)
    ensures 0 <= StakeAt(d, owner, receiver).cpu <= CpuTo(d, receiver)
    ensures 0 <= StakeAt(d, owner, receiver).net + StakeAt(d, owner, receiver).cpu <= StakedBy(d, owner)
    ensures TotalStaked(d) >= 0
  {
    var k := (owner, receiver);
    SumBounds(d, NetFor(receiver), k);
    SumBounds(d, CpuFor(receiver), k);
    SumBounds(d, OwnedBy(owner), k);
    SumBounds(d, EachStake(), k);
  }

  /** Netting conserves: stake added, less what is still to be paid in, comes out of the refund. */
  lemma SettleSums(q: Refunds, now: nat, owner: Account, toSelf: bool, dn: int, dc: int)
    requires RefundsSound(q) && InRange(dn) && InRange(dc) && InRange(dn + dc)
    requires (dn >= 0 && dc >= 0) || (dn <= 0 && dc <= 0)
    requires dn + dc != 0 && Settle(q, now, owner, toSelf, dn, dc).Ok?
    ensures var (q', pay) := Settle(q, now, owner, toSelf, dn, dc).value;
      && RefundsSound(q')
      && 0 <= pay <= Max(dn + dc, 0)
      && (!toSelf && dn + dc > 0 ==> q' == q && pay == dn + dc)
      && q - {owner} == q' - {owner}
      && Owed(q', owner) == Owed(q, owner) + pay - (dn + dc)
      && TotalOwed(q') == TotalOwed(q) + pay - (dn + dc)
  {
    hide SumBy;
    var (q', pay) := Settle(q, now, owner, toSelf, dn, dc).value;
    assert q - {owner} == q' - {owner};
    SumChange(q, q', EachRefund(), owner);
  }

  function NetOwed(q: Refunds, a: Account): int { if a in q then q[a].net else 0 }
  function CpuOwed(q: Refunds, a: Account): int { if a in q then q[a].cpu else 0 }

  /** Net is set off against net and cpu against cpu; whatever a component lacks is paid in. */
  lemma SettleComponents(q: Refunds, now: nat, owner: Account, toSelf: bool, dn: int, dc: int)
    requires RefundsSound(q) && InRange(dn) && InRange(dc) && InRange(dn + dc)
    requires (dn >= 0 && dc >= 0) || (dn <= 0 && dc <= 0)
    requires toSelf || dn + dc < 0
    requires Settle(q, now, owner, toSelf, dn, dc).Ok?
    ensures var (q', pay) := Settle(q, now, owner, toSelf, dn, dc).value;
      && NetOwed(q', owner) == Max(NetOwed(q, owner) - dn, 0)
      && CpuOwed(q', owner) == Max(CpuOwed(q, owner) - dc, 0)
      && pay == Max(dn - NetOwed(q, owner), 0) + Max(dc - CpuOwed(q, owner), 0)
  {
  }

  /** The assertions on the receiver's totals and on the voting stake cannot fail after the first one. */
  lemma TotalsAlwaysCover(s: StakeState, u: UserRes, owner: Account, receiver: Account, dn: Int64, dc: Int64)
    requires TablesAgree(s, u) && SignsAgree(dn, dc) && dn <= 0 && dc <= 0
    requires Restake(s.delband, owner, receiver, dn, dc).Ok?
    ensures Retotal(u, receiver, dn, dc).Ok?
    ensures Revote(s.voters, owner, dn + dc).Ok?
  {
    AgreeingSigns(dn, dc);
    StakeBounds(s.delband, owner, receiver);
    assert ResourcesAt(u, receiver).net == NetTo(s.delband, receiver);
    assert Voted(s.voters, owner) == StakedBy(s.delband, owner);
  }

  /** Whatever changebw does, the three stake tables still agree and RAM quotas stand. */
  lemma ChangeBwKeepsTables(l: Ledger, s: StakeState, u: UserRes, e: Env, from: Account, receiver: Account,
                            dn: Int64, dc: Int64, transfer: bool)
    requires TablesAgree(s, u)
    requires ChangeBw(l, s, u, e, from, receiver, dn, dc, transfer).Ok?
    ensures var (l', s', u') := ChangeBw(l, s, u, e, from, receiver, dn, dc, transfer).value;
      TablesAgree(s', u') && forall a :: ResourcesAt(u', a).ram == ResourcesAt(u, a).ram
  {
    hide SumBy, Transfer;
    AgreeingSigns(dn, dc);
    var owner := Owner(from, receiver, transfer);
    RestakeSums(s.delband, owner, receiver, dn, dc);
    StakeBounds(s.delband, owner, receiver);
    var d' := Restake(s.delband, owner, receiver, dn, dc).value;
    assert ResourcesAt(u, receiver).net == NetTo(s.delband, receiver);
    RetotalAgrees(s.delband, d', u, receiver, dn, dc);
    assert Voted(s.voters, owner) == StakedBy(s.delband, owner);
    RevoteAgrees(s.delband, d', s.voters, owner, dn + dc);
    if from != EOSIO_STAKE {
      SettleSums(s.refunds, e.now, owner, !transfer && owner == receiver, dn, dc);
    }
  }

  // ---------- every row ----------

  ghost predicate DelbandMoved(d: Delband, d': Delband, owner: Account, receiver: Account, dn: int, dc: int) {
    forall f, r ::
      var was := StakeAt(d, f, r);
      StakeAt(d', f, r) == if f == owner && r == receiver then Stake(was.net + dn, was.cpu + dc) else was
  }

  /** A receiver left with nothing loses its row; nobody else's row comes or goes. */
  ghost predicate TotalsMoved(u: UserRes, u': UserRes, receiver: Account, dn: int, dc: int) {
    && (forall a ::
          var was := ResourcesAt(u, a);
          ResourcesAt(u', a) == if a == receiver then Resources(was.net + dn, was.cpu + dc, was.ram) else was)
    && (receiver in u' <==> ResourcesAt(u', receiver) != Resources(0, 0, 0))
    && (forall a :: a != receiver ==> (a in u' <==> a in u))
  }

  ghost predicate VotesMoved(v: Voters, v': Voters, owner: Account, total: int) {
    forall f :: Voted(v', f) == Voted(v, f) + (if f == owner then total else 0)
  }

  /** One delegation, its receiver's totals and its owner's voting stake move, net by `dn` and cpu by `dc`. */
  ghost predicate StakeMoved(s: StakeState, u: UserRes, s': StakeState, u': UserRes,
                             owner: Account, receiver: Account, dn: int, dc: int) {
    && DelbandMoved(s.delband, s'.delband, owner, receiver, dn, dc)
    && TotalsMoved(u, u', receiver, dn, dc)
    && VotesMoved(s.voters, s'.voters, owner, dn + dc)
  }

  /** Only the owner's refund changed, to exactly these amounts. */
  ghost predicate RefundBecomes(q: Refunds, q': Refunds, owner: Account, net: int, cpu: int) {
    forall a ::
      && NetOwed(q', a) == (if a == owner then net else NetOwed(q, a))
      && CpuOwed(q', a) == (if a == owner then cpu else CpuOwed(q, a))
  }

  lemma RestakeRow(d: Delband, owner: Account, receiver: Account, dn: int, dc: int)
    requires DelbandSound(d) && InRange(dn) && InRange(dc) && Restake(d, owner, receiver, dn, dc).Ok?
    ensures DelbandMoved(d, Restake(d, owner, receiver, dn, dc).value, owner, receiver, dn, dc)
  {
  }

  lemma RetotalRow(u: UserRes, receiver: Account, dn: int, dc: int)
    requires InRange(ResourcesAt(u, receiver).net) && InRange(ResourcesAt(u, receiver).cpu)
    requires InRange(dn) && InRange(dc) && Retotal(u, receiver, dn, dc).Ok?
    ensures TotalsMoved(u, Retotal(u, receiver, dn, dc).value, receiver, dn, dc)
  {
  }

  lemma RevoteRow(v: Voters, owner: Account, total: int)
    requires 0 <= Voted(v, owner) < I63 && InRange(total) && Revote(v, owner, total).Ok?
    ensures VotesMoved(v, Revote(v, owner, total).value, owner, total)
  {
    var x := Voted(v, owner) + total;
    assert x >= I63 ==> Wrap64(x) == x - U64;
  }

  /** The bounds that agreeing tables put on the rows changebw looks at. */
  lemma RowBounds(s: StakeState, u: UserRes, owner: Account, receiver: Account)
    requires TablesAgree(s, u)
    ensures var row, tot := StakeAt(s.delband, owner, receiver), ResourcesAt(u, receiver);
      && 0 <= row.net <= tot.net <= MAX_AMOUNT && 0 <= row.cpu <= tot.cpu <= MAX_AMOUNT
      && row.net + row.cpu <= Voted(s.voters, owner) < I63
  {
    hide SumBy;
    StakeBounds(s.delband, owner, receiver);
    assert ResourcesAt(u, receiver).net == NetTo(s.delband, receiver);
    assert Voted(s.voters, owner) == StakedBy(s.delband, owner);
  }

  lemma ChangeBwRows(l: Ledger, s: StakeState, u: UserRes, e: Env, from: Account, receiver: Account,
                     dn: Int64, dc: Int64, transfer: bool)
    requires TablesAgree(s, u)
    requires ChangeBw(l, s, u, e, from, receiver, dn, dc, transfer).Ok?
    ensures var (l', s', u') := ChangeBw(l, s, u, e, from, receiver, dn, dc, transfer).value;
      StakeMoved(s, u, s', u', Owner(from, receiver, transfer), receiver, dn, dc)
  {
    hide SumBy, SettleAndPay, Restake, Retotal, Revote, TotalsAgree, VotersAgree;
    hide DelbandMoved, TotalsMoved, VotesMoved;
    AgreeingSigns(dn, dc);
    var owner := Owner(from, receiver, transfer);
    RowBounds(s, u, owner, receiver);
    RestakeRow(s.delband, owner, receiver, dn, dc);
    RetotalRow(u, receiver, dn, dc);
    RevoteRow(s.voters, owner, dn + dc);
  }

  /** What staking for oneself still has to pay in, after what waits to be refunded is used up. */
  function SelfPay(q: Refunds, a: Account, net: int, cpu: int): int {
    Max(net - NetOwed(q, a), 0) + Max(cpu - CpuOwed(q, a), 0)
  }

  /** What delegatebw costs in tokens. */
  function DelegatePay(s: StakeState, from: Account, receiver: Account, net: int, cpu: int): int {
    if from == EOSIO_STAKE then 0
    else if from == receiver then SelfPay(s.refunds, from, net, cpu)
    else net + cpu
  }

  /** Settling a stake: against the owner's refund if it is for itself, and in full otherwise. */
  lemma SettleStake(s: StakeState, e: Env, owner: Account, receiver: Account, transfer: bool, net: Int64, cpu: Int64)
    requires RefundsSound(s.refunds) && net >= 0 && cpu >= 0 && 0 < net + cpu <= MAX_AMOUNT
    requires transfer ==> owner == receiver
    ensures var toSelf := !transfer && owner == receiver;
      var r := Settle(s.refunds, e.now, owner, toSelf, net, cpu);
      && r.Ok?
      && r.value.1 == (if toSelf then SelfPay(s.refunds, owner, net, cpu) else net + cpu)
      && (!toSelf ==> r.value.0 == s.refunds)
      && (toSelf ==> RefundBecomes(s.refunds, r.value.0, owner,
                                   Max(NetOwed(s.refunds, owner) - net, 0), Max(CpuOwed(s.refunds, owner) - cpu, 0)))
      && (forall a :: a in r.value.0 ==> a in s.refunds && r.value.0[a].time == s.refunds[a].time)
  {
  }

  /** Settling an undelegation: all of it is added to the owner's refund, whose clock starts anew. */
  lemma SettleUnstake(s: StakeState, e: Env, owner: Account, toSelf: bool, net: Int64, cpu: Int64)
    requires RefundsSound(s.refunds) && net >= 0 && cpu >= 0 && 0 < net + cpu <= MAX_AMOUNT
    ensures var r := Settle(s.refunds, e.now, owner, toSelf, -net, -cpu);
      && (r.Ok? <==> NetOwed(s.refunds, owner) + net <= MAX_AMOUNT && CpuOwed(s.refunds, owner) + cpu <= MAX_AMOUNT)
      && (r.Ok? ==>
            && r.value.1 == 0
            && RefundBecomes(s.refunds, r.value.0, owner,
                             NetOwed(s.refunds, owner) + net, CpuOwed(s.refunds, owner) + cpu)
            && owner in r.value.0 && r.value.0[owner].time == e.now
            && (forall a :: a in r.value.0 && a != owner ==>
                  a in s.refunds && r.value.0[a].time == s.refunds[a].time))
  {
  }

  /** The refund and the payment of a stake: when they go through, and what they leave. */
  lemma StakePaid(l: Ledger, s: StakeState, e: Env, from: Account, receiver: Account,
                  net: Int64, cpu: Int64, transfer: bool)
    requires Sound(l) && RefundsSound(s.refunds) && net >= 0 && cpu >= 0 && 0 < net + cpu <= MAX_AMOUNT
    requires !(transfer && from == receiver)
    ensures var owner := Owner(from, receiver, transfer);
      var pay := DelegatePay(s, from, receiver, net, cpu);
      var r := SettleAndPay(l, s.refunds, e, from, owner, receiver, net, cpu, transfer);
      && pay >= 0
      && (r.Ok? <==> (pay > 0 ==> MayTransfer(l, e, from, EOSIO_STAKE, Asset(pay, CORE))))
      && (r.Ok? ==>
            && (from == receiver && from != EOSIO_STAKE ==>
                  RefundBecomes(s.refunds, r.value.0, from,
                                Max(NetOwed(s.refunds, from) - net, 0), Max(CpuOwed(s.refunds, from) - cpu, 0)))
            && (from != receiver ==> r.value.0 == s.refunds)
            && (forall a :: Core(r.value.1, a) ==
                  Core(l, a) + (if a == EOSIO_STAKE then pay else 0) - (if a == from then pay else 0)))
  {
    hide SumBy, Transfer, Settle, MayTransfer, RefundBecomes, NetOwed, CpuOwed;
    SettleStake(s, e, Owner(from, receiver, transfer), receiver, transfer, net, cpu);
    TransferEffect(l, e, from, EOSIO_STAKE, Asset(DelegatePay(s, from, receiver, net, cpu), CORE));
  }

  /** delegatebw goes through exactly if the sender can pay, and give away if asked to, and nothing overflows. */
  lemma DelegateSucceeds(l: Ledger, s: StakeState, u: UserRes, e: Env, from: Account, receiver: Account,
                         net: Int64, cpu: Int64, transfer: bool)
    requires Sound(l) && CoreToken(l) && TablesAgree(s, u)
    ensures var owner := if transfer then receiver else from;
      var pay := DelegatePay(s, from, receiver, net, cpu);
      DelegateBw(l, s, u, e, from, receiver, net, cpu, transfer).Ok? <==>
      && net >= 0 && cpu >= 0 && 0 < net + cpu <= MAX_AMOUNT
      && receiver !in RESERVED
      && (transfer ==> from != receiver && Core(l, from) >= net + cpu + e.deposit(from) + e.lock(from))
      && ResourcesAt(u, receiver).net + net <= MAX_AMOUNT && ResourcesAt(u, receiver).cpu + cpu <= MAX_AMOUNT
      && Voted(s.voters, owner) + net + cpu < I63
      && (pay > 0 ==> MayTransfer(l, e, from, EOSIO_STAKE, Asset(pay, CORE)))
  {
    hide SumBy, SettleAndPay, Restake, Retotal, Revote, TotalsAgree, VotersAgree, MayTransfer, MayGiveAway;
    hide RefundBecomes, DelegatePay;
    PlusIsExact(Max(net, 0), Max(cpu, 0));
    if net >= 0 && cpu >= 0 && 0 < net + cpu <= MAX_AMOUNT {
      var owner := Owner(from, receiver, transfer);
      GiveAwayExact(l, e, from, net + cpu);
      AddedStake(s, u, owner, receiver, net, cpu);
      if !(transfer && from == receiver) {
        StakePaid(l, s, e, from, receiver, net, cpu, transfer);
      }
    }
  }

  /**
   * delegatebw stakes net as net and cpu as cpu, for the receiver with the transfer flag and for the sender
   * without; a stake for oneself uses up what waits to be refunded, net from net and cpu from cpu.
   */
  lemma DelegateEffect(l: Ledger, s: StakeState, u: UserRes, e: Env, from: Account, receiver: Account,
                       net: Int64, cpu: Int64, transfer: bool)
    requires Sound(l) && TablesAgree(s, u)
    requires DelegateBw(l, s, u, e, from, receiver, net, cpu, transfer).Ok?
    ensures var (l', s', u') := DelegateBw(l, s, u, e, from, receiver, net, cpu, transfer).value;
      var pay := DelegatePay(s, from, receiver, net, cpu);
      && StakeMoved(s, u, s', u', if transfer then receiver else from, receiver, net, cpu)
      && (from == receiver && from != EOSIO_STAKE ==>
            RefundBecomes(s.refunds, s'.refunds, from,
                          Max(NetOwed(s.refunds, from) - net, 0), Max(CpuOwed(s.refunds, from) - cpu, 0)))
      && (from != receiver ==> s'.refunds == s.refunds)
      && (forall a :: Core(l', a) ==
            Core(l, a) + (if a == EOSIO_STAKE then pay else 0) - (if a == from then pay else 0))
  {
    hide SumBy, SettleAndPay, Restake, Retotal, Revote, TotalsAgree, VotersAgree, StakeMoved, MayGiveAway;
    hide RefundBecomes, DelegatePay, SignsAgree;
    PlusIsExact(Max(net, 0), Max(cpu, 0));
    StakePaid(l, s, e, from, receiver, net, cpu, transfer);
    ChangeBwRows(l, s, u, e, from, receiver, net, cpu, transfer);
  }

  lemma GiveAwayExact(l: Ledger, e: Env, from: Account, total: int)
    requires Sound(l) && CoreToken(l) && total > 0
    ensures MayGiveAway(l, e, from, total) <==> Core(l, from) >= total + e.deposit(from) + e.lock(from)
  {
  }

  /** Adding to a stake fails only where a total or the voting stake would overflow. */
  lemma AddedStake(s: StakeState, u: UserRes, owner: Account, receiver: Account, net: Int64, cpu: Int64)
    requires TablesAgree(s, u) && net >= 0 && cpu >= 0 && 0 < net + cpu <= MAX_AMOUNT
    ensures (Restake(s.delband, owner, receiver, net, cpu).Ok? && Retotal(u, receiver, net, cpu).Ok?) <==>
      ResourcesAt(u, receiver).net + net <= MAX_AMOUNT && ResourcesAt(u, receiver).cpu + cpu <= MAX_AMOUNT
    ensures Revote(s.voters, owner, net + cpu).Ok? <==> Voted(s.voters, owner) + net + cpu < I63
  {
    hide SumBy, TablesAgree;
    RowBounds(s, u, owner, receiver);
    var x := Voted(s.voters, owner) + net + cpu;
    assert x >= I63 ==> Wrap64(x) == x - U64;
  }

  /** undelegatebw goes through exactly if the delegation covers both amounts and the refund does not overflow. */
  lemma UndelegateSucceeds(l: Ledger, s: StakeState, u: UserRes, e: Env, from: Account, receiver: Account,
                           net: Int64, cpu: Int64)
    requires TablesAgree(s, u)
    ensures UndelegateBw(l, s, u, e, from, receiver, net, cpu).Ok? <==>
      && net >= 0 && cpu >= 0 && 0 < net + cpu <= MAX_AMOUNT
      && receiver !in RESERVED
      && StakeAt(s.delband, from, receiver).net >= net && StakeAt(s.delband, from, receiver).cpu >= cpu
      && (from != EOSIO_STAKE ==>
            NetOwed(s.refunds, from) + net <= MAX_AMOUNT && CpuOwed(s.refunds, from) + cpu <= MAX_AMOUNT)
  {
    hide SumBy, Transfer, Restake, Retotal, Revote, Settle, TotalsAgree, VotersAgree, SignsAgree;
    hide RefundBecomes, NetOwed, CpuOwed, StakeAt;
    PlusIsExact(Max(cpu, 0), Max(net, 0));
    if net >= 0 && cpu >= 0 && 0 < net + cpu <= MAX_AMOUNT {
      TakenStake(s, u, from, receiver, net, cpu);
      SettleUnstake(s, e, from, from == receiver, net, cpu);
    }
  }

  /**
   * undelegatebw takes net from net and cpu from cpu, adds them to the sender's refund as such and restarts its
   * clock, without moving a token.
   */
  lemma UndelegateEffect(l: Ledger, s: StakeState, u: UserRes, e: Env, from: Account, receiver: Account,
                         net: Int64, cpu: Int64)
    requires TablesAgree(s, u) && UndelegateBw(l, s, u, e, from, receiver, net, cpu).Ok?
    ensures var (l', s', u') := UndelegateBw(l, s, u, e, from, receiver, net, cpu).value;
      && l' == l
      && StakeMoved(s, u, s', u', from, receiver, -net, -cpu)
      && (from != EOSIO_STAKE ==>
            && RefundBecomes(s.refunds, s'.refunds, from,
                             NetOwed(s.refunds, from) + net, CpuOwed(s.refunds, from) + cpu)
            && from in s'.refunds && s'.refunds[from].time == e.now)
      && (from == EOSIO_STAKE ==> s'.refunds == s.refunds)
  {
    hide SumBy, Transfer, Restake, Retotal, Revote, Settle, TotalsAgree, VotersAgree, StakeMoved, SignsAgree;
    PlusIsExact(Max(cpu, 0), Max(net, 0));
    SettleUnstake(s, e, from, from == receiver, net, cpu);
    ChangeBwRows(l, s, u, e, from, receiver, -net, -cpu, false);
  }

  lemma TakenStake(s: StakeState, u: UserRes, owner: Account, receiver: Account, net: Int64, cpu: Int64)
    requires TablesAgree(s, u) && net >= 0 && cpu >= 0 && 0 < net + cpu <= MAX_AMOUNT
    ensures SignsAgree(-net, -cpu)
    ensures Restake(s.delband, owner, receiver, -net, -cpu).Ok? <==>
      StakeAt(s.delband, owner, receiver).net >= net && StakeAt(s.delband, owner, receiver).cpu >= cpu
    ensures Restake(s.delband, owner, receiver, -net, -cpu).Ok? ==>
      Retotal(u, receiver, -net, -cpu).Ok? && Revote(s.voters, owner, -net - cpu).Ok?
  {
    hide SumBy, TablesAgree;
    RowBounds(s, u, owner, receiver);
    if Restake(s.delband, owner, receiver, -net, -cpu).Ok? {
      TotalsAlwaysCover(s, u, owner, receiver, -net, -cpu);
    }
  }

  // ---------- tokens ----------

  /** Tokens held by eosio.stake beyond what it owes to stakers and for refunds. */
  ghost function EscrowSurplus(l: Ledger, s: StakeState): int {
    Core(l, EOSIO_STAKE) - TotalStaked(s.delband) - TotalOwed(s.refunds)
  }

  /** All that belongs to an account: liquid, staked and on its way back. */
  ghost function Wealth(l: Ledger, s: StakeState, a: Account): int {
    Core(l, a) + StakedBy(s.delband, a) + Owed(s.refunds, a)
  }

  /** What changebw takes from `from` in tokens. */
  function Payment(s: StakeState, e: Env, from: Account, receiver: Account, dn: int, dc: int, transfer: bool): int {
    var owner := Owner(from, receiver, transfer);
    var r := Settle(s.refunds, e.now, owner, !transfer && owner == receiver, dn, dc);
    if from == EOSIO_STAKE || r.Err? then 0 else r.value.1
  }

  /** The tokens changebw moves are the payment, from the staker to the escrow. */
  lemma ChangeBwMoves(l: Ledger, s: StakeState, e: Env, from: Account, receiver: Account,
                      dn: Int64, dc: Int64, transfer: bool)
    requires Sound(l) && RefundsSound(s.refunds) && SignsAgree(dn, dc)
    requires SettleAndPay(l, s.refunds, e, from, Owner(from, receiver, transfer), receiver, dn, dc, transfer).Ok?
    ensures var owner := Owner(from, receiver, transfer);
      var (q', l') := SettleAndPay(l, s.refunds, e, from, owner, receiver, dn, dc, transfer).value;
      var pay := Payment(s, e, from, receiver, dn, dc, transfer);
      && Sound(l') && l'.stats == l.stats
      && pay >= 0
      && forall a :: Core(l', a) == Core(l, a) + (if a == EOSIO_STAKE then pay else 0) - (if a == from then pay else 0)
  {
    AgreeingSigns(dn, dc);
    if from != EOSIO_STAKE {
      var owner := Owner(from, receiver, transfer);
      SettleSums(s.refunds, e.now, owner, !transfer && owner == receiver, dn, dc);
      var pay := Payment(s, e, from, receiver, dn, dc, transfer);
      if pay > 0 {
        TransferEffect(l, e, from, EOSIO_STAKE, Asset(pay, CORE));
      }
    }
  }

  /** What changebw does to stakes, refunds and tokens, seen from one account. */
  lemma ChangeBwEffect(l: Ledger, s: StakeState, u: UserRes, e: Env, from: Account, receiver: Account,
                       dn: Int64, dc: Int64, transfer: bool, a: Account)
    requires Sound(l) && TablesAgree(s, u)
    requires ChangeBw(l, s, u, e, from, receiver, dn, dc, transfer).Ok?
    ensures var (l', s', u') := ChangeBw(l, s, u, e, from, receiver, dn, dc, transfer).value;
      var pay := Payment(s, e, from, receiver, dn, dc, transfer);
      var owner := Owner(from, receiver, transfer);
      var settled := if from == EOSIO_STAKE then 0 else pay - (dn + dc);
      && Sound(l') && l'.stats == l.stats
      && pay >= 0
      && (from != EOSIO_STAKE && transfer && dn + dc > 0 ==> pay == dn + dc)
      && Core(l', a) == Core(l, a) + (if a == EOSIO_STAKE then pay else 0) - (if a == from then pay else 0)
      && StakedBy(s'.delband, a) == StakedBy(s.delband, a) + (if a == owner then dn + dc else 0)
      && TotalStaked(s'.delband) == TotalStaked(s.delband) + dn + dc
      && Owed(s'.refunds, a) == Owed(s.refunds, a) + (if a == owner then settled else 0)
      && TotalOwed(s'.refunds) == TotalOwed(s.refunds) + settled
  {
    hide Transfer, Settle, SumBy, Restake, Retotal, Revote;
    AgreeingSigns(dn, dc);
    var owner := Owner(from, receiver, transfer);
    ChangeBwMoves(l, s, e, from, receiver, dn, dc, transfer);
    RestakeSums(s.delband, owner, receiver, dn, dc);
    if from != EOSIO_STAKE {
      var toSelf := !transfer && owner == receiver;
      SettleSums(s.refunds, e.now, owner, toSelf, dn, dc);
      SameOwed(s.refunds, Settle(s.refunds, e.now, owner, toSelf, dn, dc).value.0, owner, a);
    }
  }

  lemma SameOwed(q: Refunds, q': Refunds, owner: Account, a: Account)
    requires q - {owner} == q' - {owner}
    ensures a != owner ==> Owed(q', a) == Owed(q, a)
  {
    assert a != owner ==> (a in q <==> a in (q - {owner})) && (a in q' <==> a in (q' - {owner}));
    assert a != owner && a in q ==> (q - {owner})[a] == (q' - {owner})[a];
  }

  /**
   * Staking, unstaking and every netting in between leave the escrow exactly as well backed as before.
   * Only eosio.stake's own stake changes, which move no tokens, shift the surplus, and by exactly the change.
   */
  lemma ChangeBwBacked(l: Ledger, s: StakeState, u: UserRes, e: Env, from: Account, receiver: Account,
                       dn: Int64, dc: Int64, transfer: bool)
    requires Sound(l) && TablesAgree(s, u)
    requires ChangeBw(l, s, u, e, from, receiver, dn, dc, transfer).Ok?
    ensures var (l', s', u') := ChangeBw(l, s, u, e, from, receiver, dn, dc, transfer).value;
      EscrowSurplus(l', s') == EscrowSurplus(l, s) - (if from == EOSIO_STAKE then dn + dc else 0)
  {
    ChangeBwEffect(l, s, u, e, from, receiver, dn, dc, transfer, EOSIO_STAKE);
  }

  /** Tokens staked stay the owner's: only a stake given away leaves `from`, and then goes to `receiver`. */
  lemma ChangeBwKeepsWealth(l: Ledger, s: StakeState, u: UserRes, e: Env, from: Account, receiver: Account,
                            dn: Int64, dc: Int64, transfer: bool, a: Account)
    requires Sound(l) && TablesAgree(s, u) && a != EOSIO_STAKE
    requires ChangeBw(l, s, u, e, from, receiver, dn, dc, transfer).Ok?
    requires from != EOSIO_STAKE && (transfer ==> dn + dc > 0)
    ensures var (l', s', u') := ChangeBw(l, s, u, e, from, receiver, dn, dc, transfer).value;
      var given := if transfer then dn + dc else 0;
      Wealth(l', s', a) == Wealth(l, s, a) + (if a == receiver then given else 0) - (if a == from then given else 0)
  {
    ChangeBwEffect(l, s, u, e, from, receiver, dn, dc, transfer, a);
  }

  /**
   * A stake may be made with locked tokens, but they stay the staker's; a stake given away may not.
   * Either way the staker ends with at least the deposit and the lock, or with no less than before.
   */
  lemma DelegateKeepsLock(l: Ledger, s: StakeState, u: UserRes, e: Env, from: Account, receiver: Account,
                          net: Int64, cpu: Int64, transfer: bool, a: Account)
    requires Sound(l) && TablesAgree(s, u) && a != EOSIO_STAKE && from != EOSIO_STAKE
    requires DelegateBw(l, s, u, e, from, receiver, net, cpu, transfer).Ok?
    ensures var (l', s', u') := DelegateBw(l, s, u, e, from, receiver, net, cpu, transfer).value;
      Wealth(l', s', a) >= Wealth(l, s, a) || Wealth(l', s', a) >= e.deposit(a) + e.lock(a)
  {
    AgreeingSigns(net, cpu);
    ChangeBwKeepsWealth(l, s, u, e, from, receiver, net, cpu, transfer, a);
    if transfer && a == from {
      StakeBounds(s.delband, a, a);
    }
  }

  /** A refund pays its owner from the escrow and closes the request: nobody's wealth changes. */
  lemma RefundEffect(l: Ledger, s: StakeState, e: Env, owner: Account)
    requires Sound(l) && RefundsSound(s.refunds)
    requires Refund(l, s, e, owner).Ok?
    ensures owner != EOSIO_STAKE && owner != CHANNEL_SYS && owner in s.refunds
    ensures var (l', s') := Refund(l, s, e, owner).value;
      && Sound(l') && l'.stats == l.stats
      && s'.delband == s.delband && s'.voters == s.voters && RefundsSound(s'.refunds)
      && EscrowSurplus(l', s') == EscrowSurplus(l, s)
      && (forall a :: Core(l', a) == Core(l, a)
           + (if a == owner then Owed(s.refunds, owner) else 0)
           - (if a == EOSIO_STAKE then Owed(s.refunds, owner) else 0))
      && (forall a :: Owed(s'.refunds, a) == if a == owner then 0 else Owed(s.refunds, a))
  {
    hide Transfer, SumBy;
    var q := s.refunds[owner];
    TransferEffect(l, e, EOSIO_STAKE, owner, Asset(q.net + q.cpu, CORE));
    var s' := Refund(l, s, e, owner).value.1;
    assert s.refunds - {owner} == s'.refunds - {owner};
    SumChange(s.refunds, s'.refunds, EachRefund(), owner);
  }

  /**
   * While the escrow is backed, a refund is paid if and only if it is due and its owner can receive it: an
   * account other than eosio.stake itself and channel.sys, which rejects every transfer whose memo names no user.
   */
  lemma DueRefundIsPaid(l: Ledger, s: StakeState, e: Env, owner: Account)
    requires Sound(l) && CoreToken(l) && DelbandSound(s.delband) && RefundsSound(s.refunds)
    requires EscrowSurplus(l, s) >= 0
    requires !e.frozen(EOSIO_STAKE) && e.deposit(EOSIO_STAKE) == 0 && e.lock(EOSIO_STAKE) == 0
    ensures Refund(l, s, e, owner).Ok? <==>
      owner in s.refunds && Due(s.refunds[owner], e.now) && Refundable(e, owner)
  {
    if owner in s.refunds {
      SumBounds(s.refunds, EachRefund(), owner);
      StakeBounds(s.delband, owner, owner);
      BalanceBounds(l, EOSIO_STAKE, CORE.code);
      var q := s.refunds[owner];
      TransferEffect(l, e, EOSIO_STAKE, owner, Asset(q.net + q.cpu, CORE));
    }
  }

  predicate Refundable(e: Env, owner: Account) {
    e.isAccount(owner) && owner != EOSIO_STAKE && owner != CHANNEL_SYS
  }

  /**
   * A refund is due after exactly three days, if and only if the request is made before the 32-bit clock's last
   * three days; after that it is due as much too early as the clock is long.
   */
  lemma DelayHoldsUnlessClockWraps(q: RefundRequest)
    requires q.time < U32
    ensures (forall now: nat :: q.time <= now < U32 && Due(q, now) ==> now >= q.time + REFUND_DELAY)
      <==> q.time + REFUND_DELAY < U32
    ensures forall now: nat :: Due(q, now) <==>
      now + (if q.time + 3 * 24 * 3600 < U32 then 0 else U32) >= q.time + 3 * 24 * 3600
  {
    if q.time + REFUND_DELAY >= U32 {
      assert Due(q, q.time);
    }
  }

  /** Changing a receiver's totals, or erasing them with no RAM left, keeps the RAM books. */
  lemma RetotalKeepsBytes(r: RamState, u: UserRes, receiver: Account, dn: int, dc: int)
    requires BytesSound(r, u) && Retotal(u, receiver, dn, dc).Ok?
    ensures BytesSound(r, Retotal(u, receiver, dn, dc).value)
  {
    var u' := Retotal(u, receiver, dn, dc).value;
    assert u - {receiver} == u' - {receiver};
    SumChange(u, u', RamHeld(), receiver);
  }

  lemma ChangeBwKeepsBytes(l: Ledger, s: StakeState, u: UserRes, e: Env, from: Account, receiver: Account,
                           dn: Int64, dc: Int64, transfer: bool, r: RamState)
    requires BytesSound(r, u) && ChangeBw(l, s, u, e, from, receiver, dn, dc, transfer).Ok?
    ensures BytesSound(r, ChangeBw(l, s, u, e, from, receiver, dn, dc, transfer).value.2)
  {
    hide BytesSound, Restake, Retotal, SettleAndPay, Revote;
    RetotalKeepsBytes(r, u, receiver, dn, dc);
  }
}
