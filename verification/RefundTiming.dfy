/** Nobody is paid back before the three days are over: a theorem about whole runs. */
module RefundTiming {
  import opened Base
  import opened Ledgers
  import opened Ram
  import opened Staking
  import opened Auction
  import opened Channel
  import opened Economy

  /** What a transaction undelegates for `owner`, if it succeeds. */
  function UndelegatedNow(n: nat, w: World, x: Entry, owner: Account): int
    requires n >= 1
  {
    match x.a
    case StakeAct(Undelegate(from, _, net, cpu)) =>
      if from == owner && Step(n, w, x.e, x.a).Ok? then net + cpu else 0
    case _ => 0
  }

  /** What a transaction refunds to `owner`, if it succeeds. */
  function PaidNow(n: nat, w: World, x: Entry, owner: Account): int
    requires n >= 1
  {
    if x.a == StakeAct(ClaimRefund(owner)) && Step(n, w, x.e, x.a).Ok? then Owed(w.stakes.refunds, owner) else 0
  }

  /** All that a run undelegates for `owner` up to time `t`. */
  function Undelegated(n: nat, w: World, log: seq<Entry>, owner: Account, t: int): int
    requires n >= 1
  {
    if log == [] then 0
    else
      var k := |log| - 1;
      Undelegated(n, w, log[..k], owner, t)
      + if log[k].e.now <= t then UndelegatedNow(n, Run(n, w, log[..k]), log[k], owner) else 0
  }

  /** All that a run pays to `owner` up to time `t`. */
  function Paid(n: nat, w: World, log: seq<Entry>, owner: Account, t: int): int
    requires n >= 1
  {
    if log == [] then 0
    else
      var k := |log| - 1;
      Paid(n, w, log[..k], owner, t)
      + if log[k].e.now <= t then PaidNow(n, Run(n, w, log[..k]), log[k], owner) else 0
  }

  /** One transaction's effect on the owner's refund row. */
  ghost predicate RowStep(w: World, w': World, now: nat, owner: Account, undelegated: int, paid: int) {
    var q, q' := w.stakes.refunds, w'.stakes.refunds;
    && 0 <= undelegated && 0 <= paid <= Owed(q, owner)
    && Owed(q', owner) <= Owed(q, owner) + undelegated - paid
    && (undelegated > 0 ==> owner in q' && q'[owner].time == now)
    && (undelegated == 0 && owner in q' ==> owner in q && q'[owner].time == q[owner].time)
    && (paid > 0 ==> owner in q)
  }

  /** Netting against a pending refund: undelegating restarts the clock, staking never does. */
  lemma SettleRow(q: Refunds, now: nat, owner: Account, toSelf: bool, dn: int, dc: int)
    requires RefundsSound(q) && InRange(dn) && InRange(dc) && InRange(dn + dc)
    requires (dn >= 0 && dc >= 0) || (dn <= 0 && dc <= 0)
    requires dn + dc != 0 && Settle(q, now, owner, toSelf, dn, dc).Ok?
    ensures var q' := Settle(q, now, owner, toSelf, dn, dc).value.0;
      && Owed(q', owner) <= Owed(q, owner) + Max(-(dn + dc), 0)
      && (dn + dc < 0 ==> owner in q' && q'[owner].time == now)
      && (dn + dc > 0 && owner in q' ==> owner in q && q'[owner].time == q[owner].time)
  {
    hide MapSums.SumBy;
    SettleSums(q, now, owner, toSelf, dn, dc);
  }

  lemma ChangeBwRow(w: World, e: Env, from: Account, receiver: Account, dn: Int64, dc: Int64, transfer: bool,
                    cap: int, owner: Account)
    requires Kernel(w, cap) && owner != EOSIO_STAKE
    requires ChangeBw(w.ledger, w.stakes, w.userres, e, from, receiver, dn, dc, transfer).Ok?
    requires transfer ==> dn + dc > 0
    ensures var s' := ChangeBw(w.ledger, w.stakes, w.userres, e, from, receiver, dn, dc, transfer).value.1;
      RowStep(w, w.(stakes := s'), e.now, owner, if from == owner then Max(-(dn + dc), 0) else 0, 0)
  {
    hide Sound, AuctionSound, BookInRange, TotalsAgree, VotersAgree, DelbandSound;
    hide MapSums.SumBy, Transfer, Restake, Retotal, Revote, Settle;
    AgreeingSigns(dn, dc);
    if from != EOSIO_STAKE {
      var own := Owner(from, receiver, transfer);
      var toSelf := !transfer && own == receiver;
      SettleSums(w.stakes.refunds, e.now, own, toSelf, dn, dc);
      SettleRow(w.stakes.refunds, e.now, own, toSelf, dn, dc);
      OtherRows(w.stakes.refunds, Settle(w.stakes.refunds, e.now, own, toSelf, dn, dc).value.0, own, owner);
    }
  }

  lemma OtherRows(q: Refunds, q': Refunds, own: Account, owner: Account)
    requires q - {own} == q' - {own}
    ensures owner != own ==> (owner in q <==> owner in q')
    ensures owner != own && owner in q ==> q'[owner] == q[owner]
  {
    assert owner != own ==> (owner in q <==> owner in (q - {own})) && (owner in q' <==> owner in (q' - {own}));
    assert owner != own && owner in q ==> (q - {own})[owner] == (q' - {own})[owner];
  }

  lemma StepRow(n: nat, w: World, x: Entry, cap: int, owner: Account)
    requires n >= 1 && Kernel(w, cap) && owner != EOSIO_STAKE && Step(n, w, x.e, x.a).Ok?
    ensures RowStep(w, Step(n, w, x.e, x.a).value, x.e.now, owner,
                    UndelegatedNow(n, w, x, owner), PaidNow(n, w, x, owner))
  {
    hide Sound, AuctionSound, BookInRange, TotalsAgree, VotersAgree, DelbandSound;
    hide TokenStep, RamStep, NameStep, PayStep, ChannelStep, ChangeBw, Transfer, MapSums.SumBy;
    match x.a {
      case StakeAct(Delegate(from, receiver, net, cpu, transfer)) =>
        ChangeBwRow(w, x.e, from, receiver, net, cpu, transfer, cap, owner);
      case StakeAct(Undelegate(from, receiver, net, cpu)) =>
        ChangeBwRow(w, x.e, from, receiver, -net, -cpu, false, cap, owner);
      case StakeAct(ClaimRefund(who)) =>
        OtherRows(w.stakes.refunds, w.stakes.refunds - {who}, who, owner);
      case _ => NoStakes(n, w, x);
    }
  }

  lemma NoStakes(n: nat, w: World, x: Entry)
    requires n >= 1 && !x.a.StakeAct? && Step(n, w, x.e, x.a).Ok?
    ensures Step(n, w, x.e, x.a).value.stakes == w.stakes
  {
  }

  // ---------- the run ----------

  /** Clocks do not run backwards and stay clear of the 32-bit wrap. */
  ghost predicate Clocked(log: seq<Entry>) {
    && (forall i :: 0 <= i < |log| ==> log[i].e.now + REFUND_DELAY < U32)
    && (forall i, j :: 0 <= i < j < |log| ==> log[i].e.now <= log[j].e.now)
  }

  /** A time after every entry of the log. */
  const END: int := U32

  /**
   * Whatever was paid, plus what is still owed, was undelegated; and what is still owed was last added to
   * at the time the row shows.
   */
  ghost predicate Accounted(n: nat, w: World, log: seq<Entry>, owner: Account)
    requires n >= 1
  {
    var q := Run(n, w, log).stakes.refunds;
    && Paid(n, w, log, owner, END) + Owed(q, owner) <= Undelegated(n, w, log, owner, END)
    && (owner in q ==>
          q[owner].time + REFUND_DELAY < U32 &&
          Undelegated(n, w, log, owner, q[owner].time) == Undelegated(n, w, log, owner, END))
  }

  /** The step that the last entry of a log takes, successful or not, on the refund row. */
  lemma LastRow(n: nat, w: World, log: seq<Entry>, cap: int, owner: Account)
    requires n >= 1 && Kernel(w, cap) && owner != EOSIO_STAKE && log != []
    ensures var k := |log| - 1;
      var w1 := Run(n, w, log[..k]);
      RowStep(w1, Run(n, w, log), log[k].e.now, owner,
              UndelegatedNow(n, w1, log[k], owner), PaidNow(n, w1, log[k], owner))
  {
    hide Step, AuctionSound, BookInRange, Sound;
    var k := |log| - 1;
    RunKeepsKernel(n, w, log[..k], cap);
    var w1 := Run(n, w, log[..k]);
    if Step(n, w1, log[k].e, log[k].a).Ok? {
      StepRow(n, w1, log[k], cap, owner);
    }
  }

  /** Nothing was undelegated after the last entry. */
  lemma {:induction false} AllUndelegatedBy(n: nat, w: World, log: seq<Entry>, owner: Account, t: int)
    requires n >= 1 && t <= END
    requires forall i :: 0 <= i < |log| ==> log[i].e.now <= t
    ensures Undelegated(n, w, log, owner, t) == Undelegated(n, w, log, owner, END)
    decreases |log|
  {
    hide UndelegatedNow, Run;
    if log != [] {
      AllUndelegatedBy(n, w, log[..|log| - 1], owner, t);
    }
  }

  lemma {:induction false} UndelegatedGrows(n: nat, w: World, log: seq<Entry>, cap: int, owner: Account,
                                            t: int, t': int)
    requires n >= 1 && t <= t' && Kernel(w, cap) && owner != EOSIO_STAKE
    ensures Undelegated(n, w, log, owner, t) <= Undelegated(n, w, log, owner, t')
    decreases |log|
  {
    hide UndelegatedNow, PaidNow, Run, Kernel;
    if log != [] {
      UndelegatedGrows(n, w, log[..|log| - 1], cap, owner, t, t');
      LastRow(n, w, log, cap, owner);
    }
  }

  lemma {:induction false} AllAccounted(n: nat, w: World, log: seq<Entry>, cap: int, owner: Account)
    requires n >= 1 && Kernel(w, cap) && owner != EOSIO_STAKE && owner !in w.stakes.refunds
    requires Clocked(log)
    ensures Accounted(n, w, log, owner)
    decreases |log|
  {
    hide UndelegatedNow, PaidNow, Run, Kernel;
    if log == [] {
      assert Run(n, w, log) == w by { RunNothing(n, w); }
    } else {
      var k := |log| - 1;
      AllAccounted(n, w, log[..k], cap, owner);
      LastRow(n, w, log, cap, owner);
      var u := UndelegatedNow(n, Run(n, w, log[..k]), log[k], owner);
      if u > 0 {
        AllUndelegatedBy(n, w, log, owner, log[k].e.now);
      }
    }
  }

  lemma RunNothing(n: nat, w: World)
    requires n >= 1
    ensures Run(n, w, []) == w
  {
  }

  /**
   * For every account, every run from a state where it awaits no refund, and every time t: what it was
   * paid by t it had undelegated by t minus the delay.
   */
  lemma {:induction false} RefundsWait(n: nat, w: World, log: seq<Entry>, cap: int, owner: Account, t: int)
    requires n >= 1 && Kernel(w, cap) && owner != EOSIO_STAKE && owner !in w.stakes.refunds
    requires Clocked(log)
    ensures Paid(n, w, log, owner, t) <= Undelegated(n, w, log, owner, t - REFUND_DELAY)
    decreases |log|
  {
    hide UndelegatedNow, Run, Kernel;
    if log != [] {
      var k := |log| - 1;
      RefundsWait(n, w, log[..k], cap, owner, t);
      LastRow(n, w, log, cap, owner);
      var w1 := Run(n, w, log[..k]);
      if PaidNow(n, w1, log[k], owner) > 0 && log[k].e.now <= t {
        AllAccounted(n, w, log[..k], cap, owner);
        var q := w1.stakes.refunds[owner];
        PaidWhenDue(n, w1, log[k], owner);
        UndelegatedGrows(n, w, log[..k], cap, owner, q.time, t - REFUND_DELAY);
        PaidGrows(n, w, log[..k], cap, owner, t);
      }
    }
  }

  lemma PaidWhenDue(n: nat, w: World, x: Entry, owner: Account)
    requires n >= 1 && PaidNow(n, w, x, owner) > 0
    ensures owner in w.stakes.refunds && Due(w.stakes.refunds[owner], x.e.now)
  {
  }

  lemma {:induction false} PaidGrows(n: nat, w: World, log: seq<Entry>, cap: int, owner: Account, t: int)
    requires n >= 1 && Kernel(w, cap) && owner != EOSIO_STAKE
    requires forall i :: 0 <= i < |log| ==> log[i].e.now <= END
    ensures Paid(n, w, log, owner, t) <= Paid(n, w, log, owner, END)
    decreases |log|
  {
    hide UndelegatedNow, PaidNow, Run, Kernel;
    if log != [] {
      PaidGrows(n, w, log[..|log| - 1], cap, owner, t);
      LastRow(n, w, log, cap, owner);
    }
  }
}
