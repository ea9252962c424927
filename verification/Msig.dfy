/** The eosio.msig contract: proposals gather approvals and are sent once. */
module Msig {
  import opened Base

  datatype Level = Level(actor: Account, permission: nat)

  /** A packed transaction, of which only the expiration is looked at. */
  datatype Trx = Trx(payload: nat, expiration: nat)

  datatype Approvals = Approvals(requested: seq<Level>, provided: seq<Level>)

  /** Proposals are kept per proposer and name. */
  type Key = (Account, nat)

  /** A transaction handed to the chain, and the proposal it came from. */
  datatype Sent = Sent(key: Key, trx: Trx)

  datatype MsigState = MsigState(proposals: map<Key, Trx>, approvals: map<Key, Approvals>, sent: seq<Sent>)

  /** The clock, and whether a set of approvals authorises a transaction. */
  datatype MsigEnv = MsigEnv(now: nat, authorises: (seq<Level>, Trx) -> bool)

  datatype MsigAction =
    | Propose(key: Key, requested: seq<Level>, trx: Trx)
    | Approve(approved: Key, level: Level)
    | Unapprove(unapproved: Key, withdrawn: Level)
    | Cancel(cancelled: Key, canceler: Account)
    | Exec(executed: Key)

  /** The list without its first `x`. */
  function RemoveFirst(s: seq<Level>, x: Level): seq<Level>
    requires x in s
  {
    if s[0] == x then s[1..] else [s[0]] + RemoveFirst(s[1..], x)
  }

  function Erase(m: MsigState, k: Key): MsigState {
    m.(proposals := m.proposals - {k}, approvals := m.approvals - {k})
  }

  function MsigStep(m: MsigState, e: MsigEnv, a: MsigAction): Result<MsigState> {
    match a
    case Propose(k, requested, trx) =>
      if trx.expiration < e.now || k in m.proposals || !e.authorises(requested, trx) || k in m.approvals then Err
      else Ok(m.(proposals := m.proposals[k := trx], approvals := m.approvals[k := Approvals(requested, [])]))
    case Approve(k, level) =>
      if k !in m.approvals || level !in m.approvals[k].requested then Err
      else
        var r := m.approvals[k];
        Ok(m.(approvals := m.approvals[k := Approvals(RemoveFirst(r.requested, level), r.provided + [level])]))
    case Unapprove(k, level) =>
      if k !in m.approvals || level !in m.approvals[k].provided then Err
      else
        var r := m.approvals[k];
        Ok(m.(approvals := m.approvals[k := Approvals(r.requested + [level], RemoveFirst(r.provided, level))]))
    case Cancel(k, canceler) =>
      if k !in m.proposals || k !in m.approvals || (canceler != k.0 && m.proposals[k].expiration >= e.now) then Err
      else Ok(Erase(m, k))
    case Exec(k) =>
      if k !in m.proposals || k !in m.approvals || m.proposals[k].expiration < e.now then Err
      else if !e.authorises(m.approvals[k].provided, m.proposals[k]) then Err
      else Ok(Erase(m, k).(sent := m.sent + [Sent(k, m.proposals[k])]))
  }

  // ---------- one step ----------

  lemma {:induction false} RemovesOne(s: seq<Level>, x: Level)
    requires x in s
    ensures multiset(RemoveFirst(s, x)) == multiset(s) - multiset{x}
  {
    assert s == [s[0]] + s[1..];
    if s[0] != x {
      RemovesOne(s[1..], x);
    }
  }

  /** All approvals a proposal was ever asked for, given or not. */
  ghost function Asked(r: Approvals): multiset<Level> { multiset(r.requested) + multiset(r.provided) }

  /** Withdrawing an approval just given puts both lists back, up to order. */
  lemma UnapproveUndoesApprove(m: MsigState, e: MsigEnv, e': MsigEnv, k: Key, level: Level)
    requires MsigStep(m, e, Approve(k, level)).Ok?
    ensures var m1 := MsigStep(m, e, Approve(k, level)).value;
      MsigStep(m1, e', Unapprove(k, level)).Ok? &&
      var m2 := MsigStep(m1, e', Unapprove(k, level)).value;
      && m2.proposals == m.proposals && m2.sent == m.sent && m2.approvals.Keys == m.approvals.Keys
      && (forall j :: j in m.approvals && j != k ==> m2.approvals[j] == m.approvals[j])
      && multiset(m2.approvals[k].requested) == multiset(m.approvals[k].requested)
      && multiset(m2.approvals[k].provided) == multiset(m.approvals[k].provided)
  {
    var r := m.approvals[k];
    RemovesOne(r.requested, level);
    RemovesOne(r.provided + [level], level);
  }

  /** Outside of proposing, a row that stays keeps exactly what it asked for. */
  lemma StepKeepsAsked(m: MsigState, e: MsigEnv, a: MsigAction, k: Key)
    requires MsigStep(m, e, a).Ok? && k in MsigStep(m, e, a).value.approvals
    ensures var m' := MsigStep(m, e, a).value;
      if a.Propose? && a.key == k then k !in m.approvals && Asked(m'.approvals[k]) == multiset(a.requested)
      else k in m.approvals && Asked(m'.approvals[k]) == Asked(m.approvals[k])
  {
    hide RemoveFirst, Asked;
    match a {
      case Propose(_, requested, _) => AskedAtFirst(requested);
      case Approve(j, level) => Given(m.approvals[j], level);
      case Unapprove(j, level) => Withdrawn(m.approvals[j], level);
      case _ =>
    }
  }

  lemma AskedAtFirst(requested: seq<Level>)
    ensures Asked(Approvals(requested, [])) == multiset(requested)
  {
  }

  lemma Given(r: Approvals, level: Level)
    requires level in r.requested
    ensures Asked(Approvals(RemoveFirst(r.requested, level), r.provided + [level])) == Asked(r)
  {
    RemovesOne(r.requested, level);
  }

  lemma Withdrawn(r: Approvals, level: Level)
    requires level in r.provided
    ensures Asked(Approvals(r.requested + [level], RemoveFirst(r.provided, level))) == Asked(r)
  {
    RemovesOne(r.provided, level);
  }

  // ---------- runs ----------

  datatype MsigEntry = MsigEntry(e: MsigEnv, a: MsigAction)

  const EMPTY: MsigState := MsigState(map[], map[], [])

  function MsigRun(log: seq<MsigEntry>): MsigState {
    if log == [] then EMPTY
    else
      var m := MsigRun(log[..|log| - 1]);
      var r := MsigStep(m, log[|log| - 1].e, log[|log| - 1].a);
      if r.Ok? then r.value else m
  }

  /** The last entry took effect. */
  predicate Succeeds(log: seq<MsigEntry>)
    requires log != []
  {
    MsigStep(MsigRun(log[..|log| - 1]), log[|log| - 1].e, log[|log| - 1].a).Ok?
  }

  /** What the latest accepted proposal under `k` asked for. */
  function LastAsked(log: seq<MsigEntry>, k: Key): seq<Level> {
    if log == [] then []
    else
      var a := log[|log| - 1].a;
      if a.Propose? && a.key == k && Succeeds(log) then a.requested else LastAsked(log[..|log| - 1], k)
  }

  function Proposed(log: seq<MsigEntry>, k: Key): nat {
    if log == [] then 0
    else
      var a := log[|log| - 1].a;
      Proposed(log[..|log| - 1], k) + if a.Propose? && a.key == k && Succeeds(log) then 1 else 0
  }

  function Cancelled(log: seq<MsigEntry>, k: Key): nat {
    if log == [] then 0
    else
      var a := log[|log| - 1].a;
      Cancelled(log[..|log| - 1], k) + if a.Cancel? && a.cancelled == k && Succeeds(log) then 1 else 0
  }

  /** How often a proposal named `k` is among what was sent. */
  function SentCount(sent: seq<Sent>, k: Key): nat {
    if sent == [] then 0
    else SentCount(sent[..|sent| - 1], k) + if sent[|sent| - 1].key == k then 1 else 0
  }

  function TimesSent(log: seq<MsigEntry>, k: Key): nat { SentCount(MsigRun(log).sent, k) }

  lemma SentOneMore(sent: seq<Sent>, x: Sent, k: Key)
    ensures SentCount(sent + [x], k) == SentCount(sent, k) + if x.key == k then 1 else 0
  {
    assert (sent + [x])[..|sent|] == sent;
  }

  /** The transaction of the latest accepted proposal under `k`. */
  function LastTrx(log: seq<MsigEntry>, k: Key): Trx {
    if log == [] then Trx(0, 0)
    else
      var a := log[|log| - 1].a;
      if a.Propose? && a.key == k && Succeeds(log) then a.trx else LastTrx(log[..|log| - 1], k)
  }

  /** The approvals given and not withdrawn since that proposal. */
  function GivenSince(log: seq<MsigEntry>, k: Key): multiset<Level> {
    if log == [] then multiset{}
    else
      var before := GivenSince(log[..|log| - 1], k);
      if Succeeds(log) then GivenAfter(before, log[|log| - 1].a, k) else before
  }

  function GivenAfter(before: multiset<Level>, a: MsigAction, k: Key): multiset<Level> {
    match a
    case Propose(j, _, _) => if j == k then multiset{} else before
    case Approve(j, level) => if j == k then before + multiset{level} else before
    case Unapprove(j, level) => if j == k then before - multiset{level} else before
    case _ => before
  }

  /** In every reachable state proposals and approvals have the same rows. */
  lemma {:induction false} RowsCoincide(log: seq<MsigEntry>)
    ensures MsigRun(log).proposals.Keys == MsigRun(log).approvals.Keys
    decreases |log|
  {
    if log != [] {
      RowsCoincide(log[..|log| - 1]);
    }
  }

  /** In every reachable state the approvals asked for and given add up to those first requested. */
  lemma {:induction false} ApprovalsConserved(log: seq<MsigEntry>, k: Key)
    requires k in MsigRun(log).approvals
    ensures Asked(MsigRun(log).approvals[k]) == multiset(LastAsked(log, k))
    decreases |log|
  {
    if log != [] {
      var i := |log| - 1;
      if Succeeds(log) {
        StepKeepsAsked(MsigRun(log[..i]), log[i].e, log[i].a, k);
      }
      if k in MsigRun(log[..i]).approvals {
        ApprovalsConserved(log[..i], k);
      }
    }
  }

  /**
   * Every accepted proposal is still open, was cancelled, or was sent, and only one of these: none is ever
   * sent twice.
   */
  lemma {:induction false} SentAtMostOnce(log: seq<MsigEntry>, k: Key)
    ensures Proposed(log, k) == TimesSent(log, k) + Cancelled(log, k) + (if k in MsigRun(log).proposals then 1 else 0)
    decreases |log|
  {
    if log != [] {
      var i := |log| - 1;
      SentAtMostOnce(log[..i], k);
      RowsCoincide(log[..i]);
      var m := MsigRun(log[..i]);
      if log[i].a.Exec? && Succeeds(log) {
        SentOneMore(m.sent, Sent(log[i].a.executed, m.proposals[log[i].a.executed]), k);
      }
    }
  }

  /** In every reachable state an open proposal holds the transaction it was made with. */
  lemma {:induction false} TransactionKept(log: seq<MsigEntry>, k: Key)
    requires k in MsigRun(log).proposals
    ensures MsigRun(log).proposals[k] == LastTrx(log, k)
    decreases |log|
  {
    if log != [] {
      var i := |log| - 1;
      if k in MsigRun(log[..i]).proposals {
        TransactionKept(log[..i], k);
      }
    }
  }

  /** And has as provided exactly the approvals given since and not withdrawn. */
  lemma {:induction false} ProvidedIsGiven(log: seq<MsigEntry>, k: Key)
    requires k in MsigRun(log).approvals
    ensures multiset(MsigRun(log).approvals[k].provided) == GivenSince(log, k)
    decreases |log|
  {
    if log != [] {
      var i := |log| - 1;
      var m := MsigRun(log[..i]);
      if k in m.approvals {
        ProvidedIsGiven(log[..i], k);
        if Succeeds(log) {
          GivenStep(m, log[i].e, log[i].a, k);
        }
      }
    }
  }

  lemma GivenStep(m: MsigState, e: MsigEnv, a: MsigAction, k: Key)
    requires MsigStep(m, e, a).Ok? && k in m.approvals && k in MsigStep(m, e, a).value.approvals
    ensures multiset(MsigStep(m, e, a).value.approvals[k].provided) ==
      GivenAfter(multiset(m.approvals[k].provided), a, k)
  {
    hide RemoveFirst;
    if a.Unapprove? {
      RemovesOne(m.approvals[a.unapproved].provided, a.withdrawn);
    }
  }

  /** Proposed, and neither sent nor cancelled. */
  predicate Open(log: seq<MsigEntry>, k: Key) { Proposed(log, k) > TimesSent(log, k) + Cancelled(log, k) }

  /**
   * What each action needs, in terms of what happened before: proposing needs a name that is not open, an
   * unexpired transaction and levels that would authorise it; approving a level asked for and not given,
   * unapproving one given; cancelling by others than the proposer an expired transaction; executing an
   * unexpired one and consent.
   */
  predicate Called(log: seq<MsigEntry>, e: MsigEnv, a: MsigAction) {
    match a
    case Propose(k, requested, trx) => !Open(log, k) && trx.expiration >= e.now && e.authorises(requested, trx)
    case Approve(k, level) => Open(log, k) && level in multiset(LastAsked(log, k)) - GivenSince(log, k)
    case Unapprove(k, level) => Open(log, k) && level in GivenSince(log, k)
    case Cancel(k, canceler) => Open(log, k) && (canceler == k.0 || LastTrx(log, k).expiration < e.now)
    case Exec(k) =>
      && Open(log, k) && LastTrx(log, k).expiration >= e.now
      && k in MsigRun(log).approvals && e.authorises(MsigRun(log).approvals[k].provided, LastTrx(log, k))
  }

  /** After any history, the actions that succeed are exactly those. */
  lemma ActionsSucceed(log: seq<MsigEntry>, e: MsigEnv, a: MsigAction)
    ensures MsigStep(MsigRun(log), e, a).Ok? <==> Called(log, e, a)
  {
    hide MsigRun, LastAsked, GivenSince, LastTrx, RemoveFirst;
    var m := MsigRun(log);
    var k := KeyOf(a);
    SentAtMostOnce(log, k);
    RowsCoincide(log);
    assert Open(log, k) <==> k in m.proposals;
    assert k in m.proposals <==> k in m.approvals;
    if k in m.proposals {
      TransactionKept(log, k);
      ProvidedIsGiven(log, k);
      ApprovalsConserved(log, k);
    }
  }

  function KeyOf(a: MsigAction): Key {
    match a
    case Propose(k, _, _) => k
    case Approve(k, _) => k
    case Unapprove(k, _) => k
    case Cancel(k, _) => k
    case Exec(k) => k
  }

  /**
   * What is sent is the transaction that was proposed, authorised by approvals given since to requests of that
   * proposal; and nothing else is ever sent.
   */
  lemma SentWithConsent(log: seq<MsigEntry>, e: MsigEnv, a: MsigAction)
    requires MsigStep(MsigRun(log), e, a).Ok?
    ensures var m, m' := MsigRun(log), MsigStep(MsigRun(log), e, a).value;
      if !a.Exec? then m'.sent == m.sent
      else
        var k := a.executed;
        && m'.sent == m.sent + [Sent(k, LastTrx(log, k))]
        && k in m.approvals
        && e.authorises(m.approvals[k].provided, LastTrx(log, k))
        && multiset(m.approvals[k].provided) == GivenSince(log, k) <= multiset(LastAsked(log, k))
  {
    if a.Exec? {
      TransactionKept(log, a.executed);
      ProvidedIsGiven(log, a.executed);
      ApprovalsConserved(log, a.executed);
    }
  }

  // ---------- the contract ----------

  class Multisig {
    var proposals: map<Key, Trx>
    var approvals: map<Key, Approvals>
    ghost var sent: seq<Sent>  // what was handed to the chain

    ghost function State(): MsigState
      reads this
    {
      MsigState(proposals, approvals, sent)
    }

    constructor ()
      ensures State() == EMPTY
    {
      proposals, approvals, sent := map[], map[], [];
    }

    /** The first position of `x`, or the length. */
    static method Find(s: seq<Level>, x: Level) returns (i: nat)
      ensures i <= |s| && x !in s[..i]
      ensures i < |s| ==> s[i] == x
    {
      i := 0;
      while i < |s| && s[i] != x
        invariant i <= |s| && x !in s[..i]
      {
        i := i + 1;
      }
    }

    /** Erasing the first position found is removing the first occurrence. */
    static lemma {:induction false} EraseAt(s: seq<Level>, x: Level, i: nat)
      requires i < |s| && s[i] == x && x !in s[..i]
      ensures s[..i] + s[i + 1..] == RemoveFirst(s, x)
    {
      if i > 0 {
        assert s[0] == s[..i][0];
        assert s[1..][..i - 1] == s[1..i];
        EraseAt(s[1..], x, i - 1);
        assert s[..i] + s[i + 1..] == [s[0]] + (s[1..i] + s[1..][i..]);
      }
    }

    method DoPropose(e: MsigEnv, k: Key, requested: seq<Level>, trx: Trx) returns (ok: bool)
      modifies this
      ensures Delivers(ok, State(), MsigStep(old(State()), e, Propose(k, requested, trx)))
    {
      if trx.expiration < e.now || k in proposals || !e.authorises(requested, trx) {
        return false;
      }
      proposals := proposals[k := trx];
      if k in approvals {
        return false;
      }
      approvals := approvals[k := Approvals(requested, [])];
      return true;
    }

    method DoApprove(e: MsigEnv, k: Key, level: Level) returns (ok: bool)
      modifies this
      ensures Delivers(ok, State(), MsigStep(old(State()), e, Approve(k, level)))
    {
      if k !in approvals {
        return false;
      }
      var r := approvals[k];
      var i := Find(r.requested, level);
      if i == |r.requested| {
        assert r.requested[..i] == r.requested;
        return false;
      }
      EraseAt(r.requested, level, i);
      approvals := approvals[k := Approvals(r.requested[..i] + r.requested[i + 1..], r.provided + [level])];
      return true;
    }

    method DoUnapprove(e: MsigEnv, k: Key, level: Level) returns (ok: bool)
      modifies this
      ensures Delivers(ok, State(), MsigStep(old(State()), e, Unapprove(k, level)))
    {
      if k !in approvals {
        return false;
      }
      var r := approvals[k];
      var i := Find(r.provided, level);
      if i == |r.provided| {
        assert r.provided[..i] == r.provided;
        return false;
      }
      EraseAt(r.provided, level, i);
      approvals := approvals[k := Approvals(r.requested + [level], r.provided[..i] + r.provided[i + 1..])];
      return true;
    }

    method DoCancel(e: MsigEnv, k: Key, canceler: Account) returns (ok: bool)
      modifies this
      ensures Delivers(ok, State(), MsigStep(old(State()), e, Cancel(k, canceler)))
    {
      if k !in proposals {
        return false;
      }
      if canceler != k.0 && !(proposals[k].expiration < e.now) {
        return false;
      }
      if k !in approvals {
        return false;
      }
      proposals := proposals - {k};
      approvals := approvals - {k};
      return true;
    }

    method DoExec(e: MsigEnv, k: Key) returns (ok: bool)
      modifies this
      ensures Delivers(ok, State(), MsigStep(old(State()), e, Exec(k)))
    {
      if k !in proposals || k !in approvals || proposals[k].expiration < e.now {
        return false;
      }
      if !e.authorises(approvals[k].provided, proposals[k]) {
        return false;
      }
      sent := sent + [Sent(k, proposals[k])];
      proposals := proposals - {k};
      approvals := approvals - {k};
      return true;
    }
  }
}
