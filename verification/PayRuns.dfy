/** What producers' pay adds to the supply, over any run of the whole economy. */
module PayRuns {
  import opened Base
  import opened Ledgers
  import opened Ram
  import opened Staking
  import opened Auction
  import opened ProducerPay
  import opened Channel
  import opened Economy

  /** A call of rewardprods that is past its early exits. */
  predicate IsPay(w: World, a: Action) {
    a.PayAct? && a.p.PayProducers? && a.p.top != [] && w.pay.lastFill != 0
  }

  predicate PaysNow(n: nat, w: World, x: Entry)
    requires n >= 1
  {
    IsPay(w, x.a) && Step(n, w, x.e, x.a).Ok?
  }

  /** How many such calls of a run succeed. */
  function Calls(n: nat, w: World, log: seq<Entry>): nat
    requires n >= 1
  {
    if log == [] then 0
    else
      var k := |log| - 1;
      Calls(n, w, log[..k]) + if PaysNow(n, Run(n, w, log[..k]), log[k]) then 1 else 0
  }

  /** By how much they raise the core supply. */
  function Minted(n: nat, w: World, log: seq<Entry>): int
    requires n >= 1
  {
    if log == [] then 0
    else
      var k := |log| - 1;
      var w1 := Run(n, w, log[..k]);
      Minted(n, w, log[..k]) +
      if PaysNow(n, w1, log[k]) then CoreSupply(Apply(n, w1, log[k]).ledger) - CoreSupply(w1.ledger) else 0
  }

  /** The budget of the year for the time since the last fill, times the length of a year. */
  function DueNow(w: World, e: Env): nat {
    if InSchedule(e.now) then YearlyBudget(e.now) * ((e.time - w.pay.lastFill) % U64) else 0
  }

  function Due(n: nat, w: World, log: seq<Entry>): nat
    requires n >= 1
  {
    if log == [] then 0
    else
      var k := |log| - 1;
      var w1 := Run(n, w, log[..k]);
      Due(n, w, log[..k]) + if PaysNow(n, w1, log[k]) then DueNow(w1, log[k].e) else 0
  }

  // ---------- one step ----------

  /** A call that pays mints what is due, rounded down, and restarts the clock. */
  lemma PayStepMints(n: nat, w: World, x: Entry, cap: int)
    requires n >= 1 && Kernel(w, cap) && PaysNow(n, w, x)
    ensures var w' := Apply(n, w, x);
      var minted := CoreSupply(w'.ledger) - CoreSupply(w.ledger);
      && InSchedule(x.e.now)
      && minted * USECONDS_PER_YEAR <= DueNow(w, x.e) < (minted + 1) * USECONDS_PER_YEAR
      && w'.pay.lastFill == if (x.e.time - w.pay.lastFill) % U64 == 0 then w.pay.lastFill else x.e.time
  {
    hide Sound, BookInRange, TablesAgree, AuctionSound, RewardProds, NewTokens;
    RewardProdsEffect(w.ledger, w.pay, x.e, x.a.p.top, x.a.p.rest);
    Rate(x.e.now, (x.e.time - w.pay.lastFill) % U64);
  }

  /** Once pay has started, nothing else touches its clock. */
  lemma ClockAside(n: nat, w: World, x: Entry)
    requires n >= 1 && w.pay.lastFill > 0 && !PaysNow(n, w, x)
    ensures Apply(n, w, x).pay.lastFill == w.pay.lastFill
  {
    hide TokenStep, RamStep, StakeStep, NameStep, ChannelStep, Fill, PayAll;
    if Step(n, w, x.e, x.a).Ok? && !x.a.PayAct? {
      PayAside(n, w, x.e, x.a);
    }
  }

  lemma PayAside(n: nat, w: World, e: Env, a: Action)
    requires n >= 1 && !a.PayAct? && Step(n, w, e, a).Ok?
    ensures Step(n, w, e, a).value.pay == w.pay
  {
  }

  // ---------- runs ----------

  /** How often startreward succeeds. */
  function Starts(n: nat, w: World, log: seq<Entry>): nat
    requires n >= 1
  {
    if log == [] then 0
    else
      var k := |log| - 1;
      var x := log[k];
      Starts(n, w, log[..k])
      + if x.a.PayAct? && x.a.p.StartPay? && Step(n, Run(n, w, log[..k]), x.e, x.a).Ok? then 1 else 0
  }

  /** Pay starts with 21 first-level and 42 second-level producers, and only if it has not; then its clock runs. */
  lemma StartStep(n: nat, w: World, x: Entry)
    requires n >= 1 && x.a.PayAct? && x.a.p.StartPay?
    ensures Step(n, w, x.e, x.a).Ok? <==> w.pay.lastFill == 0 && x.a.p.tops >= 21 && x.a.p.rests >= 42
    ensures Step(n, w, x.e, x.a).Ok? ==> Apply(n, w, x) == w.(pay := w.pay.(lastFill := x.e.time))
  {
  }

  /** So in any run of non-zero clocks it starts once if it ever does, and never after it has started. */
  lemma {:induction false} StartsOnce(n: nat, w: World, log: seq<Entry>, cap: int)
    requires n >= 1 && Kernel(w, cap) && forall i :: 0 <= i < |log| ==> log[i].e.time > 0
    ensures Starts(n, w, log) == if w.pay.lastFill == 0 && Run(n, w, log).pay.lastFill > 0 then 1 else 0
    ensures w.pay.lastFill > 0 ==> Run(n, w, log).pay.lastFill > 0
    decreases |log|
  {
    hide Kernel, Apply, Step;
    if log != [] {
      var k := |log| - 1;
      StartsOnce(n, w, log[..k], cap);
      RunKeepsKernel(n, w, log[..k], cap);
      ClockStep(n, Run(n, w, log[..k]), log[k], cap);
    }
  }

  lemma ClockStep(n: nat, w: World, x: Entry, cap: int)
    requires n >= 1 && Kernel(w, cap) && x.e.time > 0
    ensures var started := x.a.PayAct? && x.a.p.StartPay? && Step(n, w, x.e, x.a).Ok?;
      Apply(n, w, x).pay.lastFill > 0 <==> started || w.pay.lastFill > 0
    ensures x.a.PayAct? && x.a.p.StartPay? && w.pay.lastFill > 0 ==> !Step(n, w, x.e, x.a).Ok?
  {
    hide Kernel, TokenStep, RamStep, StakeStep, NameStep, ChannelStep, Fill, PayAll;
    if w.pay.lastFill > 0 {
      if PaysNow(n, w, x) {
        PayStepMints(n, w, x, cap);
      } else {
        ClockAside(n, w, x);
      }
    } else if Step(n, w, x.e, x.a).Ok? && !x.a.PayAct? {
      PayAside(n, w, x.e, x.a);
    }
  }

  /**
   * Over any run at all, whatever else happens in it, producers' pay mints what was due at its calls, and less
   * than one unit per call less.
   */
  lemma {:induction false} MintsWhatIsDue(n: nat, w: World, log: seq<Entry>, cap: int)
    requires n >= 1 && Kernel(w, cap)
    ensures var minted, calls := Minted(n, w, log), Calls(n, w, log);
      && minted * USECONDS_PER_YEAR <= Due(n, w, log)
      && (if calls == 0 then minted == Due(n, w, log) == 0 else Due(n, w, log) < (minted + calls) * USECONDS_PER_YEAR)
    decreases |log|
  {
    hide Kernel, PaysNow, DueNow, Apply;
    if log != [] {
      var k := |log| - 1;
      MintsWhatIsDue(n, w, log[..k], cap);
      RunKeepsKernel(n, w, log[..k], cap);
      var w1 := Run(n, w, log[..k]);
      if PaysNow(n, w1, log[k]) {
        PayStepMints(n, w1, log[k], cap);
      }
    }
  }

  predicate PayEntry(x: Entry) { x.a.PayAct? && x.a.p.PayProducers? }

  /** The yearly budget in units. */
  function Budget(year: int): nat
    requires 0 <= year < |SEO_YEAR|
  {
    SEO_YEAR[year] * SEO_BASE * PRECISION
  }

  /** The calls of a log fall into one schedule year, on a clock that does not run backwards. */
  ghost predicate OneYear(from: nat, log: seq<Entry>, year: int) {
    && (forall i :: 0 <= i < |log| && PayEntry(log[i]) ==>
          YearIndex(log[i].e.now) == year && from <= log[i].e.time < U64)
    && (forall i, j :: 0 <= i < j < |log| && PayEntry(log[i]) && PayEntry(log[j]) ==>
          log[i].e.time <= log[j].e.time)
  }

  /** The clock of the last fill stays between where it started and any time no call is later than. */
  lemma {:induction false} ClockBounds(n: nat, w: World, log: seq<Entry>, cap: int, year: int, t: nat)
    requires n >= 1 && Kernel(w, cap) && 0 < w.pay.lastFill <= t && OneYear(w.pay.lastFill, log, year)
    requires forall i :: 0 <= i < |log| && PayEntry(log[i]) ==> log[i].e.time <= t
    ensures w.pay.lastFill <= Run(n, w, log).pay.lastFill <= t
    decreases |log|
  {
    hide Kernel, Apply;
    if log != [] {
      var k := |log| - 1;
      ClockBounds(n, w, log[..k], cap, year, t);
      RunKeepsKernel(n, w, log[..k], cap);
      var w1 := Run(n, w, log[..k]);
      if PaysNow(n, w1, log[k]) {
        PayStepMints(n, w1, log[k], cap);
      } else {
        ClockAside(n, w1, log[k]);
      }
    }
  }

  /** Within a year what is due at the calls adds up to the budget for the time between first and last fill. */
  lemma {:induction false} DueTelescopes(n: nat, w: World, log: seq<Entry>, cap: int, year: int)
    requires n >= 1 && Kernel(w, cap) && w.pay.lastFill > 0
    requires 0 <= year < |SEO_YEAR| && OneYear(w.pay.lastFill, log, year)
    ensures Due(n, w, log) ==
      Budget(year) * (Run(n, w, log).pay.lastFill - w.pay.lastFill)
    decreases |log|
  {
    hide Kernel, Apply, PaysNow, DueNow, Budget;
    if log != [] {
      var k := |log| - 1;
      DueTelescopes(n, w, log[..k], cap, year);
      RunKeepsKernel(n, w, log[..k], cap);
      var w1 := Run(n, w, log[..k]);
      if PaysNow(n, w1, log[k]) {
        IsPayEntry(n, w1, log[k]);
        ClockBounds(n, w, log[..k], cap, year, log[k].e.time);
        DueThen(n, w1, log[k], cap, year);
        Telescope(Budget(year), w.pay.lastFill, w1.pay.lastFill, log[k].e.time);
      } else {
        ClockBounds(n, w, log[..k], cap, year, LatestOf(w.pay.lastFill, log[..k]));
        ClockAside(n, w1, log[k]);
      }
    }
  }

  lemma DueThen(n: nat, w: World, x: Entry, cap: int, year: int)
    requires n >= 1 && Kernel(w, cap) && PaysNow(n, w, x)
    requires 0 <= year < |SEO_YEAR| && YearIndex(x.e.now) == year && w.pay.lastFill <= x.e.time < U64
    ensures DueNow(w, x.e) == Budget(year) * (x.e.time - w.pay.lastFill)
    ensures Apply(n, w, x).pay.lastFill == x.e.time
  {
    hide Kernel, PaysNow, Apply;
    PayStepMints(n, w, x, cap);
  }

  lemma IsPayEntry(n: nat, w: World, x: Entry)
    requires n >= 1 && PaysNow(n, w, x)
    ensures PayEntry(x)
  {
  }

  lemma Telescope(y: int, a: int, b: int, c: int)
    ensures y * (c - a) == y * (b - a) + y * (c - b)
  {
  }

  /** A time no call of the log is later than. */
  function LatestOf(t: nat, log: seq<Entry>): (m: nat)
    ensures m >= t && forall i :: 0 <= i < |log| && PayEntry(log[i]) ==> log[i].e.time <= m
  {
    if log == [] then t
    else
      var m := LatestOf(t, log[..|log| - 1]);
      if PayEntry(log[|log| - 1]) && log[|log| - 1].e.time > m then log[|log| - 1].e.time else m
  }

  /**
   * The inflation cap: in any run whose pay calls fall into one schedule year, however they interleave with
   * other transactions and whether or not they succeed, pay mints at most the yearly budget for the time
   * covered, and less than one unit per successful call less.
   */
  lemma InflationCap(n: nat, w: World, log: seq<Entry>, cap: int, year: int)
    requires n >= 1 && Kernel(w, cap) && w.pay.lastFill > 0
    requires 0 <= year < |SEO_YEAR| && OneYear(w.pay.lastFill, log, year)
    ensures var minted, calls := Minted(n, w, log), Calls(n, w, log);
      var due := Budget(year) * (Run(n, w, log).pay.lastFill - w.pay.lastFill);
      && minted * USECONDS_PER_YEAR <= due
      && (calls > 0 ==> due < (minted + calls) * USECONDS_PER_YEAR)
      && (calls == 0 ==> minted == due == 0)
  {
    hide Kernel, Run, Minted, Calls, Due;
    MintsWhatIsDue(n, w, log, cap);
    DueTelescopes(n, w, log, cap, year);
  }
}
