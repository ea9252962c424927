/** Names, amounts and block inputs shared by every contract of the model. */
module Base {

  datatype Option<+T> = None | Some(value: T)

  /** The outcome of an action: an `eosio_assert` failure reverts the whole transaction. */
  datatype Result<+T> = Ok(value: T) | Err {
    predicate IsFailure() { Err? }

    function PropagateFailure<U>(): Result<U>
      requires Err?
    {
      Err
    }

    function Extract(): T
      requires Ok?
    {
      value
    }
  }

  /** A method's report and final state agree with what the specification computes. */
  ghost predicate Delivers<T(!new)>(ok: bool, final: T, spec: Result<T>) {
    ok == spec.Ok? && (ok ==> final == spec.value)
  }

  // ---------- machine integers ----------

  const U32: int := 0x1_0000_0000
  const U64: int := 0x1_0000_0000_0000_0000
  const I63: int := 0x8000_0000_0000_0000

  type Int64 = x: int | -I63 <= x < I63

  /** The value an exact integer takes in a signed 64-bit register. */
  function Wrap64(x: int): (r: int)
    ensures -I63 <= r < I63
    ensures -I63 <= x < I63 ==> r == x
  {
    (x + I63) % U64 - I63
  }

  function Abs(x: int): int { if x < 0 then -x else x }

  function Max(x: int, y: int): int { if x < y then y else x }

  /** Division that truncates toward zero, as in C++. */
  function TruncDiv(x: int, y: int): int
    requires y > 0
  {
    if x < 0 then -(-x / y) else x / y
  }

  // ---------- assets ----------

  const MAX_AMOUNT: int := 0x3FFF_FFFF_FFFF_FFFF

  predicate InRange(x: int) { -MAX_AMOUNT <= x <= MAX_AMOUNT }

  /** `asset::operator+=`: add in 64 bits, then insist on the asset range. */
  function Plus(x: int, y: int): (r: Result<int>)
    ensures InRange(x) && InRange(y) ==> r == if InRange(x + y) then Ok(x + y) else Err
  {
    var s := x + y;
    var wrapped := if s >= I63 then s - U64 else if s < -I63 then s + U64 else s;
    if InRange(wrapped) then Ok(wrapped) else Err
  }

  /** For any two non-negative 64-bit amounts, a positive checked sum is the true sum. */
  lemma PlusIsExact(x: Int64, y: Int64)
    requires x >= 0 && y >= 0
    ensures (Plus(x, y).Ok? && Plus(x, y).value > 0) <==> 0 < x + y <= MAX_AMOUNT
    ensures 0 < x + y <= MAX_AMOUNT ==> Plus(x, y) == Ok(x + y)
  {
  }

  /** A symbol's letters are packed one per byte, first letter lowest, without the precision byte. */
  datatype Symbol = Symbol(code: nat, precision: nat)

  /** Upper-case letters only, and nothing but zero bytes above the last one. */
  predicate Letters(code: nat) {
    0x41 <= code % 256 <= 0x5A && (code / 256 == 0 || Letters(code / 256))
  }

  predicate ValidSymbol(s: Symbol) {
    s.code < 0x100_0000_0000_0000 && Letters(s.code)
  }

  /** The code of a word, first letter lowest. */
  function Spelled(word: seq<nat>): nat {
    if word == [] then 0 else word[0] + 256 * Spelled(word[1..])
  }

  predicate IsWord(word: seq<nat>) {
    word != [] && forall i :: 0 <= i < |word| ==> 0x41 <= word[i] <= 0x5A
  }

  lemma {:induction false} WordsAreLetters(word: seq<nat>)
    requires IsWord(word)
    ensures Letters(Spelled(word)) && Spelled(word) > 0
  {
    if |word| > 1 {
      WordsAreLetters(word[1..]);
    }
  }

  lemma {:induction false} LettersAreAWord(code: nat) returns (word: seq<nat>)
    requires Letters(code)
    ensures IsWord(word) && Spelled(word) == code
    decreases code
  {
    word := [code % 256];
    if code / 256 > 0 {
      var rest := LettersAreAWord(code / 256);
      word := [code % 256] + rest;
    }
  }

  /** The codes that pass are exactly those that spell a word in capitals. */
  lemma LettersSpell(code: nat)
    ensures Letters(code) <==> exists word :: IsWord(word) && Spelled(word) == code
  {
    if Letters(code) {
      var word := LettersAreAWord(code);
    }
    forall word | IsWord(word) && Spelled(word) == code ensures Letters(code) {
      WordsAreLetters(word);
    }
  }

  datatype Asset = Asset(amount: int, symbol: Symbol)

  predicate ValidAsset(a: Asset) { InRange(a.amount) && ValidSymbol(a.symbol) }

  const CORE: Symbol := Symbol(0x415459, 4)              // YTA, four decimals
  const RAM: Symbol := Symbol(0x4D4152, 0)                // RAM
  const RAMCORE: Symbol := Symbol(0x45524F434D4152, 4)    // RAMCORE

  // ---------- accounts ----------

  /** An account name is a 64-bit code; the constants are the base-32 codes of the names. */
  type Account = x: nat | x < 0x1_0000_0000_0000_0000

  const EOSIO: Account := 0x5530ea0000000000         // eosio
  const EOSIO_STAKE: Account := 0x5530ea0319341400   // eosio.stake
  const EOSIO_RAM: Account := 0x5530ea02e6900000     // eosio.ram
  const EOSIO_RAMFEE: Account := 0x5530ea02e692d4a0  // eosio.ramfee
  const EOSIO_NAMES: Account := 0x5530ea026692b000   // eosio.names
  const HDDBASEFOUND: Account := 0x6a5273614ba6a690  // hddbasefound
  const FUND_SYS: Account := 0x5ea69063d8000000      // fund.sys
  const STORE_SYS: Account := 0xc66975031ec00000     // store.sys
  const YTAPRO_MAP: Account := 0xf64d5bd012354000    // ytapro.map
  const CHANNEL_SYS: Account := 0x434d39aa20c7b000   // channel.sys
  const YOTTAFORFEIT: Account := 0xf533932e975a9d90  // yottaforfeit
  const FORFEIT_SYS: Account := 0x5d2eb53b20c7b000   // forfeit.sys
  const GAS_SYS: Account := 0x61b00c7b00000000       // gas.sys
  const NODE_SYS: Account := 0x9d12a063d8000000      // node.sys
  const NULL_SYS: Account := 0x9ea31063d8000000      // null.sys
  const HDDPOOL: Account := 0x6a535a522110c850       // hddpool12345
  const HDDDEPOSIT: Account := 0x6a52955698764220    // hdddeposit12
  const HDDLOCK: Account := 0x6a531a220110c850       // hddlock12345

  // ---------- what a transaction reads from outside the modelled tables ----------

  /**
   * Clocks, the account registry and the tables of the deposit, lock and pool contracts,
   * as one transaction sees them. `now` is in seconds, `time` in microseconds.
   */
  datatype Env = Env(
    now: nat,
    time: nat,
    slot: nat,
    isAccount: Account -> bool,
    deposit: Account -> nat,
    lock: Account -> nat,
    frozen: Account -> bool,
    ytaPrice: nat,
    usdPrice: nat)
}
