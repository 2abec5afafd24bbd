/** Header arithmetic: difficulty and gas limit of the next block, the checks of
    core/block_validator.go and the headers core/chain_makers.go produces. */
module Headers {
  import opened Wrappers

  type Hash = nat
  type Addr = nat

  const DIFFICULTY_BOUND_DIVISOR := 2048
  const DURATION_LIMIT := 13
  const MINIMUM_DIFFICULTY := 131072
  const EXP_DIFF_PERIOD := 100000
  const GAS_LIMIT_BOUND_DIVISOR := 1024
  const MIN_GAS_LIMIT := 5000
  const GENESIS_GAS_LIMIT := 3141592
  const MAXIMUM_EXTRA_DATA_SIZE := 32
  const TWO_64 := 0x1_0000_0000_0000_0000
  const MAX_BIG := 0xffff_ffff_ffff_ffff_ffff_ffff_ffff_ffff_ffff_ffff_ffff_ffff_ffff_ffff_ffff_ffff

  datatype Header = Header(hash: Hash, parent: Hash, number: nat, time: nat, difficulty: nat,
                           gasLimit: int, gasUsed: nat, extra: nat, coinbase: Addr)

  datatype HeaderError = ExtraTooLong | TimeTooBig | FutureBlock | TimeNotLater | WrongDifficulty
                       | WrongGasLimit | WrongNumber | BadNonce

  function Max(a: int, b: int): int {
    if a < b then b else a
  }

  function Min(a: int, b: int): int {
    if a < b then a else b
  }

  function Pow2(n: nat): nat {
    if n == 0 then 1 else 2 * Pow2(n - 1)
  }

  /** The exponential increment, from the second full period on. */
  function Bomb(parentNumber: nat): nat {
    var periods := (parentNumber + 1) / EXP_DIFF_PERIOD;
    if periods > 1 then Pow2(periods - 2) else 0
  }

  /** `CalcDifficulty`; times are 64-bit. */
  function CalcDifficulty(time: nat, parentTime: nat, parentNumber: nat, parentDiff: nat): (d: nat)
    ensures d >= MINIMUM_DIFFICULTY
  {
    var adjust := parentDiff / DIFFICULTY_BOUND_DIVISOR;
    var diff := if time - parentTime < DURATION_LIMIT then parentDiff + adjust else parentDiff - adjust;
    Max(diff, MINIMUM_DIFFICULTY) + Bomb(parentNumber)
  }

  function Uint64(n: nat): nat {
    n % TWO_64
  }

  /** `CalcGasLimit`. */
  function CalcGasLimit(parent: Header): int {
    var contrib := parent.gasUsed * 3 / 2 / GAS_LIMIT_BOUND_DIVISOR;
    var decay := parent.gasLimit / GAS_LIMIT_BOUND_DIVISOR - 1;
    var gl := Max(parent.gasLimit - decay + contrib, MIN_GAS_LIMIT);
    if gl < GENESIS_GAS_LIMIT then Min(parent.gasLimit + decay, GENESIS_GAS_LIMIT) else gl
  }

  /** `ValidateHeader`: the first check that fails. `pow` is the verdict of the
      proof of work when it is asked for. */
  function ValidateHeader(h: Header, parent: Header, checkPow: bool, pow: bool, uncle: bool, now: nat): Option<HeaderError> {
    if h.extra > MAXIMUM_EXTRA_DATA_SIZE then Some(ExtraTooLong)
    else if uncle && h.time > MAX_BIG then Some(TimeTooBig)
    else if !uncle && h.time > now then Some(FutureBlock)
    else if h.time <= parent.time then Some(TimeNotLater)
    else if CalcDifficulty(Uint64(h.time), Uint64(parent.time), parent.number, parent.difficulty) != h.difficulty
      then Some(WrongDifficulty)
    else if !GasLimitOk(h.gasLimit, parent.gasLimit) then Some(WrongGasLimit)
    else if h.number - parent.number != 1 then Some(WrongNumber)
    else if checkPow && !pow then Some(BadNonce)
    else None
  }

  function Abs(a: int): nat {
    if a < 0 then -a else a
  }

  predicate GasLimitOk(limit: int, parentLimit: int) {
    Abs(parentLimit - limit) < parentLimit / GAS_LIMIT_BOUND_DIVISOR && limit >= MIN_GAS_LIMIT
  }

  /** `makeHeader`: ten seconds later, nothing used yet. */
  function MakeHeader(parent: Header, hash: Hash): Header {
    var time := parent.time + 10;
    Header(hash, parent.hash, parent.number + 1, time,
           CalcDifficulty(Uint64(time), Uint64(time - 10), parent.number, parent.difficulty),
           CalcGasLimit(parent), 0, 0, parent.coinbase)
  }

  /** `OffsetTime`: moves the header's time, refusing one not after the parent's. */
  function OffsetTime(h: Header, parent: Header, seconds: int): Option<Header> {
    if h.time + seconds <= parent.time then None
    else
      var time: nat := h.time + seconds;
      Some(h.(time := time,
              difficulty := CalcDifficulty(Uint64(time), Uint64(parent.time), parent.number, parent.difficulty)))
  }

  // ---------- difficulty ----------

  /** A block that comes sooner, or after a heavier parent, is never easier. */
  lemma DifficultyMonotone(t: nat, t': nat, parentTime: nat, number: nat, diff: nat, diff': nat)
    requires t <= t' && diff <= diff'
    ensures CalcDifficulty(t, parentTime, number, diff) >= CalcDifficulty(t', parentTime, number, diff)
    ensures CalcDifficulty(t, parentTime, number, diff) <= CalcDifficulty(t, parentTime, number, diff')
  {
  }

  /** Before the exponential increment starts, the difficulty moves by one part in
      2048, rounded down: up for a block within the duration limit, down for a
      later one, where the minimum stops it. */
  lemma DifficultyDrift(t: nat, parentTime: nat, number: nat, diff: nat)
    requires number + 1 < 2 * EXP_DIFF_PERIOD
    ensures var d := CalcDifficulty(t, parentTime, number, diff);
            && (t < parentTime + 13 && d > 131072 ==> PartOf(d - diff, diff))
            && (t >= parentTime + 13 && d > 131072 ==> PartOf(diff - d, diff))
            && (d == 131072 ==> if t < parentTime + 13 then diff <= 131072 else diff <= 131136)
    ensures diff >= 131072 ==> (CalcDifficulty(t, parentTime, number, diff) > diff <==> t < parentTime + 13)
    ensures diff > 131072 ==> (CalcDifficulty(t, parentTime, number, diff) < diff <==> t >= parentTime + 13)
  {
  }

  /** `x` is the 2048th part of `diff`, rounded down. */
  predicate PartOf(x: int, diff: nat) {
    2048 * x <= diff < 2048 * x + 2048
  }

  lemma {:induction false} Doubling(n: nat)
    ensures Pow2(n) >= 1 && Pow2(n + 1) == 2 * Pow2(n)
  {
    if n > 0 {
      Doubling(n - 1);
    }
  }

  /** The exponential increment: nothing before block 200000, then one, and twice
      as much with every further 100000 blocks, on top of the difficulty that
      time and parent give. */
  lemma BombDoubles(t: nat, parentTime: nat, n: nat, diff: nat)
    ensures n < 199999 ==> Increment(t, parentTime, n, diff) == 0
    ensures 199999 <= n < 299999 ==> Increment(t, parentTime, n, diff) == 1
    ensures n >= 199999 ==> Increment(t, parentTime, n + 100000, diff) == 2 * Increment(t, parentTime, n, diff)
  {
    var periods := (n + 1) / EXP_DIFF_PERIOD;
    assert (n + EXP_DIFF_PERIOD + 1) / EXP_DIFF_PERIOD == periods + 1;
    if n >= 199999 {
      Doubling(periods - 2);
    }
  }

  /** By how much more difficult the block is for its number. */
  function Increment(t: nat, parentTime: nat, number: nat, diff: nat): int {
    CalcDifficulty(t, parentTime, number, diff) - CalcDifficulty(t, parentTime, 0, diff)
  }

  // ---------- gas limit ----------

  /** Above the target, a parent that used two thirds of its gas does not lower
      the limit, and one clearly below that does. */
  lemma GasLimitFollowsUsage(parent: Header)
    requires parent.gasLimit > GENESIS_GAS_LIMIT
    ensures 3 * parent.gasUsed >= 2 * parent.gasLimit ==> CalcGasLimit(parent) >= parent.gasLimit
    ensures 3 * parent.gasUsed + 4 * GAS_LIMIT_BOUND_DIVISOR <= 2 * parent.gasLimit ==>
            GENESIS_GAS_LIMIT <= CalcGasLimit(parent) < parent.gasLimit
  {
  }

  /** The miner's own gas limit passes the consensus check exactly when the
      parent's limit is at least 4997: below that one step of growth does not
      reach the minimum. */
  lemma GasLimitPasses(parent: Header)
    requires parent.gasUsed <= parent.gasLimit
    ensures GasLimitOk(CalcGasLimit(parent), parent.gasLimit) <==> parent.gasLimit >= 4997
  {
  }

  /** Below the target the limit grows by all the consensus check allows, up to the
      target, and used gas can carry it further; it never falls back below. */
  lemma GasLimitSeeksTarget(parent: Header)
    requires 2048 <= parent.gasLimit && parent.gasUsed <= parent.gasLimit
    ensures parent.gasLimit < 3141592 ==>
              || CalcGasLimit(parent) == parent.gasLimit + parent.gasLimit / 1024 - 1 < 3141592
              || (CalcGasLimit(parent) == 3141592 <= parent.gasLimit + parent.gasLimit / 1024 - 1)
              || (CalcGasLimit(parent) > 3141592 && 3 * parent.gasUsed > 2 * parent.gasLimit)
    ensures parent.gasLimit >= 3141592 ==> CalcGasLimit(parent) >= 3141592
  {
  }

  // ---------- accepted chains ----------

  /** Accepted against its parent at some time; `pow` is what the proof of work
      says of a header. */
  ghost predicate Follows(parent: Header, h: Header, checkPow: bool, pow: Header -> bool) {
    exists uncle, now: nat :: ValidateHeader(h, parent, checkPow, pow(h), uncle, now).None?
  }

  ghost predicate AcceptedChain(c: seq<Header>, checkPow: bool, pow: Header -> bool) {
    c != [] && forall i :: 0 <= i < |c| - 1 ==> Follows(c[i], c[i + 1], checkPow, pow)
  }

  function Power(base: nat, n: nat): (r: nat)
    ensures base > 0 ==> r > 0
  {
    if n == 0 then 1 else base * Power(base, n - 1)
  }

  /** One step moves the gas limit by less than a 1024th. */
  lemma LimitStep(parent: Header, h: Header, checkPow: bool, pow: Header -> bool)
    requires Follows(parent, h, checkPow, pow)
    ensures 1023 * parent.gasLimit <= 1024 * h.gasLimit <= 1025 * parent.gasLimit
  {
  }

  lemma BandStep(g0: int, g: int, g': int, p23: nat, p24: nat, p25: nat)
    requires p23 * g0 <= p24 * g <= p25 * g0 && 1023 * g <= 1024 * g' <= 1025 * g
    ensures (1023 * p23) * g0 <= (1024 * p24) * g' <= (1025 * p25) * g0
  {
    Scales(p24, 1023 * g, 1024 * g', 1025 * g);
    calc {
      (1023 * p23) * g0;
      1023 * (p23 * g0);
    <=
      1023 * (p24 * g);
      p24 * (1023 * g);
    <=
      p24 * (1024 * g');
      (1024 * p24) * g';
    }
    calc {
      (1024 * p24) * g';
      p24 * (1024 * g');
    <=
      p24 * (1025 * g);
      1025 * (p24 * g);
    <=
      1025 * (p25 * g0);
      (1025 * p25) * g0;
    }
  }

  lemma Scales(p: nat, x: int, y: int, z: int)
    requires x <= y <= z
    ensures p * x <= p * y <= p * z
  {
  }

  /** Along every accepted chain: numbers are consecutive, each block is later than
      the one before and carries its proof of work, difficulty and gas limit stay
      above their minima, and after n blocks the gas limit lies within the n-fold
      1024th band of the first. */
  lemma {:induction false} AcceptedChainDrift(c: seq<Header>, checkPow: bool, pow: Header -> bool, n: nat)
    requires AcceptedChain(c, checkPow, pow) && n < |c|
    ensures c[n].number == c[0].number + n && c[n].time >= c[0].time + n
    ensures n > 0 ==> c[n].difficulty >= MINIMUM_DIFFICULTY && c[n].gasLimit >= MIN_GAS_LIMIT && c[n].extra <= 32
    ensures n > 0 && checkPow ==> pow(c[n])
    ensures Power(1023, n) * c[0].gasLimit <= Power(1024, n) * c[n].gasLimit <= Power(1025, n) * c[0].gasLimit
  {
    if n > 0 {
      AcceptedChainDrift(c, checkPow, pow, n - 1);
      assert Follows(c[n - 1], c[n], checkPow, pow);
      LimitStep(c[n - 1], c[n], checkPow, pow);
      BandStep(c[0].gasLimit, c[n - 1].gasLimit, c[n].gasLimit, Power(1023, n - 1), Power(1024, n - 1), Power(1025, n - 1));
    }
  }

  /** Every block of the chain is at least the duration limit after the one before
      by the 64-bit clock the difficulty reads, and before the increment starts. */
  ghost predicate Slow(c: seq<Header>) {
    forall i :: 0 <= i < |c| - 1 ==> Uint64(c[i + 1].time) >= Uint64(c[i].time) + 13 && c[i].number < 199999
  }

  ghost predicate Fast(c: seq<Header>) {
    forall i :: 0 <= i < |c| - 1 ==> Uint64(c[i + 1].time) < Uint64(c[i].time) + 13 && c[i].number < 199999
  }

  lemma DifficultyStep(c: seq<Header>, checkPow: bool, pow: Header -> bool, i: nat)
    requires AcceptedChain(c, checkPow, pow) && i + 1 < |c|
    ensures c[i + 1].difficulty == CalcDifficulty(Uint64(c[i + 1].time), Uint64(c[i].time), c[i].number, c[i].difficulty)
  {
    assert Follows(c[i], c[i + 1], checkPow, pow);
  }

  /** Across the wrap of the 64-bit clock a block counts as fast, however long after
      its parent it comes. */
  lemma ClockWraps(c: seq<Header>, checkPow: bool, pow: Header -> bool, i: nat)
    requires AcceptedChain(c, checkPow, pow) && i + 1 < |c| && c[i].number < 199999 && c[i].difficulty >= 131072
    requires c[i].time < 0x1_0000_0000_0000_0000 <= c[i + 1].time < 0x1_0000_0000_0000_0000 + c[i].time + 13
    ensures c[i + 1].difficulty > c[i].difficulty
  {
    DifficultyStep(c, checkPow, pow, i);
  }

  /** Along an accepted chain of slow blocks the difficulty falls from block to
      block, by 64 or more, until it is the minimum, and stays there. */
  lemma {:induction false} SlowChainFalls(c: seq<Header>, checkPow: bool, pow: Header -> bool, n: nat)
    requires AcceptedChain(c, checkPow, pow) && Slow(c) && c[0].difficulty >= 131072 && n < |c|
    ensures 131072 <= c[n].difficulty <= Max(131072, c[0].difficulty - 64 * n)
    ensures n > 0 ==> c[n].difficulty < c[n - 1].difficulty || c[n].difficulty == c[n - 1].difficulty == 131072
  {
    if n > 0 {
      SlowChainFalls(c, checkPow, pow, n - 1);
      DifficultyStep(c, checkPow, pow, n - 1);
      DifficultyDrift(Uint64(c[n].time), Uint64(c[n - 1].time), c[n - 1].number, c[n - 1].difficulty);
    }
  }

  /** Along one of fast blocks it rises, by 64 or more. */
  lemma {:induction false} FastChainRises(c: seq<Header>, checkPow: bool, pow: Header -> bool, n: nat)
    requires AcceptedChain(c, checkPow, pow) && Fast(c) && c[0].difficulty >= 131072 && n < |c|
    ensures c[n].difficulty >= c[0].difficulty + 64 * n
  {
    if n > 0 {
      FastChainRises(c, checkPow, pow, n - 1);
      DifficultyStep(c, checkPow, pow, n - 1);
      DifficultyDrift(Uint64(c[n].time), Uint64(c[n - 1].time), c[n - 1].number, c[n - 1].difficulty);
    }
  }

  // ---------- generated chains ----------

  /** One block of `GenerateChain`: a made header whose time, extra data, coinbase
      and gas the generator may have set. */
  predicate Generated(parent: Header, h: Header, seconds: int) {
    var made := OffsetTime(MakeHeader(parent, h.hash), parent, seconds);
    && made.Some?
    && h == made.value.(extra := h.extra, coinbase := h.coinbase, gasUsed := h.gasUsed)
    && h.gasUsed <= h.gasLimit
  }

  predicate Chain(c: seq<Header>, seconds: seq<int>) {
    && |c| == |seconds| + 1
    && forall i :: 0 <= i < |seconds| ==> Generated(c[i], c[i + 1], seconds[i])
  }

  predicate Sound(h: Header) {
    h.gasLimit >= MIN_GAS_LIMIT && h.gasUsed <= h.gasLimit
  }

  /** What can still be wrong with a generated header, as a block or as an uncle. */
  function Remaining(h: Header, checkPow: bool, pow: bool, uncle: bool, now: nat): Option<HeaderError> {
    if h.extra > 32 then Some(ExtraTooLong)
    else if h.time > (if uncle then MAX_BIG else now) then Some(if uncle then TimeTooBig else FutureBlock)
    else if checkPow && !pow then Some(BadNonce)
    else None
  }

  /** A generated header is accepted exactly when its extra data is short enough,
      its time has come and its proof of work, if asked for, holds; it can be
      generated from in turn. */
  lemma GeneratedValid(parent: Header, h: Header, seconds: int, checkPow: bool, pow: bool, uncle: bool, now: nat)
    requires Sound(parent) && Generated(parent, h, seconds)
    ensures ValidateHeader(h, parent, checkPow, pow, uncle, now) == Remaining(h, checkPow, pow, uncle, now)
    ensures ValidateHeader(h, parent, checkPow, pow, uncle, now).None? <==>
            h.extra <= 32 && h.time <= (if uncle then MAX_BIG else now) && (checkPow ==> pow)
    ensures Sound(h) && h.difficulty >= MINIMUM_DIFFICULTY && h.number == parent.number + 1 && h.parent == parent.hash
    ensures h.time == parent.time + 10 + seconds > parent.time
  {
    GasLimitPasses(parent);
  }

  /** A generated header with one field changed is refused, and the error tells
      which field. */
  lemma TamperingFound(parent: Header, h: Header, seconds: int, checkPow: bool, pow: bool, uncle: bool, now: nat,
                       number: nat, time: nat, difficulty: nat, gasLimit: int)
    requires Sound(parent) && Generated(parent, h, seconds) && Remaining(h, checkPow, pow, uncle, now).None?
    ensures number != h.number ==>
            ValidateHeader(h.(number := number), parent, checkPow, pow, uncle, now) == Some(WrongNumber)
    ensures difficulty != h.difficulty ==>
            ValidateHeader(h.(difficulty := difficulty), parent, checkPow, pow, uncle, now) == Some(WrongDifficulty)
    ensures time <= parent.time ==>
            ValidateHeader(h.(time := time), parent, checkPow, pow, uncle, now) == Some(TimeNotLater)
    ensures Abs(gasLimit - parent.gasLimit) >= parent.gasLimit / 1024 || gasLimit < 5000 ==>
            ValidateHeader(h.(gasLimit := gasLimit), parent, checkPow, pow, uncle, now) == Some(WrongGasLimit)
  {
    GasLimitPasses(parent);
  }

  /** Every header of every generated chain. */
  lemma {:induction false} ChainValid(c: seq<Header>, seconds: seq<int>, i: nat, checkPow: bool, pow: bool, uncle: bool, now: nat)
    requires Chain(c, seconds) && Sound(c[0]) && i < |seconds|
    ensures ValidateHeader(c[i + 1], c[i], checkPow, pow, uncle, now).None? <==>
            c[i + 1].extra <= 32 && c[i + 1].time <= (if uncle then MAX_BIG else now) && (checkPow ==> pow)
    ensures Sound(c[i + 1]) && c[i + 1].difficulty >= MINIMUM_DIFFICULTY
    ensures c[i + 1].number == c[0].number + i + 1
  {
    if i > 0 {
      ChainValid(c, seconds, i - 1, checkPow, pow, uncle, now);
    }
    GeneratedValid(c[i], c[i + 1], seconds[i], checkPow, pow, uncle, now);
  }

  /** A chain made without changes: a block every ten seconds, for one miner. */
  lemma {:induction false} MadeChain(c: seq<Header>, n: nat)
    requires n < |c| && forall i :: 0 <= i < |c| - 1 ==> c[i + 1] == MakeHeader(c[i], c[i + 1].hash)
    ensures c[n].time == c[0].time + 10 * n && c[n].coinbase == c[0].coinbase && c[n].number == c[0].number + n
  {
    if n > 0 {
      MadeChain(c, n - 1);
      assert c[n] == MakeHeader(c[n - 1], c[n].hash);
    }
  }

  /** Along every generated chain the gas limit climbs to the target, without ever
      falling, and stays at or above it. */
  lemma {:induction false} LimitReachesTarget(c: seq<Header>, seconds: seq<int>, n: nat)
    requires Chain(c, seconds) && Sound(c[0]) && n < |c|
    ensures Sound(c[n]) && c[n].gasLimit >= Min(3141592, c[0].gasLimit + 3 * n)
    ensures n > 0 && c[n - 1].gasLimit < 3141592 ==> c[n].gasLimit > c[n - 1].gasLimit
    ensures n > 0 && c[n - 1].gasLimit >= 3141592 ==> c[n].gasLimit >= 3141592
  {
    if n > 0 {
      LimitReachesTarget(c, seconds, n - 1);
      GeneratedValid(c[n - 1], c[n], seconds[n - 1], false, false, false, 0);
      GasLimitSeeksTarget(c[n - 1]);
    }
  }
}
