/** The rate limiter of src/utils/token_bucket.py, over exact reals.

    `Bucket` is the value of the four fields; the class updates them in place.
    The clock reading of every call is a parameter. */
module TokenBuckets {

  datatype Bucket = Bucket(rate: real, capacity: int, tokens: real, last: real) {

    /** What both operations keep as long as rate and burst are not negative. */
    predicate Valid() {
      0.0 <= rate && 0 <= capacity && 0.0 <= tokens <= capacity as real
    }
  }

  function Min(a: real, b: real): real {
    if a <= b then a else b
  }

  /** The bucket as it stands when a call at `now` makes its decision. */
  function Refilled(b: Bucket, now: real): Bucket {
    b.(tokens := Min(b.capacity as real, b.tokens + (now - b.last) * b.rate), last := now)
  }

  predicate Admits(b: Bucket, now: real) {
    Refilled(b, now).tokens >= 1.0
  }

  function Acquired(b: Bucket, now: real): Bucket {
    var r := Refilled(b, now);
    if Admits(b, now) then r.(tokens := r.tokens - 1.0) else r
  }

  function Reconfigured(b: Bucket, rate: real, burst: int): Bucket {
    b.(rate := rate, capacity := burst, tokens := Min(b.tokens, burst as real))
  }

  class TokenBucket {
    var rate: real
    var capacity: int
    var tokens: real
    var last: real

    function Value(): Bucket
      reads this
    {
      Bucket(rate, capacity, tokens, last)
    }

    constructor (ratePerSecond: real, burst: int, now: real)
      ensures Value() == Bucket(ratePerSecond, burst, burst as real, now)
    {
      rate, capacity, tokens, last := ratePerSecond, burst, burst as real, now;
    }

    method Acquire(now: real) returns (granted: bool)
      modifies this
      ensures granted == Admits(old(Value()), now)
      ensures Value() == Acquired(old(Value()), now)
      ensures granted <==> Min(old(capacity) as real, old(tokens) + (now - old(last)) * old(rate)) >= 1.0
      ensures tokens == Min(old(capacity) as real, old(tokens) + (now - old(last)) * old(rate))
                        - (if granted then 1.0 else 0.0)
      ensures last == now && rate == old(rate) && capacity == old(capacity)
      ensures old(Value()).Valid() && old(last) <= now ==> Value().Valid()
    {
      ghost var before := Value();
      if before.Valid() && before.last <= now {
        RefillKeepsValid(before, now);
      }
      var elapsed := now - last;
      last := now;
      tokens := Min(capacity as real, tokens + elapsed * rate);
      assert Value() == Refilled(before, now);
      if tokens >= 1.0 {
        tokens := tokens - 1.0;
        return true;
      }
      return false;
    }

    method UpdateConfig(ratePerSecond: real, burst: int)
      modifies this
      ensures Value() == Reconfigured(old(Value()), ratePerSecond, burst)
      ensures rate == ratePerSecond && capacity == burst && last == old(last)
      ensures tokens == if old(tokens) <= burst as real then old(tokens) else burst as real
      ensures old(Value()).Valid() && 0.0 <= ratePerSecond && 0 <= burst ==> Value().Valid()
    {
      rate := ratePerSecond;
      capacity := burst;
      tokens := Min(tokens, burst as real);
    }
  }

  lemma MulNonNegative(a: real, b: real)
    ensures 0.0 <= a && 0.0 <= b ==> 0.0 <= a * b
  {
  }

  // ---- A fixed configuration: what exactly is granted ----

  predicate Monotone(times: seq<real>) {
    forall i, j :: 0 <= i <= j < |times| ==> times[i] <= times[j]
  }

  /** A bucket as the constructor leaves it, called at `times` and never reconfigured. */
  predicate FreshTrace(b: Bucket, times: seq<real>) {
    && 0.0 <= b.rate && 0 <= b.capacity && b.tokens == b.capacity as real
    && Monotone(times)
    && (times != [] ==> b.last <= times[0])
  }

  /** The bucket after the first `n` calls. */
  function After(b: Bucket, times: seq<real>, n: nat): Bucket
    requires n <= |times|
  {
    if n == 0 then b else Acquired(After(b, times, n - 1), times[n - 1])
  }

  predicate Granted(b: Bucket, times: seq<real>, n: nat)
    requires n < |times|
  {
    Admits(After(b, times, n), times[n])
  }

  /** Token level on which call `n` decides. */
  function Level(b: Bucket, times: seq<real>, n: nat): real
    requires n < |times|
  {
    Refilled(After(b, times, n), times[n]).tokens
  }

  /** How many of the calls i, ..., j-1 are granted. */
  function Grants(b: Bucket, times: seq<real>, i: nat, j: nat): nat
    requires j <= |times|
  {
    if j <= i then 0
    else Grants(b, times, i, j - 1) + if Granted(b, times, j - 1) then 1 else 0
  }

  /** Burst plus rate times length: what a window from `start` to `end` may be granted. */
  function Ceiling(b: Bucket, start: real, end: real): real {
    b.capacity as real + (end - start) * b.rate
  }

  /** What is left at call `n` of the allowance of the window opened at call `i`. */
  function Allowance(b: Bucket, times: seq<real>, i: nat, n: nat): real
    requires i <= n < |times|
  {
    Ceiling(b, times[i], times[n]) - Grants(b, times, i, n) as real
  }

  lemma AfterConfig(b: Bucket, times: seq<real>, n: nat)
    requires n <= |times|
    ensures var a := After(b, times, n); a.rate == b.rate && a.capacity == b.capacity
    ensures n > 0 ==> After(b, times, n).last == times[n - 1]
  {
  }

  /** One call later every older window has earned rate times the gap and paid for the call. */
  lemma AllowanceStep(b: Bucket, times: seq<real>, i: nat, n: nat)
    requires i < n < |times|
    ensures Allowance(b, times, i, n)
         == Allowance(b, times, i, n - 1) + (times[n] - times[n - 1]) * b.rate
            - (if Granted(b, times, n - 1) then 1.0 else 0.0)
  {
    CeilingGrows(b, times[i], times[n - 1], times[n]);
  }

  lemma LevelStep(b: Bucket, times: seq<real>, n: nat)
    requires 0 < n < |times|
    ensures Level(b, times, n)
         == Min(b.capacity as real,
                Level(b, times, n - 1) - (if Granted(b, times, n - 1) then 1.0 else 0.0)
                + (times[n] - times[n - 1]) * b.rate)
  {
    AfterConfig(b, times, n);
    AfterConfig(b, times, n - 1);
    assert After(b, times, n) == Acquired(After(b, times, n - 1), times[n - 1]);
  }

  /** The level is exactly the smallest allowance over all windows that end now. */
  lemma {:induction false} LevelIsTightestWindow(b: Bucket, times: seq<real>, n: nat) returns (tight: nat)
    requires FreshTrace(b, times) && n < |times|
    ensures forall i :: 0 <= i <= n ==> Level(b, times, n) <= Allowance(b, times, i, n)
    ensures tight <= n && Level(b, times, n) == Allowance(b, times, tight, n)
  {
    assert Allowance(b, times, n, n) == b.capacity as real;
    if n == 0 {
      MulNonNegative(times[0] - b.last, b.rate);
      tight := 0;
    } else {
      var before := LevelIsTightestWindow(b, times, n - 1);
      LevelStep(b, times, n);
      forall i | 0 <= i <= n ensures Level(b, times, n) <= Allowance(b, times, i, n) {
        if i < n {
          AllowanceStep(b, times, i, n);
        }
      }
      AllowanceStep(b, times, before, n);
      tight := if Level(b, times, n) == b.capacity as real then n else before;
    }
  }

  /** A call is granted exactly when granting keeps every window ending at it within
      burst plus rate times its length: no window is ever exceeded, and no call is
      refused that could have been allowed. */
  lemma GrantedExactlyWhenEveryWindowAllows(b: Bucket, times: seq<real>, n: nat)
    requires FreshTrace(b, times) && n < |times|
    ensures Granted(b, times, n)
       <==> forall i :: 0 <= i <= n ==>
              Grants(b, times, i, n) as real + 1.0 <= Ceiling(b, times[i], times[n])
  {
    var tight := LevelIsTightestWindow(b, times, n);
    if Granted(b, times, n) {
      forall i | 0 <= i <= n
        ensures Grants(b, times, i, n) as real + 1.0 <= Ceiling(b, times[i], times[n])
      {
        OneMoreFits(b, times, i, n);
      }
    } else {
      OneMoreFits(b, times, tight, n);
    }
  }

  lemma OneMoreFits(b: Bucket, times: seq<real>, i: nat, n: nat)
    requires i <= n < |times|
    ensures Allowance(b, times, i, n) >= 1.0
       <==> Grants(b, times, i, n) as real + 1.0 <= Ceiling(b, times[i], times[n])
  {
  }

  /** Both ends included, no window is ever granted more than burst + rate * length. */
  lemma {:induction false} WindowBound(b: Bucket, times: seq<real>, i: nat, j: nat)
    requires FreshTrace(b, times) && i <= j < |times|
    ensures Grants(b, times, i, j + 1) as real <= Ceiling(b, times[i], times[j])
  {
    if Granted(b, times, j) {
      GrantedExactlyWhenEveryWindowAllows(b, times, j);
      assert Grants(b, times, i, j) as real + 1.0 <= Ceiling(b, times[i], times[j]);
    } else if i < j {
      WindowBound(b, times, i, j - 1);
      CeilingGrows(b, times[i], times[j - 1], times[j]);
    } else {
      assert Grants(b, times, j, j) == 0 && Grants(b, times, j, j + 1) == 0;
      CeilingAtOnce(b, times[j]);
    }
  }

  lemma CeilingAtOnce(b: Bucket, now: real)
    ensures Ceiling(b, now, now) == b.capacity as real
  {
    assert now - now == 0.0;
  }

  lemma CeilingGrows(b: Bucket, start: real, middle: real, end: real)
    ensures Ceiling(b, start, end) == Ceiling(b, start, middle) + (end - middle) * b.rate
    ensures 0.0 <= b.rate && middle <= end ==> Ceiling(b, start, middle) <= Ceiling(b, start, end)
  {
    MulNonNegative(end - middle, b.rate);
  }

  // ---- Live reconfiguration ----

  /** What reaches a bucket in a worker process: acquire calls of the slots, and
      update_config calls of the refresh loop. */
  datatype Op = Call(now: real) | Config(rate: real, burst: int)

  function OpApplied(b: Bucket, op: Op): Bucket {
    match op
    case Call(now) => Acquired(b, now)
    case Config(rate, burst) => Reconfigured(b, rate, burst)
  }

  function Outcome(b: Bucket, ops: seq<Op>): Bucket {
    if ops == [] then b else OpApplied(Outcome(b, ops[..|ops| - 1]), ops[|ops| - 1])
  }

  lemma OutcomeSnoc(b: Bucket, ops: seq<Op>, op: Op)
    ensures Outcome(b, ops + [op]) == OpApplied(Outcome(b, ops), op)
  {
    assert (ops + [op])[..|ops|] == ops;
  }

  // ---- What is in force ----

  /** The rate of the last configuration, or else the one at the start. */
  function RateInForce(ops: seq<Op>, start: real): real {
    if ops == [] then start
    else if ops[|ops| - 1].Config? then ops[|ops| - 1].rate
    else RateInForce(ops[..|ops| - 1], start)
  }

  function BurstInForce(ops: seq<Op>, start: int): int {
    if ops == [] then start
    else if ops[|ops| - 1].Config? then ops[|ops| - 1].burst
    else BurstInForce(ops[..|ops| - 1], start)
  }

  /** When the last call was made. */
  function LastCall(ops: seq<Op>, start: real): real {
    if ops == [] then start
    else if ops[|ops| - 1].Call? then ops[|ops| - 1].now
    else LastCall(ops[..|ops| - 1], start)
  }

  /** The bucket works with just these. */
  lemma {:induction false} InForce(b: Bucket, ops: seq<Op>)
    ensures var after := Outcome(b, ops);
      && after.rate == RateInForce(ops, b.rate)
      && after.capacity == BurstInForce(ops, b.capacity)
      && after.last == LastCall(ops, b.last)
  {
    if ops == [] {
    } else {
      InForce(b, ops[..|ops| - 1]);
    }
  }

  // ---- The level, exactly ----

  /** 1 if operation `k` is a call that is granted. */
  function Spends(b: Bucket, ops: seq<Op>, k: nat): nat
    requires k < |ops|
  {
    if ops[k].Call? && Admits(Outcome(b, ops[..k]), ops[k].now) then 1 else 0
  }

  /** What a gap is worth. */
  function Credit(since: real, now: real, rate: real): real {
    (now - since) * rate
  }

  /** What operation `k` earns, if it is a call: the gap since the last call, times the rate in force. */
  function Earns(b: Bucket, ops: seq<Op>, k: nat): real
    requires k < |ops|
  {
    if ops[k].Call? then Credit(LastCall(ops[..k], b.last), ops[k].now, RateInForce(ops[..k], b.rate)) else 0.0
  }

  /** How many of the calls i, ..., n-1 are granted, and what they earn. */
  function Spent(b: Bucket, ops: seq<Op>, i: nat, n: nat): nat
    requires n <= |ops|
  {
    if n <= i then 0 else Spent(b, ops, i, n - 1) + Spends(b, ops, n - 1)
  }

  function Earned(b: Bucket, ops: seq<Op>, i: nat, n: nat): real
    requires n <= |ops|
  {
    if n <= i then 0.0 else Earned(b, ops, i, n - 1) + Earns(b, ops, n - 1)
  }

  /** The most that operation `i - 1` can leave: the burst in force, less the grant if it is one. Before
      the first operation there is what the bucket held. */
  function Brim(b: Bucket, ops: seq<Op>, i: nat): real
    requires i <= |ops|
  {
    if i == 0 then b.tokens
    else BurstInForce(ops[..i], b.capacity) as real - Spends(b, ops, i - 1) as real
  }

  /** What is left of that before operation `n`, if all is earned and spent that was since. */
  function Remaining(b: Bucket, ops: seq<Op>, i: nat, n: nat): real
    requires i <= n <= |ops|
  {
    Brim(b, ops, i) + Earned(b, ops, i, n) - Spent(b, ops, i, n) as real
  }

  function TokensAt(b: Bucket, ops: seq<Op>, n: nat): real
    requires n <= |ops|
  {
    Outcome(b, ops[..n]).tokens
  }

  lemma OpGains(b: Bucket, op: Op)
    ensures var gain := if op.Call? then Credit(b.last, op.now, b.rate) else 0.0;
      OpApplied(b, op).tokens
      == Min(OpApplied(b, op).capacity as real, b.tokens + gain)
         - (if op.Call? && Admits(b, op.now) then 1.0 else 0.0)
  {
    match op
    case Call(now) =>
      assert Refilled(b, now).tokens == Min(b.capacity as real, b.tokens + Credit(b.last, now, b.rate));
    case Config(rate, burst) =>
  }

  lemma PrefixStep(b: Bucket, ops: seq<Op>, n: nat)
    requires n < |ops|
    ensures Outcome(b, ops[..n + 1]) == OpApplied(Outcome(b, ops[..n]), ops[n])
  {
    assert ops[..n + 1] == ops[..n] + [ops[n]];
    OutcomeSnoc(b, ops[..n], ops[n]);
  }

  /** Whatever the operation, the level earns, is cut down to the burst in force, and pays. */
  lemma LevelMoves(b: Bucket, ops: seq<Op>, n: nat)
    requires n < |ops|
    ensures TokensAt(b, ops, n + 1)
         == Min(BurstInForce(ops[..n + 1], b.capacity) as real, TokensAt(b, ops, n) + Earns(b, ops, n))
            - Spends(b, ops, n) as real
  {
    PrefixStep(b, ops, n);
    InForce(b, ops[..n]);
    InForce(b, ops[..n + 1]);
    OpMoves(Outcome(b, ops[..n]), ops[n], Earns(b, ops, n), Spends(b, ops, n));
  }

  lemma OpMoves(b: Bucket, op: Op, earned: real, spent: nat)
    requires earned == if op.Call? then Credit(b.last, op.now, b.rate) else 0.0
    requires spent == if op.Call? && Admits(b, op.now) then 1 else 0
    ensures OpApplied(b, op).tokens == Min(OpApplied(b, op).capacity as real, b.tokens + earned) - spent as real
  {
    OpGains(b, op);
  }

  /** After any mix of calls and reconfigurations the level is exactly the least of what is left since
      the start and since each operation. */
  lemma {:induction false} LevelUnderReconfiguration(b: Bucket, ops: seq<Op>, n: nat) returns (tight: nat)
    requires n <= |ops|
    ensures forall i :: 0 <= i <= n ==> TokensAt(b, ops, n) <= Remaining(b, ops, i, n)
    ensures tight <= n && TokensAt(b, ops, n) == Remaining(b, ops, tight, n)
  {
    if n == 0 {
      tight := 0;
    } else {
      var before := LevelUnderReconfiguration(b, ops, n - 1);
      LevelMoves(b, ops, n - 1);
      assert Remaining(b, ops, n, n) == Brim(b, ops, n);
      forall i | 0 <= i <= n ensures TokensAt(b, ops, n) <= Remaining(b, ops, i, n) {
        if i < n {
          RemainingMoves(b, ops, i, n);
        }
      }
      RemainingMoves(b, ops, before, n);
      tight := if TokensAt(b, ops, n) == Brim(b, ops, n) then n else before;
    }
  }

  lemma RemainingMoves(b: Bucket, ops: seq<Op>, i: nat, n: nat)
    requires i < n <= |ops|
    ensures Remaining(b, ops, i, n)
         == Remaining(b, ops, i, n - 1) + Earns(b, ops, n - 1) - Spends(b, ops, n - 1) as real
  {
  }

  lemma AdmitsExactly(b: Bucket, now: real)
    ensures Admits(b, now) <==> b.capacity >= 1 && b.tokens + Credit(b.last, now, b.rate) >= 1.0
  {
    assert Refilled(b, now).tokens == Min(b.capacity as real, b.tokens + Credit(b.last, now, b.rate));
  }

  lemma SpendsExactly(b: Bucket, ops: seq<Op>, n: nat)
    requires n < |ops| && ops[n].Call?
    ensures Spends(b, ops, n) == 1
       <==> BurstInForce(ops[..n], b.capacity) >= 1 && TokensAt(b, ops, n) + Earns(b, ops, n) >= 1.0
  {
    AdmitsExactly(Outcome(b, ops[..n]), ops[n].now);
    InForce(b, ops[..n]);
  }

  /** So a call is granted exactly if one grant fits into the burst in force, and into what is left
      since the start and since each operation, with what the last gap earns. */
  lemma GrantedExactlyUnderReconfiguration(b: Bucket, ops: seq<Op>, n: nat)
    requires n < |ops| && ops[n].Call?
    ensures Spends(b, ops, n) == 1 <==>
      && BurstInForce(ops[..n], b.capacity) >= 1
      && forall i :: 0 <= i <= n ==> Remaining(b, ops, i, n) + Earns(b, ops, n) >= 1.0
  {
    SpendsExactly(b, ops, n);
    var tight := LevelUnderReconfiguration(b, ops, n);
  }

  // ---- Bounds ----

  lemma RefillKeepsValid(b: Bucket, now: real)
    requires b.Valid() && b.last <= now
    ensures Refilled(b, now).Valid() && Acquired(b, now).Valid()
    ensures Refilled(b, now).tokens <= b.tokens + (now - b.last) * b.rate
  {
    var gain := (now - b.last) * b.rate;
    MulNonNegative(now - b.last, b.rate);
    assert gain >= 0.0;
    assert Refilled(b, now).tokens == Min(b.capacity as real, b.tokens + gain);
  }

  /** Time does not run backwards and no configuration is negative. */
  predicate LawfulAt(b: Bucket, ops: seq<Op>, k: nat)
    requires k < |ops|
  {
    match ops[k]
    case Call(now) => LastCall(ops[..k], b.last) <= now
    case Config(rate, burst) => 0.0 <= rate && 0 <= burst
  }

  ghost predicate Lawful(b: Bucket, ops: seq<Op>) {
    forall k :: 0 <= k < |ops| ==> LawfulAt(b, ops, k)
  }

  /** 0 <= tokens <= capacity after every mix of calls and reconfigurations. */
  lemma {:induction false} StaysValid(b: Bucket, ops: seq<Op>, n: nat)
    requires b.Valid() && Lawful(b, ops) && n <= |ops|
    ensures Outcome(b, ops[..n]).Valid()
  {
    if n == 0 {
    } else {
      StaysValid(b, ops, n - 1);
      PrefixStep(b, ops, n - 1);
      InForce(b, ops[..n - 1]);
      assert LawfulAt(b, ops, n - 1);
      if ops[n - 1].Call? {
        RefillKeepsValid(Outcome(b, ops[..n - 1]), ops[n - 1].now);
      }
    }
  }

  /** And the tokens granted and left over never exceed those at the start and those earned. */
  lemma TokensAccounted(b: Bucket, ops: seq<Op>, n: nat)
    requires b.Valid() && Lawful(b, ops) && n <= |ops|
    ensures Outcome(b, ops[..n]).Valid()
    ensures Spent(b, ops, 0, n) as real + TokensAt(b, ops, n) <= b.tokens + Earned(b, ops, 0, n)
  {
    StaysValid(b, ops, n);
    var tight := LevelUnderReconfiguration(b, ops, n);
    assert TokensAt(b, ops, n) <= Remaining(b, ops, 0, n);
  }

  lemma {:induction false} SpentFrom(b: Bucket, ops: seq<Op>, i: nat, n: nat)
    requires i < n <= |ops|
    ensures Spent(b, ops, i, n) == Spends(b, ops, i) + Spent(b, ops, i + 1, n)
  {
    if n == i + 1 {
      assert Spent(b, ops, i, i) == 0;
    } else {
      SpentFrom(b, ops, i, n - 1);
    }
  }

  /** From call `i` on, whatever reconfigurations follow: at most the burst in force at that call, plus
      what the later gaps earn. */
  lemma ReconfiguredWindowBound(b: Bucket, ops: seq<Op>, i: nat, n: nat)
    requires b.Valid() && Lawful(b, ops) && i < n <= |ops| && ops[i].Call?
    ensures Spent(b, ops, i, n) as real <= BurstInForce(ops[..i], b.capacity) as real + Earned(b, ops, i + 1, n)
  {
    StaysValid(b, ops, n);
    var tight := LevelUnderReconfiguration(b, ops, n);
    assert TokensAt(b, ops, n) <= Remaining(b, ops, i + 1, n);
    SpentFrom(b, ops, i, n);
    assert ops[..i + 1][..i] == ops[..i];
  }

  // ---- Refreshes that find the limits unchanged ----

  /** A refresh that finds the limits in force changes nothing. */
  lemma SameLimitsChangeNothing(b: Bucket)
    requires b.Valid()
    ensures Reconfigured(b, b.rate, b.capacity) == b
  {
  }

  predicate SameLimits(b: Bucket, ops: seq<Op>) {
    forall i :: 0 <= i < |ops| && ops[i].Config? ==> ops[i].rate == b.rate && ops[i].burst == b.capacity
  }

  /** When the calls among `ops` are made. */
  function CallTimes(ops: seq<Op>): seq<real> {
    if ops == [] then []
    else
      var before, last := CallTimes(ops[..|ops| - 1]), ops[|ops| - 1];
      if last.Call? then before + [last.now] else before
  }

  lemma {:induction false} AfterPrefix(b: Bucket, times: seq<real>, more: seq<real>, n: nat)
    requires n <= |times|
    ensures After(b, times + more, n) == After(b, times, n)
  {
    if n == 0 {
    } else {
      AfterPrefix(b, times, more, n - 1);
    }
  }

  lemma {:induction false} GrantsPrefix(b: Bucket, times: seq<real>, more: seq<real>, i: nat, j: nat)
    requires j <= |times|
    ensures Grants(b, times + more, i, j) == Grants(b, times, i, j)
  {
    if j <= i {
    } else {
      GrantsPrefix(b, times, more, i, j - 1);
      AfterPrefix(b, times, more, j - 1);
    }
  }

  lemma {:induction false} AfterValid(b: Bucket, times: seq<real>, n: nat)
    requires FreshTrace(b, times) && n <= |times|
    ensures After(b, times, n).Valid()
  {
    if n == 0 {
    } else {
      AfterValid(b, times, n - 1);
      AfterConfig(b, times, n - 1);
      RefillKeepsValid(After(b, times, n - 1), times[n - 1]);
    }
  }

  lemma FreshPrefix(b: Bucket, times: seq<real>, more: seq<real>)
    requires FreshTrace(b, times + more)
    ensures FreshTrace(b, times)
  {
    forall i, j | 0 <= i <= j < |times| ensures times[i] <= times[j] {
      assert (times + more)[i] == times[i] && (times + more)[j] == times[j];
    }
    if times == [] {
    } else {
      assert (times + more)[0] == times[0];
    }
  }

  lemma {:induction false} SpentPrefix(b: Bucket, ops: seq<Op>, more: seq<Op>, i: nat, n: nat)
    requires n <= |ops|
    ensures Spent(b, ops + more, i, n) == Spent(b, ops, i, n)
  {
    if n <= i {
    } else {
      SpentPrefix(b, ops, more, i, n - 1);
      assert (ops + more)[..n - 1] == ops[..n - 1];
    }
  }

  /** Among calls, such refreshes leave no trace. */
  lemma {:induction false} RefreshesLeaveNoTrace(b: Bucket, ops: seq<Op>)
    requires FreshTrace(b, CallTimes(ops)) && SameLimits(b, ops)
    ensures var times := CallTimes(ops);
      && Outcome(b, ops) == After(b, times, |times|)
      && Spent(b, ops, 0, |ops|) == Grants(b, times, 0, |times|)
  {
    if ops == [] {
    } else {
      var init, last := ops[..|ops| - 1], ops[|ops| - 1];
      var times := CallTimes(init);
      assert ops == init + [last];
      OutcomeSnoc(b, init, last);
      SpentPrefix(b, init, [last], 0, |init|);
      assert ops[..|init|] == init;
      if last.Call? {
        FreshPrefix(b, times, [last.now]);
        AfterPrefix(b, times, [last.now], |times|);
        GrantsPrefix(b, times, [last.now], 0, |times|);
      }
      RefreshesLeaveNoTrace(b, init);
      if last.Config? {
        AfterValid(b, times, |times|);
        AfterConfig(b, times, |times|);
        SameLimitsChangeNothing(After(b, times, |times|));
      }
    }
  }

  /** The exact limiter with its refresh loop running: after any mix of calls and refreshes that find
      the limits unchanged, a call is granted exactly when granting keeps every window ending at it
      within burst plus rate times its length. */
  lemma GrantedExactlyUnderRefresh(b: Bucket, ops: seq<Op>, now: real)
    requires FreshTrace(b, CallTimes(ops) + [now]) && SameLimits(b, ops)
    ensures var times := CallTimes(ops) + [now];
      var n := |times| - 1;
      Admits(Outcome(b, ops), now)
      <==> forall i :: 0 <= i <= n ==> Grants(b, times, i, n) as real + 1.0 <= Ceiling(b, times[i], now)
  {
    var times := CallTimes(ops) + [now];
    FreshPrefix(b, CallTimes(ops), [now]);
    RefreshesLeaveNoTrace(b, ops);
    AfterPrefix(b, CallTimes(ops), [now], |CallTimes(ops)|);
    GrantedExactlyWhenEveryWindowAllows(b, times, |times| - 1);
  }
}
