/** Adaptive admission control: a token bucket whose refill rate and admission rules follow the load. */
module LoadShedder {
  datatype Config = Config(capacity: real, refillRate: real, minRefillRate: real)

  datatype Status = Normal | Moderate | High | Critical

  datatype Shedder = Shedder(
    tokens: real,
    lastRefill: real,
    cpu: real,
    ram: real,
    concurrency: int,
    maxConcurrency: int,
    minConcurrency: int)

  function Min(x: real, y: real): real { if x < y then x else y }

  function Max(x: real, y: real): real { if x > y then x else y }

  function Watermark(s: Shedder): (w: real)
    ensures 0.0 <= w <= 1.0
  {
    var ceiling := if s.maxConcurrency > 1 then s.maxConcurrency else 1;
    var busy := Min(1.0, s.concurrency as real / ceiling as real);
    Min(1.0, Max(0.0, 0.45 * (s.cpu / 100.0) + 0.35 * (s.ram / 100.0) + 0.20 * busy))
  }

  function StatusOf(w: real): Status {
    if w >= 0.85 then Critical else if w >= 0.75 then High else if w >= 0.60 then Moderate else Normal
  }

  function Rate(cfg: Config, status: Status): real {
    match status
    case Critical => cfg.minRefillRate
    case High => Max(cfg.minRefillRate, cfg.refillRate * 0.40)
    case Moderate => Max(cfg.minRefillRate, cfg.refillRate * 0.75)
    case Normal => cfg.refillRate
  }

  function Refilled(cfg: Config, s: Shedder, now: real): Shedder {
    var elapsed := Max(0.0, now - s.lastRefill);
    s.(tokens := Min(cfg.capacity, s.tokens + elapsed * Rate(cfg, StatusOf(Watermark(s)))), lastRefill := now)
  }

  /** Whether load or the concurrency ceiling turns a task of that priority away. */
  predicate Shed(s: Shedder, priority: int) {
    || (StatusOf(Watermark(s)) == Critical && priority > 1)
    || (StatusOf(Watermark(s)) == High && priority >= 4)
    || (s.concurrency >= s.maxConcurrency && priority > 0)
  }

  predicate Admits(cfg: Config, s: Shedder, now: real, priority: int, cost: real) {
    !Shed(s, priority) && Refilled(cfg, s, now).tokens >= cost
  }

  function Acquired(cfg: Config, s: Shedder, now: real, priority: int, cost: real): Shedder {
    var r := Refilled(cfg, s, now);
    if Admits(cfg, s, now, priority, cost) then r.(tokens := r.tokens - cost, concurrency := r.concurrency + 1) else r
  }

  function Clamp(x: real): real { Max(0.0, Min(100.0, x)) }

  function Tuned(s: Shedder, target: real): Shedder {
    if s.cpu > target then
      s.(maxConcurrency := if s.minConcurrency > s.maxConcurrency - 1 then s.minConcurrency else s.maxConcurrency - 1)
    else if s.cpu < target - 20.0 && s.ram < 70.0 then
      s.(maxConcurrency := if 64 < s.maxConcurrency + 1 then 64 else s.maxConcurrency + 1)
    else s
  }

  function Started(cfg: Config, maxConcurrency: int, minConcurrency: int, now: real): Shedder {
    Shedder(cfg.capacity, now, 0.0, 0.0, 0, maxConcurrency, minConcurrency)
  }

  class AdaptiveLoadShedder {
    const config: Config
    const minConcurrency: int
    var maxConcurrency: int
    var currentConcurrency: int
    var tokens: real
    var lastRefill: real
    var cachedCpu: real
    var cachedRam: real
    var totalAdmitted: int
    var totalShed: int

    function View(): Shedder
      reads this
    {
      Shedder(tokens, lastRefill, cachedCpu, cachedRam, currentConcurrency, maxConcurrency, minConcurrency)
    }

    constructor (config: Config, maxConcurrency: int, minConcurrency: int, now: real)
      ensures this.config == config && View() == Started(config, maxConcurrency, minConcurrency, now)
      ensures totalAdmitted == totalShed == 0
    {
      this.config, this.maxConcurrency, this.minConcurrency := config, maxConcurrency, minConcurrency;
      currentConcurrency, tokens, lastRefill := 0, config.capacity, now;
      cachedCpu, cachedRam, totalAdmitted, totalShed := 0.0, 0.0, 0, 0;
    }

    method UpdateResourceTelemetry(cpu: real, ram: real)
      modifies this
      ensures View() == old(View()).(cpu := Clamp(cpu), ram := Clamp(ram))
      ensures totalAdmitted == old(totalAdmitted) && totalShed == old(totalShed)
    {
      cachedCpu := Clamp(cpu);
      cachedRam := Clamp(ram);
    }

    method RefillTokens(now: real)
      modifies this`tokens, this`lastRefill
      ensures View() == Refilled(config, old(View()), now)
    {
      var elapsed := Max(0.0, now - lastRefill);
      var rate := Rate(config, StatusOf(Watermark(View())));
      tokens := Min(config.capacity, tokens + elapsed * rate);
      lastRefill := now;
    }

    /** Every attempt is counted once, as admitted or as shed. */
    method TryAcquire(now: real, priority: int, cost: real) returns (ok: bool)
      modifies this
      ensures View() == Acquired(config, old(View()), now, priority, cost)
      ensures ok == Admits(config, old(View()), now, priority, cost)
      ensures totalAdmitted == old(totalAdmitted) + (if ok then 1 else 0)
      ensures totalShed == old(totalShed) + (if ok then 0 else 1)
    {
      RefillTokens(now);
      var status := StatusOf(Watermark(View()));
      if status == Critical {
        if priority > 1 {
          totalShed := totalShed + 1;
          return false;
        }
      } else if status == High {
        if priority >= 4 {
          totalShed := totalShed + 1;
          return false;
        }
      }
      if currentConcurrency >= maxConcurrency {
        if priority > 0 {
          totalShed := totalShed + 1;
          return false;
        }
      }
      if tokens >= cost {
        tokens := tokens - cost;
        currentConcurrency := currentConcurrency + 1;
        totalAdmitted := totalAdmitted + 1;
        return true;
      }
      totalShed := totalShed + 1;
      return false;
    }

    method Release()
      modifies this`currentConcurrency
      ensures View() == Step(config, old(View()), Finish) && currentConcurrency >= 0
    {
      currentConcurrency := if currentConcurrency - 1 > 0 then currentConcurrency - 1 else 0;
    }

    method TuneConcurrencyLimits(target: real) returns (limit: int)
      modifies this`maxConcurrency
      ensures View() == Tuned(old(View()), target) && limit == maxConcurrency
    {
      if cachedCpu > target {
        maxConcurrency := if minConcurrency > maxConcurrency - 1 then minConcurrency else maxConcurrency - 1;
      } else if cachedCpu < target - 20.0 && cachedRam < 70.0 {
        maxConcurrency := if 64 < maxConcurrency + 1 then 64 else maxConcurrency + 1;
      }
      limit := maxConcurrency;
    }
  }

  /** A more urgent and no dearer task is admitted wherever a less urgent one is. */
  lemma UrgentFirst(cfg: Config, s: Shedder, now: real, p: int, q: int, cost: real, less: real)
    requires Admits(cfg, s, now, p, cost) && q <= p && less <= cost
    ensures Admits(cfg, s, now, q, less)
  {
  }

  /** The load that the measurements and the taken permits make up, between 0 and 1. */
  ghost predicate IsLoad(s: Shedder, w: real) {
    var ceiling := if s.maxConcurrency < 1 then 1 else s.maxConcurrency;
    var taken := s.concurrency as real / ceiling as real;
    var sum := 0.45 * s.cpu / 100.0 + 0.35 * s.ram / 100.0 + 0.20 * (if taken > 1.0 then 1.0 else taken);
    w == if sum < 0.0 then 0.0 else if sum > 1.0 then 1.0 else sum
  }

  /** Tokens per second at load w. */
  ghost predicate IsRate(cfg: Config, w: real, r: real) {
    && (w >= 0.85 ==> r == cfg.minRefillRate)
    && (0.75 <= w < 0.85 ==> r >= cfg.minRefillRate && r >= 0.40 * cfg.refillRate &&
                             (r == cfg.minRefillRate || r == 0.40 * cfg.refillRate))
    && (0.60 <= w < 0.75 ==> r >= cfg.minRefillRate && r >= 0.75 * cfg.refillRate &&
                             (r == cfg.minRefillRate || r == 0.75 * cfg.refillRate))
    && (w < 0.60 ==> r == cfg.refillRate)
  }

  /** The bucket after it has filled at rate r for the given time. */
  ghost predicate IsFilled(cfg: Config, s: Shedder, elapsed: real, r: real, filled: real) {
    filled == if s.tokens + elapsed * r > cfg.capacity then cfg.capacity else s.tokens + elapsed * r
  }

  /**
   The admission rules on the load itself: at 0.85 and above only priorities 0 and 1 pass, from 0.75 on the
   background ones do not, over the ceiling only priority 0 does, and the bucket must cover the cost.
   */
  lemma AdmittedExactly(cfg: Config, s: Shedder, now: real, priority: int, cost: real, w: real, r: real, filled: real)
    requires IsLoad(s, w) && IsRate(cfg, w, r)
    requires IsFilled(cfg, s, if now < s.lastRefill then 0.0 else now - s.lastRefill, r, filled)
    ensures Admits(cfg, s, now, priority, cost) <==>
      && !(w >= 0.85 && priority >= 2)
      && !(0.75 <= w < 0.85 && priority >= 4)
      && !(s.concurrency >= s.maxConcurrency && priority >= 1)
      && filled >= cost
    ensures Acquired(cfg, s, now, priority, cost) ==
      if Admits(cfg, s, now, priority, cost)
      then s.(tokens := filled - cost, lastRefill := now, concurrency := s.concurrency + 1)
      else s.(tokens := filled, lastRefill := now)
  {
    LoadIsWatermark(s, w);
    FilledIsRefilled(cfg, s, now, w, r, filled);
  }

  lemma FilledIsRefilled(cfg: Config, s: Shedder, now: real, w: real, r: real, filled: real)
    requires w == Watermark(s) && IsRate(cfg, w, r)
    requires IsFilled(cfg, s, if now < s.lastRefill then 0.0 else now - s.lastRefill, r, filled)
    ensures Refilled(cfg, s, now) == s.(tokens := filled, lastRefill := now)
  {
    assert r == Rate(cfg, StatusOf(w));
  }

  lemma LoadIsWatermark(s: Shedder, w: real)
    requires IsLoad(s, w)
    ensures w == Watermark(s)
  {
    assert 0.45 * (s.cpu / 100.0) == 0.45 * s.cpu / 100.0;
    assert 0.35 * (s.ram / 100.0) == 0.35 * s.ram / 100.0;
  }

  // ----- Whole runs -----

  datatype Event =
    | Acquire(now: real, priority: int, cost: real)
    | Finish
    | Telemetry(cpu: real, ram: real)
    | Tune(target: real)

  function Step(cfg: Config, s: Shedder, e: Event): Shedder {
    match e
    case Acquire(now, priority, cost) => Acquired(cfg, s, now, priority, cost)
    case Finish => s.(concurrency := if s.concurrency - 1 > 0 then s.concurrency - 1 else 0)
    case Telemetry(cpu, ram) => s.(cpu := Clamp(cpu), ram := Clamp(ram))
    case Tune(target) => Tuned(s, target)
  }

  function Run(cfg: Config, s: Shedder, es: seq<Event>): Shedder
    decreases |es|
  {
    if es == [] then s else Run(cfg, Step(cfg, s, es[0]), es[1..])
  }

  /** The cost admitted at times from a to b. */
  function CostIn(cfg: Config, s: Shedder, es: seq<Event>, a: real, b: real): real
    decreases |es|
  {
    if es == [] then 0.0
    else CostOf(cfg, s, es[0], a, b) + CostIn(cfg, Step(cfg, s, es[0]), es[1..], a, b)
  }

  function CostOf(cfg: Config, s: Shedder, e: Event, a: real, b: real): real {
    if e.Acquire? && a <= e.now <= b && Admits(cfg, s, e.now, e.priority, e.cost) then e.cost else 0.0
  }

  /** A new shedder starts with a full bucket: it admits what its capacity covers, priority 0 even without permits. */
  lemma StartsFull(cfg: Config, maxConcurrency: int, minConcurrency: int, start: real, now: real, priority: int, cost: real)
    requires Sane(cfg)
    ensures Admits(cfg, Started(cfg, maxConcurrency, minConcurrency, start), now, priority, cost) <==>
            cost <= cfg.capacity && (maxConcurrency > 0 || priority <= 0)
  {
    var s := Started(cfg, maxConcurrency, minConcurrency, start);
    IdleIsNormal(s);
    assert Max(0.0, now - start) * cfg.refillRate >= 0.0;
  }

  // ----- What a run leaves, by its events -----

  /** The last of the first n events that is a measurement, or -1. */
  function LastTelemetry(es: seq<Event>, n: nat): (k: int)
    requires n <= |es|
    ensures -1 <= k < n && (k >= 0 ==> es[k].Telemetry?)
    ensures forall i :: k < i < n ==> !es[i].Telemetry?
  {
    if n == 0 then -1 else if es[n - 1].Telemetry? then n - 1 else LastTelemetry(es, n - 1)
  }

  function LastAttempt(es: seq<Event>, n: nat): (k: int)
    requires n <= |es|
    ensures -1 <= k < n && (k >= 0 ==> es[k].Acquire?)
    ensures forall i :: k < i < n ==> !es[i].Acquire?
  {
    if n == 0 then -1 else if es[n - 1].Acquire? then n - 1 else LastAttempt(es, n - 1)
  }

  lemma {:induction false} RunNext(cfg: Config, s: Shedder, es: seq<Event>, n: nat)
    requires n < |es|
    ensures Run(cfg, s, es[..n + 1]) == Step(cfg, Run(cfg, s, es[..n]), es[n])
    decreases n
  {
    if n > 0 {
      assert es[..n + 1][1..] == es[1..][..n] && es[..n][1..] == es[1..][..n - 1];
      RunNext(cfg, Step(cfg, s, es[0]), es[1..], n - 1);
    } else {
      assert es[..1][1..] == [] && es[..0] == [];
    }
  }

  /** A state's readings are the last ones taken, cut to 0..100, and its clock that of the last attempt. */
  lemma {:induction false} ReadingsAreLatest(cfg: Config, s: Shedder, es: seq<Event>, n: nat)
    requires n <= |es|
    ensures
      var t, k, j := Run(cfg, s, es[..n]), LastTelemetry(es, n), LastAttempt(es, n);
      && (k == -1 ==> t.cpu == s.cpu && t.ram == s.ram)
      && (k >= 0 ==>
           && 0.0 <= t.cpu <= 100.0 && (0.0 <= es[k].cpu <= 100.0 ==> t.cpu == es[k].cpu)
           && (es[k].cpu < 0.0 ==> t.cpu == 0.0) && (es[k].cpu > 100.0 ==> t.cpu == 100.0)
           && 0.0 <= t.ram <= 100.0 && (0.0 <= es[k].ram <= 100.0 ==> t.ram == es[k].ram)
           && (es[k].ram < 0.0 ==> t.ram == 0.0) && (es[k].ram > 100.0 ==> t.ram == 100.0))
      && t.lastRefill == (if j == -1 then s.lastRefill else es[j].now)
    decreases n
  {
    if n > 0 {
      ReadingsAreLatest(cfg, s, es, n - 1);
      RunNext(cfg, s, es, n - 1);
    } else {
      assert es[..0] == [];
    }
  }

  /** How many of the first n events were admitted attempts, and how many were releases. */
  function Admissions(cfg: Config, s: Shedder, es: seq<Event>, n: nat): nat
    requires n <= |es|
  {
    if n == 0 then 0
    else
      var e := es[n - 1];
      Admissions(cfg, s, es, n - 1) +
      (if e.Acquire? && Admits(cfg, Run(cfg, s, es[..n - 1]), e.now, e.priority, e.cost) then 1 else 0)
  }

  function Releases(es: seq<Event>, n: nat): nat
    requires n <= |es|
  {
    if n == 0 then 0 else Releases(es, n - 1) + (if es[n - 1].Finish? then 1 else 0)
  }

  /** As long as nobody gives back what was not taken, the permits out are the admissions less the releases. */
  lemma {:induction false} PermitsAreCounted(cfg: Config, s: Shedder, es: seq<Event>, n: nat)
    requires n <= |es| && s.concurrency == 0
    requires forall i :: 0 <= i <= n ==> Releases(es, i) <= Admissions(cfg, s, es, i)
    ensures Run(cfg, s, es[..n]).concurrency == Admissions(cfg, s, es, n) - Releases(es, n)
    decreases n
  {
    if n > 0 {
      PermitsAreCounted(cfg, s, es, n - 1);
      RunNext(cfg, s, es, n - 1);
    } else {
      assert es[..0] == [];
    }
  }

  /** Permits beyond the ceiling go to priority 0 only: without it and without retuning, they stay within. */
  lemma {:induction false} CeilingHolds(cfg: Config, s: Shedder, es: seq<Event>)
    requires 0 <= s.concurrency <= s.maxConcurrency
    requires forall e :: e in es ==> !e.Tune? && (e.Acquire? ==> e.priority >= 1)
    ensures Run(cfg, s, es).maxConcurrency == s.maxConcurrency
    ensures 0 <= Run(cfg, s, es).concurrency <= s.maxConcurrency
    decreases |es|
  {
    if es != [] {
      assert es[0] in es;
      CeilingHolds(cfg, Step(cfg, s, es[0]), es[1..]);
    }
  }

  /** Retuning keeps the ceiling in its range, and takes or adds exactly one unless it is at the end already. */
  lemma TuneWithin(s: Shedder, target: real)
    requires s.minConcurrency <= s.maxConcurrency <= 64
    ensures
      var t := Tuned(s, target);
      && t == s.(maxConcurrency := t.maxConcurrency) && s.minConcurrency <= t.maxConcurrency <= 64
      && (t.maxConcurrency == s.maxConcurrency - 1 <==> s.cpu > target && s.maxConcurrency > s.minConcurrency)
      && (t.maxConcurrency == s.maxConcurrency + 1 <==>
            s.cpu <= target && s.cpu < target - 20.0 && s.ram < 70.0 && s.maxConcurrency < 64)
      && s.maxConcurrency - 1 <= t.maxConcurrency <= s.maxConcurrency + 1
  {
  }

  predicate Sane(cfg: Config) {
    cfg.capacity >= 0.0 && cfg.refillRate >= 0.0 && cfg.minRefillRate >= 0.0
  }

  /** The clock does not run backwards and costs are not negative. */
  predicate Timely(es: seq<Event>, start: real)
    decreases |es|
  {
    es == [] ||
    if es[0].Acquire? then start <= es[0].now && es[0].cost >= 0.0 && Timely(es[1..], es[0].now)
    else Timely(es[1..], start)
  }

  predicate Within(cfg: Config, s: Shedder) {
    0.0 <= s.tokens <= cfg.capacity && s.concurrency >= 0
  }

  function MaxRate(cfg: Config): real { Max(cfg.refillRate, cfg.minRefillRate) }

  lemma RateWithin(cfg: Config, status: Status)
    requires Sane(cfg)
    ensures 0.0 <= Rate(cfg, status) <= MaxRate(cfg)
  {
  }

  /** What the highest rate refills in a span of time. */
  function Credit(cfg: Config, span: real): real { MaxRate(cfg) * span }

  lemma CreditAdds(cfg: Config, x: real, y: real)
    ensures Credit(cfg, x) + Credit(cfg, y) == Credit(cfg, x + y)
  {
  }

  lemma CreditBounds(cfg: Config, span: real, rate: real)
    requires span >= 0.0 && 0.0 <= rate <= MaxRate(cfg)
    ensures 0.0 <= span * rate <= Credit(cfg, span)
  {
    var m := MaxRate(cfg);
    assert span * (m - rate) >= 0.0;
    assert span * (m - rate) == m * span - span * rate;
  }

  lemma CreditPositive(cfg: Config, span: real)
    requires Sane(cfg) && span >= 0.0
    ensures Credit(cfg, span) >= 0.0
  {
    CreditBounds(cfg, span, 0.0);
  }

  lemma RefillWithin(cfg: Config, s: Shedder, now: real)
    requires Sane(cfg) && Within(cfg, s) && s.lastRefill <= now
    ensures Within(cfg, Refilled(cfg, s, now))
    ensures Refilled(cfg, s, now).tokens <= s.tokens + Credit(cfg, now - s.lastRefill)
  {
    RateWithin(cfg, StatusOf(Watermark(s)));
    CreditBounds(cfg, now - s.lastRefill, Rate(cfg, StatusOf(Watermark(s))));
  }

  lemma StepWithin(cfg: Config, s: Shedder, e: Event)
    requires Sane(cfg) && Within(cfg, s) && Timely([e], s.lastRefill)
    ensures Within(cfg, Step(cfg, s, e))
    ensures Step(cfg, s, e).lastRefill == if e.Acquire? then e.now else s.lastRefill
  {
    if e.Acquire? { RefillWithin(cfg, s, e.now); }
  }

  /** Tokens stay between 0 and the capacity. */
  lemma {:induction false} TokensWithin(cfg: Config, s: Shedder, es: seq<Event>)
    requires Sane(cfg) && Within(cfg, s) && Timely(es, s.lastRefill)
    ensures Within(cfg, Run(cfg, s, es))
    decreases |es|
  {
    if es != [] {
      assert [es[0]][1..] == [];
      StepWithin(cfg, s, es[0]);
      TokensWithin(cfg, Step(cfg, s, es[0]), es[1..]);
    }
  }

  /** What a state can still admit until b, counting from a. */
  function Allowance(cfg: Config, s: Shedder, a: real, b: real): real {
    if s.lastRefill < a then cfg.capacity + Credit(cfg, b - a)
    else if s.lastRefill > b then 0.0
    else s.tokens + Credit(cfg, b - s.lastRefill)
  }

  lemma AllowancePositive(cfg: Config, s: Shedder, a: real, b: real)
    requires Sane(cfg) && Within(cfg, s) && a <= b
    ensures 0.0 <= Allowance(cfg, s, a, b) <= cfg.capacity + Credit(cfg, b - a)
  {
    CreditPositive(cfg, b - a);
    if a <= s.lastRefill <= b {
      CreditPositive(cfg, b - s.lastRefill);
      CreditPositive(cfg, s.lastRefill - a);
      CreditAdds(cfg, s.lastRefill - a, b - s.lastRefill);
    }
  }

  /** Admission inside the window uses up what it costs. */
  lemma RefillAllows(cfg: Config, s: Shedder, now: real, a: real, b: real)
    requires Sane(cfg) && Within(cfg, s) && s.lastRefill <= now && a <= now <= b
    ensures Refilled(cfg, s, now).tokens + Credit(cfg, b - now) <= Allowance(cfg, s, a, b)
  {
    RefillWithin(cfg, s, now);
    if s.lastRefill < a {
      CreditPositive(cfg, now - a);
      CreditAdds(cfg, now - a, b - now);
    } else {
      CreditAdds(cfg, now - s.lastRefill, b - now);
    }
  }

  lemma AllowanceShrinks(cfg: Config, s: Shedder, e: Event, a: real, b: real)
    requires Sane(cfg) && Within(cfg, s) && Timely([e], s.lastRefill) && a <= b
    ensures CostOf(cfg, s, e, a, b) + Allowance(cfg, Step(cfg, s, e), a, b) <= Allowance(cfg, s, a, b)
  {
    if e.Acquire? {
      if e.now > b {
        AllowancePositive(cfg, s, a, b);
      } else if e.now >= a {
        RefillAllows(cfg, s, e.now, a, b);
      }
    }
  }

  lemma {:induction false} CostWithinAllowance(cfg: Config, s: Shedder, es: seq<Event>, a: real, b: real)
    requires Sane(cfg) && Within(cfg, s) && Timely(es, s.lastRefill) && a <= b
    ensures CostIn(cfg, s, es, a, b) <= Allowance(cfg, s, a, b)
    decreases |es|
  {
    if es == [] {
      AllowancePositive(cfg, s, a, b);
    } else {
      assert [es[0]][1..] == [];
      StepWithin(cfg, s, es[0]);
      AllowanceShrinks(cfg, s, es[0], a, b);
      CostWithinAllowance(cfg, Step(cfg, s, es[0]), es[1..], a, b);
    }
  }

  /** In every run and every time window the cost admitted is at most the capacity plus the highest rate times its length. */
  lemma RateBound(cfg: Config, maxConcurrency: int, minConcurrency: int, start: real, es: seq<Event>, a: real, b: real)
    requires Sane(cfg) && Timely(es, start) && a <= b
    ensures CostIn(cfg, Started(cfg, maxConcurrency, minConcurrency, start), es, a, b) <=
            cfg.capacity + Credit(cfg, b - a)
  {
    var s := Started(cfg, maxConcurrency, minConcurrency, start);
    CostWithinAllowance(cfg, s, es, a, b);
    AllowancePositive(cfg, s, a, b);
  }

  // ----- A clock that steps back -----

  lemma IdleIsNormal(s: Shedder)
    requires s.cpu == s.ram == 0.0
    ensures StatusOf(Watermark(s)) == Normal
  {
  }

  const ONE := Config(1.0, 1.0, 1.0)

  lemma OneToken(s: Shedder, now: real)
    requires s.cpu == s.ram == 0.0 && s.concurrency < s.maxConcurrency && 0.0 <= s.tokens <= 1.0
    ensures
      var refilled := Min(1.0, s.tokens + Max(0.0, now - s.lastRefill));
      && Admits(ONE, s, now, 2, 1.0) == (refilled == 1.0)
      && Step(ONE, s, Acquire(now, 2, 1.0)) ==
         if refilled == 1.0 then s.(tokens := 0.0, lastRefill := now, concurrency := s.concurrency + 1)
         else s.(tokens := refilled, lastRefill := now)
  {
    IdleIsNormal(s);
  }

  /**
   The bound needs the clock: a spent bucket admits nothing at t, but after an attempt at a reading one
   second earlier it admits at t, without any time having passed.
   */
  lemma ClockBackCredits(s: Shedder, t: real)
    requires s.cpu == s.ram == 0.0 && s.concurrency < s.maxConcurrency && s.tokens == 0.0 && s.lastRefill == t
    ensures !Admits(ONE, s, t, 2, 1.0)
    ensures Admits(ONE, Step(ONE, s, Acquire(t - 1.0, 2, 1.0)), t, 2, 1.0)
  {
    OneToken(s, t);
    OneToken(s, t - 1.0);
    OneToken(s.(lastRefill := t - 1.0), t);
  }
}
