/** The admission gate: a Lua script over two expiring Redis keys, its reference that keeps
    time stamps for ever, and the bounds both give on every history. */
module AdmissionGate {
  import opened Collections

  /** Milliseconds of the Redis clock. */
  type Millis = nat
  type Token = string

  datatype Limits = Limits(permits: int, rate: int)

  /** The sorted set with its expiry, and the rate key with its own. */
  datatype Redis = Redis(holders: map<Token, Millis>, holdersUntil: Millis, next: Option<Millis>, nextUntil: Millis)

  const PERMIT: Millis := 10000
  const PERMIT_KEY: Millis := 11000

  /** `math.ceil(1000/rate)` */
  function Interval(rate: int): (n: nat)
    requires rate > 0
    ensures n >= 1 && (n - 1) * rate < 1000 <= n * rate
  {
    CeilDivision(rate);
    (1000 + rate - 1) / rate
  }

  lemma CeilDivision(rate: int)
    requires rate > 0
    ensures var n := (1000 + rate - 1) / rate; n >= 1 && (n - 1) * rate < 1000 <= n * rate
  {
    var n, r := (1000 + rate - 1) / rate, (1000 + rate - 1) % rate;
    assert n * rate + r == 1000 + rate - 1;
    assert (n - 1) * rate == n * rate - rate;
    assert n <= 0 ==> n * rate <= 0;
  }

  // ---------- the script ----------

  /** Keys whose expiry has passed read as absent. */
  function Present(r: Redis, now: Millis): Redis {
    Redis(if now > r.holdersUntil then map[] else r.holders, r.holdersUntil,
          if now > r.nextUntil then None else r.next, r.nextUntil)
  }

  /** `ZREMRANGEBYSCORE -inf now` */
  function Unexpired(holders: map<Token, Millis>, now: Millis): map<Token, Millis> {
    map t | t in holders && holders[t] > now :: holders[t]
  }

  function NextTime(r: Redis): Millis { if r.next.Some? then r.next.value else 0 }

  predicate Admits(limits: Limits, r: Redis, now: Millis) {
    var p := Present(r, now);
    |Unexpired(p.holders, now)| < limits.permits && (limits.rate > 0 ==> NextTime(p) <= now)
  }

  function Enter(limits: Limits, r: Redis, token: Token, now: Millis): Redis {
    var p := Present(r, now);
    var q := p.(holders := Unexpired(p.holders, now));
    if !Admits(limits, r, now) then q
    else
      var paced := if limits.rate > 0
                   then q.(next := Some(now + Interval(limits.rate)), nextUntil := now + Interval(limits.rate) + 1000) else q;
      paced.(holders := q.holders[token := now + PERMIT], holdersUntil := now + PERMIT_KEY)
  }

  function Leave(r: Redis, token: Token): Redis {
    r.(holders := r.holders - {token})
  }

  // ---------- the reference ----------

  /** Who was admitted when and has not left, and the last admission of all. */
  datatype Log = Log(entered: map<Token, Millis>, last: Option<Millis>)

  function Inside(log: Log, now: Millis): set<Token> {
    set t | t in log.entered && now < log.entered[t] + PERMIT
  }

  predicate LogAdmits(limits: Limits, log: Log, now: Millis) {
    && |Inside(log, now)| < limits.permits
    && (limits.rate > 0 && log.last.Some? ==> log.last.value + Interval(limits.rate) <= now)
  }

  function LogEnter(limits: Limits, log: Log, token: Token, now: Millis): Log {
    if LogAdmits(limits, log, now) then Log(log.entered[token := now], Some(now)) else log
  }

  function LogLeave(log: Log, token: Token): Log {
    log.(entered := log.entered - {token})
  }

  // ---------- histories ----------

  datatype Visit = Entering(token: Token, at: Millis) | Leaving(token: Token, at: Millis)

  /** The Redis server's clock does not run backwards. */
  ghost predicate Chronological(h: seq<Visit>, from: Millis) {
    && (h != [] ==> from <= h[0].at)
    && forall i :: 0 < i < |h| ==> h[i - 1].at <= h[i].at
  }

  function Step(limits: Limits, r: Redis, v: Visit): Redis {
    match v
    case Entering(token, at) => Enter(limits, r, token, at)
    case Leaving(token, _) => Leave(r, token)
  }

  function LogStep(limits: Limits, log: Log, v: Visit): Log {
    match v
    case Entering(token, at) => LogEnter(limits, log, token, at)
    case Leaving(token, _) => LogLeave(log, token)
  }

  /** The decisions of the expiring gate along a history. */
  function Decisions(limits: Limits, r: Redis, h: seq<Visit>): seq<bool>
    decreases |h|
  {
    if h == [] then [] else
      [h[0].Entering? && Admits(limits, r, h[0].at)] + Decisions(limits, Step(limits, r, h[0]), h[1..])
  }

  function LogDecisions(limits: Limits, log: Log, h: seq<Visit>): seq<bool>
    decreases |h|
  {
    if h == [] then [] else
      [h[0].Entering? && LogAdmits(limits, log, h[0].at)] + LogDecisions(limits, LogStep(limits, log, h[0]), h[1..])
  }

  function LogAfter(limits: Limits, log: Log, h: seq<Visit>): Log
    decreases |h|
  {
    if h == [] then log else LogAfter(limits, LogStep(limits, log, h[0]), h[1..])
  }

  function RedisAfter(limits: Limits, r: Redis, h: seq<Visit>): Redis
    decreases |h|
  {
    if h == [] then r else RedisAfter(limits, Step(limits, r, h[0]), h[1..])
  }

  const EMPTY: Redis := Redis(map[], 0, None, 0)
  const NOTHING: Log := Log(map[], None)

  /** What the expiring keys still say is true, and what they have forgotten no longer
      matters at any time from `clock` on. */
  ghost predicate Faithful(limits: Limits, r: Redis, log: Log, clock: Millis) {
    && (forall t :: t in log.entered ==> log.entered[t] <= clock)
    && (forall t :: t in r.holders ==> t in log.entered && r.holders[t] == log.entered[t] + PERMIT && r.holders[t] + 1000 <= r.holdersUntil)
    && (forall t :: t in log.entered && t !in r.holders ==> log.entered[t] + PERMIT <= clock)
    && (r.next.Some? ==> limits.rate > 0 && log.last.Some? && r.next.value == log.last.value + Interval(limits.rate)
                         && r.nextUntil == r.next.value + 1000)
    && (limits.rate > 0 && r.next.None? && log.last.Some? ==> log.last.value + Interval(limits.rate) <= clock)
  }

  lemma SameHolders(limits: Limits, r: Redis, log: Log, clock: Millis, now: Millis)
    requires Faithful(limits, r, log, clock) && clock <= now
    ensures Unexpired(Present(r, now).holders, now).Keys == Inside(log, now)
  {
  }

  lemma SameDecision(limits: Limits, r: Redis, log: Log, clock: Millis, now: Millis)
    requires Faithful(limits, r, log, clock) && clock <= now
    ensures Admits(limits, r, now) == LogAdmits(limits, log, now)
  {
    SameHolders(limits, r, log, clock, now);
    var h := Unexpired(Present(r, now).holders, now);
    assert |h| == |h.Keys|;
  }

  lemma StepFaithful(limits: Limits, r: Redis, log: Log, clock: Millis, v: Visit)
    requires Faithful(limits, r, log, clock) && clock <= v.at
    ensures Faithful(limits, Step(limits, r, v), LogStep(limits, log, v), v.at)
  {
    if v.Entering? { SameDecision(limits, r, log, clock, v.at); }
  }

  /** Letting the two keys vanish changes no decision on any history. */
  lemma {:induction false} ExpiryChangesNothing(limits: Limits, r: Redis, log: Log, clock: Millis, h: seq<Visit>)
    requires Faithful(limits, r, log, clock) && Chronological(h, clock)
    ensures Decisions(limits, r, h) == LogDecisions(limits, log, h)
    decreases |h|
  {
    if h != [] {
      if h[0].Entering? { SameDecision(limits, r, log, clock, h[0].at); }
      StepFaithful(limits, r, log, clock, h[0]);
      ExpiryChangesNothing(limits, Step(limits, r, h[0]), LogStep(limits, log, h[0]), h[0].at, h[1..]);
    }
  }

  lemma GateRefinesLog(limits: Limits, h: seq<Visit>)
    requires Chronological(h, 0)
    ensures Decisions(limits, EMPTY, h) == LogDecisions(limits, NOTHING, h)
  {
    ExpiryChangesNothing(limits, EMPTY, NOTHING, 0, h);
  }

  // ---------- bounds ----------

  lemma InsideShrinks(log: Log, before: Millis, now: Millis)
    requires before <= now
    ensures |Inside(log, now)| <= |Inside(log, before)|
  {
    SubsetSize(Inside(log, now), Inside(log, before));
  }

  /** Without a positive number of permits nobody is admitted. */
  function Capacity(limits: Limits): nat { if limits.permits > 0 then limits.permits else 0 }

  lemma EnterInside(limits: Limits, log: Log, token: Token, now: Millis)
    requires |Inside(log, now)| <= Capacity(limits)
    ensures |Inside(LogEnter(limits, log, token, now), now)| <= Capacity(limits)
  {
    if LogAdmits(limits, log, now) {
      assert Inside(LogEnter(limits, log, token, now), now) == Inside(log, now) + {token};
    }
  }

  lemma {:induction false} InsideBounded(limits: Limits, log: Log, clock: Millis, h: seq<Visit>, now: Millis)
    requires |Inside(log, clock)| <= Capacity(limits)
    requires Chronological(h, clock) && clock <= now && (h != [] ==> h[|h| - 1].at <= now)
    ensures |Inside(LogAfter(limits, log, h), now)| <= Capacity(limits)
    decreases |h|
  {
    if h == [] {
      InsideShrinks(log, clock, now);
    } else {
      var v := h[0];
      InsideShrinks(log, clock, v.at);
      if v.Entering? {
        EnterInside(limits, log, v.token, v.at);
      } else {
        SubsetSize(Inside(LogLeave(log, v.token), v.at), Inside(log, v.at));
      }
      ChronologicalEnd(h);
      InsideBounded(limits, LogStep(limits, log, v), v.at, h[1..], now);
    }
  }

  lemma {:induction false} ChronologicalEnd(h: seq<Visit>)
    requires h != [] && forall i :: 0 < i < |h| ==> h[i - 1].at <= h[i].at
    ensures h[0].at <= h[|h| - 1].at
  {
    if |h| > 1 { ChronologicalEnd(h[..|h| - 1]); }
  }

  /** The reference never counts more tokens than permits, and the expiring gate counts the same. */
  lemma InsideNeverExceeded(limits: Limits, h: seq<Visit>, now: Millis)
    requires Chronological(h, 0) && (h != [] ==> h[|h| - 1].at <= now)
    ensures |Inside(LogAfter(limits, NOTHING, h), now)| <= Capacity(limits)
    ensures Unexpired(Present(RedisAfter(limits, EMPTY, h), now).holders, now).Keys == Inside(LogAfter(limits, NOTHING, h), now)
  {
    assert Inside(NOTHING, 0) == {};
    InsideBounded(limits, NOTHING, 0, h, now);
    var clock := AfterFaithful(limits, EMPTY, NOTHING, 0, h, now);
    SameHolders(limits, RedisAfter(limits, EMPTY, h), LogAfter(limits, NOTHING, h), clock, now);
  }

  lemma {:induction false} AfterFaithful(limits: Limits, r: Redis, log: Log, clock: Millis, h: seq<Visit>, now: Millis)
    returns (end: Millis)
    requires Faithful(limits, r, log, clock) && Chronological(h, clock) && clock <= now && (h != [] ==> h[|h| - 1].at <= now)
    ensures end <= now && Faithful(limits, RedisAfter(limits, r, h), LogAfter(limits, log, h), end)
    decreases |h|
  {
    if h == [] { return clock; }
    StepFaithful(limits, r, log, clock, h[0]);
    ChronologicalEnd(h);
    end := AfterFaithful(limits, Step(limits, r, h[0]), LogStep(limits, log, h[0]), h[0].at, h[1..], now);
  }

  /** The times of the admissions the gate grants along a history. */
  function Admissions(limits: Limits, r: Redis, h: seq<Visit>): seq<Millis>
    decreases |h|
  {
    if h == [] then [] else
      (if h[0].Entering? && Admits(limits, r, h[0].at) then [h[0].at] else []) + Admissions(limits, Step(limits, r, h[0]), h[1..])
  }

  ghost predicate Spaced(times: seq<Millis>, gap: nat) {
    forall i, j :: 0 <= i < j < |times| ==> times[i] + (j - i) * gap <= times[j]
  }

  lemma SpacedCons(t: Millis, times: seq<Millis>, gap: nat)
    requires Spaced(times, gap) && (times != [] ==> t + gap <= times[0])
    ensures Spaced([t] + times, gap)
  {
    var all := [t] + times;
    forall i, j | 0 <= i < j < |all| ensures all[i] + (j - i) * gap <= all[j] {
      if i == 0 {
        assert j > 1 ==> times[0] + (j - 1 - 0) * gap <= times[j - 1];
        assert (j - 0) * gap == gap + (j - 1) * gap;
      } else {
        assert times[i - 1] + ((j - 1) - (i - 1)) * gap <= times[j - 1];
      }
    }
  }

  lemma {:induction false} AdmissionsSpaced(limits: Limits, r: Redis, log: Log, clock: Millis, h: seq<Visit>)
    requires limits.rate > 0 && Faithful(limits, r, log, clock) && Chronological(h, clock)
    ensures var times := Admissions(limits, r, h);
            Spaced(times, Interval(limits.rate))
            && (times != [] && log.last.Some? ==> log.last.value + Interval(limits.rate) <= times[0])
    decreases |h|
  {
    if h != [] {
      var v := h[0];
      StepFaithful(limits, r, log, clock, v);
      AdmissionsSpaced(limits, Step(limits, r, v), LogStep(limits, log, v), v.at, h[1..]);
      if v.Entering? {
        SameDecision(limits, r, log, clock, v.at);
        if Admits(limits, r, v.at) {
          SpacedCons(v.at, Admissions(limits, Step(limits, r, v), h[1..]), Interval(limits.rate));
        }
      }
    }
  }

  lemma Quotient(x: nat, gap: nat, w: nat)
    requires gap >= 1 && x * gap <= w
    ensures x <= w / gap
  {
    var q := w / gap;
    assert w == q * gap + w % gap;
    assert (q + 1) * gap == q * gap + gap;
    assert x >= q + 1 ==> x * gap >= (q + 1) * gap;
  }

  lemma SpacedWindow(times: seq<Millis>, gap: nat, i: nat, j: nat, w: nat)
    requires gap >= 1 && Spaced(times, gap) && i < j <= |times| && times[j - 1] - times[i] <= w
    ensures j - i <= w / gap + 1
  {
    if i < j - 1 {
      assert times[i] + (j - 1 - i) * gap <= times[j - 1];
      Quotient(j - 1 - i, gap, w);
    }
  }

  /** With a rate set, consecutive admissions are at least ceil(1000/rate) ms apart, so any
      window of `w` ms holds at most w / ceil(1000/rate) + 1 of them. */
  lemma RateBound(limits: Limits, h: seq<Visit>, i: nat, j: nat, w: nat)
    requires limits.rate > 0 && Chronological(h, 0)
    requires i < j <= |Admissions(limits, EMPTY, h)|
    requires Admissions(limits, EMPTY, h)[j - 1] - Admissions(limits, EMPTY, h)[i] <= w
    ensures Spaced(Admissions(limits, EMPTY, h), Interval(limits.rate))
    ensures j - i <= w / Interval(limits.rate) + 1
  {
    AdmissionsSpaced(limits, EMPTY, NOTHING, 0, h);
    SpacedWindow(Admissions(limits, EMPTY, h), Interval(limits.rate), i, j, w);
  }

  // ---------- the component ----------

  datatype Fault = NoFault | Unreachable | ReplyLost
  datatype GateAnswer = Open(permit: Option<Token>) | Busy | Unavailable

  lemma Returned(r: Redis, q: Redis, permit: Option<Token>, fault: Fault)
    requires forall t :: t in q.holders <==> t in r.holders && (permit == Some(t) ==> fault.Unreachable?)
    requires forall t :: t in q.holders ==> q.holders[t] == r.holders[t]
    requires q == r.(holders := q.holders)
    ensures q == if permit.None? || fault.Unreachable? then r else Leave(r, permit.value)
  {
    if permit.None? || fault.Unreachable? { assert q.holders == r.holders; } else { assert q.holders == r.holders - {permit.value}; }
  }

  class Gate {
    const enabled: bool
    const limits: Limits
    var redis: Redis

    constructor (enabled: bool, limits: Limits)
      ensures redis == EMPTY && this.enabled == enabled && this.limits == limits
    {
      this.enabled := enabled;
      this.limits := limits;
      redis := EMPTY;
    }

    /** A lost reply leaves the script's effect behind although the caller sees a failure. */
    method TryEnter(token: Token, now: Millis, fault: Fault) returns (answer: GateAnswer)
      modifies this
      ensures !enabled ==> answer == Open(None) && redis == old(redis)
      ensures enabled && fault.Unreachable? ==> answer == Unavailable && redis == old(redis)
      ensures enabled && !fault.Unreachable? ==> redis == Enter(limits, old(redis), token, now)
      ensures enabled && fault.ReplyLost? ==> answer == Unavailable
      ensures enabled && fault.NoFault? ==> answer == if Admits(limits, old(redis), now) then Open(Some(token)) else Busy
    {
      if !enabled { return Open(None); }
      if fault.Unreachable? { return Unavailable; }
      var admitted := false;
      redis := Present(redis, now);
      redis := redis.(holders := Unexpired(redis.holders, now));
      if |redis.holders| < limits.permits {
        if limits.rate > 0 {
          if now >= NextTime(redis) {
            var interval := Interval(limits.rate);
            redis := redis.(next := Some(now + interval), nextUntil := now + interval + 1000);
            admitted := true;
          }
        } else {
          admitted := true;
        }
        if admitted { redis := redis.(holders := redis.holders[token := now + PERMIT], holdersUntil := now + PERMIT_KEY); }
      }
      if fault.ReplyLost? { return Unavailable; }
      answer := if admitted then Open(Some(token)) else Busy;
    }

    /** Cleanup never fails the caller; an unreachable Redis keeps the permit until it expires. */
    method ReturnPermit(permit: Option<Token>, fault: Fault)
      modifies this
      ensures forall t :: t in redis.holders <==> t in old(redis.holders) && (permit == Some(t) ==> fault.Unreachable?)
      ensures forall t :: t in redis.holders ==> redis.holders[t] == old(redis.holders)[t]
      ensures redis == old(redis).(holders := redis.holders)
    {
      if permit.None? || fault.Unreachable? { return; }
      redis := Leave(redis, permit.value);
    }
  }
}
