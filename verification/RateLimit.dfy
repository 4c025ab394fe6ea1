/**
 The in-memory fixed-window rate limiter (apps/backend/api/ratelimit.go), its
 background cleanup, and the Valkey counter it is documented to match.  Times are
 nanoseconds and are arguments of every operation.
 */
module RateLimit {

  import opened Common

  const TTL := 5 * MINUTE

  datatype Counter = Counter(count: nat, windowStart: int, lastSeen: int)

  type Counters = map<string, Counter>

  /** A limiter that NewRateLimiter does not replace by the allow-all one. */
  datatype Config = Config(limit: int, window: int, ttl: int) {
    predicate Valid() { limit > 0 && window > 0 && ttl >= 0 }
  }

  // ------------------------------------------------------------ specification

  function Lookup(m: Counters, ip: string): Option<Counter> {
    if ip in m then Some(m[ip]) else None
  }

  /** One request of one key. */
  function AllowKey(cfg: Config, c: Option<Counter>, now: int): (Counter, bool) {
    var c0 := if c.Some? then c.value else Counter(0, now, now);
    var c1 := if now - c0.windowStart >= cfg.window then Counter(0, now, now) else c0.(lastSeen := now);
    if c1.count >= cfg.limit then (c1, false) else (c1.(count := c1.count + 1), true)
  }

  function Cleaned(cfg: Config, m: Counters, now: int): Counters {
    map ip | ip in m && now - m[ip].lastSeen <= cfg.ttl :: m[ip]
  }

  class RateLimiter {
    var counters: Counters
    const cfg: Config
    const allowAll: bool

    constructor (limit: int, window: int)
      ensures cfg == Config(limit, window, 5 * MINUTE) && counters == map[]
      ensures allowAll <==> limit <= 0 || window <= 0
      ensures allowAll <==> !cfg.Valid()
    {
      cfg := Config(limit, window, TTL);
      allowAll := limit <= 0 || window <= 0;
      counters := map[];
    }

    method Allow(ip: string, now: int) returns (ok: bool)
      modifies this`counters
      ensures allowAll ==> ok && counters == old(counters)
      ensures !allowAll ==>
                && ok == AllowKey(cfg, old(Lookup(counters, ip)), now).1
                && counters == old(counters)[ip := AllowKey(cfg, old(Lookup(counters, ip)), now).0]
    {
      if allowAll {
        return true;
      }
      if ip !in counters {
        counters := counters[ip := Counter(0, now, now)];
      }
      var c := counters[ip].(lastSeen := now);
      if now - c.windowStart >= cfg.window {
        c := c.(count := 0, windowStart := now);
      }
      ok := c.count < cfg.limit;
      if ok {
        c := c.(count := c.count + 1);
      }
      counters := counters[ip := c];
    }

    method Cleanup(now: int)
      modifies this`counters
      ensures counters == Cleaned(cfg, old(counters), now)
    {
      var left := counters.Keys;
      while left != {}
        invariant left <= counters.Keys <= old(counters).Keys
        invariant forall k :: k in counters ==>
                    counters[k] == old(counters)[k] && (k in left || now - counters[k].lastSeen <= cfg.ttl)
        invariant forall k :: k in old(counters) && k !in counters ==> now - old(counters)[k].lastSeen > cfg.ttl
        decreases left
      {
        var ip :| ip in left;
        if now - counters[ip].lastSeen > cfg.ttl {
          counters := counters - {ip};
        }
        left := left - {ip};
      }
    }
  }

  // --------------------------------------------------------------------- runs

  datatype Op = Allow(ip: string, now: int) | Cleanup(now: int)

  function After(cfg: Config, m: Counters, op: Op): Counters {
    match op
    case Allow(ip, now) => m[ip := AllowKey(cfg, Lookup(m, ip), now).0]
    case Cleanup(now) => Cleaned(cfg, m, now)
  }

  /** The answers to the requests of a run, in order. */
  function Answers(cfg: Config, m: Counters, ops: seq<Op>): seq<bool>
    decreases |ops|
  {
    if ops == [] then [] else
      (if ops[0].Allow? then [AllowKey(cfg, Lookup(m, ops[0].ip), ops[0].now).1] else [])
      + Answers(cfg, After(cfg, m, ops[0]), ops[1..])
  }

  function WithoutCleanup(ops: seq<Op>): seq<Op> {
    if ops == [] then [] else (if ops[0].Allow? then [ops[0]] else []) + WithoutCleanup(ops[1..])
  }

  /** The clock never goes back, and starts no earlier than `t`. */
  ghost predicate MonotoneFrom(t: int, ops: seq<Op>) {
    && (forall i :: 0 <= i < |ops| ==> t <= ops[i].now)
    && (forall i, j :: 0 <= i < j < |ops| ==> ops[i].now <= ops[j].now)
  }

  lemma {:induction false} MonotoneTail(t: int, ops: seq<Op>)
    requires MonotoneFrom(t, ops) && ops != []
    ensures t <= ops[0].now && MonotoneFrom(ops[0].now, ops[1..])
  {
  }

  // ------------------------------------------------- cleanup is not observable

  ghost predicate Sane(m: Counters, t: int) {
    forall k :: k in m ==> m[k].windowStart <= m[k].lastSeen <= t
  }

  /** `lean` is `full` without some entries that are stale at `t`. */
  ghost predicate Leaner(cfg: Config, lean: Counters, full: Counters, t: int) {
    && (forall k :: k in lean ==> k in full && lean[k] == full[k])
    && (forall k :: k in full && k !in lean ==> t - full[k].lastSeen > cfg.ttl)
  }

  lemma {:induction false} StaleIsReset(cfg: Config, c: Counter, now: int)
    requires cfg.Valid() && cfg.window <= cfg.ttl + 1
    requires c.windowStart <= c.lastSeen && now - c.lastSeen > cfg.ttl
    ensures AllowKey(cfg, Some(c), now) == AllowKey(cfg, None, now)
  {
  }

  lemma {:induction false} LeanerStep(cfg: Config, lean: Counters, full: Counters, ip: string, now: int)
    requires cfg.Valid() && cfg.window <= cfg.ttl + 1
    requires Leaner(cfg, lean, full, now) && Sane(full, now)
    ensures AllowKey(cfg, Lookup(lean, ip), now) == AllowKey(cfg, Lookup(full, ip), now)
    ensures Leaner(cfg, After(cfg, lean, Allow(ip, now)), After(cfg, full, Allow(ip, now)), now)
    ensures Sane(After(cfg, full, Allow(ip, now)), now)
  {
    if ip in full && ip !in lean {
      StaleIsReset(cfg, full[ip], now);
    }
  }

  lemma {:induction false} LeanerAnswers(cfg: Config, lean: Counters, full: Counters, t: int, ops: seq<Op>)
    requires cfg.Valid() && cfg.window <= cfg.ttl + 1
    requires Leaner(cfg, lean, full, t) && Sane(full, t) && MonotoneFrom(t, ops)
    ensures Answers(cfg, lean, ops) == Answers(cfg, full, WithoutCleanup(ops))
    decreases |ops|
  {
    if ops != [] {
      MonotoneTail(t, ops);
      var op, rest, now := ops[0], ops[1..], ops[0].now;
      if op.Allow? {
        LeanerStep(cfg, lean, full, op.ip, now);
        LeanerAnswers(cfg, After(cfg, lean, op), After(cfg, full, op), now, rest);
        var w := WithoutCleanup(ops);
        assert w[0] == op && w[1..] == WithoutCleanup(rest);
      } else {
        LeanerAnswers(cfg, Cleaned(cfg, lean, now), full, now, rest);
        assert WithoutCleanup(ops) == WithoutCleanup(rest);
      }
    }
  }

  /** With cleanup steps anywhere, a run gives the answers it would give without
      them, provided the window is at most a nanosecond longer than the ttl. */
  lemma {:induction false} CleanupUnobservable(cfg: Config, t: int, ops: seq<Op>)
    requires cfg.Valid() && cfg.window <= cfg.ttl + 1 && MonotoneFrom(t, ops)
    ensures Answers(cfg, map[], ops) == Answers(cfg, map[], WithoutCleanup(ops))
  {
    LeanerAnswers(cfg, map[], map[], t, ops);
  }

  function Yes(n: nat): seq<bool> { if n == 0 then [] else [true] + Yes(n - 1) }

  /** `n` requests of one key at one moment. */
  function Burst(ip: string, now: int, n: nat): seq<Op> {
    if n == 0 then [] else [Allow(ip, now)] + Burst(ip, now, n - 1)
  }

  lemma {:induction false} BurstOps(ip: string, now: int, n: nat)
    ensures |Burst(ip, now, n)| == n && forall i :: 0 <= i < n ==> Burst(ip, now, n)[i] == Allow(ip, now)
    ensures WithoutCleanup(Burst(ip, now, n)) == Burst(ip, now, n)
  {
    if n > 0 {
      BurstOps(ip, now, n - 1);
      assert Burst(ip, now, n)[1..] == Burst(ip, now, n - 1);
    }
  }

  lemma {:induction false} AnswersCons(cfg: Config, m: Counters, op: Op, rest: seq<Op>)
    ensures Answers(cfg, m, [op] + rest) ==
              (if op.Allow? then [AllowKey(cfg, Lookup(m, op.ip), op.now).1] else []) +
                  Answers(cfg, After(cfg, m, op), rest)
  {
    assert ([op] + rest)[1..] == rest;
  }

  /** `n` more requests of a key in its running window. */
  function Counted(m: Counters, ip: string, now: int, n: nat): Counters
    requires ip in m
  {
    if n == 0 then m else m[ip := Counter(m[ip].count + n, m[ip].windowStart, now)]
  }

  lemma {:induction false} InWindow(cfg: Config, m: Counters, ip: string, now: int, n: nat)
    requires cfg.Valid() && n > 0
    requires ip in m && 0 <= now - m[ip].windowStart < cfg.window && m[ip].count + n <= cfg.limit
    ensures AllowKey(cfg, Lookup(m, ip), now).1 && After(cfg, m, Allow(ip, now)) == Counted(m, ip, now, 1)
    ensures Counted(Counted(m, ip, now, 1), ip, now, n - 1) == Counted(m, ip, now, n)
  {
  }

  lemma {:induction false} BurstCons(ip: string, now: int, n: nat, rest: seq<Op>)
    requires n > 0
    ensures Burst(ip, now, n) + rest == [Allow(ip, now)] + (Burst(ip, now, n - 1) + rest)
  {
  }

  /** A burst that fits into the running window is allowed. */
  lemma {:induction false} BurstAnswers(cfg: Config, m: Counters, ip: string, now: int, n: nat, rest: seq<Op>)
    requires cfg.Valid()
    requires ip in m && 0 <= now - m[ip].windowStart < cfg.window && m[ip].count + n <= cfg.limit
    ensures Answers(cfg, m, Burst(ip, now, n) + rest) == Yes(n) + Answers(cfg, Counted(m, ip, now, n), rest)
    decreases n
  {
    if n == 0 {
      assert Burst(ip, now, n) + rest == rest;
    } else {
      var more := Burst(ip, now, n - 1) + rest;
      BurstCons(ip, now, n, rest);
      InWindow(cfg, m, ip, now, n);
      AnswersCons(cfg, m, Allow(ip, now), more);
      BurstAnswers(cfg, Counted(m, ip, now, 1), ip, now, n - 1, rest);
      Associate([true], Yes(n - 1), Answers(cfg, Counted(m, ip, now, n), rest));
    }
  }

  lemma {:induction false} BurstMonotone(t: int, ip: string, now: int, n: nat, rest: seq<Op>)
    requires t <= now && MonotoneFrom(now, rest)
    ensures MonotoneFrom(t, Burst(ip, now, n) + rest)
  {
    BurstOps(ip, now, n);
  }

  lemma {:induction false} FirstOfWindow(cfg: Config, c: Option<Counter>, now: int)
    requires cfg.Valid() && (c.Some? ==> now - c.value.windowStart >= cfg.window)
    ensures AllowKey(cfg, c, now) == (Counter(1, now, now), true)
  {
  }

  /** A burst of at most `limit` requests that opens a window is allowed. */
  lemma {:induction false} FreshBurst(cfg: Config, m: Counters, ip: string, now: int, n: nat, rest: seq<Op>)
    requires cfg.Valid() && 1 <= n <= cfg.limit
    requires ip in m ==> now - m[ip].windowStart >= cfg.window
    ensures Answers(cfg, m, Burst(ip, now, n) + rest) == Yes(n) + Answers(cfg, m[ip := Counter(n, now, now)], rest)
  {
    var m1 := m[ip := Counter(1, now, now)];
    var more := Burst(ip, now, n - 1) + rest;
    BurstCons(ip, now, n, rest);
    AnswersCons(cfg, m, Allow(ip, now), more);
    FirstOfWindow(cfg, Lookup(m, ip), now);
    BurstAnswers(cfg, m1, ip, now, n - 1, rest);
    assert Counted(m1, ip, now, n - 1) == m[ip := Counter(n, now, now)];
    Associate([true], Yes(n - 1), Answers(cfg, m[ip := Counter(n, now, now)], rest));
  }

  lemma {:induction false} YesThen(n: nat, b: bool)
    ensures |Yes(n)| == n && (Yes(n) + [b])[n] == b
  {
    if n > 0 {
      YesThen(n - 1, b);
    }
  }

  lemma {:induction false} LateRequest(cfg: Config, ip: string, late: int)
    requires cfg.Valid() && late == cfg.ttl + 1 < cfg.window
    ensures var full := map[ip := Counter(cfg.limit, 0, 0)];
            && Answers(cfg, full, [Cleanup(late)] + [Allow(ip, late)]) == [true]
            && Answers(cfg, full, [Allow(ip, late)]) == [false]
  {
    var full := map[ip := Counter(cfg.limit, 0, 0)];
    var last := [Allow(ip, late)];
    assert last == last + [];
    AnswersCons(cfg, full, Cleanup(late), last);
    assert Cleaned(cfg, full, late) == map[];
    AnswersCons(cfg, map[], Allow(ip, late), []);
    AnswersCons(cfg, full, Allow(ip, late), []);
  }

  lemma {:induction false} LateOps(ip: string, n: nat, late: int)
    requires late >= 0
    ensures MonotoneFrom(0, Burst(ip, 0, n) + ([Cleanup(late)] + [Allow(ip, late)]))
    ensures WithoutCleanup(Burst(ip, 0, n) + ([Cleanup(late)] + [Allow(ip, late)]))
              == Burst(ip, 0, n) + [Allow(ip, late)]
  {
    var last := [Allow(ip, late)];
    BurstOps(ip, 0, n);
    WithoutCleanupConcat(Burst(ip, 0, n), [Cleanup(late)] + last);
    WithoutCleanupConcat([Cleanup(late)], last);
    assert [Cleanup(late)][1..] == [] && last[1..] == [];
    assert WithoutCleanup(last) == last;
  }

  /** The condition is exact: with a longer window a cleanup hands out a second
      budget inside one window. */
  lemma {:induction false} CleanupObservable(cfg: Config)
    requires cfg.Valid() && cfg.window > cfg.ttl + 1
    ensures exists ops :: MonotoneFrom(0, ops) && Answers(cfg, map[], ops) != Answers(cfg, map[], WithoutCleanup(ops))
  {
    var ip, late := "ip", cfg.ttl + 1;
    var tail, last := [Cleanup(late)] + [Allow(ip, late)], [Allow(ip, late)];
    var ops := Burst(ip, 0, cfg.limit) + tail;
    LateOps(ip, cfg.limit, late);
    FreshBurst(cfg, map[], ip, 0, cfg.limit, tail);
    FreshBurst(cfg, map[], ip, 0, cfg.limit, last);
    LateRequest(cfg, ip, late);
    YesThen(cfg.limit, true);
    YesThen(cfg.limit, false);
    assert Answers(cfg, map[], ops) == Yes(cfg.limit) + [true];
    assert Answers(cfg, map[], WithoutCleanup(ops)) == Yes(cfg.limit) + [false];
  }

  lemma {:induction false} WithoutCleanupConcat(a: seq<Op>, b: seq<Op>)
    ensures WithoutCleanup(a + b) == WithoutCleanup(a) + WithoutCleanup(b)
  {
    if a == [] {
      assert a + b == b;
    } else {
      WithoutCleanupConcat(a[1..], b);
      assert (a + b)[0] == a[0] && (a + b)[1..] == a[1..] + b;
      Associate(if a[0].Allow? then [a[0]] else [], WithoutCleanup(a[1..]), WithoutCleanup(b));
    }
  }

  // ---------------------------------------------------------- the Valkey counter

  datatype Remote = Remote(start: int, count: nat)

  type Remotes = map<string, Remote>

  /** INCR with EXPIRE on the first increment: a key counts every request since
      its window began, denied ones included. */
  function RemoteKey(cfg: Config, expiry: Expiry, c: Option<Remote>, now: int): (Remote, bool) {
    var r := if c.None? || now - c.value.start >= KeySpan(cfg.window, expiry) then Remote(now, 1)
             else Remote(c.value.start, c.value.count + 1);
    (r, r.count <= cfg.limit)
  }

  function RemoteLookup(m: Remotes, ip: string): Option<Remote> {
    if ip in m then Some(m[ip]) else None
  }

  function RemoteAnswers(cfg: Config, expiry: Expiry, m: Remotes, ops: seq<Op>): seq<bool>
    decreases |ops|
  {
    if ops == [] then [] else
      match ops[0]
      case Cleanup(_) => RemoteAnswers(cfg, expiry, m, ops[1..])
      case Allow(ip, now) =>
        var r := RemoteKey(cfg, expiry, RemoteLookup(m, ip), now);
        [r.1] + RemoteAnswers(cfg, expiry, m[ip := r.0], ops[1..])
  }

  ghost predicate InStep(cfg: Config, m: Counters, r: Remotes) {
    && m.Keys == r.Keys
    && forall k :: k in m ==>
         && m[k].windowStart == r[k].start && r[k].count >= 1
         && m[k].count == if r[k].count <= cfg.limit then r[k].count else cfg.limit
  }

  lemma {:induction false} ParityFrom(cfg: Config, expiry: Expiry, m: Counters, r: Remotes, ops: seq<Op>)
    requires cfg.Valid() && KeySpan(cfg.window, expiry) == cfg.window && InStep(cfg, m, r)
    requires forall i :: 0 <= i < |ops| ==> ops[i].Allow?
    ensures Answers(cfg, m, ops) == RemoteAnswers(cfg, expiry, r, ops)
    decreases |ops|
  {
    if ops != [] {
      var ip, now := ops[0].ip, ops[0].now;
      var r' := r[ip := RemoteKey(cfg, expiry, RemoteLookup(r, ip), now).0];
      ParityFrom(cfg, expiry, After(cfg, m, ops[0]), r', ops[1..]);
    }
  }

  /** The Valkey answers do not depend on cleanups; without any, memory agrees. */
  lemma {:induction false} ParityWithoutCleanup(cfg: Config, expiry: Expiry, ops: seq<Op>)
    requires cfg.Valid() && KeySpan(cfg.window, expiry) == cfg.window
    ensures Answers(cfg, map[], WithoutCleanup(ops)) == RemoteAnswers(cfg, expiry, map[], ops)
  {
    WithoutCleanupAllows(ops);
    ParityFrom(cfg, expiry, map[], map[], WithoutCleanup(ops));
    RemoteIgnoresCleanup(cfg, expiry, map[], ops);
  }

  /** Memory and Valkey give the same answers in every run. */
  ghost predicate Parity(cfg: Config, expiry: Expiry) {
    forall t, ops :: MonotoneFrom(t, ops) ==> Answers(cfg, map[], ops) == RemoteAnswers(cfg, expiry, map[], ops)
  }

  lemma {:induction false} WithoutCleanupAllows(ops: seq<Op>)
    ensures forall i :: 0 <= i < |WithoutCleanup(ops)| ==> WithoutCleanup(ops)[i].Allow?
  {
    if ops != [] {
      WithoutCleanupAllows(ops[1..]);
    }
  }

  lemma {:induction false} RemoteIgnoresCleanup(cfg: Config, expiry: Expiry, m: Remotes, ops: seq<Op>)
    ensures RemoteAnswers(cfg, expiry, m, ops) == RemoteAnswers(cfg, expiry, m, WithoutCleanup(ops))
    decreases |ops|
  {
    if ops != [] {
      var w := WithoutCleanup(ops);
      if ops[0].Allow? {
        assert w[0] == ops[0] && w[1..] == WithoutCleanup(ops[1..]);
        var r := RemoteKey(cfg, expiry, RemoteLookup(m, ops[0].ip), ops[0].now).0;
        RemoteIgnoresCleanup(cfg, expiry, m[ops[0].ip := r], ops[1..]);
      } else {
        assert w == WithoutCleanup(ops[1..]);
        RemoteIgnoresCleanup(cfg, expiry, m, ops[1..]);
      }
    }
  }

  lemma {:induction false} RemoteCons(cfg: Config, expiry: Expiry, m: Remotes, ip: string, now: int, rest: seq<Op>)
    ensures var r := RemoteKey(cfg, expiry, RemoteLookup(m, ip), now);
            RemoteAnswers(cfg, expiry, m, [Allow(ip, now)] + rest)
                == [r.1] + RemoteAnswers(cfg, expiry, m[ip := r.0], rest)
  {
    assert ([Allow(ip, now)] + rest)[1..] == rest;
  }

  /** The counter after `n` requests at time 0. */
  function RemoteCounted(cfg: Config, expiry: Expiry, n: nat): Remote {
    Remote(0, if KeySpan(cfg.window, expiry) <= 0 then 1 else n)
  }

  /** `n` more requests at time 0, after some before. */
  lemma {:induction false} RemoteBurst(cfg: Config, expiry: Expiry, ip: string, before: nat, n: nat, rest: seq<Op>)
    requires cfg.Valid() && before + n <= cfg.limit && before + n > 0
    ensures var m: Remotes := if before == 0 then map[] else map[ip := RemoteCounted(cfg, expiry, before)];
            RemoteAnswers(cfg, expiry, m, Burst(ip, 0, n) + rest)
            == Yes(n) + RemoteAnswers(cfg, expiry, map[ip := RemoteCounted(cfg, expiry, before + n)], rest)
    decreases n
  {
    var m: Remotes := if before == 0 then map[] else map[ip := RemoteCounted(cfg, expiry, before)];
    if n == 0 {
      assert Burst(ip, 0, n) + rest == rest;
    } else {
      var m': Remotes := map[ip := RemoteCounted(cfg, expiry, before + 1)];
      BurstCons(ip, 0, n, rest);
      RemoteCons(cfg, expiry, m, ip, 0, Burst(ip, 0, n - 1) + rest);
      assert RemoteKey(cfg, expiry, RemoteLookup(m, ip), 0) == (RemoteCounted(cfg, expiry, before + 1), true);
      assert m[ip := RemoteCounted(cfg, expiry, before + 1)] == m';
      RemoteBurst(cfg, expiry, ip, before + 1, n - 1, rest);
      Associate([true], Yes(n - 1),
          RemoteAnswers(cfg, expiry, map[ip := RemoteCounted(cfg, expiry, before + n)], rest));
    }
  }

  /** A full burst and one request at the earlier of the two window ends. */
  lemma {:induction false} SpansDiffer(cfg: Config, expiry: Expiry, ip: string, late: int)
    requires cfg.Valid() && KeySpan(cfg.window, expiry) != cfg.window
    requires late == Min(KeySpan(cfg.window, expiry), cfg.window)
    ensures var ops := Burst(ip, 0, cfg.limit) + [Allow(ip, late)];
            MonotoneFrom(0, ops) && Answers(cfg, map[], ops) != RemoteAnswers(cfg, expiry, map[], ops)
  {
    var last, ops := [Allow(ip, late)], Burst(ip, 0, cfg.limit) + [Allow(ip, late)];
    var full: Counters := map[ip := Counter(cfg.limit, 0, 0)];
    var remote: Remotes := map[ip := RemoteCounted(cfg, expiry, cfg.limit)];
    BurstMonotone(0, ip, 0, cfg.limit, last);
    FreshBurst(cfg, map[], ip, 0, cfg.limit, last);
    RemoteBurst(cfg, expiry, ip, 0, cfg.limit, last);
    assert last == last + [];
    AnswersCons(cfg, full, Allow(ip, late), []);
    RemoteCons(cfg, expiry, remote, ip, late, []);
    var ours, theirs := AllowKey(cfg, Some(full[ip]), late).1, RemoteKey(cfg, expiry, Some(remote[ip]), late).1;
    assert ours != theirs;
    assert Answers(cfg, full, last) == [ours];
    assert RemoteAnswers(cfg, expiry, remote, last) == [theirs];
    YesThen(cfg.limit, ours);
    YesThen(cfg.limit, theirs);
    assert Answers(cfg, map[], ops)[cfg.limit] == ours;
    assert RemoteAnswers(cfg, expiry, map[], ops)[cfg.limit] == theirs;
  }

  /** The two modes give the same answers in all runs, cleanups included, if and
      only if Valkey ends a key's window when memory does and no cleanup can show. */
  lemma {:induction false} ParityIff(cfg: Config, expiry: Expiry)
    requires cfg.Valid()
    ensures Parity(cfg, expiry) <==> KeySpan(cfg.window, expiry) == cfg.window && cfg.window <= cfg.ttl + 1
  {
    if KeySpan(cfg.window, expiry) != cfg.window {
      SpansDiffer(cfg, expiry, "ip", Min(KeySpan(cfg.window, expiry), cfg.window));
    } else if cfg.window > cfg.ttl + 1 {
      CleanupObservable(cfg);
      var ops :| MonotoneFrom(0, ops) && Answers(cfg, map[], ops) != Answers(cfg, map[], WithoutCleanup(ops));
      ParityWithoutCleanup(cfg, expiry, ops);
    } else {
      forall t, ops | MonotoneFrom(t, ops)
        ensures Answers(cfg, map[], ops) == RemoteAnswers(cfg, expiry, map[], ops)
      {
        CleanupUnobservable(cfg, t, ops);
        ParityWithoutCleanup(cfg, expiry, ops);
      }
    }
  }

  /** The spans are equal for whole seconds if a key is gone at its deadline. */
  lemma {:induction false} EqualSpans(window: int)
    requires window > 0
    ensures KeySpan(window, AtDeadline) == window <==> window % SECOND == 0
    ensures KeySpan(window, AfterDeadline) == window <==> window > SECOND && window % SECOND == 1
  {
  }

  // ------------------------------------------------------------------- budgets

  /** How many of the requests of `ip` in [from, from + width) were allowed. */
  function Tally(ops: seq<Op>, answers: seq<bool>, ip: string, from: int, width: int): nat
    decreases |ops|
  {
    if ops == [] || answers == [] then 0
    else if ops[0].Cleanup? then Tally(ops[1..], answers, ip, from, width)
    else (if ops[0].ip == ip && answers[0] && from <= ops[0].now < from + width then 1 else 0)
         + Tally(ops[1..], answers[1..], ip, from, width)
  }

  /** What the key can still get in an interval of one window. */
  function Cap(cfg: Config, c: Option<Counter>, from: int): int {
    if c.None? || c.value.lastSeen < from then 2 * cfg.limit - 1
    else if c.value.windowStart >= from then cfg.limit - c.value.count
    else 2 * cfg.limit - c.value.count
  }

  ghost predicate Counting(cfg: Config, m: Counters, t: int) {
    Sane(m, t) && forall k :: k in m ==> 1 <= m[k].count <= cfg.limit
  }

  lemma {:induction false} NoneLate(ops: seq<Op>, answers: seq<bool>, ip: string, from: int, width: int, t: int)
    requires MonotoneFrom(t, ops) && t >= from + width
    ensures Tally(ops, answers, ip, from, width) == 0
    decreases |ops|
  {
    if ops != [] && answers != [] {
      MonotoneTail(t, ops);
      NoneLate(ops[1..], if ops[0].Cleanup? then answers else answers[1..], ip, from, width, ops[0].now);
    }
  }

  lemma {:induction false} CapStep(cfg: Config, m: Counters, ip: string, now: int, from: int)
    requires cfg.Valid() && Counting(cfg, m, now) && now < from + cfg.window
    ensures Counting(cfg, After(cfg, m, Allow(ip, now)), now)
    ensures Cap(cfg, Lookup(After(cfg, m, Allow(ip, now)), ip), from)
            + (if AllowKey(cfg, Lookup(m, ip), now).1 && from <= now then 1 else 0) <= Cap(cfg, Lookup(m, ip), from)
  {
  }

  lemma {:induction false} TallyBound(cfg: Config, m: Counters, t: int, ops: seq<Op>, ip: string, from: int)
    requires cfg.Valid() && Counting(cfg, m, t) && MonotoneFrom(t, ops)
    requires forall i :: 0 <= i < |ops| ==> ops[i].Allow?
    ensures Tally(ops, Answers(cfg, m, ops), ip, from, cfg.window) <= Cap(cfg, Lookup(m, ip), from)
    decreases |ops|
  {
    if ops != [] {
      MonotoneTail(t, ops);
      var op, rest := ops[0], ops[1..];
      var m' := After(cfg, m, op);
      var answers := Answers(cfg, m, ops);
      assert answers[0] == AllowKey(cfg, Lookup(m, op.ip), op.now).1 && answers[1..] == Answers(cfg, m', rest);
      if op.now >= from + cfg.window {
        NoneLate(ops, answers, ip, from, cfg.window, op.now);
      } else {
        CapStep(cfg, m, op.ip, op.now, from);
        TallyBound(cfg, m', op.now, rest, ip, from);
      }
    }
  }

  lemma {:induction false} TallyIgnoresCleanup(ops: seq<Op>, answers: seq<bool>, ip: string, from: int, width: int)
    ensures Tally(ops, answers, ip, from, width) == Tally(WithoutCleanup(ops), answers, ip, from, width)
    decreases |ops|
  {
    if ops != [] && answers != [] {
      var w := WithoutCleanup(ops);
      if ops[0].Allow? {
        assert w[0] == ops[0] && w[1..] == WithoutCleanup(ops[1..]);
        TallyIgnoresCleanup(ops[1..], answers[1..], ip, from, width);
      } else {
        assert w == WithoutCleanup(ops[1..]);
        TallyIgnoresCleanup(ops[1..], answers, ip, from, width);
      }
    }
  }

  lemma {:induction false} WithoutCleanupMonotone(t: int, ops: seq<Op>)
    requires MonotoneFrom(t, ops)
    ensures MonotoneFrom(t, WithoutCleanup(ops))
    decreases |ops|
  {
    if ops != [] {
      MonotoneTail(t, ops);
      WithoutCleanupMonotone(ops[0].now, ops[1..]);
    }
  }

  /** In any half-open interval of one window's length, whatever the other keys
      and the cleanup do, a key gets at most 2 * limit - 1 requests through. */
  lemma {:induction false} IntervalBudget(cfg: Config, t: int, ops: seq<Op>, ip: string, from: int)
    requires cfg.Valid() && cfg.window <= cfg.ttl + 1 && MonotoneFrom(t, ops)
    ensures Tally(ops, Answers(cfg, map[], ops), ip, from, cfg.window) <= 2 * cfg.limit - 1
  {
    CleanupUnobservable(cfg, t, ops);
    TallyIgnoresCleanup(ops, Answers(cfg, map[], ops), ip, from, cfg.window);
    WithoutCleanupAllows(ops);
    WithoutCleanupMonotone(t, ops);
    TallyBound(cfg, map[], t, WithoutCleanup(ops), ip, from);
  }

  /** The counters at the end of a run. */
  function Ran(cfg: Config, m: Counters, ops: seq<Op>): Counters
    decreases |ops|
  {
    if ops == [] then m else Ran(cfg, After(cfg, m, ops[0]), ops[1..])
  }

  lemma {:induction false} AnswersConcat(cfg: Config, m: Counters, a: seq<Op>, b: seq<Op>)
    ensures Answers(cfg, m, a + b) == Answers(cfg, m, a) + Answers(cfg, Ran(cfg, m, a), b)
    decreases |a|
  {
    if a == [] {
      assert a + b == b;
    } else {
      var m' := After(cfg, m, a[0]);
      AnswersConcat(cfg, m', a[1..], b);
      assert a + b == [a[0]] + (a[1..] + b) && a == [a[0]] + a[1..];
      AnswersCons(cfg, m, a[0], a[1..] + b);
      AnswersCons(cfg, m, a[0], a[1..]);
      Associate(if a[0].Allow? then [AllowKey(cfg, Lookup(m, a[0].ip), a[0].now).1] else [],
                Answers(cfg, m', a[1..]), Answers(cfg, Ran(cfg, m', a[1..]), b));
    }
  }

  lemma {:induction false} RanCounting(cfg: Config, m: Counters, t: int, ops: seq<Op>, now: int)
    requires cfg.Valid() && Counting(cfg, m, t) && MonotoneFrom(t, ops) && t <= now
    requires forall i :: 0 <= i < |ops| ==> ops[i].now <= now
    ensures Counting(cfg, Ran(cfg, m, ops), now)
    decreases |ops|
  {
    if ops != [] {
      MonotoneTail(t, ops);
      if ops[0].Allow? { CapStep(cfg, m, ops[0].ip, ops[0].now, ops[0].now); }
      RanCounting(cfg, After(cfg, m, ops[0]), ops[0].now, ops[1..], now);
    }
  }

  /** In the rest of a run from a counting state, cleanups included, the running
      window lets at most what is left of the limit through. */
  lemma {:induction false} RestOfWindow(cfg: Config, m: Counters, t: int, ops: seq<Op>, ip: string)
    requires cfg.Valid() && cfg.window <= cfg.ttl + 1
    requires Counting(cfg, m, t) && MonotoneFrom(t, ops) && ip in m
    ensures Tally(ops, Answers(cfg, m, ops), ip, m[ip].windowStart, cfg.window) <= cfg.limit - m[ip].count
  {
    LeanerAnswers(cfg, m, m, t, ops);
    TallyIgnoresCleanup(ops, Answers(cfg, m, ops), ip, m[ip].windowStart, cfg.window);
    WithoutCleanupAllows(ops);
    WithoutCleanupMonotone(t, ops);
    TallyBound(cfg, m, t, WithoutCleanup(ops), ip, m[ip].windowStart);
  }

  lemma {:induction false} MonotoneAround(t: int, before: seq<Op>, op: Op, rest: seq<Op>)
    requires MonotoneFrom(t, before + ([op] + rest))
    ensures MonotoneFrom(t, before) && t <= op.now && MonotoneFrom(op.now, rest)
    ensures forall i :: 0 <= i < |before| ==> before[i].now <= op.now
  {
    var all := before + ([op] + rest);
    assert all[|before|] == op;
    assert forall i :: 0 <= i < |before| ==> all[i] == before[i];
    assert forall i :: 0 <= i < |rest| ==> all[|before| + 1 + i] == rest[i];
  }

  /** In every run, cleanups included, at most `limit` requests of a key are let
      through from the request that opens a window to the window's end. */
  lemma {:induction false} WindowBudget(cfg: Config, t: int, before: seq<Op>, ip: string, now: int, rest: seq<Op>)
    requires cfg.Valid() && cfg.window <= cfg.ttl + 1
    requires MonotoneFrom(t, before + ([Allow(ip, now)] + rest))
    requires var c := Lookup(Ran(cfg, map[], before), ip); c.None? || now - c.value.windowStart >= cfg.window
    ensures var ops := [Allow(ip, now)] + rest;
            var answers := Answers(cfg, Ran(cfg, map[], before), ops);
            && Answers(cfg, map[], before + ops) == Answers(cfg, map[], before) + answers
            && Tally(ops, answers, ip, now, cfg.window) <= cfg.limit
  {
    var m := Ran(cfg, map[], before);
    var ops := [Allow(ip, now)] + rest;
    AnswersConcat(cfg, map[], before, ops);
    MonotoneAround(t, before, Allow(ip, now), rest);
    RanCounting(cfg, map[], t, before, now);
    FirstOfWindow(cfg, Lookup(m, ip), now);
    AnswersCons(cfg, m, Allow(ip, now), rest);
    var m1 := m[ip := Counter(1, now, now)];
    RestOfWindow(cfg, m1, now, rest, ip);
    assert ops[1..] == rest && Answers(cfg, m, ops)[1..] == Answers(cfg, m1, rest);
  }

  lemma {:induction false} TallyBurst(n: nat, rest: seq<Op>, answers: seq<bool>, ip: string, now: int, from: int,
      width: int)
    requires from <= now < from + width
    ensures Tally(Burst(ip, now, n) + rest, Yes(n) + answers, ip, from, width)
              == n + Tally(rest, answers, ip, from, width)
    decreases n
  {
    var ops, all := Burst(ip, now, n) + rest, Yes(n) + answers;
    if n == 0 {
      assert ops == rest && all == answers;
    } else {
      assert ops[0] == Allow(ip, now) && ops[1..] == Burst(ip, now, n - 1) + rest;
      assert all[0] && all[1..] == Yes(n - 1) + answers;
      TallyBurst(n - 1, rest, answers, ip, now, from, width);
    }
  }

  lemma {:induction false} ThreeBursts(ip: string, w: int, n: nat)
    requires w >= 2
    ensures MonotoneFrom(0, Burst(ip, 0, 1) + (Burst(ip, w - 1, n) + (Burst(ip, w, n + 1) + [])))
  {
    BurstMonotone(w, ip, w, n + 1, []);
    BurstMonotone(w - 1, ip, w - 1, n, Burst(ip, w, n + 1) + []);
    BurstMonotone(0, ip, 0, 1, Burst(ip, w - 1, n) + (Burst(ip, w, n + 1) + []));
  }

  lemma {:induction false} ThreeBurstAnswers(cfg: Config, ip: string)
    requires cfg.Valid() && cfg.window >= 2
    ensures var w, n := cfg.window, cfg.limit - 1;
            Answers(cfg, map[], Burst(ip, 0, 1) + (Burst(ip, w - 1, n) + (Burst(ip, w, n + 1) + [])))
            == Yes(1) + (Yes(n) + (Yes(n + 1) + []))
  {
    var w, n: nat := cfg.window, cfg.limit - 1;
    var b1, b2 := Burst(ip, w - 1, n), Burst(ip, w, n + 1);
    var m1: Counters := map[ip := Counter(1, 0, 0)];
    var m2 := Counted(m1, ip, w - 1, n);
    FreshBurst(cfg, map[], ip, 0, 1, b1 + (b2 + []));
    BurstAnswers(cfg, m1, ip, w - 1, n, b2 + []);
    FreshBurst(cfg, m2, ip, w, n + 1, []);
  }

  /** The bound is attained: one request, a burst at the end of its window and a
      full burst at the beginning of the next. */
  lemma {:induction false} IntervalBudgetTight(cfg: Config)
    requires cfg.Valid() && cfg.window >= 2
    ensures exists ops :: MonotoneFrom(0, ops) &&
              Tally(ops, Answers(cfg, map[], ops), "ip", 1, cfg.window) == 2 * cfg.limit - 1
  {
    var ip, w, n: nat := "ip", cfg.window, cfg.limit - 1;
    var b1, b2 := Burst(ip, w - 1, n), Burst(ip, w, n + 1);
    var ops := Burst(ip, 0, 1) + (b1 + (b2 + []));
    var answers := Yes(1) + (Yes(n) + (Yes(n + 1) + []));
    ThreeBursts(ip, w, n);
    ThreeBurstAnswers(cfg, ip);
    assert Yes(1) == [true] && Burst(ip, 0, 1) == [Allow(ip, 0)];
    assert ops[1..] == b1 + (b2 + []) && answers[1..] == Yes(n) + (Yes(n + 1) + []);
    TallyBurst(n, b2 + [], Yes(n + 1) + [], ip, w - 1, 1, w);
    TallyBurst(n + 1, [], [], ip, w, 1, w);
    assert Tally(ops, answers, ip, 1, w) == 2 * n + 1;
  }
}
