/**
 The in-memory login limiter with lockout (apps/backend/api/ratelimit.go) and its
 background cleanup.  Times are nanoseconds and are arguments of every operation.
 */
module LoginLimit {

  import opened Common

  datatype Attempts = Attempts(count: int, firstSeen: int, lastSeen: int, lockedUntil: Option<int>)

  datatype Config = Config(maxAttempts: int, window: int, lockout: int)

  datatype Verdict = Verdict(allowed: bool, remaining: int, lockedUntil: Option<int>)

  type Table = map<string, Attempts>

  // ------------------------------------------------------------ specification

  function Lookup(m: Table, ip: string): Option<Attempts> {
    if ip in m then Some(m[ip]) else None
  }

  predicate Locked(e: Attempts, now: int) { e.lockedUntil.Some? && now < e.lockedUntil.value }

  predicate Expired(cfg: Config, e: Attempts, now: int) { now - e.firstSeen > cfg.window }

  /** One login attempt of one key. */
  function CheckKey(cfg: Config, e: Option<Attempts>, now: int): (Attempts, Verdict) {
    if e.Some? && Locked(e.value, now) then (e.value, Verdict(false, 0, e.value.lockedUntil))
    else if e.None? || Expired(cfg, e.value, now) then
      (Attempts(1, now, now, None), Verdict(true, cfg.maxAttempts - 1, None))
    else
      var n := e.value.count + 1;
      if n >= cfg.maxAttempts then
        (Attempts(n, e.value.firstSeen, now, Some(now + cfg.lockout)), Verdict(false, 0, Some(now + cfg.lockout)))
      else (Attempts(n, e.value.firstSeen, now, e.value.lockedUntil), Verdict(true, cfg.maxAttempts - n, None))
  }

  function Cleaned(cfg: Config, m: Table, now: int): Table {
    map ip | ip in m && now - m[ip].lastSeen <= cfg.window + cfg.lockout :: m[ip]
  }

  class LoginLimiter {
    var attempts: Table
    const cfg: Config

    constructor (cfg: Config)
      ensures this.cfg == cfg && attempts == map[]
    {
      this.cfg := cfg;
      attempts := map[];
    }

    method CheckLoginAllowed(ip: string, now: int) returns (v: Verdict)
      modifies this`attempts
      ensures v == CheckKey(cfg, old(Lookup(attempts, ip)), now).1
      ensures attempts == old(attempts)[ip := CheckKey(cfg, old(Lookup(attempts, ip)), now).0]
    {
      if ip !in attempts {
        attempts := attempts[ip := Attempts(1, now, now, None)];
        return Verdict(true, cfg.maxAttempts - 1, None);
      }
      var e := attempts[ip];
      if e.lockedUntil.Some? && now < e.lockedUntil.value {
        return Verdict(false, 0, e.lockedUntil);
      }
      if now - e.firstSeen > cfg.window {
        e := e.(count := 1, firstSeen := now, lockedUntil := None, lastSeen := now);
        attempts := attempts[ip := e];
        return Verdict(true, cfg.maxAttempts - 1, None);
      }
      e := e.(count := e.count + 1, lastSeen := now);
      if e.count >= cfg.maxAttempts {
        var end := now + cfg.lockout;
        attempts := attempts[ip := e.(lockedUntil := Some(end))];
        return Verdict(false, 0, Some(end));
      }
      attempts := attempts[ip := e];
      return Verdict(true, cfg.maxAttempts - e.count, None);
    }

    method Reset(ip: string)
      modifies this`attempts
      ensures attempts == old(attempts) - {ip}
    {
      attempts := attempts - {ip};
    }

    method Cleanup(now: int)
      modifies this`attempts
      ensures attempts == Cleaned(cfg, old(attempts), now)
    {
      var left := attempts.Keys;
      while left != {}
        invariant left <= attempts.Keys <= old(attempts).Keys
        invariant forall k :: k in attempts ==>
                    attempts[k] == old(attempts)[k] &&
                        (k in left || now - attempts[k].lastSeen <= cfg.window + cfg.lockout)
        invariant forall k :: k in old(attempts) && k !in attempts ==>
                    now - old(attempts)[k].lastSeen > cfg.window + cfg.lockout
        decreases left
      {
        var ip :| ip in left;
        if now - attempts[ip].lastSeen > cfg.window + cfg.lockout {
          attempts := attempts - {ip};
        }
        left := left - {ip};
      }
    }
  }

  // --------------------------------------------------------------------- runs

  datatype Op = Check(ip: string, now: int) | Reset(ip: string, now: int) | Cleanup(now: int)

  function After(cfg: Config, m: Table, op: Op): Table {
    match op
    case Check(ip, now) => m[ip := CheckKey(cfg, Lookup(m, ip), now).0]
    case Reset(ip, _) => m - {ip}
    case Cleanup(now) => Cleaned(cfg, m, now)
  }

  /** The verdicts of the attempts of a run, in order. */
  function Verdicts(cfg: Config, m: Table, ops: seq<Op>): seq<Verdict>
    decreases |ops|
  {
    if ops == [] then [] else
      (if ops[0].Check? then [CheckKey(cfg, Lookup(m, ops[0].ip), ops[0].now).1] else [])
      + Verdicts(cfg, After(cfg, m, ops[0]), ops[1..])
  }

  function WithoutCleanup(ops: seq<Op>): seq<Op> {
    if ops == [] then [] else (if ops[0].Cleanup? then [] else [ops[0]]) + WithoutCleanup(ops[1..])
  }

  ghost predicate MonotoneFrom(t: int, ops: seq<Op>) {
    && (forall i :: 0 <= i < |ops| ==> t <= ops[i].now)
    && (forall i, j :: 0 <= i < j < |ops| ==> ops[i].now <= ops[j].now)
  }

  lemma {:induction false} MonotoneTail(t: int, ops: seq<Op>)
    requires MonotoneFrom(t, ops) && ops != []
    ensures t <= ops[0].now && MonotoneFrom(ops[0].now, ops[1..])
  {
  }

  // ------------------------------------------------- cleanup is not observable

  /** A lock ends `lockout` after the attempt that set it; with a negative window
      no lock is ever set. */
  ghost predicate SaneEntry(cfg: Config, e: Attempts, t: int) {
    && e.firstSeen <= e.lastSeen <= t
    && (e.lockedUntil.Some? ==> cfg.window >= 0 && e.lockedUntil.value <= e.lastSeen + cfg.lockout)
  }

  ghost predicate Sane(cfg: Config, m: Table, t: int) {
    forall k :: k in m ==> SaneEntry(cfg, m[k], t)
  }

  ghost predicate Leaner(cfg: Config, lean: Table, full: Table, t: int) {
    && (forall k :: k in lean ==> k in full && lean[k] == full[k])
    && (forall k :: k in full && k !in lean ==> t - full[k].lastSeen > cfg.window + cfg.lockout)
  }

  /** When the cleanup goes unnoticed. */
  predicate Quiet(cfg: Config) { cfg.lockout >= 0 || cfg.window < 0 }

  lemma {:induction false} StaleIsReset(cfg: Config, e: Attempts, now: int)
    requires Quiet(cfg) && SaneEntry(cfg, e, now) && now - e.lastSeen > cfg.window + cfg.lockout
    ensures CheckKey(cfg, Some(e), now) == CheckKey(cfg, None, now)
  {
  }

  lemma {:induction false} LeanerStep(cfg: Config, lean: Table, full: Table, op: Op)
    requires Quiet(cfg) && Leaner(cfg, lean, full, op.now) && Sane(cfg, full, op.now)
    ensures op.Check? ==> CheckKey(cfg, Lookup(lean, op.ip), op.now) == CheckKey(cfg, Lookup(full, op.ip), op.now)
    ensures !op.Cleanup? ==>
              Leaner(cfg, After(cfg, lean, op), After(cfg, full, op), op.now) && Sane(cfg, After(cfg, full, op), op.now)
  {
    if op.Check? && op.ip in full && op.ip !in lean {
      StaleIsReset(cfg, full[op.ip], op.now);
    }
  }

  lemma {:induction false} LeanerCleanup(cfg: Config, lean: Table, full: Table, now: int)
    requires Leaner(cfg, lean, full, now)
    ensures Leaner(cfg, Cleaned(cfg, lean, now), full, now)
  {
  }

  lemma {:induction false} LeanerOp(cfg: Config, lean: Table, full: Table, t: int, op: Op)
    requires Quiet(cfg) && Leaner(cfg, lean, full, t) && Sane(cfg, full, t) && t <= op.now
    ensures var full' := if op.Cleanup? then full else After(cfg, full, op);
            && Leaner(cfg, After(cfg, lean, op), full', op.now) && Sane(cfg, full', op.now)
            && (op.Check? ==> CheckKey(cfg, Lookup(lean, op.ip), op.now) == CheckKey(cfg, Lookup(full, op.ip), op.now))
  {
    LeanerStep(cfg, lean, full, op);
    if op.Cleanup? { LeanerCleanup(cfg, lean, full, op.now); }
  }

  lemma {:induction false} VerdictsCons(cfg: Config, m: Table, op: Op, rest: seq<Op>)
    ensures Verdicts(cfg, m, [op] + rest) ==
              (if op.Check? then [CheckKey(cfg, Lookup(m, op.ip), op.now).1] else []) +
                  Verdicts(cfg, After(cfg, m, op), rest)
    ensures WithoutCleanup([op] + rest) == (if op.Cleanup? then [] else [op]) + WithoutCleanup(rest)
  {
    assert ([op] + rest)[1..] == rest;
  }

  lemma {:induction false} LeanerVerdicts(cfg: Config, lean: Table, full: Table, t: int, ops: seq<Op>)
    requires Quiet(cfg) && Leaner(cfg, lean, full, t) && Sane(cfg, full, t) && MonotoneFrom(t, ops)
    ensures Verdicts(cfg, lean, ops) == Verdicts(cfg, full, WithoutCleanup(ops))
    decreases |ops|
  {
    if ops != [] {
      var op, rest := ops[0], ops[1..];
      var full' := if op.Cleanup? then full else After(cfg, full, op);
      MonotoneTail(t, ops);
      LeanerOp(cfg, lean, full, t, op);
      LeanerVerdicts(cfg, After(cfg, lean, op), full', op.now, rest);
      assert ops == [op] + rest;
      VerdictsCons(cfg, lean, op, rest);
      VerdictsCons(cfg, full, op, WithoutCleanup(rest));
      assert [] + WithoutCleanup(rest) == WithoutCleanup(rest) &&
          [] + Verdicts(cfg, full', WithoutCleanup(rest)) == Verdicts(cfg, full', WithoutCleanup(rest));
    }
  }

  /** With cleanup steps anywhere, a run gives the verdicts it would give without
      them, unless the lockout is negative and the window is not. */
  lemma {:induction false} CleanupUnobservable(cfg: Config, t: int, ops: seq<Op>)
    requires Quiet(cfg) && MonotoneFrom(t, ops)
    ensures Verdicts(cfg, map[], ops) == Verdicts(cfg, map[], WithoutCleanup(ops))
  {
    LeanerVerdicts(cfg, map[], map[], t, ops);
  }

  lemma {:induction false} LateAttempt(cfg: Config, ip: string, late: int)
    requires !Quiet(cfg) && late == Max(0, cfg.window + cfg.lockout + 1)
    ensures var one: Table := map[ip := Attempts(1, 0, 0, None)];
            && Cleaned(cfg, one, late) == map[]
            && CheckKey(cfg, None, late).1 != CheckKey(cfg, Some(one[ip]), late).1
  {
  }

  /** One attempt, and another one with or without a cleanup just before it. */
  function Swept(ip: string, late: int): seq<Op> { [Check(ip, 0)] + ([Cleanup(late)] + ([Check(ip, late)] + [])) }

  function Unswept(ip: string, late: int): seq<Op> { [Check(ip, 0)] + ([Check(ip, late)] + []) }

  lemma {:induction false} SweptVerdicts(cfg: Config, ip: string, late: int)
    requires !Quiet(cfg) && late == Max(0, cfg.window + cfg.lockout + 1)
    ensures Verdicts(cfg, map[], Swept(ip, late)) == [CheckKey(cfg, None, 0).1, CheckKey(cfg, None, late).1]
  {
    var b, c := Cleanup(late), Check(ip, late);
    var one: Table := map[ip := Attempts(1, 0, 0, None)];
    LateAttempt(cfg, ip, late);
    VerdictsCons(cfg, map[], Check(ip, 0), [b] + ([c] + []));
    VerdictsCons(cfg, one, b, [c] + []);
    VerdictsCons(cfg, map[], c, []);
  }

  lemma {:induction false} UnsweptVerdicts(cfg: Config, ip: string, late: int)
    ensures Verdicts(cfg, map[], Unswept(ip, late))
            == [CheckKey(cfg, None, 0).1, CheckKey(cfg, Some(Attempts(1, 0, 0, None)), late).1]
    ensures WithoutCleanup(Swept(ip, late)) == Unswept(ip, late)
  {
    var b, c := Cleanup(late), Check(ip, late);
    var one: Table := map[ip := Attempts(1, 0, 0, None)];
    VerdictsCons(cfg, map[], Check(ip, 0), [c] + []);
    VerdictsCons(cfg, one, c, []);
    VerdictsCons(cfg, one, Check(ip, 0), [b] + ([c] + []));
    VerdictsCons(cfg, one, b, [c] + []);
  }

  /** With a negative lockout the cleanup forgets entries that still count. */
  lemma {:induction false} CleanupObservable(cfg: Config)
    requires !Quiet(cfg)
    ensures exists ops :: MonotoneFrom(0, ops) && Verdicts(cfg, map[], ops) != Verdicts(cfg, map[], WithoutCleanup(ops))
  {
    var ip, late := "ip", Max(0, cfg.window + cfg.lockout + 1);
    LateAttempt(cfg, ip, late);
    SweptVerdicts(cfg, ip, late);
    UnsweptVerdicts(cfg, ip, late);
    assert MonotoneFrom(0, Swept(ip, late));
    assert Verdicts(cfg, map[], Swept(ip, late))[1] != Verdicts(cfg, map[], Unswept(ip, late))[1];
  }

  // ------------------------------------------------------------------ one key

  /** What happens to one key. */
  datatype Event = Try(now: int) | Forget

  function Project(ops: seq<Op>, ip: string): seq<Event> {
    if ops == [] then [] else
      (match ops[0]
       case Check(x, now) => if x == ip then [Try(now)] else []
       case Reset(x, _) => if x == ip then [Forget] else []
       case Cleanup(_) => []) + Project(ops[1..], ip)
  }

  lemma {:induction false} ProjectCons(op: Op, rest: seq<Op>, ip: string)
    ensures Project([op] + rest, ip) ==
              if op.Check? && op.ip == ip then [Try(op.now)] + Project(rest, ip)
              else if op.Reset? && op.ip == ip then [Forget] + Project(rest, ip)
              else Project(rest, ip)
  {
    assert ([op] + rest)[1..] == rest;
    assert [] + Project(rest, ip) == Project(rest, ip);
  }

  function KeyVerdicts(cfg: Config, e: Option<Attempts>, events: seq<Event>): seq<Verdict>
    decreases |events|
  {
    if events == [] then [] else
      match events[0]
      case Forget => KeyVerdicts(cfg, None, events[1..])
      case Try(now) => [CheckKey(cfg, e, now).1] + KeyVerdicts(cfg, Some(CheckKey(cfg, e, now).0), events[1..])
  }

  /** The verdicts given to one key. */
  function VerdictsFor(cfg: Config, m: Table, ops: seq<Op>, ip: string): seq<Verdict>
    decreases |ops|
  {
    if ops == [] then [] else
      (if ops[0].Check? && ops[0].ip == ip then [CheckKey(cfg, Lookup(m, ip), ops[0].now).1] else [])
      + VerdictsFor(cfg, After(cfg, m, ops[0]), ops[1..], ip)
  }

  lemma {:induction false} VerdictsForCons(cfg: Config, m: Table, op: Op, rest: seq<Op>, ip: string)
    ensures VerdictsFor(cfg, m, [op] + rest, ip) ==
              if op.Check? && op.ip == ip
              then [CheckKey(cfg, Lookup(m, ip), op.now).1] + VerdictsFor(cfg, After(cfg, m, op), rest, ip)
              else VerdictsFor(cfg, After(cfg, m, op), rest, ip)
  {
    assert ([op] + rest)[1..] == rest;
    assert [] + VerdictsFor(cfg, After(cfg, m, op), rest, ip) == VerdictsFor(cfg, After(cfg, m, op), rest, ip);
  }

  lemma {:induction false} KeyCons(cfg: Config, e: Option<Attempts>, now: int, rest: seq<Event>)
    ensures KeyVerdicts(cfg, e, [Try(now)] + rest)
              == [CheckKey(cfg, e, now).1] + KeyVerdicts(cfg, Some(CheckKey(cfg, e, now).0), rest)
    ensures KeyVerdicts(cfg, e, [Forget] + rest) == KeyVerdicts(cfg, None, rest)
  {
    assert ([Try(now)] + rest)[1..] == rest && ([Forget] + rest)[1..] == rest;
  }

  lemma {:induction false} LeanerIsolated(cfg: Config, lean: Table, full: Table, t: int, ops: seq<Op>, ip: string)
    requires Quiet(cfg) && Leaner(cfg, lean, full, t) && Sane(cfg, full, t) && MonotoneFrom(t, ops)
    ensures VerdictsFor(cfg, lean, ops, ip) == KeyVerdicts(cfg, Lookup(full, ip), Project(ops, ip))
    decreases |ops|
  {
    if ops != [] {
      var op, rest := ops[0], ops[1..];
      var full' := if op.Cleanup? then full else After(cfg, full, op);
      MonotoneTail(t, ops);
      LeanerOp(cfg, lean, full, t, op);
      LeanerIsolated(cfg, After(cfg, lean, op), full', op.now, rest, ip);
      assert ops == [op] + rest;
      ProjectCons(op, rest, ip);
      VerdictsForCons(cfg, lean, op, rest, ip);
      KeyCons(cfg, Lookup(full, ip), op.now, Project(rest, ip));
    }
  }

  /** Keys do not influence each other, and neither does the cleanup: in every run
      the verdicts of a key are those of its own attempts and resets. */
  lemma {:induction false} KeysAreIsolated(cfg: Config, t: int, ops: seq<Op>, ip: string)
    requires Quiet(cfg) && MonotoneFrom(t, ops)
    ensures VerdictsFor(cfg, map[], ops, ip) == KeyVerdicts(cfg, None, Project(ops, ip))
  {
    LeanerIsolated(cfg, map[], map[], t, ops, ip);
  }

  /** While a lock runs, every attempt is denied with the same unlock time and
      nothing about the entry changes: neither further attempts nor the end of
      the window move or lift it. */
  lemma {:induction false} LockHolds(cfg: Config, e: Attempts, events: seq<Event>, rest: seq<Event>)
    requires e.lockedUntil.Some?
    requires forall i :: 0 <= i < |events| ==> events[i].Try? && events[i].now < e.lockedUntil.value
    ensures KeyVerdicts(cfg, Some(e), events + rest)
              == Denials(e.lockedUntil, |events|) + KeyVerdicts(cfg, Some(e), rest)
    decreases |events|
  {
    if events == [] {
      assert events + rest == rest;
    } else {
      assert (events + rest)[0] == events[0] && (events + rest)[1..] == events[1..] + rest;
      LockHolds(cfg, e, events[1..], rest);
    }
  }

  function Denials(until: Option<int>, n: nat): seq<Verdict> {
    if n == 0 then [] else [Verdict(false, 0, until)] + Denials(until, n - 1)
  }

  /** The attempts allowed before the window that the entry opened rolls over, or
      the entry is reset. */
  function AllowedInWindow(cfg: Config, e: Attempts, events: seq<Event>): nat
    decreases |events|
  {
    if events == [] || events[0].Forget? then 0 else
      var now := events[0].now;
      if !Locked(e, now) && Expired(cfg, e, now) then 0
      else
        var (e', v) := CheckKey(cfg, Some(e), now);
        (if v.allowed then 1 else 0) + AllowedInWindow(cfg, e', events[1..])
  }

  lemma {:induction false} AllowedBound(cfg: Config, e: Attempts, events: seq<Event>)
    ensures AllowedInWindow(cfg, e, events) <= Max(0, cfg.maxAttempts - 1 - e.count)
    decreases |events|
  {
    if events != [] && events[0].Try? {
      AllowedBound(cfg, CheckKey(cfg, Some(e), events[0].now).0, events[1..]);
    }
  }

  /** From the attempt that opens a window until that window rolls over, at most
      max(1, maxAttempts - 1) attempts are allowed, the opening one included. */
  lemma {:induction false} WindowAllowance(cfg: Config, e: Option<Attempts>, now: int, events: seq<Event>)
    requires e.None? || (!Locked(e.value, now) && Expired(cfg, e.value, now))
    ensures CheckKey(cfg, e, now).1.allowed
    ensures 1 + AllowedInWindow(cfg, CheckKey(cfg, e, now).0, events) <= Max(1, cfg.maxAttempts - 1)
  {
    AllowedBound(cfg, CheckKey(cfg, e, now).0, events);
  }

  // ------------------------------------------------------ lock and budget in runs

  lemma {:induction false} ProjectConcat(a: seq<Op>, b: seq<Op>, ip: string)
    ensures Project(a + b, ip) == Project(a, ip) + Project(b, ip)
  {
    if a == [] {
      assert a + b == b;
    } else {
      ProjectConcat(a[1..], b, ip);
      assert a + b == [a[0]] + (a[1..] + b) && a == [a[0]] + a[1..];
      ProjectCons(a[0], a[1..] + b, ip);
      ProjectCons(a[0], a[1..], ip);
      Associate([Forget], Project(a[1..], ip), Project(b, ip));
      Associate([Try(a[0].now)], Project(a[1..], ip), Project(b, ip));
    }
  }

  function KeyAfter(cfg: Config, e: Option<Attempts>, events: seq<Event>): Option<Attempts>
    decreases |events|
  {
    if events == [] then e else
      match events[0]
      case Forget => KeyAfter(cfg, None, events[1..])
      case Try(now) => KeyAfter(cfg, Some(CheckKey(cfg, e, now).0), events[1..])
  }

  lemma {:induction false} KeyConcat(cfg: Config, e: Option<Attempts>, a: seq<Event>, b: seq<Event>)
    ensures KeyVerdicts(cfg, e, a + b) == KeyVerdicts(cfg, e, a) + KeyVerdicts(cfg, KeyAfter(cfg, e, a), b)
    ensures KeyAfter(cfg, e, a + b) == KeyAfter(cfg, KeyAfter(cfg, e, a), b)
    decreases |a|
  {
    if a == [] {
      assert a + b == b;
    } else {
      var e' := if a[0].Forget? then None else Some(CheckKey(cfg, e, a[0].now).0);
      KeyConcat(cfg, e', a[1..], b);
      assert (a + b)[0] == a[0] && (a + b)[1..] == a[1..] + b;
      if a[0].Try? {
        Associate([CheckKey(cfg, e, a[0].now).1], KeyVerdicts(cfg, e', a[1..]),
            KeyVerdicts(cfg, KeyAfter(cfg, e', a[1..]), b));
      }
    }
  }

  lemma {:induction false} CountsArePositive(cfg: Config, e: Option<Attempts>, events: seq<Event>)
    requires e.Some? ==> e.value.count >= 1
    ensures KeyAfter(cfg, e, events).Some? ==> KeyAfter(cfg, e, events).value.count >= 1
    decreases |events|
  {
    if events != [] {
      CountsArePositive(cfg, if events[0].Forget? then None else Some(CheckKey(cfg, e, events[0].now).0), events[1..]);
    }
  }

  lemma {:induction false} MonotonePrefix(t: int, a: seq<Op>, b: seq<Op>)
    requires MonotoneFrom(t, a + b)
    ensures MonotoneFrom(t, a)
  {
    assert forall i :: 0 <= i < |a| ==> (a + b)[i] == a[i];
  }

  lemma {:induction false} ProjectTries(ops: seq<Op>, ip: string)
    requires forall i :: 0 <= i < |ops| && ops[i].Reset? ==> ops[i].ip != ip
    ensures forall i :: 0 <= i < |Project(ops, ip)| ==>
              Project(ops, ip)[i].Try? && exists k :: 0 <= k < |ops| && ops[k] == Check(ip, Project(ops, ip)[i].now)
  {
    if ops != [] {
      var rest := ops[1..];
      ProjectTries(rest, ip);
      assert ops == [ops[0]] + rest;
      ProjectCons(ops[0], rest, ip);
      var p, q := Project(ops, ip), Project(rest, ip);
      forall i | 0 <= i < |p|
        ensures p[i].Try? && exists k :: 0 <= k < |ops| && ops[k] == Check(ip, p[i].now)
      {
        if i < |p| - |q| {
          assert ops[0] == Check(ip, p[i].now);
        } else {
          var j := i - (|p| - |q|);
          assert p[i] == q[j];
          var k :| 0 <= k < |rest| && rest[k] == Check(ip, q[j].now);
          assert ops[k + 1] == rest[k];
        }
      }
    }
  }

  /** The verdicts of a run that continues: those before, and those from the entry
      that the attempt at its end has left. */
  lemma {:induction false} RunGoesOn(cfg: Config, t: int, before: seq<Op>, ip: string, now: int, during: seq<Op>)
      returns (e: Option<Attempts>)
    requires Quiet(cfg) && MonotoneFrom(t, (before + [Check(ip, now)]) + during)
    ensures e.Some? ==> e.value.count >= 1
    ensures var first := VerdictsFor(cfg, map[], before + [Check(ip, now)], ip);
            var (e', v) := CheckKey(cfg, e, now);
            && first != [] && first[|first|-1] == v
            && VerdictsFor(cfg, map[], (before + [Check(ip, now)]) + during, ip)
               == first + KeyVerdicts(cfg, Some(e'), Project(during, ip))
  {
    var upTo, events, last := before + [Check(ip, now)], Project(before, ip), [Try(now)];
    e := KeyAfter(cfg, None, events);
    CountsArePositive(cfg, None, events);
    MonotonePrefix(t, upTo, during);
    KeysAreIsolated(cfg, t, upTo, ip);
    KeysAreIsolated(cfg, t, upTo + during, ip);
    ProjectConcat(before, [Check(ip, now)], ip);
    ProjectConcat(upTo, during, ip);
    assert Project([Check(ip, now)], ip) == last by {
      assert [Check(ip, now)] == [Check(ip, now)] + [];
      ProjectCons(Check(ip, now), [], ip);
    }
    KeyConcat(cfg, None, events, last);
    KeyConcat(cfg, None, events + last, Project(during, ip));
    assert last[1..] == [];
  }

  /** In every run, once an attempt is denied until some time, all attempts before
      that time are denied with it, unless the key is reset; cleanups, other keys
      and the end of the window do not matter. */
  lemma {:induction false} LockHoldsInRuns(cfg: Config, t: int, before: seq<Op>, ip: string, now: int, during: seq<Op>,
      until: int)
    requires Quiet(cfg) && MonotoneFrom(t, (before + [Check(ip, now)]) + during)
    requires var first := VerdictsFor(cfg, map[], before + [Check(ip, now)], ip);
             first != [] && first[|first|-1].lockedUntil == Some(until)
    requires forall i :: 0 <= i < |during| && during[i].Reset? ==> during[i].ip != ip
    requires forall i :: 0 <= i < |during| && during[i].Check? && during[i].ip == ip ==> during[i].now < until
    ensures VerdictsFor(cfg, map[], (before + [Check(ip, now)]) + during, ip)
            == VerdictsFor(cfg, map[], before + [Check(ip, now)], ip) + Denials(Some(until), |Project(during, ip)|)
  {
    var e := RunGoesOn(cfg, t, before, ip, now, during);
    var events := Project(during, ip);
    ProjectTries(during, ip);
    LockHolds(cfg, CheckKey(cfg, e, now).0, events, []);
    assert events + [] == events;
    assert Denials(Some(until), |events|) + [] == Denials(Some(until), |events|);
  }

  function Allowed(verdicts: seq<Verdict>): nat {
    if verdicts == [] then 0 else One(verdicts[0].allowed) + Allowed(verdicts[1..])
  }

  lemma {:induction false} AllowedCons(v: Verdict, rest: seq<Verdict>)
    ensures Allowed([v] + rest) == One(v.allowed) + Allowed(rest)
  {
    assert ([v] + rest)[1..] == rest;
  }

  lemma {:induction false} AllowedFrom(first: seq<Verdict>, more: seq<Verdict>)
    requires first != []
    ensures Allowed((first + more)[|first|-1..]) == One(first[|first|-1].allowed) + Allowed(more)
  {
    AllowedCons(first[|first|-1], more);
    assert (first + more)[|first|-1..] == [first[|first|-1]] + more;
  }

  lemma {:induction false} AllowedIsInWindow(cfg: Config, e: Attempts, events: seq<Event>)
    requires forall i :: 0 <= i < |events| ==> events[i].Try? && events[i].now - e.firstSeen <= cfg.window
    ensures Allowed(KeyVerdicts(cfg, Some(e), events)) == AllowedInWindow(cfg, e, events)
    decreases |events|
  {
    if events != [] {
      var (e', v) := CheckKey(cfg, Some(e), events[0].now);
      AllowedIsInWindow(cfg, e', events[1..]);
      AllowedCons(v, KeyVerdicts(cfg, Some(e'), events[1..]));
    }
  }

  /** In every run, from an attempt that opens a window (it leaves maxAttempts - 1)
      to the end of the window, at most max(1, maxAttempts - 1) attempts of the key
      are allowed, unless it is reset. */
  lemma {:induction false} AllowanceInRuns(cfg: Config, t: int, before: seq<Op>, ip: string, now: int, during: seq<Op>)
    requires Quiet(cfg) && MonotoneFrom(t, (before + [Check(ip, now)]) + during)
    requires var first := VerdictsFor(cfg, map[], before + [Check(ip, now)], ip);
             first != [] && first[|first|-1] == Verdict(true, cfg.maxAttempts - 1, None)
    requires forall i :: 0 <= i < |during| && during[i].Reset? ==> during[i].ip != ip
    requires forall i :: 0 <= i < |during| && during[i].Check? && during[i].ip == ip ==>
              during[i].now - now <= cfg.window
    ensures var first := VerdictsFor(cfg, map[], before + [Check(ip, now)], ip);
            var all := VerdictsFor(cfg, map[], (before + [Check(ip, now)]) + during, ip);
            first <= all && Allowed(all[|first|-1..]) <= Max(1, cfg.maxAttempts - 1)
  {
    var e := RunGoesOn(cfg, t, before, ip, now, during);
    var (e', v) := CheckKey(cfg, e, now);
    var events := Project(during, ip);
    ProjectTries(during, ip);
    assert e' == Attempts(1, now, now, None);
    AllowedIsInWindow(cfg, e', events);
    AllowedBound(cfg, e', events);
    AllowedFrom(VerdictsFor(cfg, map[], before + [Check(ip, now)], ip), KeyVerdicts(cfg, Some(e'), events));
  }

  /** Further attempts in a window are allowed with one fewer left each time; the
      one that leaves none is denied, with the lock from then on. */
  lemma {:induction false} AttemptsInWindow(cfg: Config, e: Attempts, events: seq<Event>, i: nat)
    requires e.lockedUntil.None? && e.count + i < cfg.maxAttempts && i < |events|
    requires forall k :: 0 <= k <= i ==> events[k].Try? && events[k].now - e.firstSeen <= cfg.window
    ensures |KeyVerdicts(cfg, Some(e), events)| > i
    ensures KeyVerdicts(cfg, Some(e), events)[i] ==
              var n := e.count + i + 1;
              if n < cfg.maxAttempts then Verdict(true, cfg.maxAttempts - n, None)
              else Verdict(false, 0, Some(events[i].now + cfg.lockout))
    decreases i
  {
    if i > 0 {
      AttemptsInWindow(cfg, CheckKey(cfg, Some(e), events[0].now).0, events[1..], i - 1);
    }
  }

  /** In every run: the i-th attempt of a key behind the one that opened its window,
      while it runs and without a reset. */
  lemma {:induction false} AttemptInRuns(cfg: Config, t: int, before: seq<Op>, ip: string, now: int, during: seq<Op>,
      i: nat)
    requires Quiet(cfg) && MonotoneFrom(t, (before + [Check(ip, now)]) + during)
    requires var first := VerdictsFor(cfg, map[], before + [Check(ip, now)], ip);
             first != [] && first[|first|-1] == Verdict(true, cfg.maxAttempts - 1, None)
    requires forall k :: 0 <= k < |during| && during[k].Reset? ==> during[k].ip != ip
    requires forall k :: 0 <= k < |during| && during[k].Check? && during[k].ip == ip ==>
               during[k].now - now <= cfg.window
    requires i < |Project(during, ip)| && i + 1 < cfg.maxAttempts
    ensures var first := VerdictsFor(cfg, map[], before + [Check(ip, now)], ip);
            var all := VerdictsFor(cfg, map[], (before + [Check(ip, now)]) + during, ip);
            && |all| > |first| + i
            && if i + 2 < cfg.maxAttempts then all[|first| + i] == Verdict(true, cfg.maxAttempts - 2 - i, None)
               else
                 && Project(during, ip)[i].Try?
                 && all[|first| + i] == Verdict(false, 0, Some(Project(during, ip)[i].now + cfg.lockout))
  {
    var e := RunGoesOn(cfg, t, before, ip, now, during);
    ProjectTries(during, ip);
    AttemptsInWindow(cfg, CheckKey(cfg, e, now).0, Project(during, ip), i);
  }
}
