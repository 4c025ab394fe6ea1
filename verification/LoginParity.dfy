/**
 The Valkey login limiter (apps/backend/valkey/ratelimit.go) beside the in-memory
 one.  It counts attempts under one key and locks under another; setting the lock
 deletes the count.
 */
module LoginParity {

  import opened Common
  import opened LoginLimit

  const MILLISECOND := 1_000_000

  datatype Count = Count(start: int, count: int)

  /** The two keys of one client. */
  datatype Remote = Remote(attempts: Option<Count>, lockEnd: Option<int>)

  const NONE := Remote(None, None)

  /** What a caller acts on. */
  datatype Answer = Answer(allowed: bool, remaining: int)

  /** The lock is set with whole milliseconds; without any the command fails. */
  function LockSpan(lockout: int): int {
    if lockout < MILLISECOND then 0 else lockout / MILLISECOND * MILLISECOND
  }

  /** The script and the lock that the caller sets after it. */
  function RemoteCheck(cfg: Config, expiry: Expiry, r: Remote, now: int): (Remote, Answer) {
    if r.lockEnd.Some? && now < r.lockEnd.value then (r, Answer(false, 0))
    else
      var c := if r.attempts.None? || now - r.attempts.value.start >= KeySpan(cfg.window, expiry) then Count(now, 1)
               else Count(r.attempts.value.start, r.attempts.value.count + 1);
      if c.count >= cfg.maxAttempts then (Remote(None, Some(now + LockSpan(cfg.lockout))), Answer(false, 0))
      else (r.(attempts := Some(c)), Answer(true, cfg.maxAttempts - c.count))
  }

  function RemoteAnswers(cfg: Config, expiry: Expiry, r: Remote, events: seq<Event>): seq<Answer>
    decreases |events|
  {
    if events == [] then [] else
      match events[0]
      case Forget => RemoteAnswers(cfg, expiry, NONE, events[1..])
      case Try(now) =>
        var (r', a) := RemoteCheck(cfg, expiry, r, now);
        [a] + RemoteAnswers(cfg, expiry, r', events[1..])
  }

  function RemoteAfter(cfg: Config, expiry: Expiry, r: Remote, events: seq<Event>): Remote
    decreases |events|
  {
    if events == [] then r else
      match events[0]
      case Forget => RemoteAfter(cfg, expiry, NONE, events[1..])
      case Try(now) => RemoteAfter(cfg, expiry, RemoteCheck(cfg, expiry, r, now).0, events[1..])
  }

  function Seen(v: Verdict): Answer { Answer(v.allowed, v.remaining) }

  function SeenAll(verdicts: seq<Verdict>): (answers: seq<Answer>)
    ensures |answers| == |verdicts|
    ensures forall i :: 0 <= i < |verdicts| ==> answers[i] == Seen(verdicts[i])
  {
    if verdicts == [] then [] else [Seen(verdicts[0])] + SeenAll(verdicts[1..])
  }

  /** The clock does not go back, and starts no earlier than `t`. */
  predicate Timed(t: int, events: seq<Event>)
    decreases |events|
  {
    events == [] ||
    match events[0]
    case Forget => Timed(t, events[1..])
    case Try(now) => t <= now && Timed(now, events[1..])
  }

  /** Both limiters answer alike, whatever happens to a key. */
  ghost predicate Alike(cfg: Config, expiry: Expiry) {
    forall t, events :: Timed(t, events) ==>
      SeenAll(KeyVerdicts(cfg, None, events)) == RemoteAnswers(cfg, expiry, NONE, events)
  }

  /** Nothing ever counts, or windows and locks end alike in both and a lock
      outlasts the window in which it was set. */
  predicate Compatible(cfg: Config, expiry: Expiry) {
    && cfg.maxAttempts >= 2
    && (|| cfg.window < 0
        || (&& KeySpan(cfg.window, expiry) == cfg.window + 1
            && LockSpan(cfg.lockout) == cfg.lockout && cfg.lockout > cfg.window))
  }

  /** Spelled out: a key is gone only after its deadline, the window is whole
      seconds, and the lock is whole milliseconds and longer. */
  lemma {:induction false} CompatibleExactly(cfg: Config, expiry: Expiry)
    ensures Compatible(cfg, expiry) <==>
              && cfg.maxAttempts >= 2
              && (|| cfg.window < 0
                  || (&& cfg.lockout > cfg.window && cfg.lockout % 1_000_000 == 0
                      && expiry.AfterDeadline? && cfg.window > 0 && cfg.window % SECOND == 0))
  {
  }

  // ------------------------------------------------------------------ agreement

  predicate Unlocked(r: Remote, t: int) { r.lockEnd.Some? ==> r.lockEnd.value <= t }

  /** From time `t` on the two entries answer alike. */
  predicate Paired(cfg: Config, e: Option<Attempts>, r: Remote, t: int) {
    match e
    case None => r.attempts.None? && Unlocked(r, t)
    case Some(a) =>
      || (cfg.window < 0 && a.lockedUntil.None? && Unlocked(r, t) && a.firstSeen <= t
          && (r.attempts.Some? ==> r.attempts.value.start <= t))
      || (a.lockedUntil.None? && r.attempts == Some(Count(a.firstSeen, a.count)) && 1 <= a.count < cfg.maxAttempts
          && Unlocked(r, t) && a.firstSeen <= t)
      || (a.lockedUntil.Some? && r == Remote(None, a.lockedUntil) && a.lockedUntil.value - a.firstSeen > cfg.window)
  }

  lemma {:induction false} PairedStep(cfg: Config, expiry: Expiry, e: Option<Attempts>, r: Remote, t: int, now: int)
    requires Compatible(cfg, expiry) && Paired(cfg, e, r, t) && t <= now
    ensures var (e', v) := CheckKey(cfg, e, now);
            var (r', a) := RemoteCheck(cfg, expiry, r, now);
            Seen(v) == a && Paired(cfg, Some(e'), r', now)
  {
  }

  lemma {:induction false} PairedAnswers(cfg: Config, expiry: Expiry, e: Option<Attempts>, r: Remote, t: int,
      events: seq<Event>)
    requires Compatible(cfg, expiry) && Paired(cfg, e, r, t) && Timed(t, events)
    ensures SeenAll(KeyVerdicts(cfg, e, events)) == RemoteAnswers(cfg, expiry, r, events)
    decreases |events|
  {
    if events != [] {
      if events[0].Forget? {
        PairedAnswers(cfg, expiry, None, NONE, t, events[1..]);
      } else {
        var now := events[0].now;
        PairedStep(cfg, expiry, e, r, t, now);
        PairedAnswers(cfg, expiry, Some(CheckKey(cfg, e, now).0), RemoteCheck(cfg, expiry, r, now).0, now, events[1..]);
      }
    }
  }

  // ---------------------------------------------------------------- disagreement

  lemma {:induction false} RemoteSnoc(cfg: Config, expiry: Expiry, r: Remote, events: seq<Event>, now: int)
    ensures var (r', a) := RemoteCheck(cfg, expiry, RemoteAfter(cfg, expiry, r, events), now);
            && RemoteAnswers(cfg, expiry, r, events + [Try(now)]) == RemoteAnswers(cfg, expiry, r, events) + [a]
            && RemoteAfter(cfg, expiry, r, events + [Try(now)]) == r'
    decreases |events|
  {
    var longer := events + [Try(now)];
    if events == [] {
      assert longer[1..] == [];
    } else {
      assert longer[0] == events[0] && longer[1..] == events[1..] + [Try(now)];
      var next := if events[0].Forget? then NONE else RemoteCheck(cfg, expiry, r, events[0].now).0;
      RemoteSnoc(cfg, expiry, next, events[1..], now);
    }
  }

  lemma {:induction false} MemorySnoc(cfg: Config, e: Option<Attempts>, events: seq<Event>, now: int)
    ensures var (e', v) := CheckKey(cfg, KeyAfter(cfg, e, events), now);
            && KeyVerdicts(cfg, e, events + [Try(now)]) == KeyVerdicts(cfg, e, events) + [v]
            && KeyAfter(cfg, e, events + [Try(now)]) == Some(e')
  {
    KeyConcat(cfg, e, events, [Try(now)]);
    assert [Try(now)][1..] == [];
  }

  /** If the last attempt is answered differently, the limiters differ. */
  lemma {:induction false} LastDiffers(cfg: Config, expiry: Expiry, events: seq<Event>, now: int)
    requires Timed(0, events + [Try(now)])
    requires Seen(CheckKey(cfg, KeyAfter(cfg, None, events), now).1)
             != RemoteCheck(cfg, expiry, RemoteAfter(cfg, expiry, NONE, events), now).1
    ensures !Alike(cfg, expiry)
  {
    var all := events + [Try(now)];
    MemorySnoc(cfg, None, events, now);
    RemoteSnoc(cfg, expiry, NONE, events, now);
    var ours, theirs := SeenAll(KeyVerdicts(cfg, None, all)), RemoteAnswers(cfg, expiry, NONE, all);
    assert |ours| == |theirs| ==> ours[|ours|-1] != theirs[|theirs|-1];
  }

  /** `n` attempts at time 0. */
  function Tries(n: nat): seq<Event> { if n == 0 then [] else Tries(n - 1) + [Try(0)] }

  lemma {:induction false} TriesAreTimed(n: nat, now: int)
    requires now >= 0
    ensures |Tries(n)| == n && forall i :: 0 <= i < n ==> Tries(n)[i] == Try(0)
    ensures Timed(0, Tries(n) + [Try(now)])
  {
    if n > 0 { TriesAreTimed(n - 1, now); }
    ZerosAreTimed(Tries(n), now);
  }

  lemma {:induction false} ZerosAreTimed(events: seq<Event>, now: int)
    requires now >= 0 && forall i :: 0 <= i < |events| ==> events[i] == Try(0)
    ensures Timed(0, events + [Try(now)])
  {
    var all := events + [Try(now)];
    if events == [] {
      assert all[1..] == [];
    } else {
      ZerosAreTimed(events[1..], now);
      assert all[1..] == events[1..] + [Try(now)];
    }
  }

  /** After `n` attempts at time 0, up to the one that locks. */
  lemma {:induction false} AfterTries(cfg: Config, expiry: Expiry, n: nat)
    requires cfg.window >= 0 && KeySpan(cfg.window, expiry) > 0 && 1 <= n <= cfg.maxAttempts && cfg.maxAttempts >= 2
    ensures KeyAfter(cfg, None, Tries(n))
              == Some(Attempts(n, 0, 0, if n < cfg.maxAttempts then None else Some(cfg.lockout)))
    ensures RemoteAfter(cfg, expiry, NONE, Tries(n)) ==
              if n < cfg.maxAttempts then Remote(Some(Count(0, n)), None) else Remote(None, Some(LockSpan(cfg.lockout)))
  {
    if n > 1 { AfterTries(cfg, expiry, n - 1); }
    MemorySnoc(cfg, None, Tries(n - 1), 0);
    RemoteSnoc(cfg, expiry, NONE, Tries(n - 1), 0);
  }

  lemma {:induction false} OneTry(cfg: Config, expiry: Expiry)
    requires cfg.maxAttempts >= 2
    ensures KeyAfter(cfg, None, Tries(1)) == Some(Attempts(1, 0, 0, None))
    ensures RemoteAfter(cfg, expiry, NONE, Tries(1)) == Remote(Some(Count(0, 1)), None)
  {
    MemorySnoc(cfg, None, Tries(0), 0);
    RemoteSnoc(cfg, expiry, NONE, Tries(0), 0);
  }

  lemma {:induction false} Incompatible(cfg: Config, expiry: Expiry)
    requires !Compatible(cfg, expiry)
    ensures !Alike(cfg, expiry)
  {
    var span := KeySpan(cfg.window, expiry);
    if cfg.maxAttempts < 2 {
      TriesAreTimed(0, 0);
      LastDiffers(cfg, expiry, Tries(0), 0);
    } else if span != cfg.window + 1 {
      OneTry(cfg, expiry);
      TriesAreTimed(1, Min(span, cfg.window + 1));
      LastDiffers(cfg, expiry, Tries(1), Min(span, cfg.window + 1));
    } else {
      AfterTries(cfg, expiry, cfg.maxAttempts);
      TriesAreTimed(cfg.maxAttempts, LockSpan(cfg.lockout));
      LastDiffers(cfg, expiry, Tries(cfg.maxAttempts), LockSpan(cfg.lockout));
    }
  }

  /** The two limiters answer alike in every run of a key if and only if their
      configuration is compatible. */
  lemma {:induction false} AlikeIff(cfg: Config, expiry: Expiry)
    ensures Alike(cfg, expiry) <==> Compatible(cfg, expiry)
  {
    if Compatible(cfg, expiry) {
      forall t, events | Timed(t, events)
        ensures SeenAll(KeyVerdicts(cfg, None, events)) == RemoteAnswers(cfg, expiry, NONE, events)
      {
        PairedAnswers(cfg, expiry, None, NONE, t, events);
      }
    } else {
      Incompatible(cfg, expiry);
    }
  }

  lemma {:induction false} ProjectTimed(t: int, ops: seq<Op>, ip: string)
    requires MonotoneFrom(t, ops)
    ensures Timed(t, Project(ops, ip))
    decreases |ops|
  {
    if ops != [] {
      MonotoneTail(t, ops);
      ProjectTimed(ops[0].now, ops[1..], ip);
      assert ops == [ops[0]] + ops[1..];
      ProjectCons(ops[0], ops[1..], ip);
      TimedEarlier(t, ops[0].now, Project(ops[1..], ip));
      if ops[0].Check? && ops[0].ip == ip {
        assert Project(ops, ip)[1..] == Project(ops[1..], ip);
      } else if ops[0].Reset? && ops[0].ip == ip {
        assert Project(ops, ip)[1..] == Project(ops[1..], ip);
      }
    }
  }

  lemma {:induction false} TimedEarlier(t: int, u: int, events: seq<Event>)
    requires t <= u && Timed(u, events)
    ensures Timed(t, events)
    decreases |events|
  {
    if events != [] && events[0].Forget? {
      TimedEarlier(t, u, events[1..]);
    }
  }

  /** In every run of the memory limiter, with its cleanups and other keys, a key
      is answered as Valkey would answer its attempts and resets. */
  lemma {:induction false} RunsAlike(cfg: Config, expiry: Expiry, t: int, ops: seq<Op>, ip: string)
    requires Compatible(cfg, expiry) && MonotoneFrom(t, ops)
    ensures SeenAll(VerdictsFor(cfg, map[], ops, ip)) == RemoteAnswers(cfg, expiry, NONE, Project(ops, ip))
  {
    KeysAreIsolated(cfg, t, ops, ip);
    ProjectTimed(t, ops, ip);
    PairedAnswers(cfg, expiry, None, NONE, t, Project(ops, ip));
  }

  /** The deployed settings are compatible when Valkey keys outlive their deadline
      instant, as the memory limiter's window does. */
  lemma {:induction false} DeployedAlike()
    ensures Alike(Config(5, 15 * MINUTE, 30 * MINUTE), AfterDeadline)
    ensures !Alike(Config(5, 15 * MINUTE, 30 * MINUTE), AtDeadline)
  {
    AlikeIff(Config(5, 15 * MINUTE, 30 * MINUTE), AfterDeadline);
    AlikeIff(Config(5, 15 * MINUTE, 30 * MINUTE), AtDeadline);
  }
}
