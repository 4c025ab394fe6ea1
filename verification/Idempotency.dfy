/**
 The Idempotency-Key middleware of the backend
 (apps/backend/api/platform/idempotency.go) in front of the messages endpoint,
 and what it makes of the client's retries.  Requests are served concurrently:
 a request is looked up and handed to the handler in one event, and its answer
 is stored in a later one, with no claim on the key in between.
 */
module Idempotency {

  import opened Common
  import opened RestClient

  const MAX_KEY := 255
  const DEFAULT_TTL := 86_400 * SECOND

  /** Whether Valkey is configured, and the configured ttl; Valkey is given whole
      seconds. */
  datatype Options = Options(store: bool, ttl: int) {
    function Lifetime(): int { (if ttl <= 0 then DEFAULT_TTL else ttl) / SECOND * SECOND }

    predicate Wraps(q: Request) { store && q.path == MESSAGES && q.key != "" && StateChanging(q.verb) }
  }

  predicate StateChanging(verb: string) { verb == "POST" || verb == "PUT" || verb == "PATCH" || verb == "DELETE" }

  datatype Lookup = Failed | Unreadable | Answered

  /** A request arrives, with the outcome of its lookup and whether the handler
      takes effect if it is called; or the handler called by event `begun`
      returns, with its status (0 if it wrote nothing) and whether Set succeeds. */
  datatype Event =
    | Begin(at: int, request: Request, lookup: Lookup, effect: bool)
    | Finish(at: int, begun: nat, status: int, saved: bool)

  datatype Record = Record(status: int, until: int)

  datatype Server = Server(records: map<string, Record>, running: set<nat>)

  datatype Conduct = PassThrough | TooLong | Replay(status: int) | Capture

  function FinalStatus(status: int): int { if status == 0 then 200 else status }

  predicate Success(status: int) { 200 <= FinalStatus(status) < 300 }

  /** What WithIdempotency does with an arriving request. */
  function Middleware(o: Options, records: map<string, Record>, e: Event): Conduct
    requires e.Begin?
  {
    var q := e.request;
    if !o.Wraps(q) then PassThrough
    else if |q.key| > MAX_KEY then TooLong
    else if e.lookup == Answered && q.key in records && e.at < records[q.key].until then Replay(records[q.key].status)
    else Capture
  }

  predicate Calls(c: Conduct) { c.PassThrough? || c.Capture? }

  /** Event `i` stores the answer of a request with key `k`. */
  predicate Stores(o: Options, t: seq<Event>, i: nat, k: string) {
    && i < |t| && t[i].Finish? && t[i].begun < i && t[t[i].begun].Begin?
    && o.Wraps(t[t[i].begun].request) && t[t[i].begun].request.key == k
    && Success(t[i].status) && t[i].saved
  }

  function Step(o: Options, s: Server, t: seq<Event>, i: nat): Server
    requires i < |t|
  {
    match t[i]
    case Begin(_, _, _, _) => if Calls(Middleware(o, s.records, t[i])) then s.(running := s.running + {i}) else s
    case Finish(at, begun, status, _) =>
      var key := if begun < i && t[begun].Begin? then t[begun].request.key else "";
      var record := Record(FinalStatus(status), at + o.Lifetime());
      Server(if Stores(o, t, i, key) then s.records[key := record] else s.records,
             s.running - {begun})
  }

  function After(o: Options, t: seq<Event>, n: nat): Server
    requires n <= |t|
  {
    if n == 0 then Server(map[], {}) else Step(o, After(o, t, n - 1), t, n - 1)
  }

  ghost predicate Ordered(t: seq<Event>) { forall i, j :: 0 <= i < j < |t| ==> t[i].at <= t[j].at }

  /** The clock does not go back and only running handlers return. */
  ghost predicate Valid(o: Options, t: seq<Event>) {
    && Ordered(t)
    && (forall i :: 0 <= i < |t| && t[i].Finish? ==> t[i].begun in After(o, t, i).running)
  }

  predicate Runs(o: Options, t: seq<Event>, i: nat) {
    i < |t| && t[i].Begin? && Calls(Middleware(o, After(o, t, i).records, t[i]))
  }

  predicate Takes(o: Options, t: seq<Event>, q: Request, i: nat) {
    Runs(o, t, i) && t[i].request == q && t[i].effect
  }

  /** How often the handler took effect for `q` in the first `n` events. */
  function Effects(o: Options, t: seq<Event>, q: Request, n: nat): nat
    requires n <= |t|
  {
    if n == 0 then 0 else
      Effects(o, t, q, n - 1) + One(Takes(o, t, q, n - 1))
  }

  function Arrivals(t: seq<Event>, q: Request, n: nat): nat
    requires n <= |t|
  {
    if n == 0 then 0 else Arrivals(t, q, n - 1) + One(t[n-1].Begin? && t[n-1].request == q)
  }

  // ------------------------------------------------------- the cache as history

  lemma {:induction false} StepRecords(o: Options, t: seq<Event>, n: nat, k: string)
    requires n < |t|
    ensures var before, after := After(o, t, n).records, After(o, t, n + 1).records;
            if Stores(o, t, n, k)
            then k in after && after[k] == Record(FinalStatus(t[n].status), t[n].at + o.Lifetime())
            else (k in after <==> k in before) && (k in after ==> after[k] == before[k])
  {
  }

  /** A cached record is a stored answer, and no answer is stored later. */
  lemma {:induction false} RecordIsStore(o: Options, t: seq<Event>, n: nat, k: string) returns (m: nat)
    requires n <= |t| && k in After(o, t, n).records
    ensures m < n && Stores(o, t, m, k)
    ensures After(o, t, n).records[k] == Record(FinalStatus(t[m].status), t[m].at + o.Lifetime())
  {
    StepRecords(o, t, n - 1, k);
    if Stores(o, t, n - 1, k) { m := n - 1; } else { m := RecordIsStore(o, t, n - 1, k); }
  }

  lemma {:induction false} StoreIsRecord(o: Options, t: seq<Event>, n: nat, k: string, m: nat)
    requires Ordered(t) && m < n <= |t| && Stores(o, t, m, k)
    ensures k in After(o, t, n).records && t[m].at + o.Lifetime() <= After(o, t, n).records[k].until
  {
    StepRecords(o, t, n - 1, k);
    if m < n - 1 { StoreIsRecord(o, t, n - 1, k, m); }
  }

  lemma {:induction false} RunningIff(o: Options, t: seq<Event>, n: nat, b: nat)
    requires n <= |t|
    ensures b in After(o, t, n).running <==>
              b < n && Runs(o, t, b) && forall m :: b < m < n && t[m].Finish? ==> t[m].begun != b
  {
    if n > 0 {
      RunningIff(o, t, n - 1, b);
    }
  }

  /** The middleware keeps the request from the handler: its key is too long, or
      the lookup is answered and finds an answer that is stored and still alive. */
  ghost predicate Sheltered(o: Options, t: seq<Event>, j: nat)
    requires j < |t| && t[j].Begin?
  {
    && o.Wraps(t[j].request)
    && (|| |t[j].request.key| > MAX_KEY
        || (&& t[j].lookup == Answered
            && exists m: nat :: m < j && Stores(o, t, m, t[j].request.key) && t[j].at < t[m].at + o.Lifetime()))
  }

  lemma {:induction false} RunsExact(o: Options, t: seq<Event>, j: nat)
    requires Valid(o, t) && j < |t| && t[j].Begin?
    ensures Runs(o, t, j) <==> !Sheltered(o, t, j)
  {
    var k, records := t[j].request.key, After(o, t, j).records;
    if k in records && t[j].at < records[k].until {
      var m := RecordIsStore(o, t, j, k);
    }
    forall m: nat | m < j && Stores(o, t, m, k)
      ensures k in records && t[m].at + o.Lifetime() <= records[k].until
    {
      StoreIsRecord(o, t, j, k, m);
    }
  }

  /** Requests that the middleware lets through to the handler every time. */
  lemma {:induction false} LetThrough(o: Options, t: seq<Event>, j: nat)
    requires j < |t| && t[j].Begin?
    requires var q := t[j].request;
             || !o.store || q.key == "" || q.path != "/api/v1/agent/messages"
             || q.verb !in {"POST", "PUT", "PATCH", "DELETE"}
    ensures Runs(o, t, j)
  {
  }

  /** Every other one with a key of more than 255 characters never gets there. */
  lemma {:induction false} LongKeyRefused(o: Options, t: seq<Event>, j: nat)
    requires j < |t| && t[j].Begin? && o.store && |t[j].request.key| > 255
    requires t[j].request.path == "/api/v1/agent/messages" && t[j].request.verb in {"POST", "PUT", "PATCH", "DELETE"}
    ensures !Runs(o, t, j)
  {
  }

  /** The answer to such a request is stored if and only if it is 2xx, or the
      handler wrote none, and Set succeeds. */
  lemma {:induction false} StoredExactly(o: Options, t: seq<Event>, i: nat)
    requires i < |t| && t[i].Finish? && t[i].begun < i && t[t[i].begun].Begin? && o.store
    requires var q := t[t[i].begun].request;
             q.path == "/api/v1/agent/messages" && q.key != "" && q.verb in {"POST", "PUT", "PATCH", "DELETE"}
    ensures var key, status := t[t[i].begun].request.key, t[i].status;
            var before, after := After(o, t, i).records, After(o, t, i + 1).records;
            if t[i].saved && (status == 0 || 200 <= status <= 299)
            then after == before[key := Record(if status == 0 then 200 else status, t[i].at + o.Lifetime())]
            else after == before
  {
  }

  /** A record lives for the configured ttl less the fraction of a second, for a
      day when none is configured. */
  lemma {:induction false} LifetimeExact(o: Options)
    ensures o.ttl <= 0 ==> o.Lifetime() == 24 * 60 * MINUTE
    ensures o.ttl > 0 ==> o.Lifetime() <= o.ttl < o.Lifetime() + SECOND && o.Lifetime() % SECOND == 0
  {
  }

  // ----------------------------------------------------------- at most one effect

  lemma {:induction false} NoEffects(o: Options, t: seq<Event>, q: Request, n: nat)
    requires n <= |t|
    ensures Effects(o, t, q, n) == 0 <==> forall i: nat :: i < n ==> !Takes(o, t, q, i)
  {
    if n > 0 {
      NoEffects(o, t, q, n - 1);
      assert Effects(o, t, q, n) == Effects(o, t, q, n - 1) + One(Takes(o, t, q, n - 1));
    }
  }

  lemma {:induction false} FewEffects(o: Options, t: seq<Event>, q: Request, n: nat)
    requires n <= |t|
    ensures Effects(o, t, q, n) <= 1 <==>
              forall i: nat, j: nat :: i < j < n ==> !Takes(o, t, q, i) || !Takes(o, t, q, j)
  {
    if n > 0 {
      FewEffects(o, t, q, n - 1);
      NoEffects(o, t, q, n - 1);
      assert Effects(o, t, q, n) == Effects(o, t, q, n - 1) + One(Takes(o, t, q, n - 1));
    }
  }

  /** A request for `q` whose handler would take effect if it were called. */
  predicate Offers(t: seq<Event>, q: Request, i: nat) {
    i < |t| && t[i].Begin? && t[i].request == q && t[i].effect
  }

  /** In every run a request takes effect at most once if and only if of any two
      arrivals that would take effect the middleware shelters one. */
  lemma {:induction false} EffectsExact(o: Options, t: seq<Event>, q: Request)
    requires Valid(o, t)
    ensures Effects(o, t, q, |t|) <= 1 <==>
              forall i: nat, j: nat :: i < j && Offers(t, q, i) && Offers(t, q, j) ==>
                  Sheltered(o, t, i) || Sheltered(o, t, j)
  {
    FewEffects(o, t, q, |t|);
    forall i: nat | i < |t|
      ensures Takes(o, t, q, i) <==> Offers(t, q, i) && !Sheltered(o, t, i)
    {
      if t[i].Begin? { RunsExact(o, t, i); }
    }
  }

  // --------------------------------------------------- what an operator may rely on

  /** What can go wrong between the arrivals of one message: a retry arrives
      before the handler has returned; the handler takes effect and does not
      answer 2xx; storing the answer fails; the lookup of a retry fails; a retry
      arrives after the record has expired. */
  datatype Faults = Faults(overtakes: bool, rejects: bool, unsaved: bool, unread: bool, late: bool) {
    predicate None() { !overtakes && !rejects && !unsaved && !unread && !late }
  }

  ghost predicate Within(f: Faults, o: Options, t: seq<Event>, q: Request) {
    forall i: nat, j: nat :: i < j && Takes(o, t, q, i) && Offers(t, q, j) ==>
      && (!f.overtakes ==> exists m :: i < m < j && t[m].Finish? && t[m].begun == i)
      && (!f.unread ==> t[j].lookup == Answered)
      && forall m :: i < m < j && t[m].Finish? && t[m].begun == i ==>
           && (!f.rejects ==> Success(t[m].status))
           && (!f.unsaved ==> t[m].saved)
           && (!f.late && Stores(o, t, m, q.key) && t[j].lookup == Answered ==> t[j].at < t[m].at + o.Lifetime())
  }

  lemma {:induction false} RetryIsSheltered(f: Faults, o: Options, t: seq<Event>, q: Request, i: nat, j: nat)
    requires Within(f, o, t, q) && f.None() && o.Wraps(q)
    requires i < j && Takes(o, t, q, i) && Offers(t, q, j)
    ensures Sheltered(o, t, j)
  {
    var m :| i < m < j && t[m].Finish? && t[m].begun == i;
    assert Stores(o, t, m, q.key);
  }

  lemma {:induction false} FaultlessOnce(f: Faults, o: Options, t: seq<Event>, q: Request)
    requires Valid(o, t) && Within(f, o, t, q)
    requires o.Wraps(q) && (f.None() || |q.key| > MAX_KEY)
    ensures Effects(o, t, q, |t|) <= 1
  {
    FewEffects(o, t, q, |t|);
    forall i: nat, j: nat | i < j < |t| && Takes(o, t, q, i)
      ensures !Takes(o, t, q, j)
    {
      if Offers(t, q, j) {
        if |q.key| <= MAX_KEY { RetryIsSheltered(f, o, t, q, i, j); }
        RunsExact(o, t, j);
      }
    }
  }

  lemma {:induction false} EffectsAreArrivals(o: Options, t: seq<Event>, q: Request, n: nat)
    requires n <= |t|
    ensures Effects(o, t, q, n) <= Arrivals(t, q, n)
  {
    if n > 0 {
      EffectsAreArrivals(o, t, q, n - 1);
    }
  }

  // ------------------------------------------------------------- client and server

  /** The server answers the request that arrives with event `j`. */
  ghost predicate Answers(o: Options, t: seq<Event>, q: Request, j: nat, status: int) {
    && j < |t| && t[j].Begin? && t[j].request == q
    && var c := Middleware(o, After(o, t, j).records, t[j]);
       || c == Replay(status)
       || (Calls(c) && exists m :: j < m < |t| && t[m].Finish? && t[m].begun == j && FinalStatus(t[m].status) == status)
  }

  /** A run of the server to which the client's `n` sends of `q` belong: each
      arrives at most once, and a response below 400 is an answer of the server.
      Error responses may come from anywhere on the way. */
  ghost predicate Exchange(o: Options, t: seq<Event>, q: Request, env: nat -> Turn, n: nat) {
    && Valid(o, t) && Arrivals(t, q, |t|) <= n
    && forall i: nat :: i < n && Succeeds(env(i).reply) ==> exists j: nat :: Answers(o, t, q, j, env(i).reply.status)
  }

  /** Whether a call takes effect at most once, whatever the network does and
      whatever else the server serves. */
  ghost predicate AlwaysOnce(c: Call, f: Faults, o: Options) {
    forall env: nat -> Turn, n: nat, r: Result, t: seq<Event> ::
      Ends(c.Attempts(), env, n, r) && Exchange(o, t, c.Sends(), env, n) && Within(f, o, t, c.Sends()) ==>
        Effects(o, t, c.Sends(), |t|) <= 1
  }

  /** The call is not retried, or the middleware looks at its key and no fault can
      occur, or the key is too long to be served at all. */
  predicate Guarded(c: Call, f: Faults, o: Options) {
    c.Attempts() <= 0 || (o.Wraps(c.Sends()) && (f.None() || |c.Sends().key| > MAX_KEY))
  }

  lemma {:induction false} GuardedOnce(c: Call, f: Faults, o: Options, env: nat -> Turn, n: nat, r: Result,
      t: seq<Event>)
    requires Guarded(c, f, o)
    requires Ends(c.Attempts(), env, n, r) && Exchange(o, t, c.Sends(), env, n) && Within(f, o, t, c.Sends())
    ensures Effects(o, t, c.Sends(), |t|) <= 1
  {
    if c.Attempts() <= 0 {
      EffectsAreArrivals(o, t, c.Sends(), |t|);
    } else {
      FaultlessOnce(f, o, t, c.Sends());
    }
  }

  /** The first send is answered with `status`; the second comes `later`. */
  function Retried(q: Request, status: int, saved: bool, lookup: Lookup, later: int): (t: seq<Event>) {
    [Begin(0, q, Answered, true), Finish(0, 0, status, saved), Begin(later, q, lookup, true),
        Finish(later, 2, 200, true)]
  }

  /** The second send comes before the first is answered. */
  function Overtaken(q: Request): (t: seq<Event>) {
    [Begin(0, q, Answered, true), Begin(0, q, Answered, true), Finish(0, 1, 200, true)]
  }

  lemma {:induction false} RetriedTwice(o: Options, q: Request, status: int, saved: bool, lookup: Lookup, later: int)
    requires later >= 0
    requires o.Wraps(q) ==>
              |q.key| <= MAX_KEY && (!Success(status) || !saved || lookup != Answered || later >= o.Lifetime())
    ensures var t := Retried(q, status, saved, lookup, later);
            Valid(o, t) && Effects(o, t, q, 4) == 2 && Arrivals(t, q, 4) == 2 && Answers(o, t, q, 2, 200)
  {
    var t := Retried(q, status, saved, lookup, later);
    assert After(o, t, 0) == Server(map[], {});
    assert After(o, t, 1) == Server(map[], {0});
    StepRecords(o, t, 1, q.key);
    assert After(o, t, 2).running == {};
    assert After(o, t, 3).running == {2};
    assert Takes(o, t, q, 0) && !Takes(o, t, q, 1) && Takes(o, t, q, 2) && !Takes(o, t, q, 3);
    assert Effects(o, t, q, 1) == 1;
    assert Effects(o, t, q, 2) == 1;
    assert Effects(o, t, q, 3) == 2;
    assert Arrivals(t, q, 1) == 1;
    assert Arrivals(t, q, 2) == 1;
    assert Arrivals(t, q, 3) == 2;
    assert t[3].Finish? && t[3].begun == 2;
  }

  lemma {:induction false} OvertakenTwice(o: Options, q: Request)
    requires o.Wraps(q) ==> |q.key| <= MAX_KEY
    ensures var t := Overtaken(q);
            Valid(o, t) && Effects(o, t, q, 3) == 2 && Arrivals(t, q, 3) == 2 && Answers(o, t, q, 1, 200)
  {
    var t := Overtaken(q);
    assert After(o, t, 0) == Server(map[], {});
    assert After(o, t, 1) == Server(map[], {0});
    assert After(o, t, 2) == Server(map[], {0, 1});
    assert Takes(o, t, q, 0) && Takes(o, t, q, 1) && !Takes(o, t, q, 2);
    assert Effects(o, t, q, 1) == 1;
    assert Effects(o, t, q, 2) == 2;
    assert Arrivals(t, q, 1) == 1;
    assert Arrivals(t, q, 2) == 2;
    assert t[2].Finish? && t[2].begun == 1;
  }

  lemma {:induction false} RetriedWithin(f: Faults, o: Options, q: Request, status: int, saved: bool, lookup: Lookup,
      later: int)
    requires (Success(status) || f.rejects) && (saved || f.unsaved) && (lookup == Answered || f.unread)
    requires o.Wraps(q) && Success(status) && saved && lookup == Answered ==> f.late || later < o.Lifetime()
    ensures Within(f, o, Retried(q, status, saved, lookup, later), q)
  {
    var t := Retried(q, status, saved, lookup, later);
    forall i: nat, j: nat | i < j && Takes(o, t, q, i) && Offers(t, q, j)
      ensures i == 0 && j == 2 && t[1].Finish? && t[1].begun == 0
    {
    }
  }

  lemma {:induction false} OvertakenWithin(f: Faults, o: Options, q: Request)
    requires f.overtakes
    ensures Within(f, o, Overtaken(q), q)
  {
    var t := Overtaken(q);
    forall i: nat, j: nat | i < j && Takes(o, t, q, i) && Offers(t, q, j)
      ensures i == 0 && j == 1 && t[j].lookup == Answered
    {
    }
  }

  /** A run in which two arrivals of `q` both take effect. */
  ghost predicate Doubled(f: Faults, o: Options, t: seq<Event>, q: Request) {
    && Valid(o, t) && Within(f, o, t, q)
    && Arrivals(t, q, |t|) == 2 && Effects(o, t, q, |t|) == 2
    && exists j: nat :: Answers(o, t, q, j, 200)
  }

  lemma {:induction false} RetriedDoubled(f: Faults, o: Options, q: Request, status: int, saved: bool, lookup: Lookup)
      returns (t: seq<Event>)
    requires o.Wraps(q) ==> |q.key| <= MAX_KEY && (!Success(status) || !saved || lookup != Answered || f.late)
    requires (Success(status) || f.rejects) && (saved || f.unsaved) && (lookup == Answered || f.unread)
    ensures Doubled(f, o, t, q)
  {
    var later := if o.Wraps(q) && f.late then Max(o.Lifetime(), 0) else 0;
    RetriedTwice(o, q, status, saved, lookup, later);
    RetriedWithin(f, o, q, status, saved, lookup, later);
    t := Retried(q, status, saved, lookup, later);
  }

  lemma {:induction false} OvertakenDoubled(f: Faults, o: Options, q: Request) returns (t: seq<Event>)
    requires f.overtakes && (o.Wraps(q) ==> |q.key| <= MAX_KEY)
    ensures Doubled(f, o, t, q)
  {
    OvertakenTwice(o, q);
    OvertakenWithin(f, o, q);
    t := Overtaken(q);
  }

  lemma {:induction false} SomeRunDoubles(q: Request, f: Faults, o: Options) returns (t: seq<Event>)
    requires o.Wraps(q) ==> !f.None() && |q.key| <= MAX_KEY
    ensures Doubled(f, o, t, q)
  {
    if f.overtakes {
      t := OvertakenDoubled(f, o, q);
    } else if f.rejects {
      t := RetriedDoubled(f, o, q, 503, true, Answered);
    } else {
      t := RetriedDoubled(f, o, q, 200, !f.unsaved, if f.unread then Failed else Answered);
    }
  }

  lemma {:induction false} UnguardedRunsTwice(c: Call, f: Faults, o: Options) returns (env: nat -> Turn, t: seq<Event>)
    requires !Guarded(c, f, o)
    ensures Ends(c.Attempts(), env, 2, Nil) && Exchange(o, t, c.Sends(), env, 2) && Within(f, o, t, c.Sends())
    ensures Effects(o, t, c.Sends(), |t|) == 2
  {
    env := i => Turn(false, if i == 0 then ConnectionError(true) else Response(200, true), true, true);
    assert Continues(c.Attempts(), env, 0);
    t := SomeRunDoubles(c.Sends(), f, o);
  }

  /** A call takes effect at most once in all runs if and only if it is guarded:
      with any one of the five faults possible, a retried message can take effect
      twice. */
  lemma {:induction false} AlwaysOnceIff(c: Call, f: Faults, o: Options)
    ensures AlwaysOnce(c, f, o) <==> Guarded(c, f, o)
  {
    if Guarded(c, f, o) {
      forall env: nat -> Turn, n: nat, r: Result, t: seq<Event> |
        Ends(c.Attempts(), env, n, r) && Exchange(o, t, c.Sends(), env, n) && Within(f, o, t, c.Sends())
        ensures Effects(o, t, c.Sends(), |t|) <= 1
      {
        GuardedOnce(c, f, o, env, n, r, t);
      }
    } else {
      var env, t := UnguardedRunsTwice(c, f, o);
    }
  }

  /** The SDK's messages: with a store and a key that fits, they take effect at most
      once in all runs if and only if they are not retried or no fault can occur. */
  lemma {:induction false} MessagesOnceIff(c: Call, f: Faults, o: Options)
    requires c.verb == "POST" && c.path == "/api/v1/agent/messages" && o.store
    requires var key := if c.key == "" then c.generated else c.key; 0 < |key| <= 255
    ensures AlwaysOnce(c, f, o) <==> c.maxRetries <= 0 || f == Faults(false, false, false, false, false)
  {
    AlwaysOnceIff(c, f, o);
  }

  /** A nil result means that the message took effect, when the handler answers
      below 400 only if it took effect and no other message has its key; without
      faults it took effect exactly once. */
  lemma {:induction false} NilMeansEffect(c: Call, o: Options, env: nat -> Turn, n: nat, t: seq<Event>)
    requires Ends(c.Attempts(), env, n, Nil) && c.maxRetries >= 0 && Exchange(o, t, c.Sends(), env, n)
    requires forall m :: 0 <= m < |t| && t[m].Finish? && FinalStatus(t[m].status) < 400 ==>
              t[m].begun < |t| && t[t[m].begun].Begin? && t[t[m].begun].effect
    requires forall j :: 0 <= j < |t| && t[j].Begin? && o.Wraps(t[j].request) && t[j].request.key == c.Sends().key ==>
              t[j].request == c.Sends()
    ensures Effects(o, t, c.Sends(), |t|) >= 1
    ensures o.Wraps(c.Sends()) && Within(Faults(false, false, false, false, false), o, t, c.Sends()) ==>
              Effects(o, t, c.Sends(), |t|) == 1
  {
    var q := c.Sends();
    NilMeansSuccess(c, env, n, Nil);
    var status := env(n-1).reply.status;
    var j: nat :| Answers(o, t, q, j, status);
    var b := j;
    if Middleware(o, After(o, t, j).records, t[j]) == Replay(status) {
      var m := RecordIsStore(o, t, j, q.key);
      b := t[m].begun;
      RunningIff(o, t, m, b);
    }
    assert Takes(o, t, q, b);
    NoEffects(o, t, q, |t|);
    if o.Wraps(q) && Within(Faults(false, false, false, false, false), o, t, q) {
      FaultlessOnce(Faults(false, false, false, false, false), o, t, q);
    }
  }
}
