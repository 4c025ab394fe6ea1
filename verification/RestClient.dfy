/**
 The REST call of the agent SDK (integrations/alga-agent-sdk-go/client.go): its
 retry loop, the reuse of the idempotency key and the backoff arithmetic.  What
 the network, the context and the server do is an input, one `Turn` per attempt.
 */
module RestClient {

  import opened Common

  const MESSAGES := "/api/v1/agent/messages"

  datatype Reply =
    | ConnectionError(retryable: bool)   // the request failed
    | ReadError(retryable: bool)         // the body could not be read
    | Response(status: int, decodes: bool)

  /** One attempt: whether the context is already done, what came back, whether
      the server ran the request, and whether the pause after it ran its course. */
  datatype Turn = Turn(done: bool, reply: Reply, runs: bool, slept: bool)

  datatype Result =
    | Nil | MarshalError | ContextError | ConnectionFailed | DecodeError
    | AuthError(code: int) | ApiError(code: int)

  datatype Request = Request(verb: string, path: string, key: string)

  /** The arguments of doJSONIdem; `generated` is the key that newIdempotencyKey
      would return. */
  datatype Call = Call(verb: string, path: string, key: string, generated: string, marshals: bool, maxRetries: int) {
    predicate Mutating() { verb != "GET" && verb != "HEAD" }

    function Key(): string {
      if Mutating() && key == "" && path == MESSAGES then generated else key
    }

    function Attempts(): int {
      if Mutating() && Key() == "" then 0 else maxRetries
    }

    function Sends(): Request { Request(verb, path, Key()) }
  }

  predicate RetryableStatus(status: int) {
    status == 429 || status == 500 || status == 502 || status == 503 || status == 504
  }

  predicate AuthStatus(status: int) { status == 401 || status == 403 }

  predicate Retryable(r: Reply) {
    match r
    case ConnectionError(b) => b
    case ReadError(b) => b
    case Response(status, _) => RetryableStatus(status)
  }

  predicate Succeeds(r: Reply) { r.Response? && r.status < 400 }

  /** The error, or nil, that a reply amounts to. */
  function Meaning(r: Reply): Result {
    match r
    case ConnectionError(_) => ConnectionFailed
    case ReadError(_) => ConnectionFailed
    case Response(status, decodes) =>
      if AuthStatus(status) then AuthError(status)
      else if status >= 400 then ApiError(status)
      else if decodes then Nil else DecodeError
  }

  /** Attempt `i` was made and another follows it. */
  ghost predicate Continues(attempts: int, env: nat -> Turn, i: nat) {
    !env(i).done && Retryable(env(i).reply) && i < attempts && env(i).slept
  }

  /** The loop makes exactly `n` attempts and returns `r`. */
  ghost predicate Ends(attempts: int, env: nat -> Turn, n: nat, r: Result) {
    && (forall i: nat :: i + 1 < n ==> Continues(attempts, env, i))
    && (|| (attempts < 0 && n == 0 && r == Nil)
        || (n <= attempts && (n > 0 ==> Continues(attempts, env, n - 1)) && env(n).done && r == ContextError)
        || (&& 0 < n <= attempts + 1 && !env(n-1).done && !Continues(attempts, env, n - 1)
            && r == if Retryable(env(n-1).reply) && n - 1 < attempts then ContextError else Meaning(env(n-1).reply)))
  }

  /** The contract pins the behaviour down. */
  lemma {:induction false} EndsUnique(attempts: int, env: nat -> Turn, n: nat, r: Result, m: nat, q: Result)
    requires Ends(attempts, env, n, r) && Ends(attempts, env, m, q)
    ensures n == m && r == q
  {
    assert n + 1 < m ==> Continues(attempts, env, n);
    assert m + 1 < n ==> Continues(attempts, env, m);
  }

  /** The key a request carries: the generated one for a message without a key of
      the caller's, else the caller's. */
  function KeyFor(verb: string, path: string, key: string, generated: string): string {
    if key != "" || verb == "GET" || verb == "HEAD" || path != "/api/v1/agent/messages" then key else generated
  }

  /** Calls that may be repeated: they read, or are recognised by a key. */
  predicate CanRetry(c: Call) {
    || c.verb == "GET" || c.verb == "HEAD" || c.key != ""
    || (c.path == "/api/v1/agent/messages" && c.generated != "")
  }

  predicate TransientReply(r: Reply) {
    || r == ConnectionError(true) || r == ReadError(true)
    || (r.Response? && r.status in {429, 500, 502, 503, 504})
  }

  /** A transient failure that the call waits out. */
  predicate WaitedOut(t: Turn) { !t.done && t.slept && TransientReply(t.reply) }

  /** Calls with retries left after `k` attempts. */
  predicate MayRetry(c: Call, k: nat) { if CanRetry(c) then k <= c.maxRetries else k == 0 }

  lemma {:induction false} WaitedOutContinues(c: Call, env: nat -> Turn, k: nat)
    requires c.maxRetries >= 0 && MayRetry(c, k) && forall i: nat :: i < k ==> WaitedOut(env(i))
    ensures c.Attempts() == if CanRetry(c) then c.maxRetries else 0
    ensures forall i: nat :: i < k ==> Continues(c.Attempts(), env, i)
  {
    forall i: nat | i < k ensures Continues(c.Attempts(), env, i) {
      assert WaitedOut(env(i));
    }
  }

  /** After transient failures, as many as may be retried, the first other reply
      ends the call and decides its result. */
  lemma {:induction false} FirstFinalReply(c: Call, env: nat -> Turn, k: nat, n: nat, r: Result)
    requires c.maxRetries >= 0 && MayRetry(c, k) && Ends(c.Attempts(), env, n, r)
    requires (forall i: nat :: i < k ==> WaitedOut(env(i))) && !env(k).done && !TransientReply(env(k).reply)
    ensures n == k + 1
    ensures env(k).reply.Response? ==>
              var Response(status, decodes) := env(k).reply;
              r == if status in {401, 403} then AuthError(status)
                   else if status >= 400 then ApiError(status)
                   else if decodes then Nil else DecodeError
    ensures !env(k).reply.Response? ==> r == ConnectionFailed
  {
    WaitedOutContinues(c, env, k);
    EndsUnique(c.Attempts(), env, n, r, k + 1, Meaning(env(k).reply));
  }

  /** With transient failures only, a call that may be repeated makes maxRetries + 1
      attempts, any other a single one, and the last failure is the result. */
  lemma {:induction false} RetriesExhausted(c: Call, env: nat -> Turn, n: nat, r: Result)
    requires c.maxRetries >= 0 && Ends(c.Attempts(), env, n, r)
    requires forall i: nat :: i <= c.maxRetries ==> WaitedOut(env(i))
    ensures n == if CanRetry(c) then c.maxRetries + 1 else 1
    ensures r == if env(n-1).reply.Response? then ApiError(env(n-1).reply.status) else ConnectionFailed
  {
    var last: nat := if CanRetry(c) then c.maxRetries else 0;
    WaitedOutContinues(c, env, last);
    assert WaitedOut(env(last));
    EndsUnique(last, env, n, r, last + 1, Meaning(env(last).reply));
  }

  /** A context that is done before an attempt, or during the pause before a
      further one, ends the call with its error. */
  lemma {:induction false} ContextEnds(c: Call, env: nat -> Turn, k: nat, n: nat, r: Result)
    requires c.maxRetries >= 0 && MayRetry(c, k) && Ends(c.Attempts(), env, n, r)
    requires forall i: nat :: i < k ==> WaitedOut(env(i))
    ensures env(k).done ==> n == k && r == ContextError
    ensures !env(k).done && TransientReply(env(k).reply) && !env(k).slept && MayRetry(c, k + 1) ==>
              n == k + 1 && r == ContextError
  {
    WaitedOutContinues(c, env, k);
    if env(k).done {
      EndsUnique(c.Attempts(), env, n, r, k, ContextError);
    } else if TransientReply(env(k).reply) && !env(k).slept && MayRetry(c, k + 1) {
      EndsUnique(c.Attempts(), env, n, r, k + 1, ContextError);
    }
  }

  method DoJsonIdem(c: Call, env: nat -> Turn) returns (r: Result, sent: seq<Request>)
    ensures !c.marshals ==> r == MarshalError && sent == []
    ensures c.marshals ==> Ends(c.Attempts(), env, |sent|, r)
    ensures forall q :: q in sent ==> q == c.Sends()
    ensures forall q :: q in sent ==>
              q.verb == c.verb && q.path == c.path && q.key == KeyFor(c.verb, c.path, c.key, c.generated)
  {
    sent := [];
    if !c.marshals {
      return MarshalError, [];
    }
    var mutating := c.verb != "GET" && c.verb != "HEAD";
    var key := c.key;
    if mutating && key == "" && c.path == MESSAGES {
      key := c.generated;
    }
    var attempts := c.maxRetries;
    if mutating && key == "" {
      attempts := 0;
    }
    var attempt := 0;
    while attempt <= attempts
      invariant 0 <= attempt && |sent| == attempt
      invariant attempt > 0 ==> attempt <= attempts
      invariant forall i: nat :: i < attempt ==> Continues(attempts, env, i)
      invariant forall q :: q in sent ==> q == c.Sends()
    {
      var turn := env(attempt);
      if turn.done {
        return ContextError, sent;
      }
      sent := sent + [Request(c.verb, c.path, key)];
      match turn.reply {
        case ConnectionError(retryable) =>
          if !retryable || attempt == attempts {
            return ConnectionFailed, sent;
          }
        case ReadError(retryable) =>
          if !retryable || attempt == attempts {
            return ConnectionFailed, sent;
          }
        case Response(status, decodes) =>
          if status == 401 || status == 403 {
            return AuthError(status), sent;
          }
          if status < 400 {
            return if decodes then Nil else DecodeError, sent;
          }
          if !RetryableStatus(status) || attempt == attempts {
            return ApiError(status), sent;
          }
      }
      if !turn.slept {
        return ContextError, sent;
      }
      attempt := attempt + 1;
    }
    return Nil, sent;
  }

  // ------------------------------------------------------------ what it means

  /** At most maxRetries + 1 sends, and a mutation without a key at most one. */
  lemma {:induction false} SendsBounded(c: Call, env: nat -> Turn, n: nat, r: Result)
    requires Ends(c.Attempts(), env, n, r)
    ensures n <= 1 || n <= c.maxRetries + 1
    ensures c.Mutating() && c.Key() == "" ==> n <= 1
    ensures c.Mutating() && c.path != MESSAGES && c.key == "" ==> n <= 1
  {
  }

  /** Only the last attempt can have met an authentication failure, a permanent
      error or a success. */
  lemma {:induction false} FinalRepliesEnd(c: Call, env: nat -> Turn, n: nat, r: Result, i: nat)
    requires Ends(c.Attempts(), env, n, r) && i < n
    ensures !Retryable(env(i).reply) ==> i == n - 1 && r == Meaning(env(i).reply)
    ensures env(i).reply.Response? && AuthStatus(env(i).reply.status) ==>
              i == n - 1 && r == AuthError(env(i).reply.status)
  {
    assert i + 1 < n ==> Continues(c.Attempts(), env, i);
  }

  /** Nil is returned exactly when the last attempt got a response below 400 that
      decoded, or when a negative retry count kept the loop from running at all. */
  lemma {:induction false} NilMeansSuccess(c: Call, env: nat -> Turn, n: nat, r: Result)
    requires Ends(c.Attempts(), env, n, r)
    ensures r == Nil <==> (n > 0 && Succeeds(env(n-1).reply) && env(n-1).reply.decodes) || c.Attempts() < 0
    ensures c.Attempts() < 0 <==> c.maxRetries < 0 && !(c.Mutating() && c.Key() == "")
  {
    if n > 0 && Succeeds(env(n-1).reply) {
      assert !Continues(c.Attempts(), env, n - 1);
    }
  }

  // ----------------------------------------------------------- an ideal server

  /** The backend honours the key only on this route. */
  predicate Honoured(q: Request) { q.verb == "POST" && q.path == MESSAGES && q.key != "" }

  datatype Arrival = Arrival(request: Request, runs: bool)

  /** The requests run by a server that replays a key as soon as it has run it.
      This is an assumption: the backend's own middleware, which stores a key only
      after a 2xx answer, is modelled in `Idempotency`. */
  function Executed(cache: set<string>, arrivals: seq<Arrival>): seq<Request>
    decreases |arrivals|
  {
    if arrivals == [] then [] else
      var a := arrivals[0];
      if !a.runs || (Honoured(a.request) && a.request.key in cache) then Executed(cache, arrivals[1..])
      else [a.request] + Executed(if Honoured(a.request) then cache + {a.request.key} else cache, arrivals[1..])
  }

  function Count(log: seq<Request>, q: Request): nat {
    if log == [] then 0 else (if log[0] == q then 1 else 0) + Count(log[1..], q)
  }

  lemma {:induction false} CountCons(head: Request, log: seq<Request>, q: Request)
    ensures Count([head] + log, q) == (if head == q then 1 else 0) + Count(log, q)
  {
    assert ([head] + log)[1..] == log;
  }

  /** However the requests of all clients interleave, a keyed message takes
      effect at most once on the ideal server. */
  lemma {:induction false} KeyRunsOnce(cache: set<string>, arrivals: seq<Arrival>, q: Request)
    requires Honoured(q)
    ensures Count(Executed(cache, arrivals), q) <= if q.key in cache then 0 else 1
    decreases |arrivals|
  {
    if arrivals != [] {
      var a := arrivals[0];
      var rest := arrivals[1..];
      if !a.runs || (Honoured(a.request) && a.request.key in cache) {
        KeyRunsOnce(cache, rest, q);
      } else {
        var cache' := if Honoured(a.request) then cache + {a.request.key} else cache;
        KeyRunsOnce(cache', rest, q);
        CountCons(a.request, Executed(cache', rest), q);
      }
    }
  }

  /** A keyed message that arrived to be run did take effect, unless the server
      had run its key before. */
  lemma {:induction false} KeyRuns(cache: set<string>, arrivals: seq<Arrival>, q: Request, i: nat)
    requires Honoured(q) && q.key !in cache
    requires i < |arrivals| && arrivals[i] == Arrival(q, true)
    requires forall k :: 0 <= k < |arrivals| && Honoured(arrivals[k].request) && arrivals[k].request.key == q.key ==>
              arrivals[k].request == q
    ensures Count(Executed(cache, arrivals), q) >= 1
    decreases |arrivals|
  {
    var a, rest := arrivals[0], arrivals[1..];
    if a.runs && !(Honoured(a.request) && a.request.key in cache) {
      var cache' := if Honoured(a.request) then cache + {a.request.key} else cache;
      CountCons(a.request, Executed(cache', rest), q);
      if a.request != q {
        KeyRuns(cache', rest, q, i - 1);
      }
    } else {
      KeyRuns(cache, rest, q, i - 1);
    }
  }

  /** The arrivals of one call of `n` attempts. */
  function Arrivals(q: Request, env: nat -> Turn, n: nat): (a: seq<Arrival>)
    ensures |a| == n && forall i :: 0 <= i < n ==> a[i] == Arrival(q, env(i).runs)
  {
    seq(n, i requires 0 <= i => Arrival(q, env(i).runs))
  }

  lemma {:induction false} FewArrivals(cache: set<string>, arrivals: seq<Arrival>, q: Request)
    ensures Count(Executed(cache, arrivals), q) <= |arrivals|
    decreases |arrivals|
  {
    if arrivals != [] {
      var a, rest := arrivals[0], arrivals[1..];
      var cache' := if Honoured(a.request) then cache + {a.request.key} else cache;
      FewArrivals(cache, rest, q);
      FewArrivals(cache', rest, q);
      CountCons(a.request, Executed(cache', rest), q);
    }
  }

  /** On the ideal server, a mutation takes effect at most once in every run
      exactly if it is never retried or its key is honoured. */
  predicate ReplaySafe(c: Call) { c.Attempts() <= 0 || Honoured(c.Sends()) }

  lemma {:induction false} EffectAtMostOnce(c: Call, env: nat -> Turn, n: nat, r: Result)
    requires ReplaySafe(c) && Ends(c.Attempts(), env, n, r)
    ensures Count(Executed({}, Arrivals(c.Sends(), env, n)), c.Sends()) <= 1
  {
    if Honoured(c.Sends()) {
      KeyRunsOnce({}, Arrivals(c.Sends(), env, n), c.Sends());
    } else {
      FewArrivals({}, Arrivals(c.Sends(), env, n), c.Sends());
    }
  }

  /** A server that answers 503 after running the request. */
  lemma {:induction false} UnsafeCallRunsTwice(c: Call) returns (env: nat -> Turn)
    requires !ReplaySafe(c)
    ensures Ends(c.Attempts(), env, 2, Nil)
    ensures Count(Executed({}, Arrivals(c.Sends(), env, 2)), c.Sends()) == 2
  {
    env := i => Turn(false, Response(if i == 0 then 503 else 200, true), true, true);
    assert Continues(c.Attempts(), env, 0);
    var q := c.Sends();
    var a := Arrivals(q, env, 2);
    assert a == [Arrival(q, true), Arrival(q, true)];
    assert a[1..] == [Arrival(q, true)] && a[1..][1..] == [];
    assert Executed({}, a[1..]) == [q];
    assert Executed({}, a) == [q] + [q];
    CountCons(q, [q], q);
    CountCons(q, [], q);
  }

  /** On the ideal server, a nil result of a message means exactly one effect, when
      a response below 400 means that the server ran the request or replayed it. */
  lemma {:induction false} NilMeansOneEffect(c: Call, env: nat -> Turn, n: nat)
    requires Ends(c.Attempts(), env, n, Nil) && Honoured(c.Sends()) && c.maxRetries >= 0
    requires forall i: nat :: Succeeds(env(i).reply) ==> exists k: nat :: k <= i && env(k).runs
    ensures Count(Executed({}, Arrivals(c.Sends(), env, n)), c.Sends()) == 1
  {
    NilMeansSuccess(c, env, n, Nil);
    var k: nat :| k <= n - 1 && env(k).runs;
    KeyRunsOnce({}, Arrivals(c.Sends(), env, n), c.Sends());
    KeyRuns({}, Arrivals(c.Sends(), env, n), c.Sends(), k);
  }

  // ------------------------------------------------------------------- backoff

  const TWO63 := 0x8000_0000_0000_0000
  const TWO64 := 0x1_0000_0000_0000_0000

  /** Two's-complement wrap-around of int64. */
  function Wrap(x: int): int { (x + TWO63) % TWO64 - TWO63 }

  function Product(attempt: nat): int { Wrap(SECOND * Wrap(Pow2(attempt))) }

  /** The delay before the jitter is added. */
  function BaseDelay(attempt: nat): int {
    Min(Product(attempt), 30 * SECOND)
  }

  /** backoffFor; `jitter` is what randInt64N returned. */
  function BackoffFor(attempt: nat, retryAfter: int, jitter: int): int {
    if retryAfter > 0 then Min(retryAfter, 600 * SECOND) else BaseDelay(attempt) + jitter
  }

  predicate Jitter(attempt: nat, jitter: int) {
    0 <= jitter && (jitter == 0 || 5 * jitter < BaseDelay(attempt))
  }

  lemma {:induction false} WrapUnique(x: int, y: int, q: int)
    requires x == y + q * TWO64 && -TWO63 <= y < TWO63
    ensures Wrap(x) == y
  {
  }

  lemma {:induction false} WrapScaled(p: int, c: int)
    ensures Wrap(c * Wrap(p)) == Wrap(c * p)
  {
    var k := (p + TWO63) / TWO64;
    assert Wrap(p) == p - k * TWO64;
    var y, q := Wrap(c * p), (c * p + TWO63) / TWO64;
    assert c * Wrap(p) == c * p - (c * k) * TWO64 by { assert c * (k * TWO64) == (c * k) * TWO64; }
    WrapUnique(c * Wrap(p), y, q - c * k);
  }

  lemma {:induction false} ProductDoubles(attempt: nat, y: int)
    requires y == 2 * Product(attempt) || y == 2 * Product(attempt) - TWO64 || y == 2 * Product(attempt) + TWO64
    requires -TWO63 <= y < TWO63
    ensures Product(attempt + 1) == y
  {
    var p := SECOND * Pow2(attempt);
    WrapScaled(Pow2(attempt), SECOND);
    WrapScaled(Pow2(attempt + 1), SECOND);
    assert SECOND * Pow2(attempt + 1) == 2 * p;
    var k := (p + TWO63) / TWO64;
    assert p == Product(attempt) + k * TWO64;
    var carry := if y == 2 * Product(attempt) then 0 else if y < 2 * Product(attempt) then 1 else -1;
    WrapUnique(2 * p, y, 2 * k + carry);
  }

  lemma {:induction false} Pow2Bound(k: nat)
    requires k <= 33
    ensures 1 <= Pow2(k) <= 0x2_0000_0000
    ensures k >= 5 ==> Pow2(k) >= 32
  {
    if k > 0 { Pow2Bound(k - 1); }
    if k == 5 { assert Pow2(4) == 16 by { assert Pow2(2) == 4; assert Pow2(3) == 8; } }
    if k == 33 { Pow2At33(); } else if k > 0 { Pow2Mono(k); }
  }

  lemma {:induction false} Pow2At33()
    ensures Pow2(33) == 0x2_0000_0000
  {
    assert Pow2(8) == 256;
    assert Pow2(16) == 65536;
    assert Pow2(24) == 16777216;
    assert Pow2(32) == 0x1_0000_0000;
  }

  lemma {:induction false} Pow2Mono(k: nat)
    requires k <= 33
    ensures Pow2(k) <= 0x2_0000_0000
    decreases 33 - k
  {
    if k == 33 { Pow2At33(); } else { Pow2Mono(k + 1); }
  }

  lemma {:induction false} Pow2AtLeast(k: nat)
    requires k >= 5
    ensures Pow2(k) >= 32
  {
    if k > 5 { Pow2AtLeast(k - 1); } else { Pow2Bound(5); }
  }

  lemma {:induction false} SmallProduct(attempt: nat)
    requires attempt <= 33
    ensures Product(attempt) == SECOND * Pow2(attempt)
  {
    Pow2Bound(attempt);
    WrapUnique(Pow2(attempt), Pow2(attempt), 0);
    WrapUnique(SECOND * Pow2(attempt), SECOND * Pow2(attempt), 0);
  }

  lemma {:induction false} ProductAt33()
    ensures Product(33) == 8_589_934_592_000_000_000
  {
    SmallProduct(33);
    Pow2At33();
  }

  /** The products from the first overflow on, doubled one by one. */
  lemma {:induction false} ProductsTo44()
    ensures forall a :: 33 < a <= 44 ==> if Late(a) then 30 * SECOND < Product(a) else Product(a) < 0
    ensures Product(44) == -6_007_801_902_912_241_664
  {
    ProductAt33();
    ProductDoubles(33, -1_266_874_889_709_551_616);
    ProductDoubles(34, -2_533_749_779_419_103_232);
    ProductDoubles(35, -5_067_499_558_838_206_464);
    ProductDoubles(36, 8_311_744_956_033_138_688);
    ProductDoubles(37, -1_823_254_161_643_274_240);
    ProductDoubles(38, -3_646_508_323_286_548_480);
    ProductDoubles(39, -7_293_016_646_573_096_960);
    ProductDoubles(40, 3_860_710_780_563_357_696);
    ProductDoubles(41, 7_721_421_561_126_715_392);
    ProductDoubles(42, -3_003_900_951_456_120_832);
    ProductDoubles(43, -6_007_801_902_912_241_664);
  }

  lemma {:induction false} LateProducts()
    ensures forall a :: 33 < a < 55 ==> if Late(a) then 30 * SECOND < Product(a) else Product(a) < 0
    ensures Product(55) == 0
  {
    ProductsTo44();
    ProductDoubles(44, 6_431_140_267_885_068_288);
    ProductDoubles(45, -5_584_463_537_939_415_040);
    ProductDoubles(46, 7_277_816_997_830_721_536);
    ProductDoubles(47, -3_891_110_078_048_108_544);
    ProductDoubles(48, -7_782_220_156_096_217_088);
    ProductDoubles(49, 2_882_303_761_517_117_440);
    ProductDoubles(50, 5_764_607_523_034_234_880);
    ProductDoubles(51, -6_917_529_027_641_081_856);
    ProductDoubles(52, 4_611_686_018_427_387_904);
    ProductDoubles(53, -9_223_372_036_854_775_808);
    ProductDoubles(54, 0);
  }

  lemma {:induction false} Vanishes(attempt: nat)
    requires attempt >= 55
    ensures Product(attempt) == 0
    decreases attempt
  {
    if attempt > 55 {
      Vanishes(attempt - 1);
      ProductDoubles(attempt - 1, 0);
    } else {
      LateProducts();
    }
  }

  /** Past attempt 33 the product is wrapped; these attempts happen to wrap to a
      large positive one. */
  predicate Late(attempt: nat) {
    || attempt == 37 || attempt == 41 || attempt == 42 || attempt == 45
    || attempt == 47 || attempt == 50 || attempt == 51 || attempt == 53
  }

  /** The promised delay is met exactly up to attempt 33 and at eight later ones. */
  predicate DelayKept(attempt: nat) { attempt <= 33 || Late(attempt) }

  /** The delay before jitter is min(2^attempt, 30) seconds exactly where
      `DelayKept` says; elsewhere nothing is waited at all. */
  lemma {:induction false} DelayExact(attempt: nat)
    ensures BaseDelay(attempt) == SECOND * Min(Pow2(attempt), 30) <==> DelayKept(attempt)
    ensures BaseDelay(attempt) <= 0 <==> !DelayKept(attempt)
  {
    if attempt <= 33 {
      SmallProduct(attempt);
      Pow2Bound(attempt);
    } else {
      Pow2AtLeast(attempt);
      if attempt < 55 { LateProducts(); } else { Vanishes(attempt); }
    }
  }

  /** The pause without Retry-After is the promised delay plus less than a fifth. */
  lemma {:induction false} BackoffBounds(attempt: nat)
    requires DelayKept(attempt)
    ensures BaseDelay(attempt) == SECOND * Min(Pow2(attempt), 30)
    ensures forall jitter :: Jitter(attempt, jitter) ==> SECOND <= BackoffFor(attempt, 0, jitter) < 36 * SECOND
  {
    DelayExact(attempt);
    if attempt <= 33 { Pow2Bound(attempt); } else { Pow2AtLeast(attempt); }
  }
}
