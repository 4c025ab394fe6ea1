/**
 Sign-in state and replay protection for SAML (apps/backend/api/saml_flow.go) and
 the assertion lifetime check (apps/backend/api/saml.go).  Times are nanoseconds;
 every operation takes the clock's reading as an argument.
 */
module SamlFlow {

  import opened Common

  const FLOW_TTL := 10 * MINUTE
  const REPLAY_TTL := 24 * 60 * MINUTE
  const MAX_LIFETIME := 15 * MINUTE
  const MAX_SKEW := 3 * MINUTE

  datatype Payload = Payload(providerId: string, requestId: string, nextPath: string)

  datatype Flow = Flow(payload: Payload, expires: int)

  datatype Store = Store(flows: map<string, Flow>, assertions: map<string, int>)

  const EMPTY := Store(map[], map[])

  /** The text whose digest names an assertion. */
  function AssertionKey(issuer: string, id: string): string { issuer + "\0" + id }

  // ------------------------------------------------------------ specification

  function Swept(st: Store, now: int): Store {
    Store(map k | k in st.flows && now < st.flows[k].expires :: st.flows[k],
          map k | k in st.assertions && now < st.assertions[k] :: st.assertions[k])
  }

  function SetState(st: Store, relay: string, payload: Payload, now: int): (Store, bool) {
    var s := Swept(st, now);
    if relay in s.flows then (s, false)
    else (s.(flows := s.flows[relay := Flow(payload, now + FLOW_TTL)]), true)
  }

  function ConsumeState(st: Store, relay: string, now: int): (Store, Option<Payload>) {
    if relay !in st.flows then (st, None)
    else (st.(flows := st.flows - {relay}),
          if now < st.flows[relay].expires then Some(st.flows[relay].payload) else None)
  }

  function MarkState(st: Store, key: string, now: int): (Store, bool) {
    if key in st.assertions && now < st.assertions[key] then (st, false)
    else (st.(assertions := st.assertions[key := now + REPLAY_TTL]), true)
  }

  class FlowStore {
    var flows: map<string, Flow>
    var assertions: map<string, int>

    function Contents(): Store
      reads this
    {
      Store(flows, assertions)
    }

    constructor ()
      ensures Contents() == EMPTY
    {
      flows, assertions := map[], map[];
    }

    method Set(relay: string, payload: Payload, now: int) returns (ok: bool)
      modifies this
      ensures (Contents(), ok) == old(SetState(Contents(), relay, payload, now))
    {
      SweepFlows(now);
      SweepAssertions(now);
      ok := relay !in flows;
      if ok {
        flows := flows[relay := Flow(payload, now + FLOW_TTL)];
      }
    }

    method Consume(relay: string, now: int) returns (payload: Option<Payload>)
      modifies this
      ensures (Contents(), payload) == old(ConsumeState(Contents(), relay, now))
    {
      if relay !in flows {
        return None;
      }
      var flow := flows[relay];
      flows := flows - {relay};
      payload := if !(now < flow.expires) then None else Some(flow.payload);
    }

    method MarkAssertionUsed(issuer: string, id: string, now: int) returns (first: bool)
      modifies this
      ensures (Contents(), first) == old(MarkState(Contents(), AssertionKey(issuer, id), now))
    {
      var key := AssertionKey(issuer, id);
      if key in assertions && now < assertions[key] {
        return false;
      }
      assertions := assertions[key := now + REPLAY_TTL];
      first := true;
    }

    method SweepFlows(now: int)
      modifies this`flows
      ensures flows == Swept(old(Contents()), now).flows
    {
      var left := flows.Keys;
      while left != {}
        invariant left <= flows.Keys <= old(flows).Keys
        invariant forall k :: k in flows ==> flows[k] == old(flows)[k] && (k in left || now < flows[k].expires)
        invariant forall k :: k in old(flows) && k !in flows ==> now >= old(flows)[k].expires
        decreases left
      {
        var k :| k in left;
        if !(now < flows[k].expires) {
          flows := flows - {k};
        }
        left := left - {k};
      }
    }

    method SweepAssertions(now: int)
      modifies this`assertions
      ensures assertions == Swept(old(Contents()), now).assertions
    {
      var left := assertions.Keys;
      while left != {}
        invariant left <= assertions.Keys <= old(assertions).Keys
        invariant forall k :: k in assertions ==>
                    assertions[k] == old(assertions)[k] && (k in left || now < assertions[k])
        invariant forall k :: k in old(assertions) && k !in assertions ==> now >= old(assertions)[k]
        decreases left
      {
        var k :| k in left;
        if !(now < assertions[k]) {
          assertions := assertions - {k};
        }
        left := left - {k};
      }
    }
  }

  // --------------------------------------------------------------------- runs

  datatype Op =
    | Set(relay: string, payload: Payload, now: int)
    | Consume(relay: string, now: int)
    | Mark(key: string, now: int)

  function OpState(st: Store, op: Op): Store {
    match op
    case Set(relay, payload, now) => SetState(st, relay, payload, now).0
    case Consume(relay, now) => ConsumeState(st, relay, now).0
    case Mark(key, now) => MarkState(st, key, now).0
  }

  function After(ops: seq<Op>): Store {
    if ops == [] then EMPTY else OpState(After(ops[..|ops|-1]), ops[|ops|-1])
  }

  /** Operation `i` of the run is a Set, or a Mark, that reported success. */
  predicate Succeeded(ops: seq<Op>, i: nat)
    requires i < |ops|
  {
    match ops[i]
    case Set(relay, payload, now) => SetState(After(ops[..i]), relay, payload, now).1
    case Mark(key, now) => MarkState(After(ops[..i]), key, now).1
    case Consume(_, _) => false
  }

  function Consumed(ops: seq<Op>, i: nat): Option<Payload>
    requires i < |ops| && ops[i].Consume?
  {
    ConsumeState(After(ops[..i]), ops[i].relay, ops[i].now).1
  }

  /** The clock never goes back. */
  ghost predicate Monotone(ops: seq<Op>) {
    forall i, j :: 0 <= i < j < |ops| ==> ops[i].now <= ops[j].now
  }

  ghost predicate NotBefore(ops: seq<Op>, now: int) {
    forall i :: 0 <= i < |ops| ==> ops[i].now <= now
  }

  // ------------------------------------------------------------ replay memory

  /** Mark `j` succeeded for the key less than the replay time before `now`. */
  ghost predicate Remembers(ops: seq<Op>, key: string, now: int, j: int) {
    0 <= j < |ops| && ops[j].Mark? && ops[j].key == key && Succeeded(ops, j) && now < ops[j].now + 24 * 60 * MINUTE
  }

  lemma {:induction false} PrefixSucceeded(ops: seq<Op>, n: nat, j: nat)
    requires j < n <= |ops|
    ensures Succeeded(ops[..n], j) == Succeeded(ops, j)
    ensures ops[j].Consume? ==> Consumed(ops[..n], j) == Consumed(ops, j)
  {
    assert ops[..n][..j] == ops[..j];
  }

  lemma {:induction false} RemembersSnoc(ops: seq<Op>, key: string, now: int, j: int)
    requires ops != []
    ensures Remembers(ops, key, now, j) <==>
              Remembers(ops[..|ops|-1], key, now, j) ||
              (j == |ops| - 1 && ops[j] == Mark(key, ops[j].now) && Succeeded(ops, j) &&
                  now < ops[j].now + 24 * 60 * MINUTE)
  {
    if 0 <= j < |ops| - 1 {
      PrefixSucceeded(ops, |ops| - 1, j);
    }
  }

  /** The sweep in Set never forgets a live key: at any later time, the store
      holds the key exactly when a successful mark is younger than the limit. */
  lemma {:induction false} ReplayMemory(ops: seq<Op>, key: string, now: int)
    requires Monotone(ops) && NotBefore(ops, now)
    ensures key in After(ops).assertions && now < After(ops).assertions[key] <==>
              exists j :: Remembers(ops, key, now, j)
  {
    if ops != [] {
      var n := |ops| - 1;
      var init, op := ops[..n], ops[n];
      ReplayMemory(init, key, now);
      ReplayMemory(init, key, op.now);
      forall j | Remembers(init, key, now, j) ensures Remembers(init, key, op.now, j) {}
      assert ops[..n] == init;
      forall j
        ensures Remembers(ops, key, now, j) <==>
                  || Remembers(init, key, now, j)
                  || (j == n && op == Mark(key, op.now) && Succeeded(ops, n) && now < op.now + 24 * 60 * MINUTE)
      {
        RemembersSnoc(ops, key, now, j);
      }
      RemembersSnoc(ops, key, now, n);
    }
  }

  /** A mark succeeds exactly when no successful mark of the same key is younger
      than the replay time. */
  lemma {:induction false} MarkExact(ops: seq<Op>, i: nat)
    requires Monotone(ops) && i < |ops| && ops[i].Mark?
    ensures Succeeded(ops, i) <==>
              forall j :: 0 <= j < i && ops[j].Mark? && ops[j].key == ops[i].key && Succeeded(ops, j) ==>
                            ops[i].now >= ops[j].now + 24 * 60 * MINUTE
  {
    ReplayMemory(ops[..i], ops[i].key, ops[i].now);
    forall j | 0 <= j < i
      ensures Remembers(ops[..i], ops[i].key, ops[i].now, j) <==>
                ops[j].Mark? && ops[j].key == ops[i].key && Succeeded(ops, j) &&
                    ops[i].now < ops[j].now + 24 * 60 * MINUTE
    {
      PrefixSucceeded(ops, i, j);
    }
  }

  // -------------------------------------------------------------- relay states

  /** Set `j` stored the payload under the relay state less than ten minutes
      before `now`, and no Consume has asked for it since. */
  ghost predicate Open(ops: seq<Op>, relay: string, now: int, payload: Payload, j: int) {
    && 0 <= j < |ops| && ops[j].Set? && ops[j].relay == relay && ops[j].payload == payload && Succeeded(ops, j)
    && now < ops[j].now + 10 * MINUTE
    && forall q :: j < q < |ops| && ops[q].Consume? ==> ops[q].relay != relay
  }

  ghost predicate Holds(st: Store, relay: string, now: int, payload: Payload) {
    relay in st.flows && now < st.flows[relay].expires && st.flows[relay].payload == payload
  }

  lemma {:induction false} OpenSnoc(ops: seq<Op>, relay: string, now: int, payload: Payload, j: int)
    requires ops != []
    ensures var n := |ops| - 1;
            Open(ops, relay, now, payload, j) <==>
              || (Open(ops[..n], relay, now, payload, j) && !(ops[n].Consume? && ops[n].relay == relay))
              || (j == n && ops[n] == Set(relay, payload, ops[n].now) && Succeeded(ops, n)
                  && now < ops[n].now + 10 * MINUTE)
  {
    var n := |ops| - 1;
    if 0 <= j < n {
      PrefixSucceeded(ops, n, j);
    }
  }

  lemma {:induction false} RelayMemory(ops: seq<Op>, relay: string, now: int, payload: Payload)
    requires Monotone(ops) && NotBefore(ops, now)
    ensures Holds(After(ops), relay, now, payload) <==> exists j :: Open(ops, relay, now, payload, j)
  {
    if ops != [] {
      var n := |ops| - 1;
      var init, op := ops[..n], ops[n];
      RelayMemory(init, relay, now, payload);
      forall j
        ensures Open(ops, relay, now, payload, j) <==>
                  || (Open(init, relay, now, payload, j) && !(op.Consume? && op.relay == relay))
                  || (j == n && op == Set(relay, payload, op.now) && Succeeded(ops, n) && now < op.now + 10 * MINUTE)
      {
        OpenSnoc(ops, relay, now, payload, j);
      }
      OpenSnoc(ops, relay, now, payload, n);
    }
  }

  /** Set succeeds exactly when nothing is open under the relay state. */
  lemma {:induction false} SetExact(ops: seq<Op>, i: nat)
    requires Monotone(ops) && i < |ops| && ops[i].Set?
    ensures Succeeded(ops, i) <==> !exists p, j :: Open(ops[..i], ops[i].relay, ops[i].now, p, j)
  {
    var st, relay, now := After(ops[..i]), ops[i].relay, ops[i].now;
    forall p ensures Holds(st, relay, now, p) <==> exists j :: Open(ops[..i], relay, now, p, j) {
      RelayMemory(ops[..i], relay, now, p);
    }
    if relay in st.flows && now < st.flows[relay].expires {
      var p := st.flows[relay].payload;
      assert Holds(st, relay, now, p);
      var j :| Open(ops[..i], relay, now, p, j);
    } else {
      forall p, j ensures !Open(ops[..i], relay, now, p, j) {
        assert !Holds(st, relay, now, p);
      }
    }
  }

  /** Consume returns a payload exactly when a successful Set stored it under the
      relay state less than ten minutes ago and nothing has consumed it. */
  lemma {:induction false} ConsumeExact(ops: seq<Op>, i: nat, p: Payload)
    requires Monotone(ops) && i < |ops| && ops[i].Consume?
    ensures Consumed(ops, i) == Some(p) <==> exists j :: Open(ops[..i], ops[i].relay, ops[i].now, p, j)
  {
    RelayMemory(ops[..i], ops[i].relay, ops[i].now, p);
  }

  /** Single use: between two successful Consumes of a relay state there is a
      successful Set of it. */
  lemma {:induction false} ConsumedOnce(ops: seq<Op>, i: nat, k: nat) returns (j: int)
    requires Monotone(ops) && i < k < |ops| && ops[i].Consume? && ops[k].Consume? && ops[i].relay == ops[k].relay
    requires Consumed(ops, i).Some? && Consumed(ops, k).Some?
    ensures i < j < k && ops[j].Set? && ops[j].relay == ops[k].relay && Succeeded(ops, j) &&
              ops[k].now < ops[j].now + 10 * MINUTE
  {
    var p := Consumed(ops, k).value;
    ConsumeExact(ops, k, p);
    j :| Open(ops[..k], ops[k].relay, ops[k].now, p, j);
    PrefixSucceeded(ops, k, j);
    assert ops[..k][i] == ops[i];
  }

  // ----------------------------------------------------------- whole sign-ins

  /** The parts of an assertion that the lifetime check reads; `None` stands for
      a missing element or a zero time. */
  datatype Assertion = Assertion(
    issuer: string, id: string,
    hasSubject: bool,
    issueInstant: Option<int>,
    notOnOrAfter: Option<int>,
    confirmations: seq<Option<int>>)

  predicate LifetimeOk(a: Option<Assertion>, now: int) {
    match a
    case None => false
    case Some(a) =>
      && a.hasSubject && a.issueInstant.Some? && a.issueInstant.value <= now + MAX_SKEW
      && a.notOnOrAfter.Some? && a.notOnOrAfter.value - a.issueInstant.value <= MAX_LIFETIME
      && forall i :: 0 <= i < |a.confirmations| ==>
                       a.confirmations[i].Some? && a.confirmations[i].value - a.issueInstant.value <= MAX_LIFETIME
  }

  /** validateSAMLAssertionLifetime */
  method ValidateLifetime(a: Option<Assertion>, now: int) returns (ok: bool)
    ensures ok <==> LifetimeOk(a, now)
  {
    if a.None? || !a.value.hasSubject || a.value.issueInstant.None? ||
       a.value.issueInstant.value > now + MAX_SKEW || a.value.notOnOrAfter.None? {
      return false;
    }
    var issued := a.value.issueInstant.value;
    if a.value.notOnOrAfter.value - issued > MAX_LIFETIME {
      return false;
    }
    var i := 0;
    while i < |a.value.confirmations|
      invariant 0 <= i <= |a.value.confirmations|
      invariant forall k :: 0 <= k < i ==>
                  a.value.confirmations[k].Some? && a.value.confirmations[k].value - issued <= MAX_LIFETIME
    {
      var c := a.value.confirmations[i];
      if c.None? || c.value - issued > MAX_LIFETIME {
        return false;
      }
      i := i + 1;
    }
    return true;
  }

  /** What has passed the check is no more than 18 minutes from its end, every
      confirmation included. */
  lemma {:induction false} EndsSoon(a: Assertion, now: int)
    requires LifetimeOk(Some(a), now)
    ensures a.notOnOrAfter.Some? && a.notOnOrAfter.value <= now + 18 * MINUTE
    ensures forall c :: c in a.confirmations ==> c.Some? && c.value <= now + 18 * MINUTE
  {
    forall c | c in a.confirmations
      ensures c.Some? && c.value <= now + 18 * MINUTE
    {
      var i :| 0 <= i < |a.confirmations| && a.confirmations[i] == c;
    }
  }

  /** An assertion passes if and only if it has a subject, is issued at most 3
      minutes after the check, and every end, its own and each confirmation's, is
      there and at most 15 minutes after its issue. */
  lemma {:induction false} LifetimeExact(a: Option<Assertion>, now: int)
    ensures LifetimeOk(a, now) <==>
              && a.Some? && a.value.hasSubject && a.value.issueInstant.Some?
              && a.value.issueInstant.value <= now + 3 * MINUTE
              && forall e :: e in [a.value.notOnOrAfter] + a.value.confirmations ==>
                   e.Some? && e.value <= a.value.issueInstant.value + 15 * MINUTE
  {
    if a.Some? {
      var ends := [a.value.notOnOrAfter] + a.value.confirmations;
      assert ends[0] == a.value.notOnOrAfter;
      assert forall i :: 0 <= i < |a.value.confirmations| ==> ends[i+1] == a.value.confirmations[i];
      assert forall i :: 0 <= i < |ends| ==> ends[i] in ends;
    }
  }

  /** One pass of a response through the assertion consumer: the library's check,
      the lifetime check and the replay mark, at their three moments. */
  datatype SignIn = SignIn(assertion: Assertion, parsedAt: int, checkedAt: int, markedAt: int)

  /** Sign-in `s` is accepted at operation `i`.  The library rejects an assertion
      later than `skew` after its NotOnOrAfter; from the library's check to the
      mark at most `delay` passes. */
  ghost predicate Accepted(ops: seq<Op>, i: int, s: SignIn, skew: int, delay: int) {
    && 0 <= i < |ops|
    && ops[i] == Mark(AssertionKey(s.assertion.issuer, s.assertion.id), s.markedAt)
    && s.parsedAt <= s.checkedAt <= s.markedAt <= s.parsedAt + delay
    && LifetimeOk(Some(s.assertion), s.checkedAt)
    && s.parsedAt <= s.assertion.notOnOrAfter.value + skew
    && Succeeded(ops, i)
  }

  /** No run accepts the same assertion twice, as long as skew and delay together
      stay below 24 hours less 18 minutes. */
  lemma {:induction false} AcceptedOnce(ops: seq<Op>, i: int, s: SignIn, k: int, t: SignIn, skew: int, delay: int)
    requires Monotone(ops)
    requires skew + delay < (24 * 60 - 18) * MINUTE
    requires Accepted(ops, i, s, skew, delay) && Accepted(ops, k, t, skew, delay)
    requires s.assertion == t.assertion
    ensures i == k
  {
    if i < k {
      MarkExact(ops, k);
      assert false;
    }
    if k < i {
      MarkExact(ops, i);
      assert false;
    }
  }

  /** The bound is exact: with skew and delay at or above it, some run accepts an
      assertion twice. */
  lemma {:induction false} BoundIsExact(skew: int, delay: int)
    requires skew >= 0 && delay >= 0 && skew + delay >= (24 * 60 - 18) * MINUTE
    ensures exists ops: seq<Op>, s: SignIn, t: SignIn ::
              Monotone(ops) && s.assertion == t.assertion
              && Accepted(ops, 0, s, skew, delay) && Accepted(ops, 1, t, skew, delay)
  {
    var a := Assertion("idp", "id", true, Some(MAX_SKEW), Some(MAX_SKEW + MAX_LIFETIME), []);
    var s := SignIn(a, 0, 0, 0);
    var late := MAX_SKEW + MAX_LIFETIME + skew;
    var t := SignIn(a, late, late, late + delay);
    var key := AssertionKey("idp", "id");
    var ops := [Mark(key, 0), Mark(key, late + delay)];
    assert ops[..0] == [];
    assert Succeeded(ops, 0);
    MarkExact(ops, 1);
    assert Accepted(ops, 0, s, skew, delay) && Accepted(ops, 1, t, skew, delay);
  }

  /** Distinct assertions never block each other: the key is injective on issuers
      without NUL. */
  lemma {:induction false} KeyInjective(i: string, x: string, j: string, y: string)
    requires '\0' !in i && '\0' !in j
    requires AssertionKey(i, x) == AssertionKey(j, y)
    ensures i == j && x == y
  {
    var s := AssertionKey(i, x);
    assert s == AssertionKey(j, y);
    assert s[|i|] == '\0' && s[|j|] == '\0';
    assert forall k :: 0 <= k < |i| ==> s[k] == i[k];
    assert forall k :: 0 <= k < |j| ==> s[k] == j[k];
    assert |i| == |j|;
    assert i == s[..|i|] && j == s[..|j|];
    assert x == s[|i|+1..] && y == s[|j|+1..];
  }
}
