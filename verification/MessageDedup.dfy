/**
 The bounded, time-limited cache of message ids of the agent SDK
 (integrations/alga-agent-sdk-go/dedup.go).  The clock is an input of every call.
 */
module MessageDedup {

  import opened Common

  type Cache = map<string, int>


  // ------------------------------------------------------------ specification

  /** The capacity trim leaves nine tenths of the capacity. */
  function Target(max: int): int { max * 9 / 10 }

  /** The entries that are not older than `ttl`. */
  function Fresh(m: Cache, now: int, ttl: int): Cache {
    map k | k in m && now - m[k] <= ttl :: m[k]
  }

  /** `kept` is `m` with oldest entries removed until `target` are left.  Which of
      several equally old entries goes depends on the map's iteration order. */
  ghost predicate KeepsNewest(m: Cache, target: int, kept: Cache) {
    && kept.Keys <= m.Keys
    && (forall k :: k in kept ==> kept[k] == m[k])
    && |kept| == Min(|m|, Max(target, 0))
    && (forall k, d :: k in kept && d in m && d !in kept ==> m[d] <= m[k])
  }

  ghost predicate Room(max: int, m: Cache, kept: Cache) {
    if |m| >= max then KeepsNewest(m, Target(max), kept) else kept == m
  }

  /** One call of IsDuplicate. */
  ghost predicate Step(max: int, ttl: int, m: Cache, id: string, now: int, m': Cache, dup: bool) {
    exists kept :: Room(max, Fresh(m, now, ttl), kept) && dup == (id in kept) && m' == kept[id := now]
  }

  // ----------------------------------------------------------- implementation

  class Dedup {
    var seen: Cache
    const maxEntries: int
    const ttl: int

    ghost predicate Valid()
      reads this
    {
      maxEntries >= 1 && ttl > 0 && |seen| <= maxEntries
    }

    constructor (maxEntries: int, ttl: int)
      ensures Valid() && seen == map[]
      ensures this.maxEntries == Max(maxEntries, 1)
      ensures this.ttl == if ttl <= 0 then 5 * MINUTE else ttl
    {
      this.maxEntries := if maxEntries < 1 then 1 else maxEntries;
      this.ttl := if ttl <= 0 then 5 * MINUTE else ttl;
      seen := map[];
    }

    method IsDuplicate(id: string, now: int) returns (dup: bool)
      requires Valid()
      modifies this`seen
      ensures Valid()
      ensures Step(maxEntries, ttl, old(seen), id, now, seen, dup)
    {
      Evict(now);
      ghost var m := seen;
      if |seen| >= maxEntries {
        TrimTo(maxEntries * 9 / 10);
      }
      ghost var kept := seen;
      assert Room(maxEntries, m, kept);
      StepSize(maxEntries, m, kept, id, now);
      dup := id in seen;
      seen := seen[id := now];
    }

    method Clear()
      requires Valid()
      modifies this`seen
      ensures Valid() && seen == map[]
    {
      seen := map[];
    }

    method Size() returns (n: nat)
      ensures n == |seen|
    {
      n := |seen|;
    }

    method Evict(now: int)
      modifies this`seen
      ensures seen == Fresh(old(seen), now, ttl)
    {
      var left := seen.Keys;
      while left != {}
        invariant left <= seen.Keys <= old(seen).Keys
        invariant forall k :: k in seen ==> seen[k] == old(seen)[k] && (k in left || now - seen[k] <= ttl)
        invariant forall k :: k in old(seen) && k !in seen ==> now - old(seen)[k] > ttl
        decreases left
      {
        var k :| k in left;
        if now - seen[k] > ttl {
          seen := seen - {k};
        }
        left := left - {k};
      }
    }

    method TrimTo(target: int)
      modifies this`seen
      ensures KeepsNewest(old(seen), target, seen)
    {
      var goal := if target < 0 then 0 else target;
      while |seen| > goal
        invariant KeepsNewest(old(seen), |seen|, seen)
        invariant |seen| >= Min(|old(seen)|, goal)
        decreases |seen|
      {
        var oldest := Oldest();
        ghost var before := seen;
        seen := seen - {oldest};
        DropOldest(old(seen), before, oldest);
      }
    }

    /** The scan for the entry with the least timestamp. */
    method Oldest() returns (oldest: string)
      requires seen != map[]
      ensures oldest in seen && forall k :: k in seen ==> seen[oldest] <= seen[k]
    {
      var left := seen.Keys;
      oldest :| oldest in left;
      left := left - {oldest};
      while left != {}
        invariant left <= seen.Keys && oldest in seen
        invariant forall k :: k in seen && k !in left ==> seen[oldest] <= seen[k]
        decreases left
      {
        var k :| k in left;
        if seen[k] < seen[oldest] {
          oldest := k;
        }
        left := left - {k};
      }
    }
  }

  lemma {:induction false} DropOldest(m: Cache, kept: Cache, oldest: string)
    requires KeepsNewest(m, |kept|, kept)
    requires oldest in kept && forall k :: k in kept ==> kept[oldest] <= kept[k]
    ensures KeepsNewest(m, |kept| - 1, kept - {oldest})
    ensures |kept - {oldest}| == |kept| - 1
  {
    var less := kept - {oldest};
    assert less.Keys == kept.Keys - {oldest};
  }

  lemma {:induction false} StepSize(max: int, m: Cache, kept: Cache, id: string, now: int)
    requires max >= 1
    requires Room(max, m, kept)
    ensures |kept[id := now]| <= max
  {
    assert kept[id := now].Keys == kept.Keys + {id};
  }

  // --------------------------------------------------------------------- runs

  datatype Op = Observe(id: string, now: int) | Clear

  ghost predicate OpStep(max: int, ttl: int, m: Cache, op: Op, m': Cache, answer: bool) {
    match op
    case Observe(id, now) => Step(max, ttl, m, id, now, m', answer)
    case Clear => m' == map[]
  }

  /** Everything that can happen to one cache, with the answers it gave. */
  datatype Run = Run(ops: seq<Op>, states: seq<Cache>, answers: seq<bool>) {
    ghost predicate Valid(max: int, ttl: int) {
      && max >= 1 && ttl > 0
      && |states| == |ops| + 1 && |answers| == |ops|
      && states[0] == map[]
      && forall i :: 0 <= i < |ops| ==> OpStep(max, ttl, states[i], ops[i], states[i+1], answers[i])
    }

    /** The clock never goes back. */
    ghost predicate Monotone() {
      forall i, j :: 0 <= i < j < |ops| && ops[i].Observe? && ops[j].Observe? ==> ops[i].now <= ops[j].now
    }

    /** The clock moves between any two observations. */
    ghost predicate Strict() {
      forall i, j :: 0 <= i < j < |ops| && ops[i].Observe? && ops[j].Observe? ==> ops[i].now < ops[j].now
    }

    /** At point `i`, the last observation of `id` was operation `j`, and the
        cache has not been cleared since. */
    ghost predicate LastSeen(i: int, id: string, j: int) {
      && 0 <= j < i <= |ops|
      && ops[j].Observe? && ops[j].id == id
      && forall q :: j < q < i ==> ops[q].Observe? && ops[q].id != id
    }

    /** The ids other than `id` observed at `t` or later, before point `i`. */
    ghost function Rivals(i: nat, id: string, t: int): set<string>
      requires i <= |ops|
    {
      set q | 0 <= q < i && ops[q].Observe? && ops[q].id != id && ops[q].now >= t :: ops[q].id
    }

    /** The ids observed between operations `j` and `i`. */
    ghost function Since(j: int, i: nat): set<string>
      requires 0 <= j < i <= |ops|
    {
      set q | j < q < i && ops[q].Observe? :: ops[q].id
    }
  }

  lemma {:induction false} SizeBounded(max: int, ttl: int, r: Run, i: nat)
    requires r.Valid(max, ttl) && i <= |r.ops|
    ensures |r.states[i]| <= max
  {
    if i > 0 {
      assert OpStep(max, ttl, r.states[i-1], r.ops[i-1], r.states[i], r.answers[i-1]);
      if r.ops[i-1].Observe? {
        var id, now := r.ops[i-1].id, r.ops[i-1].now;
        var m := Fresh(r.states[i-1], now, ttl);
        var kept :| Room(max, m, kept) && r.answers[i-1] == (id in kept) && r.states[i] == kept[id := now];
        StepSize(max, m, kept, id, now);
      }
    }
  }

  /** Every entry carries the time of its id's last observation. */
  lemma {:induction false} EntriesAreLastSeen(max: int, ttl: int, r: Run, i: nat, k: string) returns (j: int)
    requires r.Valid(max, ttl) && i <= |r.ops| && k in r.states[i]
    ensures r.LastSeen(i, k, j) && r.ops[j].now == r.states[i][k]
  {
    assert OpStep(max, ttl, r.states[i-1], r.ops[i-1], r.states[i], r.answers[i-1]);
    if r.ops[i-1].id == k {
      j := i - 1;
    } else {
      j := EntriesAreLastSeen(max, ttl, r, i - 1, k);
    }
  }

  lemma {:induction false} SubsetSize<T>(a: set<T>, b: set<T>)
    requires a <= b
    ensures |a| <= |b|
  {
    if a != {} {
      var x :| x in a;
      SubsetSize(a - {x}, b - {x});
    }
  }

  /** A fresh entry with few enough rivals survives the capacity trim. */
  lemma {:induction false} SurvivesTrim(max: int, ttl: int, r: Run, i: nat, id: string, now: int, kept: Cache)
    requires r.Valid(max, ttl) && i <= |r.ops|
    requires id in r.states[i] && now - r.states[i][id] <= ttl
    requires |r.Rivals(i, id, r.states[i][id])| < Target(max)
    requires Room(max, Fresh(r.states[i], now, ttl), kept)
    ensures id in kept
  {
    var t := r.states[i][id];
    if id !in kept {
      forall k | k in kept
        ensures k in r.Rivals(i, id, t)
      {
        var j := EntriesAreLastSeen(max, ttl, r, i, k);
        assert r.ops[j].now >= t;
      }
      SubsetSize(kept.Keys, r.Rivals(i, id, t));
      assert false;
    }
  }

  lemma {:induction false} SurvivesStep(max: int, ttl: int, r: Run, i: nat, id: string)
    requires r.Valid(max, ttl) && i < |r.ops|
    requires r.ops[i].Observe? && r.ops[i].id != id
    requires id in r.states[i] && r.ops[i].now - r.states[i][id] <= ttl
    requires |r.Rivals(i, id, r.states[i][id])| < Target(max)
    ensures id in r.states[i+1] && r.states[i+1][id] == r.states[i][id]
  {
    var m, y, at := r.states[i], r.ops[i].id, r.ops[i].now;
    assert OpStep(max, ttl, m, r.ops[i], r.states[i+1], r.answers[i]);
    var kept :| Room(max, Fresh(m, at, ttl), kept) && r.answers[i] == (y in kept) && r.states[i+1] == kept[y := at];
    SurvivesTrim(max, ttl, r, i, id, at, kept);
  }

  /** An id observed at most `ttl` ago is still in the cache, with its time, as
      long as fewer than nine tenths of the capacity of other ids are as new. */
  lemma {:induction false} StillCached(max: int, ttl: int, r: Run, i: nat, id: string, j: int, now: int)
    requires r.Valid(max, ttl)
    requires i <= |r.ops| && r.LastSeen(i, id, j)
    requires forall q :: j < q < i ==> r.ops[q].now <= now
    requires now - r.ops[j].now <= ttl
    requires |r.Rivals(i, id, r.ops[j].now)| < Target(max)
    ensures id in r.states[i] && r.states[i][id] == r.ops[j].now
    decreases i
  {
    if j == i - 1 {
      assert OpStep(max, ttl, r.states[j], r.ops[j], r.states[i], r.answers[j]);
    } else {
      var t := r.ops[j].now;
      SubsetSize(r.Rivals(i-1, id, t), r.Rivals(i, id, t));
      assert r.LastSeen(i-1, id, j);
      StillCached(max, ttl, r, i - 1, id, j, now);
      SurvivesStep(max, ttl, r, i - 1, id);
    }
  }

  /** A replay within the time limit is reported, whatever else was observed, as
      long as fewer than nine tenths of the capacity of other ids are as new. */
  lemma {:induction false} ReplayIsDuplicate(max: int, ttl: int, r: Run, i: nat, j: int)
    requires r.Valid(max, ttl) && r.Monotone()
    requires i < |r.ops| && r.ops[i].Observe? && r.LastSeen(i, r.ops[i].id, j)
    requires r.ops[i].now - r.ops[j].now <= ttl
    requires 10 * (|r.Rivals(i, r.ops[i].id, r.ops[j].now)| + 1) <= 9 * max
    ensures r.answers[i]
  {
    var id, now := r.ops[i].id, r.ops[i].now;
    StillCached(max, ttl, r, i, id, j, now);
    assert OpStep(max, ttl, r.states[i], r.ops[i], r.states[i+1], r.answers[i]);
    var kept :| Room(max, Fresh(r.states[i], now, ttl), kept) && r.answers[i] == (id in kept) &&
        r.states[i+1] == kept[id := now];
    SurvivesTrim(max, ttl, r, i, id, now, kept);
  }

  /** With a moving clock: a replay within the time limit is reported if fewer
      than nine tenths of the capacity of other ids were observed since. */
  lemma {:induction false} ReplayAfterFewOthers(max: int, ttl: int, r: Run, i: nat, j: int)
    requires r.Valid(max, ttl) && r.Strict()
    requires i < |r.ops| && r.ops[i].Observe? && r.LastSeen(i, r.ops[i].id, j)
    requires r.ops[i].now - r.ops[j].now <= ttl
    requires 10 * (|r.Since(j, i)| + 1) <= 9 * max
    ensures r.answers[i]
  {
    var rivals := r.Rivals(i, r.ops[i].id, r.ops[j].now);
    assert rivals <= r.Since(j, i);
    SubsetSize(rivals, r.Since(j, i));
    ReplayIsDuplicate(max, ttl, r, i, j);
  }

  /** A trim of a full cache leaves nine tenths of the capacity, rounded down. */
  lemma {:induction false} TrimLeaves(max: int, m: Cache, kept: Cache)
    requires max >= 1 && |m| >= max && Room(max, m, kept)
    ensures 10 * |kept| <= 9 * max < 10 * (|kept| + 1)
  {
  }

  /** An entry newer than one that survives a step survives it too. */
  lemma {:induction false} NewerStays(max: int, ttl: int, m: Cache, id: string, now: int, kept: Cache, k: string)
    requires Room(max, Fresh(m, now, ttl), kept) && id in kept
    requires k in m && m[k] > m[id]
    ensures k in kept
  {
  }

  /** What was seen after a cached id is newer than it. */
  lemma {:induction false} SeenLater(max: int, ttl: int, r: Run, i: nat, id: string, j: int, q: nat)
    requires r.Valid(max, ttl) && r.Strict() && i <= |r.ops| && r.LastSeen(i, id, j) && id in r.states[i]
    requires j < q < i && r.ops[q].Observe? && r.ops[q].id in r.states[i]
    ensures r.states[i][r.ops[q].id] > r.states[i][id]
  {
    var o := EntriesAreLastSeen(max, ttl, r, i, id);
    var l := EntriesAreLastSeen(max, ttl, r, i, r.ops[q].id);
    assert o == j && l >= q;
  }

  lemma {:induction false} LaterStays(max: int, ttl: int, r: Run, i: nat, id: string, j: int, q: nat)
    requires r.Valid(max, ttl) && r.Strict() && i < |r.ops| && r.ops[i].Observe? && r.ops[i].id != id
    requires r.LastSeen(i, id, j) && id in r.states[i] && id in r.states[i+1]
    requires j < q < i && r.ops[q].Observe? && r.ops[q].id in r.states[i]
    ensures r.ops[q].id in r.states[i+1]
  {
    var y, at, m := r.ops[i].id, r.ops[i].now, r.states[i];
    assert OpStep(max, ttl, m, r.ops[i], r.states[i+1], r.answers[i]);
    var kept :| Room(max, Fresh(m, at, ttl), kept) && r.answers[i] == (y in kept) && r.states[i+1] == kept[y := at];
    SeenLater(max, ttl, r, i, id, j, q);
    NewerStays(max, ttl, m, id, at, kept, r.ops[q].id);
  }

  /** The step after which `id` is still cached without being observed. */
  lemma {:induction false} CachedBefore(max: int, ttl: int, r: Run, i: nat, id: string, j: int)
    requires r.Valid(max, ttl) && i < |r.ops| && r.LastSeen(i + 1, id, j) && j < i && id in r.states[i+1]
    ensures r.LastSeen(i, id, j) && id in r.states[i] && r.ops[i].Observe? && r.ops[i].id != id
    ensures r.ops[i].id in r.states[i+1]
  {
    assert OpStep(max, ttl, r.states[i], r.ops[i], r.states[i+1], r.answers[i]);
  }

  /** While an id stays in the cache, so does everything seen after it. */
  lemma {:induction false} LaterIsCached(max: int, ttl: int, r: Run, i: nat, id: string, j: int, q: nat)
    requires r.Valid(max, ttl) && r.Strict() && i <= |r.ops| && r.LastSeen(i, id, j) && id in r.states[i]
    requires j < q < i && r.ops[q].Observe?
    ensures r.ops[q].id in r.states[i]
    decreases i
  {
    CachedBefore(max, ttl, r, i - 1, id, j);
    if q < i - 1 {
      LaterIsCached(max, ttl, r, i - 1, id, j, q);
      LaterStays(max, ttl, r, i - 1, id, j, q);
    }
  }

  /** With a moving clock: when the cache is full at a replay and nine tenths of
      the capacity of other ids were observed since, it is taken for new. */
  lemma {:induction false} ReplayAfterManyOthers(max: int, ttl: int, r: Run, i: nat, j: int)
    requires r.Valid(max, ttl) && r.Strict()
    requires i < |r.ops| && r.ops[i].Observe? && r.LastSeen(i, r.ops[i].id, j)
    requires |Fresh(r.states[i], r.ops[i].now, ttl)| >= max
    requires 9 * max < 10 * (|r.Since(j, i)| + 1)
    ensures !r.answers[i]
  {
    var id, now := r.ops[i].id, r.ops[i].now;
    var f := Fresh(r.states[i], now, ttl);
    assert OpStep(max, ttl, r.states[i], r.ops[i], r.states[i+1], r.answers[i]);
    var kept :| Room(max, f, kept) && r.answers[i] == (id in kept) && r.states[i+1] == kept[id := now];
    if id in kept {
      forall k | k in r.Since(j, i)
        ensures k in kept && k != id
      {
        var q :| j < q < i && r.ops[q].Observe? && r.ops[q].id == k;
        LaterIsCached(max, ttl, r, i, id, j, q);
        SeenLater(max, ttl, r, i, id, j, q);
        NewerStays(max, ttl, r.states[i], id, now, kept, k);
      }
      SubsetSize(r.Since(j, i) + {id}, kept.Keys);
      TrimLeaves(max, f, kept);
      assert false;
    }
  }

  /** Only an id observed within the time limit, and not cleared since, is ever
      reported. */
  lemma {:induction false} DuplicateWasSeen(max: int, ttl: int, r: Run, i: nat) returns (j: int)
    requires r.Valid(max, ttl)
    requires i < |r.ops| && r.ops[i].Observe? && r.answers[i]
    ensures r.LastSeen(i, r.ops[i].id, j)
    ensures r.ops[i].now - r.ops[j].now <= ttl
  {
    assert OpStep(max, ttl, r.states[i], r.ops[i], r.states[i+1], r.answers[i]);
    j := EntriesAreLastSeen(max, ttl, r, i, r.ops[i].id);
  }

  /** The documented promise that an immediate replay is never taken for new
      holds exactly when the capacity is at least two, provided no other id was
      observed at the same moment: with capacity one the trim that precedes the
      lookup empties the cache. */
  lemma {:induction false} ImmediateReplay(max: int, ttl: int, r: Run, i: nat)
    requires r.Valid(max, ttl) && r.Monotone()
    requires i + 1 < |r.ops| && r.ops[i].Observe? && r.ops[i+1].Observe? && r.ops[i].id == r.ops[i+1].id
    requires r.ops[i+1].now - r.ops[i].now <= ttl
    requires forall q :: 0 <= q < i && r.ops[q].Observe? && r.ops[q].id != r.ops[i].id ==> r.ops[q].now < r.ops[i].now
    ensures r.answers[i+1] <==> max >= 2
  {
    var id, now := r.ops[i].id, r.ops[i+1].now;
    if max >= 2 {
      assert r.Rivals(i+1, id, r.ops[i].now) == {};
      ReplayIsDuplicate(max, ttl, r, i + 1, i);
    } else {
      SizeBounded(max, ttl, r, i + 1);
      assert OpStep(max, ttl, r.states[i], r.ops[i], r.states[i+1], r.answers[i]);
      assert OpStep(max, ttl, r.states[i+1], r.ops[i+1], r.states[i+2], r.answers[i+1]);
      var m := r.states[i+1];
      assert id in m && m[id] == r.ops[i].now;
      SubsetSize({id}, m.Keys);
      var f := Fresh(m, now, ttl);
      assert id in f;
      SubsetSize({id}, f.Keys);
    }
  }

  // ------------------------------------------------- which entries a trim may take

  /** The other entries that are at least as new, and those that are newer. */
  function AsNew(m: Cache, id: string): set<string>
    requires id in m
  {
    set k | k in m && k != id && m[k] >= m[id]
  }

  function Newer(m: Cache, id: string): set<string>
    requires id in m
  {
    set k | k in m && m[k] > m[id]
  }

  lemma {:induction false} OldestExists(m: Cache) returns (k: string)
    requires m != map[]
    ensures k in m && forall j :: j in m ==> m[k] <= m[j]
    decreases |m|
  {
    k :| k in m;
    var first, rest := k, m - {k};
    assert rest.Keys == m.Keys - {first};
    if rest.Keys == {} {
      assert m.Keys == {first};
    } else {
      var j := OldestExists(rest);
      if m[j] < m[k] { k := j; }
      forall x | x in m ensures m[k] <= m[x] {
        assert x == first || x in rest;
      }
    }
  }

  /** Removing oldest entries, `id` before any other equally old one. */
  lemma {:induction false} TrimLosing(m: Cache, cur: Cache, id: string, n: nat) returns (kept: Cache)
    requires id in m && KeepsNewest(m, |cur|, cur) && n <= |cur| && n <= |AsNew(m, id)|
    requires id in cur ==> AsNew(m, id) <= cur.Keys
    ensures KeepsNewest(m, n, kept) && id !in kept
    decreases |cur|
  {
    if |cur| == n {
      if id in cur {
        SubsetSize(AsNew(m, id) + {id}, cur.Keys);
        assert false;
      }
      kept := cur;
    } else {
      var k := OldestExists(cur);
      if id in cur && cur[id] == cur[k] { k := id; }
      DropOldest(m, cur, k);
      kept := TrimLosing(m, cur - {k}, id, n);
    }
  }

  /** Removing oldest entries, `id` after all others equally old. */
  lemma {:induction false} TrimKeeping(m: Cache, cur: Cache, id: string, n: nat) returns (kept: Cache)
    requires id in cur && KeepsNewest(m, |cur|, cur) && |Newer(m, id)| < n <= |cur|
    ensures KeepsNewest(m, n, kept) && id in kept
    decreases |cur|
  {
    if |cur| == n {
      kept := cur;
    } else {
      var k := OldestExists(cur);
      if k == id {
        var others := cur.Keys - {id};
        if forall j :: j in others ==> j in Newer(m, id) {
          SubsetSize(others, Newer(m, id));
          assert false;
        }
        k :| k in others && k !in Newer(m, id);
      }
      DropOldest(m, cur, k);
      kept := TrimKeeping(m, cur - {k}, id, n);
    }
  }

  /** A trim may take an entry if and only if there are enough others as new. */
  lemma {:induction false} MayLose(max: int, m: Cache, id: string)
    requires max >= 1 && id in m
    ensures (exists kept :: Room(max, m, kept) && id !in kept) <==> |m| >= max && |AsNew(m, id)| >= Target(max)
  {
    if kept :| Room(max, m, kept) && id !in kept {
      if |AsNew(m, id)| < Target(max) {
        SubsetSize(kept.Keys, AsNew(m, id));
        assert false;
      }
    }
    if |m| >= max && |AsNew(m, id)| >= Target(max) {
      var kept := TrimLosing(m, m, id, Target(max));
      assert Room(max, m, kept);
    }
  }

  /** A trim may leave an entry if and only if there are few enough newer ones. */
  lemma {:induction false} MayKeep(max: int, m: Cache, id: string)
    requires max >= 1 && id in m
    ensures (exists kept :: Room(max, m, kept) && id in kept) <==> |m| < max || |Newer(m, id)| < Target(max)
  {
    if kept :| Room(max, m, kept) && id in kept {
      if |m| >= max {
        assert Newer(m, id) + {id} <= kept.Keys;
        SubsetSize(Newer(m, id) + {id}, kept.Keys);
      }
    }
    if |m| < max {
      assert Room(max, m, m);
    } else if |Newer(m, id)| < Target(max) {
      var kept := TrimKeeping(m, m, id, Target(max));
      assert Room(max, m, kept);
    }
  }

  lemma {:induction false} StepMay(max: int, ttl: int, m: Cache, id: string, now: int, dup: bool)
    ensures (exists m' :: Step(max, ttl, m, id, now, m', dup)) <==>
              exists kept :: Room(max, Fresh(m, now, ttl), kept) && dup == (id in kept)
  {
    if kept :| Room(max, Fresh(m, now, ttl), kept) && dup == (id in kept) {
      assert Step(max, ttl, m, id, now, kept[id := now], dup);
    }
  }

  /** Whether a cached id that has not expired can be taken for new, and whether
      it can be reported: both are possible exactly on ties. */
  lemma {:induction false} ReplayExact(max: int, ttl: int, m: Cache, id: string, now: int)
    requires max >= 1 && id in m && now - m[id] <= ttl
    ensures var f := Fresh(m, now, ttl);
            && ((exists m' :: Step(max, ttl, m, id, now, m', false)) <==>
                  |f| >= max && 9 * max < 10 * (|AsNew(f, id)| + 1))
            && ((exists m' :: Step(max, ttl, m, id, now, m', true)) <==>
                  |f| < max || 10 * (|Newer(f, id)| + 1) <= 9 * max)
  {
    MayLose(max, Fresh(m, now, ttl), id);
    MayKeep(max, Fresh(m, now, ttl), id);
    StepMay(max, ttl, m, id, now, false);
    StepMay(max, ttl, m, id, now, true);
  }

  // ------------------------------------------------------- a standing clock

  function Name(n: nat): string { seq(n, _ => 'a') }

  /** The first `n` names, all observed at time 0. */
  function Burst(n: nat): Cache {
    if n == 0 then map[] else Burst(n - 1)[Name(n - 1) := 0]
  }

  lemma {:induction false} BurstKey(n: nat, k: string)
    ensures k in Burst(n) <==> |k| < n && k == Name(|k|)
    ensures k in Burst(n) ==> Burst(n)[k] == 0
  {
    if n > 0 {
      BurstKey(n - 1, k);
    }
  }

  lemma {:induction false} BurstSize(n: nat)
    ensures |Burst(n)| == n
  {
    if n > 0 {
      BurstSize(n - 1);
      BurstKey(n - 1, Name(n - 1));
    }
  }

  lemma {:induction false} BurstKeys(n: nat)
    ensures |Burst(n)| == n
    ensures forall k :: k in Burst(n) <==> |k| < n && k == Name(|k|)
    ensures forall k :: k in Burst(n) ==> Burst(n)[k] == 0
  {
    BurstSize(n);
    forall k
      ensures k in Burst(n) <==> |k| < n && k == Name(|k|)
      ensures k in Burst(n) ==> Burst(n)[k] == 0
    {
      BurstKey(n, k);
    }
  }

  lemma {:induction false} BurstStep(max: int, ttl: int, n: nat)
    requires ttl > 0 && n < max
    ensures Step(max, ttl, Burst(n), Name(n), 0, Burst(n + 1), false)
  {
    BurstKeys(n);
    assert |Name(n)| == n;
    assert Fresh(Burst(n), 0, ttl) == Burst(n);
    assert Room(max, Fresh(Burst(n), 0, ttl), Burst(n));
  }

  lemma {:induction false} LostStep(max: int, ttl: int)
    requires max >= 1 && ttl > 0
    ensures Step(max, ttl, Burst(max), Name(max - 1), 0, Burst(Target(max))[Name(max - 1) := 0], false)
  {
    var target: nat := Target(max);
    BurstKeys(max);
    BurstKeys(target);
    assert |Name(max - 1)| == max - 1;
    assert Fresh(Burst(max), 0, ttl) == Burst(max);
    assert Room(max, Fresh(Burst(max), 0, ttl), Burst(target));
  }

  /** While the clock stands, a cache of any capacity may take an immediate replay
      for new: the trim may remove any of the equally old entries. */
  lemma {:induction false} StandingClock(max: int, ttl: int) returns (r: Run)
    requires max >= 1 && ttl > 0
    ensures r.Valid(max, ttl) && r.Monotone() && |r.ops| == max + 1
    ensures r.ops[max-1].Observe? && r.ops[max] == r.ops[max-1] && !r.answers[max]
  {
    var n: nat := max;
    var ops := seq(n + 1, i requires 0 <= i <= n => Observe(Name(if i == n then n - 1 else i), 0));
    var last := Burst(Target(max))[Name(n - 1) := 0];
    var states := seq(n + 2, i requires 0 <= i <= n + 1 => if i <= n then Burst(i) else last);
    r := Run(ops, states, seq(n + 1, _ => false));
    forall i | 0 <= i < |r.ops|
      ensures OpStep(max, ttl, r.states[i], r.ops[i], r.states[i+1], r.answers[i])
    {
      if i < n { BurstStep(max, ttl, i); } else { LostStep(max, ttl); }
    }
  }

  // ------------------------------------------- the list of recent observations

  datatype Entry = Entry(id: string, time: int)

  /** Newest first; each id once. */
  ghost predicate Ordered(l: seq<Entry>) {
    && (forall a, b :: 0 <= a < b < |l| ==> l[a].time > l[b].time)
    && (forall a, b :: 0 <= a < b < |l| ==> l[a].id != l[b].id)
  }

  ghost predicate Represents(l: seq<Entry>, m: Cache) {
    && Ordered(l)
    && (forall k :: k in m ==> Entry(k, m[k]) in l)
    && (forall e :: e in l ==> e.id in m && m[e.id] == e.time)
  }

  /** The entries of `l` younger than `ttl`: a prefix. */
  function Young(l: seq<Entry>, now: int, ttl: int): seq<Entry> {
    if l == [] || now - l[0].time > ttl then [] else [l[0]] + Young(l[1..], now, ttl)
  }

  function Without(l: seq<Entry>, id: string): seq<Entry> {
    if l == [] then [] else (if l[0].id == id then [] else [l[0]]) + Without(l[1..], id)
  }

  function Capped(max: int, l: seq<Entry>): seq<Entry>
    requires max >= 1
  {
    if |l| >= max then l[..Target(max)] else l
  }

  function ListStep(max: int, ttl: int, l: seq<Entry>, op: Op): (seq<Entry>, bool)
    requires max >= 1
  {
    match op
    case Clear => ([], false)
    case Observe(id, now) =>
      var kept := Capped(max, Young(l, now, ttl));
      ([Entry(id, now)] + Without(kept, id), exists e :: e in kept && e.id == id)
  }

  lemma {:induction false} YoungSpec(l: seq<Entry>, now: int, ttl: int)
    requires Ordered(l)
    ensures Young(l, now, ttl) <= l
    ensures forall e :: e in Young(l, now, ttl) <==> e in l && now - e.time <= ttl
  {
    if l != [] {
      YoungSpec(l[1..], now, ttl);
      assert l == [l[0]] + l[1..];
    }
  }

  lemma {:induction false} WithoutMembers(l: seq<Entry>, id: string)
    ensures forall e :: e in Without(l, id) <==> e in l && e.id != id
  {
    if l != [] {
      WithoutMembers(l[1..], id);
      assert l == [l[0]] + l[1..];
    }
  }

  lemma {:induction false} OrderedCons(e: Entry, l: seq<Entry>)
    requires Ordered(l)
    requires forall f :: f in l ==> f.time < e.time && f.id != e.id
    ensures Ordered([e] + l)
  {
    var l' := [e] + l;
    forall a, b | 0 <= a < b < |l'| ensures l'[a].time > l'[b].time && l'[a].id != l'[b].id {
      assert l'[b] == l[b-1] && l'[b] in l;
      assert a > 0 ==> l'[a] == l[a-1];
    }
  }

  lemma {:induction false} WithoutOrdered(l: seq<Entry>, id: string)
    requires Ordered(l)
    ensures Ordered(Without(l, id))
  {
    if l != [] {
      var w := Without(l[1..], id);
      WithoutOrdered(l[1..], id);
      WithoutMembers(l[1..], id);
      if l[0].id == id {
        assert Without(l, id) == w;
      } else {
        forall f | f in w ensures f.time < l[0].time && f.id != l[0].id {
          assert f in l[1..];
        }
        OrderedCons(l[0], w);
      }
    }
  }

  lemma {:induction false} PrefixOrdered(l: seq<Entry>, n: nat)
    requires Ordered(l) && n <= |l|
    ensures Ordered(l[..n])
  {
  }

  lemma {:induction false} TailRepresents(l: seq<Entry>, m: Cache)
    requires Represents(l, m) && l != []
    ensures l[0].id in m
    ensures Represents(l[1..], m - {l[0].id})
  {
    assert l[0] in l;
    var m' := m - {l[0].id};
    forall k | k in m' ensures Entry(k, m'[k]) in l[1..] {
      assert Entry(k, m[k]) in l;
    }
    forall f | f in l[1..] ensures f.id in m' && m'[f.id] == f.time {
      assert f in l;
    }
  }

  lemma {:induction false} RepresentsSize(l: seq<Entry>, m: Cache)
    requires Represents(l, m)
    ensures |l| == |m|
    decreases |l|
  {
    if l == [] {
      assert m.Keys == {};
    } else {
      TailRepresents(l, m);
      assert (m - {l[0].id}).Keys == m.Keys - {l[0].id};
      RepresentsSize(l[1..], m - {l[0].id});
    }
  }

  lemma {:induction false} Listed(l: seq<Entry>, m: Cache, id: string)
    requires Represents(l, m)
    ensures id in m <==> exists e :: e in l && e.id == id
  {
    if id in m {
      assert Entry(id, m[id]) in l;
    }
  }

  /** The part of a cache that a prefix of its list describes. */
  ghost function Part(l: seq<Entry>, m: Cache): Cache {
    map k | k in m && Entry(k, m[k]) in l :: m[k]
  }

  lemma {:induction false} PartRepresents(l: seq<Entry>, m: Cache, n: nat)
    requires Represents(l, m) && n <= |l|
    ensures Represents(l[..n], Part(l[..n], m))
    ensures |Part(l[..n], m)| == n
  {
    PrefixOrdered(l, n);
    forall e | e in l[..n] ensures e.id in m && m[e.id] == e.time {
      assert e in l;
    }
    RepresentsSize(l[..n], Part(l[..n], m));
  }

  lemma {:induction false} PartIsNewer(l: seq<Entry>, m: Cache, n: nat, d: string, k: string)
    requires Represents(l, m) && n <= |l|
    requires d in Part(l[..n], m) && k in m && k !in Part(l[..n], m)
    ensures m[d] > m[k]
  {
    assert Entry(k, m[k]) in l;
    var b :| 0 <= b < |l| && l[b] == Entry(k, m[k]);
    var a :| 0 <= a < n && l[..n][a] == Entry(d, m[d]);
    assert forall c :: 0 <= c < n ==> l[..n][c] == l[c];
    assert b >= n;
    assert l[a].time > l[b].time;
  }

  lemma {:induction false} KeptIsInPart(l: seq<Entry>, m: Cache, n: nat, kept: Cache, k: string)
    requires Represents(l, m) && n <= |l|
    requires KeepsNewest(m, n, kept) && |kept| == n
    requires k in kept
    ensures k in Part(l[..n], m)
  {
    var p := Part(l[..n], m);
    if k !in p {
      PartRepresents(l, m, n);
      SubsetSizeStrict(kept.Keys, p.Keys, k);
      var d :| d in p.Keys && d !in kept.Keys;
      PartIsNewer(l, m, n, d, k);
      assert false;
    }
  }

  lemma {:induction false} SubsetSizeStrict<T>(a: set<T>, b: set<T>, x: T)
    requires |a| == |b| && x in a && x !in b
    ensures exists y :: y in b && y !in a
  {
    if b <= a {
      SubsetSize(b + {x}, a);
      assert false;
    }
  }

  lemma {:induction false} KeptIsPart(l: seq<Entry>, m: Cache, n: nat, kept: Cache)
    requires Represents(l, m) && n <= |l|
    requires KeepsNewest(m, n, kept) && |kept| == n
    requires |Part(l[..n], m)| == n
    ensures kept == Part(l[..n], m)
  {
    var p := Part(l[..n], m);
    forall k | k in kept ensures k in p {
      KeptIsInPart(l, m, n, kept, k);
    }
    SameSize(kept.Keys, p.Keys);
  }

  /** Keeping the newest of a list with distinct times is taking a prefix. */
  lemma {:induction false} NewestIsPrefix(l: seq<Entry>, m: Cache, n: nat, kept: Cache)
    requires Represents(l, m) && n <= |l|
    requires KeepsNewest(m, n, kept)
    ensures Represents(l[..n], kept)
  {
    RepresentsSize(l, m);
    PartRepresents(l, m, n);
    KeptIsPart(l, m, n, kept);
  }

  lemma {:induction false} SameSize<T>(a: set<T>, b: set<T>)
    requires a <= b && |a| == |b|
    ensures a == b
  {
    if x :| x in b && x !in a {
      SubsetSize(a, b - {x});
      assert false;
    }
  }

  lemma {:induction false} YoungRepresents(l: seq<Entry>, m: Cache, now: int, ttl: int)
    requires Represents(l, m)
    ensures Represents(Young(l, now, ttl), Fresh(m, now, ttl))
  {
    YoungSpec(l, now, ttl);
    var young := Young(l, now, ttl);
    assert young == l[..|young|];
    PrefixOrdered(l, |young|);
  }

  lemma {:induction false} PutRepresents(l: seq<Entry>, m: Cache, id: string, now: int)
    requires Represents(l, m)
    requires forall k :: k in m ==> m[k] < now
    ensures Represents([Entry(id, now)] + Without(l, id), m[id := now])
  {
    WithoutMembers(l, id);
    WithoutOrdered(l, id);
    var w := Without(l, id);
    OrderedCons(Entry(id, now), w);
    forall k | k in m && k != id ensures Entry(k, m[k]) in w {
      assert Entry(k, m[k]) in l;
    }
  }

  /** One observation, at a time later than every entry's: the cache and the
      list agree on the answer and stay in step. */
  lemma {:induction false} ListStepRefines(max: int, ttl: int, l: seq<Entry>, m: Cache, op: Op, m': Cache, answer: bool)
    requires max >= 1
    requires Represents(l, m)
    requires op.Observe? ==> forall k :: k in m ==> m[k] < op.now
    requires OpStep(max, ttl, m, op, m', answer)
    ensures Represents(ListStep(max, ttl, l, op).0, m')
    ensures op.Observe? ==> ListStep(max, ttl, l, op).1 == answer
  {
    if op.Observe? {
      var id, now := op.id, op.now;
      var live, young := Fresh(m, now, ttl), Young(l, now, ttl);
      YoungRepresents(l, m, now, ttl);
      RepresentsSize(young, live);
      var kept :| Room(max, live, kept) && answer == (id in kept) && m' == kept[id := now];
      if |live| >= max {
        NewestIsPrefix(young, live, Target(max), kept);
      }
      Listed(Capped(max, young), kept, id);
      PutRepresents(Capped(max, young), kept, id, now);
    }
  }

  lemma {:induction false} EntriesAreEarlier(max: int, ttl: int, r: Run, i: nat)
    requires r.Valid(max, ttl) && r.Strict() && i < |r.ops| && r.ops[i].Observe?
    ensures forall k :: k in r.states[i] ==> r.states[i][k] < r.ops[i].now
  {
    forall k | k in r.states[i] ensures r.states[i][k] < r.ops[i].now {
      var j := EntriesAreLastSeen(max, ttl, r, i, k);
    }
  }

  /** The list that a run builds, and its answer to the last operation. */
  function ListAfter(max: int, ttl: int, ops: seq<Op>): (seq<Entry>, bool)
    requires max >= 1
  {
    if ops == [] then ([], false)
    else ListStep(max, ttl, ListAfter(max, ttl, ops[..|ops|-1]).0, ops[|ops|-1])
  }

  /** Over every run with a moving clock, the cache is the list of most recent
      observations, and its answers are the list's. */
  lemma {:induction false} CacheIsRecentList(max: int, ttl: int, r: Run, i: nat)
    requires r.Valid(max, ttl) && r.Strict() && i <= |r.ops|
    ensures Represents(ListAfter(max, ttl, r.ops[..i]).0, r.states[i])
    ensures i > 0 && r.ops[i-1].Observe? ==> ListAfter(max, ttl, r.ops[..i]).1 == r.answers[i-1]
  {
    if i > 0 {
      CacheIsRecentList(max, ttl, r, i - 1);
      var op, m := r.ops[i-1], r.states[i-1];
      assert r.ops[..i][..i-1] == r.ops[..i-1];
      assert OpStep(max, ttl, m, op, r.states[i], r.answers[i-1]);
      if op.Observe? {
        EntriesAreEarlier(max, ttl, r, i - 1);
      }
      ListStepRefines(max, ttl, ListAfter(max, ttl, r.ops[..i-1]).0, m, op, r.states[i], r.answers[i-1]);
    }
  }
}
