/**
 The merged timeline of a post-mortem draft
 (apps/backend/api/postmortem_builder.go).  Times are nanoseconds; a zero or
 missing time is `None`.
 */
module Timeline {

  import opened Common
  import opened GoText

  datatype Incident = Incident(
    startedAt: Option<int>,
    createdAt: Option<int>,
    triagedAt: Option<int>,
    mitigatedAt: Option<int>,
    resolvedAt: Option<int>)

  datatype LogEntry = LogEntry(eventType: string, message: string, actorType: string, createdAt: int)

  datatype StatusUpdate = StatusUpdate(body: string, level: string, actorType: string, createdAt: int)

  datatype Entry = Entry(time: int, event: string, description: string, actor: string)

  /** A row of the result; its timestamp is printed to the second. */
  datatype Row = Row(second: int, event: string, description: string, actor: string)

  function ToRow(e: Entry): Row { Row(e.time / SECOND, e.event, e.description, e.actor) }

  // --------------------------------------------------------- what is to be shown

  function Actor(actorType: string): string { if actorType == "" then "system" else actorType }

  /** Whether a milestone, log entry or status update is to be shown, and as what. */
  ghost predicate IsMilestone(inc: Incident, e: Entry) {
    || (inc.startedAt.Some? && e == Entry(inc.startedAt.value, "incident_started", "Incident started", "system"))
    || (inc.startedAt.None? && inc.createdAt.Some?
        && e == Entry(inc.createdAt.value, "incident_created", "Incident created", "system"))
    || (inc.triagedAt.Some? && e == Entry(inc.triagedAt.value, "incident_triaged", "Incident triaged", "system"))
    || (inc.mitigatedAt.Some?
        && e == Entry(inc.mitigatedAt.value, "incident_mitigated", "Incident mitigated", "system"))
    || (inc.resolvedAt.Some? && e == Entry(inc.resolvedAt.value, "incident_resolved", "Incident resolved", "system"))
  }

  predicate Logged(te: LogEntry) { te.eventType != "postmortem_created" && TrimSpace(te.message) != "" }

  function LogShown(te: LogEntry): Entry {
    Entry(te.createdAt, te.eventType, TrimSpace(te.message), Actor(te.actorType))
  }

  predicate Posted(su: StatusUpdate) { TrimSpace(su.body) != "" }

  function UpdateShown(su: StatusUpdate): Entry {
    var body := TrimSpace(su.body);
    var text := if su.level != "" then "[" + su.level + "] " + body else body;
    Entry(su.createdAt, "status_update", text, Actor(su.actorType))
  }

  /** The entries that the inputs call for. */
  ghost predicate Wanted(inc: Incident, logs: seq<LogEntry>, updates: seq<StatusUpdate>, e: Entry) {
    || IsMilestone(inc, e)
    || (exists i :: 0 <= i < |logs| && Logged(logs[i]) && e == LogShown(logs[i]))
    || (exists i :: 0 <= i < |updates| && Posted(updates[i]) && e == UpdateShown(updates[i]))
  }

  // ------------------------------------------------------------------ the merge

  method AddMilestone(entries: seq<Entry>, t: Option<int>, event: string, description: string) returns (r: seq<Entry>)
    ensures forall e :: e in r <==> e in entries || (t.Some? && e == Entry(t.value, event, description, "system"))
  {
    r := entries;
    if t.Some? {
      r := entries + [Entry(t.value, event, description, "system")];
    }
  }

  method Milestones(inc: Incident) returns (entries: seq<Entry>)
    ensures forall e :: e in entries <==> IsMilestone(inc, e)
  {
    entries := AddMilestone([], inc.startedAt, "incident_started", "Incident started");
    if inc.startedAt.None? {
      entries := AddMilestone(entries, inc.createdAt, "incident_created", "Incident created");
    }
    entries := AddMilestone(entries, inc.triagedAt, "incident_triaged", "Incident triaged");
    entries := AddMilestone(entries, inc.mitigatedAt, "incident_mitigated", "Incident mitigated");
    entries := AddMilestone(entries, inc.resolvedAt, "incident_resolved", "Incident resolved");
  }

  method Collect(inc: Incident, logs: seq<LogEntry>, updates: seq<StatusUpdate>) returns (entries: seq<Entry>)
    ensures forall e :: e in entries <==> Wanted(inc, logs, updates, e)
  {
    entries := Milestones(inc);
    var i := 0;
    while i < |logs|
      invariant 0 <= i <= |logs|
      invariant forall e :: e in entries <==>
                  IsMilestone(inc, e) || (exists k :: 0 <= k < i && Logged(logs[k]) && e == LogShown(logs[k]))
    {
      var te := logs[i];
      var description := TrimSpace(te.message);
      if te.eventType != "postmortem_created" && description != "" {
        var actor := if te.actorType == "" then "system" else te.actorType;
        entries := entries + [Entry(te.createdAt, te.eventType, description, actor)];
      }
      i := i + 1;
    }
    i := 0;
    while i < |updates|
      invariant 0 <= i <= |updates|
      invariant forall e :: e in entries <==>
                  || IsMilestone(inc, e)
                  || (exists k :: 0 <= k < |logs| && Logged(logs[k]) && e == LogShown(logs[k]))
                  || (exists k :: 0 <= k < i && Posted(updates[k]) && e == UpdateShown(updates[k]))
    {
      var su := updates[i];
      var body := TrimSpace(su.body);
      if body != "" {
        var description := if su.level != "" then "[" + su.level + "] " + body else body;
        var actor := if su.actorType == "" then "system" else su.actorType;
        entries := entries + [Entry(su.createdAt, "status_update", description, actor)];
      }
      i := i + 1;
    }
  }

  ghost predicate SortedByTime(s: seq<Entry>) {
    forall i, j :: 0 <= i < j < |s| ==> s[i].time <= s[j].time
  }

  method Insert(s: seq<Entry>, e: Entry) returns (r: seq<Entry>)
    requires SortedByTime(s)
    ensures SortedByTime(r) && multiset(r) == multiset(s) + multiset{e}
  {
    var k := |s|;
    while k > 0 && s[k-1].time > e.time
      invariant 0 <= k <= |s|
      invariant forall j :: k <= j < |s| ==> s[j].time > e.time
    {
      k := k - 1;
    }
    InsertSorted(s, k, e);
    InsertPermutes(s, k, e);
    r := s[..k] + [e] + s[k..];
  }

  lemma {:induction false} InsertSorted(s: seq<Entry>, k: nat, e: Entry)
    requires SortedByTime(s) && k <= |s|
    requires k > 0 ==> s[k-1].time <= e.time
    requires forall j :: k <= j < |s| ==> s[j].time > e.time
    ensures SortedByTime(s[..k] + [e] + s[k..])
  {
    var r := s[..k] + [e] + s[k..];
    assert forall i :: 0 <= i < k ==> r[i] == s[i];
    assert forall i :: k < i < |r| ==> r[i] == s[i-1];
  }

  lemma {:induction false} InsertPermutes(s: seq<Entry>, k: nat, e: Entry)
    requires k <= |s|
    ensures multiset(s[..k] + [e] + s[k..]) == multiset(s) + multiset{e}
  {
    assert s == s[..k] + s[k..];
  }

  /** slices.SortFunc: a sorted permutation, in no promised order among equal
      times. */
  method Sort(s: seq<Entry>) returns (r: seq<Entry>)
    ensures SortedByTime(r) && multiset(r) == multiset(s)
  {
    r := [];
    var i := 0;
    while i < |s|
      invariant 0 <= i <= |s|
      invariant SortedByTime(r) && multiset(r) == multiset(s[..i])
    {
      r := Insert(r, s[i]);
      assert s[..i+1] == s[..i] + [s[i]];
      i := i + 1;
    }
    assert s[..|s|] == s;
  }

  /** What a reader sees twice when two rows agree on it. */
  datatype Line = Line(second: int, description: string)

  function EntryLine(e: Entry): Line { Line(e.time / SECOND, e.description) }

  function RowLine(r: Row): Line { Line(r.second, r.description) }

  ghost predicate Ordered(rows: seq<Row>) {
    forall i, j :: 0 <= i < j < |rows| ==> rows[i].second <= rows[j].second
  }

  ghost predicate Distinct(rows: seq<Row>) {
    forall i, j :: 0 <= i < j < |rows| ==> RowLine(rows[i]) != RowLine(rows[j])
  }

  /** The entry is the earliest with its line. */
  ghost predicate Earliest(entries: seq<Entry>, e: Entry) {
    e in entries && forall f :: f in entries && EntryLine(f) == EntryLine(e) ==> e.time <= f.time
  }

  ghost predicate RowOf(entries: seq<Entry>, row: Row) {
    exists e :: Earliest(entries, e) && row == ToRow(e)
  }

  ghost predicate Sourced(entries: seq<Entry>, rows: seq<Row>) {
    forall k :: 0 <= k < |rows| ==> RowOf(entries, rows[k])
  }

  ghost predicate HasLine(rows: seq<Row>, line: Line) {
    exists k :: 0 <= k < |rows| && RowLine(rows[k]) == line
  }

  ghost predicate Complete(entries: seq<Entry>, rows: seq<Row>) {
    forall e :: e in entries ==> HasLine(rows, EntryLine(e))
  }

  /** Sorted by second; no line twice; every row is an entry, the earliest with
      its line; every entry's line is there. */
  ghost predicate IsTimeline(entries: seq<Entry>, rows: seq<Row>) {
    Ordered(rows) && Distinct(rows) && Sourced(entries, rows) && Complete(entries, rows)
  }

  /** The rows come from increasing positions of the sorted entries, each the
      first with its line. */
  ghost predicate Picked(sorted: seq<Entry>, n: int, rows: seq<Row>, from: seq<int>) {
    && |from| == |rows|
    && (forall k :: 0 <= k < |rows| ==> 0 <= from[k] < n <= |sorted| && rows[k] == ToRow(sorted[from[k]]))
    && (forall k, l :: 0 <= k < l < |rows| ==> from[k] < from[l])
    && (forall k, j :: 0 <= k < |rows| && 0 <= j < from[k] ==> EntryLine(sorted[j]) != RowLine(rows[k]))
  }

  ghost predicate Seen(sorted: seq<Entry>, n: int, rows: seq<Row>, seen: set<Line>) {
    && (forall j :: 0 <= j < n <= |sorted| ==> EntryLine(sorted[j]) in seen)
    && (forall q :: q in seen <==> HasLine(rows, q))
  }

  /** The last loop: rows whose line was not seen before. */
  method Deduplicate(sorted: seq<Entry>) returns (rows: seq<Row>)
    requires SortedByTime(sorted)
    ensures IsTimeline(sorted, rows)
  {
    rows := [];
    var seen: set<Line> := {};
    ghost var from: seq<int> := [];
    var i := 0;
    while i < |sorted|
      invariant 0 <= i <= |sorted|
      invariant Picked(sorted, i, rows, from)
      invariant Seen(sorted, i, rows, seen)
    {
      var e := sorted[i];
      var line := Line(e.time / SECOND, e.description);
      if line !in seen {
        PickNext(sorted, i, rows, from, seen);
        seen := seen + {line};
        rows := rows + [Row(e.time / SECOND, e.event, e.description, e.actor)];
        from := from + [i];
      }
      i := i + 1;
    }
    PickedIsTimeline(sorted, rows, from, seen);
  }

  lemma {:induction false} HasLineSnoc(rows: seq<Row>, row: Row, q: Line)
    ensures HasLine(rows + [row], q) <==> HasLine(rows, q) || RowLine(row) == q
  {
    var all := rows + [row];
    if HasLine(rows, q) {
      var k :| 0 <= k < |rows| && RowLine(rows[k]) == q;
      assert RowLine(all[k]) == q;
    }
    assert RowLine(all[|rows|]) == RowLine(row);
  }

  lemma {:induction false} SeeNext(sorted: seq<Entry>, i: nat, rows: seq<Row>, seen: set<Line>)
    requires i < |sorted| && Seen(sorted, i, rows, seen)
    ensures Seen(sorted, i + 1, rows + [ToRow(sorted[i])], seen + {EntryLine(sorted[i])})
  {
    forall q ensures HasLine(rows + [ToRow(sorted[i])], q) <==> HasLine(rows, q) || EntryLine(sorted[i]) == q {
      HasLineSnoc(rows, ToRow(sorted[i]), q);
    }
  }

  lemma {:induction false} PickNext(sorted: seq<Entry>, i: nat, rows: seq<Row>, from: seq<int>, seen: set<Line>)
    requires i < |sorted| && Picked(sorted, i, rows, from) && Seen(sorted, i, rows, seen)
    requires EntryLine(sorted[i]) !in seen
    ensures Picked(sorted, i + 1, rows + [ToRow(sorted[i])], from + [i])
    ensures Seen(sorted, i + 1, rows + [ToRow(sorted[i])], seen + {EntryLine(sorted[i])})
  {
    SeeNext(sorted, i, rows, seen);
  }

  lemma {:induction false} SecondsOrdered(a: int, b: int)
    requires a <= b
    ensures a / SECOND <= b / SECOND
  {
  }

  lemma {:induction false} PickedIsTimeline(sorted: seq<Entry>, rows: seq<Row>, from: seq<int>, seen: set<Line>)
    requires SortedByTime(sorted)
    requires Picked(sorted, |sorted|, rows, from) && Seen(sorted, |sorted|, rows, seen)
    ensures IsTimeline(sorted, rows)
  {
    forall i, j | 0 <= i < j < |rows|
      ensures rows[i].second <= rows[j].second && RowLine(rows[i]) != RowLine(rows[j])
    {
      SecondsOrdered(sorted[from[i]].time, sorted[from[j]].time);
      assert EntryLine(sorted[from[i]]) == RowLine(rows[i]);
    }
    forall k | 0 <= k < |rows| ensures RowOf(sorted, rows[k]) {
      assert Earliest(sorted, sorted[from[k]]);
    }
  }

  lemma {:induction false} SameEntries(a: seq<Entry>, b: seq<Entry>, rows: seq<Row>)
    requires multiset(a) == multiset(b) && IsTimeline(a, rows)
    ensures IsTimeline(b, rows)
  {
    forall e ensures e in a <==> e in b {
      assert e in multiset(a) <==> e in multiset(b);
    }
    forall k | 0 <= k < |rows| ensures RowOf(b, rows[k]) {
      assert RowOf(a, rows[k]);
      var e :| Earliest(a, e) && rows[k] == ToRow(e);
      assert Earliest(b, e);
    }
  }

  /** The entries are those that the inputs call for. */
  ghost predicate Gathered(inc: Incident, logs: seq<LogEntry>, updates: seq<StatusUpdate>, entries: seq<Entry>) {
    forall e :: e in entries <==> Wanted(inc, logs, updates, e)
  }

  /** buildPMTimeline */
  method BuildTimeline(inc: Incident, logs: seq<LogEntry>, updates: seq<StatusUpdate>) returns (rows: seq<Row>)
    ensures exists entries :: Gathered(inc, logs, updates, entries) && IsTimeline(entries, rows)
  {
    var collected := Collect(inc, logs, updates);
    var sorted := Sort(collected);
    rows := Deduplicate(sorted);
    SameEntries(sorted, collected, rows);
    assert Gathered(inc, logs, updates, collected);
  }

  /** Which of several simultaneous entries with one line survives is up to the
      sort, but the lines of the result are not. */
  lemma {:induction false} LinesDetermined(entries: seq<Entry>, a: seq<Row>, b: seq<Row>, line: Line)
    requires Sourced(entries, a) && Complete(entries, b)
    ensures HasLine(a, line) ==> HasLine(b, line)
  {
    if HasLine(a, line) {
      var k :| 0 <= k < |a| && RowLine(a[k]) == line;
      assert RowOf(entries, a[k]);
      var e :| Earliest(entries, e) && a[k] == ToRow(e);
      assert EntryLine(e) == line;
    }
  }

  // --------------------------------------------------------- the rows, spelled out

  /** A line at the second of `time`. */
  ghost predicate Shows(rows: seq<Row>, time: int, description: string) {
    exists k :: 0 <= k < |rows| && rows[k].second == time / 1_000_000_000 && rows[k].description == description
  }

  lemma {:induction false} WantedShows(inc: Incident, logs: seq<LogEntry>, updates: seq<StatusUpdate>,
      entries: seq<Entry>, rows: seq<Row>, e: Entry)
    requires Gathered(inc, logs, updates, entries) && IsTimeline(entries, rows) && Wanted(inc, logs, updates, e)
    ensures Shows(rows, e.time, e.description)
  {
    assert HasLine(rows, EntryLine(e));
  }

  /** Every milestone that is set shows; the creation does if there is no start. */
  lemma {:induction false} MilestonesShow(inc: Incident, logs: seq<LogEntry>, updates: seq<StatusUpdate>,
                                          entries: seq<Entry>, rows: seq<Row>)
    requires Gathered(inc, logs, updates, entries) && IsTimeline(entries, rows)
    ensures inc.startedAt.Some? ==> Shows(rows, inc.startedAt.value, "Incident started")
    ensures inc.startedAt.None? && inc.createdAt.Some? ==> Shows(rows, inc.createdAt.value, "Incident created")
    ensures inc.triagedAt.Some? ==> Shows(rows, inc.triagedAt.value, "Incident triaged")
    ensures inc.mitigatedAt.Some? ==> Shows(rows, inc.mitigatedAt.value, "Incident mitigated")
    ensures inc.resolvedAt.Some? ==> Shows(rows, inc.resolvedAt.value, "Incident resolved")
  {
    if inc.startedAt.Some? {
      WantedShows(inc, logs, updates, entries, rows,
          Entry(inc.startedAt.value, "incident_started", "Incident started", "system"));
    } else if inc.createdAt.Some? {
      WantedShows(inc, logs, updates, entries, rows,
          Entry(inc.createdAt.value, "incident_created", "Incident created", "system"));
    }
    if inc.triagedAt.Some? {
      WantedShows(inc, logs, updates, entries, rows,
          Entry(inc.triagedAt.value, "incident_triaged", "Incident triaged", "system"));
    }
    if inc.mitigatedAt.Some? {
      WantedShows(inc, logs, updates, entries, rows,
          Entry(inc.mitigatedAt.value, "incident_mitigated", "Incident mitigated", "system"));
    }
    if inc.resolvedAt.Some? {
      WantedShows(inc, logs, updates, entries, rows,
          Entry(inc.resolvedAt.value, "incident_resolved", "Incident resolved", "system"));
    }
  }

  /** Every log entry with a message, other than the post-mortem's own creation,
      and every status update with a body shows, the latter with its level. */
  lemma {:induction false} LoggedShow(inc: Incident, logs: seq<LogEntry>, updates: seq<StatusUpdate>,
                                      entries: seq<Entry>, rows: seq<Row>, i: nat)
    requires Gathered(inc, logs, updates, entries) && IsTimeline(entries, rows)
    ensures i < |logs| && logs[i].eventType != "postmortem_created" && TrimSpace(logs[i].message) != "" ==>
              Shows(rows, logs[i].createdAt, TrimSpace(logs[i].message))
    ensures i < |updates| && TrimSpace(updates[i].body) != "" ==>
              Shows(rows, updates[i].createdAt,
                    (if updates[i].level == "" then "" else "[" + updates[i].level + "] ") + TrimSpace(updates[i].body))
  {
    if i < |logs| && Logged(logs[i]) {
      WantedShows(inc, logs, updates, entries, rows, LogShown(logs[i]));
    }
    if i < |updates| && Posted(updates[i]) {
      WantedShows(inc, logs, updates, entries, rows, UpdateShown(updates[i]));
      assert "" + TrimSpace(updates[i].body) == TrimSpace(updates[i].body);
    }
  }

  /** A row is a milestone's, or names the event type and the actor of a log entry
      or status update with its text; no actor is the system. */
  lemma {:induction false} RowsSourced(inc: Incident, logs: seq<LogEntry>, updates: seq<StatusUpdate>,
                                       entries: seq<Entry>, rows: seq<Row>, row: Row)
    requires Gathered(inc, logs, updates, entries) && IsTimeline(entries, rows) && row in rows
    ensures || (row.actor == "system"
                && row.event in {"incident_started", "incident_created", "incident_triaged", "incident_mitigated",
                    "incident_resolved"})
            || (exists i :: 0 <= i < |logs| && row.event == logs[i].eventType != "postmortem_created"
                  && row.description == TrimSpace(logs[i].message) != ""
                  && row.second == logs[i].createdAt / 1_000_000_000
                  && row.actor == if logs[i].actorType == "" then "system" else logs[i].actorType)
            || (exists i :: 0 <= i < |updates| && row.event == "status_update" && TrimSpace(updates[i].body) != ""
                  && row.second == updates[i].createdAt / 1_000_000_000
                  && row.actor == if updates[i].actorType == "" then "system" else updates[i].actorType)
  {
    var k :| 0 <= k < |rows| && rows[k] == row;
    assert RowOf(entries, row);
  }
}
