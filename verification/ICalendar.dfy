/**
 The iCalendar export of an on-call schedule (apps/backend/api/oncall.go), and a
 reader for the format of sections 3.1 and 3.3.11 of RFC 5545 to compare it with.
 */
module ICalendar {

  import opened Common

  /** Text that fits on one content line as it is. */
  predicate Plain(s: string) { '\r' !in s && '\n' !in s }

  type Line = s: string | Plain(s) witness ""

  // ------------------------------------------------------------------ escaping

  function EscapeChar(c: char): string {
    if c == '\\' then "\\\\"
    else if c == ';' then "\\;"
    else if c == ',' then "\\,"
    else if c == '\n' then "\\n"
    else if c == '\r' then ""
    else [c]
  }

  /** icalEscape */
  function Escape(s: string): string {
    if s == "" then "" else EscapeChar(s[0]) + Escape(s[1..])
  }

  /** The reading of an escaped text value. */
  function Unescape(s: string): string {
    if s == "" then ""
    else if s[0] == '\\' && |s| >= 2 then
      [if s[1] == 'n' || s[1] == 'N' then '\n' else s[1]] + Unescape(s[2..])
    else [s[0]] + Unescape(s[1..])
  }

  function DropCR(s: string): string {
    if s == "" then "" else (if s[0] == '\r' then "" else [s[0]]) + DropCR(s[1..])
  }

  /** Escaping loses nothing but carriage returns and leaves no line break. */
  lemma {:induction false} EscapeRoundTrip(s: string)
    ensures Plain(Escape(s))
    ensures Unescape(Escape(s)) == DropCR(s)
  {
    if s != "" {
      EscapeRoundTrip(s[1..]);
      UnescapeChar(s[0], Escape(s[1..]));
      PlainChar(s[0]);
      PlainConcat(EscapeChar(s[0]), Escape(s[1..]));
    }
  }

  /** Text values of section 3.3.11 of RFC 5545, as far as line breaks, separators
      and escapes go. */
  predicate IsText(s: string)
    decreases |s|
  {
    s == "" ||
    if s[0] == '\\' then |s| >= 2 && s[1] in "\\;,nN" && IsText(s[2..])
    else s[0] !in ";,\r\n" && IsText(s[1..])
  }

  lemma {:induction false} EscapeCharIsText(c: char, rest: string)
    requires IsText(rest)
    ensures IsText(EscapeChar(c) + rest)
  {
    var e := EscapeChar(c);
    var s := e + rest;
    if |e| == 2 {
      assert s[0] == '\\' && s[2..] == rest;
    } else if |e| == 1 {
      assert s[0] == c && s[1..] == rest;
    } else {
      assert s == rest;
    }
  }

  /** Escaped text has no bare separator, line break or unfinished escape. */
  lemma {:induction false} EscapeIsText(s: string)
    ensures IsText(Escape(s))
  {
    if s != "" {
      EscapeIsText(s[1..]);
      EscapeCharIsText(s[0], Escape(s[1..]));
    }
  }

  lemma {:induction false} PlainChar(c: char)
    ensures Plain(EscapeChar(c))
  {
  }

  lemma {:induction false} UnescapeChar(c: char, rest: string)
    ensures Unescape(EscapeChar(c) + rest) == (if c == '\r' then "" else [c]) + Unescape(rest)
  {
    var e := EscapeChar(c);
    var s := e + rest;
    if |e| == 2 {
      assert s[0] == '\\' && s[2..] == rest;
    } else if |e| == 1 {
      assert s[0] == c && s[1..] == rest;
    } else {
      assert s == rest;
    }
  }

  lemma {:induction false} DropCRConcat(a: string, b: string)
    ensures DropCR(a + b) == DropCR(a) + DropCR(b)
  {
    if a == "" {
      assert a + b == b;
    } else {
      DropCRConcat(a[1..], b);
      assert (a + b)[0] == a[0] && (a + b)[1..] == a[1..] + b;
      Associate(if a[0] == '\r' then "" else [a[0]], DropCR(a[1..]), DropCR(b));
    }
  }

  lemma {:induction false} DropCRPlain(s: string)
    requires Plain(s)
    ensures DropCR(s) == s
  {
    if s != "" {
      assert forall c :: c in s[1..] ==> c in s;
      DropCRPlain(s[1..]);
    }
  }

  // --------------------------------------------------------------- the document

  /** One shift: the user, and the four formatted times the writer prints. */
  datatype Shift = Shift(user: string, uidStamp: Line, stamp: Line, start: Line, end: Line)

  datatype Event = Event(uid: string, stamp: string, start: string, end: string, summary: string)

  datatype Calendar = Calendar(name: string, zone: string, events: seq<Event>)

  /** The display name of a user, or the id of a user that cannot be found. */
  function NameOf(users: map<string, string>, id: string): string {
    if id in users then users[id] else id
  }

  const CRLF := "\r\n"
  const BEGIN_CALENDAR: Line := "BEGIN:VCALENDAR"
  const VERSION: Line := "VERSION:2.0"
  const PRODUCT: Line := "PRODID:-//Alga//On-Call//EN"
  const CALENDAR_NAME: Line := "X-WR-CALNAME:"
  const TIME_ZONE: Line := "X-WR-TIMEZONE:"
  const BEGIN_EVENT: Line := "BEGIN:VEVENT"
  const UID: Line := "UID:"
  const STAMP: Line := "DTSTAMP:"
  const START: Line := "DTSTART:"
  const END: Line := "DTEND:"
  const SUMMARY: Line := "SUMMARY:"
  const ON_CALL: Line := "On-Call: "
  const END_EVENT: Line := "END:VEVENT"
  const END_CALENDAR: Line := "END:VCALENDAR"
  const UID_SUFFIX: Line := "@alga"

  function EventId(id: string, s: Shift): string { id + "-" + s.uidStamp + UID_SUFFIX }

  function EventLines(id: string, s: Shift, name: string): seq<string> {
    [BEGIN_EVENT, UID + EventId(id, s), STAMP + s.stamp, START + s.start,
     END + s.end, SUMMARY + Escape(ON_CALL + name), END_EVENT]
  }

  function AllEventLines(id: string, shifts: seq<Shift>, users: map<string, string>): seq<string> {
    if shifts == [] then [] else
      var last := shifts[|shifts|-1];
      AllEventLines(id, shifts[..|shifts|-1], users) + EventLines(id, last, NameOf(users, last.user))
  }

  function HeaderLines(name: string, zone: string): seq<string> {
    [BEGIN_CALENDAR, VERSION, PRODUCT, CALENDAR_NAME + Escape(name), TIME_ZONE + Escape(zone)]
  }

  function DocumentLines(id: string, name: string, zone: string, shifts: seq<Shift>,
      users: map<string, string>): seq<string> {
    HeaderLines(name, zone) + (AllEventLines(id, shifts, users) + [END_CALENDAR])
  }

  /** Text made of the given lines. */
  function Joined(lines: seq<string>): string {
    if lines == [] then "" else Joined(lines[..|lines|-1]) + (lines[|lines|-1] + CRLF)
  }

  // ----------------------------------------------------------------- the reader

  /** The index of the first line break, or the length. */
  function BreakAt(s: string): (i: nat)
    ensures i <= |s|
  {
    if |s| < 2 then |s| else if s[0] == '\r' && s[1] == '\n' then 0 else 1 + BreakAt(s[1..])
  }

  /** The content lines: each ends in CR LF. */
  function ContentLines(s: string): seq<string>
    decreases |s|
  {
    var i := BreakAt(s);
    if i + 2 > |s| then [] else [s[..i]] + ContentLines(s[i+2..])
  }

  predicate Continues(line: string) { line != "" && (line[0] == ' ' || line[0] == '\t') }

  /** Unfolding: a line that begins with a space or tab continues the one before. */
  function Unfold(lines: seq<string>): seq<string>
    decreases |lines|
  {
    if |lines| < 2 then lines
    else if Continues(lines[1]) then Unfold([lines[0] + lines[1][1..]] + lines[2..])
    else [lines[0]] + Unfold(lines[1..])
  }

  /** The value of a property line. */
  function ValueOf(line: string, property: string): Option<string> {
    if property <= line then Some(line[|property|..]) else None
  }

  function ReadEvents(lines: seq<string>): Option<seq<Event>> {
    if lines == [END_CALENDAR] then Some([])
    else if |lines| < 7 || lines[0] != BEGIN_EVENT || lines[6] != END_EVENT then None
    else
      match (ValueOf(lines[1], UID), ValueOf(lines[2], STAMP), ValueOf(lines[3], START),
             ValueOf(lines[4], END), ValueOf(lines[5], SUMMARY), ReadEvents(lines[7..]))
      case (Some(uid), Some(stamp), Some(start), Some(end), Some(summary), Some(rest)) =>
        Some([Event(uid, stamp, start, end, Unescape(summary))] + rest)
      case _ => None
  }

  function ReadCalendar(text: string): Option<Calendar> { ReadCalendarLines(Unfold(ContentLines(text))) }

  function ReadCalendarLines(lines: seq<string>): Option<Calendar> {
    if |lines| < 5 || lines[0] != BEGIN_CALENDAR || lines[1] != VERSION || lines[2] != PRODUCT then None
    else
      match (ValueOf(lines[3], CALENDAR_NAME), ValueOf(lines[4], TIME_ZONE), ReadEvents(lines[5..]))
      case (Some(name), Some(zone), Some(events)) => Some(Calendar(Unescape(name), Unescape(zone), events))
      case _ => None
  }

  // ----------------------------------------------------------------- round trip

  lemma {:induction false} BreakOf(line: string, rest: string)
    requires Plain(line)
    ensures BreakAt(line + CRLF + rest) == |line|
  {
    var s := line + CRLF + rest;
    if line != "" {
      assert line[0] in line && s[0] == line[0];
      assert forall c :: c in line[1..] ==> c in line;
      BreakOf(line[1..], rest);
      assert s[1..] == line[1..] + CRLF + rest;
    }
  }

  lemma {:induction false} OneLine(line: string, rest: string)
    requires Plain(line)
    ensures ContentLines(line + CRLF + rest) == [line] + ContentLines(rest)
  {
    BreakOf(line, rest);
    var s := line + CRLF + rest;
    assert s[..|line|] == line && s[|line|+2..] == rest;
  }

  lemma {:induction false} JoinedLines(lines: seq<string>, rest: string)
    requires forall l :: l in lines ==> Plain(l)
    ensures ContentLines(Joined(lines) + rest) == lines + ContentLines(rest)
    decreases |lines|
  {
    if lines == [] {
      assert Joined(lines) + rest == rest;
    } else {
      var init, last := lines[..|lines|-1], lines[|lines|-1];
      assert lines == init + [last];
      assert last in lines && forall l :: l in init ==> l in lines;
      OneLine(last, rest);
      JoinedLines(init, last + CRLF + rest);
      Associate(Joined(init), last + CRLF, rest);
      Associate(init, [last], ContentLines(rest));
    }
  }

  lemma {:induction false} JoinedAll(lines: seq<string>)
    requires forall l :: l in lines ==> Plain(l)
    ensures ContentLines(Joined(lines)) == lines
  {
    JoinedLines(lines, "");
    assert Joined(lines) + "" == Joined(lines);
    assert ContentLines("") == [];
  }

  lemma {:induction false} PlainConcat(a: string, b: string)
    requires Plain(a) && Plain(b)
    ensures Plain(a + b)
  {
  }

  lemma {:induction false} PlainEvent(id: Line, s: Shift, name: string)
    ensures forall l :: l in EventLines(id, s, name) ==> Plain(l)
  {
    EscapeRoundTrip(ON_CALL + name);
    PlainConcat(SUMMARY, Escape(ON_CALL + name));
    PlainConcat(STAMP, s.stamp);
    PlainConcat(START, s.start);
    PlainConcat(END, s.end);
    PlainConcat(id, "-");
    PlainConcat(id + "-", s.uidStamp);
    PlainConcat(id + "-" + s.uidStamp, UID_SUFFIX);
    PlainConcat(UID, EventId(id, s));
  }

  lemma {:induction false} PlainEvents(id: Line, shifts: seq<Shift>, users: map<string, string>)
    ensures forall l :: l in AllEventLines(id, shifts, users) ==> Plain(l)
  {
    if shifts != [] {
      var last := shifts[|shifts|-1];
      PlainEvents(id, shifts[..|shifts|-1], users);
      PlainEvent(id, last, NameOf(users, last.user));
    }
  }

  lemma {:induction false} PlainHeader(name: string, zone: string)
    ensures forall l :: l in HeaderLines(name, zone) ==> Plain(l)
  {
    EscapeRoundTrip(name);
    EscapeRoundTrip(zone);
    PlainConcat(CALENDAR_NAME, Escape(name));
    PlainConcat(TIME_ZONE, Escape(zone));
  }

  lemma {:induction false} PlainDocument(id: Line, name: string, zone: string, shifts: seq<Shift>,
      users: map<string, string>)
    ensures forall l :: l in DocumentLines(id, name, zone, shifts, users) ==> Plain(l)
  {
    PlainHeader(name, zone);
    PlainEvents(id, shifts, users);
  }

  lemma {:induction false} EventsAreUnfolded(id: string, shifts: seq<Shift>, users: map<string, string>)
    ensures forall l :: l in AllEventLines(id, shifts, users) ==> !Continues(l)
  {
    if shifts != [] {
      EventsAreUnfolded(id, shifts[..|shifts|-1], users);
    }
  }

  lemma {:induction false} NothingFolded(lines: seq<string>)
    requires forall l :: l in lines ==> !Continues(l)
    ensures Unfold(lines) == lines
  {
    if |lines| >= 2 {
      assert lines[1] in lines && forall l :: l in lines[1..] ==> l in lines;
      NothingFolded(lines[1..]);
    }
  }

  /** No line of the document is taken for a continuation. */
  lemma {:induction false} DocumentIsUnfolded(id: string, name: string, zone: string, shifts: seq<Shift>,
      users: map<string, string>)
    ensures Unfold(DocumentLines(id, name, zone, shifts, users)) == DocumentLines(id, name, zone, shifts, users)
  {
    EventsAreUnfolded(id, shifts, users);
    NothingFolded(DocumentLines(id, name, zone, shifts, users));
  }

  /** What the reader makes of one event's lines. */
  function EventRead(id: string, s: Shift, name: string): Event {
    Event(EventId(id, s), s.stamp, s.start, s.end, ON_CALL + DropCR(name))
  }

  function EventsRead(id: string, shifts: seq<Shift>, users: map<string, string>): seq<Event> {
    if shifts == [] then []
    else
      var last := shifts[|shifts|-1];
      EventsRead(id, shifts[..|shifts|-1], users) + [EventRead(id, last, NameOf(users, last.user))]
  }

  lemma {:induction false} ValueAfter(property: string, value: string)
    ensures ValueOf(property + value, property) == Some(value)
  {
    assert (property + value)[|property|..] == value;
  }

  lemma {:induction false} SummaryRead(name: string)
    ensures Unescape(Escape(ON_CALL + name)) == ON_CALL + DropCR(name)
  {
    EscapeRoundTrip(ON_CALL + name);
    DropCRConcat(ON_CALL, name);
    DropCRPlain(ON_CALL);
  }

  lemma {:induction false} ReadOneEvent(id: Line, s: Shift, name: string, more: seq<string>)
    requires ReadEvents(more).Some?
    ensures ReadEvents(EventLines(id, s, name) + more) == Some([EventRead(id, s, name)] + ReadEvents(more).value)
  {
    var lines := EventLines(id, s, name) + more;
    assert lines[7..] == more;
    ValueAfter(UID, EventId(id, s));
    ValueAfter(STAMP, s.stamp);
    ValueAfter(START, s.start);
    ValueAfter(END, s.end);
    ValueAfter(SUMMARY, Escape(ON_CALL + name));
    SummaryRead(name);
  }

  lemma {:induction false} ReadAllEvents(id: Line, shifts: seq<Shift>, users: map<string, string>, more: seq<string>)
    requires ReadEvents(more).Some?
    ensures ReadEvents(AllEventLines(id, shifts, users) + more)
              == Some(EventsRead(id, shifts, users) + ReadEvents(more).value)
    decreases |shifts|
  {
    if shifts == [] {
      assert AllEventLines(id, shifts, users) + more == more;
      assert EventsRead(id, shifts, users) + ReadEvents(more).value == ReadEvents(more).value;
    } else {
      var init, last := shifts[..|shifts|-1], shifts[|shifts|-1];
      var name := NameOf(users, last.user);
      var mine := EventLines(id, last, name);
      ReadOneEvent(id, last, name, more);
      ReadAllEvents(id, init, users, mine + more);
      Associate(AllEventLines(id, init, users), mine, more);
      Associate(EventsRead(id, init, users), [EventRead(id, last, name)], ReadEvents(more).value);
    }
  }

  lemma {:induction false} ReadLines(id: Line, name: string, zone: string, shifts: seq<Shift>,
      users: map<string, string>)
    ensures ReadCalendarLines(DocumentLines(id, name, zone, shifts, users)) ==
              Some(Calendar(DropCR(name), DropCR(zone), EventsRead(id, shifts, users)))
  {
    var lines := DocumentLines(id, name, zone, shifts, users);
    ReadAllEvents(id, shifts, users, [END_CALENDAR]);
    assert lines[5..] == AllEventLines(id, shifts, users) + [END_CALENDAR];
    ValueAfter(CALENDAR_NAME, Escape(name));
    ValueAfter(TIME_ZONE, Escape(zone));
    EscapeRoundTrip(name);
    EscapeRoundTrip(zone);
    assert EventsRead(id, shifts, users) + [] == EventsRead(id, shifts, users);
  }

  /** Reading the document gives back the calendar's name and time zone, less
      their carriage returns, and exactly the shifts, in order. */
  lemma {:induction false} DocumentRoundTrip(id: Line, name: string, zone: string, shifts: seq<Shift>,
      users: map<string, string>)
    ensures ReadCalendar(Joined(DocumentLines(id, name, zone, shifts, users))) ==
              Some(Calendar(DropCR(name), DropCR(zone), EventsRead(id, shifts, users)))
  {
    var lines := DocumentLines(id, name, zone, shifts, users);
    PlainDocument(id, name, zone, shifts, users);
    JoinedAll(lines);
    DocumentIsUnfolded(id, name, zone, shifts, users);
    ReadLines(id, name, zone, shifts, users);
  }

  lemma {:induction false} SameUid(id: string, s: Shift, t: Shift)
    ensures EventId(id, s) == EventId(id, t) <==> s.uidStamp == t.uidStamp
  {
    var a, b, head := EventId(id, s), EventId(id, t), |id| + 1;
    assert a[head..|a| - |UID_SUFFIX|] == s.uidStamp;
    assert b[head..|b| - |UID_SUFFIX|] == t.uidStamp;
  }

  lemma {:induction false} EventsReadAt(id: string, shifts: seq<Shift>, users: map<string, string>, i: nat)
    requires i < |shifts|
    ensures |EventsRead(id, shifts, users)| == |shifts|
    ensures EventsRead(id, shifts, users)[i] == EventRead(id, shifts[i], NameOf(users, shifts[i].user))
  {
    var n := |shifts| - 1;
    if i < n {
      EventsReadAt(id, shifts[..n], users, i);
    } else if n > 0 {
      EventsReadAt(id, shifts[..n], users, 0);
    }
  }

  /** What is read of shift `i`. */
  lemma {:induction false} EventsReadExactly(id: string, shifts: seq<Shift>, users: map<string, string>, i: nat)
    requires i < |shifts|
    ensures |EventsRead(id, shifts, users)| == |shifts|
    ensures var s := shifts[i];
            EventsRead(id, shifts, users)[i] ==
              Event(id + "-" + s.uidStamp + "@alga", s.stamp, s.start, s.end,
                    "On-Call: " + DropCR(if s.user in users then users[s.user] else s.user))
  {
    EventsReadAt(id, shifts, users, i);
  }

  /** The document of one shift, line by line. */
  lemma {:induction false} OneShiftLines(id: string, name: string, zone: string, s: Shift, user: string)
    ensures DocumentLines(id, name, zone, [s], map[s.user := user]) ==
              ["BEGIN:VCALENDAR", "VERSION:2.0", "PRODID:-//Alga//On-Call//EN"]
              + ["X-WR-CALNAME:" + Escape(name), "X-WR-TIMEZONE:" + Escape(zone)]
              + ["BEGIN:VEVENT", "UID:" + (id + "-" + s.uidStamp + "@alga"), "DTSTAMP:" + s.stamp, "DTSTART:" + s.start,
                 "DTEND:" + s.end, "SUMMARY:" + Escape("On-Call: " + user), "END:VEVENT"]
              + ["END:VCALENDAR"]
  {
    var users := map[s.user := user];
    assert [s][..0] == [];
    assert AllEventLines(id, [s], users) == [] + EventLines(id, s, user);
  }

  /** The events that are read have pairwise distinct ids if and only if no two
      shifts print the same start. */
  lemma {:induction false} DistinctUids(id: string, shifts: seq<Shift>, users: map<string, string>)
    ensures |EventsRead(id, shifts, users)| == |shifts|
    ensures (forall i, j :: 0 <= i < j < |shifts| ==>
              EventsRead(id, shifts, users)[i].uid != EventsRead(id, shifts, users)[j].uid)
            <==> (forall i, j :: 0 <= i < j < |shifts| ==> shifts[i].uidStamp != shifts[j].uidStamp)
  {
    if shifts != [] { EventsReadAt(id, shifts, users, 0); }
    forall i | 0 <= i < |shifts|
      ensures EventsRead(id, shifts, users)[i].uid == EventId(id, shifts[i])
    {
      EventsReadAt(id, shifts, users, i);
    }
    forall i, j | 0 <= i < j < |shifts|
      ensures EventId(id, shifts[i]) == EventId(id, shifts[j]) <==> shifts[i].uidStamp == shifts[j].uidStamp
    {
      SameUid(id, shifts[i], shifts[j]);
    }
  }

  /** b.WriteString(line + CRLF) */
  method Put(b: string, ghost lines: seq<string>, line: string) returns (text: string, ghost all: seq<string>)
    requires b == Joined(lines)
    ensures all == lines + [line] && text == Joined(all)
  {
    all := lines + [line];
    assert all[..|lines|] == lines;
    text := b + (line + CRLF);
  }

  lemma {:induction false} OneByOne<T>(s: seq<T>, a: T, b: T, c: T, d: T, e: T, f: T, g: T)
    ensures s + [a] + [b] + [c] + [d] + [e] + [f] + [g] == s + [a, b, c, d, e, f, g]
  {
  }

  method PutEvent(b: string, ghost lines: seq<string>, id: Line, s: Shift, name: string) returns (text: string)
    requires b == Joined(lines)
    ensures text == Joined(lines + EventLines(id, s, name))
  {
    ghost var all: seq<string>;
    text, all := Put(b, lines, BEGIN_EVENT);
    text, all := Put(text, all, UID + EventId(id, s));
    text, all := Put(text, all, STAMP + s.stamp);
    text, all := Put(text, all, START + s.start);
    text, all := Put(text, all, END + s.end);
    text, all := Put(text, all, SUMMARY + Escape(ON_CALL + name));
    text, all := Put(text, all, END_EVENT);
    OneByOne(lines, BEGIN_EVENT, UID + EventId(id, s), STAMP + s.stamp, START + s.start, END + s.end,
        SUMMARY + Escape(ON_CALL + name), END_EVENT);
  }

  method PutHeader(name: string, zone: string) returns (text: string)
    ensures text == Joined(HeaderLines(name, zone))
  {
    ghost var all: seq<string>;
    text, all := Put("", [], BEGIN_CALENDAR);
    text, all := Put(text, all, VERSION);
    text, all := Put(text, all, PRODUCT);
    text, all := Put(text, all, CALENDAR_NAME + Escape(name));
    text, all := Put(text, all, TIME_ZONE + Escape(zone));
    assert all == HeaderLines(name, zone);
  }

  lemma {:induction false} NextEvent(head: seq<string>, id: string, shifts: seq<Shift>, i: nat,
      users: map<string, string>)
    requires i < |shifts|
    ensures head + AllEventLines(id, shifts[..i+1], users)
            == (head + AllEventLines(id, shifts[..i], users)) + EventLines(id, shifts[i], NameOf(users, shifts[i].user))
  {
    assert shifts[..i+1][..i] == shifts[..i];
    Associate(head, AllEventLines(id, shifts[..i], users), EventLines(id, shifts[i], NameOf(users, shifts[i].user)));
  }

  ghost predicate Cached(names: map<string, string>, users: map<string, string>) {
    forall u :: u in names ==> names[u] == NameOf(users, u)
  }

  /** The lookup of a user's name through the cache. */
  method CachedName(names: map<string, string>, users: map<string, string>, user: string)
    returns (name: string, names': map<string, string>)
    requires Cached(names, users)
    ensures name == NameOf(users, user) && Cached(names', users)
  {
    if user in names {
      return names[user], names;
    }
    name := if user in users then users[user] else user;
    names' := names[user := name];
  }

  /** The loop over the shifts, with its cache of user names. */
  method PutEvents(b: string, ghost head: seq<string>, id: Line, shifts: seq<Shift>, users: map<string, string>)
      returns (text: string)
    requires b == Joined(head)
    ensures text == Joined(head + AllEventLines(id, shifts, users))
  {
    text := b;
    ghost var all := head;
    var names: map<string, string> := map[];
    var i := 0;
    while i < |shifts|
      invariant 0 <= i <= |shifts|
      invariant all == head + AllEventLines(id, shifts[..i], users)
      invariant text == Joined(all)
      invariant Cached(names, users)
    {
      var shift := shifts[i];
      var name;
      name, names := CachedName(names, users, shift.user);
      text := PutEvent(text, all, id, shift, name);
      all := all + EventLines(id, shift, name);
      NextEvent(head, id, shifts, i, users);
      i := i + 1;
    }
    assert shifts[..i] == shifts;
  }

  /** The writer in handleScheduleICal. */
  method WriteCalendar(id: Line, name: string, zone: string, shifts: seq<Shift>, users: map<string, string>)
      returns (text: string)
    ensures ReadCalendar(text) == Some(Calendar(DropCR(name), DropCR(zone), EventsRead(id, shifts, users)))
    ensures text == Joined(DocumentLines(id, name, zone, shifts, users))
  {
    text := PutHeader(name, zone);
    text := PutEvents(text, HeaderLines(name, zone), id, shifts, users);
    ghost var all: seq<string>;
    text, all := Put(text, HeaderLines(name, zone) + AllEventLines(id, shifts, users), END_CALENDAR);
    Associate(HeaderLines(name, zone), AllEventLines(id, shifts, users), [END_CALENDAR]);
    DocumentRoundTrip(id, name, zone, shifts, users);
  }
}
