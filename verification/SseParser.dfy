/**
 The line loop of the SSE client (integrations/alga-agent-sdk-go/sse.go): from the
 bytes of the stream to the events handed to `dispatch`.  The format is the one
 of section 9.2.6 of the WHATWG HTML Standard.
 */
module SseParser {

  import opened Common
  import opened GoText

  datatype Event = Event(name: string, data: string)

  // -------------------------------------------------------------------- text

  predicate HasPrefix(s: string, p: string) { p <= s }

  /** The scanner drops one carriage return at the end of a line. */
  function StripCR(line: string): string {
    if line != "" && line[|line|-1] == '\r' then line[..|line|-1] else line
  }

  /** The index of the first line feed, or the length. */
  function LineEnd(s: string): (i: nat)
    ensures i <= |s|
    ensures i < |s| ==> s[i] == '\n'
    ensures '\n' !in s[..i]
  {
    if s == "" || s[0] == '\n' then 0 else
      var i := 1 + LineEnd(s[1..]);
      assert s[..i] == [s[0]] + s[1..][..i-1];
      i
  }

  /** bufio.ScanLines: a final line without line feed counts if it is non-empty. */
  function ScanLines(s: string): seq<string>
    decreases |s|
  {
    if s == "" then [] else
      var i := LineEnd(s);
      [StripCR(s[..i])] + (if i < |s| then ScanLines(s[i+1..]) else [])
  }

  function Split(s: string): (lines: seq<string>)
    ensures lines != [] && forall l :: l in lines ==> '\n' !in l
    decreases |s|
  {
    var i := LineEnd(s);
    if i == |s| then [s] else [s[..i]] + Split(s[i+1..])
  }

  function Join(lines: seq<string>): string {
    if lines == [] then "" else if |lines| == 1 then lines[0] else lines[0] + "\n" + Join(lines[1..])
  }

  // ----------------------------------------------------------------- the loop

  datatype Pending = Pending(event: string, data: string)

  const NOTHING := Pending("", "")

  function Value(line: string, field: string): string
    requires HasPrefix(line, field)
  {
    line[|field|..]
  }

  /** strings.TrimPrefix(rest, " ") */
  function DropSpace(s: string): string {
    if s != "" && s[0] == ' ' then s[1..] else s
  }

  function Append(data: string, value: string): string {
    if data == "" then value else data + "\n" + value
  }

  function Feed(p: Pending, line: string): Pending {
    if line == "" then NOTHING
    else if HasPrefix(line, ":") then p
    else if HasPrefix(line, "event:") then p.(event := TrimSpace(Value(line, "event:")))
    else if HasPrefix(line, "data:") then p.(data := Append(p.data, DropSpace(Value(line, "data:"))))
    else p
  }

  function Dispatched(p: Pending, line: string): seq<Event> {
    if line == "" && p.data != "" then [Event(if p.event == "" then "message" else p.event, p.data)] else []
  }

  function Parse(p: Pending, lines: seq<string>): seq<Event>
    decreases |lines|
  {
    if lines == [] then [] else Dispatched(p, lines[0]) + Parse(Feed(p, lines[0]), lines[1..])
  }

  function State(p: Pending, lines: seq<string>): Pending
    decreases |lines|
  {
    if lines == [] then p else State(Feed(p, lines[0]), lines[1..])
  }

  lemma {:induction false} ParseConcat(p: Pending, a: seq<string>, b: seq<string>)
    ensures Parse(p, a + b) == Parse(p, a) + Parse(State(p, a), b)
    ensures State(p, a + b) == State(State(p, a), b)
    decreases |a|
  {
    if a == [] {
      assert a + b == b;
    } else {
      var q := Feed(p, a[0]);
      ParseConcat(q, a[1..], b);
      assert (a + b)[0] == a[0] && (a + b)[1..] == a[1..] + b;
      Associate(Dispatched(p, a[0]), Parse(q, a[1..]), Parse(State(q, a[1..]), b));
    }
  }

  lemma {:induction false} NextLine(lines: seq<string>, i: nat)
    requires i < |lines|
    ensures var p := State(NOTHING, lines[..i]);
            && State(NOTHING, lines[..i+1]) == Feed(p, lines[i])
            && Parse(NOTHING, lines[..i+1]) == Parse(NOTHING, lines[..i]) + Dispatched(p, lines[i])
  {
    var p, line := State(NOTHING, lines[..i]), lines[i];
    ParseConcat(NOTHING, lines[..i], [line]);
    assert lines[..i+1] == lines[..i] + [line];
    assert [line][1..] == [];
    assert Parse(p, [line]) == Dispatched(p, line);
  }

  lemma {:induction false} StoppedAt(lines: seq<string>, i: nat)
    requires i <= |lines|
    ensures Parse(NOTHING, lines[..i]) == Blocks(lines[..i]) && Blocks(lines[..i]) <= Blocks(lines)
  {
    ParseConcat(NOTHING, lines[..i], lines[i..]);
    assert lines[..i] + lines[i..] == lines;
    ParseIsBlocks(lines);
    ParseIsBlocks(lines[..i]);
  }

  /** The scanner loop; the context is seen to be done when `cancelAt` lines have
      been handled. */
  method ServeLines(lines: seq<string>, cancelAt: nat) returns (events: seq<Event>)
    ensures cancelAt >= |lines| ==> events == Blocks(lines)
    ensures cancelAt < |lines| ==> events == Blocks(lines[..cancelAt])
    ensures events <= Blocks(lines)
  {
    var eventType, data := "", "";
    events := [];
    var i := 0;
    while i < |lines|
      invariant 0 <= i <= |lines|
      invariant i <= cancelAt
      invariant events == Parse(NOTHING, lines[..i])
      invariant Pending(eventType, data) == State(NOTHING, lines[..i])
    {
      if i == cancelAt {
        StoppedAt(lines, i);
        return;
      }
      var line := lines[i];
      NextLine(lines, i);
      i := i + 1;
      if line == "" {
        if data != "" {
          var name := if eventType == "" then "message" else eventType;
          events := events + [Event(name, data)];
        }
        eventType, data := "", "";
      } else if HasPrefix(line, ":") {
      } else if HasPrefix(line, "event:") {
        eventType := TrimSpace(line[|"event:"|..]);
      } else if HasPrefix(line, "data:") {
        var rest := line[|"data:"|..];
        if rest != "" && rest[0] == ' ' {
          rest := rest[1..];
        }
        data := if data != "" then data + "\n" + rest else rest;
      }
    }
    StoppedAt(lines, i);
    assert lines[..i] == lines;
  }

  // ------------------------------------------------------ reference definition

  /** The index of the first blank line, or the number of lines. */
  function BlankAt(lines: seq<string>): (i: nat)
    ensures i <= |lines|
    ensures i < |lines| ==> lines[i] == ""
    ensures "" !in lines[..i]
  {
    if lines == [] || lines[0] == "" then 0 else
      var i := 1 + BlankAt(lines[1..]);
      assert lines[..i] == [lines[0]] + lines[1..][..i-1];
      i
  }

  predicate IsEventLine(line: string) { HasPrefix(line, "event:") }

  predicate IsDataLine(line: string) { HasPrefix(line, "data:") }

  /** The values of the data lines of a block, in order. */
  function DataValues(block: seq<string>): seq<string> {
    if block == [] then [] else
      (if IsDataLine(block[0]) then [DropSpace(Value(block[0], "data:"))] else []) + DataValues(block[1..])
  }

  /** The value of the last event line of a block, or `name` without one. */
  function LastName(name: string, block: seq<string>): string
    decreases |block|
  {
    if block == [] then name
    else LastName(if IsEventLine(block[0]) then TrimSpace(Value(block[0], "event:")) else name, block[1..])
  }

  function DropEmpty(values: seq<string>): seq<string> {
    if values != [] && values[0] == "" then DropEmpty(values[1..]) else values
  }

  function Named(name: string): string { if name == "" then "message" else name }

  /** The event of one block of lines. */
  function BlockEvent(block: seq<string>): seq<Event> {
    var data := Join(DropEmpty(DataValues(block)));
    if data == "" then [] else [Event(Named(LastName("", block)), data)]
  }

  /** What `f` makes of the blocks that a blank line terminates. */
  function BlocksBy(f: seq<string> -> seq<Event>, lines: seq<string>): seq<Event>
    decreases |lines|
  {
    var i := BlankAt(lines);
    if i == |lines| then [] else f(lines[..i]) + BlocksBy(f, lines[i+1..])
  }

  function Blocks(lines: seq<string>): seq<Event> { BlocksBy(BlockEvent, lines) }

  function AppendAll(data: string, values: seq<string>): string
    decreases |values|
  {
    if values == [] then data else AppendAll(Append(data, values[0]), values[1..])
  }

  lemma {:induction false} AppendAllNonEmpty(data: string, values: seq<string>)
    requires data != ""
    ensures AppendAll(data, values) == Join([data] + values)
    decreases |values|
  {
    var all := [data] + values;
    if values == [] {
      assert all == [data];
    } else {
      AppendAllNonEmpty(data + "\n" + values[0], values[1..]);
      var glued := [data + "\n" + values[0]] + values[1..];
      assert all[1..] == values;
      if |values| > 1 {
        assert glued[1..] == values[1..];
        assert data + "\n" + (values[0] + "\n" + Join(values[1..]))
            == data + "\n" + values[0] + "\n" + Join(values[1..]);
      }
    }
  }

  lemma {:induction false} AppendAllIsJoin(values: seq<string>)
    ensures AppendAll("", values) == Join(DropEmpty(values))
    decreases |values|
  {
    if values != [] {
      if values[0] == "" {
        AppendAllIsJoin(values[1..]);
      } else {
        AppendAllNonEmpty(values[0], values[1..]);
        assert [values[0]] + values[1..] == values;
      }
    }
  }

  lemma {:induction false} LineKinds(line: string)
    ensures !(HasPrefix(line, ":") && IsEventLine(line))
    ensures !(HasPrefix(line, ":") && IsDataLine(line))
    ensures !(IsEventLine(line) && IsDataLine(line))
  {
    assert HasPrefix(line, ":") ==> line[0] == ':';
    assert IsEventLine(line) ==> line[0] == 'e';
    assert IsDataLine(line) ==> line[0] == 'd';
  }

  lemma {:induction false} ParseBlock(p: Pending, block: seq<string>)
    requires "" !in block
    ensures Parse(p, block) == []
    ensures State(p, block) == Pending(LastName(p.event, block), AppendAll(p.data, DataValues(block)))
    decreases |block|
  {
    if block != [] {
      var line, rest := block[0], block[1..];
      assert forall l :: l in rest ==> l in block;
      ParseBlock(Feed(p, line), rest);
      LineKinds(line);
      if IsDataLine(line) {
        var v := [DropSpace(Value(line, "data:"))];
        assert (v + DataValues(rest))[1..] == DataValues(rest);
      } else {
        assert [] + DataValues(rest) == DataValues(rest);
      }
    }
  }

  lemma {:induction false} ParseBlank(p: Pending, rest: seq<string>)
    ensures Parse(p, [""] + rest) == Dispatched(p, "") + Parse(NOTHING, rest)
  {
    assert ([""] + rest)[1..] == rest;
  }

  lemma {:induction false} ParseFirstBlock(block: seq<string>, rest: seq<string>)
    requires "" !in block
    ensures Parse(NOTHING, block + ([""] + rest)) == BlockEvent(block) + Parse(NOTHING, rest)
  {
    ParseBlock(NOTHING, block);
    ParseConcat(NOTHING, block, [""] + rest);
    ParseBlank(State(NOTHING, block), rest);
    AppendAllIsJoin(DataValues(block));
    assert Dispatched(State(NOTHING, block), "") == BlockEvent(block);
  }

  /** The loop computes the block-by-block definition; in particular an event
      that no blank line terminates is never dispatched. */
  lemma {:induction false} ParseIsBlocks(lines: seq<string>)
    ensures Parse(NOTHING, lines) == Blocks(lines)
    decreases |lines|
  {
    var i := BlankAt(lines);
    if i == |lines| {
      assert lines[..i] == lines;
      ParseBlock(NOTHING, lines);
    } else {
      assert lines == lines[..i] + ([""] + lines[i+1..]);
      ParseFirstBlock(lines[..i], lines[i+1..]);
      ParseIsBlocks(lines[i+1..]);
    }
  }

  lemma {:induction false} ParseIgnored(p: Pending, line: string, b: seq<string>)
    requires line != "" && (HasPrefix(line, ":") || (!IsEventLine(line) && !IsDataLine(line)))
    ensures Parse(p, [line] + b) == Parse(p, b)
  {
    assert ([line] + b)[1..] == b;
    assert Feed(p, line) == p;
    assert [] + Parse(p, b) == Parse(p, b);
  }

  /** Comment lines, `id:` lines and lines of unknown fields change nothing,
      wherever they stand. */
  lemma {:induction false} IgnoredLine(a: seq<string>, line: string, b: seq<string>)
    requires line != "" && (HasPrefix(line, ":") || (!IsEventLine(line) && !IsDataLine(line)))
    ensures Blocks(a + ([line] + b)) == Blocks(a + b)
  {
    ParseIsBlocks(a + ([line] + b));
    ParseIsBlocks(a + b);
    ParseConcat(NOTHING, a, b);
    ParseConcat(NOTHING, a, [line] + b);
    ParseIgnored(State(NOTHING, a), line, b);
  }

  lemma {:induction false} BlankResets(p: Pending, a: seq<string>)
    requires a != [] && a[|a|-1] == ""
    ensures State(p, a) == NOTHING
    decreases |a|
  {
    if |a| > 1 {
      BlankResets(Feed(p, a[0]), a[1..]);
    } else {
      assert a[1..] == [];
    }
  }

  /** A stream that ends in a blank line can be cut there. */
  lemma {:induction false} StreamsConcatenate(a: seq<string>, b: seq<string>)
    requires a != [] && a[|a|-1] == ""
    ensures Blocks(a + b) == Blocks(a) + Blocks(b)
  {
    ParseIsBlocks(a + b);
    ParseIsBlocks(a);
    ParseIsBlocks(b);
    ParseConcat(NOTHING, a, b);
    BlankResets(NOTHING, a);
  }

  // --------------------------------------------------------------- round trip

  function DataLines(lines: seq<string>): string {
    if lines == [] then "" else "data: " + lines[0] + "\n" + DataLines(lines[1..])
  }

  function PrintEvent(e: Event): string {
    "event: " + e.name + "\n" + DataLines(Split(e.data)) + "\n"
  }

  function Print(events: seq<Event>): string {
    if events == [] then "" else PrintEvent(events[0]) + Print(events[1..])
  }

  predicate GoodName(name: string) {
    name != "" && TrimSpace(name) == name && '\n' !in name
  }

  predicate EndsInCR(line: string) { line != "" && line[|line|-1] == '\r' }

  /** Data that survives being written and read. */
  predicate Survives(data: string) {
    Split(data)[0] != "" && forall l :: l in Split(data) ==> !EndsInCR(l)
  }

  function StripAll(lines: seq<string>): seq<string> {
    if lines == [] then [] else [StripCR(lines[0])] + StripAll(lines[1..])
  }

  /** What an event turns into when it is written and read. */
  function ReadBack(e: Event): seq<Event> {
    var data := Join(DropEmpty(StripAll(Split(e.data))));
    if data == "" then [] else [Event(e.name, data)]
  }

  function ReadBackAll(events: seq<Event>): seq<Event> {
    if events == [] then [] else ReadBack(events[0]) + ReadBackAll(events[1..])
  }

  lemma {:induction false} LineEndOf(line: string, rest: string)
    requires '\n' !in line
    ensures LineEnd(line + "\n" + rest) == |line|
  {
    var s := line + "\n" + rest;
    var i := LineEnd(s);
    assert forall k :: 0 <= k < |line| ==> s[k] == line[k] && line[k] != '\n';
    assert s[|line|] == '\n';
    assert forall k :: 0 <= k < i ==> s[..i][k] == s[k];
  }

  lemma {:induction false} ScanOne(line: string, rest: string)
    requires '\n' !in line
    ensures ScanLines(line + "\n" + rest) == [StripCR(line)] + ScanLines(rest)
  {
    LineEndOf(line, rest);
    var s := line + "\n" + rest;
    assert s[..|line|] == line && s[|line|+1..] == rest;
  }

  function DataLineList(lines: seq<string>): seq<string> {
    if lines == [] then [] else ["data: " + lines[0]] + DataLineList(lines[1..])
  }

  lemma {:induction false} ScanDataLines(lines: seq<string>, rest: string)
    requires forall l :: l in lines ==> '\n' !in l
    ensures ScanLines(DataLines(lines) + rest) == DataLineList(StripAll(lines)) + ScanLines(rest)
    decreases |lines|
  {
    if lines == [] {
      assert DataLines(lines) + rest == rest;
    } else {
      var l := lines[0];
      assert l in lines;
      var line, tail := "data: " + l, DataLines(lines[1..]) + rest;
      assert DataLines(lines) + rest == line + "\n" + tail;
      ScanOne(line, tail);
      assert forall m :: m in lines[1..] ==> m in lines;
      ScanDataLines(lines[1..], rest);
      StripPrefixed("data: ", l);
      assert StripAll(lines)[1..] == StripAll(lines[1..]);
    }
  }

  lemma {:induction false} DataLine(l: string)
    ensures IsDataLine("data: " + l) && !IsEventLine("data: " + l)
    ensures DropSpace(Value("data: " + l, "data:")) == l
  {
    var line := "data: " + l;
    assert line[..5] == "data:";
    assert line[0] == 'd';
    assert Value(line, "data:") == " " + l;
    assert (" " + l)[1..] == l;
  }

  lemma {:induction false} DataLineValues(lines: seq<string>, name: string)
    ensures DataValues(DataLineList(lines)) == lines
    ensures "" !in DataLineList(lines)
    ensures LastName(name, DataLineList(lines)) == name
    decreases |lines|
  {
    if lines != [] {
      DataLine(lines[0]);
      DataLineValues(lines[1..], name);
      var d := DataLineList(lines);
      assert d[1..] == DataLineList(lines[1..]);
    }
  }

  lemma {:induction false} StripPrefixed(p: string, l: string)
    requires p != "" && p[|p|-1] != '\r'
    ensures StripCR(p + l) == p + StripCR(l)
  {
    if l == "" {
      assert p + l == p;
    } else {
      assert (p + l)[|p + l| - 1] == l[|l|-1];
      assert (p + l)[..|p + l| - 1] == p + l[..|l|-1];
    }
  }

  lemma {:induction false} NameLine(name: string)
    requires GoodName(name)
    ensures '\n' !in "event: " + name
    ensures StripCR("event: " + name) == "event: " + name
    ensures TrimSpace(Value("event: " + name, "event:")) == name
  {
    TrimRightEnd(TrimLeft(name));
    assert ("event: " + name)[|"event: " + name| - 1] == name[|name|-1];
    assert Value("event: " + name, "event:") == " " + name;
    assert (" " + name)[1..] == name;
    assert TrimLeft(" " + name) == TrimLeft(name);
  }

  lemma {:induction false} PrintedBlock(e: Event)
    requires GoodName(e.name)
    ensures "" !in ["event: " + e.name] + DataLineList(StripAll(Split(e.data)))
    ensures BlockEvent(["event: " + e.name] + DataLineList(StripAll(Split(e.data)))) == ReadBack(e)
  {
    var first := "event: " + e.name;
    var values := StripAll(Split(e.data));
    var block := [first] + DataLineList(values);
    assert block[1..] == DataLineList(values);
    NameLine(e.name);
    DataLineValues(values, e.name);
    assert first[..6] == "event:";
    LineKinds(first);
    assert DataValues(block) == [] + DataValues(block[1..]) == values;
    assert IsEventLine(block[0]) && TrimSpace(Value(block[0], "event:")) == e.name;
    assert LastName("", block) == LastName(e.name, block[1..]) == e.name;
  }

  lemma {:induction false} Regroup<T>(a: seq<T>, n: seq<T>, b: seq<T>, c: seq<T>)
    ensures (a + n + b + n) + c == a + n + (b + (n + c))
  {
  }

  lemma {:induction false} ScanBlank(rest: string)
    ensures ScanLines("\n" + rest) == [""] + ScanLines(rest)
  {
    assert "\n" + rest == "" + "\n" + rest;
    ScanOne("", rest);
  }

  lemma {:induction false} ScanNamed(name: string, lines: seq<string>, rest: string)
    requires GoodName(name)
    requires forall l :: l in lines ==> '\n' !in l
    ensures ScanLines("event: " + name + "\n" + (DataLines(lines) + rest))
            == ["event: " + name] + (DataLineList(StripAll(lines)) + ScanLines(rest))
  {
    NameLine(name);
    ScanOne("event: " + name, DataLines(lines) + rest);
    ScanDataLines(lines, rest);
  }

  lemma {:induction false} ScanEvent(e: Event, rest: string)
    requires GoodName(e.name)
    ensures ScanLines(PrintEvent(e) + rest)
            == (["event: " + e.name] + DataLineList(StripAll(Split(e.data)))) + ([""] + ScanLines(rest))
  {
    var lines := Split(e.data);
    Regroup("event: " + e.name, "\n", DataLines(lines), rest);
    ScanNamed(e.name, lines, "\n" + rest);
    ScanBlank(rest);
    Associate(["event: " + e.name], DataLineList(StripAll(lines)), [""] + ScanLines(rest));
  }

  /** One written event, read from any stream that starts with it. */
  lemma {:induction false} ReadOne(e: Event, rest: string)
    requires GoodName(e.name)
    ensures Blocks(ScanLines(PrintEvent(e) + rest)) == ReadBack(e) + Blocks(ScanLines(rest))
  {
    ScanEvent(e, rest);
    PrintedBlock(e);
    BlankAfter(["event: " + e.name] + DataLineList(StripAll(Split(e.data))), ScanLines(rest));
  }

  lemma {:induction false} BlankAtEnd(block: seq<string>, rest: seq<string>)
    requires "" !in block
    ensures BlankAt(block + ([""] + rest)) == |block|
  {
    var all := block + ([""] + rest);
    var i := BlankAt(all);
    assert forall k :: 0 <= k < |block| ==> all[k] == block[k];
    assert forall k :: 0 <= k < |block| ==> block[k] in block;
    assert all[|block|] == "";
    assert forall k :: 0 <= k < i ==> all[..i][k] == all[k];
  }

  lemma {:induction false} BlankAfter(block: seq<string>, rest: seq<string>)
    requires "" !in block
    ensures Blocks(block + ([""] + rest)) == BlockEvent(block) + Blocks(rest)
  {
    BlankAtEnd(block, rest);
    var all := block + ([""] + rest);
    assert all[..|block|] == block && all[|block|+1..] == rest;
  }

  /** Writing any list of events and running the loop: the events come back in
      order, each as `ReadBack` says. */
  lemma {:induction false} RoundTrip(events: seq<Event>)
    requires forall e :: e in events ==> GoodName(e.name)
    ensures Blocks(ScanLines(Print(events))) == ReadBackAll(events)
    decreases |events|
  {
    if events != [] {
      assert events[0] in events;
      RoundTrip(events[1..]);
      ReadOne(events[0], Print(events[1..]));
    }
  }

  lemma {:induction false} JoinCons(head: string, tail: seq<string>)
    requires tail != []
    ensures Join([head] + tail) == head + "\n" + Join(tail)
  {
    assert ([head] + tail)[1..] == tail;
  }

  lemma {:induction false} CutAt(s: string, i: nat)
    requires i < |s| && s[i] == '\n'
    ensures s == s[..i] + "\n" + s[i+1..]
  {
  }

  lemma {:induction false} SplitCons(s: string)
    requires LineEnd(s) < |s|
    ensures Split(s) == [s[..LineEnd(s)]] + Split(s[LineEnd(s)+1..])
  {
  }

  lemma {:induction false} JoinSplit(s: string)
    ensures Join(Split(s)) == s
    decreases |s|
  {
    var i := LineEnd(s);
    if i < |s| {
      JoinSplit(s[i+1..]);
      SplitCons(s);
      JoinCons(s[..i], Split(s[i+1..]));
      CutAt(s, i);
    }
  }

  lemma {:induction false} StripAllLength(lines: seq<string>)
    ensures |StripAll(lines)| == |lines|
    ensures |Join(StripAll(lines))| <= |Join(lines)|
    ensures (exists l :: l in lines && EndsInCR(l)) ==> |Join(StripAll(lines))| < |Join(lines)|
    ensures (forall l :: l in lines ==> !EndsInCR(l)) ==> StripAll(lines) == lines
  {
    if lines != [] {
      StripAllLength(lines[1..]);
      assert lines == [lines[0]] + lines[1..];
      assert lines[0] in lines && forall l :: l in lines[1..] ==> l in lines;
      assert StripAll(lines)[1..] == StripAll(lines[1..]);
    }
  }

  lemma {:induction false} DropEmptyLength(values: seq<string>)
    ensures |Join(DropEmpty(values))| <= |Join(values)|
    ensures |values| > 1 && values[0] == "" ==> |Join(DropEmpty(values))| < |Join(values)|
  {
    if values != [] && values[0] == "" {
      DropEmptyLength(values[1..]);
    }
  }

  /** Exactly the data whose first line is non-empty and none of whose lines
      ends in a carriage return comes back unchanged. */
  lemma {:induction false} SurvivesExactly(e: Event)
    ensures ReadBack(e) == [e] <==> Survives(e.data)
  {
    var lines := Split(e.data);
    JoinSplit(e.data);
    StripAllLength(lines);
    DropEmptyLength(StripAll(lines));
    if Survives(e.data) {
      assert lines[0] in lines;
      assert |lines| > 1 ==> |Join(lines)| > 0;
      assert Join(lines) != "";
    } else if lines[0] == "" && forall l :: l in lines ==> !EndsInCR(l) {
      assert |lines| == 1 ==> DropEmpty(lines) == [] by { assert |lines| == 1 ==> lines[1..] == []; }
    }
  }

  lemma {:induction false} RoundTripExact(events: seq<Event>)
    requires forall e :: e in events ==> GoodName(e.name) && Survives(e.data)
    ensures Blocks(ScanLines(Print(events))) == events
  {
    RoundTrip(events);
    ReadBackSurvivors(events);
  }

  lemma {:induction false} ReadBackSurvivors(events: seq<Event>)
    requires forall e :: e in events ==> Survives(e.data)
    ensures ReadBackAll(events) == events
  {
    if events != [] {
      assert events[0] in events;
      SurvivesExactly(events[0]);
      ReadBackSurvivors(events[1..]);
    }
  }

  /** One space behind the colon of a data line is dropped if it is there, and
      nothing else. */
  lemma {:induction false} DataValueOfLine(v: string)
    ensures DataValues(["data:" + v]) == [if v != "" && v[0] == ' ' then v[1..] else v]
    ensures v != "" && v[0] != ' ' ==> Feed(NOTHING, "data:" + v) == Feed(NOTHING, "data: " + v) == Pending("", v)
  {
    var data: string, spaced: string := "data:" + v, "data: " + v;
    assert data[..5] == "data:" && data[5..] == v && data[0] == 'd';
    assert spaced[..5] == "data:" && spaced[5..] == " " + v && spaced[0] == 'd' && (" " + v)[1..] == v;
    assert [data][1..] == [];
  }

  /** An event name is trimmed. */
  lemma {:induction false} EventValueOfLine(v: string, p: Pending)
    ensures Feed(p, "event:" + v) == p.(event := TrimSpace(v))
  {
    var event := "event:" + v;
    assert event[..6] == "event:" && event[6..] == v && event[0] == 'e';
  }

  // ------------------------------------------------- comparison with the standard

  /** The standard's data values and event name of a block; a line without colon
      is a field with an empty value. */
  function StandardValues(block: seq<string>): seq<string> {
    if block == [] then [] else
      (if IsDataLine(block[0]) then [DropSpace(Value(block[0], "data:"))] else if block[0] == "data" then [""] else [])
      + StandardValues(block[1..])
  }

  function StandardName(name: string, block: seq<string>): string
    decreases |block|
  {
    if block == [] then name
    else StandardName(if IsEventLine(block[0]) then DropSpace(Value(block[0], "event:"))
                      else if block[0] == "event" then "" else name, block[1..])
  }

  /** An event is dispatched when the block has a data line at all. */
  function StandardEvent(block: seq<string>): seq<Event> {
    var values := StandardValues(block);
    if values == [] then [] else [Event(Named(StandardName("", block)), Join(values))]
  }

  function TotalLength(values: seq<string>): nat {
    if values == [] then 0 else |values[0]| + TotalLength(values[1..])
  }

  lemma {:induction false} TotalCons(head: string, tail: seq<string>)
    ensures TotalLength([head] + tail) == |head| + TotalLength(tail)
  {
    assert ([head] + tail)[1..] == tail;
  }

  lemma {:induction false} JoinLength(values: seq<string>)
    ensures |Join(values)| == TotalLength(values) + if values == [] then 0 else |values| - 1
  {
    if values != [] { JoinLength(values[1..]); }
  }

  lemma {:induction false} DropEmptyTotal(values: seq<string>)
    ensures TotalLength(DropEmpty(values)) == TotalLength(values)
    ensures |DropEmpty(values)| <= |values|
    ensures |DropEmpty(values)| == |values| <==> values == [] || values[0] != ""
  {
    if values != [] && values[0] == "" { DropEmptyTotal(values[1..]); }
  }

  /** Bare `data` lines are the only data values that the client does not see. */
  lemma {:induction false} BareValues(block: seq<string>)
    ensures TotalLength(StandardValues(block)) == TotalLength(DataValues(block))
    ensures |DataValues(block)| <= |StandardValues(block)|
    ensures |DataValues(block)| == |StandardValues(block)| <==> "data" !in block
    ensures "data" !in block ==> DataValues(block) == StandardValues(block)
  {
    if block != [] {
      var line, rest := block[0], block[1..];
      BareValues(rest);
      assert "data" in block <==> line == "data" || "data" in rest by { assert block == [line] + rest; }
      if IsDataLine(line) {
        var v := DropSpace(Value(line, "data:"));
        TotalCons(v, StandardValues(rest));
        TotalCons(v, DataValues(rest));
      } else {
        TotalCons("", StandardValues(rest));
        assert [] + DataValues(rest) == DataValues(rest) && [] + StandardValues(rest) == StandardValues(rest);
      }
    }
  }

  /** What the client keeps of the data is what the standard keeps exactly if no
      data line is bare and the first data value is non-empty. */
  lemma {:induction false} DataAgrees(block: seq<string>)
    requires StandardValues(block) != []
    ensures (Join(DropEmpty(DataValues(block))) != "" &&
              Join(DropEmpty(DataValues(block))) == Join(StandardValues(block))) <==>
              ("data" !in block && DataValues(block) != [] && DataValues(block)[0] != "")
  {
    var ours, theirs := DataValues(block), StandardValues(block);
    BareValues(block);
    DropEmptyTotal(ours);
    JoinLength(DropEmpty(ours));
    JoinLength(theirs);
    if ours != [] && ours[0] != "" {
      assert DropEmpty(ours) == ours && TotalLength(ours) > 0;
    }
  }

  /** On every block, the client agrees with the standard if and only if there is
      no data at all, or no `data` line is bare, the first data value is non-empty
      and the event names come out the same. */
  lemma {:induction false} AgreesWithStandard(block: seq<string>)
    ensures BlockEvent(block) == StandardEvent(block) <==>
              || StandardValues(block) == []
              || (&& "data" !in block && DataValues(block) != [] && DataValues(block)[0] != ""
                  && Named(LastName("", block)) == Named(StandardName("", block)))
  {
    BareValues(block);
    if StandardValues(block) != [] { DataAgrees(block); }
  }

  /** The lines that name an event for the standard, and the name they give. */
  predicate NamesEvent(line: string) { "event:" <= line || line == "event" }

  function NameGiven(line: string): string
    requires NamesEvent(line)
  {
    if line == "event" then "" else if |line| > 6 && line[6] == ' ' then line[7..] else line[6..]
  }

  lemma {:induction false} NamelessRest(name: string, block: seq<string>)
    requires forall l :: l in block ==> !NamesEvent(l)
    ensures StandardName(name, block) == name && LastName(name, block) == name
    decreases |block|
  {
    if block != [] {
      assert block[0] in block;
      NamelessRest(name, block[1..]);
    }
  }

  /** The last such line of a block gives the event's name. */
  lemma {:induction false} LastLineNames(name: string, before: seq<string>, line: string, rest: seq<string>)
    requires NamesEvent(line) && forall l :: l in rest ==> !NamesEvent(l)
    ensures StandardName(name, before + ([line] + rest)) == NameGiven(line)
    decreases |before|
  {
    var block := before + ([line] + rest);
    if before == [] {
      assert block == [line] + rest && block[1..] == rest;
      assert line != "event" ==> line[..6] == "event:";
      NamelessRest(NameGiven(line), rest);
    } else {
      assert block[0] == before[0] && block[1..] == before[1..] + ([line] + rest);
      var next := if IsEventLine(before[0]) then DropSpace(Value(before[0], "event:"))
                  else if before[0] == "event" then "" else name;
      LastLineNames(next, before[1..], line, rest);
    }
  }
}
