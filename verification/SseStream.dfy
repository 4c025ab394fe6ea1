/**
 Whole streams of characters as the SSE client (integrations/alga-agent-sdk-go/sse.go)
 and section 9.2.6 of the WHATWG HTML Standard read them.
 */
module SseStream {

  import opened Common
  import opened SseParser

  const BOM := '\U{FEFF}'

  predicate HasBom(s: string) { s != "" && s[0] == BOM }

  /** The standard drops a leading byte order mark. */
  function WithoutBom(s: string): string { if HasBom(s) then s[1..] else s }

  predicate Ends(c: char) { c == '\r' || c == '\n' }

  /** The index of the first CR or LF, or the length. */
  function EndAt(s: string): (i: nat)
    ensures i <= |s|
    ensures i < |s| ==> Ends(s[i])
  {
    if s == "" || Ends(s[0]) then 0 else 1 + EndAt(s[1..])
  }

  /** Where the next line starts: behind CR LF, LF or CR, or at the end. */
  function NextAt(s: string): (n: nat)
    ensures n <= |s| && (s != "" ==> n > 0)
  {
    var i := EndAt(s);
    if i == |s| then i
    else if s[i] == '\r' && i + 1 < |s| && s[i+1] == '\n' then i + 2
    else i + 1
  }

  function StandardLines(s: string): seq<string>
    decreases |s|
  {
    if s == "" then [] else [s[..EndAt(s)]] + StandardLines(s[NextAt(s)..])
  }

  function StandardBlocks(lines: seq<string>): seq<Event> { BlocksBy(StandardEvent, lines) }

  /** What the client and the standard make of a stream of characters. */
  function ClientStream(s: string): seq<Event> { Blocks(ScanLines(s)) }

  function StandardStream(s: string): seq<Event> { StandardBlocks(StandardLines(WithoutBom(s))) }

  /** A CR with another character than LF behind it. */
  predicate LoneAt(s: string, i: int) { 0 <= i && i + 1 < |s| && s[i] == '\r' && s[i+1] != '\n' }

  predicate LoneCR(s: string) { exists i :: 0 <= i < |s| && LoneAt(s, i) }

  // ------------------------------------------------------------- the same lines

  lemma {:induction false} NoLoneSuffix(s: string, n: nat)
    requires n <= |s| && !LoneCR(s)
    ensures !LoneCR(s[n..])
  {
    forall i | 0 <= i < |s[n..]|
      ensures !LoneAt(s[n..], i)
    {
      assert LoneAt(s[n..], i) <==> LoneAt(s, i + n);
    }
  }

  /** Without lone CRs, the first line end is that of the client, or the CR before it. */
  lemma {:induction false} SameEnd(s: string)
    requires !LoneCR(s)
    ensures EndAt(s) < |s| && s[EndAt(s)] == '\r' ==> LineEnd(s) == EndAt(s) + 1
    ensures !(EndAt(s) < |s| && s[EndAt(s)] == '\r') ==> LineEnd(s) == EndAt(s)
    ensures '\r' !in s[..EndAt(s)]
  {
    if s != "" {
      if !Ends(s[0]) {
        NoLoneSuffix(s, 1);
        SameEnd(s[1..]);
        assert s[..EndAt(s)] == [s[0]] + s[1..][..EndAt(s)-1];
      } else if s[0] == '\r' {
        assert !LoneAt(s, 0);
        if |s| > 1 { assert s[1..][0] == '\n'; }
      }
    }
  }

  lemma {:induction false} StripEnd(s: string, i: nat)
    requires i < |s| && s[i] == '\r'
    ensures StripCR(s[..i+1]) == s[..i]
  {
    assert s[..i+1][..i] == s[..i];
  }

  lemma {:induction false} ScanRest(s: string)
    requires s != ""
    ensures ScanLines(s) == [StripCR(s[..LineEnd(s)])] + (if LineEnd(s) < |s| then ScanLines(s[LineEnd(s)+1..]) else [])
  {
  }

  lemma {:induction false} ScanStep(s: string)
    requires s != "" && !LoneCR(s)
    ensures ScanLines(s) == [s[..EndAt(s)]] + ScanLines(s[NextAt(s)..])
  {
    var i := EndAt(s);
    SameEnd(s);
    ScanRest(s);
    assert s[|s|..] == "" && ScanLines("") == [];
    if i < |s| && s[i] == '\r' {
      StripEnd(s, i);
    } else {
      assert StripCR(s[..i]) == s[..i];
    }
  }

  lemma {:induction false} SameLines(s: string)
    requires !LoneCR(s)
    ensures StandardLines(s) == ScanLines(s)
    decreases |s|
  {
    if s != "" {
      ScanStep(s);
      NoLoneSuffix(s, NextAt(s));
      SameLines(s[NextAt(s)..]);
    }
  }

  lemma {:induction false} EndAtFirst(s: string, k: nat)
    requires k < EndAt(s)
    ensures !Ends(s[k])
  {
    if k > 0 { EndAtFirst(s[1..], k - 1); }
  }

  lemma {:induction false} StandardHasNoCR(s: string, l: string, k: nat)
    requires l in StandardLines(s) && k < |l|
    ensures l[k] != '\r'
    decreases |s|
  {
    if l == s[..EndAt(s)] {
      EndAtFirst(s, k);
    } else {
      StandardHasNoCR(s[NextAt(s)..], l, k);
    }
  }

  lemma {:induction false} LoneInLine(s: string, i: nat, k: nat)
    requires LoneAt(s, k) && k < i <= |s| && (i < |s| ==> s[i] == '\n')
    ensures k < |StripCR(s[..i])| && StripCR(s[..i])[k] == '\r'
  {
    assert k + 1 < i;
  }

  lemma {:induction false} ClientKeepsLone(s: string, k: nat) returns (l: string, j: nat)
    requires LoneAt(s, k)
    ensures l in ScanLines(s) && j < |l| && l[j] == '\r'
    decreases |s|
  {
    var i := LineEnd(s);
    ScanRest(s);
    if k < i {
      LoneInLine(s, i, k);
      l, j := StripCR(s[..i]), k;
    } else {
      var rest := s[i+1..];
      assert k != i && LoneAt(rest, k - i - 1);
      l, j := ClientKeepsLone(rest, k - i - 1);
    }
  }

  lemma {:induction false} StripAfter(c: char, line: string)
    requires c != '\r'
    ensures |StripCR([c] + line)| == 1 + |StripCR(line)|
  {
  }

  lemma {:induction false} BomStays(s: string)
    requires HasBom(s)
    ensures ScanLines(s) != ScanLines(s[1..])
  {
    var i := LineEnd(s);
    ScanRest(s);
    if |s| > 1 {
      ScanRest(s[1..]);
      assert s[..i] == [BOM] + s[1..][..i-1];
      StripAfter(BOM, s[1..][..i-1]);
      assert |ScanLines(s)[0]| == 1 + |ScanLines(s[1..])[0]|;
    }
  }

  /** Client and standard cut a stream into the same lines if and only if it has
      no leading byte order mark and every CR is followed by LF or ends it. */
  lemma {:induction false} SameLinesIff(s: string)
    ensures ScanLines(s) == StandardLines(WithoutBom(s)) <==> !LoneCR(s) && !HasBom(s)
  {
    if k :| 0 <= k < |s| && LoneAt(s, k) {
      var l, j := ClientKeepsLone(s, k);
      if l in StandardLines(WithoutBom(s)) { StandardHasNoCR(WithoutBom(s), l, j); }
    } else {
      SameLines(s);
      if HasBom(s) {
        NoLoneSuffix(s, 1);
        SameLines(s[1..]);
        BomStays(s);
      }
    }
  }

  // ------------------------------------------------------------ the same events

  /** `f` and `g` make the same of every block that a blank line terminates. */
  predicate AgreeBy(f: seq<string> -> seq<Event>, g: seq<string> -> seq<Event>, lines: seq<string>)
    decreases |lines|
  {
    var i := BlankAt(lines);
    i < |lines| ==> f(lines[..i]) == g(lines[..i]) && AgreeBy(f, g, lines[i+1..])
  }

  predicate AllAgree(lines: seq<string>) { AgreeBy(BlockEvent, StandardEvent, lines) }

  lemma {:induction false} SameSplit<T>(a: seq<T>, b: seq<T>, c: seq<T>, d: seq<T>)
    requires |a| <= |c| && |b| <= |d|
    ensures a + b == c + d <==> a == c && b == d
  {
    if a + b == c + d {
      assert |a| == |c|;
      assert a == (a + b)[..|a|] && b == (a + b)[|a|..];
    }
  }

  lemma {:induction false} SameBy(f: seq<string> -> seq<Event>, g: seq<string> -> seq<Event>, lines: seq<string>)
    requires forall block :: |f(block)| <= |g(block)|
    ensures BlocksBy(f, lines) == BlocksBy(g, lines) <==> AgreeBy(f, g, lines)
    ensures |BlocksBy(f, lines)| <= |BlocksBy(g, lines)|
    decreases |lines|
  {
    var i := BlankAt(lines);
    if i < |lines| {
      var block, rest := lines[..i], lines[i+1..];
      SameBy(f, g, rest);
      SameSplit(f(block), BlocksBy(f, rest), g(block), BlocksBy(g, rest));
    }
  }

  lemma {:induction false} FewerEvents(block: seq<string>)
    ensures |BlockEvent(block)| <= |StandardEvent(block)|
  {
    BareValues(block);
  }

  lemma {:induction false} BlocksAgree(lines: seq<string>)
    ensures Blocks(lines) == StandardBlocks(lines) <==> AllAgree(lines)
  {
    forall block ensures |BlockEvent(block)| <= |StandardEvent(block)| { FewerEvents(block); }
    SameBy(BlockEvent, StandardEvent, lines);
  }

  /** On a stream that both cut into the same lines, they dispatch the same events
      if and only if they agree on every block. */
  lemma {:induction false} StreamAgrees(s: string)
    requires !LoneCR(s) && !HasBom(s)
    ensures ClientStream(s) == StandardStream(s) <==> AllAgree(ScanLines(s))
  {
    SameLinesIff(s);
    BlocksAgree(ScanLines(s));
  }

  // ------------------------------------------------------- streams that are not

  /** Text without line ends. */
  predicate OneLiner(s: string) { forall k :: 0 <= k < |s| ==> !Ends(s[k]) }

  lemma {:induction false} EndAtOf(line: string, rest: string)
    requires OneLiner(line) && (rest != "" ==> Ends(rest[0]))
    ensures EndAt(line + rest) == |line|
  {
    if line == "" {
      assert line + rest == rest;
    } else {
      assert (line + rest)[1..] == line[1..] + rest;
      EndAtOf(line[1..], rest);
    }
  }

  /** One line of the standard, ended by LF or a lone CR. */
  lemma {:induction false} StandardOne(line: string, end: char, rest: string)
    requires OneLiner(line) && Ends(end) && (end == '\r' ==> rest == "" || rest[0] != '\n')
    ensures StandardLines(line + ([end] + rest)) == [line] + StandardLines(rest)
  {
    var s := line + ([end] + rest);
    EndAtOf(line, [end] + rest);
    assert rest != "" ==> s[|line|+1] == rest[0];
    assert s[..|line|] == line && s[|line|+1..] == rest;
  }

  /** The lines of a block with the blank line behind it. */
  lemma {:induction false} OneBlockBy(f: seq<string> -> seq<Event>, block: seq<string>)
    requires "" !in block
    ensures BlocksBy(f, block + [""]) == f(block)
  {
    var lines := block + [""];
    assert [""] + [] == [""];
    BlankAtEnd(block, []);
    assert lines[..|block|] == block && lines[|block|+1..] == [];
    assert BlocksBy(f, []) == [] && f(block) + [] == f(block);
  }

  lemma {:induction false} OneBlock(block: seq<string>)
    requires "" !in block
    ensures Blocks(block + [""]) == BlockEvent(block) && StandardBlocks(block + [""]) == StandardEvent(block)
  {
    OneBlockBy(BlockEvent, block);
    OneBlockBy(StandardEvent, block);
  }

  /** A data line, with at most a comment behind it, leaves the event unnamed. */
  lemma {:induction false} DataIsNameless(line: string, rest: seq<string>)
    requires IsDataLine(line) && (rest == [] || rest == [":"])
    ensures LastName("", [line] + rest) == "" && StandardName("", [line] + rest) == ""
  {
    var block := [line] + rest;
    assert line[0] == 'd' && block[1..] == rest;
    assert !IsEventLine(line) && line != "event";
    assert rest != [] ==> rest[1..] == [] && !IsEventLine(rest[0]);
    assert LastName("", rest) == "" && StandardName("", rest) == "";
  }

  lemma {:induction false} DataOnly(l: string)
    requires l != ""
    ensures BlockEvent(["data: " + l]) == [Event("message", l)]
    ensures StandardEvent(["data: " + l]) == [Event("message", l)]
    ensures StandardEvent(["data: " + l] + [":"]) == [Event("message", l)]
  {
    var line: string := "data: " + l;
    var rest: seq<string> := [":"];
    DataLine(l);
    LineKinds(line);
    assert [line][1..] == [] && ([line] + rest)[1..] == rest && rest[1..] == [];
    assert DataValues([line]) == [l] && StandardValues([line]) == [l];
    assert StandardValues(rest) == [] && StandardValues([line] + rest) == [l];
    DataIsNameless(line, []);
    DataIsNameless(line, rest);
    assert [line] + [] == [line];
    assert DropEmpty([l]) == [l] && Join([l]) == l;
  }

  /** A line and a blank one, each ended by LF. */
  function Ended(line: string): string { line + "\n" + "\n" }

  lemma {:induction false} ScanEnded(line: string)
    requires '\n' !in line && !EndsInCR(line)
    ensures ScanLines(Ended(line)) == [line] + [""]
  {
    ScanOne(line, "\n");
    assert "\n" + "" == "\n";
    ScanBlank("");
    assert ScanLines("") == [] && [""] + [] == [""];
  }

  lemma {:induction false} EmptyThen(s: string)
    ensures "" + s == s
  {
  }

  lemma {:induction false} StandardEnded(line: string)
    requires OneLiner(line)
    ensures StandardLines(Ended(line)) == [line] + [""]
  {
    StandardOne(line, '\n', ['\n'] + "");
    EmptyThen(['\n'] + "");
    StandardOne("", '\n', "");
    assert Ended(line) == line + (['\n'] + (['\n'] + ""));
    assert [""] + StandardLines("") == [""];
  }

  /** A stream of one block, as both cut it into lines. */
  lemma {:induction false} StreamOfOne(s: string, ours: seq<string>, theirs: seq<string>)
    requires "" !in ours && "" !in theirs
    requires ScanLines(s) == ours + [""] && StandardLines(WithoutBom(s)) == theirs + [""]
    ensures ClientStream(s) == BlockEvent(ours) && StandardStream(s) == StandardEvent(theirs)
  {
    OneBlock(ours);
    OneBlock(theirs);
  }

  lemma {:induction false} MarkedLine(line: string)
    ensures BlockEvent([[BOM] + line]) == []
  {
    var marked: string := [BOM] + line;
    assert marked[0] == BOM;
    assert !IsDataLine(marked) && [marked][1..] == [];
    assert DataValues([marked]) == [];
  }

  lemma {:induction false} OneLinerData(l: string)
    requires OneLiner(l)
    ensures OneLiner("data: " + l) && OneLiner([BOM] + ("data: " + l))
  {
  }

  lemma {:induction false} MarkedLines(line: string)
    requires OneLiner(line) && OneLiner([BOM] + line)
    ensures ScanLines([BOM] + Ended(line)) == [[BOM] + line] + [""]
    ensures StandardLines(WithoutBom([BOM] + Ended(line))) == [line] + [""]
  {
    var marked: string := [BOM] + line;
    assert '\n' !in marked && !EndsInCR(marked);
    ScanEnded(marked);
    StandardEnded(line);
    assert [BOM] + Ended(line) == Ended(marked);
    assert ([BOM] + Ended(line))[1..] == Ended(line);
  }

  /** A byte order mark hides the first line from the client. */
  lemma {:induction false} BomMatters(l: string)
    requires OneLiner(l) && l != ""
    ensures ClientStream([BOM] + Ended("data: " + l)) == []
    ensures StandardStream([BOM] + Ended("data: " + l)) == [Event("message", l)]
  {
    var line := "data: " + l;
    OneLinerData(l);
    MarkedLines(line);
    StreamOfOne([BOM] + Ended(line), [[BOM] + line], [line]);
    MarkedLine(line);
    DataOnly(l);
  }

  /** One line for the client; a line and a comment for the standard. */
  function WithLoneCR(l: string): string { Ended("data: " + (l + "\r:")) }

  lemma {:induction false} LoneClient(l: string)
    requires OneLiner(l)
    ensures ScanLines(WithLoneCR(l)) == ["data: " + (l + "\r:")] + [""]
  {
    var line := "data: " + (l + "\r:");
    assert line[|line|-1] == ':';
    assert '\n' !in l + "\r:";
    ScanEnded(line);
  }

  lemma {:induction false} LoneStandard(l: string)
    requires OneLiner(l)
    ensures StandardLines(WithLoneCR(l)) == (["data: " + l] + [":"]) + [""]
    ensures WithLoneCR(l)[0] == 'd'
  {
    var first := "data: " + l;
    OneLinerData(l);
    assert WithLoneCR(l) == first + (['\r'] + Ended(":"));
    StandardOne(first, '\r', Ended(":"));
    StandardEnded(":");
    Associate([first], [":"], [""]);
  }

  /** A lone CR ends a line for the standard and is data for the client. */
  lemma {:induction false} LoneCRMatters(l: string)
    requires OneLiner(l) && l != ""
    ensures ClientStream(WithLoneCR(l)) == [Event("message", l + "\r:")]
    ensures StandardStream(WithLoneCR(l)) == [Event("message", l)]
  {
    LoneClient(l);
    LoneStandard(l);
    StreamOfOne(WithLoneCR(l), ["data: " + (l + "\r:")], ["data: " + l] + [":"]);
    DataOnly(l + "\r:");
    DataOnly(l);
  }
}
