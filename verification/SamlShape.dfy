/**
 The shape check that runs over the raw tokens of a SAML response before the
 response is handed to the SAML library (apps/backend/api/saml.go).  The checker
 is a streaming machine with a stack of open elements; the specification is a
 recursive property of the XML forest that the tokens flatten.
 */
module SamlShape {

  import opened Common

  datatype Name = Name(space: string, local: string)

  /** XML tokens; `Other` stands for character data, comments, directives and
      processing instructions, which the checker skips. */
  datatype Token = Start(name: Name) | End(name: Name) | Other

  datatype Verdict = Accepted | BadRoot | BadStructure | BadAudience | BadAssertionCount | ParseFailed

  const PROTOCOL := "urn:oasis:names:tc:SAML:2.0:protocol"
  const ASSERTION_NS := "urn:oasis:names:tc:SAML:2.0:assertion"
  const RESPONSE := Name(PROTOCOL, "Response")
  const ASSERTION := Name(ASSERTION_NS, "Assertion")
  const ENCRYPTED := Name(ASSERTION_NS, "EncryptedAssertion")
  const RESTRICTION := Name(ASSERTION_NS, "AudienceRestriction")
  const AUDIENCE := Name(ASSERTION_NS, "Audience")

  // ---------------------------------------------------------------- documents

  datatype Node = Element(name: Name, children: seq<Node>) | Text

  /** The token stream of one node and of a forest. */
  function Flatten(n: Node): seq<Token>
    decreases n, 0
  {
    match n
    case Text => [Other]
    case Element(name, children) => [Start(name)] + FlattenAll(children) + [End(name)]
  }

  function FlattenAll(forest: seq<Node>): seq<Token>
    decreases forest, 1
  {
    if forest == [] then [] else Flatten(forest[0]) + FlattenAll(forest[1..])
  }

  /** How many trees of the forest are elements called `name`. */
  function Count(forest: seq<Node>, name: Name): nat {
    if forest == [] then 0
    else (if forest[0].Element? && forest[0].name == name then 1 else 0) + Count(forest[1..], name)
  }

  /** How many children of the forest's roots are elements called `name`. */
  function CountChildren(forest: seq<Node>, name: Name): nat {
    if forest == [] then 0
    else (if forest[0].Element? then Count(forest[0].children, name) else 0) + CountChildren(forest[1..], name)
  }

  /** Every AudienceRestriction, at any depth, has exactly one direct Audience. */
  predicate AudiencesOk(forest: seq<Node>) {
    forest == [] ||
    (&& (forest[0].Element? ==>
           && (forest[0].name == RESTRICTION ==> Count(forest[0].children, AUDIENCE) == 1)
           && AudiencesOk(forest[0].children))
     && AudiencesOk(forest[1..]))
  }

  predicate RootsOk(forest: seq<Node>) {
    forall i :: 0 <= i < |forest| && forest[i].Element? ==> forest[i].name == RESPONSE
  }

  /** What the checker is meant to establish about the document. */
  predicate GoodDocument(forest: seq<Node>) {
    && RootsOk(forest)
    && CountChildren(forest, ASSERTION) == 1
    && CountChildren(forest, ENCRYPTED) == 0
    && AudiencesOk(forest)
  }

  // ------------------------------------------------------------------ machine

  datatype Frame = Frame(name: Name, audiences: nat)

  datatype State = State(frames: seq<Frame>, assertions: nat, encrypted: nat)

  const INITIAL := State([], 0, 0)

  /** The stack after `k` Audience children have opened below its top. */
  function Bump(frames: seq<Frame>, k: nat): seq<Frame> {
    var top := |frames| - 1;
    if top >= 0 && frames[top].name == RESTRICTION
    then frames[top := Frame(RESTRICTION, frames[top].audiences + k)]
    else frames
  }

  function Opened(s: State, name: Name): State {
    State(Bump(s.frames, One(name == AUDIENCE)) + [Frame(name, 0)],
          s.assertions + One(|s.frames| == 1 && name == ASSERTION),
          s.encrypted + One(|s.frames| == 1 && name == ENCRYPTED))
  }

  /** The verdict for the tokens still to come; `complete` is false when the
      decoder reports an error after the last of them instead of end of input. */
  function Run(s: State, tokens: seq<Token>, complete: bool): Verdict
    decreases |tokens|
  {
    if tokens == [] then
      if !complete then ParseFailed
      else if s.frames != [] || s.assertions != 1 || s.encrypted != 0 then BadAssertionCount
      else Accepted
    else
      match tokens[0]
      case Other => Run(s, tokens[1..], complete)
      case Start(name) =>
        if s.frames == [] && name != RESPONSE then BadRoot
        else Run(Opened(s, name), tokens[1..], complete)
      case End(name) =>
        if s.frames == [] || s.frames[|s.frames|-1].name != name then BadStructure
        else if name == RESTRICTION && s.frames[|s.frames|-1].audiences != 1 then BadAudience
        else Run(s.(frames := s.frames[..|s.frames|-1]), tokens[1..], complete)
  }

  /** How far a counter for elements called `name` directly below the root moves
      while a forest goes by at the given depth. */
  function Tally(depth: nat, forest: seq<Node>, name: Name): nat {
    if depth == 0 then CountChildren(forest, name) else if depth == 1 then Count(forest, name) else 0
  }

  /** The state after a whole forest has gone by. */
  function After(s: State, forest: seq<Node>): State {
    State(Bump(s.frames, Count(forest, AUDIENCE)),
          s.assertions + Tally(|s.frames|, forest, ASSERTION),
          s.encrypted + Tally(|s.frames|, forest, ENCRYPTED))
  }

  function Closed(s: State): State
    requires s.frames != []
  {
    s.(frames := s.frames[..|s.frames|-1])
  }

  lemma {:induction false} CountCons(n: Node, rest: seq<Node>, name: Name)
    ensures Count([n] + rest, name) == One(n.Element? && n.name == name) + Count(rest, name)
    ensures CountChildren([n] + rest, name)
              == (if n.Element? then Count(n.children, name) else 0) + CountChildren(rest, name)
  {
    assert ([n] + rest)[1..] == rest;
  }

  lemma {:induction false} CountOne(n: Node, name: Name)
    ensures Count([n], name) == One(n.Element? && n.name == name)
    ensures CountChildren([n], name) == if n.Element? then Count(n.children, name) else 0
  {
    CountCons(n, [], name);
    assert [n] + [] == [n];
  }

  lemma {:induction false} AfterNone(s: State)
    ensures After(s, []) == s && After(s, [Text]) == s
  {
    CountOne(Text, AUDIENCE);
    CountOne(Text, ASSERTION);
    CountOne(Text, ENCRYPTED);
    assert Bump(s.frames, 0) == s.frames;
  }

  lemma {:induction false} AfterElement(s: State, name: Name, children: seq<Node>)
    ensures After(Opened(s, name), children).frames != []
    ensures Closed(After(Opened(s, name), children)) == After(s, [Element(name, children)])
  {
    var n := Element(name, children);
    CountOne(n, AUDIENCE);
    CountOne(n, ASSERTION);
    CountOne(n, ENCRYPTED);
    BumpPush(Bump(s.frames, One(name == AUDIENCE)), Frame(name, 0), Count(children, AUDIENCE));
  }

  lemma {:induction false} BumpPush(frames: seq<Frame>, top: Frame, k: nat)
    ensures |Bump(frames + [top], k)| == |frames| + 1
    ensures Bump(frames + [top], k)[..|frames|] == frames
  {
  }

  lemma {:induction false} AfterCons(s: State, n: Node, rest: seq<Node>)
    ensures After(After(s, [n]), rest) == After(s, [n] + rest)
  {
    CountCons(n, rest, AUDIENCE);
    CountCons(n, rest, ASSERTION);
    CountCons(n, rest, ENCRYPTED);
    CountOne(n, AUDIENCE);
    CountOne(n, ASSERTION);
    CountOne(n, ENCRYPTED);
    var a, b := Count([n], AUDIENCE), Count(rest, AUDIENCE);
    assert Bump(Bump(s.frames, a), b) == Bump(s.frames, a + b);
  }

  /** Peeling the first tree off a flattened forest. */
  lemma {:induction false} FlattenCons(f: seq<Node>, rest: seq<Token>)
    requires f != []
    ensures f[0].Text? ==> FlattenAll(f) + rest == [Other] + (FlattenAll(f[1..]) + rest)
    ensures f[0].Element? ==>
              FlattenAll(f) + rest
              == [Start(f[0].name)] + (FlattenAll(f[0].children) + ([End(f[0].name)] + (FlattenAll(f[1..]) + rest)))
  {
    if f[0].Element? {
      Regroup(Start(f[0].name), FlattenAll(f[0].children), End(f[0].name), FlattenAll(f[1..]), rest);
    } else {
      assert [Other] + FlattenAll(f[1..]) + rest == [Other] + (FlattenAll(f[1..]) + rest);
    }
  }

  lemma {:induction false} Regroup(open: Token, inner: seq<Token>, close: Token, more: seq<Token>, rest: seq<Token>)
    ensures ([open] + inner + [close]) + more + rest == [open] + (inner + ([close] + (more + rest)))
  {
  }

  /** Feeding the tokens of a forest whose restrictions are well formed takes
      the machine to `After`, whatever follows. */
  lemma {:induction false} RunForest(s: State, forest: seq<Node>, rest: seq<Token>, complete: bool)
    requires AudiencesOk(forest)
    requires s.frames == [] ==> RootsOk(forest)
    ensures Run(s, FlattenAll(forest) + rest, complete) == Run(After(s, forest), rest, complete)
    decreases forest
  {
    AfterNone(s);
    if forest == [] {
      assert FlattenAll(forest) + rest == rest;
    } else {
      var n, more := forest[0], forest[1..];
      assert forest == [n] + more;
      var tail := FlattenAll(more) + rest;
      AfterCons(s, n, more);
      FlattenCons(forest, rest);
      if n.Element? {
        RunForest(Opened(s, n.name), n.children, [End(n.name)] + tail, complete);
        AfterElement(s, n.name, n.children);
        assert ([End(n.name)] + tail)[1..] == tail;
      }
      RunForest(After(s, [n]), more, rest, complete);
    }
  }

  /** `forest` is what was read from `tokens`, with `rest` still to come. */
  ghost predicate Read(s: State, tokens: seq<Token>, forest: seq<Node>, rest: seq<Token>) {
    && tokens == FlattenAll(forest) + rest
    && AudiencesOk(forest)
    && (s.frames == [] ==> RootsOk(forest) && rest == [])
    && (s.frames != [] ==> rest != [] && rest[0] == End(s.frames[|s.frames|-1].name))
    && Run(After(s, forest), rest, true) == Accepted
  }

  lemma {:induction false} ReadCons(s: State, tokens: seq<Token>, n: Node, mid: seq<Token>, more: seq<Node>,
      rest: seq<Token>)
    requires n.Text? ==> tokens == [Other] + mid
    requires n.Element? ==> tokens == [Start(n.name)] + (FlattenAll(n.children) + ([End(n.name)] + mid))
    requires s.frames == [] ==> RootsOk([n])
    requires AudiencesOk([n])
    requires Read(After(s, [n]), mid, more, rest)
    ensures Read(s, tokens, [n] + more, rest)
  {
    var forest := [n] + more;
    assert forest[0] == n && forest[1..] == more;
    AfterCons(s, n, more);
    FlattenCons(forest, rest);
  }

  /** Conversely, accepted tokens can be read back as a forest, up to the token
      that closes the innermost open element. */
  lemma {:induction false} ReadForest(s: State, tokens: seq<Token>) returns (forest: seq<Node>, rest: seq<Token>)
    requires Run(s, tokens, true) == Accepted
    ensures Read(s, tokens, forest, rest)
    decreases |tokens|
  {
    AfterNone(s);
    if tokens == [] || tokens[0].End? {
      forest, rest := [], tokens;
      assert FlattenAll([]) + tokens == tokens;
    } else if tokens[0].Other? {
      forest, rest := ReadForest(s, tokens[1..]);
      ReadCons(s, tokens, Text, tokens[1..], forest, rest);
      forest := [Text] + forest;
    } else {
      var name := tokens[0].name;
      var children, mid := ReadForest(Opened(s, name), tokens[1..]);
      ReadElement(s, tokens, children, mid);
      var n := Element(name, children);
      forest, rest := ReadForest(After(s, [n]), mid[1..]);
      ReadCons(s, tokens, n, mid[1..], forest, rest);
      forest := [n] + forest;
    }
  }

  lemma {:induction false} ReadElement(s: State, tokens: seq<Token>, children: seq<Node>, mid: seq<Token>)
    requires tokens != [] && tokens[0].Start?
    requires s.frames == [] ==> tokens[0].name == RESPONSE
    requires Read(Opened(s, tokens[0].name), tokens[1..], children, mid)
    ensures mid != [] && |mid| < |tokens|
    ensures tokens == [tokens[0]] + (FlattenAll(children) + ([End(tokens[0].name)] + mid[1..]))
    ensures AudiencesOk([Element(tokens[0].name, children)])
    ensures s.frames == [] ==> RootsOk([Element(tokens[0].name, children)])
    ensures Run(After(s, [Element(tokens[0].name, children)]), mid[1..], true) == Accepted
  {
    var name := tokens[0].name;
    assert tokens == [Start(name)] + tokens[1..];
    assert mid == [End(name)] + mid[1..];
    AfterElement(s, name, children);
    CountAudiences(Opened(s, name), name, children, mid);
  }

  lemma {:induction false} CountAudiences(o: State, name: Name, children: seq<Node>, mid: seq<Token>)
    requires o.frames != [] && o.frames[|o.frames|-1] == Frame(name, 0)
    requires mid != [] && mid[0] == End(name)
    requires AudiencesOk(children)
    requires Run(After(o, children), mid, true) == Accepted
    ensures AudiencesOk([Element(name, children)])
    ensures Run(Closed(After(o, children)), mid[1..], true) == Accepted
  {
    assert [Element(name, children)][1..] == [];
  }

  /** The tokens determine the forest: the property decided is a property of
      the one document the tokens spell. */
  lemma {:induction false} FlattenInjective(f: seq<Node>, g: seq<Node>, r: seq<Token>, q: seq<Token>)
    requires FlattenAll(f) + r == FlattenAll(g) + q
    requires r == [] || r[0].End?
    requires q == [] || q[0].End?
    ensures f == g && r == q
    decreases f
  {
    assert f == [] ==> FlattenAll(f) + r == r;
    assert g == [] ==> FlattenAll(g) + q == q;
    if f != [] { FlattenCons(f, r); }
    if g != [] { FlattenCons(g, q); }
    if f != [] && g != [] {
      assert (FlattenAll(f) + r)[0] == Flatten(f[0])[0] == Flatten(g[0])[0];
      var fr, gq := FlattenAll(f[1..]) + r, FlattenAll(g[1..]) + q;
      if f[0].Element? {
        var e := [End(f[0].name)];
        TailsEqual([Start(f[0].name)], FlattenAll(f[0].children) + (e + fr),
                   [Start(g[0].name)], FlattenAll(g[0].children) + ([End(g[0].name)] + gq));
        FlattenInjective(f[0].children, g[0].children, e + fr, e + gq);
        TailsEqual(e, fr, e, gq);
      } else {
        TailsEqual([Other], fr, [Other], gq);
      }
      FlattenInjective(f[1..], g[1..], r, q);
      assert f == [f[0]] + f[1..] && g == [g[0]] + g[1..];
    }
  }

  lemma {:induction false} TailsEqual(a: seq<Token>, x: seq<Token>, b: seq<Token>, y: seq<Token>)
    requires |a| == |b| == 1
    requires a + x == b + y
    ensures a == b && x == y
  {
    assert a[0] == (a + x)[0] == b[0];
    assert x == (a + x)[1..] == (b + y)[1..] == y;
  }

  ghost predicate Spells(tokens: seq<Token>, forest: seq<Node>) {
    FlattenAll(forest) == tokens
  }

  /** Streaming versus tree: for every token stream, bracketed or not. */
  lemma {:induction false} AcceptedIffGoodDocument(tokens: seq<Token>)
    ensures Run(INITIAL, tokens, true) == Accepted <==> exists forest :: Spells(tokens, forest) && GoodDocument(forest)
    ensures forall f, g :: Spells(tokens, f) && Spells(tokens, g) ==> f == g
  {
    if Run(INITIAL, tokens, true) == Accepted {
      var forest, rest := ReadForest(INITIAL, tokens);
      assert FlattenAll(forest) + rest == FlattenAll(forest);
      assert Spells(tokens, forest) && GoodDocument(forest);
    }
    forall forest | Spells(tokens, forest) && GoodDocument(forest)
      ensures Run(INITIAL, tokens, true) == Accepted
    {
      RunForest(INITIAL, forest, [], true);
      assert FlattenAll(forest) + [] == tokens;
    }
    forall f, g | Spells(tokens, f) && Spells(tokens, g) ensures f == g {
      FlattenInjective(f, g, [], []);
    }
  }

  /** A document that cannot be read to its end is never accepted. */
  lemma {:induction false} IncompleteIsRejected(s: State, tokens: seq<Token>)
    ensures Run(s, tokens, false) != Accepted
    decreases |tokens|
  {
    if tokens != [] {
      match tokens[0]
      case Other => IncompleteIsRejected(s, tokens[1..]);
      case Start(name) => IncompleteIsRejected(Opened(s, name), tokens[1..]);
      case End(name) => if s.frames != [] { IncompleteIsRejected(Closed(s), tokens[1..]); }
    }
  }

  /** The token loop of requireSinglePlaintextAssertion. */
  method CheckShape(tokens: seq<Token>, complete: bool) returns (verdict: Verdict)
    ensures verdict == Accepted <==> complete && exists forest :: Spells(tokens, forest) && GoodDocument(forest)
    ensures verdict == Run(INITIAL, tokens, complete)
  {
    AcceptedIffGoodDocument(tokens);
    if !complete {
      IncompleteIsRejected(INITIAL, tokens);
    }
    var frames: seq<Frame> := [];
    var assertions, encrypted: nat := 0, 0;
    var i := 0;
    while i < |tokens|
      invariant 0 <= i <= |tokens|
      invariant Run(State(frames, assertions, encrypted), tokens[i..], complete) == Run(INITIAL, tokens, complete)
    {
      var depth := |frames|;
      ghost var s := State(frames, assertions, encrypted);
      assert tokens[i..][1..] == tokens[i+1..];
      match tokens[i] {
        case Start(name) =>
          if depth == 0 && (name.local != "Response" || name.space != PROTOCOL) {
            return BadRoot;
          }
          if depth == 1 && name.space == ASSERTION_NS {
            if name.local == "Assertion" {
              assertions := assertions + 1;
            } else if name.local == "EncryptedAssertion" {
              encrypted := encrypted + 1;
            }
          }
          if depth > 0 && frames[depth-1].name == RESTRICTION && name == AUDIENCE {
            frames := frames[depth-1 := frames[depth-1].(audiences := frames[depth-1].audiences + 1)];
          }
          frames := frames + [Frame(name, 0)];
          assert Bump(s.frames, 0) == s.frames;
          assert State(frames, assertions, encrypted) == Opened(s, name);
        case End(name) =>
          if depth == 0 || frames[depth-1].name != name {
            return BadStructure;
          }
          if name == RESTRICTION && frames[depth-1].audiences != 1 {
            return BadAudience;
          }
          frames := frames[..depth-1];
        case Other =>
      }
      i := i + 1;
    }
    if !complete {
      return ParseFailed;
    }
    if |frames| != 0 || assertions != 1 || encrypted != 0 {
      return BadAssertionCount;
    }
    return Accepted;
  }

  // ------------------------------------------------------ reasons for rejection

  /** The token behind a forest without fault decides, if it is at fault: a root
      that is no Response, an end that nothing or another element opened, or the
      end of a restriction without exactly one Audience. */
  lemma {:induction false} FirstFault(s: State, forest: seq<Node>, t: Token, rest: seq<Token>, complete: bool)
    requires AudiencesOk(forest) && (s.frames == [] ==> RootsOk(forest))
    ensures var v := Run(s, FlattenAll(forest) + ([t] + rest), complete);
            var top := |s.frames| - 1;
            && (t.Start? && s.frames == [] && t.name != Name("urn:oasis:names:tc:SAML:2.0:protocol", "Response") ==>
                  v == BadRoot)
            && (t.End? && (s.frames == [] || s.frames[top].name != t.name) ==> v == BadStructure)
            && (t.End? && s.frames != [] && s.frames[top].name == t.name
                && t.name == Name("urn:oasis:names:tc:SAML:2.0:assertion", "AudienceRestriction")
                && s.frames[top].audiences + Count(forest, AUDIENCE) != 1 ==>
                  v == BadAudience)
  {
    RunForest(s, forest, [t] + rest, complete);
    assert ([t] + rest)[1..] == rest;
  }

  /** Input that ends behind a forest without fault. */
  lemma {:induction false} EndOfInput(forest: seq<Node>, complete: bool)
    requires AudiencesOk(forest) && RootsOk(forest)
    ensures Run(INITIAL, FlattenAll(forest), complete) ==
              if !complete then ParseFailed
              else if CountChildren(forest, ASSERTION) == 1 && CountChildren(forest, ENCRYPTED) == 0 then Accepted
              else BadAssertionCount
  {
    RunForest(INITIAL, forest, [], complete);
    assert FlattenAll(forest) + [] == FlattenAll(forest);
  }

  /** Input that ends inside an element. */
  lemma {:induction false} EndInside(s: State, forest: seq<Node>, complete: bool)
    requires AudiencesOk(forest) && s.frames != []
    ensures Run(s, FlattenAll(forest), complete) == if complete then BadAssertionCount else ParseFailed
  {
    RunForest(s, forest, [], complete);
    assert FlattenAll(forest) + [] == FlattenAll(forest);
  }

  function Saml(local: string, children: seq<Node>): Node {
    Element(Name("urn:oasis:names:tc:SAML:2.0:assertion", local), children)
  }

  function Many(n: nat, node: Node): seq<Node> { if n == 0 then [] else [node] + Many(n - 1, node) }

  /** A response with some assertions, encrypted assertions and audiences. */
  function Sample(assertions: nat, encrypted: nat, audiences: nat): Node {
    var restriction := Saml("AudienceRestriction", Many(audiences, Saml("Audience", [Text])));
    Element(Name("urn:oasis:names:tc:SAML:2.0:protocol", "Response"),
            Many(assertions, Saml("Assertion", [Saml("Conditions", [restriction])]))
            + Many(encrypted, Saml("EncryptedAssertion", [])))
  }

  lemma {:induction false} CountMany(n: nat, node: Node, name: Name)
    ensures Count(Many(n, node), name) == if node.Element? && node.name == name then n else 0
    ensures n > 0 ==> (AudiencesOk(Many(n, node)) <==> AudiencesOk([node]))
  {
    if n > 0 {
      CountMany(n - 1, node, name);
      assert Many(n, node)[1..] == Many(n - 1, node) && [node][1..] == [];
    }
  }

  lemma {:induction false} CountConcat(a: seq<Node>, b: seq<Node>, name: Name)
    ensures Count(a + b, name) == Count(a, name) + Count(b, name)
    ensures AudiencesOk(a + b) <==> AudiencesOk(a) && AudiencesOk(b)
  {
    if a == [] {
      assert a + b == b;
    } else {
      CountConcat(a[1..], b, name);
      assert (a + b)[0] == a[0] && (a + b)[1..] == a[1..] + b;
    }
  }

  lemma {:induction false} SampleRestriction(audiences: nat)
    ensures AudiencesOk([Saml("Conditions", [Saml("AudienceRestriction", Many(audiences, Saml("Audience", [Text])))])])
            <==> audiences == 1
  {
    var audience := Saml("Audience", [Text]);
    var restriction := Saml("AudienceRestriction", Many(audiences, audience));
    CountMany(audiences, audience, AUDIENCE);
    assert AudiencesOk([Text]) by { assert [Text][1..] == []; }
    assert AudiencesOk([audience]) by { assert [audience][1..] == []; }
    assert AudiencesOk([restriction]) <==> audiences == 1 by { assert [restriction][1..] == []; }
    assert [Saml("Conditions", [restriction])][1..] == [];
  }

  /** Such a response is good if and only if it has one assertion, none encrypted,
      and one audience. */
  lemma {:induction false} SampleGood(assertions: nat, encrypted: nat, audiences: nat)
    ensures GoodDocument([Sample(assertions, encrypted, audiences)]) <==>
              assertions == 1 && encrypted == 0 && audiences == 1
  {
    var restriction := Saml("AudienceRestriction", Many(audiences, Saml("Audience", [Text])));
    var assertion := Saml("Assertion", [Saml("Conditions", [restriction])]);
    var sample := Sample(assertions, encrypted, audiences);
    SampleRestriction(audiences);
    CountMany(assertions, assertion, ASSERTION);
    CountMany(assertions, assertion, ENCRYPTED);
    CountMany(encrypted, Saml("EncryptedAssertion", []), ASSERTION);
    CountMany(encrypted, Saml("EncryptedAssertion", []), ENCRYPTED);
    CountConcat(Many(assertions, assertion), Many(encrypted, Saml("EncryptedAssertion", [])), ASSERTION);
    CountConcat(Many(assertions, assertion), Many(encrypted, Saml("EncryptedAssertion", [])), ENCRYPTED);
    assert [sample][1..] == [] && [assertion][1..] == [];
    assert AudiencesOk([assertion]) <==> audiences == 1;
    assert AudiencesOk([Saml("EncryptedAssertion", [])]) by { assert [Saml("EncryptedAssertion", [])][1..] == []; }
    assert CountChildren([sample], ASSERTION) == assertions;
    assert CountChildren([sample], ENCRYPTED) == encrypted;
  }
}
