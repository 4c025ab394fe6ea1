/**
 The post-mortem workflow (apps/backend/api/postmortem.go over the store of
 apps/backend/store/postmortem.go).  A handler first reads the record and checks
 the request against it, and writes later; other requests may run in between.
 */
module PostMortem {

  import opened Common

  datatype Status = Draft | InReview | Approved | Published

  /** validPostMortemTransitions */
  predicate Transition(from: Status, to: Status) {
    match from
    case Draft => to == InReview
    case InReview => to == Draft || to == Approved
    case Approved => to == InReview || to == Published
    case Published => false
  }

  /** A write as the store saw it: a new status, whether the record was confirmed
      blameless then, and the approver given with it; or an edit, the status it
      wrote back, and the confirmation if the request set one. */
  datatype Change =
    | Moved(to: Status, blameless: bool, approver: Option<string>)
    | Edited(to: Status, confirm: Option<bool>)

  datatype Record = Record(
    id: nat,
    status: Status,
    fields: map<string, string>,
    blameless: bool,
    approvedBy: Option<string>,
    publishedAt: Option<nat>,
    log: seq<Change>)

  datatype Request =
    | Create(incident: string, fields: map<string, string>, blameless: bool)
    | Patch(incident: string, fields: map<string, string>, confirm: Option<bool>)
    | Move(incident: string, to: Status)               // submit, revert, publish
    | Approve(incident: string, approver: Option<string>)
    | Delete(incident: string)

  /** What a handler does once its checks have passed; `seen` is the record it
      read. */
  datatype Write =
    | Insert(incident: string, fields: map<string, string>, blameless: bool)
    | Update(incident: string, seen: Record, fields: map<string, string>, confirm: Option<bool>)
    | SetStatus(incident: string, seen: Record, to: Status, approver: Option<string>)
    | Remove(incident: string, id: nat)

  type Records = map<string, Record>

  // ---------------------------------------------------------------- the handlers

  /** Reading and checking; `None` is an error response. */
  function Checked(records: Records, q: Request): Option<Write> {
    match q
    case Create(inc, fields, blameless) => Some(Insert(inc, fields, blameless))
    case Patch(inc, fields, confirm) =>
      if inc !in records || records[inc].status == Published then None
      else
        var r := records[inc];
        Some(Update(inc, r, r.fields + fields, confirm))
    case Move(inc, to) =>
      if inc !in records then None
      else if to == InReview && !records[inc].blameless then None
      else if !Transition(records[inc].status, to) then None
      else Some(SetStatus(inc, records[inc], to, None))
    case Approve(inc, approver) =>
      if inc !in records || !Transition(records[inc].status, Approved) then None
      else Some(SetStatus(inc, records[inc], Approved, approver))
    case Delete(inc) => if inc !in records then None else Some(Remove(inc, records[inc].id))
  }

  /** The store's write, by record id. */
  function Written(records: Records, clock: nat, w: Write): Records {
    match w
    case Insert(inc, fields, blameless) =>
      if inc in records then records
      else records[inc := Record(clock, Draft, fields, blameless, None, None, [])]
    case Update(inc, seen, fields, confirm) =>
      if inc !in records || records[inc].id != seen.id then records
      else
        var r := records[inc];
        records[inc := r.(status := seen.status, fields := fields, approvedBy := seen.approvedBy,
                          blameless := if confirm.Some? then confirm.value else seen.blameless,
                          log := r.log + [Edited(seen.status, confirm)])]
    case SetStatus(inc, seen, to, approver) =>
      if inc !in records || records[inc].id != seen.id then records
      else
        var r := records[inc];
        records[inc := r.(status := to, approvedBy := if approver.Some? then approver else r.approvedBy,
                          publishedAt := if to == Published then Some(clock) else r.publishedAt,
                          log := r.log + [Moved(to, r.blameless, approver)])]
    case Remove(inc, id) =>
      if inc in records && records[inc].id == id then records - {inc} else records
  }

  // --------------------------------------------------------------------- system

  /** `asked` holds the requests of the pending writes.  The clock moves with every
      write, and numbers new records. */
  datatype State = State(records: Records, pending: map<nat, Write>, asked: map<nat, Request>, clock: nat)

  const INITIAL := State(map[], map[], map[], 0)

  /** A request is read and checked, or its write is carried out. */
  datatype Step = Begin(k: nat, request: Request) | Finish(k: nat)

  function Next(s: State, step: Step): State {
    match step
    case Begin(k, q) =>
      (match Checked(s.records, q)
       case None => s
       case Some(w) => if k in s.pending then s else s.(pending := s.pending[k := w], asked := s.asked[k := q]))
    case Finish(k) =>
      if k !in s.pending then s
      else State(Written(s.records, s.clock, s.pending[k]), s.pending - {k}, s.asked - {k}, s.clock + 1)
  }

  function Exec(s: State, steps: seq<Step>): State
    decreases |steps|
  {
    if steps == [] then s else Exec(Next(s, steps[0]), steps[1..])
  }

  /** The write finds the record as its handler read it. */
  predicate UpToDate(s: State, w: Write) {
    (w.Update? || w.SetStatus?) ==> w.incident in s.records && s.records[w.incident] == w.seen
  }

  predicate StepUpToDate(s: State, step: Step) {
    step.Finish? && step.k in s.pending ==> UpToDate(s, s.pending[step.k])
  }

  /** No write of the run is based on a stale read; runs of handlers as atomic
      steps are of this kind. */
  predicate NoStaleWrite(s: State, steps: seq<Step>)
    decreases |steps|
  {
    steps == [] || (StepUpToDate(s, steps[0]) && NoStaleWrite(Next(s, steps[0]), steps[1..]))
  }

  // ------------------------------------------------------------------ provenance

  /** The status a log leads to from a new draft, if every entry was permitted. */
  function Replay(log: seq<Change>): Option<Status> {
    if log == [] then Some(Draft)
    else
      var before := Replay(log[..|log|-1]);
      match log[|log|-1]
      case Edited(to, _) => if before == Some(to) && to != Published then before else None
      case Moved(to, blameless, _) =>
        if before.Some? && Transition(before.value, to) && (to == InReview ==> blameless) then Some(to) else None
  }

  /** The last approver that a log names. */
  function Approver(log: seq<Change>): Option<string> {
    if log == [] then None
    else
      var last := log[|log|-1];
      if last.Moved? && last.approver.Some? then last.approver else Approver(log[..|log|-1])
  }

  predicate EntersReview(c: Change) { c.Moved? && c.to == InReview }

  predicate Confirms(c: Change) { c.Edited? && c.confirm.Some? }

  /** Entry `j` clears the confirmation, and nothing sets it or enters into review
      later. */
  ghost predicate WithdrawsAt(log: seq<Change>, j: nat) {
    && j < |log| && log[j].Edited? && log[j].confirm == Some(false)
    && forall k :: j < k < |log| ==> !EntersReview(log[k]) && !Confirms(log[k])
  }

  /** The last edit of the confirmation after the last entry into review, if there
      is one, cleared it. */
  ghost predicate Withdrawn(log: seq<Change>) { exists j: nat :: WithdrawsAt(log, j) }

  ghost predicate Entered(log: seq<Change>) { exists i :: 0 <= i < |log| && EntersReview(log[i]) }

  /** The record is what its log says. */
  ghost predicate Consistent(r: Record) {
    && Replay(r.log) == Some(r.status)
    && r.approvedBy == Approver(r.log)
    && (r.status != Draft ==> Entered(r.log))
    && (Entered(r.log) ==> (r.blameless <==> !Withdrawn(r.log)))
    && (r.publishedAt.Some? <==> r.status == Published)
  }

  /** A write that passed the checks. */
  ghost predicate Sound(w: Write) {
    match w
    case Update(_, seen, _, _) => seen.status != Published
    case SetStatus(_, seen, to, approver) =>
      Transition(seen.status, to) && (to == InReview ==> seen.blameless) && (to == Published ==> approver == None)
    case _ => true
  }

  ghost predicate Inv(s: State) {
    && (forall inc :: inc in s.records ==> Consistent(s.records[inc]) && s.records[inc].id < s.clock)
    && (forall k :: k in s.pending ==> Sound(s.pending[k]))
  }

  lemma {:induction false} ReplaySnoc(log: seq<Change>, c: Change)
    ensures Replay(log + [c]) ==
              if Replay(log).None? then None
              else if c.Edited? then (if Replay(log) == Some(c.to) && c.to != Published then Some(c.to) else None)
              else if Transition(Replay(log).value, c.to) && (c.to == InReview ==> c.blameless)
              then Some(c.to) else None
    ensures Approver(log + [c]) == if c.Moved? && c.approver.Some? then c.approver else Approver(log)
  {
    assert (log + [c])[..|log|] == log;
  }

  lemma {:induction false} WithdrawnSnoc(log: seq<Change>, c: Change)
    ensures Withdrawn(log + [c]) <==>
              if Confirms(c) then c.confirm == Some(false) else !EntersReview(c) && Withdrawn(log)
  {
    var longer := log + [c];
    forall j: nat | j < |log|
      ensures WithdrawsAt(longer, j) <==> WithdrawsAt(log, j) && !EntersReview(c) && !Confirms(c)
    {
      assert longer[|log|] == c;
      assert forall k :: 0 <= k < |log| ==> longer[k] == log[k];
    }
    assert WithdrawsAt(longer, |log|) <==> Confirms(c) && c.confirm == Some(false);
  }

  lemma {:induction false} EnteredSnoc(log: seq<Change>, c: Change)
    ensures Entered(log + [c]) <==> EntersReview(c) || Entered(log)
  {
    var longer := log + [c];
    assert longer[|log|] == c;
    if i :| 0 <= i < |log| && EntersReview(log[i]) {
      assert EntersReview(longer[i]);
    }
  }

  lemma {:induction false} MoveConsistent(r: Record, to: Status, approver: Option<string>, clock: nat)
    requires Consistent(r) && Transition(r.status, to) && (to == InReview ==> r.blameless)
    ensures Consistent(r.(status := to, approvedBy := if approver.Some? then approver else r.approvedBy,
                          publishedAt := if to == Published then Some(clock) else r.publishedAt,
                          log := r.log + [Moved(to, r.blameless, approver)]))
  {
    ReplaySnoc(r.log, Moved(to, r.blameless, approver));
    WithdrawnSnoc(r.log, Moved(to, r.blameless, approver));
    EnteredSnoc(r.log, Moved(to, r.blameless, approver));
  }

  lemma {:induction false} EditConsistent(r: Record, fields: map<string, string>, confirm: Option<bool>)
    requires Consistent(r) && r.status != Published
    ensures Consistent(r.(fields := fields, blameless := if confirm.Some? then confirm.value else r.blameless,
                          log := r.log + [Edited(r.status, confirm)]))
  {
    ReplaySnoc(r.log, Edited(r.status, confirm));
    WithdrawnSnoc(r.log, Edited(r.status, confirm));
    EnteredSnoc(r.log, Edited(r.status, confirm));
  }

  lemma {:induction false} WrittenConsistent(records: Records, clock: nat, w: Write, inc: string)
    requires Sound(w)
    requires w.Update? || w.SetStatus? ==> w.incident in records && records[w.incident] == w.seen
    requires inc in records ==> Consistent(records[inc]) && records[inc].id < clock
    requires inc in Written(records, clock, w)
    ensures Consistent(Written(records, clock, w)[inc]) && Written(records, clock, w)[inc].id < clock + 1
  {
    if w.SetStatus? && inc == w.incident {
      MoveConsistent(w.seen, w.to, w.approver, clock);
    } else if w.Update? && inc == w.incident {
      EditConsistent(w.seen, w.fields, w.confirm);
    }
  }

  lemma {:induction false} NextInv(s: State, step: Step)
    requires Inv(s) && StepUpToDate(s, step)
    ensures Inv(Next(s, step))
  {
    if step.Finish? && step.k in s.pending {
      var w := s.pending[step.k];
      assert Sound(w);
      forall inc | inc in Written(s.records, s.clock, w)
        ensures Consistent(Written(s.records, s.clock, w)[inc]) && Written(s.records, s.clock, w)[inc].id < s.clock + 1
      {
        WrittenConsistent(s.records, s.clock, w, inc);
      }
    }
  }

  lemma {:induction false} ExecInv(s: State, steps: seq<Step>)
    requires Inv(s) && NoStaleWrite(s, steps)
    ensures Inv(Exec(s, steps))
    decreases |steps|
  {
    if steps != [] {
      NextInv(s, steps[0]);
      ExecInv(Next(s, steps[0]), steps[1..]);
    }
  }

  /** The moves among the changes. */
  function Moves(log: seq<Change>): (m: seq<Change>)
    ensures forall c :: c in m ==> c.Moved?
  {
    if log == [] then []
    else
      var last := log[|log|-1];
      Moves(log[..|log|-1]) + if last.Moved? then [last] else []
  }

  lemma {:induction false} MovesReplay(log: seq<Change>)
    requires Replay(log).Some?
    ensures Replay(Moves(log)) == Replay(log)
  {
    if log != [] {
      var before, last := log[..|log|-1], log[|log|-1];
      MovesReplay(before);
      if last.Moved? { ReplaySnoc(Moves(before), last); } else { assert Moves(before) + [] == Moves(before); }
    }
  }

  lemma {:induction false} LastMoves(moves: seq<Change>)
    requires Replay(moves) == Some(Published) && forall c :: c in moves ==> c.Moved?
    ensures |moves| >= 3
    ensures moves[|moves|-1].to == Published && moves[|moves|-2].to == Approved
    ensures moves[|moves|-3].to == InReview && moves[|moves|-3].blameless
  {
    assert forall i :: 0 <= i < |moves| ==> moves[i] in moves;
    var a := moves[..|moves|-1];
    assert Replay(a) == Some(Approved);
    var b := a[..|a|-1];
    assert a[|a|-1] == moves[|moves|-2];
    assert Replay(b) == Some(InReview);
    assert b[|b|-1] == moves[|moves|-3];
  }

  lemma {:induction false} PublishedLog(log: seq<Change>)
    requires Replay(log) == Some(Published)
    ensures var moves := Moves(log);
            && |moves| >= 3
            && moves[|moves|-3].to == InReview && moves[|moves|-3].blameless
            && moves[|moves|-2].to == Approved
            && moves[|moves|-1].to == Published && log[|log|-1].Moved?
  {
    MovesReplay(log);
    LastMoves(Moves(log));
  }

  /** Over every run without stale writes, a published record began as a draft,
      all its changes were permitted ones, and its last three moves were an entry
      into review while it was confirmed blameless, an approval and, as the last
      change of all, the publication; it names the last approver. */
  lemma {:induction false} PublishedProvenance(steps: seq<Step>, inc: string)
    requires NoStaleWrite(INITIAL, steps)
    requires inc in Exec(INITIAL, steps).records && Exec(INITIAL, steps).records[inc].status == Published
    ensures var r := Exec(INITIAL, steps).records[inc];
            var moves := Moves(r.log);
            && Replay(r.log) == Some(Published) && |moves| >= 3 && r.approvedBy == Approver(r.log)
            && moves[|moves|-3].to == InReview && moves[|moves|-3].blameless
            && moves[|moves|-2].to == Approved
            && moves[|moves|-1].to == Published && r.log[|r.log|-1].Moved?
  {
    ExecInv(INITIAL, steps);
    PublishedLog(Exec(INITIAL, steps).records[inc].log);
  }

  /** A published record is still confirmed blameless if and only if no edit
      withdrew the confirmation after the last entry into review. */
  lemma {:induction false} StillConfirmed(steps: seq<Step>, inc: string)
    requires NoStaleWrite(INITIAL, steps)
    requires inc in Exec(INITIAL, steps).records && Exec(INITIAL, steps).records[inc].status == Published
    ensures Exec(INITIAL, steps).records[inc].blameless <==> !Withdrawn(Exec(INITIAL, steps).records[inc].log)
  {
    ExecInv(INITIAL, steps);
  }

  // ---------------------------------------------------------------- immutability

  /** The record is as it was, or it is gone for good. */
  ghost predicate UnchangedOrGone(s: State, inc: string, r: Record) {
    && r.id < s.clock
    && (inc in s.records && s.records[inc].id == r.id ==> s.records[inc] == r)
  }

  lemma {:induction false} NextUnchanged(s: State, step: Step, inc: string, r: Record)
    requires Inv(s) && StepUpToDate(s, step) && r.status == Published && UnchangedOrGone(s, inc, r)
    ensures UnchangedOrGone(Next(s, step), inc, r)
  {
    if step.Finish? && step.k in s.pending {
      assert Sound(s.pending[step.k]);
    }
  }

  lemma {:induction false} ExecUnchanged(s: State, steps: seq<Step>, inc: string, r: Record)
    requires Inv(s) && NoStaleWrite(s, steps) && r.status == Published && UnchangedOrGone(s, inc, r)
    ensures UnchangedOrGone(Exec(s, steps), inc, r)
    decreases |steps|
  {
    if steps != [] {
      NextInv(s, steps[0]);
      NextUnchanged(s, steps[0], inc, r);
      ExecUnchanged(Next(s, steps[0]), steps[1..], inc, r);
    }
  }

  /** Once published, a record keeps its content and status until it is deleted,
      whatever requests follow, as long as no write is stale. */
  lemma {:induction false} PublishedImmutable(before: seq<Step>, inc: string, after: seq<Step>)
    requires NoStaleWrite(INITIAL, before) && NoStaleWrite(Exec(INITIAL, before), after)
    requires inc in Exec(INITIAL, before).records && Exec(INITIAL, before).records[inc].status == Published
    ensures var s, t, r := Exec(INITIAL, before), Exec(Exec(INITIAL, before), after),
              Exec(INITIAL, before).records[inc];
            inc in t.records && t.records[inc].id == r.id ==> t.records[inc] == r
  {
    ExecInv(INITIAL, before);
    var s := Exec(INITIAL, before);
    ExecUnchanged(s, after, inc, s.records[inc]);
  }

  /** What holds in every run, stale writes or not. */
  ghost predicate AnyInv(s: State) {
    && (forall k :: k in s.pending ==> Sound(s.pending[k]))
    && (forall inc :: inc in s.records && s.records[inc].status == Published ==> s.records[inc].publishedAt.Some?)
    && (forall inc :: inc in s.records && s.records[inc].publishedAt.Some? ==>
          s.records[inc].publishedAt.value < s.clock)
  }

  lemma {:induction false} NextAnyInv(s: State, step: Step)
    requires AnyInv(s)
    ensures AnyInv(Next(s, step))
  {
    if step.Finish? && step.k in s.pending {
      assert Sound(s.pending[step.k]);
    }
  }

  lemma {:induction false} ExecAnyInv(s: State, steps: seq<Step>)
    requires AnyInv(s)
    ensures AnyInv(Exec(s, steps))
    decreases |steps|
  {
    if steps != [] {
      NextAnyInv(s, steps[0]);
      ExecAnyInv(Next(s, steps[0]), steps[1..]);
    }
  }

  /** The pending write `k` goes to the record that `inc` has now. */
  predicate Touches(s: State, k: nat, inc: string) {
    && k in s.pending && (s.pending[k].Update? || s.pending[k].SetStatus?)
    && s.pending[k].incident == inc && inc in s.records && s.pending[k].seen.id == s.records[inc].id
  }

  /** In any run at all, exactly the pending edits and moves of a published record
      alter it, a second publication included: it sets a new publication date.
      They are stale, and leave the status their handler computed from what it had
      read. */
  lemma {:induction false} OnlyStaleWritesAlter(steps: seq<Step>, k: nat, inc: string)
    requires var s := Exec(INITIAL, steps);
             inc in s.records && s.records[inc].status == Published && inc in Next(s, Finish(k)).records
    ensures var s := Exec(INITIAL, steps);
            var r, r' := s.records[inc], Next(s, Finish(k)).records[inc];
            && (r' != r <==> Touches(s, k, inc))
            && (r'.(log := []) != r.(log := []) <==> Touches(s, k, inc))
            && (Touches(s, k, inc) ==> !UpToDate(s, s.pending[k]))
            && (Touches(s, k, inc) ==>
                  r'.status == if s.pending[k].Update? then s.pending[k].seen.status else s.pending[k].to)
            && (Touches(s, k, inc) && s.pending[k].Update? ==>
                  r'.approvedBy == s.pending[k].seen.approvedBy && r'.fields == s.pending[k].fields)
  {
    ExecAnyInv(INITIAL, steps);
    var s := Exec(INITIAL, steps);
    if k in s.pending {
      assert Sound(s.pending[k]);
      if Touches(s, k, inc) {
        assert |Next(s, Finish(k)).records[inc].log| == |s.records[inc].log| + 1;
      }
    }
  }

  /** Such a write exists from every approved record: an edit that is checked
      before the publication and written after it takes the record back. */
  lemma {:induction false} StaleEditUnpublishes(s: State, inc: string, k: nat, l: nat, fields: map<string, string>)
    requires inc in s.records && s.records[inc].status == Approved && k != l && k !in s.pending && l !in s.pending
    ensures var s2 := Next(Next(s, Begin(k, Patch(inc, fields, None))), Begin(l, Move(inc, Published)));
            var s3 := Next(s2, Finish(l));
            var s4 := Next(s3, Finish(k));
            && inc in s3.records && s3.records[inc].status == Published
            && inc in s4.records && s4.records[inc].status == Approved
            && s4.records[inc].fields == s.records[inc].fields + fields
  {
    var s1 := Next(s, Begin(k, Patch(inc, fields, None)));
    var s2 := Next(s1, Begin(l, Move(inc, Published)));
    assert s2.pending[k] == Update(inc, s.records[inc], s.records[inc].fields + fields, None);
    assert s2.pending[l] == SetStatus(inc, s.records[inc], Published, None);
    var s3 := Next(s2, Finish(l));
    assert k in s3.pending && s3.pending[k] == s2.pending[k];
  }

  /** Another one does too: of two publications that are both checked before
      either is written, the later sets the publication date anew. */
  lemma {:induction false} DoublePublication(s: State, inc: string, k: nat, l: nat)
    requires inc in s.records && s.records[inc].status == Approved && k != l && k !in s.pending && l !in s.pending
    ensures var s2 := Next(Next(s, Begin(k, Move(inc, Published))), Begin(l, Move(inc, Published)));
            var s3 := Next(s2, Finish(l));
            var s4 := Next(s3, Finish(k));
            && inc in s3.records && s3.records[inc].status == Published && s3.records[inc].publishedAt == Some(s.clock)
            && inc in s4.records && s4.records[inc].status == Published
            && s4.records[inc].publishedAt == Some(s.clock + 1)
  {
    var s1 := Next(s, Begin(k, Move(inc, Published)));
    var s2 := Next(s1, Begin(l, Move(inc, Published)));
    assert s2.pending[k] == SetStatus(inc, s.records[inc], Published, None);
    assert s2.pending[l] == SetStatus(inc, s.records[inc], Published, None);
    var s3 := Next(s2, Finish(l));
    assert k in s3.pending && s3.pending[k] == s2.pending[k];
  }

  /** One request handled without interruption. */
  function Handle(s: State, k: nat, q: Request): State { Next(Next(s, Begin(k, q)), Finish(k)) }

  /** The confirmation is a gate into review only: an edit may clear it during
      review, and the record can still be approved and published. */
  lemma {:induction false} ConfirmationMayBeCleared(s: State, inc: string, k: nat, approver: Option<string>)
    requires inc in s.records && s.records[inc].status == InReview && k !in s.pending
    ensures var s1 := Handle(s, k, Patch(inc, map[], Some(false)));
            var s2 := Handle(s1, k, Approve(inc, approver));
            var s3 := Handle(s2, k, Move(inc, Published));
            inc in s3.records && s3.records[inc].status == Published && !s3.records[inc].blameless
  {
    var s1 := Handle(s, k, Patch(inc, map[], Some(false)));
    assert inc in s1.records && s1.records[inc].status == InReview && !s1.records[inc].blameless && k !in s1.pending;
    var s2 := Handle(s1, k, Approve(inc, approver));
    assert inc in s2.records && s2.records[inc].status == Approved && !s2.records[inc].blameless && k !in s2.pending;
  }

  /** Requests that are handled one after the other. */
  function Atomic(requests: seq<Request>): seq<Step> {
    if requests == [] then [] else [Begin(0, requests[0]), Finish(0)] + Atomic(requests[1..])
  }

  function HandleAll(s: State, requests: seq<Request>): State
    decreases |requests|
  {
    if requests == [] then s else HandleAll(Handle(s, 0, requests[0]), requests[1..])
  }

  lemma {:induction false} HandleExec(s: State, q: Request, rest: seq<Step>)
    requires 0 !in s.pending
    ensures Exec(s, [Begin(0, q), Finish(0)] + rest) == Exec(Handle(s, 0, q), rest)
    ensures NoStaleWrite(s, [Begin(0, q), Finish(0)] + rest) <==> NoStaleWrite(Handle(s, 0, q), rest)
    ensures 0 !in Handle(s, 0, q).pending
  {
    var steps := [Begin(0, q), Finish(0)] + rest;
    assert steps[1..] == [Finish(0)] + rest && steps[1..][1..] == rest;
    var s1 := Next(s, Begin(0, q));
    assert StepUpToDate(s1, Finish(0));
    assert Exec(s, steps) == Exec(s1, steps[1..]) == Exec(Next(s1, Finish(0)), rest);
  }

  /** Runs of handlers as atomic steps have no stale writes. */
  lemma {:induction false} AtomicIsFresh(s: State, requests: seq<Request>)
    requires 0 !in s.pending
    ensures NoStaleWrite(s, Atomic(requests))
    ensures Exec(s, Atomic(requests)) == HandleAll(s, requests)
    decreases |requests|
  {
    if requests != [] {
      HandleExec(s, requests[0], Atomic(requests[1..]));
      AtomicIsFresh(Handle(s, 0, requests[0]), requests[1..]);
    }
  }

  /** The life of a post-mortem whose confirmation is cleared during review. */
  function ClearedLife(inc: string): seq<Request> {
    [Create(inc, map[], true)] + ([Move(inc, InReview)] + ClearedReview(inc))
  }

  function ClearedReview(inc: string): seq<Request> {
    [Patch(inc, map[], Some(false))] + ([Approve(inc, None)] + ([Move(inc, Published)] + []))
  }

  lemma {:induction false} HandleCons(s: State, q: Request, rest: seq<Request>)
    ensures HandleAll(s, [q] + rest) == HandleAll(Handle(s, 0, q), rest)
  {
    assert ([q] + rest)[1..] == rest;
  }

  /** A run from the start, request by request, that ends with a published record
      that is not confirmed blameless. */
  lemma {:induction false} ClearedRun(inc: string)
    ensures var steps := Atomic(ClearedLife(inc));
            && NoStaleWrite(INITIAL, steps)
            && inc in Exec(INITIAL, steps).records
            && Exec(INITIAL, steps).records[inc].status == Published && !Exec(INITIAL, steps).records[inc].blameless
  {
    AtomicIsFresh(INITIAL, ClearedLife(inc));
    var s1 := Handle(INITIAL, 0, Create(inc, map[], true));
    var s2 := Handle(s1, 0, Move(inc, InReview));
    assert 0 !in s2.pending && inc in s2.records && s2.records[inc].status == InReview;
    ConfirmationMayBeCleared(s2, inc, 0, None);
    HandleCons(INITIAL, Create(inc, map[], true), [Move(inc, InReview)] + ClearedReview(inc));
    HandleCons(s1, Move(inc, InReview), ClearedReview(inc));
    ClearedReviewRun(s2, inc);
  }

  lemma {:induction false} ClearedReviewRun(s: State, inc: string)
    ensures HandleAll(s, ClearedReview(inc))
            == Handle(Handle(Handle(s, 0, Patch(inc, map[], Some(false))), 0, Approve(inc, None)), 0,
                Move(inc, Published))
  {
    var s1 := Handle(s, 0, Patch(inc, map[], Some(false)));
    HandleCons(s, Patch(inc, map[], Some(false)), [Approve(inc, None)] + ([Move(inc, Published)] + []));
    HandleCons(s1, Approve(inc, None), [Move(inc, Published)] + []);
    HandleCons(Handle(s1, 0, Approve(inc, None)), Move(inc, Published), []);
  }
}
