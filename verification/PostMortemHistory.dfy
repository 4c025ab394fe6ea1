/**
 Post-mortems by the requests that made them (apps/backend/api/postmortem.go): a
 run without stale writes leaves what its requests, carried out one after the
 other, amount to.
 */
module PostMortemHistory {

  import opened Common
  import opened PostMortem

  /** A record as its readers see it. */
  datatype Doc = Doc(status: Status, fields: map<string, string>, blameless: bool, approvedBy: Option<string>)

  function DocOf(records: Records, inc: string): Option<Doc> {
    if inc !in records then None
    else Some(Doc(records[inc].status, records[inc].fields, records[inc].blameless, records[inc].approvedBy))
  }

  /** What a request that is carried out makes of a post-mortem. */
  function Applied(d: Option<Doc>, q: Request): Option<Doc> {
    match q
    case Create(_, fields, blameless) => Some(Doc(Draft, fields, blameless, None))
    case Delete(_) => None
    case Patch(_, fields, confirm) =>
      if d.None? then None
      else Some(d.value.(fields := d.value.fields + fields,
                         blameless := if confirm.Some? then confirm.value else d.value.blameless))
    case Move(_, to) => if d.None? then None else Some(d.value.(status := to))
    case Approve(_, approver) =>
      if d.None? then None
      else Some(d.value.(status := Approved, approvedBy := if approver.Some? then approver else d.value.approvedBy))
  }

  /** The post-mortem after a list of requests. */
  function Life(requests: seq<Request>): Option<Doc> {
    if requests == [] then None else Applied(Life(requests[..|requests|-1]), requests[|requests|-1])
  }

  /** The write of handler `k` finds the record it is for: none for a creation, and
      for a deletion the one that its handler read. */
  predicate CarriedOut(s: State, step: Step, inc: string) {
    && step.Finish? && step.k in s.pending && step.k in s.asked && s.asked[step.k].incident == inc
    && match s.asked[step.k]
       case Create(_, _, _) => inc !in s.records
       case Delete(_) => inc in s.records && s.pending[step.k].Remove? && s.pending[step.k].id == s.records[inc].id
       case _ => inc in s.records
  }

  /** The requests about an incident that a run carries out, in the order of their
      writes. */
  function History(s: State, steps: seq<Step>, inc: string): seq<Request>
    decreases |steps|
  {
    if steps == [] then [] else
      (if CarriedOut(s, steps[0], inc) then [s.asked[steps[0].k]] else [])
      + History(Next(s, steps[0]), steps[1..], inc)
  }

  /** The pending write is the one the request asks for. */
  ghost predicate Matches(q: Request, w: Write) {
    match q
    case Create(inc, fields, blameless) => w == Insert(inc, fields, blameless)
    case Patch(inc, fields, confirm) =>
      w.Update? && w.incident == inc && w.fields == w.seen.fields + fields && w.confirm == confirm
    case Move(inc, to) => w.SetStatus? && w.incident == inc && w.to == to && w.approver == None
    case Approve(inc, approver) => w.SetStatus? && w.incident == inc && w.to == Approved && w.approver == approver
    case Delete(inc) => w.Remove? && w.incident == inc
  }

  ghost predicate AskedInv(s: State) {
    s.asked.Keys == s.pending.Keys && forall k :: k in s.pending ==> Matches(s.asked[k], s.pending[k])
  }

  lemma {:induction false} NextAsked(s: State, step: Step)
    requires AskedInv(s)
    ensures AskedInv(Next(s, step))
  {
  }

  /** One step changes the post-mortem of an incident as its request says. */
  lemma {:induction false} NextDoc(s: State, step: Step, inc: string)
    requires AskedInv(s) && StepUpToDate(s, step)
    ensures DocOf(Next(s, step).records, inc) ==
              if CarriedOut(s, step, inc)
              then Applied(DocOf(s.records, inc), s.asked[step.k]) else DocOf(s.records, inc)
  {
    if step.Finish? && step.k in s.pending {
      assert Matches(s.asked[step.k], s.pending[step.k]);
    }
  }

  function AppliedAll(d: Option<Doc>, requests: seq<Request>): Option<Doc>
    decreases |requests|
  {
    if requests == [] then d else AppliedAll(Applied(d, requests[0]), requests[1..])
  }

  lemma {:induction false} RunDoc(s: State, steps: seq<Step>, inc: string)
    requires AskedInv(s) && NoStaleWrite(s, steps)
    ensures DocOf(Exec(s, steps).records, inc) == AppliedAll(DocOf(s.records, inc), History(s, steps, inc))
    decreases |steps|
  {
    if steps != [] {
      NextAsked(s, steps[0]);
      NextDoc(s, steps[0], inc);
      RunDoc(Next(s, steps[0]), steps[1..], inc);
      var h := History(Next(s, steps[0]), steps[1..], inc);
      if CarriedOut(s, steps[0], inc) {
        assert ([s.asked[steps[0].k]] + h)[1..] == h;
      } else {
        assert [] + h == h;
      }
    }
  }

  lemma {:induction false} AppliedSnoc(d: Option<Doc>, requests: seq<Request>, q: Request)
    ensures AppliedAll(d, requests + [q]) == Applied(AppliedAll(d, requests), q)
    decreases |requests|
  {
    var all := requests + [q];
    if requests == [] {
      assert all[1..] == [];
    } else {
      assert all[0] == requests[0] && all[1..] == requests[1..] + [q];
      AppliedSnoc(Applied(d, requests[0]), requests[1..], q);
    }
  }

  lemma {:induction false} LifeIsAll(requests: seq<Request>)
    ensures Life(requests) == AppliedAll(None, requests)
  {
    if requests != [] {
      var init, q := requests[..|requests|-1], requests[|requests|-1];
      LifeIsAll(init);
      AppliedSnoc(None, init, q);
      assert requests == init + [q];
    }
  }

  /** Over every run without stale writes, status, content, confirmation and
      approver of a post-mortem are what its requests amount to. */
  lemma {:induction false} DocIsLife(steps: seq<Step>, inc: string)
    requires NoStaleWrite(INITIAL, steps)
    ensures DocOf(Exec(INITIAL, steps).records, inc) == Life(History(INITIAL, steps, inc))
  {
    RunDoc(INITIAL, steps, inc);
    LifeIsAll(History(INITIAL, steps, inc));
  }

  // -------------------------------------------------------------- the approver

  /** Request `i` is the last approval that names anyone since the post-mortem was
      created, and it names `a`. */
  ghost predicate LastApproval(requests: seq<Request>, i: int, a: string) {
    && 0 <= i < |requests| && requests[i].Approve? && requests[i].approver == Some(a)
    && forall j :: i < j < |requests| ==>
         !requests[j].Create? && !requests[j].Delete? && (requests[j].Approve? ==> requests[j].approver == None)
  }

  lemma {:induction false} LastApprovalSnoc(requests: seq<Request>, q: Request, i: int, a: string)
    ensures LastApproval(requests + [q], i, a) <==>
              if i == |requests| then q.Approve? && q.approver == Some(a)
              else LastApproval(requests, i, a) && !q.Create? && !q.Delete? && (q.Approve? ==> q.approver == None)
  {
    var all := requests + [q];
    assert all[|requests|] == q && forall k :: 0 <= k < |requests| ==> all[k] == requests[k];
  }

  lemma {:induction false} LifeApprover(requests: seq<Request>, a: string)
    requires Life(requests).Some?
    ensures Life(requests).value.approvedBy == Some(a) <==> exists i :: LastApproval(requests, i, a)
  {
    var n := |requests| - 1;
    var init, q := requests[..n], requests[n];
    assert requests == init + [q];
    forall i
      ensures LastApproval(requests, i, a) <==>
                if i == n then q.Approve? && q.approver == Some(a)
                else LastApproval(init, i, a) && !q.Create? && !q.Delete? && (q.Approve? ==> q.approver == None)
    {
      LastApprovalSnoc(init, q, i, a);
    }
    if Life(init).Some? { LifeApprover(init, a); }
    assert q.Approve? && q.approver == Some(a) ==> LastApproval(requests, n, a);
  }

  /** Over every run without stale writes, a record's approver is the one whom the
      last approval carried out on it names, if any names someone. */
  lemma {:induction false} ApproverAsked(steps: seq<Step>, inc: string, a: string)
    requires NoStaleWrite(INITIAL, steps) && inc in Exec(INITIAL, steps).records
    ensures Exec(INITIAL, steps).records[inc].approvedBy == Some(a) <==>
              exists i :: LastApproval(History(INITIAL, steps, inc), i, a)
  {
    DocIsLife(steps, inc);
    LifeApprover(History(INITIAL, steps, inc), a);
  }

  // ---------------------------------------------------------- a single request

  /** Which requests pass the checks. */
  lemma {:induction false} AcceptedExactly(records: Records, q: Request)
    ensures Checked(records, q).Some? <==>
              match q
              case Create(_, _, _) => true
              case Patch(inc, _, _) => inc in records && records[inc].status != Published
              case Approve(inc, _) => inc in records && records[inc].status == InReview
              case Delete(inc) => inc in records
              case Move(inc, to) =>
                && inc in records
                && (records[inc].status, to) in
                     {(Draft, InReview), (InReview, Draft), (InReview, Approved), (Approved, InReview),
                         (Approved, Published)}
                && (to == InReview ==> records[inc].blameless)
  {
  }

  /** A request handled without interruption does what it says if it passes the
      checks, and nothing otherwise; other incidents are not concerned. */
  lemma {:induction false} HandledAlone(s: State, k: nat, q: Request, other: string)
    requires k !in s.pending && k !in s.asked
    ensures DocOf(Handle(s, k, q).records, q.incident) ==
              if Checked(s.records, q).None? || (q.Create? && q.incident in s.records) then DocOf(s.records, q.incident)
              else Applied(DocOf(s.records, q.incident), q)
    ensures other != q.incident ==> DocOf(Handle(s, k, q).records, other) == DocOf(s.records, other)
  {
  }

  /** An approval in review is recorded with its approver. */
  lemma {:induction false} ApprovalNames(s: State, inc: string, k: nat, a: string)
    requires inc in s.records && s.records[inc].status == InReview && k !in s.pending && k !in s.asked
    ensures var t := Handle(s, k, Approve(inc, Some(a)));
            inc in t.records && t.records[inc].status == Approved && t.records[inc].approvedBy == Some(a)
  {
    HandledAlone(s, k, Approve(inc, Some(a)), inc);
  }
}
