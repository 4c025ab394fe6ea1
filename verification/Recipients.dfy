/**
 The choice of agents that receive an incident's coordination message
 (apps/backend/api/incident_coordination.go).
 */
module Recipients {

  import opened Common
  import opened GoText

  datatype Investigation = Investigation(status: string, agentId: string)

  datatype Role = Role(status: string, assigneeType: string, agentToken: Option<string>, roleType: string)

  datatype Recipient = Recipient(agentId: string, trigger: string, roleType: string)

  const AGENT := "agent:"

  /** isActiveIncidentInvestigationForCoordination */
  predicate IsActive(status: string) {
    status == "pending" || status == "assigned" || status == "investigating" || status == "paused"
  }

  /** triggerForAgent */
  function TriggerFor(mentions: seq<string>, agentId: string): string {
    if AGENT + agentId in mentions then "mention" else "observe"
  }

  // ------------------------------------------------------------ specification

  predicate Eligible(r: Role) { r.status == "active" && r.assigneeType == "agent" && r.agentToken.Some? }

  /** The first non-empty active role of the agent. */
  function RoleOf(roles: seq<Role>, agent: string): string {
    if roles == [] then ""
    else if Eligible(roles[0]) && roles[0].agentToken.value == agent && roles[0].roleType != "" then roles[0].roleType
    else RoleOf(roles[1..], agent)
  }

  datatype Candidate = Candidate(agent: string, trigger: string)

  /** The agents of active investigations, last first. */
  function Investigators(invs: seq<Investigation>, mentions: seq<string>): seq<Candidate> {
    if invs == [] then [] else
      var last := invs[|invs|-1];
      (if IsActive(last.status) then [Candidate(TrimSpace(last.agentId), TriggerFor(mentions, last.agentId))] else [])
      + Investigators(invs[..|invs|-1], mentions)
  }

  /** The mentioned agents, in order. */
  function Mentioned(mentions: seq<string>): seq<Candidate> {
    if mentions == [] then [] else
      Mentioned(mentions[..|mentions|-1])
      + (var m := mentions[|mentions|-1]; if AGENT <= m then [Candidate(TrimSpace(m[|AGENT|..]), "mention")] else [])
  }

  function Candidates(invs: seq<Investigation>, mentions: seq<string>): seq<Candidate> {
    Investigators(invs, mentions) + Mentioned(mentions)
  }

  ghost predicate Admissible(agent: string, excluded: string) { agent != "" && agent != excluded }

  /** Candidate `i` is the first with its agent. */
  ghost predicate First(cs: seq<Candidate>, i: int) {
    0 <= i < |cs| && forall k :: 0 <= k < i ==> cs[k].agent != cs[i].agent
  }

  /** The recipients are the first candidates of all admissible agents, in the
      candidates' order, with their roles; `from` gives their positions. */
  ghost predicate Chosen(cs: seq<Candidate>, roles: seq<Role>, excluded: string, rs: seq<Recipient>, from: seq<int>) {
    && |from| == |rs|
    && (forall k :: 0 <= k < |rs| ==>
          && First(cs, from[k]) && Admissible(cs[from[k]].agent, excluded)
          && rs[k] == Recipient(cs[from[k]].agent, cs[from[k]].trigger, RoleOf(roles, cs[from[k]].agent)))
    && (forall k, l :: 0 <= k < l < |rs| ==> from[k] < from[l])
    && (forall i :: First(cs, i) && Admissible(cs[i].agent, excluded) ==> i in from)
  }

  // ----------------------------------------------------------- implementation

  method Roles(roles: seq<Role>) returns (byAgent: map<string, string>)
    ensures RoleTable(roles, byAgent)
  {
    byAgent := map[];
    var i := 0;
    while i < |roles|
      invariant 0 <= i <= |roles|
      invariant forall a :: RoleOf(roles, a) ==
                  if a in byAgent && byAgent[a] != "" then byAgent[a] else RoleOf(roles[i..], a)
    {
      var r := roles[i];
      assert roles[i..][1..] == roles[i+1..];
      if Eligible(r) {
        var agent := r.agentToken.value;
        if agent !in byAgent || byAgent[agent] == "" {
          byAgent := byAgent[agent := r.roleType];
        }
      }
      i := i + 1;
    }
    assert roles[i..] == [];
  }

  ghost predicate RoleTable(roles: seq<Role>, byAgent: map<string, string>) {
    forall a :: RoleOf(roles, a) == if a in byAgent then byAgent[a] else ""
  }

  ghost predicate Offered(cs: seq<Candidate>, a: string) {
    exists i :: 0 <= i < |cs| && cs[i].agent == a
  }

  /** The admissible agents offered so far. */
  ghost predicate SeenAgents(cs: seq<Candidate>, excluded: string, seen: set<string>) {
    forall a :: a in seen <==> Admissible(a, excluded) && Offered(cs, a)
  }

  /** The list under construction, with the agents already seen. */
  class Builder {
    var seen: set<string>
    var recipients: seq<Recipient>
    const excluded: string
    const byAgent: map<string, string>
    ghost const roles: seq<Role>
    ghost var offered: seq<Candidate>
    ghost var from: seq<int>

    ghost predicate Valid()
      reads this
    {
      && RoleTable(roles, byAgent)
      && Chosen(offered, roles, excluded, recipients, from)
      && SeenAgents(offered, excluded, seen)
    }

    constructor (excluded: string, byAgent: map<string, string>, ghost roles: seq<Role>)
      requires RoleTable(roles, byAgent)
      ensures Valid() && offered == [] && this.roles == roles && this.excluded == excluded
    {
      this.excluded, this.byAgent, this.roles := excluded, byAgent, roles;
      seen, recipients, offered, from := {}, [], [], [];
    }

    /** The closure `add`. */
    method Add(agentId: string, trigger: string)
      requires Valid()
      modifies this
      ensures Valid() && offered == old(offered) + [Candidate(TrimSpace(agentId), trigger)]
    {
      var agent := TrimSpace(agentId);
      ghost var c := Candidate(agent, trigger);
      GrowSeen(offered, excluded, seen, c);
      if agent == "" || agent == excluded || agent in seen {
        GrowSkipped(offered, roles, excluded, recipients, from, c);
        offered := offered + [c];
        return;
      }
      GrowChosen(offered, roles, excluded, recipients, from, c);
      seen := seen + {agent};
      recipients := recipients + [Recipient(agent, trigger, if agent in byAgent then byAgent[agent] else "")];
      from := from + [|offered|];
      offered := offered + [c];
    }
  }

  lemma {:induction false} OfferedSnoc(cs: seq<Candidate>, c: Candidate, a: string)
    ensures Offered(cs + [c], a) <==> Offered(cs, a) || c.agent == a
  {
    var all := cs + [c];
    if Offered(cs, a) {
      var i :| 0 <= i < |cs| && cs[i].agent == a;
      assert all[i].agent == a;
    }
    assert all[|cs|] == c;
  }

  lemma {:induction false} GrowSeen(cs: seq<Candidate>, excluded: string, seen: set<string>, c: Candidate)
    requires SeenAgents(cs, excluded, seen)
    ensures SeenAgents(cs + [c], excluded, if Admissible(c.agent, excluded) then seen + {c.agent} else seen)
  {
    forall a ensures Offered(cs + [c], a) <==> Offered(cs, a) || c.agent == a {
      OfferedSnoc(cs, c, a);
    }
  }

  lemma {:induction false} FirstSnoc(cs: seq<Candidate>, c: Candidate, i: int)
    ensures First(cs + [c], i) <==> First(cs, i) || (i == |cs| && !Offered(cs, c.agent))
  {
    var all := cs + [c];
    assert forall k :: 0 <= k < |cs| ==> all[k] == cs[k];
    assert all[|cs|] == c;
  }

  lemma {:induction false} GrowSkipped(cs: seq<Candidate>, roles: seq<Role>, excluded: string, rs: seq<Recipient>,
      from: seq<int>, c: Candidate)
    requires Chosen(cs, roles, excluded, rs, from)
    requires !Admissible(c.agent, excluded) || Offered(cs, c.agent)
    ensures Chosen(cs + [c], roles, excluded, rs, from)
  {
    forall i ensures First(cs + [c], i) <==> First(cs, i) || (i == |cs| && !Offered(cs, c.agent)) {
      FirstSnoc(cs, c, i);
    }
  }

  lemma {:induction false} GrowChosen(cs: seq<Candidate>, roles: seq<Role>, excluded: string, rs: seq<Recipient>,
      from: seq<int>, c: Candidate)
    requires Chosen(cs, roles, excluded, rs, from)
    requires Admissible(c.agent, excluded) && !Offered(cs, c.agent)
    ensures Chosen(cs + [c], roles, excluded, rs + [Recipient(c.agent, c.trigger, RoleOf(roles, c.agent))],
              from + [|cs|])
  {
    forall i ensures First(cs + [c], i) <==> First(cs, i) || (i == |cs| && !Offered(cs, c.agent)) {
      FirstSnoc(cs, c, i);
    }
  }

  /** The loop over the investigations, last first. */
  method OfferInvestigators(b: Builder, invs: seq<Investigation>, mentions: seq<string>)
    requires b.Valid() && b.offered == []
    modifies b
    ensures b.Valid() && b.offered == Investigators(invs, mentions)
  {
    var i := |invs|;
    assert invs[..i] == invs;
    while i > 0
      invariant 0 <= i <= |invs|
      invariant b.Valid()
      invariant b.offered + Investigators(invs[..i], mentions) == Investigators(invs, mentions)
    {
      i := i - 1;
      NextInvestigator(b.offered, invs, i, mentions);
      if IsActive(invs[i].status) {
        var trigger := TriggerFor(mentions, invs[i].agentId);
        b.Add(invs[i].agentId, trigger);
      }
    }
  }

  lemma {:induction false} NextInvestigator(before: seq<Candidate>, invs: seq<Investigation>, i: nat,
      mentions: seq<string>)
    requires i < |invs|
    ensures before + Investigators(invs[..i+1], mentions) ==
              (if IsActive(invs[i].status)
               then before + [Candidate(TrimSpace(invs[i].agentId), TriggerFor(mentions, invs[i].agentId))] else before)
              + Investigators(invs[..i], mentions)
  {
    assert invs[..i+1][..i] == invs[..i];
  }

  /** The loop over the mentions. */
  method OfferMentions(b: Builder, mentions: seq<string>)
    requires b.Valid()
    modifies b
    ensures b.Valid() && b.offered == old(b.offered) + Mentioned(mentions)
  {
    var i := 0;
    while i < |mentions|
      invariant 0 <= i <= |mentions|
      invariant b.Valid()
      invariant b.offered == old(b.offered) + Mentioned(mentions[..i])
    {
      assert mentions[..i+1][..i] == mentions[..i];
      if AGENT <= mentions[i] {
        var agent := TrimSpace(mentions[i][|AGENT|..]);
        TrimTwice(mentions[i][|AGENT|..]);
        b.Add(agent, "mention");
      }
      i := i + 1;
    }
    assert mentions[..i] == mentions;
  }

  /** coordinationAgentRecipients */
  method CoordinationRecipients(invs: seq<Investigation>, roles: seq<Role>, mentions: seq<string>, excluded: string)
    returns (rs: seq<Recipient>)
    ensures exists from :: Chosen(Candidates(invs, mentions), roles, excluded, rs, from)
  {
    var byAgent := Roles(roles);
    var b := new Builder(excluded, byAgent, roles);
    OfferInvestigators(b, invs, mentions);
    OfferMentions(b, mentions);
    rs := b.recipients;
    assert Chosen(Candidates(invs, mentions), roles, excluded, rs, b.from);
  }

  // ------------------------------------------------------------ what it means

  lemma {:induction false} InvestigatorMembers(invs: seq<Investigation>, mentions: seq<string>, a: string)
    ensures (exists c :: c in Investigators(invs, mentions) && c.agent == a) <==>
              exists i :: 0 <= i < |invs| && IsActive(invs[i].status) && TrimSpace(invs[i].agentId) == a
  {
    if invs != [] {
      var init, last := invs[..|invs|-1], invs[|invs|-1];
      InvestigatorMembers(init, mentions, a);
      var cs := Investigators(invs, mentions);
      if IsActive(last.status) {
        assert cs[0] in cs;
        assert cs[1..] == Investigators(init, mentions);
      } else {
        assert cs == Investigators(init, mentions);
      }
      assert forall i :: 0 <= i < |init| ==> init[i] == invs[i];
    }
  }

  ghost predicate MentionAt(mentions: seq<string>, a: string, i: int) {
    0 <= i < |mentions| && "agent:" <= mentions[i] && TrimSpace(mentions[i][6..]) == a
  }

  lemma {:induction false} MentionMembers(mentions: seq<string>, a: string)
    ensures (exists c :: c in Mentioned(mentions) && c.agent == a) <==> exists i :: MentionAt(mentions, a, i)
  {
    if mentions != [] {
      var n := |mentions| - 1;
      var init := mentions[..n];
      MentionMembers(init, a);
      assert forall i :: 0 <= i < n ==> (MentionAt(init, a, i) <==> MentionAt(mentions, a, i));
      if c :| c in Mentioned(mentions) && c.agent == a && c !in Mentioned(init) {
        assert MentionAt(mentions, a, n);
      }
      if MentionAt(mentions, a, n) {
        assert Candidate(a, "mention") in Mentioned(mentions);
      }
    }
  }

  lemma {:induction false} SomeFirst(cs: seq<Candidate>, i: nat) returns (j: int)
    requires i < |cs|
    ensures First(cs, j) && j <= i && cs[j].agent == cs[i].agent
  {
    j := i;
    if k :| 0 <= k < i && cs[k].agent == cs[i].agent {
      j := SomeFirst(cs, k);
    }
  }

  lemma {:induction false} ChosenMembers(cs: seq<Candidate>, roles: seq<Role>, excluded: string, rs: seq<Recipient>,
      from: seq<int>, a: string)
    requires Chosen(cs, roles, excluded, rs, from)
    ensures (exists r :: r in rs && r.agentId == a) <==> Admissible(a, excluded) && exists c :: c in cs && c.agent == a
  {
    if Admissible(a, excluded) {
      if c :| c in cs && c.agent == a {
        var i :| 0 <= i < |cs| && cs[i] == c;
        var j := SomeFirst(cs, i);
        var k :| 0 <= k < |from| && from[k] == j;
        assert rs[k] in rs && rs[k].agentId == a;
      }
    }
    if r :| r in rs && r.agentId == a {
      var k :| 0 <= k < |rs| && rs[k] == r;
      assert cs[from[k]] in cs;
    }
  }

  /** The recipients are pairwise distinct, and they are exactly the agents of the
      active investigations and the mentioned agents, less the empty id and the
      excluded one. */
  lemma {:induction false} RecipientSet(invs: seq<Investigation>, roles: seq<Role>, mentions: seq<string>,
                                        excluded: string, rs: seq<Recipient>, from: seq<int>, a: string)
    requires Chosen(Candidates(invs, mentions), roles, excluded, rs, from)
    ensures forall k, l :: 0 <= k < l < |rs| ==> rs[k].agentId != rs[l].agentId
    ensures (exists r :: r in rs && r.agentId == a) <==>
              && a != "" && a != excluded
              && (|| (exists i :: 0 <= i < |invs| && TrimSpace(invs[i].agentId) == a
                                  && invs[i].status in {"pending", "assigned", "investigating", "paused"})
                  || (exists i :: MentionAt(mentions, a, i)))
  {
    var cs := Candidates(invs, mentions);
    ChosenMembers(cs, roles, excluded, rs, from, a);
    InvestigatorMembers(invs, mentions, a);
    MentionMembers(mentions, a);
    forall c ensures c in cs <==> c in Investigators(invs, mentions) || c in Mentioned(mentions) {}
  }

  /** The agents the source collects as allowed mention targets: those with an
      active role and those of active investigations.  It never consults the set. */
  ghost predicate AllowedMention(invs: seq<Investigation>, roles: seq<Role>, a: string) {
    || (exists i :: 0 <= i < |roles| && Eligible(roles[i]) && roles[i].agentToken.value == a)
    || (exists i :: 0 <= i < |invs| && IsActive(invs[i].status) && TrimSpace(invs[i].agentId) == a && a != "")
  }

  /** All recipients are in that set if and only if every admissible mentioned
      agent is. */
  lemma {:induction false} AllAllowed(invs: seq<Investigation>, roles: seq<Role>, mentions: seq<string>,
      excluded: string,
                                      rs: seq<Recipient>, from: seq<int>)
    requires Chosen(Candidates(invs, mentions), roles, excluded, rs, from)
    ensures (forall r :: r in rs ==> AllowedMention(invs, roles, r.agentId)) <==>
              forall a, i :: MentionAt(mentions, a, i) && Admissible(a, excluded) ==> AllowedMention(invs, roles, a)
  {
    forall a, i | MentionAt(mentions, a, i) && Admissible(a, excluded)
      ensures exists r :: r in rs && r.agentId == a
    {
      RecipientSet(invs, roles, mentions, excluded, rs, from, a);
    }
    forall r | r in rs
      ensures AllowedMention(invs, roles, r.agentId) || exists i :: MentionAt(mentions, r.agentId, i)
      ensures Admissible(r.agentId, excluded)
    {
      RecipientSet(invs, roles, mentions, excluded, rs, from, r.agentId);
    }
  }
}
