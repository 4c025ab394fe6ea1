/**
 The recipients of a coordination message by the inputs that name them
 (apps/backend/api/incident_coordination.go): their roles, triggers and order.
 */
module RecipientsOrder {

  import opened Common
  import opened GoText
  import opened Recipients

  // ------------------------------------------------------------------- the role

  /** Entry `i` gives the agent a role. */
  predicate GivesRole(roles: seq<Role>, agent: string, i: int) {
    && 0 <= i < |roles| && roles[i].status == "active" && roles[i].assigneeType == "agent"
    && roles[i].agentToken == Some(agent) && roles[i].roleType != ""
  }

  /** An agent's role is that of the first entry that gives it one. */
  lemma {:induction false} RoleIsFirst(roles: seq<Role>, agent: string)
    ensures RoleOf(roles, agent) == "" <==> forall i :: !GivesRole(roles, agent, i)
    ensures forall i :: GivesRole(roles, agent, i) && (forall k :: k < i ==> !GivesRole(roles, agent, k)) ==>
              RoleOf(roles, agent) == roles[i].roleType
  {
    if roles != [] {
      var rest := roles[1..];
      RoleIsFirst(rest, agent);
      forall i
        ensures GivesRole(roles, agent, i) <==> (i == 0 && GivesRole(roles, agent, 0)) || GivesRole(rest, agent, i - 1)
      {
      }
      forall i | GivesRole(roles, agent, i) && (forall k :: k < i ==> !GivesRole(roles, agent, k))
        ensures RoleOf(roles, agent) == roles[i].roleType
      {
        if i > 0 {
          assert !GivesRole(roles, agent, 0);
          forall k | k < i - 1 ensures !GivesRole(rest, agent, k) {
            assert GivesRole(rest, agent, k) ==> GivesRole(roles, agent, k + 1);
          }
        }
      }
      if GivesRole(roles, agent, 0) {
        assert RoleOf(roles, agent) != "";
      } else {
        assert forall i :: GivesRole(rest, agent, i) ==> GivesRole(roles, agent, i + 1);
      }
    }
  }

  // -------------------------------------------------------- triggers and order

  predicate Running(inv: Investigation) { inv.status in {"pending", "assigned", "investigating", "paused"} }

  /** Investigation `i` is the last running one of the agent. */
  ghost predicate LastOf(invs: seq<Investigation>, agent: string, i: int) {
    && 0 <= i < |invs| && Running(invs[i]) && TrimSpace(invs[i].agentId) == agent
    && forall k :: i < k < |invs| && Running(invs[k]) ==> TrimSpace(invs[k].agentId) != agent
  }

  /** How many running investigations follow number `i`. */
  function RunningAfter(invs: seq<Investigation>, i: int): nat
    decreases |invs|
  {
    if invs == [] || i >= |invs| - 1 then 0
    else One(Running(invs[|invs|-1])) + RunningAfter(invs[..|invs|-1], i)
  }

  /** The candidate of a running investigation. */
  lemma {:induction false} CandidateOf(invs: seq<Investigation>, mentions: seq<string>, i: nat)
    requires i < |invs| && Running(invs[i])
    ensures RunningAfter(invs, i) < |Investigators(invs, mentions)|
    ensures Investigators(invs, mentions)[RunningAfter(invs, i)] ==
              Candidate(TrimSpace(invs[i].agentId),
                        if "agent:" + invs[i].agentId in mentions then "mention" else "observe")
  {
    if i < |invs| - 1 {
      CandidateOf(invs[..|invs|-1], mentions, i);
    }
  }

  /** Every candidate of the investigations comes from a running one. */
  lemma {:induction false} CandidateFrom(invs: seq<Investigation>, mentions: seq<string>, j: nat) returns (i: nat)
    requires j < |Investigators(invs, mentions)|
    ensures i < |invs| && Running(invs[i]) && j == RunningAfter(invs, i)
    ensures Investigators(invs, mentions)[j].agent == TrimSpace(invs[i].agentId)
  {
    var n := |invs| - 1;
    if Running(invs[n]) && j == 0 {
      i := n;
    } else {
      i := CandidateFrom(invs[..n], mentions, j - One(Running(invs[n])));
    }
  }

  lemma {:induction false} LaterIsEarlier(invs: seq<Investigation>, i: nat, k: nat)
    requires i < k < |invs| && Running(invs[k])
    ensures RunningAfter(invs, k) < RunningAfter(invs, i)
  {
    if k < |invs| - 1 {
      LaterIsEarlier(invs[..|invs|-1], i, k);
    }
  }

  /** The first candidate of an agent with running investigations is that of the
      last of them. */
  lemma {:induction false} FirstOfAgent(invs: seq<Investigation>, mentions: seq<string>, agent: string, i: int, j: int)
    requires LastOf(invs, agent, i) && First(Candidates(invs, mentions), j) &&
              Candidates(invs, mentions)[j].agent == agent
    ensures j == RunningAfter(invs, i) < |Investigators(invs, mentions)|
    ensures Candidates(invs, mentions)[j].trigger ==
              if "agent:" + invs[i].agentId in mentions then "mention" else "observe"
  {
    var cs, ours := Candidates(invs, mentions), Investigators(invs, mentions);
    var p := RunningAfter(invs, i);
    CandidateOf(invs, mentions, i);
    assert cs[p] == ours[p];
    if j < p {
      assert cs[j] == ours[j];
      var k := CandidateFrom(invs, mentions, j);
      if k < i { LaterIsEarlier(invs, k, i); }
      assert false;
    }
  }

  lemma {:induction false} OfNoInvestigation(invs: seq<Investigation>, mentions: seq<string>, agent: string, j: int)
    requires forall i :: 0 <= i < |invs| && Running(invs[i]) ==> TrimSpace(invs[i].agentId) != agent
    requires 0 <= j < |Candidates(invs, mentions)| && Candidates(invs, mentions)[j].agent == agent
    ensures j >= |Investigators(invs, mentions)| && Candidates(invs, mentions)[j].trigger == "mention"
  {
    var ours := Investigators(invs, mentions);
    if j < |ours| {
      var i := CandidateFrom(invs, mentions, j);
    } else {
      AllMentions(mentions, j - |ours|);
    }
  }

  lemma {:induction false} AllMentions(mentions: seq<string>, j: nat)
    requires j < |Mentioned(mentions)|
    ensures Mentioned(mentions)[j].trigger == "mention"
  {
    if j < |Mentioned(mentions[..|mentions|-1])| {
      AllMentions(mentions[..|mentions|-1], j);
    }
  }

  /** A recipient with running investigations has the trigger of the last of them:
      whether that agent id is mentioned; any other is there for a mention. */
  lemma {:induction false} TriggerExactly(invs: seq<Investigation>, roles: seq<Role>, mentions: seq<string>,
      excluded: string, rs: seq<Recipient>, from: seq<int>, k: nat)
    requires Chosen(Candidates(invs, mentions), roles, excluded, rs, from) && k < |rs|
    ensures forall i :: LastOf(invs, rs[k].agentId, i) ==>
              rs[k].trigger == if "agent:" + invs[i].agentId in mentions then "mention" else "observe"
    ensures (forall i :: 0 <= i < |invs| && Running(invs[i]) ==> TrimSpace(invs[i].agentId) != rs[k].agentId) ==>
              rs[k].trigger == "mention"
  {
    forall i | LastOf(invs, rs[k].agentId, i)
      ensures rs[k].trigger == if "agent:" + invs[i].agentId in mentions then "mention" else "observe"
    {
      FirstOfAgent(invs, mentions, rs[k].agentId, i, from[k]);
    }
    if forall i :: 0 <= i < |invs| && Running(invs[i]) ==> TrimSpace(invs[i].agentId) != rs[k].agentId {
      OfNoInvestigation(invs, mentions, rs[k].agentId, from[k]);
    }
  }

  /** Agents with running investigations come first, the one whose last is latest
      first of all. */
  lemma {:induction false} OrderExactly(invs: seq<Investigation>, roles: seq<Role>, mentions: seq<string>,
      excluded: string, rs: seq<Recipient>, from: seq<int>, k: nat, l: nat, i: int)
    requires Chosen(Candidates(invs, mentions), roles, excluded, rs, from) && k < |rs| && l < |rs|
    requires LastOf(invs, rs[k].agentId, i)
    ensures forall m :: LastOf(invs, rs[l].agentId, m) && m < i ==> k < l
    ensures (forall m :: 0 <= m < |invs| && Running(invs[m]) ==> TrimSpace(invs[m].agentId) != rs[l].agentId) ==> k < l
  {
    FirstOfAgent(invs, mentions, rs[k].agentId, i, from[k]);
    forall m | LastOf(invs, rs[l].agentId, m) && m < i ensures k < l {
      FirstOfAgent(invs, mentions, rs[l].agentId, m, from[l]);
      LaterIsEarlier(invs, m, i);
    }
    if forall m :: 0 <= m < |invs| && Running(invs[m]) ==> TrimSpace(invs[m].agentId) != rs[l].agentId {
      OfNoInvestigation(invs, mentions, rs[l].agentId, from[l]);
    }
  }
}
