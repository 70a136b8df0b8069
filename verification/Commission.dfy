/** Override commissions (lib/commission.ts): one entry per paid upline level. */
module Commission {
  import opened Wrappers
  import opened Hierarchy

  datatype AgentRankInfo = AgentRankInfo(node: AgentNode, rank: string)

  datatype Override = Override(agentId: Id, level: nat, amount: real)

  type PlanLookup = (string, nat) -> Option<real>

  function Nodes(agents: seq<AgentRankInfo>): seq<AgentNode> {
    seq(|agents|, i requires 0 <= i < |agents| => agents[i].node)
  }

  // `new Map(agents.map(a => [a.id, a.rank]))`
  function RankById(agents: seq<AgentRankInfo>): map<Id, string> {
    if agents == [] then map[]
    else RankById(agents[..|agents| - 1])[agents[|agents| - 1].node.id := agents[|agents| - 1].rank]
  }

  // What one upline position earns: nothing without a rank, an empty rank, or a
  // plan entry for that rank at that level.
  function Earned(ranks: map<Id, string>, base: real, plan: PlanLookup, agentId: Id, level: nat): Option<Override> {
    if agentId !in ranks || ranks[agentId] == "" then None
    else match plan(ranks[agentId], level)
      case None => None
      case Some(percent) => Some(Override(agentId, level, base * percent / 100.0))
  }

  ghost function Collected(ranks: map<Id, string>, base: real, plan: PlanLookup, upline: seq<Id>): seq<Override> {
    if upline == [] then []
    else
      var n := |upline| - 1;
      Collected(ranks, base, plan, upline[..n])
        + (match Earned(ranks, base, plan, upline[n], n + 1) case None => [] case Some(o) => [o])
  }

  method ComputeOverrides(agents: seq<AgentRankInfo>, directAgentId: Id, baseAmount: real, lookupPlan: PlanLookup)
    returns (results: seq<Override>)
    ensures results
        == Collected(RankById(agents), baseAmount, lookupPlan, Upline(ParentMap(Nodes(agents)), directAgentId))
  {
    var rankById := map[];
    for i := 0 to |agents|
      invariant rankById == RankById(agents[..i])
    {
      assert agents[..i + 1][..i] == agents[..i];
      rankById := rankById[agents[i].node.id := agents[i].rank];
    }
    assert agents[..|agents|] == agents;
    var uplineIds := GetUplineIds(Nodes(agents), directAgentId);
    results := [];
    for index := 0 to |uplineIds|
      invariant results == Collected(rankById, baseAmount, lookupPlan, uplineIds[..index])
    {
      assert uplineIds[..index + 1][..index] == uplineIds[..index];
      assert uplineIds[..index + 1][index] == uplineIds[index];
      ghost var step := Earned(rankById, baseAmount, lookupPlan, uplineIds[index], index + 1);
      assert Collected(rankById, baseAmount, lookupPlan, uplineIds[..index + 1])
          == results + (match step case None => [] case Some(o) => [o]);
      var agentId, level := uplineIds[index], index + 1;
      if agentId in rankById && rankById[agentId] != "" {
        var percent := lookupPlan(rankById[agentId], level);
        if percent.Some? {
          assert step.Some? && step.value.amount == baseAmount * percent.value / 100.0;
          results := results + [Override(agentId, level, baseAmount * percent.value / 100.0)];
        }
      }
    }
    assert uplineIds[..|uplineIds|] == uplineIds;
  }

  lemma {:induction false} CollectedMembers(ranks: map<Id, string>, base: real, plan: PlanLookup, upline: seq<Id>,
                                            o: Override)
    ensures o in Collected(ranks, base, plan, upline)
       <==> 1 <= o.level <= |upline| && upline[o.level - 1] == o.agentId
            && Earned(ranks, base, plan, o.agentId, o.level) == Some(o)
  {
    if upline != [] {
      CollectedMembers(ranks, base, plan, upline[..|upline| - 1], o);
    }
  }

  lemma {:induction false} CollectedIncreasing(ranks: map<Id, string>, base: real, plan: PlanLookup, upline: seq<Id>)
    ensures forall i, j :: 0 <= i < j < |Collected(ranks, base, plan, upline)|
              ==> Collected(ranks, base, plan, upline)[i].level < Collected(ranks, base, plan, upline)[j].level
    ensures forall o :: o in Collected(ranks, base, plan, upline) ==> o.level <= |upline|
  {
    if upline != [] {
      CollectedIncreasing(ranks, base, plan, upline[..|upline| - 1]);
    }
  }

  ghost predicate UniqueRows(agents: seq<AgentRankInfo>) {
    UniqueIds(Nodes(agents))
  }

  // Standing at a level of the upline is being listed at that level of the downline.
  lemma UplineLevel(nodes: seq<AgentNode>, producer: Id, id: Id, level: nat)
    requires UniqueIds(nodes)
    ensures
      var upline := Upline(ParentMap(nodes), producer);
      1 <= level <= |upline| && upline[level - 1] == id
      <==> id != producer && Leveled(producer, level) in Downline(nodes, id)
  {
    UplineOmitsStart(ParentMap(nodes), producer);
    if id != producer && level >= 1 {
      UplineDownlineDuality(nodes, id, producer, level);
    } else if level < 1 {
      DownlineIsShortestPaths(nodes, id);
    }
  }

  // The rank looked up is the one in the agent's row.
  lemma {:induction false} RankIsRow(agents: seq<AgentRankInfo>, id: Id)
    requires UniqueRows(agents)
    ensures id in RankById(agents) ==> exists i :: 0 <= i < |agents| && agents[i].node.id == id
    ensures forall i :: 0 <= i < |agents| && agents[i].node.id == id ==>
      id in RankById(agents) && RankById(agents)[id] == agents[i].rank
  {
    if agents != [] {
      var init := agents[..|agents| - 1];
      assert Nodes(init) == Nodes(agents)[..|agents| - 1];
      RankIsRow(init, id);
      assert forall i :: 0 <= i < |agents| ==> Nodes(agents)[i] == agents[i].node;
      assert forall i :: 0 <= i < |init| ==> Nodes(agents)[i].id != Nodes(agents)[|init|].id;
    }
  }

  // The plan pays agent row i, at this level, this percentage of the base amount.
  predicate PaysRow(agents: seq<AgentRankInfo>, base: real, plan: PlanLookup, i: int, o: Override) {
    && 0 <= i < |agents| && agents[i].node.id == o.agentId && agents[i].rank != ""
    && plan(agents[i].rank, o.level).Some? && o.amount == base * plan(agents[i].rank, o.level).value / 100.0
  }

  lemma PaidIsEarned(agents: seq<AgentRankInfo>, base: real, plan: PlanLookup, i: int, o: Override)
    requires UniqueRows(agents) && PaysRow(agents, base, plan, i, o)
    ensures Earned(RankById(agents), base, plan, o.agentId, o.level) == Some(o)
  {
    RankIsRow(agents, o.agentId);
    var rank := RankById(agents)[o.agentId];
    assert rank == agents[i].rank && plan(rank, o.level) == plan(agents[i].rank, o.level);
    var earned := Earned(RankById(agents), base, plan, o.agentId, o.level);
    assert earned.Some? && earned.value.amount == o.amount;
  }

  lemma EarnedIffPaid(agents: seq<AgentRankInfo>, base: real, plan: PlanLookup, o: Override)
    requires UniqueRows(agents)
    ensures Earned(RankById(agents), base, plan, o.agentId, o.level) == Some(o)
       <==> exists i :: PaysRow(agents, base, plan, i, o)
  {
    if Earned(RankById(agents), base, plan, o.agentId, o.level) == Some(o) {
      RankIsRow(agents, o.agentId);
      var i :| 0 <= i < |agents| && agents[i].node.id == o.agentId;
      assert PaysRow(agents, base, plan, i, o);
    }
    if i :| PaysRow(agents, base, plan, i, o) {
      PaidIsEarned(agents, base, plan, i, o);
    }
  }

  // An agent is paid a level-L override exactly when the producer stands at level L of
  // that agent's downline, the agent's row has a rank, and the plan pays that rank at
  // that level; and then exactly the plan's percentage of the base amount.
  lemma OverrideIffDownlineLevel(agents: seq<AgentRankInfo>, producer: Id, base: real, plan: PlanLookup, o: Override)
    requires UniqueRows(agents)
    ensures o in Collected(RankById(agents), base, plan, Upline(ParentMap(Nodes(agents)), producer))
       <==> o.agentId != producer
            && Leveled(producer, o.level) in Downline(Nodes(agents), o.agentId)
            && exists i :: PaysRow(agents, base, plan, i, o)
  {
    CollectedMembers(RankById(agents), base, plan, Upline(ParentMap(Nodes(agents)), producer), o);
    UplineLevel(Nodes(agents), producer, o.agentId, o.level);
    EarnedIffPaid(agents, base, plan, o);
  }

  // Nobody is paid twice for one sale, and levels are paid nearest first.
  lemma PaidAtMostOnce(agents: seq<AgentRankInfo>, producer: Id, base: real, plan: PlanLookup)
    ensures
      var paid := Collected(RankById(agents), base, plan, Upline(ParentMap(Nodes(agents)), producer));
      && (forall i, j :: 0 <= i < j < |paid| ==> paid[i].level < paid[j].level && paid[i].agentId != paid[j].agentId)
      && (forall o :: o in paid ==> o.agentId != producer)
  {
    var ranks, upline := RankById(agents), Upline(ParentMap(Nodes(agents)), producer);
    var paid := Collected(ranks, base, plan, upline);
    UplineOmitsStart(ParentMap(Nodes(agents)), producer);
    CollectedIncreasing(ranks, base, plan, upline);
    forall o | o in paid
      ensures 1 <= o.level <= |upline| && upline[o.level - 1] == o.agentId && o.agentId != producer
    {
      CollectedMembers(ranks, base, plan, upline, o);
    }
    forall i, j | 0 <= i < j < |paid|
      ensures paid[i].agentId != paid[j].agentId
    {
      assert paid[i] in paid && paid[j] in paid;
    }
  }
}
