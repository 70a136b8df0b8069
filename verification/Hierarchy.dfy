/**
 The agent hierarchy of lib/hierarchy.ts. Rows carry an optional parent id and
 nothing prevents cycles, self-loops, or parents that are not rows themselves.

 The specification side is the parent map and its iteration `UpN`; the methods
 below are the source's queue, visited-set, and upward loops.
 */
module Hierarchy {
  import opened Wrappers

  datatype AgentNode = AgentNode(id: Id, parentAgentId: Option<Id>)

  datatype Leveled = Leveled(id: Id, level: nat)

  // ---------- child edges ----------

  predicate Edge(agents: seq<AgentNode>, parent: Id, child: Id) {
    AgentNode(child, Some(parent)) in agents
  }

  function AllIds(agents: seq<AgentNode>): set<Id> {
    set a | a in agents :: a.id
  }

  // The children of one parent, in row order.
  function ChildIds(agents: seq<AgentNode>, parent: Id): seq<Id> {
    if agents == [] then []
    else
      var last := agents[|agents| - 1];
      ChildIds(agents[..|agents| - 1], parent) + (if last.parentAgentId == Some(parent) then [last.id] else [])
  }

  lemma {:induction false} ChildIdsAreEdges(agents: seq<AgentNode>, parent: Id)
    ensures forall x :: x in ChildIds(agents, parent) <==> Edge(agents, parent, x)
    ensures forall x :: x in ChildIds(agents, parent) ==> x in AllIds(agents)
  {
    if agents != [] {
      var init, last := agents[..|agents| - 1], agents[|agents| - 1];
      ChildIdsAreEdges(init, parent);
      assert agents == init + [last];
      forall x | Edge(agents, parent, x)
        ensures x in ChildIds(agents, parent)
      {
      }
    }
  }

  // `childrenByParent.get(id) ?? []`
  function Lookup(children: map<Id, seq<Id>>, id: Id): seq<Id> {
    if id in children then children[id] else []
  }

  // `childrenByParent` after the rows have been grouped.
  function ChildMapOf(agents: seq<AgentNode>): map<Id, seq<Id>> {
    if agents == [] then map[]
    else
      var grouped, last := ChildMapOf(agents[..|agents| - 1]), agents[|agents| - 1];
      if last.parentAgentId.None? then grouped
      else grouped[last.parentAgentId.value := Lookup(grouped, last.parentAgentId.value) + [last.id]]
  }

  lemma {:induction false} GroupedIsChildIds(agents: seq<AgentNode>, p: Id)
    ensures Lookup(ChildMapOf(agents), p) == ChildIds(agents, p)
  {
    if agents != [] {
      GroupedIsChildIds(agents[..|agents| - 1], p);
    }
  }

  method ChildrenByParent(agents: seq<AgentNode>) returns (children: map<Id, seq<Id>>)
    ensures children == ChildMapOf(agents)
    ensures forall p :: Lookup(children, p) == ChildIds(agents, p)
  {
    children := map[];
    for i := 0 to |agents|
      invariant children == ChildMapOf(agents[..i])
    {
      var agent := agents[i];
      assert agents[..i + 1][..i] == agents[..i];
      if agent.parentAgentId.Some? {
        var siblings := Lookup(children, agent.parentAgentId.value);
        children := children[agent.parentAgentId.value := siblings + [agent.id]];
      }
    }
    assert agents[..|agents|] == agents;
    forall p
      ensures Lookup(children, p) == ChildIds(agents, p)
    {
      GroupedIsChildIds(agents, p);
    }
  }

  // ---------- breadth-first downline ----------

  function Levels(ids: seq<Id>, level: nat): seq<Leveled> {
    seq(|ids|, i requires 0 <= i < |ids| => Leveled(ids[i], level))
  }

  function Ids(entries: seq<Leveled>): seq<Id> {
    seq(|entries|, i requires 0 <= i < |entries| => entries[i].id)
  }

  function IdSet(entries: seq<Leveled>): set<Id> {
    set e | e in entries :: e.id
  }

  ghost predicate Known(agents: seq<AgentNode>, queue: seq<Leveled>) {
    forall e :: e in queue ==> e.id in AllIds(agents)
  }

  lemma LevelsKnown(agents: seq<AgentNode>, parent: Id, level: nat)
    ensures Known(agents, Levels(ChildIds(agents, parent), level))
  {
    ChildIdsAreEdges(agents, parent);
  }

  ghost function Expand(agents: seq<AgentNode>, queue: seq<Leveled>): seq<Leveled>
    requires queue != []
  {
    queue[1..] + Levels(ChildIds(agents, queue[0].id), queue[0].level + 1)
  }

  // The reference breadth-first order over the ids not yet visited: pop, skip if
  // visited, otherwise emit and append the children one level deeper.
  ghost function Bfs(agents: seq<AgentNode>, queue: seq<Leveled>, todo: set<Id>): seq<Leveled>
    decreases todo, |queue|
  {
    if queue == [] then []
    else if queue[0].id !in todo then Bfs(agents, queue[1..], todo)
    else [queue[0]] + Bfs(agents, Expand(agents, queue), todo - {queue[0].id})
  }

  ghost function Downline(agents: seq<AgentNode>, root: Id): seq<Leveled> {
    Bfs(agents, Levels(ChildIds(agents, root), 1), AllIds(agents))
  }

  lemma ExpandKnown(agents: seq<AgentNode>, queue: seq<Leveled>)
    requires queue != [] && Known(agents, queue)
    ensures Known(agents, Expand(agents, queue)) && Known(agents, queue[1..])
  {
    LevelsKnown(agents, queue[0].id, queue[0].level + 1);
  }

  lemma IdsOfLevels(agents: seq<AgentNode>, queue: seq<Leveled>, ids: seq<Id>, level: nat)
    ensures Ids(Levels(ids, level)) == ids
    ensures queue != [] ==> Ids(queue[1..]) == Ids(queue)[1..]
    ensures queue != [] ==> Ids(Expand(agents, queue)) == Ids(queue)[1..] + ChildIds(agents, queue[0].id)
  {
  }

  lemma IdsOfPush(entries: seq<Leveled>, e: Leveled)
    ensures Ids(entries + [e]) == Ids(entries) + [e.id]
  {
  }

  // What has been emitted and what the queue still holds make up the reference downline.
  ghost predicate Lists(agents: seq<AgentNode>, root: Id, done: seq<Leveled>, queue: seq<Leveled>, todo: set<Id>) {
    Known(agents, queue) && done + Bfs(agents, queue, todo) == Downline(agents, root)
  }

  lemma ListsAtFirst(agents: seq<AgentNode>, root: Id)
    ensures Lists(agents, root, [], Levels(ChildIds(agents, root), 1), AllIds(agents))
  {
    LevelsKnown(agents, root, 1);
  }

  // Popping the head keeps it so.
  lemma ListsAfterPop(agents: seq<AgentNode>, root: Id, done: seq<Leveled>, queue: seq<Leveled>, todo: set<Id>)
    requires queue != [] && Lists(agents, root, done, queue, todo)
    ensures queue[0].id !in todo ==> Lists(agents, root, done, queue[1..], todo)
    ensures queue[0].id in todo ==>
      Lists(agents, root, done + [queue[0]], Expand(agents, queue), todo - {queue[0].id})
  {
    ExpandKnown(agents, queue);
    if queue[0].id in todo {
      var rest := Bfs(agents, Expand(agents, queue), todo - {queue[0].id});
      assert done + ([queue[0]] + rest) == done + [queue[0]] + rest;
    }
  }

  lemma ListsAtLast(agents: seq<AgentNode>, root: Id, done: seq<Leveled>, todo: set<Id>)
    requires Lists(agents, root, done, [], todo)
    ensures done == Downline(agents, root)
  {
  }

  lemma HeadIsKnown(agents: seq<AgentNode>, root: Id, done: seq<Leveled>, queue: seq<Leveled>, todo: set<Id>)
    requires queue != [] && Lists(agents, root, done, queue, todo)
    ensures queue[0].id in AllIds(agents)
  {
    assert queue[0] in queue;
  }

  method GetDownlineWithLevels(agents: seq<AgentNode>, rootId: Id) returns (result: seq<Leveled>)
    ensures result == Downline(agents, rootId)
  {
    var children := ChildrenByParent(agents);
    result := [];
    var visited: set<Id> := {};
    var queue := Levels(Lookup(children, rootId), 1);
    ghost var todo := AllIds(agents);
    ListsAtFirst(agents, rootId);
    while |queue| > 0
      invariant Lists(agents, rootId, result, queue, todo)
      invariant todo == AllIds(agents) - visited
      decreases todo, |queue|
    {
      var current := queue[0];
      HeadIsKnown(agents, rootId, result, queue, todo);
      ListsAfterPop(agents, rootId, result, queue, todo);
      if current.id in visited {
        queue := queue[1..];
      } else {
        visited := visited + {current.id};
        todo := todo - {current.id};
        result := result + [current];
        var below := Lookup(children, current.id);
        assert below == ChildIds(agents, current.id);
        queue := queue[1..] + Levels(below, current.level + 1);
      }
    }
    ListsAtLast(agents, rootId, result, todo);
  }

  // `getDownlineIds` carries no levels. The ghost queue beside it does, so the
  // two functions are shown to visit in the same order.
  method GetDownlineIds(agents: seq<AgentNode>, rootId: Id) returns (result: seq<Id>)
    ensures result == Ids(Downline(agents, rootId))
  {
    var children := ChildrenByParent(agents);
    result := [];
    var visited: set<Id> := {};
    var queue := Lookup(children, rootId);
    ghost var leveled := Levels(queue, 1);
    ghost var emitted: seq<Leveled> := [];
    ghost var todo := AllIds(agents);
    ListsAtFirst(agents, rootId);
    IdsOfLevels(agents, [], queue, 1);
    while |queue| > 0
      invariant Lists(agents, rootId, emitted, leveled, todo)
      invariant todo == AllIds(agents) - visited
      invariant queue == Ids(leveled) && result == Ids(emitted)
      decreases todo, |queue|
    {
      var current := queue[0];
      queue := queue[1..];
      HeadIsKnown(agents, rootId, emitted, leveled, todo);
      ListsAfterPop(agents, rootId, emitted, leveled, todo);
      IdsOfLevels(agents, leveled, [], 0);
      IdsOfPush(emitted, leveled[0]);
      if current in visited {
        leveled := leveled[1..];
      } else {
        visited := visited + {current};
        todo := todo - {current};
        result := result + [current];
        var below := Lookup(children, current);
        assert below == ChildIds(agents, leveled[0].id);
        queue := queue + below;
        emitted := emitted + [leveled[0]];
        leveled := Expand(agents, leveled);
      }
    }
    ListsAtLast(agents, rootId, emitted, todo);
  }

  // ---------- reachability and shortest distance ----------

  // A path of exactly n child edges from root to x.
  ghost predicate ReachIn(agents: seq<AgentNode>, root: Id, x: Id, n: nat)
    decreases n
  {
    if n == 0 then x == root
    else exists y :: ReachIn(agents, root, y, n - 1) && Edge(agents, y, x)
  }

  ghost predicate Shortest(agents: seq<AgentNode>, root: Id, x: Id, n: nat) {
    && n >= 1
    && ReachIn(agents, root, x, n)
    && forall m: nat :: 1 <= m < n ==> !ReachIn(agents, root, x, m)
  }

  ghost predicate Distinct<T>(s: seq<T>) {
    forall i, j :: 0 <= i < j < |s| ==> s[i] != s[j]
  }

  ghost predicate Sorted(entries: seq<Leveled>) {
    forall i, j :: 0 <= i < j < |entries| ==> entries[i].level <= entries[j].level
  }

  // The queue holds the levels lo and lo + 1, in order; nothing emitted is deeper than lo.
  ghost predicate InOrder(done: seq<Leveled>, queue: seq<Leveled>, lo: nat) {
    && Sorted(done)
    && Sorted(queue)
    && (forall d :: d in done ==> d.level <= lo)
    && (forall q :: q in queue ==> lo <= q.level <= lo + 1)
  }

  ghost predicate ChildrenCovered(agents: seq<AgentNode>, done: seq<Leveled>, queue: seq<Leveled>, parent: Id,
                                  level: nat) {
    forall w :: Edge(agents, parent, w) ==> w in IdSet(done) || Leveled(w, level + 1) in queue
  }

  // Every child of the root and of an emitted node is emitted or queued.
  ghost predicate Covered(agents: seq<AgentNode>, root: Id, done: seq<Leveled>, queue: seq<Leveled>) {
    && ChildrenCovered(agents, done, queue, root, 0)
    && (forall e :: e in done ==> ChildrenCovered(agents, done, queue, e.id, e.level))
  }

  ghost predicate BfsInv(agents: seq<AgentNode>, root: Id, done: seq<Leveled>, queue: seq<Leveled>) {
    && Known(agents, queue)
    && Distinct(Ids(done))
    && (exists lo: nat :: InOrder(done, queue, lo))
    && (forall e :: e in queue ==> 1 <= e.level && ReachIn(agents, root, e.id, e.level))
    && (forall e :: e in done ==> Shortest(agents, root, e.id, e.level))
    && Covered(agents, root, done, queue)
  }

  // Anything reachable in n steps is emitted at a level of at most n, or the
  // queue holds an entry of level at most n.
  lemma {:induction false} Frontier(agents: seq<AgentNode>, root: Id, done: seq<Leveled>, queue: seq<Leveled>, x: Id,
                                    n: nat)
    requires Covered(agents, root, done, queue)
    requires forall e :: e in done ==> Shortest(agents, root, e.id, e.level)
    requires n >= 1 && ReachIn(agents, root, x, n)
    ensures (exists e :: e in done && e.id == x && e.level <= n) || (exists e :: e in queue && e.level <= n)
    decreases n
  {
    if e :| e in done && e.id == x {
      assert e.level <= n by { assert Shortest(agents, root, x, e.level); }
    } else {
      var y :| ReachIn(agents, root, y, n - 1) && Edge(agents, y, x);
      if n == 1 {
        assert Leveled(x, 1) in queue;
      } else {
        Frontier(agents, root, done, queue, y, n - 1);
        if e :| e in done && e.id == y && e.level <= n - 1 {
          assert ChildrenCovered(agents, done, queue, y, e.level);
          assert Leveled(x, e.level + 1) in queue;
        }
      }
    }
  }

  lemma HeadIsShortest(agents: seq<AgentNode>, root: Id, done: seq<Leveled>, queue: seq<Leveled>)
    requires BfsInv(agents, root, done, queue) && queue != [] && queue[0].id !in IdSet(done)
    ensures Shortest(agents, root, queue[0].id, queue[0].level)
  {
    var current := queue[0];
    assert current in queue;
    forall m: nat | 1 <= m < current.level
      ensures !ReachIn(agents, root, current.id, m)
    {
      if ReachIn(agents, root, current.id, m) {
        Frontier(agents, root, done, queue, current.id, m);
        assert false;
      }
    }
  }

  lemma PopKeepsCover(agents: seq<AgentNode>, done: seq<Leveled>, queue: seq<Leveled>, p: Id, l: nat)
    requires queue != [] && queue[0].id in IdSet(done) && ChildrenCovered(agents, done, queue, p, l)
    ensures ChildrenCovered(agents, done, queue[1..], p, l)
  {
    assert queue == [queue[0]] + queue[1..];
  }

  lemma PopKeepsOrder(done: seq<Leveled>, queue: seq<Leveled>, lo: nat)
    requires queue != [] && InOrder(done, queue, lo)
    ensures InOrder(done, queue[1..], lo)
  {
  }

  lemma PopVisited(agents: seq<AgentNode>, root: Id, done: seq<Leveled>, queue: seq<Leveled>)
    requires BfsInv(agents, root, done, queue) && queue != [] && queue[0].id in IdSet(done)
    ensures BfsInv(agents, root, done, queue[1..])
  {
    forall p, l: nat | ChildrenCovered(agents, done, queue, p, l)
      ensures ChildrenCovered(agents, done, queue[1..], p, l)
    {
      PopKeepsCover(agents, done, queue, p, l);
    }
    var lo: nat :| InOrder(done, queue, lo);
    PopKeepsOrder(done, queue, lo);
    assert forall e :: e in queue[1..] ==> e in queue;
  }

  lemma AppendInOrder(done: seq<Leveled>, queue: seq<Leveled>, children: seq<Leveled>, lo: nat)
    requires InOrder(done, queue, lo) && queue != []
    requires forall c :: c in children ==> c.level == queue[0].level + 1
    ensures InOrder(done + [queue[0]], queue[1..] + children, queue[0].level)
  {
  }

  lemma ExpandCovers(agents: seq<AgentNode>, root: Id, done: seq<Leveled>, queue: seq<Leveled>)
    requires Covered(agents, root, done, queue) && queue != []
    ensures Covered(agents, root, done + [queue[0]], Expand(agents, queue))
  {
    var current, done', queue' := queue[0], done + [queue[0]], Expand(agents, queue);
    assert queue == [current] + queue[1..];
    assert forall e :: e in done ==> e in done';
    assert current in done';
    forall p, l: nat | ChildrenCovered(agents, done, queue, p, l)
      ensures ChildrenCovered(agents, done', queue', p, l)
    {
    }
    ChildIdsAreEdges(agents, current.id);
    var children := ChildIds(agents, current.id);
    forall w | Edge(agents, current.id, w)
      ensures Leveled(w, current.level + 1) in queue'
    {
      var i :| 0 <= i < |children| && children[i] == w;
      assert Levels(children, current.level + 1)[i] == Leveled(w, current.level + 1);
    }
  }

  lemma PopFresh(agents: seq<AgentNode>, root: Id, done: seq<Leveled>, queue: seq<Leveled>)
    requires BfsInv(agents, root, done, queue) && queue != [] && queue[0].id !in IdSet(done)
    ensures BfsInv(agents, root, done + [queue[0]], Expand(agents, queue))
  {
    var current := queue[0];
    HeadIsShortest(agents, root, done, queue);
    var lo: nat :| InOrder(done, queue, lo);
    AppendInOrder(done, queue, Levels(ChildIds(agents, current.id), current.level + 1), lo);
    ExpandCovers(agents, root, done, queue);
    ExpandKnown(agents, queue);
    ChildIdsAreEdges(agents, current.id);
    forall e | e in Expand(agents, queue)
      ensures 1 <= e.level && ReachIn(agents, root, e.id, e.level)
    {
      if e in queue[1..] {
        assert e in queue;
      } else {
        assert ReachIn(agents, root, current.id, current.level) && Edge(agents, current.id, e.id);
      }
    }
    DistinctAppend(done, current);
  }

  lemma DistinctAppend(done: seq<Leveled>, e: Leveled)
    requires Distinct(Ids(done)) && e.id !in IdSet(done)
    ensures Distinct(Ids(done + [e]))
  {
    assert forall i :: 0 <= i < |done| ==> done[i] in done;
    assert Ids(done + [e]) == Ids(done) + [e.id];
  }

  // The four facts a caller relies on.
  ghost predicate IsDownline(agents: seq<AgentNode>, root: Id, entries: seq<Leveled>) {
    && Distinct(Ids(entries))
    && Sorted(entries)
    && (forall e :: e in entries ==> Shortest(agents, root, e.id, e.level))
    && (forall x, n: nat :: n >= 1 && ReachIn(agents, root, x, n) ==> x in IdSet(entries))
  }

  lemma BfsFinished(agents: seq<AgentNode>, root: Id, done: seq<Leveled>)
    requires BfsInv(agents, root, done, [])
    ensures IsDownline(agents, root, done)
  {
    forall x, n: nat | n >= 1 && ReachIn(agents, root, x, n)
      ensures x in IdSet(done)
    {
      Frontier(agents, root, done, [], x, n);
    }
  }

  // Emitting the head moves it across the `+` without changing the listing.
  lemma BfsEmits(agents: seq<AgentNode>, done: seq<Leveled>, queue: seq<Leveled>, todo: set<Id>)
    requires queue != [] && queue[0].id in todo
    ensures done + Bfs(agents, queue, todo)
         == (done + [queue[0]]) + Bfs(agents, Expand(agents, queue), todo - {queue[0].id})
  {
  }

  lemma {:induction false} BfsCompletes(agents: seq<AgentNode>, root: Id, done: seq<Leveled>, queue: seq<Leveled>,
                                        todo: set<Id>)
    requires BfsInv(agents, root, done, queue)
    requires todo == AllIds(agents) - IdSet(done)
    ensures IsDownline(agents, root, done + Bfs(agents, queue, todo))
    decreases todo, |queue|
  {
    if queue == [] {
      BfsFinished(agents, root, done);
      assert done + Bfs(agents, queue, todo) == done;
    } else if queue[0].id in IdSet(done) {
      PopVisited(agents, root, done, queue);
      BfsCompletes(agents, root, done, queue[1..], todo);
    } else {
      assert queue[0] in queue;
      PopFresh(agents, root, done, queue);
      BfsEmits(agents, done, queue, todo);
      BfsCompletes(agents, root, done + [queue[0]], Expand(agents, queue), todo - {queue[0].id});
    }
  }

  lemma BfsStarts(agents: seq<AgentNode>, root: Id)
    ensures BfsInv(agents, root, [], Levels(ChildIds(agents, root), 1))
  {
    var c := ChildIds(agents, root);
    var first := Levels(c, 1);
    LevelsKnown(agents, root, 1);
    ChildIdsAreEdges(agents, root);
    forall e | e in first
      ensures ReachIn(agents, root, e.id, 1)
    {
      assert ReachIn(agents, root, root, 0) && Edge(agents, root, e.id);
    }
    forall w | Edge(agents, root, w)
      ensures Leveled(w, 1) in first
    {
      var i :| 0 <= i < |c| && c[i] == w;
      assert first[i] == Leveled(w, 1);
    }
    assert InOrder([], first, 1);
  }

  // On any rows, cyclic or not: the downline lists each node reachable by one
  // or more child edges exactly once, at its shortest distance, nearest first.
  lemma DownlineIsShortestPaths(agents: seq<AgentNode>, root: Id)
    ensures IsDownline(agents, root, Downline(agents, root))
  {
    BfsStarts(agents, root);
    BfsCompletes(agents, root, [], Levels(ChildIds(agents, root), 1), AllIds(agents));
    assert [] + Downline(agents, root) == Downline(agents, root);
  }

  // ---------- upline ----------

  // `new Map(agents.map(a => [a.id, a.parentAgentId]))`: the last row of an id wins.
  function ParentMap(agents: seq<AgentNode>): map<Id, Option<Id>> {
    if agents == [] then map[]
    else
      var last := agents[|agents| - 1];
      ParentMap(agents[..|agents| - 1])[last.id := last.parentAgentId]
  }

  function ParentOf(parents: map<Id, Option<Id>>, x: Id): Option<Id> {
    if x in parents then parents[x] else None
  }

  // The ancestor n edges above x, if the chain is that long.
  function UpN(parents: map<Id, Option<Id>>, x: Id, n: nat): Option<Id>
    decreases n
  {
    if n == 0 then Some(x)
    else match ParentOf(parents, x)
      case None => None
      case Some(p) => UpN(parents, p, n - 1)
  }

  // The reference upward walk: stop at a missing parent or at a repeated id.
  ghost function UplineFrom(parents: map<Id, Option<Id>>, current: Option<Id>, visited: set<Id>): seq<Id>
    decreases parents.Keys - visited, if current.Some? then 1 else 0
  {
    if current.None? || current.value in visited then []
    else [current.value] + UplineFrom(parents, ParentOf(parents, current.value), visited + {current.value})
  }

  method GetUplineIds(agents: seq<AgentNode>, startId: Id) returns (result: seq<Id>)
    ensures result == Upline(ParentMap(agents), startId)
  {
    var parentById := map[];
    for i := 0 to |agents|
      invariant parentById == ParentMap(agents[..i])
    {
      assert agents[..i + 1][..i] == agents[..i];
      parentById := parentById[agents[i].id := agents[i].parentAgentId];
    }
    assert agents[..|agents|] == agents;
    result := [];
    var visited := {startId};
    var currentParent := ParentOf(parentById, startId);
    while currentParent.Some?
      invariant result + UplineFrom(parentById, currentParent, visited) == Upline(parentById, startId)
      decreases parentById.Keys - visited, if currentParent.Some? then 1 else 0
    {
      if currentParent.value in visited { break; }
      visited := visited + {currentParent.value};
      result := result + [currentParent.value];
      currentParent := ParentOf(parentById, currentParent.value);
    }
  }

  ghost function Upline(parents: map<Id, Option<Id>>, start: Id): seq<Id> {
    UplineFrom(parents, ParentOf(parents, start), {start})
  }

  lemma {:induction false} UpNStep(parents: map<Id, Option<Id>>, x: Id, n: nat)
    ensures UpN(parents, x, n + 1)
        == (if UpN(parents, x, n).Some? then ParentOf(parents, UpN(parents, x, n).value) else None)
    decreases n
  {
    if n > 0 && ParentOf(parents, x).Some? {
      UpNStep(parents, ParentOf(parents, x).value, n - 1);
    }
  }

  // A chain of parent edges without repeats, listed upwards.
  ghost predicate IsChain(parents: map<Id, Option<Id>>, chain: seq<Id>) {
    && Distinct(chain)
    && (forall i :: 0 <= i < |chain| - 1 ==> ParentOf(parents, chain[i]) == Some(chain[i + 1]))
  }

  // The chain cannot be extended: it ends at a root or at an edge back into itself.
  ghost predicate Maximal(parents: map<Id, Option<Id>>, chain: seq<Id>) {
    chain != [] && var next := ParentOf(parents, chain[|chain| - 1]); next.None? || next.value in chain
  }

  lemma {:induction false} UplineFromIsChain(parents: map<Id, Option<Id>>, chain: seq<Id>, visited: set<Id>)
    requires chain != [] && IsChain(parents, chain)
    requires visited == set x | x in chain
    ensures
      var full := chain + UplineFrom(parents, ParentOf(parents, chain[|chain| - 1]), visited);
      IsChain(parents, full) && Maximal(parents, full)
    decreases parents.Keys - visited, if ParentOf(parents, chain[|chain| - 1]).Some? then 1 else 0
  {
    var current := ParentOf(parents, chain[|chain| - 1]);
    if current.None? || current.value in visited {
      assert chain + UplineFrom(parents, current, visited) == chain;
    } else {
      var longer := chain + [current.value];
      UplineFromIsChain(parents, longer, visited + {current.value});
      var rest := UplineFrom(parents, ParentOf(parents, current.value), visited + {current.value});
      assert chain + ([current.value] + rest) == longer + rest;
    }
  }

  lemma UplineIsMaximalChain(parents: map<Id, Option<Id>>, start: Id)
    ensures IsChain(parents, [start] + Upline(parents, start)) && Maximal(parents, [start] + Upline(parents, start))
  {
    UplineFromIsChain(parents, [start], {start});
  }

  // The walk never lists its own start and lists nobody twice, cycles or not.
  lemma UplineOmitsStart(parents: map<Id, Option<Id>>, start: Id)
    ensures start !in Upline(parents, start) && Distinct(Upline(parents, start))
  {
    var chain := [start] + Upline(parents, start);
    UplineIsMaximalChain(parents, start);
    assert chain[1..] == Upline(parents, start);
    forall i | 0 <= i < |Upline(parents, start)|
      ensures Upline(parents, start)[i] != start
    {
      assert chain[i + 1] == Upline(parents, start)[i] && chain[0] == start;
    }
  }

  lemma {:induction false} ChainIsUpN(parents: map<Id, Option<Id>>, chain: seq<Id>, n: nat)
    requires IsChain(parents, chain) && n < |chain|
    ensures UpN(parents, chain[0], n) == Some(chain[n])
  {
    if n > 0 {
      ChainIsUpN(parents, chain, n - 1);
      UpNStep(parents, chain[0], n - 1);
    }
  }

  // However long the climb, it never leaves a maximal chain.
  lemma {:induction false} ClimbStaysOnChain(parents: map<Id, Option<Id>>, chain: seq<Id>, n: nat)
    requires IsChain(parents, chain) && Maximal(parents, chain)
    requires UpN(parents, chain[0], n).Some?
    ensures UpN(parents, chain[0], n).value in chain
  {
    if n > 0 {
      UpNStep(parents, chain[0], n - 1);
      ClimbStaysOnChain(parents, chain, n - 1);
      var below := UpN(parents, chain[0], n - 1).value;
      var i :| 0 <= i < |chain| && chain[i] == below;
      if i + 1 < |chain| {
        assert ParentOf(parents, chain[i]) == Some(chain[i + 1]);
      }
    }
  }

  // ---------- the two directions agree ----------

  ghost predicate UniqueIds(agents: seq<AgentNode>) {
    forall i, j :: 0 <= i < j < |agents| ==> agents[i].id != agents[j].id
  }

  lemma {:induction false} ParentMapIsEdges(agents: seq<AgentNode>)
    requires UniqueIds(agents)
    ensures forall x :: x in ParentMap(agents) <==> x in AllIds(agents)
    ensures forall x, p :: ParentOf(ParentMap(agents), x) == Some(p) <==> Edge(agents, p, x)
  {
    if agents != [] {
      var init, last := agents[..|agents| - 1], agents[|agents| - 1];
      assert agents == init + [last];
      ParentMapIsEdges(init);
      forall p
        ensures !Edge(init, p, last.id)
      {
        assert forall i :: 0 <= i < |init| ==> agents[i].id != last.id;
      }
      assert forall p, x :: Edge(agents, p, x) <==> Edge(init, p, x) || last == AgentNode(x, Some(p));
    }
  }

  lemma {:induction false} ReachIsClimb(agents: seq<AgentNode>, u: Id, s: Id, n: nat)
    requires UniqueIds(agents)
    ensures ReachIn(agents, u, s, n) <==> UpN(ParentMap(agents), s, n) == Some(u)
    decreases n
  {
    ParentMapIsEdges(agents);
    if n > 0 {
      var parent := ParentOf(ParentMap(agents), s);
      if parent.Some? {
        ReachIsClimb(agents, u, parent.value, n - 1);
      }
      if ReachIn(agents, u, s, n) {
        var y :| ReachIn(agents, u, y, n - 1) && Edge(agents, y, s);
        assert parent == Some(y);
      }
    }
  }

  lemma ListedAtShortest(agents: seq<AgentNode>, u: Id, s: Id, chain: seq<Id>, level: nat)
    requires UniqueIds(agents) && level >= 1
    requires IsChain(ParentMap(agents), chain) && level < |chain| && chain[0] == s && chain[level] == u
    ensures Shortest(agents, u, s, level) && Leveled(s, level) in Downline(agents, u)
  {
    ChainIsUpN(ParentMap(agents), chain, level);
    ReachIsClimb(agents, u, s, level);
    forall m: nat | 1 <= m < level
      ensures !ReachIn(agents, u, s, m)
    {
      ChainIsUpN(ParentMap(agents), chain, m);
      ReachIsClimb(agents, u, s, m);
    }
    DownlineIsShortestPaths(agents, u);
    var e :| e in Downline(agents, u) && e.id == s;
    assert Shortest(agents, u, s, e.level);
  }

  lemma ShortestIsUnique(agents: seq<AgentNode>, u: Id, s: Id, i: nat, j: nat)
    requires Shortest(agents, u, s, i) && Shortest(agents, u, s, j)
    ensures i == j
  {
  }

  lemma UplineIsListed(agents: seq<AgentNode>, u: Id, s: Id, level: nat)
    requires UniqueIds(agents) && level >= 1
    requires level <= |Upline(ParentMap(agents), s)| && Upline(ParentMap(agents), s)[level - 1] == u
    ensures Leveled(s, level) in Downline(agents, u)
  {
    UplineIsMaximalChain(ParentMap(agents), s);
    ListedAtShortest(agents, u, s, [s] + Upline(ParentMap(agents), s), level);
  }

  lemma ListedIsUpline(agents: seq<AgentNode>, u: Id, s: Id, level: nat)
    requires UniqueIds(agents) && u != s && level >= 1 && Leveled(s, level) in Downline(agents, u)
    ensures level <= |Upline(ParentMap(agents), s)| && Upline(ParentMap(agents), s)[level - 1] == u
  {
    var parents := ParentMap(agents);
    var chain := [s] + Upline(parents, s);
    UplineIsMaximalChain(parents, s);
    DownlineIsShortestPaths(agents, u);
    ReachIsClimb(agents, u, s, level);
    ClimbStaysOnChain(parents, chain, level);
    var j :| 0 <= j < |chain| && chain[j] == u;
    ListedAtShortest(agents, u, s, chain, j);
    ShortestIsUnique(agents, u, s, level, j);
  }

  // Upline/downline duality, cycles included: u is the level-th ancestor listed
  // for s exactly when s is listed at that level below u.
  lemma UplineDownlineDuality(agents: seq<AgentNode>, u: Id, s: Id, level: nat)
    requires UniqueIds(agents) && u != s && level >= 1
    ensures (level <= |Upline(ParentMap(agents), s)| && Upline(ParentMap(agents), s)[level - 1] == u)
       <==> Leveled(s, level) in Downline(agents, u)
  {
    if level <= |Upline(ParentMap(agents), s)| && Upline(ParentMap(agents), s)[level - 1] == u {
      UplineIsListed(agents, u, s, level);
    } else if Leveled(s, level) in Downline(agents, u) {
      ListedIsUpline(agents, u, s, level);
    }
  }
}
