/** The last step of the data-driven SCC pass: condense the call graph and store the components
    bottom-up, so that callees come before their callers. */
module DataSccs {
  import opened Walks
  import opened Graphs
  import opened BaseGraphs
  import opened Tarjan
  import opened StrongComponents
  import opened Condensation
  import opened BottomUp

  /** `groups` lists every vertex once, two vertices share a group exactly if they reach each other,
      and whatever a vertex reaches lies in its own or an earlier group. */
  ghost predicate CalleesFirst(adj: Adjacency, groups: seq<seq<nat>>) {
    && (forall i :: 0 <= i < |groups| ==>
          Distinct(groups[i]) && forall j :: 0 <= j < |groups[i]| ==> groups[i][j] < |adj|)
    && (forall v: nat :: v < |adj| ==> Listed(groups, v))
    && (forall i, j, u, v :: 0 <= i < |groups| && 0 <= j < |groups| && u in groups[i] && v in groups[j] ==>
          (i == j <==> Reach(Edges(adj), u, v) && Reach(Edges(adj), v, u)))
    && (forall i, j, u, v :: 0 <= i < |groups| && 0 <= j < |groups| && u in groups[i] && v in groups[j] ==>
          Reach(Edges(adj), u, v) ==> j <= i)
  }

  ghost predicate Listed(groups: seq<seq<nat>>, v: nat) {
    exists i :: 0 <= i < |groups| && v in groups[i]
  }

  lemma {:induction false} MembersAre(comp: seq<int>, n: nat, k: int)
    requires n <= |comp|
    ensures Distinct(Members(comp, n, k))
    ensures forall v: nat :: v in Members(comp, n, k) <==> v < n && comp[v] == k
  {
    if n > 0 {
      MembersAre(comp, n - 1, k);
    }
  }

  /** They are listed in ascending order. */
  lemma {:induction false} MembersAscend(comp: seq<int>, n: nat, k: int, i: nat, j: nat)
    requires n <= |comp| && i < j < |Members(comp, n, k)|
    ensures Members(comp, n, k)[i] < Members(comp, n, k)[j]
    decreases n
  {
    var before := Members(comp, n - 1, k);
    if j < |before| {
      MembersAscend(comp, n - 1, k, i, j);
    } else {
      MembersAre(comp, n - 1, k);
      assert before[i] in before;
    }
  }

  lemma OutEdgesAre(out: SccSlots, a: nat, b: nat)
    requires Linked(out)
    ensures (a, b) in Edges(Targets(out)) <==> HasEdge(out, a, b)
  {
    if (a, b) in Edges(Targets(out)) {
      var e :| 0 <= e < |Targets(out)[a]| && Targets(out)[a][e] == b;
      match out[a].outEdges[e].property
      case () => assert out[a].outEdges[e] == Edge(a, b, ());
    }
    if HasEdge(out, a, b) {
      var e :| 0 <= e < |out[a].outEdges| && out[a].outEdges[e] == Edge(a, b, ());
      assert Targets(out)[a][e] == b;
    }
  }

  ghost predicate AtMost(y: nat, x: nat) { y <= x }

  /** Edges of the condensation only go to smaller numbers, so it has no cycle. */
  lemma CondensationIsAcyclic(adj: Adjacency, comp: seq<int>, total: nat, out: SccSlots, a: nat)
    requires IsCondensation(adj, comp, total, out) && Linked(out)
    ensures !ReachesCycle(Edges(Targets(out)), a)
  {
    var E := Edges(Targets(out));
    if ReachesCycle(E, a) {
      var w: nat, x: nat :| Reach(E, a, w) && (w, x) in E && Reach(E, x, w);
      OutEdgesAre(out, w, x);
      var S := iset y: nat | AtMost(y, x);
      forall y, z | y in S && (y, z) in E
        ensures z in S
      {
        OutEdgesAre(out, y, z);
      }
      ReachStaysInClosedSet(E, S, x, w);
    }
  }

  /** Where component `k` stands in the visiting order. */
  ghost function Position(visited: seq<nat>, k: int): (i: nat)
    requires k >= 0 && k in visited
    ensures i < |visited| && visited[i] == k
  {
    var i :| 0 <= i < |visited| && visited[i] == k;
    i
  }

  lemma ReachedStandsEarlier(adj: Adjacency, comp: seq<int>, total: nat, out: SccSlots, visited: seq<nat>, u: nat,
                             v: nat)
    requires WellFormed(adj) && SccNumbering(adj, comp, total) && IsCondensation(adj, comp, total, out) && Linked(out)
    requires SuccessorsFirst(Edges(Targets(out)), visited) && (forall k: nat :: k < total ==> k in visited)
    requires u < |adj| && v < |adj| && Reach(Edges(adj), u, v)
    ensures Position(visited, comp[v]) <= Position(visited, comp[u])
  {
    var S := iset x: nat | x < |adj| && Position(visited, comp[x]) <= Position(visited, comp[u]);
    forall x, y | x in S && (x, y) in Edges(adj)
      ensures y in S
    {
      EdgeStandsEarlier(adj, comp, total, out, visited, x, y);
    }
    ReachStaysInClosedSet(Edges(adj), S, u, v);
  }

  lemma EdgeStandsEarlier(adj: Adjacency, comp: seq<int>, total: nat, out: SccSlots, visited: seq<nat>, x: nat, y: nat)
    requires WellFormed(adj) && SccNumbering(adj, comp, total) && IsCondensation(adj, comp, total, out) && Linked(out)
    requires SuccessorsFirst(Edges(Targets(out)), visited) && (forall k: nat :: k < total ==> k in visited)
    requires (x, y) in Edges(adj)
    ensures y < |adj| && Position(visited, comp[y]) <= Position(visited, comp[x])
  {
    var e :| 0 <= e < |adj[x]| && adj[x][e] == y;
    var a: nat, b: nat := comp[x], comp[y];
    if a != b {
      assert Joined(adj, comp, a, b);
      assert HasEdge(out, a, b);
      OutEdgesAre(out, a, b);
      var i := Position(visited, a);
      assert b in visited[..i];
      var j :| 0 <= j < i && visited[j] == b;
    }
  }

  /** The vertex groups stored for a visiting order of the condensation. */
  ghost function Groups(out: SccSlots, visited: seq<nat>): (r: seq<seq<nat>>)
    requires forall i :: 0 <= i < |visited| ==> visited[i] < |out|
    ensures |r| == |visited| && forall i :: 0 <= i < |r| ==> r[i] == out[visited[i]].property
  {
    seq(|visited|, i requires 0 <= i < |visited| => out[visited[i]].property)
  }

  lemma GroupMember(adj: Adjacency, comp: seq<int>, total: nat, out: SccSlots, visited: seq<nat>, i: nat, v: nat)
    requires SccNumbering(adj, comp, total) && IsCondensation(adj, comp, total, out) && Distinct(visited)
    requires (forall i :: 0 <= i < |visited| ==> visited[i] < |out|) && (forall k: nat :: k < total ==> k in visited)
    requires i < |visited|
    ensures v in Groups(out, visited)[i] <==> v < |adj| && Position(visited, comp[v]) == i
  {
    MembersAre(comp, |adj|, visited[i]);
    assert Groups(out, visited)[i] == Members(comp, |adj|, visited[i]);
    if v < |adj| {
      var p := Position(visited, comp[v]);
    }
  }

  lemma GroupsCalleesFirst(adj: Adjacency, comp: seq<int>, total: nat, out: SccSlots, visited: seq<nat>)
    requires WellFormed(adj) && SccNumbering(adj, comp, total) && IsCondensation(adj, comp, total, out) && Linked(out)
    requires SuccessorsFirst(Edges(Targets(out)), visited) && (forall k: nat :: k < total ==> k in visited)
    requires forall i :: 0 <= i < |visited| ==> visited[i] < |out|
    ensures CalleesFirst(adj, Groups(out, visited))
  {
    var groups := Groups(out, visited);
    forall i | 0 <= i < |groups|
      ensures Distinct(groups[i]) && forall j :: 0 <= j < |groups[i]| ==> groups[i][j] < |adj|
    {
      MembersAre(comp, |adj|, visited[i]);
      forall j | 0 <= j < |groups[i]|
        ensures groups[i][j] < |adj|
      {
        assert groups[i][j] in Members(comp, |adj|, visited[i]);
      }
    }
    forall v: nat | v < |adj|
      ensures Listed(groups, v)
    {
      GroupMember(adj, comp, total, out, visited, Position(visited, comp[v]), v);
    }
    forall i, j, u, v | 0 <= i < |groups| && 0 <= j < |groups| && u in groups[i] && v in groups[j]
      ensures i == j <==> Reach(Edges(adj), u, v) && Reach(Edges(adj), v, u)
      ensures Reach(Edges(adj), u, v) ==> j <= i
    {
      GroupMember(adj, comp, total, out, visited, i, u);
      GroupMember(adj, comp, total, out, visited, j, v);
      if Reach(Edges(adj), u, v) {
        ReachedStandsEarlier(adj, comp, total, out, visited, u, v);
      }
      assert i == j <==> comp[u] == comp[v];
    }
  }

  method StoreSccs<F, P>(graph: BaseGraph<F, P>)
    returns (dataSCCs: seq<seq<F>>, maxSccSize: nat, ghost groups: seq<seq<nat>>)
    requires graph.Valid() && |graph.slots| <= UNASSIGNED
    ensures CalleesFirst(Targets(graph.slots), groups)
    ensures |dataSCCs| == |groups| && forall i :: 0 <= i < |groups| ==> |dataSCCs[i]| == |groups[i]|
    ensures forall i, j :: 0 <= i < |groups| && 0 <= j < |groups[i]| ==>
              dataSCCs[i][j] == graph.slots[groups[i][j]].property
    ensures forall i :: 0 <= i < |dataSCCs| ==> |dataSCCs[i]| <= maxSccSize
    ensures maxSccSize == 0 || exists i :: 0 <= i < |dataSCCs| && |dataSCCs[i]| == maxSccSize
  {
    ghost var adj := Targets(graph.slots);
    TargetsWellFormed(graph.slots);
    var sccGraph := new BaseGraph<seq<nat>, ()>();
    var total, comp := StrongComponentsGraph(graph, sccGraph);
    var visited := BottomUpTraversal(sccGraph);
    forall k: nat | k < total
      ensures k in visited
    {
      CondensationIsAcyclic(adj, comp, total, sccGraph.slots, k);
    }
    assert forall i :: 0 <= i < |visited| ==> visited[i] in visited;
    GroupsCalleesFirst(adj, comp, total, sccGraph.slots, visited);
    groups := Groups(sccGraph.slots, visited);
    dataSCCs, maxSccSize := NameGroups(graph.slots, sccGraph.slots, visited, groups);
  }

  /** Turns the groups into functions, keeping the size of the largest. */
  method NameGroups<F, P>(g: Slots<F, P>, out: SccSlots, visited: seq<nat>, ghost groups: seq<seq<nat>>)
    returns (dataSCCs: seq<seq<F>>, maxSccSize: nat)
    requires |groups| == |visited|
    requires forall i :: 0 <= i < |visited| ==> visited[i] < |out| && groups[i] == out[visited[i]].property
    requires forall i, j :: 0 <= i < |groups| && 0 <= j < |groups[i]| ==> groups[i][j] < |g|
    ensures |dataSCCs| == |groups|
    ensures forall i :: 0 <= i < |groups| ==> dataSCCs[i] == Named(g, groups[i])
    ensures forall i :: 0 <= i < |dataSCCs| ==> |dataSCCs[i]| <= maxSccSize
    ensures maxSccSize == 0 || exists i :: 0 <= i < |dataSCCs| && |dataSCCs[i]| == maxSccSize
  {
    dataSCCs, maxSccSize := [], 0;
    for i := 0 to |visited|
      invariant |dataSCCs| == i && forall k :: 0 <= k < i ==> dataSCCs[k] == Named(g, groups[k])
      invariant forall k :: 0 <= k < i ==> |dataSCCs[k]| <= maxSccSize
      invariant maxSccSize == 0 || exists k :: 0 <= k < i && |dataSCCs[k]| == maxSccSize
    {
      var functions := Named(g, out[visited[i]].property);
      if |functions| > maxSccSize {
        maxSccSize := |functions|;
      }
      dataSCCs := dataSCCs + [functions];
    }
  }

  /** The functions that a list of vertices stands for. */
  function Named<F, P>(g: Slots<F, P>, vs: seq<nat>): (r: seq<F>)
    requires forall j :: 0 <= j < |vs| ==> vs[j] < |g|
    ensures |r| == |vs| && forall j :: 0 <= j < |r| ==> r[j] == g[vs[j]].property
  {
    seq(|vs|, j requires 0 <= j < |vs| => g[vs[j]].property)
  }

  /** On the call graph itself: both ends of an edge lie in some group, and the target's is the source's
      or an earlier one. */
  lemma CalleesComeFirst<F, P>(g: Slots<F, P>, groups: seq<seq<nat>>, u: nat, e: Edge<P>, i: nat, j: nat)
    requires Linked(g) && CalleesFirst(Targets(g), groups) && u < |g| && e in g[u].outEdges
    requires i < |groups| && u in groups[i] && j < |groups| && e.target in groups[j]
    ensures j <= i
  {
    EdgesAre(g, u, e.target);
    ReachStep(Edges(Targets(g)), u, e.target);
  }

  /** Two functions share a group exactly if every set closed under calls that holds one holds the other. */
  lemma GroupIff<F, P>(g: Slots<F, P>, groups: seq<seq<nat>>, u: nat, v: nat, i: nat, j: nat)
    requires CalleesFirst(Targets(g), groups)
    requires i < |groups| && u in groups[i] && j < |groups| && v in groups[j]
    ensures i == j <==> forall S: iset<nat> :: ClosedUnderCalls(g, S) ==> (u in S <==> v in S)
  {
    var E := Edges(Targets(g));
    ReachIffForced(E, u, v);
    ReachIffForced(E, v, u);
    forall S: iset<nat>
      ensures ClosedUnderCalls(g, S) <==> ClosedUnder(E, S)
    {
      CallsAreEdges(g, S);
    }
    if forall S: iset<nat> :: ClosedUnderCalls(g, S) ==> (u in S <==> v in S) {
      assert forall S: iset<nat> :: u in S && ClosedUnder(E, S) ==> v in S;
      assert forall S: iset<nat> :: v in S && ClosedUnder(E, S) ==> u in S;
    }
    if i == j {
      forall S: iset<nat> | ClosedUnderCalls(g, S)
        ensures u in S <==> v in S
      {
      }
    }
  }

  /** With a caller the set holds its callees. */
  ghost predicate ClosedUnderCalls<F, P>(g: Slots<F, P>, S: iset<nat>) {
    forall x: nat, k: nat :: x < |g| && k < |g[x].outEdges| && x in S ==> g[x].outEdges[k].target in S
  }

  lemma CallsAreEdges<F, P>(g: Slots<F, P>, S: iset<nat>)
    ensures ClosedUnderCalls(g, S) <==> ClosedUnder(Edges(Targets(g)), S)
  {
    var E := Edges(Targets(g));
    if ClosedUnderCalls(g, S) {
      forall x, y | x in S && (x, y) in E
        ensures y in S
      {
        var k: nat :| k < |Targets(g)[x]| && Targets(g)[x][k] == y;
        assert g[x].outEdges[k].target == y;
      }
    }
    if ClosedUnder(E, S) {
      forall x: nat, k: nat | x < |g| && k < |g[x].outEdges| && x in S
        ensures g[x].outEdges[k].target in S
      {
        assert Targets(g)[x][k] == g[x].outEdges[k].target;
        assert (x, g[x].outEdges[k].target) in E;
      }
    }
  }

  lemma EdgesAre<F, P>(g: Slots<F, P>, u: nat, v: nat)
    requires u < |g|
    ensures (u, v) in Edges(Targets(g)) <==> exists e :: e in g[u].outEdges && e.target == v
  {
    if (u, v) in Edges(Targets(g)) {
      var k :| 0 <= k < |Targets(g)[u]| && Targets(g)[u][k] == v;
      assert g[u].outEdges[k] in g[u].outEdges;
    }
    if e :| e in g[u].outEdges && e.target == v {
      var k :| 0 <= k < |g[u].outEdges| && g[u].outEdges[k] == e;
      assert Targets(g)[u][k] == v;
    }
  }
}
