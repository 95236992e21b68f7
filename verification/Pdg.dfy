/** The program dependence graph: what the reachability passes read and write of it. Functions are
    opaque numbers. */
module Pdg {
  import opened Graphs

  import opened Options

  datatype EdgeKind =
    | Control | Data | Equals | Part | Deref | Param | Return | Invocation
    | SummaryData | SummaryEquals | SummaryInvocation

  datatype PdgEdge = PdgEdge(kind: EdgeKind, index: nat)

  datatype PdgNode = PdgNode(owner: Option<nat>, ipcsink: bool, reachesIpcSink: bool)

  /** The vertex is an IPC sink or its data flows into one. */
  predicate Flagged(n: PdgNode) { n.ipcsink || n.reachesIpcSink }

  type PdgSlots = Slots<PdgNode, PdgEdge>

  /** An edge of one of the given kinds runs from `u` to `v`. */
  ghost predicate Flows(g: PdgSlots, kinds: set<EdgeKind>, u: nat, v: nat) {
    u < |g| &&
    exists i :: 0 <= i < |g[u].outEdges| && g[u].outEdges[i].target == v && g[u].outEdges[i].property.kind in kinds
  }

  /** The vertex is global or belongs to one of the functions. */
  predicate InScope(g: PdgSlots, functions: seq<Option<nat>>, v: nat) {
    v < |g| && (g[v].property.owner == None || g[v].property.owner in functions)
  }

  /** The same edge seen from its target's in-list. */
  lemma FlowsBackwards(g: PdgSlots, kinds: set<EdgeKind>, u: nat, v: nat)
    requires Mirrored(g) && v < |g|
    ensures Flows(g, kinds, u, v) <==>
            exists i :: 0 <= i < |g[v].inEdges| && g[v].inEdges[i].source == u && g[v].inEdges[i].property.kind in kinds
  {
    if Flows(g, kinds, u, v) {
      var i :| 0 <= i < |g[u].outEdges| && g[u].outEdges[i].target == v && g[u].outEdges[i].property.kind in kinds;
      var e := g[u].outEdges[i];
      BetweenMembers(g[u].outEdges, u, v, e);
      BetweenMembers(g[v].inEdges, u, v, e);
      assert e in g[v].inEdges;
    }
    if i :| 0 <= i < |g[v].inEdges| && g[v].inEdges[i].source == u && g[v].inEdges[i].property.kind in kinds {
      var e := g[v].inEdges[i];
      BetweenMembers(g[u].outEdges, u, v, e);
      BetweenMembers(g[v].inEdges, u, v, e);
      assert e in g[u].outEdges;
    }
  }
}
