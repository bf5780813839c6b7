/**
 The topology graph the ranking engine reads: a map from component id to
 component, each with the ids of its parents and children.
 */
module Topology {

  type Id = string

  /** A processing stage; `parallelism` is its number of executors. */
  datatype Component = Component(id: Id, parents: set<Id>, children: set<Id>, parallelism: int)

  type Graph = map<Id, Component>

  /** One topology: its id and its components by id. */
  datatype TopologySchedule = TopologySchedule(id: string, components: Graph)

  /** Recent throughput samples per component id, most recent last. */
  datatype TopologyStatistics = TopologyStatistics(
    emitThroughputHistory: map<Id, seq<int>>,
    executeThroughputHistory: map<Id, seq<int>>)

  /** Components with no children. */
  function Sinks(g: Graph): set<Id>
  {
    set c | c in g && g[c].children == {}
  }

  /** Components with no parents. */
  function Sources(g: Graph): set<Id>
  {
    set c | c in g && g[c].parents == {}
  }

  /**
   The graph is internally consistent: every component is stored under its
   own id, every parent and child id resolves, and `rank` strictly decreases
   from a component to each of its children, so the graph is acyclic and
   `rank` bounds the depth of the score recursion.
   */
  ghost predicate WellFormed(g: Graph, rank: map<Id, nat>)
  {
    && (forall c :: c in g ==> g[c].id == c && c in rank)
    && (forall c, p :: c in g && p in g[c].parents ==> p in g)
    && (forall c, k :: c in g && k in g[c].children ==> c in rank && k in g && k in rank && rank[k] < rank[c])
  }
}
