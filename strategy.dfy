/**
 The ETP strategy object. Each step of one ranking call fills its fields in
 place, as the source does; every loop is proved to compute the matching
 function of etp.dfy, so the properties proved there carry over to the
 ranking this class returns.
 */
module EtpStrategy {
  import opened Sums
  import opened Topology
  import opened Etp
  import opened Ranking

  /** `s` lists the elements of `elems`, each exactly once. */
  ghost predicate Enumerates(s: seq<Id>, elems: set<Id>)
  {
    && (forall i, j :: 0 <= i < j < |s| ==> s[i] != s[j])
    && (forall x :: x in s <==> x in elems)
  }

  lemma EnumeratesAppend(s: seq<Id>, elems: set<Id>, c: Id)
    requires Enumerates(s, elems) && c !in elems
    ensures Enumerates(s + [c], elems + {c})
  {
  }

  /** The rates a ranking call computes are enough for every later step. */
  lemma RatesSuffice(g: Graph, emit: map<Id, seq<int>>, exec: map<Id, seq<int>>)
    requires NonEmptyWindows(emit) && NonEmptyWindows(exec)
    requires Sinks(g) <= emit.Keys
    requires forall c :: c in exec ==> c in g && g[c].parents <= emit.Keys
    ensures MeanRates(emit).Keys == emit.Keys && MeanRates(exec).Keys == exec.Keys
    ensures Sinks(g) <= MeanRates(emit).Keys
    ensures CongestionDefined(g, MeanRates(emit), MeanRates(exec))
  {
  }

  class Strategy {
    const id: string
    const topologySchedule: TopologySchedule
    const topologyStatistics: TopologyStatistics
    /** Ranks that decrease from parent to child; they bound the score recursion. */
    ghost const rank: map<Id, nat>

    var componentEmitRates: map<Id, real>
    var componentExecuteRates: map<Id, real>
    var expectedEmitRates: map<Id, real>
    var expectedExecutedRates: map<Id, real>
    var parallelism: map<Id, int>
    var sourceList: seq<Id>
    var congestionMap: map<Id, real>
    var topologyETPMap: map<Id, real>

    /** No ranking call has run on this instance yet. */
    ghost predicate Fresh()
      reads this
    {
      && componentEmitRates == map[] && componentExecuteRates == map[]
      && expectedEmitRates == map[] && expectedExecutedRates == map[]
      && parallelism == map[] && sourceList == []
      && congestionMap == map[] && topologyETPMap == map[]
    }

    /**
     What a ranking call needs of its inputs to run without a failed lookup
     or an undefined average: a well-formed graph, non-empty windows, an emit
     history for every sink, and, for every component with an execute
     history, a graph entry and an emit history for each of its parents.
     */
    ghost predicate Ready()
    {
      var g := topologySchedule.components;
      var emit := topologyStatistics.emitThroughputHistory;
      var exec := topologyStatistics.executeThroughputHistory;
      && WellFormed(g, rank)
      && NonEmptyWindows(emit) && NonEmptyWindows(exec)
      && Sinks(g) <= emit.Keys
      && (forall c :: c in exec ==> c in g && g[c].parents <= emit.Keys)
    }

    constructor (tS: TopologySchedule, tStats: TopologyStatistics, ghost ranks: map<Id, nat>)
      ensures id == tS.id && topologySchedule == tS && topologyStatistics == tStats && rank == ranks
      ensures Fresh()
    {
      id := tS.id;
      topologySchedule := tS;
      topologyStatistics := tStats;
      rank := ranks;
      componentEmitRates := map[];
      componentExecuteRates := map[];
      parallelism := map[];
      congestionMap := map[];
      expectedEmitRates := map[];
      expectedExecutedRates := map[];
      sourceList := [];
      topologyETPMap := map[];
    }

    /**
     One ranking call: rates, congestion, sink shares, scores, and the
     result list sorted in direction `dir` (the descending and ascending
     entry points differ only in `dir`). A zero total sink throughput
     returns an empty ranking.
     */
    method TopologyEtpRank(dir: Direction) returns (resultComponents: seq<Ranked>)
      requires Fresh() && Ready()
      modifies this
      ensures expectedEmitRates == MeanRates(topologyStatistics.emitThroughputHistory)
      ensures expectedExecutedRates == MeanRates(topologyStatistics.executeThroughputHistory)
      ensures componentEmitRates == expectedEmitRates && componentExecuteRates == expectedExecutedRates
      ensures parallelism == map c | c in topologySchedule.components :: topologySchedule.components[c].parallelism
      ensures Enumerates(sourceList, Sources(topologySchedule.components))
      ensures CongestionDefined(topologySchedule.components, expectedEmitRates, expectedExecutedRates)
      ensures congestionMap == Congestion(topologySchedule.components, expectedEmitRates, expectedExecutedRates)
      ensures Sinks(topologySchedule.components) <= expectedEmitRates.Keys
      ensures var total := Total(topologySchedule.components, expectedEmitRates);
              && (total == 0.0 ==> resultComponents == [] && topologyETPMap == map[])
              && (total != 0.0 ==>
                    var shares := SinkShares(topologySchedule.components, expectedEmitRates, total);
                    && ScoreDefined(topologySchedule.components, rank, shares)
                    && topologyETPMap == Scores(topologySchedule.components, rank, congestionMap, shares)
                    && IsRanking(resultComponents, topologyETPMap, dir))
    {
      RatesSuffice(topologySchedule.components, topologyStatistics.emitThroughputHistory, topologyStatistics.executeThroughputHistory);
      EmptyUnion(MeanRates(topologyStatistics.emitThroughputHistory));
      EmptyUnion(MeanRates(topologyStatistics.executeThroughputHistory));
      CollectRates();
      EmptyUnion(componentEmitRates);
      EmptyUnion(componentExecuteRates);
      assert expectedEmitRates == MeanRates(topologyStatistics.emitThroughputHistory);
      assert expectedExecutedRates == MeanRates(topologyStatistics.executeThroughputHistory);
      assert sourceList[|old(sourceList)|..] == sourceList;
      ghost var degrees := map c | c in topologySchedule.components :: topologySchedule.components[c].parallelism;
      EmptyUnion(degrees);
      assert parallelism == degrees;
      assert componentEmitRates == expectedEmitRates && componentExecuteRates == expectedExecutedRates;
      ghost var flagged := Congestion(topologySchedule.components, expectedEmitRates, expectedExecutedRates);
      assert congestionMap == map[];
      EmptyUnion(flagged);
      CongestionDetection();
      assert congestionMap == flagged;

      resultComponents := RankByScore(dir);
    }

    /**
     The second half of a ranking call, once rates and congestion are known:
     sink shares, the score of every component, and the sorted result; a
     zero total sink throughput returns an empty ranking.
     */
    method RankByScore(dir: Direction) returns (resultComponents: seq<Ranked>)
      requires WellFormed(topologySchedule.components, rank)
      requires Sinks(topologySchedule.components) <= expectedEmitRates.Keys
      requires topologyETPMap == map[]
      modifies this`topologyETPMap
      ensures var total := Total(topologySchedule.components, expectedEmitRates);
              && (total == 0.0 ==> resultComponents == [] && topologyETPMap == map[])
              && (total != 0.0 ==>
                    var shares := SinkShares(topologySchedule.components, expectedEmitRates, total);
                    && ScoreDefined(topologySchedule.components, rank, shares)
                    && topologyETPMap == Scores(topologySchedule.components, rank, congestionMap, shares)
                    && IsRanking(resultComponents, topologyETPMap, dir))
    {
      var totalThroughput := TotalThroughput();
      if totalThroughput == 0.0 {
        return [];
      }

      var sinksMap := SinkSharesOf(totalThroughput);
      assert ScoreDefined(topologySchedule.components, rank, sinksMap);
      ghost var scores := Scores(topologySchedule.components, rank, congestionMap, sinksMap);
      EmptyUnion(scores);
      EtpScores(sinksMap);
      assert topologyETPMap == scores;

      var unsorted := ResultComponents();
      resultComponents := SortByScore(unsorted, dir);
      assert IsRanking(resultComponents, topologyETPMap, dir);
    }

    /** The ETP score of every component, stored under its id. */
    method EtpScores(sinksMap: map<Id, real>)
      requires ScoreDefined(topologySchedule.components, rank, sinksMap)
      modifies this`topologyETPMap
      ensures topologyETPMap == old(topologyETPMap) + Scores(topologySchedule.components, rank, congestionMap, sinksMap)
    {
      var components := topologySchedule.components;
      ghost var scores := Scores(components, rank, congestionMap, sinksMap);
      var rest := components.Keys;
      while rest != {}
        invariant rest <= components.Keys
        invariant topologyETPMap == old(topologyETPMap) + (scores - rest)
      {
        var c :| c in rest;
        var score := EtpCalculation(c, sinksMap);
        MapStep(old(topologyETPMap), scores, rest, c);
        topologyETPMap := topologyETPMap[c := score];
        rest := rest - {c};
      }
      assert scores - rest == scores;
    }

    /** Congestion detection: flags every component whose parents emit more than SLACK times its execute rate. */
    method CongestionDetection()
      requires CongestionDefined(topologySchedule.components, expectedEmitRates, expectedExecutedRates)
      modifies this`congestionMap
      ensures congestionMap == old(congestionMap) + Congestion(topologySchedule.components, expectedEmitRates, expectedExecutedRates)
    {
      var components := topologySchedule.components;
      ghost var flagged := Congestion(components, expectedEmitRates, expectedExecutedRates);
      var rest := expectedExecutedRates.Keys;
      while rest != {}
        invariant rest <= expectedExecutedRates.Keys
        invariant congestionMap == old(congestionMap) + (flagged - rest)
      {
        var c :| c in rest;
        var out := expectedExecutedRates[c];
        var inFlow := ParentEmitRate(c);
        if inFlow > SLACK * out {
          assert c in flagged && flagged[c] == inFlow - out;
          MapStep(old(congestionMap), flagged, rest, c);
          congestionMap := congestionMap[c := inFlow - out];
        } else {
          assert c !in flagged;
          MapStep(old(congestionMap), flagged, rest, c);
        }
        rest := rest - {c};
      }
    }

    /** The summed emit rate of the parents of `c`, from the congestion check. */
    method ParentEmitRate(c: Id) returns (inFlow: real)
      requires c in topologySchedule.components
      requires topologySchedule.components[c].parents <= expectedEmitRates.Keys
      ensures inFlow == InFlow(topologySchedule.components, expectedEmitRates, c)
    {
      inFlow := 0.0;
      var self := topologySchedule.components[c];
      if self.parents != {} {
        var parents := self.parents;
        while parents != {}
          invariant parents <= self.parents
          invariant inFlow + SumOver(parents, expectedEmitRates) == InFlow(topologySchedule.components, expectedEmitRates, c)
        {
          var p :| p in parents;
          SumOverRemove(parents, expectedEmitRates, p);
          inFlow := inFlow + expectedEmitRates[p];
          parents := parents - {p};
        }
      }
    }

    /** The ETP score of `c`, by recursion over its non-congested children. */
    method EtpCalculation(c: Id, sinksMap: map<Id, real>) returns (ret: real)
      requires ScoreDefined(topologySchedule.components, rank, sinksMap) && c in topologySchedule.components
      ensures ret == Score(topologySchedule.components, rank, congestionMap, sinksMap, c)
      decreases rank[c]
    {
      var components := topologySchedule.components;
      ret := 0.0;
      if components[c].children == {} {
        return sinksMap[c];
      }
      ghost var live := components[c].children - congestionMap.Keys;
      ghost var child := map k | k in live :: Score(components, rank, congestionMap, sinksMap, k);
      var rest := components[c].children;
      while rest != {}
        invariant rest <= components[c].children
        invariant ret + SumOver(rest - congestionMap.Keys, child) == SumOver(live, child)
      {
        var k :| k in rest;
        if k !in congestionMap {
          var s := EtpCalculation(k, sinksMap);
          assert k in live && child[k] == s;
          SumOverRemove(rest - congestionMap.Keys, child, k);
          ret := ret + s;
          assert (rest - {k}) - congestionMap.Keys == (rest - congestionMap.Keys) - {k};
        } else {
          assert (rest - {k}) - congestionMap.Keys == rest - congestionMap.Keys;
        }
        rest := rest - {k};
      }
      assert rest - congestionMap.Keys == {};
    }

    /**
     Rate collection: the mean of every emit and execute window, the
     parallelism of every component, and the sources appended to sourceList.
     */
    method CollectRates()
      requires NonEmptyWindows(topologyStatistics.emitThroughputHistory)
      requires NonEmptyWindows(topologyStatistics.executeThroughputHistory)
      modifies this
      ensures componentEmitRates == old(componentEmitRates) + MeanRates(topologyStatistics.emitThroughputHistory)
      ensures expectedEmitRates == old(expectedEmitRates) + componentEmitRates
      ensures componentExecuteRates == old(componentExecuteRates) + MeanRates(topologyStatistics.executeThroughputHistory)
      ensures expectedExecutedRates == old(expectedExecutedRates) + componentExecuteRates
      ensures parallelism == old(parallelism) + map c | c in topologySchedule.components :: topologySchedule.components[c].parallelism
      ensures |old(sourceList)| <= |sourceList| && sourceList[..|old(sourceList)|] == old(sourceList)
      ensures Enumerates(sourceList[|old(sourceList)|..], Sources(topologySchedule.components))
      ensures congestionMap == old(congestionMap) && topologyETPMap == old(topologyETPMap)
    {
      CollectEmitRates();
      expectedEmitRates := expectedEmitRates + componentEmitRates;
      CollectExecuteRates();
      expectedExecutedRates := expectedExecutedRates + componentExecuteRates;
      CollectParallelism();
      CollectSources();
    }

    /** The mean of every emit window, stored under its component id. */
    method CollectEmitRates()
      requires NonEmptyWindows(topologyStatistics.emitThroughputHistory)
      modifies this`componentEmitRates
      ensures componentEmitRates == old(componentEmitRates) + MeanRates(topologyStatistics.emitThroughputHistory)
    {
      var emitHistory := topologyStatistics.emitThroughputHistory;
      ghost var emitMeans := MeanRates(emitHistory);
      var rest := emitHistory.Keys;
      while rest != {}
        invariant rest <= emitHistory.Keys
        invariant componentEmitRates == old(componentEmitRates) + (emitMeans - rest)
      {
        var c :| c in rest;
        var average := ComputeMovingAverage(emitHistory[c]);
        MapStep(old(componentEmitRates), emitMeans, rest, c);
        componentEmitRates := componentEmitRates[c := average];
        rest := rest - {c};
      }
      assert emitMeans - rest == emitMeans;
    }

    /** The mean of every execute window, stored under its component id. */
    method CollectExecuteRates()
      requires NonEmptyWindows(topologyStatistics.executeThroughputHistory)
      modifies this`componentExecuteRates
      ensures componentExecuteRates == old(componentExecuteRates) + MeanRates(topologyStatistics.executeThroughputHistory)
    {
      var executeHistory := topologyStatistics.executeThroughputHistory;
      ghost var executeMeans := MeanRates(executeHistory);
      var rest := executeHistory.Keys;
      while rest != {}
        invariant rest <= executeHistory.Keys
        invariant componentExecuteRates == old(componentExecuteRates) + (executeMeans - rest)
      {
        var c :| c in rest;
        var average := ComputeMovingAverage(executeHistory[c]);
        MapStep(old(componentExecuteRates), executeMeans, rest, c);
        componentExecuteRates := componentExecuteRates[c := average];
        rest := rest - {c};
      }
      assert executeMeans - rest == executeMeans;
    }

    /** The executor count of every component, by id. */
    method CollectParallelism()
      modifies this`parallelism
      ensures parallelism == old(parallelism) + map c | c in topologySchedule.components :: topologySchedule.components[c].parallelism
    {
      var components := topologySchedule.components;
      ghost var counts := map c | c in components :: components[c].parallelism;
      var rest := components.Keys;
      while rest != {}
        invariant rest <= components.Keys
        invariant parallelism == old(parallelism) + (counts - rest)
      {
        var c :| c in rest;
        MapStep(old(parallelism), counts, rest, c);
        parallelism := parallelism[c := components[c].parallelism];
        rest := rest - {c};
      }
      assert counts - rest == counts;
    }

    /** The sources of the graph, appended to sourceList one by one. */
    method CollectSources()
      modifies this`sourceList
      ensures |old(sourceList)| <= |sourceList| && sourceList[..|old(sourceList)|] == old(sourceList)
      ensures Enumerates(sourceList[|old(sourceList)|..], Sources(topologySchedule.components))
    {
      var components := topologySchedule.components;
      var rest := components.Keys;
      ghost var start := |sourceList|;
      assert sourceList[start..] == [] && Sources(components) - rest == {};
      while rest != {}
        invariant rest <= components.Keys
        invariant start <= |sourceList| && sourceList[..start] == old(sourceList)
        invariant Enumerates(sourceList[start..], Sources(components) - rest)
      {
        var c :| c in rest;
        ghost var before := sourceList[start..];
        if components[c].parents == {} {
          assert (sourceList + [c])[..start] == sourceList[..start];
          assert (sourceList + [c])[start..] == before + [c];
          EnumeratesAppend(before, Sources(components) - rest, c);
          assert Sources(components) - (rest - {c}) == (Sources(components) - rest) + {c};
          sourceList := sourceList + [c];
        } else {
          assert Sources(components) - (rest - {c}) == Sources(components) - rest;
        }
        rest := rest - {c};
      }
      assert Sources(components) - rest == Sources(components);
    }

    /** The smoothed rate of one window: the arithmetic mean of its samples. */
    method ComputeMovingAverage(rates: seq<int>) returns (average: real)
      requires |rates| > 0
      ensures average == Mean(rates)
    {
      var sum := 0.0;
      for i := 0 to |rates|
        invariant sum == Sum(rates[..i]) as real
      {
        assert rates[..i + 1][..i] == rates[..i];
        sum := sum + rates[i] as real;
      }
      assert rates[..|rates|] == rates;
      average := sum / (|rates| as real * 1.0);
    }

    /** Total emit rate over the sinks. */
    method TotalThroughput() returns (totalThroughput: real)
      requires Sinks(topologySchedule.components) <= expectedEmitRates.Keys
      ensures totalThroughput == Total(topologySchedule.components, expectedEmitRates)
    {
      var components := topologySchedule.components;
      var sinks := Sinks(components);
      totalThroughput := 0.0;
      var rest := components.Keys;
      assert sinks * rest == sinks;
      while rest != {}
        invariant rest <= components.Keys
        invariant totalThroughput + SumOver(sinks * rest, expectedEmitRates) == SumOver(sinks, expectedEmitRates)
      {
        var c :| c in rest;
        if components[c].children == {} {
          SumOverRemove(sinks * rest, expectedEmitRates, c);
          totalThroughput := totalThroughput + expectedEmitRates[c];
          assert sinks * (rest - {c}) == sinks * rest - {c};
        } else {
          assert sinks * (rest - {c}) == sinks * rest;
        }
        rest := rest - {c};
      }
    }

    /** Each sink's emit rate divided by the total. */
    method SinkSharesOf(totalThroughput: real) returns (sinksMap: map<Id, real>)
      requires Sinks(topologySchedule.components) <= expectedEmitRates.Keys && totalThroughput != 0.0
      ensures sinksMap == SinkShares(topologySchedule.components, expectedEmitRates, totalThroughput)
    {
      var components := topologySchedule.components;
      ghost var shares := SinkShares(components, expectedEmitRates, totalThroughput);
      sinksMap := map[];
      var rest := components.Keys;
      while rest != {}
        invariant rest <= components.Keys
        invariant sinksMap == shares - rest
      {
        var c :| c in rest;
        if components[c].children == {} {
          var throughputOfSink := expectedEmitRates[c];
          sinksMap := sinksMap[c := throughputOfSink / totalThroughput];
        }
        rest := rest - {c};
      }
    }

    /** The (component, score) pairs of the score map, in key-set order. */
    method ResultComponents() returns (resultComponents: seq<Ranked>)
      ensures multiset(resultComponents) == multiset(Entries(topologyETPMap))
    {
      resultComponents := [];
      var rest := topologyETPMap.Keys;
      while rest != {}
        invariant rest <= topologyETPMap.Keys
        invariant multiset(resultComponents) == multiset(Entries(topologyETPMap - rest))
      {
        var c :| c in rest;
        EntriesStep(topologyETPMap, rest, c);
        resultComponents := resultComponents + [Ranked(c, topologyETPMap[c])];
        rest := rest - {c};
      }
      assert topologyETPMap - {} == topologyETPMap;
    }
  }
}
