/**
 The meaning of the Effective Throughput Percentage (ETP) ranking: smoothed
 rates, congestion, sink shares and the recursive score, as functions of the
 graph and the sample histories, with the properties the ranking relies on.
 The imperative class in strategy.dfy is proved equal to these.
 */
module Etp {
  import opened Sums
  import opened Topology

  /** Every sample window is non-empty (an empty one averages to 0.0/0.0). */
  predicate NonEmptyWindows(h: map<Id, seq<int>>)
  {
    forall c :: c in h ==> |h[c]| > 0
  }

  predicate NonNegativeSamples(h: map<Id, seq<int>>)
  {
    forall c, i :: c in h && 0 <= i < |h[c]| ==> h[c][i] >= 0
  }

  /** Smoothed rate of each component with a history: the mean of its window. */
  function MeanRates(h: map<Id, seq<int>>): map<Id, real>
    requires NonEmptyWindows(h)
  {
    map c | c in h :: Mean(h[c])
  }

  /** Non-negative samples give non-negative smoothed rates. */
  lemma MeanRatesNonNegative(h: map<Id, seq<int>>)
    requires NonEmptyWindows(h) && NonNegativeSamples(h)
    ensures forall c :: c in MeanRates(h) ==> MeanRates(h)[c] >= 0.0
  {
    forall c | c in h
      ensures Mean(h[c]) >= 0.0
    {
      MeanNonNegative(h[c]);
    }
  }

  // ---------------------------------------------------------------- congestion

  /** The slack factor: 20% burst is tolerated before flagging backpressure. */
  const SLACK: real := 1.2

  /**
   Congestion detection can run: every component with an execute rate is in
   the graph, and each of its parents has an emit rate.
   */
  ghost predicate CongestionDefined(g: Graph, emit: map<Id, real>, exec: map<Id, real>)
  {
    forall c :: c in exec ==> c in g && g[c].parents <= emit.Keys
  }

  /** Total emit rate of the parents of `c` (0 for a source). */
  ghost function InFlow(g: Graph, emit: map<Id, real>, c: Id): real
    requires c in g && g[c].parents <= emit.Keys
  {
    SumOver(g[c].parents, emit)
  }

  /**
   The congested components, each with its amount in − out: those with an
   execute rate `out` whose parents emit more than SLACK · out.
   */
  ghost function Congestion(g: Graph, emit: map<Id, real>, exec: map<Id, real>): map<Id, real>
    requires CongestionDefined(g, emit, exec)
  {
    map c | c in exec && InFlow(g, emit, c) > SLACK * exec[c] :: InFlow(g, emit, c) - exec[c]
  }

  /** A source (no parents) with a non-negative execute rate is never congested. */
  lemma SourceNeverCongested(g: Graph, emit: map<Id, real>, exec: map<Id, real>, c: Id)
    requires CongestionDefined(g, emit, exec)
    requires c in exec && g[c].parents == {} && exec[c] >= 0.0
    ensures c !in Congestion(g, emit, exec)
  {
  }

  /**
   Raising the execute rate of `c`, with every emit rate fixed, can only
   remove `c` from the congestion map and only shrink its amount; no other
   component's entry changes.
   */
  lemma CongestionMonotone(g: Graph, emit: map<Id, real>, exec: map<Id, real>, c: Id, faster: real)
    requires CongestionDefined(g, emit, exec)
    requires c in exec && faster >= exec[c]
    ensures CongestionDefined(g, emit, exec[c := faster])
    ensures c in Congestion(g, emit, exec[c := faster]) ==> c in Congestion(g, emit, exec)
    ensures c in Congestion(g, emit, exec[c := faster]) ==>
              Congestion(g, emit, exec[c := faster])[c] <= Congestion(g, emit, exec)[c]
    ensures forall d :: d != c ==>
              (d in Congestion(g, emit, exec[c := faster]) <==> d in Congestion(g, emit, exec))
  {
  }

  /** With non-negative execute rates every recorded amount in − out is positive. */
  lemma CongestionAmountPositive(g: Graph, emit: map<Id, real>, exec: map<Id, real>)
    requires CongestionDefined(g, emit, exec)
    requires forall c :: c in exec ==> exec[c] >= 0.0
    ensures forall c :: c in Congestion(g, emit, exec) ==> Congestion(g, emit, exec)[c] > 0.0
  {
  }

  /**
   The threshold at work: a parent emitting 100 against an execute rate of 83
   (100 > 99.6) is congested by 17; against 84 (100 <= 100.8) it is not.
   */
  lemma CongestionThresholdExample()
    ensures var g := map["P" := Component("P", {}, {"C"}, 1), "C" := Component("C", {"P"}, {}, 1)];
            var emit := map["P" := 100.0];
            && CongestionDefined(g, emit, map["C" := 83.0])
            && Congestion(g, emit, map["C" := 83.0]) == map["C" := 17.0]
            && CongestionDefined(g, emit, map["C" := 84.0])
            && Congestion(g, emit, map["C" := 84.0]) == map[]
  {
    var g := map["P" := Component("P", {}, {"C"}, 1), "C" := Component("C", {"P"}, {}, 1)];
    var emit := map["P" := 100.0];
    assert Pick({"P"}) == "P";
    assert InFlow(g, emit, "C") == 100.0;
  }

  // ---------------------------------------------------------------- sink shares

  /** Sum of the emit rates of the sinks. */
  ghost function Total(g: Graph, emit: map<Id, real>): real
    requires Sinks(g) <= emit.Keys
  {
    SumOver(Sinks(g), emit)
  }

  /** Each sink's emit rate as a fraction of `total`. */
  function SinkShares(g: Graph, emit: map<Id, real>, total: real): map<Id, real>
    requires Sinks(g) <= emit.Keys && total != 0.0
  {
    map s | s in Sinks(g) :: emit[s] / total
  }

  /** Normalising by the total makes the sink shares sum to 1. */
  lemma SharesSumToOne(g: Graph, emit: map<Id, real>)
    requires Sinks(g) <= emit.Keys && Total(g, emit) != 0.0
    ensures SumOver(Sinks(g), SinkShares(g, emit, Total(g, emit))) == 1.0
  {
    var total := Total(g, emit);
    SumOverScaled(Sinks(g), emit, SinkShares(g, emit, total), total);
  }

  /** With non-negative sink rates and a positive total, every share is in [0, 1]. */
  lemma SharesAreFractions(g: Graph, emit: map<Id, real>)
    requires Sinks(g) <= emit.Keys
    requires forall s :: s in Sinks(g) ==> emit[s] >= 0.0
    requires Total(g, emit) > 0.0
    ensures forall s :: s in Sinks(g) ==> 0.0 <= SinkShares(g, emit, Total(g, emit))[s] <= 1.0
  {
    var total := Total(g, emit);
    forall s | s in Sinks(g)
      ensures 0.0 <= emit[s] / total <= 1.0
    {
      SumOverAtLeastTerm(Sinks(g), emit, s);
      QuotientBounds(emit[s], total, 0.0, 1.0);
    }
  }

  // ---------------------------------------------------------------- ETP score

  /** The score recursion is defined: the graph is well formed and every sink has a share. */
  ghost predicate ScoreDefined(g: Graph, rank: map<Id, nat>, shares: map<Id, real>)
  {
    WellFormed(g, rank) && Sinks(g) <= shares.Keys
  }

  /**
   ETP score of `c`: a sink scores its share; any other component scores the
   sum of the scores of its children that are not congested.
   */
  ghost function Score(g: Graph, rank: map<Id, nat>, congestion: map<Id, real>, shares: map<Id, real>, c: Id): real
    requires ScoreDefined(g, rank, shares) && c in g
    decreases rank[c]
  {
    if g[c].children == {} then shares[c]
    else
      var live := g[c].children - congestion.Keys;
      SumOver(live, map k | k in live :: Score(g, rank, congestion, shares, k))
  }

  /** The score of every component. */
  ghost function Scores(g: Graph, rank: map<Id, nat>, congestion: map<Id, real>, shares: map<Id, real>): map<Id, real>
    requires ScoreDefined(g, rank, shares)
  {
    map c | c in g :: Score(g, rank, congestion, shares, c)
  }

  /** Non-negative shares give non-negative scores everywhere. */
  lemma {:induction false} ScoreNonNegative(g: Graph, rank: map<Id, nat>, congestion: map<Id, real>, shares: map<Id, real>, c: Id)
    requires ScoreDefined(g, rank, shares) && c in g
    requires forall s :: s in shares ==> shares[s] >= 0.0
    ensures Score(g, rank, congestion, shares, c) >= 0.0
    decreases rank[c]
  {
    if g[c].children != {} {
      var live := g[c].children - congestion.Keys;
      var child := map k | k in live :: Score(g, rank, congestion, shares, k);
      forall k | k in live
        ensures child[k] >= 0.0
      {
        ScoreNonNegative(g, rank, congestion, shares, k);
      }
      SumOverNonNegative(live, child);
    }
  }

  /** A component whose children are all congested scores 0: its output is blocked. */
  lemma ScoreAllChildrenCongested(g: Graph, rank: map<Id, nat>, congestion: map<Id, real>, shares: map<Id, real>, c: Id)
    requires ScoreDefined(g, rank, shares) && c in g
    requires g[c].children != {} && g[c].children <= congestion.Keys
    ensures Score(g, rank, congestion, shares, c) == 0.0
  {
    assert g[c].children - congestion.Keys == {};
  }

  /**
   A component whose only child is not congested scores what that child
   scores: congestion prunes a component from its parent's sum, not its own.
   */
  lemma ScoreSingleLiveChild(g: Graph, rank: map<Id, nat>, congestion: map<Id, real>, shares: map<Id, real>, c: Id, k: Id)
    requires ScoreDefined(g, rank, shares) && c in g
    requires g[c].children == {k} && k !in congestion
    ensures k in g
    ensures Score(g, rank, congestion, shares, c) == Score(g, rank, congestion, shares, k)
  {
    var live := g[c].children - congestion.Keys;
    assert live == {k};
    var child := map j | j in live :: Score(g, rank, congestion, shares, j);
    assert Score(g, rank, congestion, shares, c) == SumOver(live, child);
    SumOverRemove(live, child, k);
    assert live - {k} == {};
  }

  /** With fractional shares, a sink scores at most 1. */
  lemma SinkScoreAtMostOne(g: Graph, rank: map<Id, nat>, congestion: map<Id, real>, emit: map<Id, real>, s: Id)
    requires WellFormed(g, rank)
    requires Sinks(g) <= emit.Keys
    requires forall t :: t in Sinks(g) ==> emit[t] >= 0.0
    requires Total(g, emit) > 0.0
    requires s in Sinks(g)
    ensures ScoreDefined(g, rank, SinkShares(g, emit, Total(g, emit)))
    ensures 0.0 <= Score(g, rank, congestion, SinkShares(g, emit, Total(g, emit)), s) <= 1.0
  {
    SharesAreFractions(g, emit);
  }

  /** The chain A -> B -> C is well formed under ranks 2, 1, 0. */
  lemma ChainWellFormed(g: Graph, rank: map<Id, nat>)
    requires g == map["A" := Component("A", {}, {"B"}, 1),
                      "B" := Component("B", {"A"}, {"C"}, 1),
                      "C" := Component("C", {"B"}, {}, 1)]
    requires rank == map["A" := 2, "B" := 1, "C" := 0]
    ensures WellFormed(g, rank)
  {
    assert g.Keys == {"A", "B", "C"};
  }

  /** The chain A -> B -> C: its only sink C holds the whole share. */
  lemma ChainShares(g: Graph, rank: map<Id, nat>, emit: map<Id, real>)
    requires g == map["A" := Component("A", {}, {"B"}, 1),
                      "B" := Component("B", {"A"}, {"C"}, 1),
                      "C" := Component("C", {"B"}, {}, 1)]
    requires rank == map["A" := 2, "B" := 1, "C" := 0]
    requires "C" in emit && emit["C"] != 0.0
    ensures Sinks(g) == {"C"} && Total(g, emit) == emit["C"]
    ensures SinkShares(g, emit, emit["C"]) == map["C" := 1.0]
    ensures ScoreDefined(g, rank, map["C" := 1.0])
  {
    ChainWellFormed(g, rank);
    assert Sinks(g) == {"C"};
    assert Pick({"C"}) == "C";
    var shares := SinkShares(g, emit, emit["C"]);
    assert shares.Keys == {"C"};
    assert shares["C"] == emit["C"] / emit["C"] == 1.0;
  }

  /**
   A chain A -> B -> C without congestion: the sink C holds the whole share,
   and every upstream stage inherits it through its live child.
   */
  lemma ChainExample(g: Graph, rank: map<Id, nat>, emit: map<Id, real>)
    requires g == map["A" := Component("A", {}, {"B"}, 1),
                      "B" := Component("B", {"A"}, {"C"}, 1),
                      "C" := Component("C", {"B"}, {}, 1)]
    requires rank == map["A" := 2, "B" := 1, "C" := 0]
    requires emit == map["A" := 10.0, "B" := 10.0, "C" := 10.0]
    ensures Sinks(g) <= emit.Keys && Total(g, emit) == 10.0
    ensures ScoreDefined(g, rank, SinkShares(g, emit, 10.0))
    ensures Scores(g, rank, map[], SinkShares(g, emit, 10.0)) == map["A" := 1.0, "B" := 1.0, "C" := 1.0]
  {
    ChainShares(g, rank, emit);
    var shares := map["C" := 1.0];
    assert Score(g, rank, map[], shares, "C") == 1.0;
    ScoreSingleLiveChild(g, rank, map[], shares, "B", "C");
    ScoreSingleLiveChild(g, rank, map[], shares, "A", "B");
    ghost var scores := Scores(g, rank, map[], shares);
    assert scores.Keys == {"A", "B", "C"};
    MapOfThree(scores, "A", "B", "C", 1.0, 1.0, 1.0);
  }

  /**
   The same chain with A emitting 10 and B and C each executing and emitting
   8: B receives 10 > 1.2 * 8 and is congested by 2, while C receives
   8 <= 1.2 * 8 and is not.
   */
  lemma CongestedChainCongestion(g: Graph, emit: map<Id, real>, exec: map<Id, real>)
    requires g == map["A" := Component("A", {}, {"B"}, 1),
                      "B" := Component("B", {"A"}, {"C"}, 1),
                      "C" := Component("C", {"B"}, {}, 1)]
    requires emit == map["A" := 10.0, "B" := 8.0, "C" := 8.0]
    requires exec == map["B" := 8.0, "C" := 8.0]
    ensures CongestionDefined(g, emit, exec)
    ensures Congestion(g, emit, exec) == map["B" := 2.0]
  {
    assert Pick({"A"}) == "A";
    assert Pick({"B"}) == "B";
    assert InFlow(g, emit, "B") == 10.0;
    assert InFlow(g, emit, "C") == 8.0;
  }

  /**
   With B congested, congestion prunes B from its parent's sum but not from
   its own: C and B score 1, and A, whose only child is B, scores 0.
   */
  lemma CongestedChainScores(g: Graph, rank: map<Id, nat>, emit: map<Id, real>, congestion: map<Id, real>)
    requires g == map["A" := Component("A", {}, {"B"}, 1),
                      "B" := Component("B", {"A"}, {"C"}, 1),
                      "C" := Component("C", {"B"}, {}, 1)]
    requires rank == map["A" := 2, "B" := 1, "C" := 0]
    requires emit == map["A" := 10.0, "B" := 8.0, "C" := 8.0]
    requires congestion == map["B" := 2.0]
    ensures Sinks(g) <= emit.Keys && Total(g, emit) == 8.0
    ensures ScoreDefined(g, rank, SinkShares(g, emit, 8.0))
    ensures Scores(g, rank, congestion, SinkShares(g, emit, 8.0)) == map["A" := 0.0, "B" := 1.0, "C" := 1.0]
  {
    ChainShares(g, rank, emit);
    var shares := map["C" := 1.0];
    assert Score(g, rank, congestion, shares, "C") == 1.0;
    ScoreSingleLiveChild(g, rank, congestion, shares, "B", "C");
    ScoreAllChildrenCongested(g, rank, congestion, shares, "A");
    ghost var scores := Scores(g, rank, congestion, shares);
    assert scores.Keys == {"A", "B", "C"};
    MapOfThree(scores, "A", "B", "C", 0.0, 1.0, 1.0);
  }

  /**
   The scenario from sample windows: A emits 10, 10; B and C execute and
   emit 8, 8. The smoothed rates congest B alone, the total is 8, and the
   scores are A 0, B 1 and C 1.
   */
  lemma CongestedChainExample(g: Graph, rank: map<Id, nat>, emitHistory: map<Id, seq<int>>, executeHistory: map<Id, seq<int>>)
    requires g == map["A" := Component("A", {}, {"B"}, 1),
                      "B" := Component("B", {"A"}, {"C"}, 1),
                      "C" := Component("C", {"B"}, {}, 1)]
    requires rank == map["A" := 2, "B" := 1, "C" := 0]
    requires emitHistory == map["A" := [10, 10], "B" := [8, 8], "C" := [8, 8]]
    requires executeHistory == map["B" := [8, 8], "C" := [8, 8]]
    ensures NonEmptyWindows(emitHistory) && NonEmptyWindows(executeHistory)
    ensures CongestionDefined(g, MeanRates(emitHistory), MeanRates(executeHistory))
    ensures Congestion(g, MeanRates(emitHistory), MeanRates(executeHistory)) == map["B" := 2.0]
    ensures Sinks(g) <= MeanRates(emitHistory).Keys && Total(g, MeanRates(emitHistory)) == 8.0
    ensures ScoreDefined(g, rank, SinkShares(g, MeanRates(emitHistory), 8.0))
    ensures Scores(g, rank, map["B" := 2.0], SinkShares(g, MeanRates(emitHistory), 8.0))
            == map["A" := 0.0, "B" := 1.0, "C" := 1.0]
  {
    MeanOfConstant([10, 10], 10);
    MeanOfConstant([8, 8], 8);
    var emit := MeanRates(emitHistory);
    var exec := MeanRates(executeHistory);
    assert emit.Keys == {"A", "B", "C"};
    MapOfThree(emit, "A", "B", "C", 10.0, 8.0, 8.0);
    assert exec == map["B" := 8.0, "C" := 8.0];
    CongestedChainCongestion(g, emit, exec);
    CongestedChainScores(g, rank, emit, map["B" := 2.0]);
  }

  /** A map on three keys is the three-entry map of its values. */
  lemma MapOfThree(m: map<Id, real>, a: Id, b: Id, c: Id, va: real, vb: real, vc: real)
    requires m.Keys == {a, b, c} && m[a] == va && m[b] == vb && m[c] == vc
    ensures m == map[a := va, b := vb, c := vc]
  {
  }

  // ---------------------------------------------------------------- zero throughput as written

  /** Result of a Java double division: a finite value, NaN, or a signed infinity. */
  datatype Quotient = Finite(value: real) | NaN | Infinity(negative: bool)

  /** Java's `a / b` on doubles: 0/0 is NaN, x/0 is an infinity signed like x. */
  function JavaDivide(a: real, b: real): (q: Quotient)
    ensures b != 0.0 ==> q == Finite(a / b)
    ensures b == 0.0 ==> (q == NaN <==> a == 0.0)
  {
    if b != 0.0 then Finite(a / b)
    else if a == 0.0 then NaN
    else Infinity(a < 0.0)
  }

  /**
   The sink map as the source builds it: its zero-throughput guard does not
   return, so the division always happens, even by a zero total.
   */
  function SinkSharesAsWritten(g: Graph, emit: map<Id, real>, total: real): (r: map<Id, Quotient>)
    requires Sinks(g) <= emit.Keys
    ensures r.Keys == Sinks(g)
    ensures total != 0.0 ==> forall s :: s in r ==> r[s] == Finite(SinkShares(g, emit, total)[s])
  {
    map s | s in Sinks(g) :: JavaDivide(emit[s], total)
  }

  /**
   With non-negative rates and a zero total, every sink rate is 0, so every
   share the source computes is NaN and no share is a fraction.
   */
  lemma ZeroThroughputSharesAreNaN(g: Graph, emit: map<Id, real>)
    requires Sinks(g) <= emit.Keys
    requires forall s :: s in Sinks(g) ==> emit[s] >= 0.0
    requires Total(g, emit) == 0.0
    ensures forall s :: s in Sinks(g) ==> SinkSharesAsWritten(g, emit, Total(g, emit))[s] == NaN
  {
    forall s | s in Sinks(g)
      ensures emit[s] == 0.0
    {
      SumOverAtLeastTerm(Sinks(g), emit, s);
    }
  }

  /** One idle sink is enough: its share comes out as NaN. */
  lemma ZeroThroughputExample()
    ensures var g := map["out" := Component("out", {}, {}, 1)];
            var emit := map["out" := 0.0];
            && Sinks(g) <= emit.Keys
            && Total(g, emit) == 0.0
            && SinkSharesAsWritten(g, emit, Total(g, emit)) == map["out" := NaN]
  {
    var g := map["out" := Component("out", {}, {}, 1)];
    assert Sinks(g) == {"out"};
    assert Pick({"out"}) == "out";
  }
}
