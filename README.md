# ETP ranking strategy and per-node statistics (Advanced Stela)

This project models two classes of the Advanced Stela scheduler for Apache
Storm.

- `Strategy` ranks the components of a streaming topology by their
  Effective Throughput Percentage (ETP). It works in four steps:
  - it smooths each component's recent emit and execute throughput samples
    into mean rates;
  - it flags a component as congested when its parents together emit more
    than 1.2 times what it executes;
  - it splits the total sink output into per-sink shares;
  - it scores every component recursively: a sink scores its share, and
    any other component scores the sum of its non-congested children's
    scores. The components are then sorted by score, in descending or
    ascending order.
- `NodeStatistics` keeps, for one host, two 32-bit throughput counters and
  the lists of spout and bolt executors placed on the host.

The modules are:

- `Sums` (sums.dfy): the sum and mean of a sample window, and the sum of a
  rate map over a set of ids. The set sum does not depend on the order in
  which the ids are visited.
- `Topology` (topology.dfy): components, the graph, the topology schedule
  and statistics, sinks, sources, and well-formedness of the graph.
  - Well-formedness includes a rank map that strictly decreases from parent
    to child. It is a ghost witness that the graph is acyclic.
- `Etp` (etp.dfy): the meaning of each step, as functions.
  - The functions are `MeanRates`, `InFlow`, `Congestion`, `Total`,
    `SinkShares`, `Score` and `Scores`.
  - The lemmas state what the ranking relies on.
  - The module also models the zero-throughput guard as it is written
    (see Findings).
- `Ranking` (ranking.dfy): the ranked result list, the sort (a stable
  insertion sort by score) and the two comparators.
- `EtpStrategy` (strategy.dfy): the `Strategy` class.
  - Its fields are updated in place by the same loops as the source.
  - Each loop method is proved equal to the matching `Etp` function.
  - As a result, the ranking call returns a permutation of exactly the
    (component, score) pairs that `Etp.Scores` defines, sorted in the
    requested direction.
- `NodeStats` (node_statistics.dfy): the `NodeStatistics` class.
  - Java `int` wrap-around is written out in the model.
  - A ghost history of calls ties the state to everything added so far.

Java's `Double` becomes the exact `real`. Java maps become `map`, and lists
become `seq`. A component in the maps, the source list and the result list
is identified by its id. Well-formedness makes every component stored under
its own id, so this is the same as identifying it by the object.

Two kinds of input fall outside the model:

- A rate or graph lookup that finds no entry dereferences `null`, and the
  code throws. The model follows the code here, not a reading that treats a
  missing rate as 0.
- An empty sample window does not throw. Its average is 0.0/0.0, which is
  NaN, and the ranking carries on with NaN rates. An empty execute window
  makes the comparison with 1.2 times NaN false, so that component is never
  flagged. An empty sink emit window makes the total and every share NaN.
  NaN rates are not modelled.

The precondition `Strategy.Ready()` excludes both. It requires:
- non-empty windows;
- an emit history for every sink;
- for each component that has an execute history, a graph entry and an
  emit history for each of its parents.

The descending and ascending entry points are the same code except for the
final sort. Both are modelled by one method, `TopologyEtpRank`, with a
direction parameter.

## Model

| member | source | states |
|---|---|---|
| EtpStrategy.Strategy.constructor | src/jvm/backtype/storm/scheduler/advancedstela/etp/Strategy.java:24-36 | The id is the schedule's id; schedule and statistics are kept; every rate map, the parallelism map, the source list, the congestion map and the ETP map start empty |
| EtpStrategy.Strategy.TopologyEtpRank | src/jvm/backtype/storm/scheduler/advancedstela/etp/Strategy.java:38-113 | One ranking call on a fresh strategy. The expected rates are the window means, and the component rate maps hold the same values. The parallelism map holds every component's parallelism, and the source list enumerates the sources. The congestion map is exactly the components over the 1.2 threshold. If the total sink throughput is 0, the ranking is empty. Otherwise the ETP map is score-of-every-component and the result lists each (component, score) pair once, sorted in the requested direction |
| EtpStrategy.Strategy.RankByScore | src/jvm/backtype/storm/scheduler/advancedstela/etp/Strategy.java:42-72 | From known rates and congestion: an empty ranking when the total sink throughput is 0; otherwise the ETP map holds every component's score and the result is a sorted permutation of its pairs |
| EtpStrategy.Strategy.CollectRates | src/jvm/backtype/storm/scheduler/advancedstela/etp/Strategy.java:153-174 | The component and expected emit/execute rate maps gain the mean of every history window. The parallelism map gains every component's parallelism. The source list gains each parentless component exactly once, keeping its old prefix. Congestion and ETP maps are untouched |
| EtpStrategy.Strategy.CollectEmitRates | src/jvm/backtype/storm/scheduler/advancedstela/etp/Strategy.java:154-156 | The component emit rates gain the mean of each emit history window |
| EtpStrategy.Strategy.CollectExecuteRates | src/jvm/backtype/storm/scheduler/advancedstela/etp/Strategy.java:160-162 | The component execute rates gain the mean of each execute history window |
| EtpStrategy.Strategy.CollectParallelism | src/jvm/backtype/storm/scheduler/advancedstela/etp/Strategy.java:165-167 | The parallelism map gains every component id with its parallelism |
| EtpStrategy.Strategy.CollectSources | src/jvm/backtype/storm/scheduler/advancedstela/etp/Strategy.java:169-173 | The source list keeps its old prefix and gains every component without parents, each exactly once |
| EtpStrategy.Strategy.ComputeMovingAverage | src/jvm/backtype/storm/scheduler/advancedstela/etp/Strategy.java:176-182 | The loop's result is the arithmetic mean of the non-empty window |
| EtpStrategy.Strategy.CongestionDetection | src/jvm/backtype/storm/scheduler/advancedstela/etp/Strategy.java:115-134 | The congestion map gains exactly the components whose parents' emit rates sum to more than 1.2 times their execute rate, each mapped to inflow minus outflow |
| EtpStrategy.Strategy.ParentEmitRate | src/jvm/backtype/storm/scheduler/advancedstela/etp/Strategy.java:119-127 | The loop over the parent set yields the sum of the parents' emit rates, whatever the order of the visits (0 for a source) |
| EtpStrategy.Strategy.EtpCalculation | src/jvm/backtype/storm/scheduler/advancedstela/etp/Strategy.java:136-151 | The recursive calculation returns the ETP score: a sink's share; otherwise the sum over its non-congested children |
| EtpStrategy.Strategy.EtpScores | src/jvm/backtype/storm/scheduler/advancedstela/etp/Strategy.java:62-65 | The ETP map gains the score of every component |
| EtpStrategy.Strategy.TotalThroughput | src/jvm/backtype/storm/scheduler/advancedstela/etp/Strategy.java:42-47 | The loop yields the sum of the sinks' expected emit rates |
| EtpStrategy.Strategy.SinkSharesOf | src/jvm/backtype/storm/scheduler/advancedstela/etp/Strategy.java:54-60 | The sink map holds exactly the sinks, each mapped to its emit rate divided by the total |
| EtpStrategy.Strategy.ResultComponents | src/jvm/backtype/storm/scheduler/advancedstela/etp/Strategy.java:67-70 | The unsorted result holds each (component, score) pair of the ETP map exactly once |
| EtpStrategy.RatesSuffice | src/jvm/backtype/storm/scheduler/advancedstela/etp/Strategy.java:115-127 | With the ranking call's preconditions, the computed rate maps cover every sink and every parent lookup congestion detection makes |
| Etp.MeanRatesNonNegative | src/jvm/backtype/storm/scheduler/advancedstela/etp/Strategy.java:153-163 | Non-negative samples give non-negative smoothed rates |
| Sums.MeanBounds | src/jvm/backtype/storm/scheduler/advancedstela/etp/Strategy.java:176-182 | The moving average lies between the smallest and largest sample |
| Sums.MeanNonNegative | src/jvm/backtype/storm/scheduler/advancedstela/etp/Strategy.java:176-182 | A window of non-negative samples has a non-negative average |
| Sums.MeanOfConstant | src/jvm/backtype/storm/scheduler/advancedstela/etp/Strategy.java:176-182 | A constant window averages to that constant |
| Sums.MeanExample | src/jvm/backtype/storm/scheduler/advancedstela/etp/Strategy.java:176-182 | The window 2, 4, 6 averages to 4 |
| Sums.SumOverRemove | src/jvm/backtype/storm/scheduler/advancedstela/etp/Strategy.java:124-126 | A sum over a set of ids can take any element first: hash-set iteration order does not change the inflow or a score sum |
| Sums.SumOverAtLeastTerm | src/jvm/backtype/storm/scheduler/advancedstela/etp/Strategy.java:43-47 | With non-negative rates, each summand is at most the total |
| Etp.SourceNeverCongested | src/jvm/backtype/storm/scheduler/advancedstela/etp/Strategy.java:123-131 | A component without parents has inflow 0 and is never flagged when its execute rate is non-negative |
| Etp.CongestionMonotone | src/jvm/backtype/storm/scheduler/advancedstela/etp/Strategy.java:129-132 | Raising one component's execute rate can only unflag it or lower its congestion amount, and leaves every other component's flag as it was |
| Etp.CongestionAmountPositive | src/jvm/backtype/storm/scheduler/advancedstela/etp/Strategy.java:129-131 | With non-negative execute rates, every recorded congestion amount (inflow minus outflow) is positive |
| Etp.CongestionThresholdExample | src/jvm/backtype/storm/scheduler/advancedstela/etp/Strategy.java:129 | A parent emitting 100 congests a child executing 83 (100 > 1.2 · 83) by 17, and does not congest one executing 84 (100 <= 1.2 · 84) |
| Etp.SharesSumToOne | src/jvm/backtype/storm/scheduler/advancedstela/etp/Strategy.java:54-60 | With a non-zero total, the sink shares sum to 1 |
| Etp.SharesAreFractions | src/jvm/backtype/storm/scheduler/advancedstela/etp/Strategy.java:54-60 | With non-negative rates and a positive total, every sink share lies in [0, 1] |
| Etp.ScoreNonNegative | src/jvm/backtype/storm/scheduler/advancedstela/etp/Strategy.java:136-151 | Non-negative shares give a non-negative score to every component |
| Etp.ScoreAllChildrenCongested | src/jvm/backtype/storm/scheduler/advancedstela/etp/Strategy.java:143-150 | A component all of whose children are congested scores 0 |
| Etp.ScoreSingleLiveChild | src/jvm/backtype/storm/scheduler/advancedstela/etp/Strategy.java:143-148 | A component whose only child is not congested scores what that child scores |
| Etp.SinkScoreAtMostOne | src/jvm/backtype/storm/scheduler/advancedstela/etp/Strategy.java:137-140 | With non-negative sink rates and a positive total, a sink's score is its share, which lies in [0, 1] |
| Etp.ChainExample | src/jvm/backtype/storm/scheduler/advancedstela/etp/Strategy.java:42-65 | On the uncongested chain A -> B -> C with rate 10 everywhere, the total is 10 and every component scores 1 |
| Etp.ChainShares | src/jvm/backtype/storm/scheduler/advancedstela/etp/Strategy.java:42-60 | On the chain A -> B -> C, the only sink is C, the total is C's emit rate, and C's share is 1 |
| Etp.CongestedChainCongestion | src/jvm/backtype/storm/scheduler/advancedstela/etp/Strategy.java:115-134 | On the chain with A emitting 10 and B and C at 8, B receives 10 > 1.2 · 8 and is congested by 2; C receives 8 and is not flagged |
| Etp.CongestedChainScores | src/jvm/backtype/storm/scheduler/advancedstela/etp/Strategy.java:136-151 | On that chain with B congested, C and B score 1 and A scores 0: congestion removes B from its parent's sum, not from its own score |
| Etp.CongestedChainExample | src/jvm/backtype/storm/scheduler/advancedstela/etp/Strategy.java:38-74 | From the windows A: 10, 10 and B, C: 8, 8, the smoothed rates congest B alone, the total is 8, and the scores are A 0, B 1 and C 1 |
| Etp.JavaDivide | src/jvm/backtype/storm/scheduler/advancedstela/etp/Strategy.java:58 | A double division by a non-zero value is the exact quotient; by zero it is NaN exactly when the dividend is 0 as well |
| Etp.SinkSharesAsWritten | src/jvm/backtype/storm/scheduler/advancedstela/etp/Strategy.java:54-60 | As written: the map holds exactly the sinks, each mapped to the Java double quotient of its emit rate by the total, zero total included; for a non-zero total each quotient is the finite share the corrected model uses |
| Etp.ZeroThroughputSharesAreNaN | src/jvm/backtype/storm/scheduler/advancedstela/etp/Strategy.java:49-58 | As written, with non-negative rates and a zero total, every sink share is NaN |
| Etp.ZeroThroughputExample | src/jvm/backtype/storm/scheduler/advancedstela/etp/Strategy.java:49-58 | As written, a single idle sink gets share NaN |
| Ranking.Insert | src/jvm/backtype/storm/scheduler/advancedstela/etp/Strategy.java:72 | Inserting into a sorted list keeps it sorted and adds exactly that element |
| Ranking.SortByScore | src/jvm/backtype/storm/scheduler/advancedstela/etp/Strategy.java:111 | The sorted result is ordered by score in the requested direction and is a permutation of the input |
| Ranking.RankingPairsEachOnce | src/jvm/backtype/storm/scheduler/advancedstela/etp/Strategy.java:67-72 | A ranking of a score map has one entry per component, each with its own score, and no component twice |
| Ranking.SortedScores | src/jvm/backtype/storm/scheduler/advancedstela/etp/Strategy.java:72 | A result list is sorted exactly when its score sequence is |
| Ranking.SortedUnique | src/jvm/backtype/storm/scheduler/advancedstela/etp/Strategy.java:72 | Two score lists sorted the same way with the same scores are equal: the score sequence of a ranking is determined by the map |
| Ranking.DirectionsMirror | src/jvm/backtype/storm/scheduler/advancedstela/etp/Strategy.java:72-111 | For the same scores, the descending ranking's score sequence is the ascending one reversed |
| Ranking.CompareDesc | src/jvm/backtype/storm/scheduler/advancedstela/etp/Strategy.java:192-198 | The descending comparator answers only -1 or 1 |
| Ranking.CompareAsc | src/jvm/backtype/storm/scheduler/advancedstela/etp/Strategy.java:209-215 | The ascending comparator answers only -1 or 1 |
| Ranking.ComparatorsFollowRankingOrder | src/jvm/backtype/storm/scheduler/advancedstela/etp/Strategy.java:192-215 | Each comparator answers -1 exactly when the first score may precede the second in its direction; the ascending one is the descending one with its arguments swapped |
| Ranking.ComparatorsNeverEqual | src/jvm/backtype/storm/scheduler/advancedstela/etp/Strategy.java:191-215 | The comparators never return 0. A component compared with itself, or two equal scores in either order, gives -1; unequal scores give opposite answers |
| NodeStats.Wrap32 | src/jvm/backtype/storm/scheduler/advancedstela/etp/NodeStatistics.java:33-39 | The 32-bit result equals the exact value when that is in range, and always differs from it by a multiple of 2^32 |
| NodeStats.WrapAdd | src/jvm/backtype/storm/scheduler/advancedstela/etp/NodeStatistics.java:33-35 | Adding to a wrapped counter and wrapping again equals wrapping the exact sum |
| NodeStats.OverflowExample | src/jvm/backtype/storm/scheduler/advancedstela/etp/NodeStatistics.java:37-39 | Adding 1 to the largest int gives the smallest; two largest ints add to -2 |
| NodeStats.ListLengths | src/jvm/backtype/storm/scheduler/advancedstela/etp/NodeStatistics.java:25-31 | Each list has one entry per add call of its kind |
| NodeStats.HistoryAppend | src/jvm/backtype/storm/scheduler/advancedstela/etp/NodeStatistics.java:25-39 | The lists and totals of two consecutive runs of calls are those of the first run followed by those of the second |
| NodeStats.SpoutsInCallOrder | src/jvm/backtype/storm/scheduler/advancedstela/etp/NodeStatistics.java:25-27 | The i-th spout in the list is the executor of the i-th spout addition |
| NodeStats.BoltsInCallOrder | src/jvm/backtype/storm/scheduler/advancedstela/etp/NodeStatistics.java:29-31 | The i-th bolt in the list is the executor of the i-th bolt addition |
| NodeStats.NodeStatistics.constructor | src/jvm/backtype/storm/scheduler/advancedstela/etp/NodeStatistics.java:17-23 | The id is the host; both counters are 0; both lists are empty |
| NodeStats.NodeStatistics.AddSpout | src/jvm/backtype/storm/scheduler/advancedstela/etp/NodeStatistics.java:25-27 | The spout list gains the executor at its end; nothing else changes; the state still matches the call history |
| NodeStats.NodeStatistics.AddBolt | src/jvm/backtype/storm/scheduler/advancedstela/etp/NodeStatistics.java:29-31 | The bolt list gains the executor at its end; nothing else changes; the state still matches the call history |
| NodeStats.NodeStatistics.AddTransferThroughput | src/jvm/backtype/storm/scheduler/advancedstela/etp/NodeStatistics.java:33-35 | The transfer counter becomes the 32-bit wrapped sum; nothing else changes; the counter is the wrapped total of all transfer deltas |
| NodeStats.NodeStatistics.AddEmitThroughput | src/jvm/backtype/storm/scheduler/advancedstela/etp/NodeStatistics.java:37-39 | The emit counter becomes the 32-bit wrapped sum; nothing else changes; the counter is the wrapped total of all emit deltas |

## Left out

- Logging (the logger field and the "nothing to do" message) is left out because it has no effect on the result.
- IEEE 754 doubles are modelled as exact reals, so 1.2 is exact and nothing rounds. NaN and infinities are modelled only in the zero-throughput finding.
- Hash-map iteration order is not modelled: each loop over a map or set picks its elements in an arbitrary order. The sums it produces are proved independent of that order.
- Ranking.SortByScore: the sort is modelled as a stable insertion sort. Its contract states only sortedness and permutation, so the order of tied scores is unspecified, as it is for hash-ordered input.
- EtpStrategy.Strategy.ResultComponents: states which pairs the unsorted list holds, not their order, which follows the hash-map key order.
- The natural order of `ResultComponent` is assumed to compare by score, so the reverse-order sort is descending. That class is not part of this model.
- A `NullPointerException` from a missing rate or graph entry is excluded by the precondition `Strategy.Ready()` rather than modelled.
- An empty sample window, which the source averages to NaN and carries through the ranking without throwing, is excluded by `NonEmptyWindows` in `Strategy.Ready()`, because NaN rates are not modelled.
- The ghost rank in `WellFormed` excludes every cycle among child links. The source survives some of them: a congested child is skipped before the recursive call, so a cycle through a congested component ends (with A -> B -> A, where B is congested, both score 0). A cycle with no congested component ends the source in a `StackOverflowError`. Neither case is modelled.
- EtpStrategy.Strategy.TopologyEtpRank: is stated for the first call on a fresh strategy only. On a second call the source's maps and source list keep their earlier entries, and the ranking would use them.
- The two comparators are modelled and their properties proved, but the ranking methods do not use them, and neither does the model.
- The `throughputForBolts` and `throughputForSpouts` fields of `NodeStatistics` are never written or read by the class, so they are left out.
- `ExecutorSummary` is a type parameter. A `null` `Integer` argument (a `NullPointerException` on unboxing) is left out: deltas are 32-bit values.
- How the scheduler obtains the schedule and the statistics lies outside this model. They are parameters of the constructor, and their accessors return the stored values.

## Findings

| source | as written | input that shows it | evidently intended | confidence | as-written member | corrected member |
|---|---|---|---|---|---|---|
| src/jvm/backtype/storm/scheduler/advancedstela/etp/Strategy.java:49-58 | The zero-throughput guard logs and builds an unused empty map but does not return, so the sink shares are computed by dividing by a zero total (the same at lines 87-96) | One sink with emit rate 0: its share is 0.0/0.0 = NaN (`Etp.ZeroThroughputExample`) | Return an empty ranking when the total sink throughput is 0 | not executed | Etp.ZeroThroughputSharesAreNaN | EtpStrategy.Strategy.RankByScore |
