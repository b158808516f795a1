/**
 * Personalized PageRank over the symbol graph, in exact real arithmetic: what an iteration does with
 * the total score, how fast iterations settle, and the graph the lexical scan supplies.
 */
module PageRank {
  import opened Wrappers

  datatype Edge = Edge(target: string, weight: real)

  /** A node's outgoing edges, in insertion order. */
  datatype Source = Source(id: string, out: seq<Edge>)

  /** Insertion-ordered, like the maps it models: no id is listed twice. */
  datatype SymbolGraph = SymbolGraph(nodes: seq<string>, edges: seq<Source>)

  predicate Distinct(ids: seq<string>) {
    forall i, j :: 0 <= i < j < |ids| ==> ids[i] != ids[j]
  }

  function SourceIds(edges: seq<Source>): (ids: seq<string>)
    ensures |ids| == |edges| && forall i :: 0 <= i < |edges| ==> ids[i] == edges[i].id
  {
    seq(|edges|, i requires 0 <= i < |edges| => edges[i].id)
  }

  ghost predicate EdgesAmong(nodes: seq<string>, out: seq<Edge>) {
    forall e :: e in out ==> e.target in nodes && e.weight >= 0.0
  }

  ghost predicate SourceAmong(nodes: seq<string>, s: Source) {
    s.id in nodes && EdgesAmong(nodes, s.out)
  }

  /** Edges between nodes, with non-negative weights. */
  ghost predicate WellFormed(g: SymbolGraph) {
    && Distinct(g.nodes) && Distinct(SourceIds(g.edges))
    && forall s :: s in g.edges ==> SourceAmong(g.nodes, s)
  }

  // ----- sums

  type Scores = string -> real

  /** A product, named so that proofs about sums need not look into it. */
  function Times(a: real, b: real): real {
    a * b
  }

  /** The restart share of `p` and the damped `x`. */
  function Mix(d: real, p: real, x: real): real {
    (1.0 - d) * p + d * x
  }

  function Sum(ids: seq<string>, f: Scores): real {
    if ids == [] then 0.0 else Sum(ids[..|ids| - 1], f) + f(ids[|ids| - 1])
  }

  lemma {:induction false} SumOfSums(ids: seq<string>, f: Scores, g: Scores, h: Scores)
    requires forall v :: v in ids ==> h(v) == f(v) + g(v)
    ensures Sum(ids, h) == Sum(ids, f) + Sum(ids, g)
  {
    if ids != [] {
      SumOfSums(ids[..|ids| - 1], f, g, h);
    }
  }

  lemma TimesSum(c: real, a: real, b: real)
    ensures Times(c, a + b) == Times(c, a) + Times(c, b)
  {
  }

  lemma {:induction false} SumScaled(ids: seq<string>, f: Scores, h: Scores, c: real)
    requires forall v :: v in ids ==> h(v) == Times(c, f(v))
    ensures Sum(ids, h) == Times(c, Sum(ids, f))
  {
    if ids == [] {
      assert Times(c, 0.0) == 0.0;
    } else {
      var init, last := ids[..|ids| - 1], ids[|ids| - 1];
      SumScaled(init, f, h, c);
      TimesSum(c, Sum(init, f), f(last));
    }
  }

  lemma {:induction false} SumAtMost(ids: seq<string>, f: Scores, g: Scores)
    requires forall v :: v in ids ==> f(v) <= g(v)
    ensures Sum(ids, f) <= Sum(ids, g)
  {
    if ids != [] {
      SumAtMost(ids[..|ids| - 1], f, g);
    }
  }

  lemma {:induction false} SumOfZero(ids: seq<string>, f: Scores)
    requires forall v :: v in ids ==> f(v) == 0.0
    ensures Sum(ids, f) == 0.0
  {
    if ids != [] {
      SumOfZero(ids[..|ids| - 1], f);
    }
  }

  /** A function that is zero but at one of the distinct ids. */
  lemma {:induction false} SumOfOne(ids: seq<string>, f: Scores, t: string)
    requires Distinct(ids) && t in ids && forall v :: v in ids && v != t ==> f(v) == 0.0
    ensures Sum(ids, f) == f(t)
  {
    var init, last := ids[..|ids| - 1], ids[|ids| - 1];
    if last == t {
      SumOfZero(init, f);
    } else {
      assert t in init;
      SumOfOne(init, f, t);
    }
  }

  lemma {:induction false} SumWithout(ids: seq<string>, f: Scores, i: nat)
    requires i < |ids|
    ensures Sum(ids, f) == Sum(ids[..i] + ids[i + 1..], f) + f(ids[i])
    decreases |ids|
  {
    var init, last := ids[..|ids| - 1], ids[|ids| - 1];
    var rest := ids[..i] + ids[i + 1..];
    if i < |ids| - 1 {
      SumWithout(init, f, i);
      assert rest[..|rest| - 1] == init[..i] + init[i + 1..] && rest[|rest| - 1] == last;
    } else {
      assert rest == init;
    }
  }

  /** Distinct ids among others weigh no more than all of them. */
  lemma {:induction false} SumOfSome(some: seq<string>, all: seq<string>, f: Scores)
    requires Distinct(some) && (forall v :: v in some ==> v in all) && forall v :: v in all ==> f(v) >= 0.0
    ensures Sum(some, f) <= Sum(all, f)
  {
    if some == [] {
      SumAtMost(all, v => 0.0, f);
      SumOfZero(all, v => 0.0);
    } else {
      var init, last := some[..|some| - 1], some[|some| - 1];
      assert some == init + [last] && last in some;
      var i :| 0 <= i < |all| && all[i] == last;
      var rest := all[..i] + all[i + 1..];
      SumWithout(all, f, i);
      forall v | v in init
        ensures v in rest
      {
        assert v in some && v in all;
        var j :| 0 <= j < |all| && all[j] == v;
        assert rest[if j < i then j else j - 1] == v;
      }
      SumOfSome(init, rest, f);
    }
  }

  // ----- the flow along the edges

  function TotalWeight(out: seq<Edge>): real {
    if out == [] then 0.0 else TotalWeight(out[..|out| - 1]) + out[|out| - 1].weight
  }

  function WeightTo(out: seq<Edge>, v: string): real {
    if out == [] then 0.0
    else WeightTo(out[..|out| - 1], v) + if out[|out| - 1].target == v then out[|out| - 1].weight else 0.0
  }

  /** The part of a source's score that goes to `v`. */
  function Share(s: Source, v: string): real {
    if TotalWeight(s.out) == 0.0 then 0.0 else WeightTo(s.out, v) / TotalWeight(s.out)
  }

  function InFlow(edges: seq<Source>, x: Scores, v: string): real {
    if edges == [] then 0.0 else InFlow(edges[..|edges| - 1], x, v) + Times(x(edges[|edges| - 1].id), Share(edges[|edges| - 1], v))
  }

  /** One iteration from the scores `x`. */
  function Next(g: SymbolGraph, p: Scores, d: real, x: Scores): Scores {
    v => Mix(d, p(v), InFlow(g.edges, x, v))
  }

  function Iterate(g: SymbolGraph, p: Scores, d: real, k: nat): Scores {
    if k == 0 then p else Next(g, p, d, Iterate(g, p, d, k - 1))
  }

  /** The ids whose edges carry weight. */
  function Flowing(edges: seq<Source>): (ids: seq<string>)
    ensures forall v :: v in ids ==> v in SourceIds(edges)
  {
    if edges == [] then []
    else
      var last := edges[|edges| - 1];
      assert forall i :: 0 <= i < |edges| - 1 ==> SourceIds(edges)[i] == SourceIds(edges[..|edges| - 1])[i];
      assert SourceIds(edges)[|edges| - 1] == last.id;
      Flowing(edges[..|edges| - 1]) + if TotalWeight(last.out) == 0.0 then [] else [last.id]
  }

  lemma {:induction false} WeightsAreNonNegative(nodes: seq<string>, out: seq<Edge>, v: string)
    requires EdgesAmong(nodes, out)
    ensures TotalWeight(out) >= 0.0 && WeightTo(out, v) >= 0.0
  {
    if out != [] {
      WeightsAreNonNegative(nodes, out[..|out| - 1], v);
      assert out[|out| - 1] in out;
    }
  }

  function Weights(out: seq<Edge>): Scores {
    v => WeightTo(out, v)
  }

  function Shares(s: Source): Scores {
    v => Share(s, v)
  }

  lemma {:induction false} WeightsSum(nodes: seq<string>, out: seq<Edge>)
    requires Distinct(nodes) && EdgesAmong(nodes, out)
    ensures Sum(nodes, Weights(out)) == TotalWeight(out)
  {
    if out == [] {
      SumOfZero(nodes, Weights(out));
    } else {
      var init, last := out[..|out| - 1], out[|out| - 1];
      var one: Scores := v => if last.target == v then last.weight else 0.0;
      WeightsSum(nodes, init);
      assert last in out;
      SumOfOne(nodes, one, last.target);
      SumOfSums(nodes, Weights(init), one, Weights(out));
    }
  }

  lemma SharesAreNonNegative(nodes: seq<string>, s: Source, v: string)
    requires EdgesAmong(nodes, s.out)
    ensures Share(s, v) >= 0.0
  {
    WeightsAreNonNegative(nodes, s.out, v);
  }

  /** A source hands on all of its score, or nothing. */
  lemma SharesSum(nodes: seq<string>, s: Source)
    requires Distinct(nodes) && EdgesAmong(nodes, s.out)
    ensures Sum(nodes, Shares(s)) == if TotalWeight(s.out) == 0.0 then 0.0 else 1.0
  {
    var total := TotalWeight(s.out);
    if total == 0.0 {
      SumOfZero(nodes, Shares(s));
    } else {
      WeightsSum(nodes, s.out);
      SharesAreScaled(s, 1.0 / total);
      SumScaled(nodes, Weights(s.out), Shares(s), 1.0 / total);
    }
  }

  lemma SharesAreScaled(s: Source, c: real)
    requires TotalWeight(s.out) != 0.0 && c == 1.0 / TotalWeight(s.out)
    ensures (forall v :: Shares(s)(v) == Times(c, Weights(s.out)(v))) && Times(c, TotalWeight(s.out)) == 1.0
  {
    forall v
      ensures Shares(s)(v) == Times(c, Weights(s.out)(v))
    {
      Divided(WeightTo(s.out, v), TotalWeight(s.out));
    }
    Divided(TotalWeight(s.out), TotalWeight(s.out));
  }

  lemma Divided(x: real, y: real)
    requires y != 0.0
    ensures x / y == Times(1.0 / y, x)
  {
  }

  function Flow(edges: seq<Source>, x: Scores): Scores {
    v => InFlow(edges, x, v)
  }

  /** All that flows is the score of the sources that have somewhere to send it. */
  lemma {:induction false} FlowSums(nodes: seq<string>, edges: seq<Source>, x: Scores)
    requires Distinct(nodes) && forall s :: s in edges ==> SourceAmong(nodes, s)
    ensures Sum(nodes, Flow(edges, x)) == Sum(Flowing(edges), x)
  {
    if edges == [] {
      SumOfZero(nodes, Flow(edges, x));
      assert Flowing(edges) == [];
    } else {
      var init, last := edges[..|edges| - 1], edges[|edges| - 1];
      FlowSums(nodes, init, x);
      assert last in edges;
      OneMoreFlows(nodes, init, last, x);
      assert edges == init + [last];
    }
  }

  lemma OneMoreFlows(nodes: seq<string>, init: seq<Source>, last: Source, x: Scores)
    requires Distinct(nodes) && SourceAmong(nodes, last)
    requires Sum(nodes, Flow(init, x)) == Sum(Flowing(init), x)
    ensures Sum(nodes, Flow(init + [last], x)) == Sum(Flowing(init + [last]), x)
  {
    var edges, sent: Scores := init + [last], v => Times(x(last.id), Share(last, v));
    assert edges[..|edges| - 1] == init;
    SharesSum(nodes, last);
    SumScaled(nodes, Shares(last), sent, x(last.id));
    SumOfSums(nodes, Flow(init, x), sent, Flow(edges, x));
    OneMoreFlowing(init, last, x);
  }

  lemma OneMoreFlowing(init: seq<Source>, last: Source, x: Scores)
    ensures Sum(Flowing(init + [last]), x) == Sum(Flowing(init), x) + if TotalWeight(last.out) == 0.0 then 0.0 else x(last.id)
  {
    assert (init + [last])[..|init|] == init;
    if TotalWeight(last.out) == 0.0 {
      assert Flowing(init + [last]) == Flowing(init);
    } else {
      assert Flowing(init + [last]) == Flowing(init) + [last.id];
      assert (Flowing(init) + [last.id])[..|Flowing(init)|] == Flowing(init);
    }
  }

  /**
   * What one source adds to an iteration: each of its targets gets the damped part of the source's score that is
   * the edge's part of the source's weight, and nothing else changes. Without sources there is the restart share.
   */
  lemma SourceAdds(nodes: seq<string>, edges: seq<Source>, s: Source, p: Scores, d: real, x: Scores, v: string)
    requires forall i, j :: 0 <= i < j < |s.out| ==> s.out[i].target != s.out[j].target
    ensures var without, with := Next(SymbolGraph(nodes, edges), p, d, x)(v), Next(SymbolGraph(nodes, edges + [s]), p, d, x)(v);
      && (TotalWeight(s.out) == 0.0 || (forall e :: e in s.out ==> e.target != v) ==> with == without)
      && (TotalWeight(s.out) != 0.0 ==>
            forall e :: e in s.out && e.target == v ==> with == without + d * (x(s.id) * (e.weight / TotalWeight(s.out))))
    ensures Next(SymbolGraph(nodes, []), p, d, x)(v) == (1.0 - d) * p(v)
  {
    assert (edges + [s])[..|edges|] == edges;
    WeightToTarget(s.out, v);
    MixMore(d, p(v), InFlow(edges, x, v), x(s.id), Share(s, v));
    if TotalWeight(s.out) == 0.0 || forall e :: e in s.out ==> e.target != v {
      NothingSent(d, x(s.id));
    }
  }

  lemma {:induction false} WeightToTarget(out: seq<Edge>, v: string)
    requires forall i, j :: 0 <= i < j < |out| ==> out[i].target != out[j].target
    ensures forall e :: e in out && e.target == v ==> WeightTo(out, v) == e.weight
    ensures (forall e :: e in out ==> e.target != v) ==> WeightTo(out, v) == 0.0
  {
    if out != [] {
      var init, last := out[..|out| - 1], out[|out| - 1];
      WeightToTarget(init, v);
      assert out == init + [last];
      assert last.target == v ==> forall e :: e in init ==> e.target != v;
    }
  }

  // ----- what every iterate keeps

  ghost predicate NonNegative(ids: seq<string>, x: Scores) {
    forall v :: v in ids ==> x(v) >= 0.0
  }

  lemma {:induction false} FlowIsNonNegative(nodes: seq<string>, edges: seq<Source>, x: Scores, v: string)
    requires NonNegative(nodes, x) && forall s :: s in edges ==> SourceAmong(nodes, s)
    ensures InFlow(edges, x, v) >= 0.0
  {
    if edges != [] {
      var last := edges[|edges| - 1];
      FlowIsNonNegative(nodes, edges[..|edges| - 1], x, v);
      assert last in edges;
      SharesAreNonNegative(nodes, last, v);
      ProductIsNonNegative(x(last.id), Share(last, v));
    }
  }

  lemma ProductIsNonNegative(a: real, b: real)
    requires a >= 0.0 && b >= 0.0
    ensures Times(a, b) >= 0.0
  {
  }

  /** With `d` in [0, 1], a mix of `p` and something no larger is no larger than `p`. */
  lemma MixAtMost(d: real, p: real, x: real)
    requires 0.0 <= d <= 1.0 && x <= p
    ensures Mix(d, p, x) <= p
    ensures x == p ==> Mix(d, p, x) == p
  {
    ProductIsNonNegative(d, p - x);
    assert Mix(d, p, x) == p - d * (p - x);
  }

  /** A mix with something non-negative is at least the restart share. */
  lemma MixAtLeast(d: real, p: real, x: real)
    requires 0.0 <= d <= 1.0 && p >= 0.0 && x >= 0.0
    ensures Mix(d, p, x) >= Times(1.0 - d, p) >= 0.0 && p >= Times(1.0 - d, p)
  {
    ProductIsNonNegative(d, x);
    ProductIsNonNegative(d, p);
    ProductIsNonNegative(1.0 - d, p);
    assert Times(1.0 - d, p) == p - d * p;
  }

  /** A score never falls below its restart share. */
  lemma {:induction false} ScoresAtLeastRestart(g: SymbolGraph, p: Scores, d: real, k: nat)
    requires WellFormed(g) && NonNegative(g.nodes, p) && 0.0 <= d <= 1.0
    ensures forall v :: v in g.nodes ==> Iterate(g, p, d, k)(v) >= Times(1.0 - d, p(v)) >= 0.0
    ensures NonNegative(g.nodes, Iterate(g, p, d, k))
  {
    if k == 0 {
      forall v | v in g.nodes
        ensures p(v) >= Times(1.0 - d, p(v)) >= 0.0
      {
        MixAtLeast(d, p(v), 0.0);
      }
    } else {
      var x := Iterate(g, p, d, k - 1);
      ScoresAtLeastRestart(g, p, d, k - 1);
      forall v | v in g.nodes
        ensures Next(g, p, d, x)(v) >= Times(1.0 - d, p(v)) >= 0.0
      {
        FlowIsNonNegative(g.nodes, g.edges, x, v);
        MixAtLeast(d, p(v), InFlow(g.edges, x, v));
      }
    }
  }

  /** Where the total score of an iteration comes from: restarts, and the sources with weighted edges. */
  lemma MassOfNext(g: SymbolGraph, p: Scores, d: real, x: Scores)
    requires WellFormed(g)
    ensures Sum(g.nodes, Next(g, p, d, x)) == Mix(d, Sum(g.nodes, p), Sum(Flowing(g.edges), x))
  {
    var restart: Scores, damped: Scores := v => Times(1.0 - d, p(v)), v => Times(d, InFlow(g.edges, x, v));
    SumScaled(g.nodes, p, restart, 1.0 - d);
    FlowSums(g.nodes, g.edges, x);
    SumScaled(g.nodes, Flow(g.edges, x), damped, d);
    SumOfSums(g.nodes, restart, damped, Next(g, p, d, x));
  }

  lemma {:induction false} FlowingIsDistinct(edges: seq<Source>)
    requires Distinct(SourceIds(edges))
    ensures Distinct(Flowing(edges))
  {
    if edges != [] {
      var init, last := edges[..|edges| - 1], edges[|edges| - 1];
      assert SourceIds(edges) == SourceIds(init) + [last.id];
      assert Distinct(SourceIds(init));
      FlowingIsDistinct(init);
      assert forall i :: 0 <= i < |init| ==> SourceIds(edges)[i] != SourceIds(edges)[|init|];
      assert last.id !in SourceIds(init);
    }
  }

  lemma FlowingAmongNodes(g: SymbolGraph)
    requires WellFormed(g)
    ensures Distinct(Flowing(g.edges)) && forall v :: v in Flowing(g.edges) ==> v in g.nodes
  {
    FlowingIsDistinct(g.edges);
    forall v | v in Flowing(g.edges)
      ensures v in g.nodes
    {
      var i :| 0 <= i < |SourceIds(g.edges)| && SourceIds(g.edges)[i] == v;
      assert g.edges[i] in g.edges;
    }
  }

  lemma MassOfNextAtMost(g: SymbolGraph, p: Scores, d: real, x: Scores)
    requires WellFormed(g) && NonNegative(g.nodes, x) && Sum(g.nodes, x) <= Sum(g.nodes, p) && 0.0 <= d <= 1.0
    ensures Sum(g.nodes, Next(g, p, d, x)) <= Sum(g.nodes, p)
  {
    MassOfNext(g, p, d, x);
    FlowingAmongNodes(g);
    SumOfSome(Flowing(g.edges), g.nodes, x);
    MixAtMost(d, Sum(g.nodes, p), Sum(Flowing(g.edges), x));
  }

  /** No iterate holds more score than the personalization did. */
  lemma {:induction false} MassIsBounded(g: SymbolGraph, p: Scores, d: real, k: nat)
    requires WellFormed(g) && NonNegative(g.nodes, p) && 0.0 <= d <= 1.0
    ensures Sum(g.nodes, Iterate(g, p, d, k)) <= Sum(g.nodes, p)
  {
    if k > 0 {
      MassIsBounded(g, p, d, k - 1);
      ScoresAtLeastRestart(g, p, d, k - 1);
      MassOfNextAtMost(g, p, d, Iterate(g, p, d, k - 1));
    }
  }

  /** Score is lost only at nodes without weighted edges: if every node has some, an iteration keeps the total. */
  lemma {:induction false} MassIsKept(g: SymbolGraph, p: Scores, d: real, k: nat)
    requires WellFormed(g) && NonNegative(g.nodes, p) && 0.0 <= d <= 1.0
    requires forall v :: v in g.nodes ==> v in Flowing(g.edges)
    ensures Sum(g.nodes, Iterate(g, p, d, k)) == Sum(g.nodes, p)
  {
    if k > 0 {
      MassIsKept(g, p, d, k - 1);
      ScoresAtLeastRestart(g, p, d, k - 1);
      MassOfNextKept(g, p, d, Iterate(g, p, d, k - 1));
    }
  }

  lemma MassOfNextKept(g: SymbolGraph, p: Scores, d: real, x: Scores)
    requires WellFormed(g) && NonNegative(g.nodes, x) && Sum(g.nodes, x) == Sum(g.nodes, p) && 0.0 <= d <= 1.0
    requires forall v :: v in g.nodes ==> v in Flowing(g.edges)
    ensures Sum(g.nodes, Next(g, p, d, x)) == Sum(g.nodes, p)
  {
    FlowingAmongNodes(g);
    SumOfSome(Flowing(g.edges), g.nodes, x);
    SumOfSome(g.nodes, Flowing(g.edges), x);
    MassOfNext(g, p, d, x);
    MixAtMost(d, Sum(g.nodes, p), Sum(Flowing(g.edges), x));
  }

  // ----- how fast iterations settle

  function Abs(x: real): real {
    if x < 0.0 then -x else x
  }

  function Change(x: Scores, y: Scores): Scores {
    v => Abs(x(v) - y(v))
  }

  /** The 1-norm of the difference. */
  function Distance(nodes: seq<string>, x: Scores, y: Scores): real {
    Sum(nodes, Change(x, y))
  }

  function Power(d: real, k: nat): real {
    if k == 0 then 1.0 else Times(d, Power(d, k - 1))
  }

  /** The difference two inflows make is at most the inflow of the differences. */
  lemma {:induction false} FlowOfChange(nodes: seq<string>, edges: seq<Source>, x: Scores, y: Scores, v: string)
    requires forall s :: s in edges ==> SourceAmong(nodes, s)
    ensures Abs(InFlow(edges, x, v) - InFlow(edges, y, v)) <= InFlow(edges, Change(x, y), v)
  {
    if edges != [] {
      var last := edges[|edges| - 1];
      FlowOfChange(nodes, edges[..|edges| - 1], x, y, v);
      assert last in edges;
      SharesAreNonNegative(nodes, last, v);
      var a, b, share := x(last.id), y(last.id), Share(last, v);
      Weighed(a, b, share);
      assert Change(x, y)(last.id) == Abs(a - b);
    }
  }

  lemma Weighed(a: real, b: real, share: real)
    requires share >= 0.0
    ensures Abs(Times(a, share) - Times(b, share)) == Times(Abs(a - b), share)
  {
    ProductIsNonNegative(Abs(a - b), share);
    assert Times(a, share) - Times(b, share) == (a - b) * share;
    if a - b < 0.0 {
      assert (a - b) * share == -Times(Abs(a - b), share);
    }
  }

  lemma TimesAtMost(d: real, a: real, b: real)
    requires d >= 0.0 && a <= b
    ensures Times(d, a) <= Times(d, b)
  {
    ProductIsNonNegative(d, b - a);
    assert Times(d, b - a) == Times(d, b) - Times(d, a);
  }

  lemma Damped(d: real, p: real, a: real, b: real, bound: real)
    requires d >= 0.0 && Abs(a - b) <= bound
    ensures Abs(Mix(d, p, a) - Mix(d, p, b)) <= Times(d, bound)
  {
    Weighed(a, b, d);
    TimesAtMost(d, Abs(a - b), bound);
    assert Mix(d, p, a) - Mix(d, p, b) == Times(a, d) - Times(b, d);
    assert Times(Abs(a - b), d) == Times(d, Abs(a - b));
  }

  /** One iteration brings any two score vectors closer by the damping factor. */
  lemma NextContracts(g: SymbolGraph, p: Scores, d: real, x: Scores, y: Scores)
    requires WellFormed(g) && 0.0 <= d <= 1.0
    ensures Distance(g.nodes, Next(g, p, d, x), Next(g, p, d, y)) <= Times(d, Distance(g.nodes, x, y))
  {
    var flow := Flow(g.edges, Change(x, y));
    var bound: Scores := v => Times(d, flow(v));
    forall v | v in g.nodes
      ensures Change(Next(g, p, d, x), Next(g, p, d, y))(v) <= bound(v)
    {
      FlowOfChange(g.nodes, g.edges, x, y, v);
      Damped(d, p(v), InFlow(g.edges, x, v), InFlow(g.edges, y, v), flow(v));
    }
    SumAtMost(g.nodes, Change(Next(g, p, d, x), Next(g, p, d, y)), bound);
    SumScaled(g.nodes, flow, bound, d);
    FlowAtMost(g, Change(x, y));
    TimesAtMost(d, Sum(g.nodes, flow), Distance(g.nodes, x, y));
  }

  lemma FlowAtMost(g: SymbolGraph, x: Scores)
    requires WellFormed(g) && NonNegative(g.nodes, x)
    ensures Sum(g.nodes, Flow(g.edges, x)) <= Sum(g.nodes, x)
  {
    FlowSums(g.nodes, g.edges, x);
    FlowingAmongNodes(g);
    SumOfSome(Flowing(g.edges), g.nodes, x);
  }

  /** Successive iterates settle geometrically. */
  lemma {:induction false} IteratesSettle(g: SymbolGraph, p: Scores, d: real, k: nat)
    requires WellFormed(g) && 0.0 <= d <= 1.0
    ensures Distance(g.nodes, Iterate(g, p, d, k + 1), Iterate(g, p, d, k))
         <= Times(Power(d, k), Distance(g.nodes, Iterate(g, p, d, 1), Iterate(g, p, d, 0)))
  {
    var x, first := Iterate(g, p, d, k), Distance(g.nodes, Iterate(g, p, d, 1), Iterate(g, p, d, 0));
    assert Iterate(g, p, d, k + 1) == Next(g, p, d, x);
    if k > 0 {
      var y := Iterate(g, p, d, k - 1);
      assert x == Next(g, p, d, y);
      IteratesSettle(g, p, d, k - 1);
      NextContracts(g, p, d, x, y);
      TimesAtMost(d, Distance(g.nodes, x, y), Times(Power(d, k - 1), first));
      TimesAssociate(d, Power(d, k - 1), first);
    }
  }

  lemma TimesAssociate(a: real, b: real, c: real)
    ensures Times(a, Times(b, c)) == Times(Times(a, b), c)
  {
  }

  // ----- the loops

  /** The personalization of every node; a node without one gets a uniform share. */
  function Personal(g: SymbolGraph, personalization: map<string, real>): Scores {
    v => if v in personalization then personalization[v] else if |g.nodes| == 0 then 0.0 else 1.0 / (|g.nodes| as real)
  }

  ghost predicate Holds(r: map<string, real>, nodes: seq<string>, x: Scores) {
    && (forall v :: v in r <==> v in nodes)
    && forall v :: v in nodes ==> r[v] == x(v)
  }

  method RunPersonalizedPageRank(g: SymbolGraph, personalization: map<string, real>, damping: real, iterations: nat)
    returns (r: map<string, real>)
    requires WellFormed(g)
    ensures Holds(r, g.nodes, Iterate(g, Personal(g, personalization), damping, iterations))
    ensures iterations == 0 ==> forall v :: v in g.nodes ==>
      r[v] == if v in personalization then personalization[v] else 1.0 / (|g.nodes| as real)
    ensures 0.0 <= damping <= 1.0 && (forall v :: v in personalization ==> personalization[v] >= 0.0) ==>
      forall v :: v in g.nodes ==>
        r[v] >= (1.0 - damping) * (if v in personalization then personalization[v] else 1.0 / (|g.nodes| as real))
    ensures g.nodes != [] && 0.0 <= damping <= 1.0 && (forall v :: v in personalization ==> personalization[v] >= 0.0) ==>
      Sum(g.nodes, v => if v in r then r[v] else 0.0)
      <= Sum(g.nodes, v => if v in personalization then personalization[v] else 1.0 / (|g.nodes| as real))
  {
    if |g.nodes| == 0 {
      return map[];
    }
    if 0.0 <= damping <= 1.0 && forall v :: v in personalization ==> personalization[v] >= 0.0 {
      IteratesAreBounded(g, personalization, damping, iterations);
    }
    var p := Personal(g, personalization);
    r := map v | v in g.nodes :: p(v);
    for iter := 0 to iterations
      invariant Holds(r, g.nodes, Iterate(g, p, damping, iter))
    {
      r := Iteration(g, p, damping, r, Iterate(g, p, damping, iter));
    }
    SumAtMost(g.nodes, v => if v in r then r[v] else 0.0, Iterate(g, p, damping, iterations));
  }

  lemma IteratesAreBounded(g: SymbolGraph, personalization: map<string, real>, d: real, k: nat)
    requires WellFormed(g) && g.nodes != [] && 0.0 <= d <= 1.0
    requires forall v :: v in personalization ==> personalization[v] >= 0.0
    ensures forall v :: v in g.nodes ==>
      Iterate(g, Personal(g, personalization), d, k)(v)
      >= (1.0 - d) * (if v in personalization then personalization[v] else 1.0 / (|g.nodes| as real))
    ensures Sum(g.nodes, Iterate(g, Personal(g, personalization), d, k))
      <= Sum(g.nodes, v => if v in personalization then personalization[v] else 1.0 / (|g.nodes| as real))
  {
    var p := Personal(g, personalization);
    ShareIsNonNegative(g.nodes);
    ScoresAtLeastRestart(g, p, d, k);
    MassIsBounded(g, p, d, k);
    forall v | v in g.nodes
      ensures Iterate(g, p, d, k)(v) >= (1.0 - d) * (if v in personalization then personalization[v] else 1.0 / (|g.nodes| as real))
    {
      AtLeastRestart(g, personalization, d, v, Iterate(g, p, d, k)(v));
    }
    SumAtMost(g.nodes, p, v => if v in personalization then personalization[v] else 1.0 / (|g.nodes| as real));
  }

  lemma AtLeastRestart(g: SymbolGraph, personalization: map<string, real>, d: real, v: string, score: real)
    requires g.nodes != [] && score >= Times(1.0 - d, Personal(g, personalization)(v))
    ensures score >= (1.0 - d) * (if v in personalization then personalization[v] else 1.0 / (|g.nodes| as real))
  {
    TimesIs(1.0 - d, Personal(g, personalization)(v),
            if v in personalization then personalization[v] else 1.0 / (|g.nodes| as real));
  }

  lemma TimesIs(a: real, b: real, b': real)
    requires b == b'
    ensures Times(a, b) == a * b'
  {
  }

  lemma ShareIsNonNegative(nodes: seq<string>)
    requires nodes != []
    ensures 1.0 / (|nodes| as real) >= 0.0
  {
  }

  method Iteration(g: SymbolGraph, p: Scores, damping: real, r: map<string, real>, ghost x: Scores)
    returns (next: map<string, real>)
    requires WellFormed(g) && Holds(r, g.nodes, x)
    ensures Holds(next, g.nodes, Next(g, p, damping, x))
  {
    next := map v | v in g.nodes :: (1.0 - damping) * p(v);
    for i := 0 to |g.edges|
      invariant forall v :: v in next <==> v in g.nodes
      invariant forall v :: v in g.nodes ==> next[v] == Mix(damping, p(v), InFlow(g.edges[..i], x, v))
    {
      var s := g.edges[i];
      assert SourceAmong(g.nodes, s);
      next := Send(g.nodes, s, damping, r[s.id], next);
      OneMoreSource(g.edges, i, damping, p, x);
    }
    assert g.edges[..|g.edges|] == g.edges;
  }

  lemma OneMoreSource(edges: seq<Source>, i: nat, d: real, p: Scores, x: Scores)
    requires i < |edges|
    ensures forall v ::
      Mix(d, p(v), InFlow(edges[..i + 1], x, v))
      == Mix(d, p(v), InFlow(edges[..i], x, v)) + Times(d, Times(x(edges[i].id), Share(edges[i], v)))
  {
    assert edges[..i + 1][..i] == edges[..i];
    forall v
      ensures Mix(d, p(v), InFlow(edges[..i + 1], x, v))
           == Mix(d, p(v), InFlow(edges[..i], x, v)) + Times(d, Times(x(edges[i].id), Share(edges[i], v)))
    {
      MixMore(d, p(v), InFlow(edges[..i], x, v), x(edges[i].id), Share(edges[i], v));
    }
  }

  method Send(ghost nodes: seq<string>, s: Source, damping: real, srcScore: real, start: map<string, real>)
    returns (next: map<string, real>)
    requires SourceAmong(nodes, s) && forall v :: v in start <==> v in nodes
    ensures forall v :: v in next <==> v in nodes
    ensures forall v :: v in nodes ==> next[v] == start[v] + Times(damping, Times(srcScore, Share(s, v)))
  {
    next := start;
    var totalWeight := TotalWeight(s.out);
    if totalWeight == 0.0 {
      NothingSent(damping, srcScore);
      return;
    }
    forall v
      ensures Sent(damping, srcScore, totalWeight, WeightTo(s.out[..0], v)) == 0.0
    {
    }
    for j := 0 to |s.out|
      invariant forall v :: v in next <==> v in nodes
      invariant forall v :: v in nodes ==> next[v] == start[v] + Sent(damping, srcScore, totalWeight, WeightTo(s.out[..j], v))
    {
      var tgt, w := s.out[j].target, s.out[j].weight;
      assert s.out[j] in s.out && s.out[..j + 1][..j] == s.out[..j];
      SentOneMore(damping, srcScore, totalWeight, WeightTo(s.out[..j], tgt), w);
      next := next[tgt := next[tgt] + damping * srcScore * (w / totalWeight)];
    }
    assert s.out[..|s.out|] == s.out;
    forall v | v in nodes
      ensures next[v] == start[v] + Times(damping, Times(srcScore, Share(s, v)))
    {
      SentIsShare(damping, srcScore, totalWeight, WeightTo(s.out, v));
    }
  }

  function Sent(damping: real, srcScore: real, total: real, weight: real): real
    requires total != 0.0
  {
    damping * srcScore * (weight / total)
  }

  lemma NothingSent(damping: real, srcScore: real)
    ensures Times(damping, Times(srcScore, 0.0)) == 0.0
  {
  }

  lemma SentOneMore(damping: real, srcScore: real, total: real, weight: real, more: real)
    requires total != 0.0
    ensures Sent(damping, srcScore, total, weight + more) == Sent(damping, srcScore, total, weight) + damping * srcScore * (more / total)
  {
    assert (weight + more) / total == weight / total + more / total;
    TimesSum(damping * srcScore, weight / total, more / total);
  }

  lemma SentIsShare(damping: real, srcScore: real, total: real, weight: real)
    requires total != 0.0
    ensures Sent(damping, srcScore, total, weight) == Times(damping, Times(srcScore, weight / total))
  {
    TimesAssociate(damping, srcScore, weight / total);
  }

  lemma MixMore(d: real, p: real, flow: real, score: real, share: real)
    ensures Mix(d, p, flow + Times(score, share)) == Mix(d, p, flow) + Times(d, Times(score, share))
  {
    TimesSum(d, flow, Times(score, share));
  }

  // ----- the graph the lexical scan supplies

  const MAX_EDGES_PER_SOURCE := 50

  /** A file with the names of its symbols. */
  datatype FileInput = FileInput(path: string, raw: string, mtimeMs: int, symbols: seq<string>)

  /** What is read of an earlier graph: its edges, and the times of the files it was built from. */
  datatype Previous = Previous(edges: seq<Source>, fileMtimes: map<string, int>)

  /** The file has not changed since the earlier graph, whose edges are then copied. */
  predicate Reused(previous: Option<Previous>, f: FileInput) {
    previous.Some? && f.mtimeMs > 0 && f.path in previous.value.fileMtimes && previous.value.fileMtimes[f.path] == f.mtimeMs
  }

  /** A source of the earlier graph that is copied: a symbol of a file that has not changed. */
  ghost predicate IsCopy(files: seq<FileInput>, previous: Option<Previous>, s: Source) {
    exists f, name :: f in files && Reused(previous, f) && name in f.symbols && s.id == NodeId(f.path, name)
      && s in previous.value.edges
  }

  /** No two files spell a node alike. */
  ghost predicate IdsApart(files: seq<FileInput>) {
    forall f, f', n, n' ::
      f in files && f' in files && n in f.symbols && n' in f'.symbols && NodeId(f.path, n) == NodeId(f'.path, n') ==> f == f'
  }

  /** The nodes of one symbol name. */
  datatype NameEntry = NameEntry(name: string, ids: seq<string>)

  function NodeId(path: string, name: string): string {
    path + ":" + name
  }

  ghost predicate Defines(files: seq<FileInput>, name: string, id: string) {
    exists f :: f in files && name in f.symbols && id == NodeId(f.path, name)
  }

  /** The scan of symbol `name` of file `f` reaches `t`: another symbol the file mentions, defined elsewhere. */
  ghost predicate Reaches(files: seq<FileInput>, mentions: (string, string) -> bool, f: FileInput, name: string, t: string) {
    exists n :: n != name && mentions(f.raw, n) && Defines(files, n, t) && !(f.path + ":" <= t)
  }

  /** Edges only to what the scan reaches, to all of it if the cap was not met, and never more than the cap. */
  ghost predicate Scanned(files: seq<FileInput>, mentions: (string, string) -> bool, f: FileInput, name: string, out: seq<Edge>) {
    && |out| <= MAX_EDGES_PER_SOURCE
    && (forall e :: e in out ==> e.weight >= 1.0 && Reaches(files, mentions, f, name, e.target))
    && (|out| < MAX_EDGES_PER_SOURCE ==> forall t :: Reaches(files, mentions, f, name, t) ==> HasTarget(out, t))
  }

  ghost predicate HasTarget(out: seq<Edge>, t: string) {
    exists e :: e in out && e.target == t
  }

  /** Where an insertion-ordered map has a key, its length where it has not. */
  function IndexOf<T>(entries: seq<T>, isKey: T -> bool): (i: nat)
    ensures i <= |entries| && (i < |entries| ==> isKey(entries[i])) && forall j :: 0 <= j < i ==> !isKey(entries[j])
  {
    if entries == [] then 0
    else
      var i := IndexOf(entries[..|entries| - 1], isKey);
      if i < |entries| - 1 || isKey(entries[|entries| - 1]) then i else |entries|
  }

  /** `outEdges.set(t, (outEdges.get(t) ?? 0) + 1)` */
  function AddEdge(out: seq<Edge>, t: string): (more: seq<Edge>)
    ensures forall u :: HasTarget(more, u) <==> HasTarget(out, u) || u == t
    ensures (forall e :: e in out ==> e.weight >= 1.0) ==> forall e :: e in more ==> e.weight >= 1.0
    ensures |more| <= |out| + 1
  {
    var i := IndexOf(out, (e: Edge) => e.target == t);
    var more := if i < |out| then out[i := Edge(t, out[i].weight + 1.0)] else out + [Edge(t, 1.0)];
    assert more[i].target == t && forall j :: 0 <= j < |out| && j != i ==> more[j] == out[j];
    assert forall u :: HasTarget(more, u) ==> HasTarget(out, u) || u == t;
    assert forall e :: e in out && e.target != t ==> e in more;
    more
  }

  /** `nameToNodeIds.get(name)!.push(id)`, with a new entry where there is none. */
  function AddName(names: seq<NameEntry>, name: string, id: string): (more: seq<NameEntry>)
    ensures forall n, d :: Lists(more, n, d) <==> Lists(names, n, d) || (n == name && d == id)
  {
    var i := IndexOf(names, (entry: NameEntry) => entry.name == name);
    var more := if i < |names| then names[i := NameEntry(name, names[i].ids + [id])] else names + [NameEntry(name, [id])];
    assert more[i].name == name && id in more[i].ids && forall j :: 0 <= j < |names| && j != i ==> more[j] == names[j];
    assert forall n, d :: Lists(more, n, d) ==> Lists(names, n, d) || (n == name && d == id);
    assert forall n, d :: Lists(names, n, d) ==> Lists(more, n, d);
    more
  }

  ghost predicate Lists(names: seq<NameEntry>, n: string, id: string) {
    exists i :: 0 <= i < |names| && names[i].name == n && id in names[i].ids
  }

  /** `edges.set(id, out)` */
  function SetEdges(edges: seq<Source>, id: string, out: seq<Edge>): (more: seq<Source>)
    requires Distinct(SourceIds(edges))
    ensures Distinct(SourceIds(more))
    ensures forall s :: s in more ==> s == Source(id, out) || s in edges
    ensures forall i :: i in SourceIds(more) <==> i in SourceIds(edges) || i == id
    ensures Source(id, out) in more && forall s :: s in edges && s.id != id ==> s in more
  {
    var i := IndexOf(edges, (s: Source) => s.id == id);
    var more := if i < |edges| then edges[i := Source(id, out)] else edges + [Source(id, out)];
    assert more[i] == Source(id, out) && forall j :: 0 <= j < |edges| && j != i ==> more[j] == edges[j];
    assert SourceIds(more) == if i < |edges| then SourceIds(edges) else SourceIds(edges) + [id];
    assert i < |edges| ==> SourceIds(edges)[i] == id;
    more
  }

  /** One of the first `j` symbols of `f` is the node `id`. */
  ghost predicate NodeBelow(f: FileInput, j: nat, id: string) {
    exists i :: 0 <= i < j && i < |f.symbols| && id == NodeId(f.path, f.symbols[i])
  }

  ghost predicate DefinesBelow(f: FileInput, j: nat, n: string, id: string) {
    exists i :: 0 <= i < j && i < |f.symbols| && n == f.symbols[i] && id == NodeId(f.path, n)
  }

  lemma OneMoreSymbol(f: FileInput, j: nat)
    requires j < |f.symbols|
    ensures forall n, id :: DefinesBelow(f, j + 1, n, id) <==>
      DefinesBelow(f, j, n, id) || (n == f.symbols[j] && id == NodeId(f.path, n))
    ensures forall id :: NodeBelow(f, j + 1, id) <==> NodeBelow(f, j, id) || id == NodeId(f.path, f.symbols[j])
  {
    forall id
      ensures NodeBelow(f, j + 1, id) <==> NodeBelow(f, j, id) || id == NodeId(f.path, f.symbols[j])
    {
      if NodeBelow(f, j, id) {
        var i :| 0 <= i < j && i < |f.symbols| && id == NodeId(f.path, f.symbols[i]);
        assert i < j + 1;
      }
    }
    forall n, id
      ensures DefinesBelow(f, j + 1, n, id) <==> DefinesBelow(f, j, n, id) || (n == f.symbols[j] && id == NodeId(f.path, n))
    {
      if DefinesBelow(f, j, n, id) {
        var i :| 0 <= i < j && i < |f.symbols| && n == f.symbols[i] && id == NodeId(f.path, n);
        assert i < j + 1;
      }
    }
  }

  method IndexFile(f: FileInput, nodesBefore: seq<string>, namesBefore: seq<NameEntry>)
    returns (nodes: seq<string>, names: seq<NameEntry>)
    requires Distinct(nodesBefore)
    ensures Distinct(nodes)
    ensures forall n, id :: Lists(names, n, id) <==> Lists(namesBefore, n, id) || DefinesBelow(f, |f.symbols|, n, id)
    ensures forall id :: id in nodes <==> id in nodesBefore || NodeBelow(f, |f.symbols|, id)
  {
    nodes, names := nodesBefore, namesBefore;
    for j := 0 to |f.symbols|
      invariant Distinct(nodes)
      invariant forall n, id :: Lists(names, n, id) <==> Lists(namesBefore, n, id) || DefinesBelow(f, j, n, id)
      invariant forall id :: id in nodes <==> id in nodesBefore || NodeBelow(f, j, id)
    {
      OneMoreSymbol(f, j);
      var sym := f.symbols[j];
      var nodeId := NodeId(f.path, sym);
      if nodeId !in nodes {
        nodes := nodes + [nodeId];
      }
      names := AddName(names, sym, nodeId);
    }
  }

  /** Some symbol of the files is the node `id`. */
  ghost predicate IsNode(files: seq<FileInput>, id: string) {
    exists f :: f in files && NodeBelow(f, |f.symbols|, id)
  }

  method IndexSymbols(files: seq<FileInput>) returns (nodes: seq<string>, names: seq<NameEntry>)
    ensures Distinct(nodes)
    ensures forall n, id :: Lists(names, n, id) <==> Defines(files, n, id)
    ensures forall id :: id in nodes <==> IsNode(files, id)
  {
    nodes, names := [], [];
    for k := 0 to |files|
      invariant Distinct(nodes)
      invariant forall n, id :: Lists(names, n, id) <==> Defines(files[..k], n, id)
      invariant forall id :: id in nodes <==> IsNode(files[..k], id)
    {
      OneMoreFile(files, k);
      nodes, names := IndexFile(files[k], nodes, names);
    }
    assert files[..|files|] == files;
  }

  lemma OneMoreFile(files: seq<FileInput>, k: nat)
    requires k < |files|
    ensures forall n, id :: Defines(files[..k + 1], n, id) <==>
      Defines(files[..k], n, id) || DefinesBelow(files[k], |files[k].symbols|, n, id)
    ensures forall id :: IsNode(files[..k + 1], id) <==> IsNode(files[..k], id) || NodeBelow(files[k], |files[k].symbols|, id)
  {
    assert files[..k + 1] == files[..k] + [files[k]];
  }

  predicate InFile(path: string, id: string) {
    path + ":" <= id
  }

  /** Adds an edge to each of `ids` outside the file, up to the cap. */
  method ScanEntry(ids: seq<string>, path: string, before: seq<Edge>) returns (out: seq<Edge>)
    requires |before| < MAX_EDGES_PER_SOURCE && forall e :: e in before ==> e.weight >= 1.0
    ensures |out| <= MAX_EDGES_PER_SOURCE && forall e :: e in out ==> e.weight >= 1.0
    ensures forall u :: HasTarget(out, u) ==> HasTarget(before, u) || (u in ids && !InFile(path, u))
    ensures |out| < MAX_EDGES_PER_SOURCE ==> forall u :: HasTarget(before, u) || (u in ids && !InFile(path, u)) ==> HasTarget(out, u)
  {
    out := before;
    for k := 0 to |ids|
      invariant |out| < MAX_EDGES_PER_SOURCE && forall e :: e in out ==> e.weight >= 1.0
      invariant forall u :: HasTarget(out, u) <==> HasTarget(before, u) || (u in ids[..k] && !InFile(path, u))
    {
      assert ids[..k + 1] == ids[..k] + [ids[k]];
      if InFile(path, ids[k]) {
        continue;
      }
      out := AddEdge(out, ids[k]);
      if |out| >= MAX_EDGES_PER_SOURCE {
        return;
      }
    }
    assert ids[..|ids|] == ids;
  }

  /** The scan of `name` in `f` finds `u` among the ids of entry `i`. */
  ghost predicate Hits(names: seq<NameEntry>, mentions: (string, string) -> bool, f: FileInput, name: string, i: nat, u: string) {
    && i < |names| && names[i].name != name && mentions(f.raw, names[i].name)
    && u in names[i].ids && !InFile(f.path, u)
  }

  method ScanSymbol(files: seq<FileInput>, names: seq<NameEntry>, mentions: (string, string) -> bool, f: FileInput, name: string)
    returns (out: seq<Edge>)
    requires forall n, id :: Lists(names, n, id) <==> Defines(files, n, id)
    ensures Scanned(files, mentions, f, name, out)
  {
    out := [];
    var k := 0;
    while k < |names| && |out| < MAX_EDGES_PER_SOURCE
      invariant k <= |names| && |out| <= MAX_EDGES_PER_SOURCE && forall e :: e in out ==> e.weight >= 1.0
      invariant forall u :: HasTarget(out, u) ==> exists i :: 0 <= i < k && Hits(names, mentions, f, name, i, u)
      invariant |out| < MAX_EDGES_PER_SOURCE ==>
        forall i, u :: 0 <= i < k && Hits(names, mentions, f, name, i, u) ==> HasTarget(out, u)
    {
      var entry := names[k];
      if (forall id :: id in entry.ids ==> InFile(f.path, id)) || entry.name == name || !mentions(f.raw, entry.name) {
        assert forall u :: !Hits(names, mentions, f, name, k, u);
      } else {
        ghost var before := out;
        out := ScanEntry(entry.ids, f.path, out);
        assert forall u :: Hits(names, mentions, f, name, k, u) <==> u in entry.ids && !InFile(f.path, u);
      }
      k := k + 1;
    }
    ScannedAll(files, names, mentions, f, name, out);
  }

  lemma ScannedAll(files: seq<FileInput>, names: seq<NameEntry>, mentions: (string, string) -> bool, f: FileInput, name: string,
                   out: seq<Edge>)
    requires forall n, id :: Lists(names, n, id) <==> Defines(files, n, id)
    requires |out| <= MAX_EDGES_PER_SOURCE && forall e :: e in out ==> e.weight >= 1.0
    requires forall u :: HasTarget(out, u) ==> exists i :: 0 <= i < |names| && Hits(names, mentions, f, name, i, u)
    requires |out| < MAX_EDGES_PER_SOURCE ==>
      forall i, u :: 0 <= i < |names| && Hits(names, mentions, f, name, i, u) ==> HasTarget(out, u)
    ensures Scanned(files, mentions, f, name, out)
  {
    forall e | e in out
      ensures Reaches(files, mentions, f, name, e.target)
    {
      assert HasTarget(out, e.target);
      var i :| 0 <= i < |names| && Hits(names, mentions, f, name, i, e.target);
      assert Lists(names, names[i].name, e.target);
    }
    if |out| < MAX_EDGES_PER_SOURCE {
      forall u | Reaches(files, mentions, f, name, u)
        ensures HasTarget(out, u)
      {
        var n :| n != name && mentions(f.raw, n) && Defines(files, n, u) && !(f.path + ":" <= u);
        assert Lists(names, n, u);
        var i :| 0 <= i < |names| && names[i].name == n && u in names[i].ids;
        assert Hits(names, mentions, f, name, i, u);
      }
    }
  }

  /** A source is a symbol of some file, with at least one and at most the capped number of scanned edges. */
  ghost predicate IsScan(files: seq<FileInput>, mentions: (string, string) -> bool, s: Source) {
    exists f, name :: f in files && name in f.symbols && s.id == NodeId(f.path, name)
      && s.out != [] && Scanned(files, mentions, f, name, s.out)
  }

  /** Copied or scanned, in a graph of these nodes. */
  ghost predicate IsBuilt(files: seq<FileInput>, mentions: (string, string) -> bool, previous: Option<Previous>, s: Source) {
    IsScan(files, mentions, s) || IsCopy(files, previous, s)
  }

  /**
   * Each source in full. A copy is a source of the earlier graph, of a symbol of a file whose time is positive and
   * the recorded one. Any other has edges to at most 50 symbols `n` of files, each one mentioned, of another name,
   * and not spelt as one of this file; to all of these if they are fewer.
   */
  lemma SourcesFromFiles(files: seq<FileInput>, mentions: (string, string) -> bool, previous: Option<Previous>, s: Source)
    requires IsBuilt(files, mentions, previous, s)
    ensures exists f, name ::
      && f in files && name in f.symbols && s.id == f.path + ":" + name
      && (|| (&& previous.Some? && s in previous.value.edges && f.mtimeMs > 0
              && f.path in previous.value.fileMtimes && previous.value.fileMtimes[f.path] == f.mtimeMs)
          || (&& 0 < |s.out| <= 50
              && (forall e :: e in s.out ==> e.weight >= 1.0 && TargetOf(files, mentions, f, name, e.target))
              && (|s.out| < 50 ==> forall t :: TargetOf(files, mentions, f, name, t) ==> exists e :: e in s.out && e.target == t)))
  {
    if IsScan(files, mentions, s) {
      var f, name :| f in files && name in f.symbols && s.id == NodeId(f.path, name)
        && s.out != [] && Scanned(files, mentions, f, name, s.out);
      forall t
        ensures TargetOf(files, mentions, f, name, t) <==> Reaches(files, mentions, f, name, t)
      {
        TargetIsReached(files, mentions, f, name, t);
      }
      assert forall t :: HasTarget(s.out, t) ==> exists e :: e in s.out && e.target == t;
    }
  }

  ghost predicate TargetOf(files: seq<FileInput>, mentions: (string, string) -> bool, f: FileInput, name: string, t: string) {
    exists of, n :: of in files && n in of.symbols && t == of.path + ":" + n && n != name && mentions(f.raw, n) && !(f.path + ":" <= t)
  }

  lemma TargetIsReached(files: seq<FileInput>, mentions: (string, string) -> bool, f: FileInput, name: string, t: string)
    ensures TargetOf(files, mentions, f, name, t) <==> Reaches(files, mentions, f, name, t)
  {
    if of, n :| of in files && n in of.symbols && t == of.path + ":" + n && n != name && mentions(f.raw, n) && !(f.path + ":" <= t) {
      assert Defines(files, n, t);
    }
    if n :| n != name && mentions(f.raw, n) && Defines(files, n, t) && !(f.path + ":" <= t) {
      var of :| of in files && n in of.symbols && t == NodeId(of.path, n);
    }
  }

  /** The copies of one file's symbols are among the edges. */
  ghost predicate CopiesIn(previous: Option<Previous>, f: FileInput, edges: seq<Source>) {
    Reused(previous, f) ==>
      forall name, s :: name in f.symbols && s in previous.value.edges && s.id == NodeId(f.path, name) ==> s in edges
  }

  /**
   * The graph, unchanged files copied from an earlier one. It is what every PageRank result above asks of
   * a graph, and capped, without an earlier graph; with one, exactly if no copied edge leads to a symbol
   * that is gone.
   */
  method BuildSymbolGraph(files: seq<FileInput>, mentions: (string, string) -> bool, previous: Option<Previous>) returns (g: SymbolGraph)
    requires previous.Some? ==> Distinct(SourceIds(previous.value.edges))
    ensures Distinct(g.nodes) && forall id :: id in g.nodes <==> IsNode(files, id)
    ensures forall s :: s in g.edges ==> IsBuilt(files, mentions, previous, s)
    ensures forall s :: s in g.edges && !IsCopy(files, previous, s) ==> 0 < |s.out| <= MAX_EDGES_PER_SOURCE
    ensures forall f, name, t :: f in files && !Reused(previous, f) && name in f.symbols && Reaches(files, mentions, f, name, t) ==>
      NodeId(f.path, name) in SourceIds(g.edges)
    ensures (forall s :: IsCopy(files, previous, s) ==> SourceAmong(g.nodes, s)) ==> WellFormed(g)
    ensures IdsApart(files) && WellFormed(g) ==> forall s :: IsCopy(files, previous, s) ==> SourceAmong(g.nodes, s)
  {
    var nodes, names := IndexSymbols(files);
    var edges: seq<Source> := [];
    for k := 0 to |files|
      invariant Distinct(SourceIds(edges)) && forall s :: s in edges ==> IsBuilt(files, mentions, previous, s)
      invariant forall i, name, t ::
        0 <= i < k && !Reused(previous, files[i]) && name in files[i].symbols && Reaches(files, mentions, files[i], name, t) ==>
          NodeId(files[i].path, name) in SourceIds(edges)
      invariant IdsApart(files) ==> forall i :: 0 <= i < k ==> CopiesIn(previous, files[i], edges)
    {
      ghost var before := edges;
      if Reused(previous, files[k]) {
        edges := CopyFile(files, mentions, previous, files[k], edges);
      } else {
        edges := ScanFile(files, names, mentions, previous, files[k], edges);
      }
      if IdsApart(files) {
        CopiesStay(files, previous, files[..k], files[k], before, edges);
      }
    }
    g := SymbolGraph(nodes, edges);
    BuiltIsWellFormed(files, mentions, previous, g);
    if IdsApart(files) {
      CopiesAreIn(files, previous, edges);
    }
  }

  /** Edges of other files' symbols are not touched. */
  ghost predicate OthersStay(f: FileInput, before: seq<Source>, edges: seq<Source>) {
    forall s :: s in before && (forall name :: name in f.symbols ==> s.id != NodeId(f.path, name)) ==> s in edges
  }

  lemma CopiesStay(files: seq<FileInput>, previous: Option<Previous>, done: seq<FileInput>, f: FileInput,
                   before: seq<Source>, edges: seq<Source>)
    requires IdsApart(files) && f in files && forall e :: e in done ==> e in files && CopiesIn(previous, e, before)
    requires OthersStay(f, before, edges) && CopiesIn(previous, f, edges)
    ensures forall e :: e in done ==> CopiesIn(previous, e, edges)
  {
    forall e | e in done && Reused(previous, e) && e != f
      ensures CopiesIn(previous, e, edges)
    {
      forall name, s | name in e.symbols && s in previous.value.edges && s.id == NodeId(e.path, name)
        ensures s in edges
      {
        assert s in before;
      }
    }
  }

  lemma CopiesAreIn(files: seq<FileInput>, previous: Option<Previous>, edges: seq<Source>)
    requires forall f :: f in files ==> CopiesIn(previous, f, edges)
    ensures forall s :: IsCopy(files, previous, s) ==> s in edges
  {
  }

  lemma BuiltIsWellFormed(files: seq<FileInput>, mentions: (string, string) -> bool, previous: Option<Previous>, g: SymbolGraph)
    requires Distinct(g.nodes) && (forall id :: id in g.nodes <==> IsNode(files, id)) && Distinct(SourceIds(g.edges))
    requires forall s :: s in g.edges ==> IsBuilt(files, mentions, previous, s)
    ensures (forall s :: IsCopy(files, previous, s) ==> SourceAmong(g.nodes, s)) ==> WellFormed(g)
    ensures forall s :: s in g.edges && !IsCopy(files, previous, s) ==> 0 < |s.out| <= MAX_EDGES_PER_SOURCE
  {
    forall s | s in g.edges && !IsCopy(files, previous, s)
      ensures SourceAmong(g.nodes, s) && 0 < |s.out| <= MAX_EDGES_PER_SOURCE
    {
      ScannedAmongNodes(files, mentions, s, g.nodes);
    }
  }

  /** The edges of an unchanged file's symbols, from the earlier graph. */
  method CopyFile(files: seq<FileInput>, ghost mentions: (string, string) -> bool, previous: Option<Previous>, f: FileInput, before: seq<Source>)
    returns (edges: seq<Source>)
    requires f in files && Reused(previous, f) && Distinct(SourceIds(previous.value.edges))
    requires Distinct(SourceIds(before)) && forall s :: s in before ==> IsBuilt(files, mentions, previous, s)
    ensures Distinct(SourceIds(edges)) && forall s :: s in edges ==> IsBuilt(files, mentions, previous, s)
    ensures forall id :: id in SourceIds(before) ==> id in SourceIds(edges)
    ensures OthersStay(f, before, edges) && CopiesIn(previous, f, edges)
  {
    edges := before;
    for j := 0 to |f.symbols|
      invariant Distinct(SourceIds(edges)) && forall s :: s in edges ==> IsBuilt(files, mentions, previous, s)
      invariant forall id :: id in SourceIds(before) ==> id in SourceIds(edges)
      invariant OthersStay(f, before, edges)
      invariant forall i, s :: 0 <= i < j && s in previous.value.edges && s.id == NodeId(f.path, f.symbols[i]) ==> s in edges
    {
      var id := NodeId(f.path, f.symbols[j]);
      var at := IndexOf(previous.value.edges, (s: Source) => s.id == id);
      if at < |previous.value.edges| {
        var copy := previous.value.edges[at];
        assert IsCopy(files, previous, copy);
        OnlySource(previous.value.edges, at, id);
        edges := SetEdges(edges, id, copy.out);
      }
    }
  }

  lemma OnlySource(edges: seq<Source>, at: nat, id: string)
    requires Distinct(SourceIds(edges)) && at < |edges| && edges[at].id == id
    ensures forall s :: s in edges && s.id == id ==> s == edges[at]
  {
    forall s | s in edges && s.id == id
      ensures s == edges[at]
    {
      var i :| 0 <= i < |edges| && edges[i] == s;
      assert SourceIds(edges)[i] == SourceIds(edges)[at];
    }
  }

  /** An edge to a symbol of a removed file is copied as long as its source file is unchanged: the graph is not well formed. */
  lemma RemovedTargetIsCopied(f: FileInput, name: string, gone: string)
    requires f.symbols == [name] && f.mtimeMs > 0 && gone != NodeId(f.path, name)
    ensures var previous := Some(Previous([Source(NodeId(f.path, name), [Edge(gone, 1.0)])], map[f.path := f.mtimeMs]));
      exists s :: IsCopy([f], previous, s)
        && forall nodes: seq<string> :: (forall id :: id in nodes <==> IsNode([f], id)) ==> !SourceAmong(nodes, s)
  {
    var s := Source(NodeId(f.path, name), [Edge(gone, 1.0)]);
    var previous := Some(Previous([s], map[f.path := f.mtimeMs]));
    assert name in f.symbols && s in previous.value.edges;
    assert IsCopy([f], previous, s);
    assert s.out[0].target == gone && !IsNode([f], gone);
  }

  method ScanFile(files: seq<FileInput>, names: seq<NameEntry>, mentions: (string, string) -> bool, ghost previous: Option<Previous>,
                  f: FileInput, before: seq<Source>)
    returns (edges: seq<Source>)
    requires f in files && forall n, id :: Lists(names, n, id) <==> Defines(files, n, id)
    requires Distinct(SourceIds(before)) && forall s :: s in before ==> IsBuilt(files, mentions, previous, s)
    ensures Distinct(SourceIds(edges)) && forall s :: s in edges ==> IsBuilt(files, mentions, previous, s)
    ensures forall id :: id in SourceIds(before) ==> id in SourceIds(edges)
    ensures OthersStay(f, before, edges)
    ensures forall name, t :: name in f.symbols && Reaches(files, mentions, f, name, t) ==> NodeId(f.path, name) in SourceIds(edges)
  {
    edges := before;
    for j := 0 to |f.symbols|
      invariant Distinct(SourceIds(edges)) && forall s :: s in edges ==> IsBuilt(files, mentions, previous, s)
      invariant forall id :: id in SourceIds(before) ==> id in SourceIds(edges)
      invariant OthersStay(f, before, edges)
      invariant forall i, t :: 0 <= i < j && Reaches(files, mentions, f, f.symbols[i], t) ==>
        NodeId(f.path, f.symbols[i]) in SourceIds(edges)
    {
      var name := f.symbols[j];
      var out := ScanSymbol(files, names, mentions, f, name);
      if |out| > 0 {
        assert IsScan(files, mentions, Source(NodeId(f.path, name), out));
        edges := SetEdges(edges, NodeId(f.path, name), out);
      } else {
        assert forall t :: !HasTarget(out, t);
      }
    }
  }

  lemma ScannedAmongNodes(files: seq<FileInput>, mentions: (string, string) -> bool, s: Source, nodes: seq<string>)
    requires IsScan(files, mentions, s) && forall id :: id in nodes <==> IsNode(files, id)
    ensures SourceAmong(nodes, s)
  {
    var f, name :| f in files && name in f.symbols && s.id == NodeId(f.path, name)
      && s.out != [] && Scanned(files, mentions, f, name, s.out);
    SymbolIsNode(files, f, name);
    forall e | e in s.out
      ensures e.target in nodes
    {
      assert Reaches(files, mentions, f, name, e.target);
      var n :| n != name && mentions(f.raw, n) && Defines(files, n, e.target) && !(f.path + ":" <= e.target);
      var of :| of in files && n in of.symbols && e.target == NodeId(of.path, n);
      SymbolIsNode(files, of, n);
    }
  }

  lemma SymbolIsNode(files: seq<FileInput>, f: FileInput, name: string)
    requires f in files && name in f.symbols
    ensures IsNode(files, NodeId(f.path, name))
  {
    var i :| 0 <= i < |f.symbols| && f.symbols[i] == name;
    assert NodeBelow(f, |f.symbols|, NodeId(f.path, name));
  }
}
