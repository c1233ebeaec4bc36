/**
 * The per-kind rules of symbol extraction, stated both on the walk
 * (`Extraction`) and on the reference account (`Declared`, `Supported`), and
 * the whole-plan properties that follow from the correctness theorem:
 * completeness, soundness, abort on unsupported kinds, and independence from
 * the order of children.
 */
module ExtractionRules {
  import opened Plan
  import opened SymbolExtraction
  import opened DeclaredSymbols

  predicate IsPassThrough(node: PlanNode)
  {
    node.Filter? || node.TopN? || node.Sort? || node.Limit? || node.DistinctLimit?
    || node.Sample? || node.Sink?
  }

  predicate IsOutputListKind(node: PlanNode)
  {
    node.Project? || node.Output? || node.TableWriter? || node.TableCommit?
    || node.MaterializedViewWriter?
  }

  /** What a single-source node declares, in terms of its source. */
  lemma {:induction false} UnaryStep(node: PlanNode, source: PlanNode)
    requires Children(node) == [source] && !node.Unsupported?
    ensures Declared(node) == Declared(source) + Local(node)
    ensures Supported(node) <==> Supported(source)
  {
    DeclaredStep(node);
    SupportedStep(node);
    assert DeclaredAll([source]) == Declared(source);
  }

  /** What a two-child node declares, in terms of its children. */
  lemma {:induction false} BinaryStep(node: PlanNode, first: PlanNode, second: PlanNode)
    requires Children(node) == [first, second] && !node.Unsupported?
    ensures Declared(node) == Declared(first) + Declared(second) + Local(node)
    ensures Supported(node) <==> Supported(first) && Supported(second)
  {
    DeclaredStep(node);
    SupportedStep(node);
    assert DeclaredAll([first, second]) == Declared(first) + Declared(second);
  }

  /** A table scan is a leaf: exactly the keys of its assignments, and nothing below it. */
  lemma TableScanIsLeaf(assignments: map<Symbol, ColumnHandle>)
    ensures Extraction(TableScan(assignments)) == Success(assignments.Keys)
    ensures Reachable(TableScan(assignments)) == {TableScan(assignments)}
    ensures Supported(TableScan(assignments))
  {
  }

  /** An exchange is a leaf: exactly the symbols of its output list, and nothing below it. */
  lemma ExchangeIsLeaf(outputSymbols: seq<Symbol>)
    ensures Extraction(Exchange(outputSymbols)).Success?
    ensures forall s :: s in Extraction(Exchange(outputSymbols)).value <==> s in outputSymbols
    ensures Reachable(Exchange(outputSymbols)) == {Exchange(outputSymbols)}
    ensures Supported(Exchange(outputSymbols))
  {
  }

  /** Filter, TopN, Sort, Limit, DistinctLimit, Sample and Sink add nothing of their own. */
  lemma PassThroughAddsNothing(node: PlanNode)
    requires IsPassThrough(node)
    ensures Extraction(node) == Extraction(node.source)
    ensures Declared(node) == Declared(node.source)
    ensures Supported(node) <==> Supported(node.source)
  {
    UnaryStep(node, node.source);
  }

  /** Project, Output, TableWriter, TableCommit and the view writer add their output list. */
  lemma OutputListIsAdded(node: PlanNode)
    requires IsOutputListKind(node)
    ensures Extraction(node) == WithLocal(Extraction(node.source), Elements(node.outputSymbols))
    ensures Declared(node) == Declared(node.source) + Elements(node.outputSymbols)
    ensures Supported(node) <==> Supported(node.source)
  {
    UnaryStep(node, node.source);
  }

  /**
   * An aggregation adds the keys of its aggregations map; a grouping key is
   * not added by the aggregation itself.
   */
  lemma AggregationAddsAggregationKeys(node: PlanNode)
    requires node.Aggregation?
    ensures Extraction(node) == WithLocal(Extraction(node.source), node.aggregations.Keys)
    ensures Declared(node) == Declared(node.source) + node.aggregations.Keys
    ensures forall k :: k in node.groupBy && k !in node.aggregations && k !in Declared(node.source)
              ==> k !in Declared(node)
  {
    UnaryStep(node, node.source);
  }

  /** A window adds the keys of its window-functions map, not its partitioning symbols. */
  lemma WindowAddsFunctionKeys(node: PlanNode)
    requires node.Window?
    ensures Extraction(node) == WithLocal(Extraction(node.source), node.windowFunctions.Keys)
    ensures Declared(node) == Declared(node.source) + node.windowFunctions.Keys
    ensures forall k :: k in node.partitionBy && k !in node.windowFunctions && k !in Declared(node.source)
              ==> k !in Declared(node)
  {
    UnaryStep(node, node.source);
  }

  /** A mark-distinct adds exactly its marker symbol, not the symbols it is distinct on. */
  lemma MarkDistinctAddsMarker(node: PlanNode)
    requires node.MarkDistinct?
    ensures Extraction(node) == WithLocal(Extraction(node.source), {node.markerSymbol})
    ensures Declared(node) == Declared(node.source) + {node.markerSymbol}
    ensures forall k :: k in node.distinctSymbols && k != node.markerSymbol && k !in Declared(node.source)
              ==> k !in Declared(node)
  {
    UnaryStep(node, node.source);
  }

  /** A join declares what its two sides declare, and nothing of its own; the left side is walked first. */
  lemma JoinCombinesBothSides(left: PlanNode, right: PlanNode)
    ensures Extraction(Join(left, right)).Success? <==>
              Extraction(left).Success? && Extraction(right).Success?
    ensures Extraction(Join(left, right)).Success? ==>
              Extraction(Join(left, right)).value == Extraction(left).value + Extraction(right).value
    ensures Extraction(left).Failure? ==> Extraction(Join(left, right)) == Extraction(left)
    ensures Extraction(left).Success? && Extraction(right).Failure? ==>
              Extraction(Join(left, right)) == Extraction(right)
    ensures Declared(Join(left, right)) == Declared(left) + Declared(right)
  {
    BinaryStep(Join(left, right), left, right);
  }

  /** A semi-join declares its output symbol and what both of its sources declare. */
  lemma SemiJoinAddsOutput(source: PlanNode, filteringSource: PlanNode, semiJoinOutput: Symbol)
    ensures Extraction(SemiJoin(source, filteringSource, semiJoinOutput)).Success? <==>
              Extraction(source).Success? && Extraction(filteringSource).Success?
    ensures Extraction(SemiJoin(source, filteringSource, semiJoinOutput)).Success? ==>
              Extraction(SemiJoin(source, filteringSource, semiJoinOutput)).value ==
                {semiJoinOutput} + Extraction(source).value + Extraction(filteringSource).value
    ensures Extraction(source).Failure? ==>
              Extraction(SemiJoin(source, filteringSource, semiJoinOutput)) == Extraction(source)
    ensures Extraction(source).Success? && Extraction(filteringSource).Failure? ==>
              Extraction(SemiJoin(source, filteringSource, semiJoinOutput)) == Extraction(filteringSource)
    ensures Declared(SemiJoin(source, filteringSource, semiJoinOutput)) ==
              {semiJoinOutput} + Declared(source) + Declared(filteringSource)
  {
    BinaryStep(SemiJoin(source, filteringSource, semiJoinOutput), source, filteringSource);
  }

  /** The symbols of every sibling in a list, when each sibling's walk succeeds. */
  ghost function ExtractedFromEach(nodes: seq<PlanNode>): set<Symbol>
  {
    set c, s | c in nodes && Extraction(c).Success? && s in Extraction(c).value :: s
  }

  /** What the siblings' walks return grows by what the new last sibling's walk returns. */
  lemma ExtractedFromEachSnoc(init: seq<PlanNode>, last: PlanNode)
    requires Extraction(last).Success?
    ensures ExtractedFromEach(init + [last]) == ExtractedFromEach(init) + Extraction(last).value
  {
    var nodes, tail := init + [last], Extraction(last).value;
    forall s | s in ExtractedFromEach(nodes) ensures s in ExtractedFromEach(init) + tail {
      var c :| c in nodes && Extraction(c).Success? && s in Extraction(c).value;
      if c != last { assert c in init; }
    }
    forall s | s in ExtractedFromEach(init) + tail ensures s in ExtractedFromEach(nodes) {
      if s !in tail {
        var c :| c in init && Extraction(c).Success? && s in Extraction(c).value;
        assert c in nodes;
      } else {
        assert last in nodes;
      }
    }
  }

  lemma {:induction false} ExtractionAllIsUnion(nodes: seq<PlanNode>)
    ensures ExtractionAll(nodes).Success? <==> forall c :: c in nodes ==> Extraction(c).Success?
    ensures ExtractionAll(nodes).Success? ==> ExtractionAll(nodes).value == ExtractedFromEach(nodes)
    decreases |nodes|
  {
    if nodes != [] {
      var init, last := nodes[..|nodes| - 1], nodes[|nodes| - 1];
      assert nodes == init + [last];
      assert forall c :: c in nodes <==> c in init || c == last;
      ExtractionAllIsUnion(init);
      assert (forall c :: c in nodes ==> Extraction(c).Success?) <==>
             (forall c :: c in init ==> Extraction(c).Success?) && Extraction(last).Success?;
      if ExtractionAll(nodes).Success? {
        ExtractedFromEachSnoc(init, last);
      }
    }
  }

  /**
   * A union declares the symbols of all of its sources, and nothing of its
   * own; with no sources it declares nothing.
   */
  lemma UnionOfSources(sources: seq<PlanNode>)
    ensures Extraction(Union(sources)).Success? <==>
              forall c :: c in sources ==> Extraction(c).Success?
    ensures Extraction(Union(sources)).Success? ==>
              Extraction(Union(sources)).value == ExtractedFromEach(sources)
    ensures sources == [] ==> Extraction(Union(sources)) == Success({})
  {
    ExtractionAllIsUnion(sources);
  }

  /** A node of an unsupported kind fails at once, with its own class name. */
  lemma UnsupportedKindFails(className: string)
    ensures Extraction(Unsupported(className)) == Failure(NotYetImplemented(className))
    ensures !Supported(Unsupported(className))
  {
    assert Unsupported(className) in Reachable(Unsupported(className));
  }

  /**
   * The walk fails exactly when it reaches a node of an unsupported kind; it
   * never returns a partial set.
   */
  lemma FailsExactlyOnUnsupported(root: PlanNode)
    ensures Extraction(root).Failure? <==> exists n :: n in Reachable(root) && n.Unsupported?
    ensures Extraction(root).Failure? ==>
              exists n :: n in Reachable(root) && n == Unsupported(Extraction(root).error.className)
  {
    ExtractionCorrect(root);
  }

  /** Completeness: every reachable node's local contribution is in the result. */
  lemma Completeness(root: PlanNode, n: PlanNode)
    requires Extraction(root).Success?
    requires n in Reachable(root)
    ensures Local(n) <= Extraction(root).value
  {
    ExtractionCorrect(root);
  }

  /** Soundness: every symbol of the result is the local contribution of some reachable node. */
  lemma Soundness(root: PlanNode, s: Symbol)
    requires Extraction(root).Success?
    requires s in Extraction(root).value
    ensures exists n :: n in Reachable(root) && s in Local(n)
  {
    ExtractionCorrect(root);
  }

  /** Every node reachable from a node reachable from `root` is reachable from `root`. */
  lemma {:induction false} ReachableTransitive(root: PlanNode, n: PlanNode)
    requires n in Reachable(root)
    ensures Reachable(n) <= Reachable(root)
    decreases root
  {
    if n != root {
      var c :| c in Children(root) && n in Reachable(c);
      ReachableTransitive(c, n);
      forall m | m in Reachable(c) ensures m in Reachable(root) {
      }
    }
  }

  /**
   * When the whole plan is extracted, so is every subplan the walk reaches,
   * and its symbols are among the whole plan's.
   */
  lemma SubplanContained(root: PlanNode, n: PlanNode)
    requires Extraction(root).Success?
    requires n in Reachable(root)
    ensures Extraction(n).Success?
    ensures Extraction(n).value <= Extraction(root).value
  {
    ExtractionCorrect(root);
    ExtractionCorrect(n);
    ReachableTransitive(root, n);
  }

  /** Swapping a join's sides changes neither whether extraction succeeds nor what it returns. */
  lemma JoinOrderIrrelevant(left: PlanNode, right: PlanNode)
    ensures Extraction(Join(left, right)).Success? <==> Extraction(Join(right, left)).Success?
    ensures Extraction(Join(left, right)).Success? ==>
              Extraction(Join(left, right)).value == Extraction(Join(right, left)).value
  {
    JoinCombinesBothSides(left, right);
    JoinCombinesBothSides(right, left);
  }

  /**
   * Reordering (or repeating) a union's sources changes neither whether
   * extraction succeeds nor what it returns.
   */
  lemma UnionOrderIrrelevant(sources: seq<PlanNode>, reordered: seq<PlanNode>)
    requires forall c :: c in sources <==> c in reordered
    ensures Extraction(Union(sources)).Success? <==> Extraction(Union(reordered)).Success?
    ensures Extraction(Union(sources)).Success? ==>
              Extraction(Union(sources)).value == Extraction(Union(reordered)).value
  {
    UnionOfSources(sources);
    UnionOfSources(reordered);
    assert ExtractedFromEach(sources) == ExtractedFromEach(reordered);
  }

  /** A table scan over two columns declares exactly their two symbols. */
  lemma ScenarioSingleLeaf(a: Symbol, b: Symbol, h1: ColumnHandle, h2: ColumnHandle)
    ensures Extraction(TableScan(map[a := h1, b := h2])) == Success({a, b})
    ensures Extraction(Filter(TableScan(map[a := h1, b := h2]))) == Success({a, b})
  {
    assert map[a := h1, b := h2].Keys == {a, b};
  }

  /** A projection over a scan adds its output symbol to the scan's. */
  lemma ScenarioProjection(a: Symbol, b: Symbol, c: Symbol, h1: ColumnHandle, h2: ColumnHandle)
    ensures Extraction(Project(TableScan(map[a := h1, b := h2]), [c])) == Success({a, b, c})
  {
    assert map[a := h1, b := h2].Keys == {a, b};
    assert Elements([c]) == {c};
    assert {a, b} + {c} == {a, b, c};
  }

  /** Fan-in and semi-join over two single-column scans. */
  lemma ScenarioFanIn(a: Symbol, b: Symbol, s: Symbol, h1: ColumnHandle, h2: ColumnHandle)
    ensures Extraction(Union([TableScan(map[a := h1]), TableScan(map[b := h2])])) == Success({a, b})
    ensures Extraction(SemiJoin(TableScan(map[a := h1]), TableScan(map[b := h2]), s)) == Success({a, b, s})
  {
    assert map[a := h1].Keys == {a} && map[b := h2].Keys == {b};
    var sources := [TableScan(map[a := h1]), TableScan(map[b := h2])];
    assert sources[..1] == [TableScan(map[a := h1])];
    ExtractionAllSingle(TableScan(map[a := h1]));
    assert sources[..|sources| - 1] == sources[..1] && sources[|sources| - 1] == TableScan(map[b := h2]);
    assert ExtractionAll(sources) == Success({a} + {b});
    assert {a} + {b} == {a, b};
    assert {s} + {a} + {b} == {a, b, s};
  }

  /** An unsupported kind below a union and a filter aborts the whole walk. */
  lemma ScenarioUnsupportedBelow(a: Symbol, h1: ColumnHandle)
    ensures Extraction(Filter(Union([TableScan(map[a := h1]), Unsupported("ValuesNode")])))
              == Failure(NotYetImplemented("ValuesNode"))
  {
    var sources := [TableScan(map[a := h1]), Unsupported("ValuesNode")];
    assert sources[..1] == [TableScan(map[a := h1])];
    ExtractionAllSingle(TableScan(map[a := h1]));
    assert sources[..|sources| - 1] == sources[..1] && sources[|sources| - 1] == Unsupported("ValuesNode");
    assert ExtractionAll(sources) == Failure(NotYetImplemented("ValuesNode"));
  }
}
