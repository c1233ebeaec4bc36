/**
 * An independent, table-driven account of what extraction must return: each
 * node kind has a fixed list of children the walk descends into and a fixed
 * local contribution; the declared symbols of a plan are the contributions of
 * every node the walk reaches, and the walk succeeds exactly when none of
 * those nodes is of an unsupported kind.
 */
module DeclaredSymbols {
  import opened Plan
  import opened SymbolExtraction

  /** The children the walk descends into; leaves and unsupported kinds have none. */
  function Children(node: PlanNode): seq<PlanNode>
  {
    match node
    case Exchange(_) => []
    case Aggregation(source, _, _) => [source]
    case MarkDistinct(source, _, _) => [source]
    case Window(source, _, _) => [source]
    case Filter(source) => [source]
    case Project(source, _) => [source]
    case TopN(source, _) => [source]
    case Sort(source, _) => [source]
    case Output(source, _) => [source]
    case Limit(source) => [source]
    case DistinctLimit(source) => [source]
    case Sample(source) => [source]
    case TableScan(_) => []
    case TableWriter(source, _) => [source]
    case TableCommit(source, _) => [source]
    case MaterializedViewWriter(source, _) => [source]
    case Join(left, right) => [left, right]
    case SemiJoin(source, filteringSource, _) => [source, filteringSource]
    case Sink(source) => [source]
    case Union(sources) => sources
    case Unsupported(_) => []
  }

  /** The symbols a node adds by itself, independent of its children. */
  function Local(node: PlanNode): set<Symbol>
  {
    match node
    case Exchange(outputSymbols) => Elements(outputSymbols)
    case Aggregation(_, _, aggregations) => aggregations.Keys
    case MarkDistinct(_, markerSymbol, _) => {markerSymbol}
    case Window(_, _, windowFunctions) => windowFunctions.Keys
    case Project(_, outputSymbols) => Elements(outputSymbols)
    case Output(_, outputSymbols) => Elements(outputSymbols)
    case TableScan(assignments) => assignments.Keys
    case TableWriter(_, outputSymbols) => Elements(outputSymbols)
    case TableCommit(_, outputSymbols) => Elements(outputSymbols)
    case MaterializedViewWriter(_, outputSymbols) => Elements(outputSymbols)
    case SemiJoin(_, _, semiJoinOutput) => {semiJoinOutput}
    case Filter(_) | TopN(_, _) | Sort(_, _) | Limit(_) | DistinctLimit(_)
      | Sample(_) | Join(_, _) | Sink(_) | Union(_) | Unsupported(_) => {}
  }

  /** The nodes the walk visits when it starts at `node`. */
  ghost function Reachable(node: PlanNode): set<PlanNode>
    decreases node
  {
    {node} + (set c, n | c in Children(node) && n in Reachable(c) :: n)
  }

  ghost function ReachableAll(nodes: seq<PlanNode>): set<PlanNode>
  {
    set c, n | c in nodes && n in Reachable(c) :: n
  }

  /** The union of the local contributions of every reachable node. */
  ghost function Declared(node: PlanNode): set<Symbol>
  {
    set n, s | n in Reachable(node) && s in Local(n) :: s
  }

  ghost function DeclaredAll(nodes: seq<PlanNode>): set<Symbol>
  {
    set c, s | c in nodes && s in Declared(c) :: s
  }

  /** No node the walk reaches is of an unsupported kind. */
  ghost predicate Supported(node: PlanNode)
  {
    forall n :: n in Reachable(node) ==> !n.Unsupported?
  }

  ghost predicate SupportedAll(nodes: seq<PlanNode>)
  {
    forall c :: c in nodes ==> Supported(c)
  }

  /** Adds a local contribution to a successful result; keeps a failure as it is. */
  function WithLocal(r: Result<set<Symbol>>, local: set<Symbol>): Result<set<Symbol>>
  {
    match r
    case Success(below) => Success(below + local)
    case Failure(e) => Failure(e)
  }

  /** The reachable nodes of a plan are its root and the reachable nodes of its children. */
  lemma ReachableStep(node: PlanNode)
    ensures Reachable(node) == {node} + ReachableAll(Children(node))
  {
  }

  /** A plan declares its root's contribution and whatever its children declare. */
  lemma DeclaredStep(node: PlanNode)
    ensures Declared(node) == Local(node) + DeclaredAll(Children(node))
  {
    var cs := Children(node);
    forall s | s in Declared(node) ensures s in Local(node) + DeclaredAll(cs) {
      var n :| n in Reachable(node) && s in Local(n);
      if n != node {
        var c :| c in cs && n in Reachable(c);
        assert s in Declared(c);
      }
    }
    forall s | s in DeclaredAll(cs) ensures s in Declared(node) {
      var c :| c in cs && s in Declared(c);
      var n :| n in Reachable(c) && s in Local(n);
      assert n in Reachable(node);
    }
    assert node in Reachable(node);
  }

  /** A plan is supported when its root is and all of its children are. */
  lemma SupportedStep(node: PlanNode)
    ensures Supported(node) <==> !node.Unsupported? && SupportedAll(Children(node))
  {
    var cs := Children(node);
    assert node in Reachable(node);
    if !node.Unsupported? && SupportedAll(cs) {
      forall n | n in Reachable(node) ensures !n.Unsupported? {
        if n != node {
          var c :| c in cs && n in Reachable(c);
        }
      }
    }
    if Supported(node) {
      forall c | c in cs ensures Supported(c) {
        forall n | n in Reachable(c) ensures !n.Unsupported? {
          assert n in Reachable(node);
        }
      }
    }
  }

  /**
   * The visitor's per-kind equations are the table: every supported kind
   * walks exactly its children, in order, and then adds exactly its local
   * contribution.
   */
  lemma DispatchAgrees(node: PlanNode)
    requires !node.Unsupported?
    ensures Extraction(node) == WithLocal(ExtractionAll(Children(node)), Local(node))
  {
    var cs := Children(node);
    match node {
      case Join(left, right) =>
        assert cs[..1] == [left];
        ExtractionAllSingle(left);
        var r := ExtractionAll(cs);
        if r.Success? { assert r.value + {} == r.value; }
      case SemiJoin(source, filteringSource, semiJoinOutput) =>
        assert cs[..1] == [source];
        ExtractionAllSingle(source);
        if Extraction(source).Success? && Extraction(filteringSource).Success? {
          var a, b := Extraction(source).value, Extraction(filteringSource).value;
          assert {semiJoinOutput} + a + b == a + b + {semiJoinOutput};
        }
      case Union(sources) =>
        var r := ExtractionAll(sources);
        if r.Success? { assert r.value + {} == r.value; }
      case Exchange(outputSymbols) =>
        assert {} + Elements(outputSymbols) == Elements(outputSymbols);
      case TableScan(assignments) =>
        assert {} + assignments.Keys == assignments.Keys;
      case Unsupported(_) =>
        assert false;
      case _ =>
        ExtractionAllSingle(node.source);
        var r := Extraction(node.source);
        if r.Success? { assert r.value + {} == r.value; }
    }
  }

  lemma ExtractionAllSingle(node: PlanNode)
    ensures ExtractionAll([node]) == Extraction(node)
  {
    assert [node][..0] == [];
    assert ExtractionAll([node][..0]) == Success({});
    match Extraction(node) {
      case Success(below) => assert {} + below == below;
      case Failure(_) =>
    }
  }

  ghost predicate Agrees(node: PlanNode)
  {
    && (Extraction(node).Success? <==> Supported(node))
    && (Extraction(node).Success? ==> Extraction(node).value == Declared(node))
    && (Extraction(node).Failure? ==>
          Unsupported(Extraction(node).error.className) in Reachable(node))
  }

  ghost predicate AgreesAll(nodes: seq<PlanNode>)
  {
    && (ExtractionAll(nodes).Success? <==> SupportedAll(nodes))
    && (ExtractionAll(nodes).Success? ==> ExtractionAll(nodes).value == DeclaredAll(nodes))
    && (ExtractionAll(nodes).Failure? ==>
          Unsupported(ExtractionAll(nodes).error.className) in ReachableAll(nodes))
  }

  /** The walk over a list of siblings agrees with the reference when each sibling's walk does. */
  lemma {:induction false} ExtractionAllAgrees(nodes: seq<PlanNode>)
    requires forall c :: c in nodes ==> Agrees(c)
    ensures AgreesAll(nodes)
    decreases |nodes|
  {
    if nodes != [] {
      var init, last := nodes[..|nodes| - 1], nodes[|nodes| - 1];
      assert nodes == init + [last];
      assert forall c :: c in nodes <==> c in init || c == last;
      ExtractionAllAgrees(init);
      assert SupportedAll(nodes) <==> SupportedAll(init) && Supported(last);
      DeclaredAllSnoc(init, last);
      ReachableAllSnoc(init, last);
    }
  }

  /** What a list of siblings declares grows by what its new last sibling declares. */
  lemma DeclaredAllSnoc(init: seq<PlanNode>, last: PlanNode)
    ensures DeclaredAll(init + [last]) == DeclaredAll(init) + Declared(last)
  {
    var nodes := init + [last];
    forall s | s in DeclaredAll(nodes) ensures s in DeclaredAll(init) + Declared(last) {
      var c :| c in nodes && s in Declared(c);
      if c != last { assert c in init; }
    }
    forall s | s in DeclaredAll(init) + Declared(last) ensures s in DeclaredAll(nodes) {
      if s !in Declared(last) {
        var c :| c in init && s in Declared(c);
        assert c in nodes;
      } else {
        assert last in nodes;
      }
    }
  }

  /** The nodes reachable from a list of siblings grow by those reachable from its new last sibling. */
  lemma ReachableAllSnoc(init: seq<PlanNode>, last: PlanNode)
    ensures ReachableAll(init + [last]) == ReachableAll(init) + Reachable(last)
  {
    var nodes := init + [last];
    forall n | n in ReachableAll(nodes) ensures n in ReachableAll(init) + Reachable(last) {
      var c :| c in nodes && n in Reachable(c);
      if c != last { assert c in init; }
    }
    forall n | n in ReachableAll(init) + Reachable(last) ensures n in ReachableAll(nodes) {
      if n !in Reachable(last) {
        var c :| c in init && n in Reachable(c);
        assert c in nodes;
      } else {
        assert last in nodes;
      }
    }
  }

  /**
   * Soundness, completeness and exhaustiveness of extraction: the walk
   * succeeds exactly when every reachable node has a rule; it then returns
   * precisely the union of the local contributions of the reachable nodes,
   * and otherwise fails with the class name of a reachable unsupported node.
   */
  lemma {:induction false} ExtractionCorrect(node: PlanNode)
    ensures Extraction(node).Success? <==> Supported(node)
    ensures Extraction(node).Success? ==> Extraction(node).value == Declared(node)
    ensures Extraction(node).Failure? ==>
              Unsupported(Extraction(node).error.className) in Reachable(node)
    decreases node
  {
    var cs := Children(node);
    ReachableStep(node);
    DeclaredStep(node);
    SupportedStep(node);
    if !node.Unsupported? {
      forall c | c in cs ensures Agrees(c) {
        ExtractionCorrect(c);
      }
      ExtractionAllAgrees(cs);
      DispatchAgrees(node);
    }
  }
}
