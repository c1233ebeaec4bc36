/**
 * The pure specification of symbol extraction: one equation per node kind,
 * in the order the visitor performs its work, with the unsupported-kind
 * exception modelled as a `Failure` that propagates out of every enclosing
 * call.
 */
module SymbolExtraction {
  import opened Plan

  /** The one error: a node kind without an extraction rule, by class name. */
  datatype ExtractionError = NotYetImplemented(className: string)

  /** A completed walk, or the error that aborted it. */
  datatype Result<+T> = Success(value: T) | Failure(error: ExtractionError) {
    predicate IsFailure() {
      Failure?
    }

    function PropagateFailure<U>(): Result<U>
      requires Failure?
    {
      Failure(error)
    }

    function Extract(): T
      requires Success?
    {
      value
    }
  }

  /**
   * Every symbol declared by the plan rooted at `node`, or the error raised
   * by the first node (in visiting order) of a kind without a rule.
   */
  function Extraction(node: PlanNode): Result<set<Symbol>>
    decreases node
  {
    match node
    case Exchange(outputSymbols) =>
      Success(Elements(outputSymbols))
    case Aggregation(source, _, aggregations) =>
      var below :- Extraction(source);
      Success(below + aggregations.Keys)
    case MarkDistinct(source, markerSymbol, _) =>
      var below :- Extraction(source);
      Success(below + {markerSymbol})
    case Window(source, _, windowFunctions) =>
      var below :- Extraction(source);
      Success(below + windowFunctions.Keys)
    case Filter(source) =>
      Extraction(source)
    case Project(source, outputSymbols) =>
      var below :- Extraction(source);
      Success(below + Elements(outputSymbols))
    case TopN(source, _) =>
      Extraction(source)
    case Sort(source, _) =>
      Extraction(source)
    case Output(source, outputSymbols) =>
      var below :- Extraction(source);
      Success(below + Elements(outputSymbols))
    case Limit(source) =>
      Extraction(source)
    case DistinctLimit(source) =>
      Extraction(source)
    case Sample(source) =>
      Extraction(source)
    case TableScan(assignments) =>
      Success(assignments.Keys)
    case TableWriter(source, outputSymbols) =>
      var below :- Extraction(source);
      Success(below + Elements(outputSymbols))
    case TableCommit(source, outputSymbols) =>
      var below :- Extraction(source);
      Success(below + Elements(outputSymbols))
    case MaterializedViewWriter(source, outputSymbols) =>
      var below :- Extraction(source);
      Success(below + Elements(outputSymbols))
    case Join(left, right) =>
      var fromLeft :- Extraction(left);
      var fromRight :- Extraction(right);
      Success(fromLeft + fromRight)
    case SemiJoin(source, filteringSource, semiJoinOutput) =>
      var fromSource :- Extraction(source);
      var fromFiltering :- Extraction(filteringSource);
      Success({semiJoinOutput} + fromSource + fromFiltering)
    case Sink(source) =>
      Extraction(source)
    case Union(sources) =>
      ExtractionAll(sources)
    case Unsupported(className) =>
      Failure(NotYetImplemented(className))
  }

  /**
   * The walk over a list of sibling plans, left to right, stopping at the
   * first failure: the effect of the visitor's loop over Union's sources.
   */
  function ExtractionAll(nodes: seq<PlanNode>): Result<set<Symbol>>
    decreases nodes
  {
    if nodes == [] then Success({})
    else
      var before :- ExtractionAll(nodes[..|nodes| - 1]);
      var last :- Extraction(nodes[|nodes| - 1]);
      Success(before + last)
  }

  /** Once a prefix of the siblings fails, the walk over all of them fails with the same error. */
  lemma {:induction false} ExtractionAllFailureStops(nodes: seq<PlanNode>, k: nat)
    requires k <= |nodes|
    requires ExtractionAll(nodes[..k]).Failure?
    ensures ExtractionAll(nodes) == ExtractionAll(nodes[..k])
    decreases |nodes| - k
  {
    if k < |nodes| {
      var longer := nodes[..k + 1];
      assert longer[..|longer| - 1] == nodes[..k];
      ExtractionAllFailureStops(nodes, k + 1);
    } else {
      assert nodes[..k] == nodes;
    }
  }
}
