/**
 * The extractor as the source runs it: a visitor object that walks the plan
 * depth first and adds each node's symbols to one shared set builder, a loop
 * over the sources of a union, and an unsupported kind that aborts the whole
 * walk before the builder is ever built.
 */
module SymbolExtractor {
  import opened Plan
  import opened SymbolExtraction
  import DeclaredSymbols

  /** A growing, deduplicating set of symbols; only its elements are modelled. */
  class SymbolSetBuilder {
    var elements: set<Symbol>

    constructor ()
      ensures elements == {}
    {
      elements := {};
    }

    method Add(symbol: Symbol)
      modifies this
      ensures elements == old(elements) + {symbol}
    {
      elements := elements + {symbol};
    }

    method AddAll(symbols: set<Symbol>)
      modifies this
      ensures elements == old(elements) + symbols
    {
      elements := elements + symbols;
    }

    method Build() returns (symbols: set<Symbol>)
      ensures symbols == elements
    {
      symbols := elements;
    }
  }

  /** How a visit ended: normally, or by the unsupported-kind exception. */
  datatype Completion = Normal | Thrown(error: ExtractionError)

  class Visitor {
    const builder: SymbolSetBuilder

    constructor (builder: SymbolSetBuilder)
      ensures this.builder == builder
    {
      this.builder := builder;
    }

    /**
     * Visits `node` and everything below it. A normal completion has added
     * exactly the plan's symbols to the builder; an exception is the one the
     * specification fails with, and leaves whatever was added before it.
     */
    method Visit(node: PlanNode) returns (completion: Completion)
      modifies builder
      decreases node
      ensures completion.Normal? <==> Extraction(node).Success?
      ensures completion.Normal? ==>
                builder.elements == old(builder.elements) + Extraction(node).value
      ensures completion.Thrown? ==> Extraction(node) == Failure(completion.error)
      ensures old(builder.elements) <= builder.elements
    {
      match node {
        case Exchange(outputSymbols) =>
          builder.AddAll(Elements(outputSymbols));
          return Normal;
        case Aggregation(source, _, aggregations) =>
          completion := Visit(source);
          if completion.Thrown? { return; }
          builder.AddAll(aggregations.Keys);
        case MarkDistinct(source, markerSymbol, _) =>
          completion := Visit(source);
          if completion.Thrown? { return; }
          builder.Add(markerSymbol);
        case Window(source, _, windowFunctions) =>
          completion := Visit(source);
          if completion.Thrown? { return; }
          builder.AddAll(windowFunctions.Keys);
        case Filter(source) =>
          completion := Visit(source);
        case Project(source, outputSymbols) =>
          completion := Visit(source);
          if completion.Thrown? { return; }
          builder.AddAll(Elements(outputSymbols));
        case TopN(source, _) =>
          completion := Visit(source);
        case Sort(source, _) =>
          completion := Visit(source);
        case Output(source, outputSymbols) =>
          completion := Visit(source);
          if completion.Thrown? { return; }
          builder.AddAll(Elements(outputSymbols));
        case Limit(source) =>
          completion := Visit(source);
        case DistinctLimit(source) =>
          completion := Visit(source);
        case Sample(source) =>
          completion := Visit(source);
        case TableScan(assignments) =>
          builder.AddAll(assignments.Keys);
          return Normal;
        case TableWriter(source, outputSymbols) =>
          completion := Visit(source);
          if completion.Thrown? { return; }
          builder.AddAll(Elements(outputSymbols));
        case TableCommit(source, outputSymbols) =>
          completion := Visit(source);
          if completion.Thrown? { return; }
          builder.AddAll(Elements(outputSymbols));
        case MaterializedViewWriter(source, outputSymbols) =>
          completion := Visit(source);
          if completion.Thrown? { return; }
          builder.AddAll(Elements(outputSymbols));
        case Join(left, right) =>
          completion := Visit(left);
          if completion.Thrown? { return; }
          completion := Visit(right);
        case SemiJoin(source, filteringSource, semiJoinOutput) =>
          builder.Add(semiJoinOutput);
          completion := Visit(source);
          if completion.Thrown? { return; }
          completion := Visit(filteringSource);
        case Sink(source) =>
          completion := Visit(source);
        case Union(sources) =>
          completion := VisitSources(sources);
        case Unsupported(className) =>
          return Thrown(NotYetImplemented(className));
      }
    }

    /**
     * The body of the union rule: the loop over the sources, in order,
     * abandoned at the first exception.
     */
    method VisitSources(sources: seq<PlanNode>) returns (completion: Completion)
      modifies builder
      decreases sources, 0
      ensures completion.Normal? <==> ExtractionAll(sources).Success?
      ensures completion.Normal? ==>
                builder.elements == old(builder.elements) + ExtractionAll(sources).value
      ensures completion.Thrown? ==> ExtractionAll(sources) == Failure(completion.error)
      ensures old(builder.elements) <= builder.elements
    {
      for i := 0 to |sources|
        invariant ExtractionAll(sources[..i]).Success?
        invariant builder.elements == old(builder.elements) + ExtractionAll(sources[..i]).value
      {
        assert sources[..i + 1][..i] == sources[..i];
        completion := Visit(sources[i]);
        if completion.Thrown? {
          ExtractionAllFailureStops(sources, i + 1);
          return;
        }
      }
      assert sources[..|sources|] == sources;
      return Normal;
    }
  }

  /**
   * Every symbol declared anywhere in the plan, or the unsupported-kind error;
   * the builder is built only when the walk completes normally.
   */
  method Extract(node: PlanNode) returns (r: Result<set<Symbol>>)
    ensures r == Extraction(node)
    ensures r.Success? <==> DeclaredSymbols.Supported(node)
    ensures r.Success? ==> r.value == DeclaredSymbols.Declared(node)
  {
    var builder := new SymbolSetBuilder();
    var visitor := new Visitor(builder);
    var completion := visitor.Visit(node);
    DeclaredSymbols.ExtractionCorrect(node);
    if completion.Thrown? {
      return Failure(completion.error);
    }
    var symbols := builder.Build();
    assert symbols == {} + Extraction(node).value == Extraction(node).value;
    return Success(symbols);
  }
}
