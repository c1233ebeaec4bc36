/**
 * The logical query plan as the symbol extractor sees it: symbols, and a
 * closed set of plan-node kinds with exactly the fields the extractor reads
 * (plus a few symbol fields it deliberately ignores).
 */
module Plan {

  /** A named value reference; two symbols are equal exactly when their names are. */
  datatype Symbol = Symbol(name: string)

  /** A connector's handle for a table column; the extractor never looks inside one. */
  datatype ColumnHandle = ColumnHandle(id: string)

  /**
   * An aggregate or window function call, by function name; the extractor
   * reads only the symbol it is assigned to (a map key), never the call.
   */
  datatype FunctionCall = FunctionCall(name: string)

  /**
   * One plan operator. Each constructor is one node kind the extractor has a
   * rule for; `Unsupported` stands for every other kind (values, unnest,
   * row-number, ...), identified by its class name.
   */
  datatype PlanNode =
    | Exchange(outputSymbols: seq<Symbol>)
    | Aggregation(source: PlanNode, groupBy: seq<Symbol>, aggregations: map<Symbol, FunctionCall>)
    | MarkDistinct(source: PlanNode, markerSymbol: Symbol, distinctSymbols: seq<Symbol>)
    | Window(source: PlanNode, partitionBy: seq<Symbol>, windowFunctions: map<Symbol, FunctionCall>)
    | Filter(source: PlanNode)
    | Project(source: PlanNode, outputSymbols: seq<Symbol>)
    | TopN(source: PlanNode, orderBy: seq<Symbol>)
    | Sort(source: PlanNode, orderBy: seq<Symbol>)
    | Output(source: PlanNode, outputSymbols: seq<Symbol>)
    | Limit(source: PlanNode)
    | DistinctLimit(source: PlanNode)
    | Sample(source: PlanNode)
    | TableScan(assignments: map<Symbol, ColumnHandle>)
    | TableWriter(source: PlanNode, outputSymbols: seq<Symbol>)
    | TableCommit(source: PlanNode, outputSymbols: seq<Symbol>)
    | MaterializedViewWriter(source: PlanNode, outputSymbols: seq<Symbol>)
    | Join(left: PlanNode, right: PlanNode)
    | SemiJoin(source: PlanNode, filteringSource: PlanNode, semiJoinOutput: Symbol)
    | Sink(source: PlanNode)
    | Union(sources: seq<PlanNode>)
    | Unsupported(className: string)

  /** The symbols of a list, as a set. */
  function Elements(xs: seq<Symbol>): set<Symbol>
  {
    set x | x in xs
  }
}
