# Symbol extraction over Presto logical plans

This project models `SymbolExtractor.extract` of the Presto query planner. The function walks a
logical-plan tree depth first and collects every symbol that any node of the tree declares. It
covers a closed set of twenty node kinds:

- Exchange and TableScan are leaves.
- Join and SemiJoin have two children.
- Union has a list of sources.
- Every other kind has a single source.

Each kind contributes something fixed:

- an output-symbol list;
- the keys of a symbol map (aggregations, window functions, table-scan assignments);
- a single marker or semi-join output symbol;
- or nothing.

A node of any other kind aborts the walk with a "not yet implemented" exception. Extraction then
returns no set at all.

The project has five files:

- `plan.dfy` (module `Plan`) holds the data model. `Symbol` is a value identified by its name.
  `PlanNode` has one constructor per supported kind and an `Unsupported(className)` constructor
  for every other kind.
- `extraction.dfy` (module `SymbolExtraction`) holds `Extraction`, the pure specification. It has
  one equation per `visit*` method, with the exception modelled as `Failure(NotYetImplemented(className))`.
  The failure propagates through `:-` in the order the visitor walks children.
- `declared.dfy` (module `DeclaredSymbols`) is an independent, table-driven reference. `Children`
  gives each kind's arity and `Local` its own contribution. `Reachable`, `Declared` and `Supported`
  are defined from those two tables. `ExtractionCorrect` proves that the walk and this reference agree.
- `extractor.dfy` (module `SymbolExtractor`) is the imperative form of the source. A `Visitor`
  object holds a shared `SymbolSetBuilder` and adds symbols to it as it recurses, with a loop over
  a union's sources. `Extract` creates the builder, runs the visit, and builds the set only when the
  visit completes normally. Its contract equates it with `Extraction`.
- `rules.dfy` (module `ExtractionRules`) holds the per-kind rules and the whole-plan properties:
  completeness, soundness, abort on unsupported kinds, containment of subplans, and independence
  from the order of children.

Nothing here performs I/O, reads a clock or uses randomness. The source has none of these either.

Two details of the source's behaviour are kept exactly:

- The semi-join rule adds its output symbol before it visits its children; every other rule visits
  first. The order does not affect the returned set.
- The exception names the class of the unsupported node. The model keeps that class name, so the
  specification also fixes which unsupported node is reported. It is the first one in visiting
  order: left before right, source before filtering source, union sources left to right. As a
  consequence, swapping a join's sides preserves success and the result set, but not necessarily
  which error is reported (`JoinOrderIrrelevant`).

## Model

| member | source | states |
|---|---|---|
| `SymbolExtractor.Extract` | presto-main/src/main/java/com/facebook/presto/sql/planner/SymbolExtractor.java:49-56 | the imperative extractor returns exactly what the specification `Extraction` returns; it succeeds exactly when no reachable node is of an unsupported kind, and then returns the union of the local contributions of all reachable nodes |
| `SymbolExtractor.Visitor.Visit` | presto-main/src/main/java/com/facebook/presto/sql/planner/SymbolExtractor.java:58-257 | a visit completes normally exactly when the specification succeeds, and then has added exactly the plan's symbols to the shared builder; when it throws, the error is the specification's; the builder only grows |
| `SymbolExtractor.Visitor.VisitSources` | presto-main/src/main/java/com/facebook/presto/sql/planner/SymbolExtractor.java:242-250 | the loop over a union's sources adds each source's symbols in turn and stops at the first exception, with the same outcome as `ExtractionAll` |
| `SymbolExtractor.Visitor.constructor` | presto-main/src/main/java/com/facebook/presto/sql/planner/SymbolExtractor.java:63-66 | the visitor shares the builder it is given |
| `SymbolExtractor.SymbolSetBuilder.constructor` | presto-main/src/main/java/com/facebook/presto/sql/planner/SymbolExtractor.java:51 | a fresh builder holds no symbols |
| `SymbolExtractor.SymbolSetBuilder.Add` | presto-main/src/main/java/com/facebook/presto/sql/planner/SymbolExtractor.java:92 | adding a symbol adds exactly that symbol |
| `SymbolExtractor.SymbolSetBuilder.AddAll` | presto-main/src/main/java/com/facebook/presto/sql/planner/SymbolExtractor.java:71 | adding a collection adds exactly its elements |
| `SymbolExtractor.SymbolSetBuilder.Build` | presto-main/src/main/java/com/facebook/presto/sql/planner/SymbolExtractor.java:55 | building returns exactly the accumulated set |
| `SymbolExtraction.ExtractionAllFailureStops` | presto-main/src/main/java/com/facebook/presto/sql/planner/SymbolExtractor.java:245-247 | once the walk over some prefix of a union's sources fails, the walk over all of them fails with the same error |
| `DeclaredSymbols.DispatchAgrees` | presto-main/src/main/java/com/facebook/presto/sql/planner/SymbolExtractor.java:68-250 | each supported kind's rule walks exactly the children of the arity table, in order, and adds exactly the contribution of the local table |
| `DeclaredSymbols.ExtractionAllAgrees` | presto-main/src/main/java/com/facebook/presto/sql/planner/SymbolExtractor.java:242-250 | the walk over a list of sources agrees with the reference whenever each source's walk does |
| `DeclaredSymbols.ExtractionCorrect` | presto-main/src/main/java/com/facebook/presto/sql/planner/SymbolExtractor.java:49-257 | extraction succeeds exactly when every reachable node has a rule; it then returns exactly the union of the local contributions of the reachable nodes, and otherwise fails with the class name of a reachable unsupported node |
| `DeclaredSymbols.DeclaredStep` | presto-main/src/main/java/com/facebook/presto/sql/planner/SymbolExtractor.java:42-44 | a plan declares its root's contribution plus whatever its children declare |
| `DeclaredSymbols.SupportedStep` | presto-main/src/main/java/com/facebook/presto/sql/planner/SymbolExtractor.java:252-256 | a plan is free of unsupported kinds exactly when its root is and all of its children are |
| `ExtractionRules.TableScanIsLeaf` | presto-main/src/main/java/com/facebook/presto/sql/planner/SymbolExtractor.java:176-182 | a table scan yields exactly the key set of its assignments and reaches no other node |
| `ExtractionRules.ExchangeIsLeaf` | presto-main/src/main/java/com/facebook/presto/sql/planner/SymbolExtractor.java:68-74 | an exchange yields exactly the symbols of its output list and reaches no other node |
| `ExtractionRules.PassThroughAddsNothing` | presto-main/src/main/java/com/facebook/presto/sql/planner/SymbolExtractor.java:108-240 | Filter, TopN, Sort, Limit, DistinctLimit, Sample and Sink (lines 108-115, 128-142, 152-174, 234-240) give exactly what their source gives, both in the walk and in the reference |
| `ExtractionRules.OutputListIsAdded` | presto-main/src/main/java/com/facebook/presto/sql/planner/SymbolExtractor.java:117-212 | Project, Output, TableWriter, TableCommit and MaterializedViewWriter (lines 117-126, 144-150, 184-212) give their source's symbols plus their output list; a failure below is passed on unchanged |
| `ExtractionRules.AggregationAddsAggregationKeys` | presto-main/src/main/java/com/facebook/presto/sql/planner/SymbolExtractor.java:76-85 | an aggregation adds the keys of its aggregations map to its source's symbols; a grouping key that is neither an aggregation key nor declared below is not in the result |
| `ExtractionRules.WindowAddsFunctionKeys` | presto-main/src/main/java/com/facebook/presto/sql/planner/SymbolExtractor.java:97-106 | a window adds the keys of its window-functions map; a partitioning symbol that is not declared otherwise is not in the result |
| `ExtractionRules.MarkDistinctAddsMarker` | presto-main/src/main/java/com/facebook/presto/sql/planner/SymbolExtractor.java:87-95 | a mark-distinct adds exactly its marker symbol, and not the symbols it is distinct on |
| `ExtractionRules.JoinCombinesBothSides` | presto-main/src/main/java/com/facebook/presto/sql/planner/SymbolExtractor.java:214-221 | a join succeeds exactly when both sides do, then yields the union of both sides' symbols with nothing of its own; a failure on the left is reported before the right is walked |
| `ExtractionRules.SemiJoinAddsOutput` | presto-main/src/main/java/com/facebook/presto/sql/planner/SymbolExtractor.java:223-232 | a semi-join yields its semi-join output symbol together with the symbols of its source and of its filtering source; the source's failure is reported first |
| `ExtractionRules.ExtractionAllIsUnion` | presto-main/src/main/java/com/facebook/presto/sql/planner/SymbolExtractor.java:245-247 | the walk over a list of sources succeeds exactly when each source's walk does, and then yields the union of their symbols |
| `ExtractionRules.UnionOfSources` | presto-main/src/main/java/com/facebook/presto/sql/planner/SymbolExtractor.java:242-250 | a union yields the union of its sources' symbols and nothing of its own; with no sources it yields the empty set |
| `ExtractionRules.UnsupportedKindFails` | presto-main/src/main/java/com/facebook/presto/sql/planner/SymbolExtractor.java:252-256 | a node of a kind without a rule fails at once, with its own class name |
| `ExtractionRules.FailsExactlyOnUnsupported` | presto-main/src/main/java/com/facebook/presto/sql/planner/SymbolExtractor.java:53-55 | extraction fails, returning no set, exactly when some reachable node is of an unsupported kind, and the error names such a node |
| `ExtractionRules.Completeness` | presto-main/src/main/java/com/facebook/presto/sql/planner/SymbolExtractor.java:49-56 | on success, every reachable node's local contribution is in the result |
| `ExtractionRules.Soundness` | presto-main/src/main/java/com/facebook/presto/sql/planner/SymbolExtractor.java:49-56 | on success, every symbol of the result is the local contribution of some reachable node |
| `ExtractionRules.SubplanContained` | presto-main/src/main/java/com/facebook/presto/sql/planner/SymbolExtractor.java:42-56 | when a plan is extracted, each subplan the walk reaches is extracted too, and its symbols are among the plan's |
| `ExtractionRules.JoinOrderIrrelevant` | presto-main/src/main/java/com/facebook/presto/sql/planner/SymbolExtractor.java:214-221 | swapping a join's sides changes neither whether extraction succeeds nor the set it returns |
| `ExtractionRules.UnionOrderIrrelevant` | presto-main/src/main/java/com/facebook/presto/sql/planner/SymbolExtractor.java:245-247 | reordering or repeating a union's sources changes neither whether extraction succeeds nor the set it returns |
| `ExtractionRules.ScenarioSingleLeaf` | presto-main/src/main/java/com/facebook/presto/sql/planner/SymbolExtractor.java:108-182 | a scan of A and B yields {A, B}, and so does a filter over it |
| `ExtractionRules.ScenarioProjection` | presto-main/src/main/java/com/facebook/presto/sql/planner/SymbolExtractor.java:117-126 | a projection of C over a scan of A and B yields {A, B, C} |
| `ExtractionRules.ScenarioFanIn` | presto-main/src/main/java/com/facebook/presto/sql/planner/SymbolExtractor.java:223-250 | a union of scans of A and B yields {A, B}; a semi-join of them with output S yields {A, B, S} |
| `ExtractionRules.ScenarioUnsupportedBelow` | presto-main/src/main/java/com/facebook/presto/sql/planner/SymbolExtractor.java:252-256 | an unsupported node under a union under a filter makes the whole extraction fail with that node's class name |

## Left out

- `TestingColumnHandle` is a test fixture. The extractor reads only the keys of a table scan's assignments, so a column handle is an opaque `ColumnHandle` value here.
- The `PlanVisitor`/`accept` double dispatch and the Java class hierarchy are not modelled. A closed datatype and a `match` take their place, and `Unsupported(className)` stands for every kind the visitor does not override.
- Guava's `ImmutableSet.Builder` is modelled only by its set of elements. Its insertion order, hashing and immutable wrapping are not modelled.
- The exception message keeps only the class name. The exception type and the message text are not modelled.
- Node fields that hold no symbols are not modelled, because the extractor never reads them: filter and projection expressions, function-call arguments and bodies (expressions in the source), sort orders, limit counts, sample ratios and output column names. Column handles and function names are kept as opaque values (`ColumnHandle`, `FunctionCall`) that carry no symbols and that the extractor never looks inside. A few symbol fields that the extractor also ignores are kept, so that they can be shown absent from the result: grouping keys, partitioning symbols, distinct symbols and ordering symbols.
- `SymbolExtractor.Visitor.Visit`: after an exception, the contract says only that the builder has grown. The source discards the builder in that case and never builds it.
- `SymbolExtractor.Visitor.VisitSources` is the union rule's loop, written as its own method so that it carries its own contract against `ExtractionAll`; `Visit` calls it for a union and does nothing else there. The behaviour is the same as the inline loop.
- Recursion depth and stack exhaustion on very deep plans are not modelled. Integers and collections are unbounded here.
- Cyclic or shared plan trees cannot be expressed. A datatype value is always a finite tree, which is what the planner guarantees.
