# Graph utilities over a triple source

This project models `Statements`, the graph-utility facade of the RDF4J query
evaluation layer, and proves what its operations promise. The facade asks a
triple source for the statements matching a pattern and consumes the resulting
closeable iteration. On top of that it offers:

- `single`: a cardinality-checked lookup that always closes its iteration;
- `singleValue` and `booleanValue`: lookups built on `single`;
- `list`: a lazy walk over an RDF collection along `rdf:first` / `rdf:rest`
  up to `rdf:nil` (section 5.2 of RDF Schema 1.1);
- `listResources`: the resource members of a collection, in list order;
- `getSubjectURIs`, `getObjectResources`, `getObjectURIs` and
  `getObjectLiterals`: typed projections of a statement stream.

Files:

- `results.dfy` (module `Results`): `Option` stands for Java's `null`.
  `Result` carries either a value or one `Error`; each exception the facade
  can raise is one `Error` constructor.
- `rdf.dfy` (module `Rdf`): values (`IRI | BNode | Literal`), the subset
  types `Resource` and `Iri`, statements, the three `rdf:` terms, and the
  `xsd:boolean` lexical space (section 3.2.2.1 of XML Schema Part 2).
- `iteration.dfy` (module `Iteration`): `Filter` and `Map` give the meaning
  of the filter and converting decorators. `Cursor` is a closeable iteration
  over a finite sequence, with a position, a closed flag and a ghost count of
  `close` calls.
- `triple_source.dfy` (module `TripleSource`): the store is a sequence of
  statements. A pattern has a wildcard (`None`) in any position.
  `GetStatements` returns a fresh open cursor over the matches, in store order.
- `statements.dfy` (module `Statements`): the facade.
  - `single` is a method that drives a cursor. It is proved against the
    function `SingleOf`.
  - `singleValue` and `booleanValue` are functions.
  - The iteration `list` returns is the class `ListIteration`. Its field
    `cursor` is reassigned by `Next`, which is specified by the function
    `Step`. `Unroll` stands for repeated `next` calls. `IsChain` states,
    directly over the store, that a well-formed collection holds given members.
  - Each of the four statement projections is filter-then-map over the
    matches, and is proved equal to `Select`, a one-pass scan of the store.
  - `ListResources` is filter-then-map over the members the list iteration
    returns; it keeps the resources and drops the other members.

## Model

| member | source | states |
|---|---|---|
| Statements.SingleOf | core/queryalgebra/evaluation/src/main/java/org/eclipse/rdf4j/query/algebra/evaluation/util/Statements.java:134-145 | no match gives `None`; exactly one match gives that statement; two or more give `MultipleStatements` (and only then is it an error) |
| Statements.SingleOver | core/queryalgebra/evaluation/src/main/java/org/eclipse/rdf4j/query/algebra/evaluation/util/Statements.java:132-148 | on every exit path the iteration ends closed, with exactly one more `close` call; `next` is called at most once; the result is `SingleOf` of the elements not yet consumed; a closed iteration gives `IllegalState` |
| Statements.Single | core/queryalgebra/evaluation/src/main/java/org/eclipse/rdf4j/query/algebra/evaluation/util/Statements.java:128-150 | the result is `SingleOf` of the pattern's matches in store order; a returned statement is in the store and fits the pattern |
| Statements.SingleValue | core/queryalgebra/evaluation/src/main/java/org/eclipse/rdf4j/query/algebra/evaluation/util/Statements.java:121-126 | with the objects of the `(subj, pred, *)` matches: none gives `None`; exactly one gives that object; two or more give `MultipleStatements` |
| Statements.BooleanValue | core/queryalgebra/evaluation/src/main/java/org/eclipse/rdf4j/query/algebra/evaluation/util/Statements.java:100-119 | no value gives false; several values give `MultipleStatements`; a non-literal gives `NonLiteral`; a literal gives its parsed boolean, or `NotBooleanLiteral` when its label does not parse; true exactly for one literal labelled `true` or `1` |
| Rdf.ParseBoolean | core/queryalgebra/evaluation/src/main/java/org/eclipse/rdf4j/query/algebra/evaluation/util/Statements.java:107-114 | a label parses exactly when it is `true`, `false`, `1` or `0`; it means true exactly for `true` and `1` |
| TripleSource.Matches | core/queryalgebra/evaluation/src/main/java/org/eclipse/rdf4j/query/algebra/evaluation/util/Statements.java:132-133 | every returned statement fits the pattern; wildcards match anything |
| TripleSource.MatchesMembership | core/queryalgebra/evaluation/src/main/java/org/eclipse/rdf4j/query/algebra/evaluation/util/Statements.java:132-133 | a statement is returned exactly when it is in the store and fits the pattern |
| TripleSource.GetStatements | core/queryalgebra/evaluation/src/main/java/org/eclipse/rdf4j/query/algebra/evaluation/util/Statements.java:132-133 | the store hands out a fresh, open, never-closed iteration whose elements are the matches |
| Iteration.Filter | core/queryalgebra/evaluation/src/main/java/org/eclipse/rdf4j/query/algebra/evaluation/util/Statements.java:37-46 | keeps at most as many elements as the source has; every kept element is accepted and comes from the source |
| Iteration.FilterMembership | core/queryalgebra/evaluation/src/main/java/org/eclipse/rdf4j/query/algebra/evaluation/util/Statements.java:37-46 | an element survives exactly when it is in the source and accepted |
| Iteration.FilterAppend | core/queryalgebra/evaluation/src/main/java/org/eclipse/rdf4j/query/algebra/evaluation/util/Statements.java:37-46 | filtering keeps the source order: it distributes over concatenation |
| Iteration.FilterSame | core/queryalgebra/evaluation/src/main/java/org/eclipse/rdf4j/query/algebra/evaluation/util/Statements.java:37-46 | filters that agree on every element of the source keep the same elements |
| Iteration.Map | core/queryalgebra/evaluation/src/main/java/org/eclipse/rdf4j/query/algebra/evaluation/util/Statements.java:46-53 | same length as the source; element i is the conversion of source element i |
| Iteration.Cursor.HasNext | core/queryalgebra/evaluation/src/main/java/org/eclipse/rdf4j/query/algebra/evaluation/util/Statements.java:135-137 | on a closed iteration gives `IllegalState`; otherwise says whether elements remain |
| Iteration.Cursor.Next | core/queryalgebra/evaluation/src/main/java/org/eclipse/rdf4j/query/algebra/evaluation/util/Statements.java:136 | returns the first remaining element and drops it; a closed or exhausted iteration fails and does not move |
| Iteration.Cursor.Close | core/queryalgebra/evaluation/src/main/java/org/eclipse/rdf4j/query/algebra/evaluation/util/Statements.java:146-148 | the iteration is closed, and the close count rises by one; closing again is harmless |
| Statements.Step | core/queryalgebra/evaluation/src/main/java/org/eclipse/rdf4j/query/algebra/evaluation/util/Statements.java:79-88 | one `next` from a node fails only with `MultipleStatements`, `MissingFirst`, `MissingRest` or `ClassCast`, and every one of these except `ClassCast` is a query-evaluation failure |
| Statements.StepCases | core/queryalgebra/evaluation/src/main/java/org/eclipse/rdf4j/query/algebra/evaluation/util/Statements.java:79-88 | one `next` from a node, in terms of its `rdf:first` and `rdf:rest` objects: no first gives `MissingFirst`; no rest gives `MissingRest`; several of either give `MultipleStatements`; a non-resource rest gives `ClassCast`; success exactly with one first and one resource rest, returning the first and moving to the rest |
| Statements.Unroll | core/queryalgebra/evaluation/src/main/java/org/eclipse/rdf4j/query/algebra/evaluation/util/Statements.java:75-89 | k calls of `next` that succeed return exactly k values; a failing first call fails the whole run with its error; the only failures are those of `next` |
| Statements.ChainEndsAtNil | core/queryalgebra/evaluation/src/main/java/org/eclipse/rdf4j/query/algebra/evaluation/util/Statements.java:68-73 | on a well-formed collection the cursor is `rdf:nil` exactly when no member remains |
| Statements.ChainStep | core/queryalgebra/evaluation/src/main/java/org/eclipse/rdf4j/query/algebra/evaluation/util/Statements.java:75-89 | on a non-empty well-formed collection, `next` returns the first member and leaves the cursor on the collection of the remaining members |
| Statements.ChainUnrolls | core/queryalgebra/evaluation/src/main/java/org/eclipse/rdf4j/query/algebra/evaluation/util/Statements.java:64-97 | on a well-formed collection a1 ... an, the first k calls of `next` succeed and return a1 ... ak in order; the cursor reaches `rdf:nil` exactly after the n-th |
| Statements.MissingFirstYieldsNothing | core/queryalgebra/evaluation/src/main/java/org/eclipse/rdf4j/query/algebra/evaluation/util/Statements.java:79-82 | a node without `rdf:first` fails with `MissingFirst` on the first `next`, before any member is returned |
| Statements.SelfLoopNeverEnds | core/queryalgebra/evaluation/src/main/java/org/eclipse/rdf4j/query/algebra/evaluation/util/Statements.java:83-87 | a node whose `rdf:rest` is itself returns a member on every `next` and never reaches `rdf:nil`: there is no cycle guard |
| Statements.ListIteration.constructor | core/queryalgebra/evaluation/src/main/java/org/eclipse/rdf4j/query/algebra/evaluation/util/Statements.java:64-66 | the cursor starts at the subject |
| Statements.ListIteration.HasNext | core/queryalgebra/evaluation/src/main/java/org/eclipse/rdf4j/query/algebra/evaluation/util/Statements.java:68-73 | true exactly when the cursor is not `rdf:nil`; on a well-formed collection, true exactly when members remain |
| Statements.ListIteration.Next | core/queryalgebra/evaluation/src/main/java/org/eclipse/rdf4j/query/algebra/evaluation/util/Statements.java:75-89 | success returns the first value and moves the cursor to the rest; every failure leaves the cursor unchanged; on a well-formed collection, returns its first member and keeps the cursor on a well-formed collection of the remaining members |
| Statements.List | core/queryalgebra/evaluation/src/main/java/org/eclipse/rdf4j/query/algebra/evaluation/util/Statements.java:57-64 | a null subject gives `NullSubject` and nothing else does; otherwise a fresh iteration whose cursor is the subject |
| Statements.ListResources | core/queryalgebra/evaluation/src/main/java/org/eclipse/rdf4j/query/algebra/evaluation/util/Statements.java:32-55 | `listResources` returns no more values than the list has members, and each one is a member of the list, typed as a resource |
| Statements.ListResourcesInOrder | core/queryalgebra/evaluation/src/main/java/org/eclipse/rdf4j/query/algebra/evaluation/util/Statements.java:32-55 | `listResources` keeps list order: it distributes over concatenation, keeps a resource member and drops any other member |
| Statements.ListResourcesMembers | core/queryalgebra/evaluation/src/main/java/org/eclipse/rdf4j/query/algebra/evaluation/util/Statements.java:32-55 | `listResources` returns exactly the list members that are resources |
| Statements.ListResourcesOfResources | core/queryalgebra/evaluation/src/main/java/org/eclipse/rdf4j/query/algebra/evaluation/util/Statements.java:32-55 | members that are all resources come out of `listResources` unchanged |
| Statements.ListWalkReturnsMembers | core/queryalgebra/evaluation/src/main/java/org/eclipse/rdf4j/query/algebra/evaluation/util/Statements.java:32-97 | on every well-formed collection, also one with non-resource members, the walk returns all members in order and ends at `rdf:nil`, and `listResources` over them keeps exactly the resource members |
| Statements.FilterMapIsSelect | core/queryalgebra/evaluation/src/main/java/org/eclipse/rdf4j/query/algebra/evaluation/util/Statements.java:156-158 | querying, then filtering, then converting yields what one pass over the store selects, in store order |
| Statements.SelectMembership | core/queryalgebra/evaluation/src/main/java/org/eclipse/rdf4j/query/algebra/evaluation/util/Statements.java:156-158 | one pass selects exactly the conversions of the matches that the filter accepts |
| Statements.GetSubjectURIs | core/queryalgebra/evaluation/src/main/java/org/eclipse/rdf4j/query/algebra/evaluation/util/Statements.java:152-176 | `getSubjectURIs` equals one pass over the store selecting, in store order, the IRI subjects of the `(*, pred, obj)` matches |
| Statements.GetSubjectURIsMembers | core/queryalgebra/evaluation/src/main/java/org/eclipse/rdf4j/query/algebra/evaluation/util/Statements.java:152-176 | a value is in `getSubjectURIs` exactly when it is an IRI and the subject of a `(*, pred, obj)` match |
| Statements.SubjectURIsDropBlankNodes | core/queryalgebra/evaluation/src/main/java/org/eclipse/rdf4j/query/algebra/evaluation/util/Statements.java:152-176 | the matches `getSubjectURIs` drops (subject not an IRI) are exactly the matches with a blank-node subject, in the same order; kept and dropped matches add up to all matches |
| Statements.GetObjectResources | core/queryalgebra/evaluation/src/main/java/org/eclipse/rdf4j/query/algebra/evaluation/util/Statements.java:178-202 | `getObjectResources` equals one pass over the store selecting, in store order, the resource objects of the `(subj, pred, *)` matches |
| Statements.GetObjectResourcesMembers | core/queryalgebra/evaluation/src/main/java/org/eclipse/rdf4j/query/algebra/evaluation/util/Statements.java:178-202 | a value is in `getObjectResources` exactly when it is a resource and the object of a `(subj, pred, *)` match |
| Statements.GetObjectURIs | core/queryalgebra/evaluation/src/main/java/org/eclipse/rdf4j/query/algebra/evaluation/util/Statements.java:204-228 | `getObjectURIs` equals one pass over the store selecting, in store order, the IRI objects of the `(subj, pred, *)` matches |
| Statements.GetObjectURIsMembers | core/queryalgebra/evaluation/src/main/java/org/eclipse/rdf4j/query/algebra/evaluation/util/Statements.java:204-228 | a value is in `getObjectURIs` exactly when it is an IRI and the object of a `(subj, pred, *)` match |
| Statements.GetObjectLiterals | core/queryalgebra/evaluation/src/main/java/org/eclipse/rdf4j/query/algebra/evaluation/util/Statements.java:230-254 | `getObjectLiterals` equals one pass over the store selecting, in store order, the literal objects of the `(subj, pred, *)` matches |
| Statements.GetObjectLiteralsMembers | core/queryalgebra/evaluation/src/main/java/org/eclipse/rdf4j/query/algebra/evaluation/util/Statements.java:230-254 | a value is in `getObjectLiterals` exactly when it is a literal and the object of a `(subj, pred, *)` match |
| Statements.ObjectProjectionsPartition | core/queryalgebra/evaluation/src/main/java/org/eclipse/rdf4j/query/algebra/evaluation/util/Statements.java:178-254 | the object of every `(subj, pred, *)` match is a resource or a literal and never both, so each match lands in exactly one of `getObjectResources` and `getObjectLiterals`; their lengths add up to the number of matches |
| Statements.GetObjectURIsKeepsOnlyIris | core/queryalgebra/evaluation/src/main/java/org/eclipse/rdf4j/query/algebra/evaluation/util/Statements.java:204-228 | with three matches whose objects are an IRI, a literal and a blank node, `getObjectURIs` yields the IRI alone |

## Left out

- The context argument of `getStatements` is not modelled. The facade never passes one, so every pattern matches in any context.
- Store-level failures are not modelled: I/O errors, timeouts and concurrent access raised by the triple source's iterations. The only failures the cursor raises are `IllegalState` (used after close) and `NoSuchElement`.
- A failure of `close` itself is not modelled, so nothing can mask the failure already in flight.
- The classes `CloseableIteration`, `FilterIteration` and `ConvertingIteration` are not part of this model. The cursor and `Filter`/`Map` stand for them.
- The projections and `listResources` are values, not lazy decorator iterations. Their own `close`, and passing `close` on to the wrapped iteration, are not modelled.
- ListResources: a function over the members the list iteration returns. It does not wrap the iteration, so the `NullSubject` failure belongs to `List` alone.
- `Literal.booleanValue` is not part of this model. The model takes `Literal.booleanValue()` to parse the label alone, whatever the datatype, so a literal `"1"` of any datatype parses as true. It accepts exactly the four `xsd:boolean` forms and does not trim whitespace.
- `remove()` of the list iteration always throws `UnsupportedOperationException`. It is not modelled.
- Exception messages are not modelled; only the kind of each failure is.
- Unroll: counts the `next` calls instead of draining the list. A chain that never reaches `rdf:nil` would make a drain loop forever (see `SelfLoopNeverEnds`), so no lemma claims that the walk terminates on an arbitrary store.
- Statements.SingleOver: "pulls at most two" is stated as at most one `next` call. The second look at the stream is a `hasNext`, and the cursor answers it without consuming anything.
