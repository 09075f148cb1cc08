/** The store the graph utilities query, abstracted to a finite sequence of
    statements answering triple patterns with wildcards. */
module TripleSource {
  import opened Results
  import opened Rdf
  import opened Iteration

  /** The statements of the store, in the order the store returns them. */
  type Store = seq<Statement>

  /** A triple pattern; `None` in a position is a wildcard (Java's `null`). */
  datatype Pattern = Pattern(subj: Option<Resource>, pred: Option<Iri>, obj: Option<Value>)
  {
    predicate Admits(st: Statement)
    {
      && (subj.None? || subj.value == st.subj)
      && (pred.None? || pred.value == st.pred)
      && (obj.None? || obj.value == st.obj)
    }
  }

  /** The statements of the store that match `pat`, in store order. */
  function Matches(store: Store, pat: Pattern): (r: seq<Statement>)
    ensures forall i :: 0 <= i < |r| ==> pat.Admits(r[i])
  {
    Filter(st => pat.Admits(st), store)
  }

  /** A statement is a match exactly when it is in the store and fits the pattern. */
  lemma MatchesMembership(store: Store, pat: Pattern, st: Statement)
    ensures st in Matches(store, pat) <==> st in store && pat.Admits(st)
  {
    FilterMembership(st => pat.Admits(st), store, st);
  }

  /** Matching distributes over the order of the store: the head's match comes first. */
  lemma MatchesCons(store: Store, pat: Pattern)
    requires store != []
    ensures Matches(store, pat) == (if pat.Admits(store[0]) then [store[0]] else []) + Matches(store[1..], pat)
  {
  }

  /** `getStatements(subj, pred, obj)`: a fresh, open iteration over the matches. */
  method GetStatements(store: Store, subj: Option<Resource>, pred: Option<Iri>, obj: Option<Value>)
    returns (it: Cursor<Statement>)
    ensures fresh(it) && it.Valid() && !it.closed && it.closeCalls == 0
    ensures it.Remaining() == Matches(store, Pattern(subj, pred, obj))
  {
    it := new Cursor(Matches(store, Pattern(subj, pred, obj)));
  }
}
