/** The graph utilities of `Statements`: cardinality-checked lookups, boolean
    coercion, the RDF collection walk, and the typed projections of statement
    streams. */
module Statements {
  import opened Results
  import opened Rdf
  import opened Iteration
  import opened TripleSource

  // ---------------------------------------------------------------------------
  // single, singleValue, booleanValue
  // ---------------------------------------------------------------------------

  /** What `single` makes of the matches of its pattern: none, the only one, or
      a cardinality failure as soon as a second one exists. */
  function SingleOf(ms: seq<Statement>): (r: Result<Option<Statement>>)
    ensures r == Ok(None) <==> ms == []
    ensures r.Ok? && r.value.Some? <==> |ms| == 1
    ensures r.Ok? && r.value.Some? ==> r.value.value == ms[0]
    ensures r.Err? <==> |ms| >= 2
    ensures r.Err? ==> r.error == MultipleStatements
  {
    if ms == [] then Ok(None)
    else if |ms| == 1 then Ok(Some(ms[0]))
    else Err(MultipleStatements)
  }

  /** The body of `single` on the iteration the store returned: at most one
      `next`, and `close` exactly once on every exit (the `finally` block). */
  method SingleOver(stmts: Cursor<Statement>) returns (r: Result<Option<Statement>>)
    requires stmts.Valid()
    modifies stmts
    ensures stmts.Valid() && stmts.closed && stmts.closeCalls == old(stmts.closeCalls) + 1
    ensures stmts.pos <= old(stmts.pos) + 1
    ensures old(stmts.closed) ==> r == Err(IllegalState)
    ensures !old(stmts.closed) ==> r == SingleOf(old(stmts.Remaining()))
  {
    var has := stmts.HasNext();
    if has.Err? {
      r := Err(has.error);
    } else if has.value {
      var first := stmts.Next();
      if first.Err? {
        r := Err(first.error);
      } else {
        var more := stmts.HasNext();
        if more.Err? {
          r := Err(more.error);
        } else if more.value {
          r := Err(MultipleStatements);
        } else {
          r := Ok(Some(first.value));
        }
      }
    } else {
      r := Ok(None);
    }
    stmts.Close();
  }

  /** `single(subj, pred, obj, store)`: the unique match of the pattern, `None`
      when there is none, and a cardinality failure when there are several. */
  method Single(store: Store, subj: Option<Resource>, pred: Option<Iri>, obj: Option<Value>)
    returns (r: Result<Option<Statement>>)
    ensures r == SingleOf(Matches(store, Pattern(subj, pred, obj)))
    ensures r.Ok? && r.value.Some? ==>
      r.value.value in store && Pattern(subj, pred, obj).Admits(r.value.value)
  {
    var stmts := GetStatements(store, subj, pred, obj);
    r := SingleOver(stmts);
    if r.Ok? && r.value.Some? {
      MatchesMembership(store, Pattern(subj, pred, obj), r.value.value);
    }
  }

  function ObjectOf(st: Statement): Value
  {
    st.obj
  }

  /** The objects of the `(subj, pred, *)` matches, in store order. */
  function ObjectsOf(store: Store, subj: Option<Resource>, pred: Option<Iri>): seq<Value>
  {
    Map(ObjectOf, Matches(store, Pattern(subj, pred, None)))
  }

  /** `singleValue(subj, pred, store)`: the object of the unique `(subj, pred, *)`
      statement, `None` when there is none, a cardinality failure when there
      are several. */
  function SingleValue(store: Store, subj: Option<Resource>, pred: Option<Iri>): (r: Result<Option<Value>>)
    ensures r == Ok(None) <==> ObjectsOf(store, subj, pred) == []
    ensures r.Ok? && r.value.Some? <==> |ObjectsOf(store, subj, pred)| == 1
    ensures r.Ok? && r.value.Some? ==> r.value.value == ObjectsOf(store, subj, pred)[0]
    ensures r.Err? <==> |ObjectsOf(store, subj, pred)| >= 2
    ensures r.Err? ==> r.error == MultipleStatements
  {
    match SingleOf(Matches(store, Pattern(subj, pred, None)))
    case Err(e) => Err(e)
    case Ok(None) => Ok(None)
    case Ok(Some(st)) => Ok(Some(st.obj))
  }

  /** `booleanValue(subj, pred, store)`: false when the value is absent, the
      boolean of a literal value, and a failure for several values, a literal
      that does not parse, or a value that is not a literal. */
  function BooleanValue(store: Store, subj: Option<Resource>, pred: Option<Iri>): (r: Result<bool>)
    ensures ObjectsOf(store, subj, pred) == [] ==> r == Ok(false)
    ensures |ObjectsOf(store, subj, pred)| >= 2 ==> r == Err(MultipleStatements)
    ensures |ObjectsOf(store, subj, pred)| == 1 && !ObjectsOf(store, subj, pred)[0].Literal? ==>
      r == Err(NonLiteral)
    ensures |ObjectsOf(store, subj, pred)| == 1 && ObjectsOf(store, subj, pred)[0].Literal? ==>
      r == match ParseBoolean(ObjectsOf(store, subj, pred)[0].lexicalForm)
           case Some(b) => Ok(b)
           case None => Err(NotBooleanLiteral)
    ensures r == Ok(true) <==>
      |ObjectsOf(store, subj, pred)| == 1 && ObjectsOf(store, subj, pred)[0].Literal? &&
      ObjectsOf(store, subj, pred)[0].lexicalForm in {"true", "1"}
  {
    match SingleValue(store, subj, pred)
    case Err(e) => Err(e)
    case Ok(None) => Ok(false)
    case Ok(Some(v)) =>
      if v.Literal? then
        match ParseBoolean(v.lexicalForm)
        case Some(b) => Ok(b)
        case None => Err(NotBooleanLiteral)
      else
        Err(NonLiteral)
  }

  // ---------------------------------------------------------------------------
  // list: the walk over an RDF collection
  // ---------------------------------------------------------------------------

  /** One `next` of the list iteration from cursor `node`: the node's `rdf:first`
      value and the `rdf:rest` resource the cursor moves to. */
  function Step(store: Store, node: Resource): (r: Result<(Value, Resource)>)
    ensures r.Err? ==> r.error in {MultipleStatements, MissingFirst, MissingRest, ClassCast}
    ensures r.Err? ==> (r.error.IsEvaluationError() <==> r.error != ClassCast)
  {
    match SingleValue(store, Some(node), Some(FIRST))
    case Err(e) => Err(e)
    case Ok(None) => Err(MissingFirst)
    case Ok(Some(v)) =>
      match SingleValue(store, Some(node), Some(REST))
      case Err(e) => Err(e)
      case Ok(None) => Err(MissingRest)
      case Ok(Some(n)) =>
        if n.IsResource() then
          var next: Resource := n;
          Ok((v, next))
        else
          Err(ClassCast)
  }

  /** The outcomes of one `next`, read off the store: the missing-first and
      missing-rest failures, the cardinality failures of either lookup, the
      failed cast of a non-resource rest, and success exactly when the node
      has one first value and one resource rest value. */
  lemma StepCases(store: Store, node: Resource)
    ensures ObjectsOf(store, Some(node), Some(FIRST)) == [] ==> Step(store, node) == Err(MissingFirst)
    ensures |ObjectsOf(store, Some(node), Some(FIRST))| >= 2 ==> Step(store, node) == Err(MultipleStatements)
    ensures |ObjectsOf(store, Some(node), Some(FIRST))| == 1 && ObjectsOf(store, Some(node), Some(REST)) == [] ==>
      Step(store, node) == Err(MissingRest)
    ensures |ObjectsOf(store, Some(node), Some(FIRST))| == 1 && |ObjectsOf(store, Some(node), Some(REST))| >= 2 ==>
      Step(store, node) == Err(MultipleStatements)
    ensures (|ObjectsOf(store, Some(node), Some(FIRST))| == 1 && |ObjectsOf(store, Some(node), Some(REST))| == 1 &&
             !ObjectsOf(store, Some(node), Some(REST))[0].IsResource()) ==> Step(store, node) == Err(ClassCast)
    ensures Step(store, node).Ok? <==>
      |ObjectsOf(store, Some(node), Some(FIRST))| == 1 && |ObjectsOf(store, Some(node), Some(REST))| == 1 &&
      ObjectsOf(store, Some(node), Some(REST))[0].IsResource()
    ensures Step(store, node).Ok? ==>
      Step(store, node).value.0 == ObjectsOf(store, Some(node), Some(FIRST))[0] &&
      Step(store, node).value.1 == ObjectsOf(store, Some(node), Some(REST))[0]
  {
  }

  /** The store encodes, from `node` on, a well-formed collection with members
      `vals`: each node has exactly one `rdf:first` (the member) and exactly one
      `rdf:rest` (a resource), and the chain ends at `rdf:nil`. */
  predicate IsChain(store: Store, node: Resource, vals: seq<Value>)
    decreases |vals|
  {
    if vals == [] then
      node == NIL
    else
      && node != NIL
      && ObjectsOf(store, Some(node), Some(FIRST)) == [vals[0]]
      && |ObjectsOf(store, Some(node), Some(REST))| == 1
      && ObjectsOf(store, Some(node), Some(REST))[0].IsResource()
      && IsChain(store, ObjectsOf(store, Some(node), Some(REST))[0], vals[1..])
  }

  /** `n` calls of `next` from cursor `node`: the values returned and the final
      cursor, or the first failure. */
  function Unroll(store: Store, node: Resource, n: nat): (r: Result<(seq<Value>, Resource)>)
    ensures r.Ok? ==> |r.value.0| == n
    ensures r.Err? ==> r.error in {MultipleStatements, MissingFirst, MissingRest, ClassCast}
    ensures n > 0 && Step(store, node).Err? ==> r == Err(Step(store, node).error)
    decreases n
  {
    if n == 0 then Ok(([], node))
    else
      match Step(store, node)
      case Err(e) => Err(e)
      case Ok((v, next)) =>
        match Unroll(store, next, n - 1)
        case Err(e) => Err(e)
        case Ok((vs, last)) => Ok(([v] + vs, last))
  }

  /** On a well-formed collection the cursor is at `rdf:nil` exactly when no
      member is left. */
  lemma ChainEndsAtNil(store: Store, node: Resource, vals: seq<Value>)
    requires IsChain(store, node, vals)
    ensures node == NIL <==> vals == []
  {
  }

  /** One `next` on a well-formed collection returns its first member and
      leaves the cursor on the collection of the remaining members. */
  lemma ChainStep(store: Store, node: Resource, vals: seq<Value>)
    requires IsChain(store, node, vals) && vals != []
    ensures Step(store, node).Ok?
    ensures Step(store, node).value.0 == vals[0]
    ensures IsChain(store, Step(store, node).value.1, vals[1..])
  {
  }

  /** Unrolling one more step puts the value of that step in front. */
  lemma UnrollStep(store: Store, node: Resource, k: nat, v: Value, next: Resource, vs: seq<Value>, last: Resource)
    requires k > 0
    requires Step(store, node) == Ok((v, next))
    requires Unroll(store, next, k - 1) == Ok((vs, last))
    ensures Unroll(store, node, k) == Ok(([v] + vs, last))
  {
  }

  /** On a well-formed collection with members a1 ... an, the first k calls of
      `next` return a1 ... ak in order, and the cursor reaches `rdf:nil` (so
      `hasNext` turns false) exactly after the n-th. */
  lemma {:induction false} ChainUnrolls(store: Store, node: Resource, vals: seq<Value>, k: nat)
    requires IsChain(store, node, vals) && k <= |vals|
    ensures Unroll(store, node, k).Ok?
    ensures Unroll(store, node, k).value.0 == vals[..k]
    ensures IsChain(store, Unroll(store, node, k).value.1, vals[k..])
    ensures Unroll(store, node, k).value.1 == NIL <==> k == |vals|
    decreases k
  {
    if k == 0 {
      assert vals[k..] == vals;
      ChainEndsAtNil(store, node, vals);
    } else {
      ChainStep(store, node, vals);
      var next := Step(store, node).value.1;
      ChainUnrolls(store, next, vals[1..], k - 1);
      var vs := Unroll(store, next, k - 1).value.0;
      var last := Unroll(store, next, k - 1).value.1;
      UnrollStep(store, node, k, vals[0], next, vs, last);
      assert [vals[0]] + vs == vals[..k];
      assert vals[1..][k - 1..] == vals[k..];
      ChainEndsAtNil(store, last, vals[k..]);
    }
  }

  /** A node without `rdf:first` fails on the first `next`, before any member
      is returned, and however many more calls are made. */
  lemma MissingFirstYieldsNothing(store: Store, node: Resource, k: nat)
    requires ObjectsOf(store, Some(node), Some(FIRST)) == [] && k > 0
    ensures Unroll(store, node, k) == Err(MissingFirst)
  {
  }

  /** The walk has no cycle guard: a node whose `rdf:rest` is itself returns
      its member on every `next` and never reaches `rdf:nil`. */
  lemma {:induction false} SelfLoopNeverEnds(node: Resource, member: Value, k: nat)
    requires node != NIL
    ensures Unroll([Statement(node, FIRST, member), Statement(node, REST, node)], node, k).Ok?
    ensures Unroll([Statement(node, FIRST, member), Statement(node, REST, node)], node, k).value.1 == node
    ensures |Unroll([Statement(node, FIRST, member), Statement(node, REST, node)], node, k).value.0| == k
    decreases k
  {
    var store := [Statement(node, FIRST, member), Statement(node, REST, node)];
    if k > 0 {
      assert Matches(store, Pattern(Some(node), Some(FIRST), None)) == [store[0]] by {
        MatchesCons(store, Pattern(Some(node), Some(FIRST), None));
        MatchesCons(store[1..], Pattern(Some(node), Some(FIRST), None));
      }
      assert Matches(store, Pattern(Some(node), Some(REST), None)) == [store[1]] by {
        MatchesCons(store, Pattern(Some(node), Some(REST), None));
        MatchesCons(store[1..], Pattern(Some(node), Some(REST), None));
      }
      StepCases(store, node);
      SelfLoopNeverEnds(node, member, k - 1);
    }
  }

  /** The iteration `list(subj, store)` returns: its cursor is the field `list`
      of the anonymous iteration, which `next` reassigns. */
  class ListIteration {
    const store: Store
    var cursor: Resource

    constructor (store: Store, subj: Resource)
      ensures this.store == store && cursor == subj
    {
      this.store := store;
      cursor := subj;
    }

    /** `hasNext`: the cursor is not `rdf:nil`, which on a well-formed
        collection means that members remain. */
    method HasNext() returns (b: bool)
      ensures b <==> cursor != NIL
      ensures forall vals :: IsChain(store, cursor, vals) ==> (b <==> vals != [])
    {
      b := cursor != NIL;
      forall vals | IsChain(store, cursor, vals) ensures b <==> vals != [] {
        ChainEndsAtNil(store, cursor, vals);
      }
    }

    /** `next`: the cursor's `rdf:first` value, the cursor moved to its
        `rdf:rest`; on every failure the cursor stays where it was. */
    method Next() returns (r: Result<Value>)
      modifies this`cursor
      ensures r.Ok? ==> Step(store, old(cursor)) == Ok((r.value, cursor))
      ensures r.Err? ==> Step(store, old(cursor)) == Err(r.error) && cursor == old(cursor)
      ensures forall vals :: IsChain(store, old(cursor), vals) && vals != [] ==>
        r == Ok(vals[0]) && IsChain(store, cursor, vals[1..])
    {
      var first := SingleValue(store, Some(cursor), Some(FIRST));
      if first.Err? {
        return Err(first.error);
      }
      if first.value.None? {
        return Err(MissingFirst);
      }
      var rest := SingleValue(store, Some(cursor), Some(REST));
      if rest.Err? {
        return Err(rest.error);
      }
      if rest.value.Some? && !rest.value.value.IsResource() {
        return Err(ClassCast);
      }
      if rest.value.None? {
        return Err(MissingRest);
      }
      ghost var from := cursor;
      cursor := rest.value.value;
      r := Ok(first.value.value);
      forall vals | IsChain(store, from, vals) && vals != []
        ensures r == Ok(vals[0]) && IsChain(store, cursor, vals[1..])
      {
        ChainStep(store, from, vals);
      }
    }
  }

  /** `list(subj, store)`: a fresh iteration whose cursor starts at `subj`; a
      null subject is rejected before anything is read. */
  method List(store: Store, subj: Option<Resource>) returns (r: Result<ListIteration>)
    ensures r.Err? <==> subj.None?
    ensures r.Err? ==> r.error == NullSubject
    ensures r.Ok? ==> fresh(r.value) && r.value.store == store && r.value.cursor == subj.value
  {
    if subj.None? {
      return Err(NullSubject);
    }
    var it := new ListIteration(store, subj.value);
    r := Ok(it);
  }

  predicate IsResourceValue(v: Value)
  {
    v.IsResource()
  }

  function AsResource(v: Value): Resource
    requires v.IsResource()
  {
    v
  }

  /** `listResources`: the members the list iteration returns, with the
      non-resources dropped and the rest narrowed to `Resource`. */
  function ListResources(members: seq<Value>): (r: seq<Resource>)
    ensures |r| <= |members|
    ensures forall i :: 0 <= i < |r| ==> r[i] in members
  {
    Map(AsResource, Filter(IsResourceValue, members))
  }

  /** `listResources` keeps list order: it distributes over concatenation, keeps
      a resource member and drops any other member. */
  lemma ListResourcesInOrder(a: seq<Value>, b: seq<Value>, v: Value)
    ensures ListResources(a + b) == ListResources(a) + ListResources(b)
    ensures ListResources([v]) == if v.IsResource() then [v] else []
  {
    FilterAppend(IsResourceValue, a, b);
    MapAppend(AsResource, Filter(IsResourceValue, a), Filter(IsResourceValue, b));
  }

  /** `listResources` returns exactly the resource members of the list. */
  lemma ListResourcesMembers(members: seq<Value>, x: Value)
    ensures x in ListResources(members) <==> x in members && x.IsResource()
  {
    var kept := Filter(IsResourceValue, members);
    FilterMembership(IsResourceValue, members, x);
    assert x in kept ==> x in ListResources(members) by {
      if x in kept {
        var i :| 0 <= i < |kept| && kept[i] == x;
        assert ListResources(members)[i] == x;
      }
    }
  }

  /** The walk over a well-formed collection returns all its members, in
      order, and ends at `rdf:nil`; `listResources` over it keeps exactly the
      resource members, dropping the others. */
  lemma ListWalkReturnsMembers(store: Store, subj: Resource, vals: seq<Value>, x: Value)
    requires IsChain(store, subj, vals)
    ensures Unroll(store, subj, |vals|) == Ok((vals, NIL))
    ensures x in ListResources(Unroll(store, subj, |vals|).value.0) <==> x in vals && x.IsResource()
  {
    ChainUnrolls(store, subj, vals, |vals|);
    assert vals[..|vals|] == vals;
    ListResourcesMembers(vals, x);
  }

  /** Members that are all resources come out of `listResources` unchanged. */
  lemma ListResourcesOfResources(members: seq<Value>)
    requires forall i :: 0 <= i < |members| ==> members[i].IsResource()
    ensures ListResources(members) == members
  {
    FilterAll(IsResourceValue, members);
  }

  // ---------------------------------------------------------------------------
  // Typed projections of a statement stream
  // ---------------------------------------------------------------------------

  predicate SubjectIsIri(st: Statement) { st.subj.IRI? }
  predicate SubjectIsBNode(st: Statement) { st.subj.BNode? }
  predicate ObjectIsResource(st: Statement) { st.obj.IsResource() }
  predicate ObjectIsIri(st: Statement) { st.obj.IRI? }
  predicate ObjectIsLiteral(st: Statement) { st.obj.Literal? }

  function SubjectAsIri(st: Statement): Iri
    requires st.subj.IRI?
  {
    st.subj
  }

  function ObjectAsResource(st: Statement): Resource
    requires st.obj.IsResource()
  {
    st.obj
  }

  function ObjectAsIri(st: Statement): Iri
    requires st.obj.IRI?
  {
    st.obj
  }

  function ObjectAsLiteral(st: Statement): Value
    requires st.obj.Literal?
  {
    st.obj
  }

  /** `getSubjectURIs(pred, obj, store)`: the IRI subjects of the `(*, pred, obj)`
      matches, which is what one pass over the store selects, in store order. */
  function GetSubjectURIs(store: Store, pred: Option<Iri>, obj: Option<Value>): (r: seq<Iri>)
    ensures r == Select(store, Pattern(None, pred, obj), SubjectIsIri, SubjectAsIri)
  {
    FilterMapIsSelect(store, Pattern(None, pred, obj), SubjectIsIri, SubjectAsIri);
    Map(SubjectAsIri, Filter(SubjectIsIri, Matches(store, Pattern(None, pred, obj))))
  }

  /** `getObjectResources(subj, pred, store)`: the resource objects of the `(subj, pred, *)` matches, in store order. */
  function GetObjectResources(store: Store, subj: Option<Resource>, pred: Option<Iri>): (r: seq<Resource>)
    ensures r == Select(store, Pattern(subj, pred, None), ObjectIsResource, ObjectAsResource)
  {
    FilterMapIsSelect(store, Pattern(subj, pred, None), ObjectIsResource, ObjectAsResource);
    Map(ObjectAsResource, Filter(ObjectIsResource, Matches(store, Pattern(subj, pred, None))))
  }

  /** `getObjectURIs(subj, pred, store)`: the IRI objects of the `(subj, pred, *)` matches, in store order. */
  function GetObjectURIs(store: Store, subj: Option<Resource>, pred: Option<Iri>): (r: seq<Iri>)
    ensures r == Select(store, Pattern(subj, pred, None), ObjectIsIri, ObjectAsIri)
  {
    FilterMapIsSelect(store, Pattern(subj, pred, None), ObjectIsIri, ObjectAsIri);
    Map(ObjectAsIri, Filter(ObjectIsIri, Matches(store, Pattern(subj, pred, None))))
  }

  /** `getObjectLiterals(subj, pred, store)`: the literal objects of the `(subj, pred, *)` matches, in store order. */
  function GetObjectLiterals(store: Store, subj: Option<Resource>, pred: Option<Iri>): (r: seq<Value>)
    ensures r == Select(store, Pattern(subj, pred, None), ObjectIsLiteral, ObjectAsLiteral)
  {
    FilterMapIsSelect(store, Pattern(subj, pred, None), ObjectIsLiteral, ObjectAsLiteral);
    Map(ObjectAsLiteral, Filter(ObjectIsLiteral, Matches(store, Pattern(subj, pred, None))))
  }

  /** One pass over the store: for every statement, in store order, that fits
      `pat` and that `keep` accepts, its conversion. */
  function Select<U>(store: Store, pat: Pattern, keep: Statement -> bool, convert: Statement --> U): seq<U>
    requires forall st :: keep(st) ==> convert.requires(st)
  {
    if store == [] then []
    else (if pat.Admits(store[0]) && keep(store[0]) then [convert(store[0])] else [])
         + Select(store[1..], pat, keep, convert)
  }

  /** Querying, then filtering, then converting yields what one pass over
      the store selects. */
  lemma {:induction false} FilterMapIsSelect<U>(store: Store, pat: Pattern, keep: Statement -> bool, convert: Statement --> U)
    requires forall st :: keep(st) ==> convert.requires(st)
    ensures Map(convert, Filter(keep, Matches(store, pat))) == Select(store, pat, keep, convert)
  {
    if store != [] {
      FilterMapIsSelect(store[1..], pat, keep, convert);
      var head := if pat.Admits(store[0]) then [store[0]] else [];
      MatchesCons(store, pat);
      FilterAppend(keep, head, Matches(store[1..], pat));
      MapAppend(convert, Filter(keep, head), Filter(keep, Matches(store[1..], pat)));
    }
  }

  /** What one pass selects is exactly the conversions of the accepted matches. */
  lemma {:induction false} SelectMembership<U>(store: Store, pat: Pattern, keep: Statement -> bool, convert: Statement --> U, u: U)
    requires forall st :: keep(st) ==> convert.requires(st)
    ensures u in Select(store, pat, keep, convert) <==>
      exists st :: st in store && pat.Admits(st) && keep(st) && convert(st) == u
  {
    if store != [] {
      SelectMembership(store[1..], pat, keep, convert, u);
      assert forall st :: st in store <==> st == store[0] || st in store[1..] by {
        assert store == [store[0]] + store[1..];
      }
    }
  }

  /** `getSubjectURIs` contains a value exactly when it is one of the IRIs that are
      the subjects of the `(*, pred, obj)` matches. */
  lemma GetSubjectURIsMembers(store: Store, pred: Option<Iri>, obj: Option<Value>, v: Value)
    ensures v in GetSubjectURIs(store, pred, obj) <==>
      v.IRI? && exists st :: st in store && Pattern(None, pred, obj).Admits(st) && st.subj == v
  {
    if v.IRI? {
      var u: Iri := v;
      SelectMembership(store, Pattern(None, pred, obj), SubjectIsIri, SubjectAsIri, u);
    }
  }

  /** `getObjectResources` contains a value exactly when it is one of the resources that are
      the objects of the `(subj, pred, *)` matches. */
  lemma GetObjectResourcesMembers(store: Store, subj: Option<Resource>, pred: Option<Iri>, v: Value)
    ensures v in GetObjectResources(store, subj, pred) <==>
      v.IsResource() && exists st :: st in store && Pattern(subj, pred, None).Admits(st) && st.obj == v
  {
    if v.IsResource() {
      var u: Resource := v;
      SelectMembership(store, Pattern(subj, pred, None), ObjectIsResource, ObjectAsResource, u);
    }
  }

  /** `getObjectURIs` contains a value exactly when it is one of the IRIs that are
      the objects of the `(subj, pred, *)` matches. */
  lemma GetObjectURIsMembers(store: Store, subj: Option<Resource>, pred: Option<Iri>, v: Value)
    ensures v in GetObjectURIs(store, subj, pred) <==>
      v.IRI? && exists st :: st in store && Pattern(subj, pred, None).Admits(st) && st.obj == v
  {
    if v.IRI? {
      var u: Iri := v;
      SelectMembership(store, Pattern(subj, pred, None), ObjectIsIri, ObjectAsIri, u);
    }
  }

  /** `getObjectLiterals` contains a value exactly when it is one of the literals that are
      the objects of the `(subj, pred, *)` matches. */
  lemma GetObjectLiteralsMembers(store: Store, subj: Option<Resource>, pred: Option<Iri>, v: Value)
    ensures v in GetObjectLiterals(store, subj, pred) <==>
      v.Literal? && exists st :: st in store && Pattern(subj, pred, None).Admits(st) && st.obj == v
  {
    SelectMembership(store, Pattern(subj, pred, None), ObjectIsLiteral, ObjectAsLiteral, v);
  }

  /** Every `(subj, pred, *)` match lands in exactly one of `getObjectResources`
      and `getObjectLiterals`: its object is a resource or a literal and not
      both, so no match is lost and none is counted twice. */
  lemma ObjectProjectionsPartition(store: Store, subj: Option<Resource>, pred: Option<Iri>)
    ensures forall i :: 0 <= i < |Matches(store, Pattern(subj, pred, None))| ==>
      ObjectIsResource(Matches(store, Pattern(subj, pred, None))[i]) !=
      ObjectIsLiteral(Matches(store, Pattern(subj, pred, None))[i])
    ensures |GetObjectResources(store, subj, pred)| + |GetObjectLiterals(store, subj, pred)|
         == |Matches(store, Pattern(subj, pred, None))|
  {
    FilterSplit(ObjectIsResource, ObjectIsLiteral, Matches(store, Pattern(subj, pred, None)));
  }

  predicate SubjectIsNotIri(st: Statement) { !st.subj.IRI? }

  /** The `(*, pred, obj)` matches that `getSubjectURIs` drops (subject not an
      IRI) are exactly those with a blank-node subject, and together with the
      kept ones they account for every match. */
  lemma SubjectURIsDropBlankNodes(store: Store, pred: Option<Iri>, obj: Option<Value>)
    ensures Filter(SubjectIsNotIri, Matches(store, Pattern(None, pred, obj)))
         == Filter(SubjectIsBNode, Matches(store, Pattern(None, pred, obj)))
    ensures |GetSubjectURIs(store, pred, obj)| + |Filter(SubjectIsBNode, Matches(store, Pattern(None, pred, obj)))|
         == |Matches(store, Pattern(None, pred, obj))|
  {
    FilterSame(SubjectIsNotIri, SubjectIsBNode, Matches(store, Pattern(None, pred, obj)));
    FilterSplit(SubjectIsIri, SubjectIsBNode, Matches(store, Pattern(None, pred, obj)));
  }

  /** Three `(subj, pred, *)` matches with an IRI, a literal and a blank-node
      object: `getObjectURIs` yields the IRI alone. */
  lemma GetObjectURIsKeepsOnlyIris(subj: Resource, pred: Iri, iri: Iri, lit: Value, bnode: Value)
    requires lit.Literal? && bnode.BNode?
    ensures GetObjectURIs([Statement(subj, pred, iri), Statement(subj, pred, lit), Statement(subj, pred, bnode)],
                          Some(subj), Some(pred)) == [iri]
  {
    var store := [Statement(subj, pred, iri), Statement(subj, pred, lit), Statement(subj, pred, bnode)];
    var pat := Pattern(Some(subj), Some(pred), None);
        assert store[2..][1..] == [];
    assert Select(store[2..], pat, ObjectIsIri, ObjectAsIri) == [];
    assert store[1..][1..] == store[2..];
    assert Select(store[1..], pat, ObjectIsIri, ObjectAsIri) == [];
  }
}
