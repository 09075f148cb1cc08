/** The RDF data model the graph utilities work on: values, statements and the
    few vocabulary terms they mention. */
module Rdf {
  import opened Results

  /** An RDF term. Two terms are equal exactly when they are structurally equal:
      same IRI string, same blank-node identifier, or same literal label,
      datatype IRI and language tag. */
  datatype Value =
    | IRI(iri: string)
    | BNode(id: string)
    | Literal(lexicalForm: string, datatypeIri: string, lang: Option<string>)
  {
    /** Resources (IRIs and blank nodes) are the terms that may be subjects. */
    predicate IsResource()
    {
      IRI? || BNode?
    }
  }

  /** `org.eclipse.rdf4j.model.Resource`. */
  type Resource = v: Value | v.IsResource() witness IRI("")

  /** `org.eclipse.rdf4j.model.IRI`. */
  type Iri = v: Value | v.IRI? witness IRI("")

  /** A triple of the store (the context position is not modelled). */
  datatype Statement = Statement(subj: Resource, pred: Iri, obj: Value)

  const RDF_NAMESPACE: string := "http://www.w3.org/1999/02/22-rdf-syntax-ns#"

  /** `rdf:nil`, the empty collection (section 5.2 of RDF Schema 1.1). */
  const NIL: Iri := IRI(RDF_NAMESPACE + "nil")

  /** `rdf:first`, the member of a collection node. */
  const FIRST: Iri := IRI(RDF_NAMESPACE + "first")

  /** `rdf:rest`, the rest of a collection after its first member. */
  const REST: Iri := IRI(RDF_NAMESPACE + "rest")

  /** Boolean value of a literal label, over the lexical space of `xsd:boolean`
      (section 3.2.2.1 of XML Schema Part 2): `true` and `1` mean true, `false`
      and `0` mean false, and every other label is rejected. */
  function ParseBoolean(lexical: string): (r: Option<bool>)
    ensures r.Some? <==> lexical in {"true", "false", "1", "0"}
    ensures r == Some(true) <==> lexical == "true" || lexical == "1"
  {
    if lexical == "true" || lexical == "1" then Some(true)
    else if lexical == "false" || lexical == "0" then Some(false)
    else None
  }
}
