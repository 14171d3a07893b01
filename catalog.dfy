/** The node-type catalogue: the list of allowed types offered to the
    node-building agent, and the per-type parameter descriptions narrowed
    to the types a graph actually uses. */
module Catalog {
  import opened GraphModel

  /** One catalogue item `{type, parameters}`; the parameter descriptions
      are carried through untouched, so they are kept as plain strings. */
  datatype CatalogEntry = CatalogEntry(nodeType: string, parameters: seq<string>)

  /** `allowed_type`: the type of every catalogue item, in catalogue order
      (duplicates kept), collected by an appending loop. */
  method AllowedTypes(catalog: seq<CatalogEntry>) returns (allowed: seq<string>)
    ensures |allowed| == |catalog|
    ensures forall i :: 0 <= i < |catalog| ==> allowed[i] == catalog[i].nodeType
  {
    allowed := [];
    var i := 0;
    while i < |catalog|
      invariant 0 <= i <= |catalog|
      invariant |allowed| == i
      invariant forall j :: 0 <= j < i ==> allowed[j] == catalog[j].nodeType
    {
      allowed := allowed + [catalog[i].nodeType];
      i := i + 1;
    }
  }

  /** The distinct node types occurring among the records. */
  function GraphTypes(nodes: seq<Node>): set<string> {
    set n | n in nodes :: n.nodeType
  }

  /** The catalogue items whose type is in `types`, in catalogue order. */
  function FilterCatalog(catalog: seq<CatalogEntry>, types: set<string>): (r: seq<CatalogEntry>)
    ensures |r| <= |catalog|
    ensures forall e :: e in r ==> e in catalog && e.nodeType in types
    ensures forall i :: 0 <= i < |catalog| && catalog[i].nodeType in types ==> catalog[i] in r
  {
    if catalog == [] then []
    else
      var rest := FilterCatalog(catalog[1..], types);
      if catalog[0].nodeType in types then [catalog[0]] + rest else rest
  }

  /** Filtering keeps catalogue order: it distributes over concatenation. */
  lemma {:induction false} FilterCatalogConcat(a: seq<CatalogEntry>, b: seq<CatalogEntry>, types: set<string>)
    ensures FilterCatalog(a + b, types) == FilterCatalog(a, types) + FilterCatalog(b, types)
  {
    if a != [] {
      assert (a + b)[1..] == a[1..] + b;
      FilterCatalogConcat(a[1..], b, types);
    } else {
      assert a + b == b;
    }
  }

  /** Filtering keeps every item of a present type as often as the
      catalogue lists it, and drops every other item. */
  lemma {:induction false} FilterCatalogCount(catalog: seq<CatalogEntry>, types: set<string>, e: CatalogEntry)
    ensures multiset(FilterCatalog(catalog, types))[e] ==
      if e.nodeType in types then multiset(catalog)[e] else 0
  {
    if catalog != [] {
      FilterCatalogCount(catalog[1..], types, e);
      assert catalog == [catalog[0]] + catalog[1..];
    }
  }

  /** `accepted_parms`: one `{type: parameters}` item for each catalogue
      item whose type occurs among the records' types. */
  method AcceptedParms(catalog: seq<CatalogEntry>, checkData: seq<Node>) returns (accepted: seq<CatalogEntry>)
    ensures accepted == FilterCatalog(catalog, GraphTypes(checkData))
  {
    var present := set n | n in checkData :: n.nodeType;
    accepted := [];
    var i := 0;
    while i < |catalog|
      invariant 0 <= i <= |catalog|
      invariant accepted == FilterCatalog(catalog[..i], present)
    {
      FilterCatalogConcat(catalog[..i], [catalog[i]], present);
      assert catalog[..i + 1] == catalog[..i] + [catalog[i]];
      if catalog[i].nodeType in present {
        accepted := accepted + [catalog[i]];
      }
      i := i + 1;
    }
    assert catalog[..i] == catalog;
  }

  /** An item is kept exactly when its type is the type of some record. */
  lemma AcceptedExactlyPresentTypes(catalog: seq<CatalogEntry>, nodes: seq<Node>, e: CatalogEntry)
    requires e in catalog
    ensures e in FilterCatalog(catalog, GraphTypes(nodes)) <==>
      exists i :: 0 <= i < |nodes| && nodes[i].nodeType == e.nodeType
  {
  }
}
