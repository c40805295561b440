/** The earlier audit script kept in the attic: it runs `node_has_name`
    on every node and way, whose loop over the sub-tags is commented out,
    and collects the same three street dictionaries as the later audit. */
module Attic {
  import opened Osm
  import opened AuditPatterns
  import AuditXml

  /** `node_has_name`: it reads `id` first, which fails when it is missing;
      an element that is not a node, or has no sub-tags, counts as named;
      with the scan of the sub-tags commented out, the flags keep their
      initial values and a tagged node never does. */
  method NodeHasName(e: Element) returns (r: Result<bool, Error>)
    ensures r.Failure? <==> "id" !in e.attrs
    ensures r.Failure? ==> r.error == MissingAttribute("id")
    ensures r.Success? ==> (r.value <==> e.tag != "node" || e.tags == [])
  {
    if "id" !in e.attrs {
      return Failure(MissingAttribute("id"));
    }
    if e.tag != "node" || e.tags == [] {
      return Success(true);
    }
    var hasName := false;
    var hasAmenity := false;
    if !hasName && hasAmenity {
      // the id is printed here; output is not modelled
    }
    return Success(hasName);
  }

  /** The attic audit fails exactly when a node or way has no id. */
  predicate SomeIdMissing(es: seq<Element>)
  {
    exists i :: 0 <= i < |es| && AuditXml.IsNodeOrWay(es[i]) && "id" !in es[i].attrs
  }

  /** `AuditData.audit`: `audit_street_type` is the later script's, and
      the only other step, `node_has_name`, can only fail. The result is
      the later audit's dictionaries unless some node or way has no id. */
  method Audit(elements: seq<Element>) returns (r: Result<AuditXml.StreetIndex, Error>)
    ensures r.Failure? <==> SomeIdMissing(elements)
    ensures r.Failure? ==> r.error == MissingAttribute("id")
    ensures r.Success? ==> r.value == AuditXml.StreetsOf(AuditXml.EmptyIndex, elements)
  {
    var ix := AuditXml.EmptyIndex;
    var i := 0;
    while i < |elements|
      invariant 0 <= i <= |elements|
      invariant !SomeIdMissing(elements[..i])
      invariant AuditXml.StreetsOf(ix, elements[i..]) == AuditXml.StreetsOf(AuditXml.EmptyIndex, elements)
    {
      var e := elements[i];
      assert elements[i..][1..] == elements[i + 1..];
      assert elements[..i + 1] == elements[..i] + [e];
      if e.tag == "node" || e.tag == "way" {
        var named := NodeHasName(e);
        if named.Failure? {
          assert elements[i] == e;
          return Failure(named.error);
        }
        ghost var ix0 := ix;
        var j := 0;
        while j < |e.tags|
          invariant 0 <= j <= |e.tags|
          invariant AuditXml.AuditStreets(ix, e.tags[j..]) == AuditXml.AuditStreets(ix0, e.tags)
        {
          assert e.tags[j..][1..] == e.tags[j + 1..];
          if IsStreetName(e.tags[j]) {
            ix := AuditXml.AuditStreetType(ix, e.tags[j].1);
          }
          j := j + 1;
        }
      }
      i := i + 1;
    }
    assert elements[..i] == elements;
    return Success(ix);
  }

  /** A successful attic audit has filed exactly the street names of the
      input's nodes and ways, as the later audit does. */
  lemma AuditRecords(es: seq<Element>, f: AuditXml.Field, k: string, n: string)
    requires !SomeIdMissing(es)
    ensures Recorded(AuditXml.Of(AuditXml.StreetsOf(AuditXml.EmptyIndex, es), f), k, n) <==>
            AuditXml.Listed(f, n, k) && AuditXml.StreetOfSome(es, n)
  {
    AuditXml.StreetsOfRecords(AuditXml.EmptyIndex, es, f, k, n);
  }
}
