/** The `CleanXML` class of project3_updated.py: it shapes every element of
    the map file into a document, normalises the street of each
    `addr:street` sub-tag on the way, and counts the streets it saw and the
    ones it changed. The class keeps its two counters as fields; each method
    is proved against a specification function over the element and the old
    counters, and the properties of the shaping are lemmas about those
    functions. */
module CleanXml {
  import opened Osm
  import opened StreetNormalizer

  // ----- Specification -----

  /** The two `defaultdict(int)` counters, keyed by the raw street value. */
  datatype Counters = Counters(total: map<string, nat>, corrected: map<string, nat>)

  /** `counter[k] += 1` on a `defaultdict(int)`. */
  function Bump(m: map<string, nat>, k: string): (r: map<string, nat>)
    ensures r.Keys == m.Keys + {k}
    ensures Get(r, k) == Get(m, k) + 1
    ensures forall j :: j != k ==> Get(r, j) == Get(m, j)
  {
    m[k := Get(m, k) + 1]
  }

  /** The counters after one `addr:street` value has been seen. */
  function CountStreet(c: Counters, v: string): Counters
  {
    Counters(Bump(c.total, v),
             if NormalizeStreet(v) != v then Bump(c.corrected, v) else c.corrected)
  }

  /** `fix_created` over the first keys of its list: every listed attribute
      that is present, empty or not, with its text. */
  function CreatedFrom(keys: seq<string>, attrs: map<string, string>): (m: map<string, string>)
    ensures m.Keys == set k | k in keys && k in attrs
    ensures forall k :: k in m ==> m[k] == attrs[k]
    decreases |keys|
  {
    if keys == [] then map[]
    else
      var m := CreatedFrom(keys[..|keys| - 1], attrs);
      var k := keys[|keys| - 1];
      assert keys == keys[..|keys| - 1] + [k];
      if k in attrs then m[k := attrs[k]] else m
  }

  /** The top-level field of a one-segment key: upper case for `FIXME` and
      `NHS` in any case, lower case otherwise. */
  function FieldName(k: string): string
  {
    if Upper(k) == "FIXME" || Upper(k) == "NHS" then Upper(k) else Lower(k)
  }

  /** One sub-tag applied to the document and the counters. */
  function TagStep(doc: Doc, c: Counters, k: string, v: string): (Result<Doc, Error>, Counters)
  {
    match ClassifyKey(k)
    case Dropped => (Success(doc), c)
    case Single(name) => (Success(doc[FieldName(name) := Str(v)]), c)
    case Address(f) =>
      if f == "street" then (SetAddress(doc, f, NormalizeStreet(v)), CountStreet(c, v))
      else (SetAddress(doc, f, v), c)
    case Merged(name) => (Success(doc[name := Str(v)]), c)
  }

  /** The sub-tags applied in document order; the first failure stops the
      loop with the counters as they were bumped up to that point. */
  function ShapeTags(doc: Doc, c: Counters, tags: seq<(string, string)>): (Result<Doc, Error>, Counters)
    decreases |tags|
  {
    if tags == [] then (Success(doc), c)
    else
      var step := TagStep(doc, c, tags[0].0, tags[0].1);
      if step.0.Failure? then step else ShapeTags(step.0.value, step.1, tags[1..])
  }

  /** The fields of a node or way set before its sub-tags. */
  function BaseDoc(e: Element): Result<Doc, Error>
  {
    var created := CreatedFrom(CreatedKeys, e.attrs);
    var d0: Doc := if created != map[] then map["created" := Dict(created)] else map[];
    var d1 := if LatLon(e.attrs).Some? then d0["pos" := LatLon(e.attrs).value] else d0;
    var d2 := d1["type" := Str(e.tag)];
    if "id" !in e.attrs then Failure(MissingAttribute("id"))
    else
      Success(d2["id" := Str(e.attrs["id"])]
                ["visible" := if "visible" in e.attrs then Str(e.attrs["visible"]) else Null])
  }

  /** The `bounds` document: the first missing bound is a KeyError. */
  function BoundsDoc(attrs: map<string, string>): Result<Option<Doc>, Error>
  {
    if "minlat" !in attrs then Failure(MissingAttribute("minlat"))
    else if "minlon" !in attrs then Failure(MissingAttribute("minlon"))
    else if "maxlat" !in attrs then Failure(MissingAttribute("maxlat"))
    else if "maxlon" !in attrs then Failure(MissingAttribute("maxlon"))
    else Success(Some(map["type" := Str("bounds"),
                          "minlat" := Coord(attrs["minlat"]),
                          "minlon" := Coord(attrs["minlon"]),
                          "maxlat" := Coord(attrs["maxlat"]),
                          "maxlon" := Coord(attrs["maxlon"])]))
  }

  /** `shape_element`: the document of an element (None for any other tag)
      and the counters afterwards. */
  function Shape(e: Element, c: Counters): (Result<Option<Doc>, Error>, Counters)
  {
    if e.tag == "bounds" then (BoundsDoc(e.attrs), c)
    else if e.tag == "node" || e.tag == "way" then
      match BaseDoc(e)
      case Failure(err) => (Failure(err), c)
      case Success(base) =>
        var (r, c') := ShapeTags(base, c, e.tags);
        match r
        case Failure(err) => (Failure(err), c')
        case Success(d) =>
          (Success(Some(if e.tag == "way" && e.refs != [] then d["node_refs" := List(e.refs)] else d)), c')
    else (Success(None), c)
  }

  /** `process_map` from an accumulated list: the documents in element
      order; the first failure ends the run. */
  function ProcessFrom(acc: seq<Doc>, c: Counters, es: seq<Element>): (Result<seq<Doc>, Error>, Counters)
    decreases |es|
  {
    if es == [] then (Success(acc), c)
    else
      var (r, c') := Shape(es[0], c);
      match r
      case Failure(err) => (Failure(err), c')
      case Success(None) => ProcessFrom(acc, c', es[1..])
      case Success(Some(d)) => ProcessFrom(acc + [d], c', es[1..])
  }

  function Process(es: seq<Element>, c: Counters): (Result<seq<Doc>, Error>, Counters)
  {
    ProcessFrom([], c, es)
  }

  // ----- Properties of the shaping -----

  /** The document fields a sub-tag key writes: none for a dropped key. */
  function Target(k: string): set<string>
  {
    match ClassifyKey(k)
    case Dropped => {}
    case Single(name) => {FieldName(name)}
    case Address(_) => {"address"}
    case Merged(name) => {name}
  }

  function Targets(tags: seq<(string, string)>): set<string>
    decreases |tags|
  {
    if tags == [] then {} else Target(tags[0].0) + Targets(tags[1..])
  }

  /** The sub-tags whose key is not dropped, in order. */
  function Kept(tags: seq<(string, string)>): seq<(string, string)>
    decreases |tags|
  {
    if tags == [] then []
    else if ClassifyKey(tags[0].0).Dropped? then Kept(tags[1..])
    else [tags[0]] + Kept(tags[1..])
  }

  /** How many sub-tags are `addr:street` with value `v`. */
  function StreetCount(tags: seq<(string, string)>, v: string): nat
    decreases |tags|
  {
    if tags == [] then 0
    else (if tags[0].0 == "addr:street" && tags[0].1 == v then 1 else 0) + StreetCount(tags[1..], v)
  }

  /** The fields a run of sub-tags leaves in the document: those it had,
      plus each one a kept key writes. */
  lemma {:induction false} TagsKeys(doc: Doc, c: Counters, tags: seq<(string, string)>)
    requires ShapeTags(doc, c, tags).0.Success?
    ensures ShapeTags(doc, c, tags).0.value.Keys == doc.Keys + Targets(tags)
    decreases |tags|
  {
    if tags != [] {
      var step := TagStep(doc, c, tags[0].0, tags[0].1);
      TagsKeys(step.0.value, step.1, tags[1..]);
    }
  }

  /** A field no sub-tag writes keeps the value it had before the loop. */
  lemma {:induction false} TagsFrame(doc: Doc, c: Counters, tags: seq<(string, string)>, f: string)
    requires ShapeTags(doc, c, tags).0.Success?
    requires f in doc && f !in Targets(tags)
    ensures f in ShapeTags(doc, c, tags).0.value
    ensures ShapeTags(doc, c, tags).0.value[f] == doc[f]
    decreases |tags|
  {
    if tags != [] {
      var step := TagStep(doc, c, tags[0].0, tags[0].1);
      TagsFrame(step.0.value, step.1, tags[1..], f);
    }
  }

  /** Sub-tags whose key holds a problem character or is `addr:street:...`
      have no effect at all: not on the document, not on the counters. */
  lemma {:induction false} TagsIgnoreDropped(doc: Doc, c: Counters, tags: seq<(string, string)>)
    ensures ShapeTags(doc, c, tags) == ShapeTags(doc, c, Kept(tags))
    decreases |tags|
  {
    if tags != [] {
      var step := TagStep(doc, c, tags[0].0, tags[0].1);
      if step.0.Success? {
        TagsIgnoreDropped(step.0.value, step.1, tags[1..]);
      }
    }
  }

  /** One sub-tag bumps the counters of `v` only when it is `addr:street`
      with value `v`. */
  lemma StepStreetCounts(doc: Doc, c: Counters, k: string, w: string, v: string)
    ensures var n := if k == "addr:street" && w == v then 1 else 0;
            && Get(TagStep(doc, c, k, w).1.total, v) == Get(c.total, v) + n
            && Get(TagStep(doc, c, k, w).1.corrected, v) == Get(c.corrected, v) + if NormalizeStreet(v) != v then n else 0
  {
    StreetKey(k);
    if ClassifyKey(k) != Address("street") {
      assert TagStep(doc, c, k, w).1 == c;
    }
  }

  /** After a successful run of sub-tags, the street counter of every raw
      value went up by the number of its `addr:street` sub-tags, and the
      corrected counter by the same number when the value changes under
      normalisation, by nothing otherwise. */
  lemma {:induction false} TagsStreetCounts(doc: Doc, c: Counters, tags: seq<(string, string)>, v: string)
    requires ShapeTags(doc, c, tags).0.Success?
    ensures Get(ShapeTags(doc, c, tags).1.total, v) == Get(c.total, v) + StreetCount(tags, v)
    ensures Get(ShapeTags(doc, c, tags).1.corrected, v)
            == Get(c.corrected, v) + if NormalizeStreet(v) != v then StreetCount(tags, v) else 0
    decreases |tags|
  {
    if tags != [] {
      var step := TagStep(doc, c, tags[0].0, tags[0].1);
      StepStreetCounts(doc, c, tags[0].0, tags[0].1, v);
      TagsStreetCounts(step.0.value, step.1, tags[1..], v);
    }
  }

  /** The counters agree with the normaliser: a raw street is in the
      corrected counter exactly when normalising changes it, and then with
      the same count as in the total. `print_stats` reports the ratio of the
      two key sets. */
  predicate Consistent(c: Counters)
  {
    && c.corrected.Keys <= c.total.Keys
    && (forall v :: v in c.total ==> (v in c.corrected <==> NormalizeStreet(v) != v))
    && (forall v :: v in c.corrected ==> c.corrected[v] == c.total[v])
  }

  /** Counting one street keeps the counters consistent. */
  lemma CountStreetConsistent(c: Counters, v: string)
    requires Consistent(c)
    ensures Consistent(CountStreet(c, v))
  {
    var d := CountStreet(c, v);
    forall u | u in d.corrected
      ensures d.corrected[u] == d.total[u]
    {
      if u != v {
        assert Get(d.corrected, u) == Get(c.corrected, u) && Get(d.total, u) == Get(c.total, u);
      }
    }
  }

  lemma StepConsistent(doc: Doc, c: Counters, k: string, v: string)
    requires Consistent(c)
    ensures Consistent(TagStep(doc, c, k, v).1)
  {
    if ClassifyKey(k) == Address("street") {
      CountStreetConsistent(c, v);
    } else {
      assert TagStep(doc, c, k, v).1 == c;
    }
  }

  lemma {:induction false} TagsConsistent(doc: Doc, c: Counters, tags: seq<(string, string)>)
    requires Consistent(c)
    ensures Consistent(ShapeTags(doc, c, tags).1)
    decreases |tags|
  {
    if tags != [] {
      var step := TagStep(doc, c, tags[0].0, tags[0].1);
      StepConsistent(doc, c, tags[0].0, tags[0].1);
      if step.0.Success? {
        TagsConsistent(step.0.value, step.1, tags[1..]);
      }
    }
  }

  /** Only `node`, `way` and `bounds` elements give a document; a `bounds`
      or any other element leaves the counters alone. */
  lemma ShapeKinds(e: Element, c: Counters)
    ensures Shape(e, c).0.Success? && Shape(e, c).0.value.Some? ==> e.tag in {"node", "way", "bounds"}
    ensures e.tag !in {"node", "way", "bounds"} ==> Shape(e, c) == (Success(None), c)
  {
  }

  /** A `bounds` element: counters untouched, sub-tags and `nd` children
      ignored, a KeyError for the first missing bound, and otherwise exactly
      the five fields. */
  lemma BoundsFacts(e: Element, c: Counters)
    requires e.tag == "bounds"
    ensures Shape(e, c).1 == c
    ensures Shape(e, c).0.Success? <==> "minlat" in e.attrs && "minlon" in e.attrs && "maxlat" in e.attrs && "maxlon" in e.attrs
    ensures "minlat" !in e.attrs ==> Shape(e, c).0 == Failure(MissingAttribute("minlat"))
    ensures "minlat" in e.attrs && "minlon" !in e.attrs ==> Shape(e, c).0 == Failure(MissingAttribute("minlon"))
    ensures "minlat" in e.attrs && "minlon" in e.attrs && "maxlat" !in e.attrs ==>
              Shape(e, c).0 == Failure(MissingAttribute("maxlat"))
    ensures "minlat" in e.attrs && "minlon" in e.attrs && "maxlat" in e.attrs && "maxlon" !in e.attrs ==>
              Shape(e, c).0 == Failure(MissingAttribute("maxlon"))
    ensures Shape(e, c).0.Success? ==>
              Shape(e, c).0.value.Some? &&
              Shape(e, c).0.value.value.Keys == {"type", "minlat", "minlon", "maxlat", "maxlon"} &&
              Shape(e, c).0.value.value["type"] == Str("bounds") &&
              Shape(e, c).0.value.value["minlat"] == Coord(e.attrs["minlat"]) &&
              Shape(e, c).0.value.value["minlon"] == Coord(e.attrs["minlon"]) &&
              Shape(e, c).0.value.value["maxlat"] == Coord(e.attrs["maxlat"]) &&
              Shape(e, c).0.value.value["maxlon"] == Coord(e.attrs["maxlon"])
  {
  }

  /** The fields of a shaped node or way: the base fields, those written by
      its sub-tags and, for a way with `nd` children, `node_refs` holding the
      references in order, duplicates kept. */
  lemma ShapeNodeKeys(e: Element, c: Counters)
    requires e.tag == "node" || e.tag == "way"
    requires Shape(e, c).0.Success?
    ensures "id" in e.attrs
    ensures Shape(e, c).0.value.Some?
    ensures Shape(e, c).0.value.value.Keys
            == BaseDoc(e).value.Keys + Targets(e.tags) + (if e.tag == "way" && e.refs != [] then {"node_refs"} else {})
    ensures e.tag == "way" && e.refs != [] ==> Shape(e, c).0.value.value["node_refs"] == List(e.refs)
  {
    TagsKeys(BaseDoc(e).value, c, e.tags);
  }

  /** The base fields: `type`, `id` and `visible` always; `created` exactly
      when one of its five attributes is present; `pos` exactly when both
      coordinates are non-empty. */
  lemma BaseFields(e: Element)
    requires "id" in e.attrs
    ensures BaseDoc(e).Success?
    ensures BaseDoc(e).value.Keys >= {"type", "id", "visible"}
    ensures BaseDoc(e).value["visible"] == if "visible" in e.attrs then Str(e.attrs["visible"]) else Null
    ensures "created" in BaseDoc(e).value <==> exists k :: k in CreatedKeys && k in e.attrs
    ensures "pos" in BaseDoc(e).value <==> "lat" in e.attrs && "lon" in e.attrs && e.attrs["lat"] != "" && e.attrs["lon"] != ""
  {
    var created := CreatedFrom(CreatedKeys, e.attrs);
    if exists k :: k in CreatedKeys && k in e.attrs {
      var k :| k in CreatedKeys && k in e.attrs;
      assert k in created;
    }
  }

  /** The identity fields survive the sub-tags unless a sub-tag writes them. */
  lemma ShapeNodeIdentity(e: Element, c: Counters)
    requires e.tag == "node" || e.tag == "way"
    requires Shape(e, c).0.Success?
    requires "id" !in Targets(e.tags) && "type" !in Targets(e.tags)
    ensures "id" in Shape(e, c).0.value.value && Shape(e, c).0.value.value["id"] == Str(e.attrs["id"])
    ensures "type" in Shape(e, c).0.value.value && Shape(e, c).0.value.value["type"] == Str(e.tag)
  {
    var base := BaseDoc(e).value;
    TagsFrame(base, c, e.tags, "id");
    TagsFrame(base, c, e.tags, "type");
  }

  /** A one-segment key is stored lower-cased, except that `fixme` and
      `nhs`, in any mix of cases, are stored upper-cased. */
  lemma FieldNameCase(k: string)
    ensures Lower(k) == "fixme" ==> FieldName(k) == "FIXME"
    ensures Lower(k) == "nhs" ==> FieldName(k) == "NHS"
    ensures Lower(k) != "fixme" && Lower(k) != "nhs" ==> FieldName(k) == Lower(k)
  {
    var fixme, nhs := "fixme", "nhs";
    CaseAgree(k, fixme);
    CaseAgree(k, nhs);
    assert Upper(fixme) == "FIXME" by {
      assert forall j :: 0 <= j < 5 ==> Upper(fixme)[j] == "FIXME"[j];
    }
    assert Upper(nhs) == "NHS" by {
      assert forall j :: 0 <= j < 3 ==> Upper(nhs)[j] == "NHS"[j];
    }
  }

  /** Running the sub-tags of `a + b` is running those of `a`, then, if
      that succeeded, those of `b` from where `a` left off. */
  lemma {:induction false} TagsAppend(doc: Doc, c: Counters, a: seq<(string, string)>, b: seq<(string, string)>)
    ensures ShapeTags(doc, c, a + b) ==
            (var s := ShapeTags(doc, c, a); if s.0.Failure? then s else ShapeTags(s.0.value, s.1, b))
    decreases |a|
  {
    if a == [] {
      assert a + b == b;
    } else {
      assert (a + b)[0] == a[0];
      assert (a + b)[1..] == a[1..] + b;
      var step := TagStep(doc, c, a[0].0, a[0].1);
      if step.0.Success? {
        TagsAppend(step.0.value, step.1, a[1..], b);
      }
    }
  }

  /** `id` and `type` are meant to be the element's own, but a sub-tag
      whose key lower-cases to `id` (`ID`, `Id`, ...) overwrites the id
      wherever it stands: the stored id is its value, unless a later
      sub-tag writes the id again. */
  lemma IdOverwritten(e: Element, c: Counters, pre: seq<(string, string)>, k: string, v: string,
                      post: seq<(string, string)>)
    requires e.tag == "node" || e.tag == "way"
    requires e.tags == pre + [(k, v)] + post
    requires !HasProblemChar(k) && ':' !in k && Lower(k) == "id"
    requires "id" !in Targets(post)
    requires Shape(e, c).0.Success?
    ensures "id" in Shape(e, c).0.value.value && Shape(e, c).0.value.value["id"] == Str(v)
  {
    FieldNameCase(k);
    assert ClassifyKey(k) == Single(k);
    assert FieldName(k) == "id";
    var base := BaseDoc(e).value;
    TagsAppend(base, c, pre + [(k, v)], post);
    TagsAppend(base, c, pre, [(k, v)]);
    var s1 := ShapeTags(base, c, pre);
    assert s1.0.Success?;
    var d2 := s1.0.value["id" := Str(v)];
    assert ShapeTags(s1.0.value, s1.1, [(k, v)]) == (Success(d2), s1.1);
    TagsFrame(d2, s1.1, post, "id");
  }

  /** The base fields of a node or way never include `address`. */
  lemma BaseNoAddress(e: Element)
    requires "id" in e.attrs
    ensures BaseDoc(e).Success? && "address" !in BaseDoc(e).value
  {
    var created := CreatedFrom(CreatedKeys, e.attrs);
    var d0: Doc := if created != map[] then map["created" := Dict(created)] else map[];
    assert "address" !in d0;
  }

  /** One `addr:street` sub-tag on a document without an address: the
      address holds the normalised street alone, and the street is counted. */
  lemma StreetOnly(doc: Doc, c: Counters, sk: string, v: string)
    requires "address" !in doc && ClassifyKey(sk) == Address("street")
    ensures ShapeTags(doc, c, [(sk, v)]) ==
            (Success(doc["address" := Dict(map["street" := NormalizeStreet(v)])]), CountStreet(c, v))
  {
    StreetStep(doc, c, sk, v);
    var s := TagStep(doc, c, sk, v);
    assert [(sk, v)][1..] == [];
    assert ShapeTags(s.0.value, s.1, []) == s;
  }

  /** A node whose one sub-tag is `addr:street`: its address holds the
      normalised street alone, and the street is counted once. */
  lemma StreetNode(e: Element, c: Counters, sk: string, v: string)
    requires e.tag == "node" && "id" in e.attrs
    requires e.tags == [(sk, v)] && ClassifyKey(sk) == Address("street")
    ensures Shape(e, c).0.Success? && Shape(e, c).0.value.Some?
    ensures "address" in Shape(e, c).0.value.value
    ensures Shape(e, c).0.value.value["address"] == Dict(map["street" := NormalizeStreet(v)])
    ensures Shape(e, c).1 == CountStreet(c, v)
  {
    BaseNoAddress(e);
    var base := BaseDoc(e).value;
    StreetOnly(base, c, sk, v);
    var d := base["address" := Dict(map["street" := NormalizeStreet(v)])];
    assert e.tag != "bounds" && e.tag != "way";
    assert Shape(e, c) == (Success(Some(d)), CountStreet(c, v));
  }

  /** The street of the worked example: `North Lincoln Ave.` is stored as
      `North Lincoln Avenue` and raises both counters for the raw value. */
  lemma NorthLincolnNode(e: Element, c: Counters)
    requires e.tag == "node" && "id" in e.attrs
    requires e.tags == [("addr:street", "North" + " " + "Lincoln" + " " + "Ave" + ".")]
    ensures Shape(e, c).0.Success? && Shape(e, c).0.value.Some?
    ensures "address" in Shape(e, c).0.value.value
    ensures Shape(e, c).0.value.value["address"] ==
              Dict(map["street" := "North" + " " + "Lincoln" + " " + "Avenue"])
    ensures var v := e.tags[0].1;
            && Get(Shape(e, c).1.total, v) == Get(c.total, v) + 1
            && Get(Shape(e, c).1.corrected, v) == Get(c.corrected, v) + 1
  {
    var k, v := e.tags[0].0, e.tags[0].1;
    StreetKeyClean(k);
    StreetNode(e, c, k, v);
    NormalizeNorthLincolnAve();
    assert NormalizeStreet(v) != v by {
      assert |NormalizeStreet(v)| != |v|;
    }
  }

  /** Two sub-tags are two steps, the second only after a successful first. */
  lemma TwoTags(doc: Doc, c: Counters, t1: (string, string), t2: (string, string))
    ensures ShapeTags(doc, c, [t1, t2]) ==
            (var s := TagStep(doc, c, t1.0, t1.1); if s.0.Failure? then s else TagStep(s.0.value, s.1, t2.0, t2.1))
  {
    var tags := [t1, t2];
    assert tags[1..] == [t2] && [t2][1..] == [];
    var s := TagStep(doc, c, t1.0, t1.1);
    if s.0.Success? {
      var s2 := TagStep(s.0.value, s.1, t2.0, t2.1);
      assert ShapeTags(doc, c, tags) == ShapeTags(s.0.value, s.1, [t2]);
      if s2.0.Success? {
        assert ShapeTags(s2.0.value, s2.1, []) == s2;
      }
    }
  }

  /** A street sub-tag stores the normalised street and counts the raw one. */
  lemma StreetStep(doc: Doc, c: Counters, sk: string, s: string)
    requires ClassifyKey(sk) == Address("street")
    ensures TagStep(doc, c, sk, s) == (SetAddress(doc, "street", NormalizeStreet(s)), CountStreet(c, s))
  {
  }

  /** An address field other than the street, on a document without an
      address, starts the address with the raw value. */
  lemma FieldStep(doc: Doc, c: Counters, f: string, h: string)
    requires ':' !in f && !HasProblemChar(f) && f != "street"
    requires "address" !in doc
    ensures TagStep(doc, c, "addr:" + f, h) == (Success(doc["address" := Dict(map[f := h])]), c)
  {
    AddressKey(f);
  }

  /** Another address field, then the street, give an address holding
      both, the street normalised and counted. */
  lemma FieldAndStreet(doc: Doc, c: Counters, f: string, h: string, sk: string, s: string)
    requires ':' !in f && !HasProblemChar(f) && f != "street"
    requires ClassifyKey(sk) == Address("street")
    requires "address" !in doc
    ensures ShapeTags(doc, c, [("addr:" + f, h), (sk, s)]) ==
            (Success(doc["address" := Dict(map[f := h]["street" := NormalizeStreet(s)])]), CountStreet(c, s))
  {
    var fk := "addr:" + f;
    FieldStep(doc, c, f, h);
    TwoTags(doc, c, (fk, h), (sk, s));
    var d1 := doc["address" := Dict(map[f := h])];
    StreetStep(d1, c, sk, s);
    var a := Dict(map[f := h]["street" := NormalizeStreet(s)]);
    assert SetAddress(d1, "street", NormalizeStreet(s)) == Success(d1["address" := a]);
    assert d1["address" := a] == doc["address" := a];
  }

  /** The number of elements that give a document. */
  function ShapedCount(es: seq<Element>): nat
    decreases |es|
  {
    if es == [] then 0
    else (if es[0].tag in {"node", "way", "bounds"} then 1 else 0) + ShapedCount(es[1..])
  }

  /** The `addr:street` sub-tags with value `v` over all nodes and ways. */
  function StreetCountAll(es: seq<Element>, v: string): nat
    decreases |es|
  {
    if es == [] then 0
    else (if es[0].tag in {"node", "way"} then StreetCount(es[0].tags, v) else 0) + StreetCountAll(es[1..], v)
  }

  /** A successful run keeps what it had and appends one document per node,
      way and bounds element. */
  lemma {:induction false} ProcessFromCount(acc: seq<Doc>, c: Counters, es: seq<Element>)
    requires ProcessFrom(acc, c, es).0.Success?
    ensures |ProcessFrom(acc, c, es).0.value| == |acc| + ShapedCount(es)
    ensures ProcessFrom(acc, c, es).0.value[..|acc|] == acc
    decreases |es|
  {
    if es != [] {
      var (r, c') := Shape(es[0], c);
      ShapeKinds(es[0], c);
      if r.value.Some? {
        ProcessFromCount(acc + [r.value.value], c', es[1..]);
        assert ProcessFrom(acc, c, es).0.value[..|acc| + 1][..|acc|] == acc;
      } else {
        ProcessFromCount(acc, c', es[1..]);
      }
    }
  }

  lemma ProcessCount(es: seq<Element>, c: Counters)
    requires Process(es, c).0.Success?
    ensures |Process(es, c).0.value| == ShapedCount(es)
  {
    ProcessFromCount([], c, es);
  }

  /** Over a successful run, the total counter of a raw street grows by the
      number of its `addr:street` sub-tags, and the corrected counter by the
      same number exactly when normalisation changes the street. */
  lemma {:induction false} ProcessStreetCounts(acc: seq<Doc>, c: Counters, es: seq<Element>, v: string)
    requires ProcessFrom(acc, c, es).0.Success?
    ensures Get(ProcessFrom(acc, c, es).1.total, v) == Get(c.total, v) + StreetCountAll(es, v)
    ensures Get(ProcessFrom(acc, c, es).1.corrected, v)
            == Get(c.corrected, v) + if NormalizeStreet(v) != v then StreetCountAll(es, v) else 0
    decreases |es|
  {
    if es != [] {
      var (r, c') := Shape(es[0], c);
      if es[0].tag in {"node", "way"} {
        TagsStreetCounts(BaseDoc(es[0]).value, c, es[0].tags, v);
      }
      ProcessStreetCounts(if r.value.Some? then acc + [r.value.value] else acc, c', es[1..], v);
    }
  }

  /** The counters stay consistent with the normaliser over any run, even
      one that ends in an error. */
  lemma {:induction false} ProcessConsistent(acc: seq<Doc>, c: Counters, es: seq<Element>)
    requires Consistent(c)
    ensures Consistent(ProcessFrom(acc, c, es).1)
    decreases |es|
  {
    if es != [] {
      var (r, c') := Shape(es[0], c);
      if es[0].tag in {"node", "way"} && BaseDoc(es[0]).Success? {
        TagsConsistent(BaseDoc(es[0]).value, c, es[0].tags);
      }
      if r.Success? {
        ProcessConsistent(if r.value.Some? then acc + [r.value.value] else acc, c', es[1..]);
      }
    }
  }

  // ----- The class -----

  class CleanXml {
    var numStreetsTotal: map<string, nat>
    var numStreetsCorrected: map<string, nat>

    function Stats(): Counters
      reads this
    {
      Counters(numStreetsTotal, numStreetsCorrected)
    }

    constructor()
      ensures numStreetsTotal == map[] && numStreetsCorrected == map[]
    {
      numStreetsTotal := map[];
      numStreetsCorrected := map[];
    }

    /** `fix_street`: drop the periods, then apply the first prefix rule that
        matches, then the first street-type rule that matches. */
    method FixStreet(street: string) returns (fixed: string)
      ensures fixed == NormalizeStreet(street)
    {
      fixed := RemovePeriods(street);
      fixed := SubnFirst(PrefixRules, fixed);
      fixed := SubnFirst(TypeRules, fixed);
    }

    /** One of the two loops of `fix_street`: each rule in turn, left after
        the first that replaced something. */
    static method SubnFirst(rules: seq<Rule>, street: string) returns (fixed: string)
      ensures fixed == ApplyFirst(rules, street)
    {
      fixed := street;
      var i := 0;
      while i < |rules|
        invariant 0 <= i <= |rules|
        invariant fixed == street
        invariant ApplyFirst(rules[i..], street) == ApplyFirst(rules, street)
      {
        var (s, n) := Subn(rules[i], fixed);
        SubnCount(rules[i], fixed);
        assert rules[i..][1..] == rules[i + 1..];
        fixed := s;
        if n > 0 {
          break;
        }
        i := i + 1;
      }
    }

    /** `fix_created`: the listed attributes that are present. */
    method FixCreated(attrs: map<string, string>) returns (created: map<string, string>)
      ensures created == CreatedFrom(CreatedKeys, attrs)
    {
      created := map[];
      for i := 0 to |CreatedKeys|
        invariant created == CreatedFrom(CreatedKeys[..i], attrs)
      {
        var key := CreatedKeys[i];
        assert CreatedKeys[..i + 1][..i] == CreatedKeys[..i];
        if key in attrs {
          created := created[key := attrs[key]];
        }
      }
      assert CreatedKeys[..|CreatedKeys|] == CreatedKeys;
    }

    /** `node["address"][field] = v` for an `addr:` sub-tag; a street is
        counted and normalised first. */
    method AddressTag(node: Doc, field: string, v: string) returns (r: Result<Doc, Error>)
      modifies this
      ensures (r, Stats()) == if field == "street"
                              then (SetAddress(node, field, NormalizeStreet(v)), CountStreet(old(Stats()), v))
                              else (SetAddress(node, field, v), old(Stats()))
    {
      var value := v;
      if field == "street" {
        numStreetsTotal := Bump(numStreetsTotal, v);
        var corrected := FixStreet(v);
        if corrected != v {
          numStreetsCorrected := Bump(numStreetsCorrected, v);
        }
        value := corrected;
      }
      if "address" !in node {
        r := Success(node["address" := Dict(map[field := value])]);
      } else if node["address"].Dict? {
        r := Success(node["address" := Dict(node["address"].entries[field := value])]);
      } else {
        r := Failure(NotADict("address"));
      }
    }

    /** One sub-tag of a node or way. */
    method ApplyTag(node: Doc, k: string, v: string) returns (r: Result<Doc, Error>)
      modifies this
      ensures (r, Stats()) == TagStep(node, old(Stats()), k, v)
    {
      if HasProblemChar(k) {
        return Success(node);
      }
      var keys := Split(k, ':');
      if |keys| == 1 {
        if Upper(k) == "FIXME" || Upper(k) == "NHS" {
          r := Success(node[Upper(k) := Str(v)]);
        } else {
          r := Success(node[Lower(k) := Str(v)]);
        }
      } else if |keys| == 2 && keys[0] == "addr" {
        r := AddressTag(node, keys[1], v);
      } else if |keys| > 2 && keys[0] == "addr" && keys[1] == "street" {
        r := Success(node);
      } else {
        r := Success(node[Join(keys, "_") := Str(v)]);
      }
    }

    /** The `bounds` branch of `shape_element`. */
    method ShapeBounds(attrs: map<string, string>) returns (r: Result<Option<Doc>, Error>)
      ensures r == BoundsDoc(attrs)
    {
      if "minlat" !in attrs { return Failure(MissingAttribute("minlat")); }
      if "minlon" !in attrs { return Failure(MissingAttribute("minlon")); }
      if "maxlat" !in attrs { return Failure(MissingAttribute("maxlat")); }
      if "maxlon" !in attrs { return Failure(MissingAttribute("maxlon")); }
      var node: Doc := map["type" := Str("bounds")];
      node := node["minlat" := Coord(attrs["minlat"])];
      node := node["minlon" := Coord(attrs["minlon"])];
      node := node["maxlat" := Coord(attrs["maxlat"])];
      node := node["maxlon" := Coord(attrs["maxlon"])];
      return Success(Some(node));
    }

    /** The fields of a node or way set before the sub-tag loop. */
    method ShapeBase(e: Element) returns (r: Result<Doc, Error>)
      requires e.tag == "node" || e.tag == "way"
      ensures r == BaseDoc(e)
    {
      var node: Doc := map[];
      var created := FixCreated(e.attrs);
      if created != map[] {
        node := node["created" := Dict(created)];
      }
      var latLon := LatLon(e.attrs);
      if latLon.Some? {
        node := node["pos" := latLon.value];
      }
      node := node["type" := Str(if e.tag == "node" then "node" else "way")];
      if "id" !in e.attrs {
        return Failure(MissingAttribute("id"));
      }
      node := node["id" := Str(e.attrs["id"])];
      node := node["visible" := if "visible" in e.attrs then Str(e.attrs["visible"]) else Null];
      return Success(node);
    }

    /** The sub-tag loop of `shape_element`. */
    method ShapeSubTags(node0: Doc, tags: seq<(string, string)>) returns (r: Result<Doc, Error>)
      modifies this
      ensures (r, Stats()) == ShapeTags(node0, old(Stats()), tags)
    {
      var node := node0;
      var i := 0;
      while i < |tags|
        invariant 0 <= i <= |tags|
        invariant ShapeTags(node, Stats(), tags[i..]) == ShapeTags(node0, old(Stats()), tags)
      {
        assert tags[i..][1..] == tags[i + 1..];
        var step := ApplyTag(node, tags[i].0, tags[i].1);
        if step.Failure? {
          return Failure(step.error);
        }
        node := step.value;
        i := i + 1;
      }
      r := Success(node);
    }

    /** `shape_element`. */
    method ShapeElement(e: Element) returns (r: Result<Option<Doc>, Error>)
      modifies this
      ensures (r, Stats()) == Shape(e, old(Stats()))
    {
      if e.tag == "bounds" {
        r := ShapeBounds(e.attrs);
      } else if e.tag == "node" || e.tag == "way" {
        var base := ShapeBase(e);
        if base.Failure? {
          return Failure(base.error);
        }
        var shaped := ShapeSubTags(base.value, e.tags);
        if shaped.Failure? {
          return Failure(shaped.error);
        }
        var node := shaped.value;
        if e.tag == "way" {
          var nodeRefs := NodeRefs(e.refs);
          if nodeRefs != [] {
            node := node["node_refs" := List(nodeRefs)];
          }
        }
        r := Success(Some(node));
      } else {
        r := Success(None);
      }
    }

    /** `process_map` without the file: the documents of the elements in
        order, the other elements skipped. */
    method ProcessMap(elements: seq<Element>) returns (r: Result<seq<Doc>, Error>)
      modifies this
      ensures (r, Stats()) == Process(elements, old(Stats()))
    {
      var data: seq<Doc> := [];
      ghost var c0 := Stats();
      for i := 0 to |elements|
        invariant ProcessFrom(data, Stats(), elements[i..]) == Process(elements, c0)
      {
        assert elements[i..][1..] == elements[i + 1..];
        var el := ShapeElement(elements[i]);
        if el.Failure? {
          return Failure(el.error);
        }
        if el.value.Some? {
          data := data + [el.value.value];
        }
      }
      r := Success(data);
    }
  }
}
