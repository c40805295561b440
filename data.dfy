/** The earlier shaper of data.py: nodes and ways only, keys kept in their
    own case, address values stored raw, and `created` limited to the
    attributes with a non-empty value. It keeps no state between calls; its
    loops build a local document or list, and each is proved against a
    specification function. */
module Data {
  import opened Osm

  // ----- Specification -----

  /** `fix_created` over the first keys of its list: `element.get(key)` is
      truthy only for a present, non-empty attribute. */
  function CreatedFrom(keys: seq<string>, attrs: map<string, string>): (m: map<string, string>)
    ensures m.Keys == set k | k in keys && k in attrs && attrs[k] != ""
    ensures forall k :: k in m ==> m[k] == attrs[k] && m[k] != ""
    decreases |keys|
  {
    if keys == [] then map[]
    else
      var m := CreatedFrom(keys[..|keys| - 1], attrs);
      var k := keys[|keys| - 1];
      assert keys == keys[..|keys| - 1] + [k];
      if k in attrs && attrs[k] != "" then m[k := attrs[k]] else m
  }

  /** `element.get(name)`: the attribute, or None. */
  function GetAttr(attrs: map<string, string>, name: string): Value
  {
    if name in attrs then Str(attrs[name]) else Null
  }

  /** One sub-tag: a one-segment key keeps its case; `addr:X` stores the raw
      value. */
  function TagStep(doc: Doc, k: string, v: string): Result<Doc, Error>
  {
    match ClassifyKey(k)
    case Dropped => Success(doc)
    case Single(name) => Success(doc[name := Str(v)])
    case Address(f) => SetAddress(doc, f, v)
    case Merged(name) => Success(doc[name := Str(v)])
  }

  function ShapeTags(doc: Doc, tags: seq<(string, string)>): Result<Doc, Error>
    decreases |tags|
  {
    if tags == [] then Success(doc)
    else
      var step := TagStep(doc, tags[0].0, tags[0].1);
      if step.Failure? then step else ShapeTags(step.value, tags[1..])
  }

  /** The fields of a node or way set before its sub-tags. */
  function BaseDoc(e: Element): Doc
  {
    var created := CreatedFrom(CreatedKeys, e.attrs);
    var d0: Doc := if created != map[] then map["created" := Dict(created)] else map[];
    var d1 := if LatLon(e.attrs).Some? then d0["pos" := LatLon(e.attrs).value] else d0;
    d1["type" := Str(e.tag)]["id" := GetAttr(e.attrs, "id")]["visible" := GetAttr(e.attrs, "visible")]
  }

  /** `shape_element`: None for every tag but `node` and `way`. */
  function Shape(e: Element): Result<Option<Doc>, Error>
  {
    if e.tag == "node" || e.tag == "way" then
      match ShapeTags(BaseDoc(e), e.tags)
      case Failure(err) => Failure(err)
      case Success(d) =>
        Success(Some(if e.tag == "way" && e.refs != [] then d["node_refs" := List(e.refs)] else d))
    else Success(None)
  }

  function ProcessFrom(acc: seq<Doc>, es: seq<Element>): Result<seq<Doc>, Error>
    decreases |es|
  {
    if es == [] then Success(acc)
    else
      match Shape(es[0])
      case Failure(err) => Failure(err)
      case Success(None) => ProcessFrom(acc, es[1..])
      case Success(Some(d)) => ProcessFrom(acc + [d], es[1..])
  }

  // ----- The script's functions -----

  /** `fix_created` */
  method FixCreated(attrs: map<string, string>) returns (created: map<string, string>)
    ensures created == CreatedFrom(CreatedKeys, attrs)
  {
    created := map[];
    for i := 0 to |CreatedKeys|
      invariant created == CreatedFrom(CreatedKeys[..i], attrs)
    {
      var key := CreatedKeys[i];
      assert CreatedKeys[..i + 1][..i] == CreatedKeys[..i];
      if key in attrs && attrs[key] != "" {
        created := created[key := attrs[key]];
      }
    }
    assert CreatedKeys[..|CreatedKeys|] == CreatedKeys;
  }

  /** One pass of the sub-tag loop of `shape_element`. */
  method ApplyTag(node: Doc, k: string, v: string) returns (r: Result<Doc, Error>)
    ensures r == TagStep(node, k, v)
  {
    if HasProblemChar(k) {
      return Success(node);
    }
    var keys := Split(k, ':');
    if |keys| == 1 {
      r := Success(node[keys[0] := Str(v)]);
    } else if |keys| == 2 && keys[0] == "addr" {
      if "address" !in node {
        r := Success(node["address" := Dict(map[keys[1] := v])]);
      } else if node["address"].Dict? {
        r := Success(node["address" := Dict(node["address"].entries[keys[1] := v])]);
      } else {
        r := Failure(NotADict("address"));
      }
    } else if |keys| > 2 && keys[0] == "addr" && keys[1] == "street" {
      r := Success(node);
    } else {
      r := Success(node[Join(keys, "_") := Str(v)]);
    }
  }

  /** The fields of a node or way set before the sub-tag loop. */
  method ShapeBase(e: Element) returns (node: Doc)
    requires e.tag == "node" || e.tag == "way"
    ensures node == BaseDoc(e)
  {
    node := map[];
    var created := FixCreated(e.attrs);
    if created != map[] {
      node := node["created" := Dict(created)];
    }
    var latLon := LatLon(e.attrs);
    if latLon.Some? {
      node := node["pos" := latLon.value];
    }
    node := node["type" := Str(if e.tag == "node" then "node" else "way")];
    node := node["id" := GetAttr(e.attrs, "id")];
    node := node["visible" := GetAttr(e.attrs, "visible")];
  }

  /** The sub-tag loop of `shape_element`. */
  method ShapeSubTags(node0: Doc, tags: seq<(string, string)>) returns (r: Result<Doc, Error>)
    ensures r == ShapeTags(node0, tags)
  {
    var node := node0;
    var i := 0;
    while i < |tags|
      invariant 0 <= i <= |tags|
      invariant ShapeTags(node, tags[i..]) == ShapeTags(node0, tags)
    {
      assert tags[i..][1..] == tags[i + 1..];
      var step := ApplyTag(node, tags[i].0, tags[i].1);
      if step.Failure? {
        return Failure(step.error);
      }
      node := step.value;
      i := i + 1;
    }
    r := Success(node);
  }

  /** `shape_element` */
  method ShapeElement(e: Element) returns (r: Result<Option<Doc>, Error>)
    ensures r == Shape(e)
  {
    if e.tag == "node" || e.tag == "way" {
      var base := ShapeBase(e);
      var shaped := ShapeSubTags(base, e.tags);
      if shaped.Failure? {
        return Failure(shaped.error);
      }
      var node := shaped.value;
      if e.tag == "way" {
        var nodeRefs := NodeRefs(e.refs);
        if nodeRefs != [] {
          node := node["node_refs" := List(nodeRefs)];
        }
      }
      r := Success(Some(node));
    } else {
      r := Success(None);
    }
  }

  /** `process_map` without the file. */
  method ProcessMap(elements: seq<Element>) returns (r: Result<seq<Doc>, Error>)
    ensures r == ProcessFrom([], elements)
  {
    var data: seq<Doc> := [];
    for i := 0 to |elements|
      invariant ProcessFrom(data, elements[i..]) == ProcessFrom([], elements)
    {
      assert elements[i..][1..] == elements[i + 1..];
      var el := ShapeElement(elements[i]);
      if el.Failure? {
        return Failure(el.error);
      }
      if el.value.Some? {
        data := data + [el.value.value];
      }
    }
    r := Success(data);
  }

  // ----- Properties -----

  /** Only nodes and ways give a document; `bounds` is skipped like any
      other tag. */
  lemma ShapeKinds(e: Element)
    ensures Shape(e).Success? && Shape(e).value.Some? ==> e.tag == "node" || e.tag == "way"
    ensures e.tag != "node" && e.tag != "way" ==> Shape(e) == Success(None)
  {
  }

  /** The fields a run of sub-tags writes. */
  function Target(k: string): set<string>
  {
    match ClassifyKey(k)
    case Dropped => {}
    case Single(name) => {name}
    case Address(_) => {"address"}
    case Merged(name) => {name}
  }

  function Targets(tags: seq<(string, string)>): set<string>
    decreases |tags|
  {
    if tags == [] then {} else Target(tags[0].0) + Targets(tags[1..])
  }

  lemma {:induction false} TagsKeys(doc: Doc, tags: seq<(string, string)>)
    requires ShapeTags(doc, tags).Success?
    ensures ShapeTags(doc, tags).value.Keys == doc.Keys + Targets(tags)
    decreases |tags|
  {
    if tags != [] {
      TagsKeys(TagStep(doc, tags[0].0, tags[0].1).value, tags[1..]);
    }
  }

  /** A one-segment key is stored under its own text, case kept, with the
      raw value. */
  lemma SingleKeepsCase(doc: Doc, k: string, v: string)
    requires !HasProblemChar(k) && ':' !in k
    ensures TagStep(doc, k, v) == Success(doc[k := Str(v)])
  {
  }

  /** An `addr:X` sub-tag stores its value unchanged: no normalisation. */
  lemma AddressStoredRaw(doc: Doc, f: string, v: string)
    requires ':' !in f && !HasProblemChar(f)
    requires "address" !in doc
    ensures TagStep(doc, "addr:" + f, v) == Success(doc["address" := Dict(map[f := v])])
  {
    AddressKey(f);
  }

  /** With all five attributes non-empty, `created` holds all five. */
  lemma CreatedAll(attrs: map<string, string>)
    requires forall k :: k in CreatedKeys ==> k in attrs && attrs[k] != ""
    ensures CreatedFrom(CreatedKeys, attrs).Keys == set k | k in CreatedKeys
    ensures forall k :: k in CreatedKeys ==> CreatedFrom(CreatedKeys, attrs)[k] == attrs[k]
  {
    assert CreatedKeys[0] in CreatedFrom(CreatedKeys, attrs);
  }
  /** A node without sub-tags, with a non-empty `created` and with both
      coordinates has exactly the fields `id`, `visible`, `type`, `pos` and
      `created`: no `address`, no `node_refs`. */
  lemma NodeWithoutTags(e: Element)
    requires e.tag == "node" && e.tags == []
    requires CreatedFrom(CreatedKeys, e.attrs) != map[]
    requires "lat" in e.attrs && "lon" in e.attrs && e.attrs["lat"] != "" && e.attrs["lon"] != ""
    requires "id" in e.attrs && "visible" in e.attrs
    ensures Shape(e) == Success(Some(BaseDoc(e)))
    ensures BaseDoc(e).Keys == {"id", "visible", "type", "pos", "created"}
    ensures BaseDoc(e)["id"] == Str(e.attrs["id"]) && BaseDoc(e)["visible"] == Str(e.attrs["visible"])
    ensures BaseDoc(e)["type"] == Str("node")
    ensures BaseDoc(e)["pos"] == Pos(e.attrs["lat"], e.attrs["lon"])
    ensures BaseDoc(e)["created"] == Dict(CreatedFrom(CreatedKeys, e.attrs))
  {
    NodeBase(e);
    assert ShapeTags(BaseDoc(e), e.tags) == Success(BaseDoc(e));
  }

  /** The base fields of such a node, written out. */
  lemma NodeBase(e: Element)
    requires e.tag == "node"
    requires CreatedFrom(CreatedKeys, e.attrs) != map[]
    requires "lat" in e.attrs && "lon" in e.attrs && e.attrs["lat"] != "" && e.attrs["lon"] != ""
    requires "id" in e.attrs && "visible" in e.attrs
    ensures BaseDoc(e) == map["created" := Dict(CreatedFrom(CreatedKeys, e.attrs)),
                              "pos" := Pos(e.attrs["lat"], e.attrs["lon"]),
                              "type" := Str("node"), "id" := Str(e.attrs["id"]),
                              "visible" := Str(e.attrs["visible"])]
  {
    assert LatLon(e.attrs) == Some(Pos(e.attrs["lat"], e.attrs["lon"]));
  }
  /** The fields set before the sub-tags. */
  lemma BaseKeys(e: Element)
    ensures BaseDoc(e).Keys <= {"created", "pos", "type", "id", "visible"}
    ensures {"type", "id", "visible"} <= BaseDoc(e).Keys
  {
  }

  /** Two address sub-tags for different entries on a document without an
      address: the address holds both values as written. With `street` and
      `housenumber` (both clean) this is the expectation of the
      script's own test for its last way, whose street keeps its
      abbreviation and period. */
  lemma TwoAddressTags(doc: Doc, f1: string, v1: string, f2: string, v2: string)
    requires ':' !in f1 && !HasProblemChar(f1) && ':' !in f2 && !HasProblemChar(f2)
    requires "address" !in doc
    ensures ShapeTags(doc, [("addr:" + f1, v1), ("addr:" + f2, v2)])
            == Success(doc["address" := Dict(map[f1 := v1][f2 := v2])])
  {
    AddressStoredRaw(doc, f1, v1);
    var d1 := doc["address" := Dict(map[f1 := v1])];
    AddressTagOnDict(d1, f2, v2);
    var tags := [("addr:" + f1, v1), ("addr:" + f2, v2)];
    var rest := tags[1..];
    assert rest[0] == ("addr:" + f2, v2) && rest[1..] == [];
    assert ShapeTags(d1, rest) == Success(d1["address" := Dict(map[f1 := v1][f2 := v2])]);
    assert ShapeTags(doc, tags) == ShapeTags(d1, rest);
    assert d1["address" := Dict(map[f1 := v1][f2 := v2])] == doc["address" := Dict(map[f1 := v1][f2 := v2])];
  }

  /** A further `addr:X` adds its entry to the address already there. */
  lemma AddressTagOnDict(doc: Doc, f: string, v: string)
    requires ':' !in f && !HasProblemChar(f)
    requires "address" in doc && doc["address"].Dict?
    ensures TagStep(doc, "addr:" + f, v) == Success(doc["address" := Dict(doc["address"].entries[f := v])])
  {
    AddressKey(f);
  }

  /** `node_refs` of a way is its `nd` list as is: order and repeats kept,
      so a closed way starts and ends with the same reference. */
  lemma WayRefs(e: Element)
    requires e.tag == "way" && e.refs != []
    requires Shape(e).Success?
    ensures "node_refs" in Shape(e).value.value
    ensures Shape(e).value.value["node_refs"] == List(e.refs)
    ensures |Shape(e).value.value["node_refs"].items| == |e.refs|
  {
  }

  /** The number of nodes and ways. */
  function ShapedCount(es: seq<Element>): nat
    decreases |es|
  {
    if es == [] then 0
    else (if es[0].tag == "node" || es[0].tag == "way" then 1 else 0) + ShapedCount(es[1..])
  }

  /** A successful run keeps the documents in element order, one per node
      or way. */
  lemma {:induction false} ProcessFromCount(acc: seq<Doc>, es: seq<Element>)
    requires ProcessFrom(acc, es).Success?
    ensures |ProcessFrom(acc, es).value| == |acc| + ShapedCount(es)
    ensures ProcessFrom(acc, es).value[..|acc|] == acc
    decreases |es|
  {
    if es != [] {
      var r := Shape(es[0]);
      ShapeKinds(es[0]);
      if r.value.Some? {
        ProcessFromCount(acc + [r.value.value], es[1..]);
        assert ProcessFrom(acc, es).value[..|acc| + 1][..|acc|] == acc;
      } else {
        ProcessFromCount(acc, es[1..]);
      }
    }
  }
}
