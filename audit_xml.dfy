/** The read-only audit of the final cleaning script: for every node and
    way it lists the ids of elements carrying a `fixme` sub-tag, collects
    every `addr:street` value into three dictionaries keyed by what the
    three patterns find, and lists the ids of places of worship without a
    religion. Reading an element's `id` fails when it is missing, and that
    failure ends the audit. */
module AuditXml {
  import opened Osm
  import opened AuditPatterns

  /** The three `defaultdict(set)` the audit fills and returns. */
  datatype StreetIndex = StreetIndex(
    types: map<string, set<string>>,
    prefixes: map<string, set<string>>,
    suites: map<string, set<string>>)

  const EmptyIndex := StreetIndex(map[], map[], map[])

  /** One of the three dictionaries. */
  datatype Field = Types | Prefixes | Suites

  function Of(ix: StreetIndex, f: Field): map<string, set<string>>
  {
    match f
    case Types => ix.types
    case Prefixes => ix.prefixes
    case Suites => ix.suites
  }

  /** What the pattern behind each dictionary finds in a street name. */
  function Pattern(f: Field, name: string): Option<string>
  {
    match f
    case Types => TrailingToken(name)
    case Prefixes => LeadingPrefix(name)
    case Suites => SuiteToken(name)
  }

  /** The audit files `name` under `key` in dictionary `f`: the pattern
      finds `key`, and a street type is filed only when unexpected. */
  predicate Listed(f: Field, name: string, key: string)
  {
    Pattern(f, name) == Some(key) && (f != Types || key !in Expected)
  }

  /** `audit_street_type`: one street name, filed in all three dictionaries. */
  function AuditStreetType(ix: StreetIndex, name: string): (r: StreetIndex)
    ensures forall f, k, n :: Recorded(Of(r, f), k, n) <==> Recorded(Of(ix, f), k, n) || (n == name && Listed(f, name, k))
  {
    var r := StreetIndex(
      FindMatch(ix.types, TrailingToken(name), name, true),
      FindMatch(ix.prefixes, LeadingPrefix(name), name, false),
      FindMatch(ix.suites, SuiteToken(name), name, false));
    assert forall f :: Of(r, f) == FindMatch(Of(ix, f), Pattern(f, name), name, f == Types);
    r
  }

  /** The inner loop over an element's sub-tags: every `addr:street` value
      is audited, in order. */
  function AuditStreets(ix: StreetIndex, tags: seq<(string, string)>): StreetIndex
    decreases |tags|
  {
    if tags == [] then ix
    else AuditStreets(if IsStreetName(tags[0]) then AuditStreetType(ix, tags[0].1) else ix, tags[1..])
  }

  predicate IsNodeOrWay(e: Element)
  {
    e.tag == "node" || e.tag == "way"
  }

  // ----- `find_fixme` and `find_religion` -----

  predicate IsFixme(tag: (string, string))
  {
    Lower(tag.0) == "fixme"
  }

  /** The number of sub-tags whose key is `fixme` in any case. */
  function FixmeCount(tags: seq<(string, string)>): nat
  {
    if tags == [] then 0 else FixmeCount(tags[..|tags| - 1]) + (if IsFixme(tags[|tags| - 1]) then 1 else 0)
  }

  /** `n` copies of `x`. */
  function Repeat(x: string, n: nat): (r: seq<string>)
    ensures |r| == n && forall i :: 0 <= i < n ==> r[i] == x
  {
    if n == 0 then [] else Repeat(x, n - 1) + [x]
  }

  /** `find_fixme`: the element's id is appended once per `fixme` sub-tag;
      reading the id fails when there is one and the id is missing. */
  function FindFixmeSpec(e: Element, fixme: seq<string>): Result<seq<string>, Error>
  {
    if FixmeCount(e.tags) == 0 then Success(fixme)
    else if "id" !in e.attrs then Failure(MissingAttribute("id"))
    else Success(fixme + Repeat(e.attrs["id"], FixmeCount(e.tags)))
  }

  predicate IsWorship(tags: seq<(string, string)>)
  {
    exists i :: 0 <= i < |tags| && tags[i].0 == "amenity" && tags[i].1 == "place_of_worship"
  }

  predicate HasReligion(tags: seq<(string, string)>)
  {
    exists i :: 0 <= i < |tags| && tags[i].0 == "religion"
  }

  /** `find_religion`: a place of worship without a `religion` sub-tag has
      its id appended. */
  function FindReligionSpec(e: Element, noReligion: seq<string>): Result<seq<string>, Error>
  {
    if !(IsWorship(e.tags) && !HasReligion(e.tags)) then Success(noReligion)
    else if "id" !in e.attrs then Failure(MissingAttribute("id"))
    else Success(noReligion + [e.attrs["id"]])
  }

  // ----- `audit` -----

  /** The audit's locals: the three dictionaries and the two id lists. */
  datatype AuditState = AuditState(index: StreetIndex, fixme: seq<string>, noReligion: seq<string>)

  const Start := AuditState(EmptyIndex, [], [])

  /** The body of the loop for one parsed element. */
  function AuditElement(st: AuditState, e: Element): Result<AuditState, Error>
  {
    if !IsNodeOrWay(e) then Success(st)
    else
      match FindFixmeSpec(e, st.fixme)
      case Failure(err) => Failure(err)
      case Success(fixme) =>
        match FindReligionSpec(e, st.noReligion)
        case Failure(err) => Failure(err)
        case Success(noReligion) => Success(AuditState(AuditStreets(st.index, e.tags), fixme, noReligion))
  }

  function AuditFrom(st: AuditState, es: seq<Element>): Result<AuditState, Error>
    decreases |es|
  {
    if es == [] then Success(st)
    else
      match AuditElement(st, es[0])
      case Failure(err) => Failure(err)
      case Success(st') => AuditFrom(st', es[1..])
  }

  /** What `audit` returns: the three dictionaries. */
  function IndexOf(r: Result<AuditState, Error>): Result<StreetIndex, Error>
  {
    match r
    case Success(st) => Success(st.index)
    case Failure(err) => Failure(err)
  }

  // ----- The audit as the script runs it -----

  /** `find_fixme`, scanning the sub-tags. */
  method FindFixme(e: Element, fixme: seq<string>) returns (r: Result<seq<string>, Error>)
    ensures r == FindFixmeSpec(e, fixme)
  {
    var ids := fixme;
    var id := if "id" in e.attrs then e.attrs["id"] else "";
    for i := 0 to |e.tags|
      invariant FixmeCount(e.tags[..i]) > 0 ==> "id" in e.attrs
      invariant ids == fixme + Repeat(id, FixmeCount(e.tags[..i]))
    {
      assert e.tags[..i + 1][..i] == e.tags[..i];
      if IsFixme(e.tags[i]) {
        if "id" !in e.attrs {
          assert FixmeCount(e.tags) > 0 by {
            FixmeCountMono(e.tags, i + 1);
          }
          return Failure(MissingAttribute("id"));
        }
        ids := ids + [e.attrs["id"]];
      }
    }
    assert e.tags[..|e.tags|] == e.tags;
    return Success(ids);
  }

  /** `find_religion`: two flags set while scanning the sub-tags. */
  method FindReligion(e: Element, noReligion: seq<string>) returns (r: Result<seq<string>, Error>)
    ensures r == FindReligionSpec(e, noReligion)
  {
    var isPlaceOfWorship := false;
    var hasReligion := false;
    for i := 0 to |e.tags|
      invariant isPlaceOfWorship <==> IsWorship(e.tags[..i])
      invariant hasReligion <==> HasReligion(e.tags[..i])
    {
      var (k, v) := e.tags[i];
      assert e.tags[..i + 1] == e.tags[..i] + [e.tags[i]];
      if k == "amenity" && v == "place_of_worship" {
        isPlaceOfWorship := true;
      }
      if k == "religion" {
        hasReligion := true;
      }
    }
    assert e.tags[..|e.tags|] == e.tags;
    if isPlaceOfWorship && !hasReligion {
      if "id" !in e.attrs {
        return Failure(MissingAttribute("id"));
      }
      return Success(noReligion + [e.attrs["id"]]);
    }
    return Success(noReligion);
  }

  /** `audit`: the loop over the parsed elements. */
  method Audit(elements: seq<Element>) returns (r: Result<StreetIndex, Error>)
    ensures r == IndexOf(AuditFrom(Start, elements))
  {
    var st := Start;
    var i := 0;
    while i < |elements|
      invariant 0 <= i <= |elements|
      invariant AuditFrom(st, elements[i..]) == AuditFrom(Start, elements)
    {
      var e := elements[i];
      assert elements[i..][1..] == elements[i + 1..];
      if IsNodeOrWay(e) {
        var fixme := FindFixme(e, st.fixme);
        if fixme.Failure? {
          return Failure(fixme.error);
        }
        var ix := st.index;
        var j := 0;
        while j < |e.tags|
          invariant 0 <= j <= |e.tags|
          invariant AuditStreets(ix, e.tags[j..]) == AuditStreets(st.index, e.tags)
        {
          assert e.tags[j..][1..] == e.tags[j + 1..];
          if IsStreetName(e.tags[j]) {
            ix := AuditStreetType(ix, e.tags[j].1);
          }
          j := j + 1;
        }
        var noReligion := FindReligion(e, st.noReligion);
        if noReligion.Failure? {
          return Failure(noReligion.error);
        }
        st := AuditState(ix, fixme.value, noReligion.value);
      }
      i := i + 1;
    }
    return Success(st.index);
  }

  // ----- What the audit finds -----

  /** A prefix has no more `fixme` sub-tags than the whole. */
  lemma {:induction false} FixmeCountMono(tags: seq<(string, string)>, i: nat)
    requires i <= |tags|
    ensures FixmeCount(tags[..i]) <= FixmeCount(tags)
    decreases |tags|
  {
    if i < |tags| {
      var init := tags[..|tags| - 1];
      FixmeCountMono(init, i);
      assert init[..i] == tags[..i];
    } else {
      assert tags[..i] == tags;
    }
  }

  /** A street name appears among the `addr:street` values of `tags`. */
  predicate StreetTagged(tags: seq<(string, string)>, name: string)
  {
    exists j :: 0 <= j < |tags| && IsStreetName(tags[j]) && tags[j].1 == name
  }

  /** After the sub-tags, a dictionary holds a name under a key exactly when
      it did before, or the name is an `addr:street` value the pattern
      files under that key. */
  lemma {:induction false} AuditStreetsRecords(ix: StreetIndex, tags: seq<(string, string)>, f: Field, k: string, n: string)
    ensures Recorded(Of(AuditStreets(ix, tags), f), k, n) <==>
            Recorded(Of(ix, f), k, n) || (Listed(f, n, k) && StreetTagged(tags, n))
    decreases |tags|
  {
    if tags != [] {
      var ix' := if IsStreetName(tags[0]) then AuditStreetType(ix, tags[0].1) else ix;
      AuditStreetsRecords(ix', tags[1..], f, k, n);
      if StreetTagged(tags, n) {
        var j :| 0 <= j < |tags| && IsStreetName(tags[j]) && tags[j].1 == n;
        if j > 0 {
          assert tags[1..][j - 1] == tags[j];
        }
      }
      if StreetTagged(tags[1..], n) {
        var j :| 0 <= j < |tags[1..]| && IsStreetName(tags[1..][j]) && tags[1..][j].1 == n;
        assert tags[j + 1] == tags[1..][j];
      }
    }
  }

  /** The street dictionaries over a whole sequence of elements. */
  function StreetsOf(ix: StreetIndex, es: seq<Element>): StreetIndex
    decreases |es|
  {
    if es == [] then ix
    else StreetsOf(if IsNodeOrWay(es[0]) then AuditStreets(ix, es[0].tags) else ix, es[1..])
  }

  /** An element whose id the audit reads. */
  predicate NeedsId(e: Element)
  {
    IsNodeOrWay(e) && (FixmeCount(e.tags) > 0 || (IsWorship(e.tags) && !HasReligion(e.tags)))
  }

  /** The audit fails exactly when a node or way whose id it reads has
      none, and it then reports the missing `id`; otherwise its
      dictionaries are those of every node and way, and the fixme list
      grows by one id per `fixme` sub-tag. */
  lemma {:induction false} AuditOutcome(st: AuditState, es: seq<Element>)
    ensures AuditFrom(st, es).Failure? <==> exists i :: 0 <= i < |es| && NeedsId(es[i]) && "id" !in es[i].attrs
    ensures AuditFrom(st, es).Failure? ==> AuditFrom(st, es).error == MissingAttribute("id")
    ensures AuditFrom(st, es).Success? ==>
              AuditFrom(st, es).value.index == StreetsOf(st.index, es)
              && |AuditFrom(st, es).value.fixme| == |st.fixme| + TotalFixme(es)
    decreases |es|
  {
    if es != [] {
      var e := es[0];
      if IsNodeOrWay(e) && FixmeCount(e.tags) > 0 && "id" in e.attrs {
        assert |FindFixmeSpec(e, st.fixme).value| == |st.fixme| + FixmeCount(e.tags);
      }
      match AuditElement(st, e)
      case Failure(_) =>
        assert NeedsId(es[0]) && "id" !in es[0].attrs;
      case Success(st') =>
        AuditOutcome(st', es[1..]);
        assert !(NeedsId(es[0]) && "id" !in es[0].attrs);
        forall i | 0 < i < |es|
          ensures es[i] == es[1..][i - 1]
        {
        }
    }
  }

  /** The `fixme` sub-tags of all nodes and ways. */
  function TotalFixme(es: seq<Element>): nat
  {
    if es == [] then 0 else (if IsNodeOrWay(es[0]) then FixmeCount(es[0].tags) else 0) + TotalFixme(es[1..])
  }

  /** A street name appears as an `addr:street` value of some node or way. */
  predicate StreetOfSome(es: seq<Element>, name: string)
  {
    exists i :: 0 <= i < |es| && IsNodeOrWay(es[i]) && StreetTagged(es[i].tags, name)
  }

  /** Over the whole input, a dictionary holds a name under a key exactly
      when the name is an `addr:street` value of some node or way and the
      pattern files it under that key. */
  lemma {:induction false} StreetsOfRecords(ix: StreetIndex, es: seq<Element>, f: Field, k: string, n: string)
    ensures Recorded(Of(StreetsOf(ix, es), f), k, n) <==>
            Recorded(Of(ix, f), k, n) || (Listed(f, n, k) && StreetOfSome(es, n))
    decreases |es|
  {
    if es != [] {
      var ix' := if IsNodeOrWay(es[0]) then AuditStreets(ix, es[0].tags) else ix;
      StreetsOfRecords(ix', es[1..], f, k, n);
      if IsNodeOrWay(es[0]) {
        AuditStreetsRecords(ix, es[0].tags, f, k, n);
      }
      if StreetOfSome(es, n) {
        var i :| 0 <= i < |es| && IsNodeOrWay(es[i]) && StreetTagged(es[i].tags, n);
        if i > 0 {
          assert es[1..][i - 1] == es[i];
        }
      }
      if StreetOfSome(es[1..], n) {
        var i :| 0 <= i < |es[1..]| && IsNodeOrWay(es[1..][i]) && StreetTagged(es[1..][i].tags, n);
        assert es[i + 1] == es[1..][i];
      }
    }
  }

  /** A successful audit has filed exactly the street names of the input. */
  lemma AuditRecords(es: seq<Element>, f: Field, k: string, n: string)
    requires AuditFrom(Start, es).Success?
    ensures Recorded(Of(AuditFrom(Start, es).value.index, f), k, n) <==> Listed(f, n, k) && StreetOfSome(es, n)
  {
    AuditOutcome(Start, es);
    StreetsOfRecords(EmptyIndex, es, f, k, n);
  }
}
