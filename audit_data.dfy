/** The course exercise the cleaning script grew from: it collects street
    types and compass prefixes of every `addr:street` value, and rewrites
    an abbreviated street name with `update_name`, which works on
    substrings through Python's `str.find` and `str.replace`. */
module AuditData {
  import opened Osm
  import opened AuditPatterns
  import AuditXml

  // ----- `str.find` and `str.replace` -----

  /** `a` occurs in `s` at `i`. */
  predicate OccursAt(s: string, a: string, i: nat)
  {
    i + |a| <= |s| && s[i..i + |a|] == a
  }

  function FindFrom(s: string, a: string, i: nat): (r: int)
    requires i <= |s| + 1
    ensures r == -1 || (i <= r && OccursAt(s, a, r))
    ensures forall k: nat :: i <= k && (r == -1 || k < r) ==> !OccursAt(s, a, k)
    decreases |s| + 1 - i
  {
    if i + |a| > |s| then -1
    else if s[i..i + |a|] == a then i
    else FindFrom(s, a, i + 1)
  }

  /** `s.find(a)`: the first position where `a` occurs, or -1. */
  function Find(s: string, a: string): (r: int)
    ensures r == -1 <==> forall k: nat :: !OccursAt(s, a, k)
    ensures r != -1 ==> 0 <= r && OccursAt(s, a, r) && forall k: nat :: k < r ==> !OccursAt(s, a, k)
  {
    FindFrom(s, a, 0)
  }

  /** `s.replace(a, b)`: every occurrence of `a`, taken left to right
      without overlap, becomes `b`; an empty `a` puts `b` around every
      character. */
  function Replace(s: string, a: string, b: string): string
    decreases |s|
  {
    if |a| == 0 then (if s == [] then b else b + [s[0]] + Replace(s[1..], a, b))
    else if |s| < |a| then s
    else if s[..|a|] == a then b + Replace(s[|a|..], a, b)
    else [s[0]] + Replace(s[1..], a, b)
  }

  /** Characters before the first character of `a` are kept as they are. */
  lemma {:induction false} ReplaceSkip(p: string, r: string, a: string, b: string)
    requires |a| > 0 && a[0] !in p
    ensures Replace(p + r, a, b) == p + Replace(r, a, b)
    decreases |p|
  {
    if p != [] {
      var s := p + r;
      assert s[0] == p[0] != a[0];
      assert s[1..] == p[1..] + r;
      ReplaceSkip(p[1..], r, a, b);
      if |s| >= |a| {
        assert s[..|a|][0] == s[0];
        calc {
          Replace(s, a, b);
          [s[0]] + Replace(s[1..], a, b);
          [p[0]] + (p[1..] + Replace(r, a, b));
          { assert p == [p[0]] + p[1..]; }
          p + Replace(r, a, b);
        }
      } else {
        assert Replace(s, a, b) == s && Replace(r, a, b) == r;
      }
    } else {
      assert p + r == r;
    }
  }

  /** Replacing what does not occur changes nothing. */
  lemma {:induction false} ReplaceAbsent(s: string, a: string, b: string)
    requires |a| > 0 && Find(s, a) == -1
    ensures Replace(s, a, b) == s
    decreases |s|
  {
    if |s| >= |a| {
      assert !OccursAt(s, a, 0);
      forall k: nat
        ensures !OccursAt(s[1..], a, k)
      {
        assert !OccursAt(s, a, k + 1);
      }
      ReplaceAbsent(s[1..], a, b);
      assert s == [s[0]] + s[1..];
    }
  }

  /** Where the `i`-th copy of `b` starts when an empty pattern is
      replaced: each earlier copy is followed by one character of `s`. */
  function Slot(i: nat, b: string): nat
  {
    i * (|b| + 1)
  }

  /** An empty pattern puts one copy of `b` around every character: the
      result is `b`, `s[0]`, `b`, `s[1]`, ..., `b`. */
  lemma ReplaceEmpty(s: string, b: string)
    ensures |Replace(s, [], b)| == Slot(|s|, b) + |b|
    ensures forall i: nat :: i <= |s| ==>
              Slot(i, b) + |b| <= |Replace(s, [], b)| && Replace(s, [], b)[Slot(i, b)..Slot(i, b) + |b|] == b
    ensures forall i: nat :: i < |s| ==>
              Slot(i, b) + |b| < |Replace(s, [], b)| && Replace(s, [], b)[Slot(i, b) + |b|] == s[i]
  {
    ReplaceEmptyLength(s, b);
    ReplaceEmptyCopies(s, b);
    ReplaceEmptyChars(s, b);
  }

  lemma {:induction false} ReplaceEmptyLength(s: string, b: string)
    ensures |Replace(s, [], b)| == Slot(|s|, b) + |b|
    decreases |s|
  {
    if s == [] {
      assert Slot(0, b) == 0;
    } else {
      ReplaceEmptyLength(s[1..], b);
      SlotStep(|s|, b);
    }
  }

  lemma {:induction false} ReplaceEmptyCopies(s: string, b: string)
    ensures forall i: nat :: i <= |s| ==>
              Slot(i, b) + |b| <= |Replace(s, [], b)| && Replace(s, [], b)[Slot(i, b)..Slot(i, b) + |b|] == b
    decreases |s|
  {
    var r := Replace(s, [], b);
    assert Slot(0, b) == 0;
    if s != [] {
      var r' := Replace(s[1..], [], b);
      ReplaceEmptyCopies(s[1..], b);
      assert r == b + [s[0]] + r';
      forall i: nat | 0 < i <= |s|
        ensures Slot(i, b) + |b| <= |r| && r[Slot(i, b)..Slot(i, b) + |b|] == b
      {
        SlotStep(i, b);
        assert r[Slot(i, b)..Slot(i, b) + |b|] == r'[Slot(i - 1, b)..Slot(i - 1, b) + |b|];
      }
      assert r[..|b|] == b;
    }
  }

  lemma {:induction false} ReplaceEmptyChars(s: string, b: string)
    ensures forall i: nat :: i < |s| ==>
              Slot(i, b) + |b| < |Replace(s, [], b)| && Replace(s, [], b)[Slot(i, b) + |b|] == s[i]
    decreases |s|
  {
    if s != [] {
      var r := Replace(s, [], b);
      var r' := Replace(s[1..], [], b);
      ReplaceEmptyChars(s[1..], b);
      ReplaceEmptyLength(s[1..], b);
      assert r == b + [s[0]] + r';
      assert Slot(0, b) == 0;
      forall i: nat | 0 < i < |s|
        ensures Slot(i, b) + |b| < |r| && r[Slot(i, b) + |b|] == s[i]
      {
        SlotStep(i, b);
        assert r[Slot(i, b) + |b|] == r'[Slot(i - 1, b) + |b|];
      }
    }
  }

  lemma SlotStep(i: nat, b: string)
    requires i > 0
    ensures Slot(i, b) == Slot(i - 1, b) + |b| + 1
  {
  }

  /** The first occurrence lies past a prefix that lacks `a`'s first character. */
  lemma FindSkip(p: string, r: string, a: string)
    requires |a| > 0 && a[0] !in p
    ensures Find(p + r, a) == (if Find(r, a) == -1 then -1 else |p| + Find(r, a))
  {
    var s := p + r;
    forall k: nat | k < |p|
      ensures !OccursAt(s, a, k)
    {
      assert s[k] == p[k];
    }
    forall j: nat
      ensures OccursAt(s, a, |p| + j) <==> OccursAt(r, a, j)
    {
      if j + |a| <= |r| {
        assert s[|p| + j..|p| + j + |a|] == r[j..j + |a|];
      }
    }
    if Find(r, a) != -1 {
      assert OccursAt(s, a, |p| + Find(r, a));
      forall k: nat | k < |p| + Find(r, a)
        ensures !OccursAt(s, a, k)
      {
        if k >= |p| {
          assert !OccursAt(r, a, k - |p|);
        }
      }
    } else {
      forall k: nat
        ensures !OccursAt(s, a, k)
      {
        if k >= |p| {
          assert !OccursAt(r, a, k - |p|);
        }
      }
    }
  }

  // ----- `update_name` -----

  /** The `mapping` dictionary, in the order it is written. */
  const Mapping: seq<(string, string)> :=
    [("St", "Street"), ("St.", "Street"), ("Ave.", "Avenue"), ("Rd.", "Road"), ("Ave", "Avenue"), ("Rd", "Road")]

  /** `update_name` as written: the first abbreviation found anywhere in
      the name is replaced everywhere by its full form; then, unless the
      full form followed by a period sits at the very start, that period
      is dropped. */
  function UpdateFrom(name: string, mapping: seq<(string, string)>): string
  {
    if mapping == [] then name
    else
      var (abbr, full) := mapping[0];
      if Find(name, abbr) >= 0 then
        var n := Replace(name, abbr, full);
        if Find(n, full + ".") != 0 then Replace(n, full + ".", full) else n
      else UpdateFrom(name, mapping[1..])
  }

  /** `update_name` with the period test it evidently means: the period
      after the full form is dropped wherever that form lands. */
  function UpdateFromCorrected(name: string, mapping: seq<(string, string)>): string
  {
    if mapping == [] then name
    else
      var (abbr, full) := mapping[0];
      if Find(name, abbr) >= 0 then Replace(Replace(name, abbr, full), full + ".", full)
      else UpdateFromCorrected(name, mapping[1..])
  }

  /** `update_name`: the loop over the mapping, left at the first match. */
  method UpdateName(name: string, mapping: seq<(string, string)>) returns (r: string)
    ensures r == UpdateFrom(name, mapping)
  {
    r := name;
    var i := 0;
    while i < |mapping|
      invariant 0 <= i <= |mapping|
      invariant r == name
      invariant UpdateFrom(name, mapping[i..]) == UpdateFrom(name, mapping)
    {
      assert mapping[i..][1..] == mapping[i + 1..];
      var (abbr, full) := mapping[i];
      if Find(r, abbr) >= 0 {
        r := Replace(r, abbr, full);
        if Find(r, full + ".") != 0 {
          r := Replace(r, full + ".", full);
        }
        return;
      }
      i := i + 1;
    }
  }

  /** A name holding no abbreviation of the mapping comes back unchanged. */
  lemma {:induction false} UpdateNoMatch(name: string, mapping: seq<(string, string)>)
    requires forall i :: 0 <= i < |mapping| ==> Find(name, mapping[i].0) == -1
    ensures UpdateFrom(name, mapping) == name
    ensures UpdateFromCorrected(name, mapping) == name
  {
    if mapping != [] {
      assert Find(name, mapping[0].0) == -1;
      UpdateNoMatch(name, mapping[1..]);
    }
  }

  /** Every name holding `St.` also holds `St`, which comes first: the
      `St.` entry of the mapping is never used. */
  lemma StDotNeverUsed(name: string)
    ensures UpdateFrom(name, Mapping) == UpdateFrom(name, [Mapping[0]] + Mapping[2..])
  {
    var rest := [Mapping[0]] + Mapping[2..];
    assert rest[1..] == Mapping[2..];
    assert Mapping[1..][1..] == Mapping[2..];
    if Find(name, "St") < 0 {
      if Find(name, "St.") >= 0 {
        var i := Find(name, "St.");
        assert name[i..i + 2] == name[i..i + 3][..2];
        assert OccursAt(name, "St", i);
      }
    }
  }

  /** With `a`'s first character in neither `p` nor `q`, `a` is found
      right after `p`... */
  lemma FindOnly(p: string, a: string, q: string)
    requires |a| > 0 && a[0] !in p && a[0] !in q
    ensures Find(p + a + q, a) == |p|
  {
    var r := a + q;
    assert p + a + q == p + r;
    assert r[..|a|] == a;
    assert OccursAt(r, a, 0);
    FindSkip(p, r, a);
  }

  /** ...and that one occurrence is all that is replaced. */
  lemma ReplaceOnly(p: string, a: string, q: string, b: string)
    requires |a| > 0 && a[0] !in p && a[0] !in q
    ensures Replace(p + a + q, a, b) == p + b + q
  {
    var r := a + q;
    assert p + a + q == p + r;
    assert r[..|a|] == a && r[|a|..] == q;
    ReplaceSkip(p, r, a, b);
    ReplaceSkip(q, [], a, b);
    assert q + [] == q;
  }

  /** `a` does not occur in `x` if it does not start at 0 and its first
      character appears nowhere later. */
  lemma FindNone(x: string, a: string)
    requires |a| > 0 && !OccursAt(x, a, 0) && forall k :: 0 < k < |x| ==> x[k] != a[0]
    ensures Find(x, a) == -1
  {
    forall k: nat | 0 < k
      ensures !OccursAt(x, a, k)
    {
      if k + |a| <= |x| {
        assert x[k..k + |a|][0] == x[k];
      }
    }
  }

  /** `St` is found right after `p` in `p + "St." + q`... */
  lemma FindStDot(p: string, q: string)
    requires 'S' !in p && 'S' !in q
    ensures Find(p + "St." + q, "St") == |p|
  {
    var a, dq := "St", "." + q;
    assert 'S' !in dq;
    FindOnly(p, a, dq);
    assert p + "St." + q == p + a + dq;
  }

  /** ...and expands to `Street.`... */
  lemma ExpandStDot(p: string, q: string)
    requires 'S' !in p && 'S' !in q
    ensures Replace(p + "St." + q, "St", "Street") == p + "Street." + q
  {
    var a, b, dq := "St", "Street", "." + q;
    assert 'S' !in dq;
    ReplaceOnly(p, a, dq, b);
    assert p + "St." + q == p + a + dq;
    assert p + b + dq == p + "Street." + q;
  }

  /** ...where `Street.` is found right after `p`... */
  lemma FindStreetDot(p: string, q: string)
    requires 'S' !in p && 'S' !in q
    ensures Find(p + "Street." + q, "Street.") == |p|
  {
    FindOnly(p, "Street.", q);
  }

  /** ...and becomes `Street`. */
  lemma DropPeriod(p: string, q: string)
    requires 'S' !in p && 'S' !in q
    ensures Replace(p + "Street." + q, "Street.", "Street") == p + "Street" + q
  {
    ReplaceOnly(p, "Street.", q, "Street");
  }

  /** As written, `St.` at the very start of a name keeps its period: the
      test `name.find("Street.")` is false when the match is at index 0. */
  lemma LeadingStDotKeepsPeriod(p: string, q: string)
    requires 'S' !in p && 'S' !in q
    ensures UpdateFrom(p + "St." + q, Mapping) == if p == [] then "Street." + q else p + "Street" + q
  {
    FindStDot(p, q);
    ExpandStDot(p, q);
    FindStreetDot(p, q);
    DropPeriod(p, q);
    assert Mapping[0] == ("St", "Street");
    assert "Street" + "." == "Street.";
  }

  /** Corrected, `St.` becomes `Street` wherever it stands. */
  lemma CorrectedDropsPeriod(p: string, q: string)
    requires 'S' !in p && 'S' !in q
    ensures UpdateFromCorrected(p + "St." + q, Mapping) == p + "Street" + q
  {
    FindStDot(p, q);
    ExpandStDot(p, q);
    FindStreetDot(p, q);
    DropPeriod(p, q);
    assert Mapping[0] == ("St", "Street");
    assert "Street" + "." == "Street.";
  }

  /** A name already spelled out is rewritten too, since `St` occurs in
      `Street`: `p + "Street" + q` becomes `p + "Streetreet" + q`. */
  lemma FullNameExpandedAgain(p: string, q: string)
    requires 'S' !in p && 'S' !in q
    ensures UpdateFrom(p + "Street" + q, Mapping) == p + "Streetreet" + q
  {
    FindStInStreet(p, q);
    var a, rest, b := "St", "reet", "Street";
    assert b == a + rest && 'S' !in rest;
    ExpandWord(p, q, a, rest, b);
    assert p + b + rest + q == p + "Streetreet" + q;
    StreetreetStays(p, q);
    assert Mapping[0] == ("St", "Street");
    assert "Street" + "." == "Street.";
  }

  /** `St` is found at the start of `Street`... */
  lemma FindStInStreet(p: string, q: string)
    requires 'S' !in p && 'S' !in q
    ensures Find(p + "Street" + q, "St") == |p|
  {
    var a, b, rest := "St", "Street", "reet";
    assert a + rest == b && 'S' !in rest && 'S' !in rest + q;
    FindOnly(p, a, rest + q);
    assert p + "Street" + q == p + a + (rest + q);
  }

  /** ...and a word that starts with its own abbreviation expands again:
      `Street` becomes `Streetreet`. */
  lemma ExpandWord(p: string, q: string, a: string, rest: string, b: string)
    requires |a| > 0 && b == a + rest && a[0] !in p && a[0] !in rest && a[0] !in q
    ensures Replace(p + b + q, a, b) == p + b + rest + q
  {
    var rq := rest + q;
    assert a[0] !in rq;
    ReplaceOnly(p, a, rq, b);
    assert p + b + q == p + a + rq;
    assert p + b + rq == p + b + rest + q;
  }

  /** `Street.` does not occur in `p + "Streetreet" + q`, so the period
      fix leaves it as it is. */
  lemma StreetreetStays(p: string, q: string)
    requires 'S' !in p && 'S' !in q
    ensures Find(p + "Streetreet" + q, "Street.") == -1
    ensures Replace(p + "Streetreet" + q, "Street.", "Street") == p + "Streetreet" + q
  {
    var x, d := "Streetreet" + q, "Street.";
    NoStreetDot(x, q);
    FindSkip(p, x, d);
    assert p + x == p + "Streetreet" + q;
    ReplaceAbsent(p + x, d, "Street");
  }

  /** `Street.` does not occur in `Streetreet` followed by text free of `S`. */
  lemma NoStreetDot(x: string, q: string)
    requires 'S' !in q && x == "Streetreet" + q
    ensures Find(x, "Street.") == -1
  {
    var d := "Street.";
    assert x[6] == 'r' != d[6];
    forall k | 0 < k < |x|
      ensures x[k] != d[0]
    {
      if k >= 10 {
        assert x[k] == q[k - 10];
      }
    }
    FindNone(x, d);
  }

  // ----- `audit_street_type` and `audit` -----

  /** `audit_street_type`: the trailing street type, unless expected, and
      the compass prefix, each filed with the name. */
  function AuditStreetType(types: map<string, set<string>>, prefixes: map<string, set<string>>, name: string)
    : (r: (map<string, set<string>>, map<string, set<string>>))
    ensures forall k, n :: Recorded(r.0, k, n) <==> Recorded(types, k, n) || (n == name && AuditXml.Listed(AuditXml.Types, name, k))
    ensures forall k, n :: Recorded(r.1, k, n) <==> Recorded(prefixes, k, n) || (n == name && AuditXml.Listed(AuditXml.Prefixes, name, k))
  {
    (FindMatch(types, TrailingToken(name), name, true), FindMatch(prefixes, LeadingPrefix(name), name, false))
  }

  /** `audit`: every `addr:street` value of every node and way, in order.
      The result is the first two dictionaries of the later audit, so it
      files a name under a key exactly when some node or way carries it. */
  method Audit(elements: seq<Element>) returns (types: map<string, set<string>>, prefixes: map<string, set<string>>)
    ensures var ix := AuditXml.StreetsOf(AuditXml.EmptyIndex, elements);
            types == ix.types && prefixes == ix.prefixes
    ensures forall k, n :: Recorded(types, k, n) <==> AuditXml.Listed(AuditXml.Types, n, k) && AuditXml.StreetOfSome(elements, n)
    ensures forall k, n :: Recorded(prefixes, k, n) <==> AuditXml.Listed(AuditXml.Prefixes, n, k) && AuditXml.StreetOfSome(elements, n)
  {
    types, prefixes := map[], map[];
    ghost var ix := AuditXml.EmptyIndex;
    var i := 0;
    while i < |elements|
      invariant 0 <= i <= |elements|
      invariant ix.types == types && ix.prefixes == prefixes
      invariant AuditXml.StreetsOf(ix, elements[i..]) == AuditXml.StreetsOf(AuditXml.EmptyIndex, elements)
    {
      var e := elements[i];
      assert elements[i..][1..] == elements[i + 1..];
      if e.tag == "node" || e.tag == "way" {
        ghost var ix0 := ix;
        var j := 0;
        while j < |e.tags|
          invariant 0 <= j <= |e.tags|
          invariant ix.types == types && ix.prefixes == prefixes
          invariant AuditXml.AuditStreets(ix, e.tags[j..]) == AuditXml.AuditStreets(ix0, e.tags)
        {
          assert e.tags[j..][1..] == e.tags[j + 1..];
          if IsStreetName(e.tags[j]) {
            var filed := AuditStreetType(types, prefixes, e.tags[j].1);
            types, prefixes := filed.0, filed.1;
            ix := AuditXml.AuditStreetType(ix, e.tags[j].1);
          }
          j := j + 1;
        }
      }
      i := i + 1;
    }
    forall k, n
      ensures Recorded(types, k, n) <==> AuditXml.Listed(AuditXml.Types, n, k) && AuditXml.StreetOfSome(elements, n)
      ensures Recorded(prefixes, k, n) <==> AuditXml.Listed(AuditXml.Prefixes, n, k) && AuditXml.StreetOfSome(elements, n)
    {
      AuditXml.StreetsOfRecords(AuditXml.EmptyIndex, elements, AuditXml.Types, k, n);
      AuditXml.StreetsOfRecords(AuditXml.EmptyIndex, elements, AuditXml.Prefixes, k, n);
    }
  }
}
