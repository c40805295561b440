/** Shared vocabulary of the OpenStreetMap shaping scripts: the element read
    from the map file, the document written for it, the error cases, the
    character classes of Python's `re` patterns, and the key-path rules that
    both versions of `shape_element` apply to a sub-tag key. */
module Osm {

  datatype Option<+T> = None | Some(value: T)

  datatype Result<+T, +E> = Success(value: T) | Failure(error: E)

  /** The exceptions the scripts can raise while shaping. */
  datatype Error =
    | MissingAttribute(name: string)  // `element.attrib[name]` raises KeyError
    | NotADict(field: string)         // item assignment into a field holding a string

  /** One parsed XML element: its tag, its attributes, its `tag` children as
      (k, v) pairs in document order, and the `ref` of its `nd` children. */
  datatype Element = Element(
    tag: string,
    attrs: map<string, string>,
    tags: seq<(string, string)>,
    refs: seq<string>)

  /** A value stored in a shaped document. `Pos` stands for `[float(lat),
      float(lon)]` and `Coord` for one `float(...)` bound: the parsed numbers
      are kept as the attribute text they were parsed from. */
  datatype Value =
    | Str(s: string)
    | Null
    | Dict(entries: map<string, string>)
    | List(items: seq<string>)
    | Pos(lat: string, lon: string)
    | Coord(text: string)

  /** A shaped document: the Python dict returned by `shape_element`. */
  type Doc = map<string, Value>

  function Get(m: map<string, nat>, k: string): nat
  {
    if k in m then m[k] else 0
  }

  // ----- Character classes (ASCII for \w, \d and case folding) -----

  predicate IsLetter(c: char) { 'a' <= c <= 'z' || 'A' <= c <= 'Z' }

  predicate IsDigit(c: char) { '0' <= c <= '9' }

  /** `\w`: a letter, a digit or the underscore. */
  predicate IsWordChar(c: char) { IsLetter(c) || IsDigit(c) || c == '_' }

  /** `\s` on a Python `str`: every code point for which `str.isspace` holds. */
  predicate IsSpace(c: char)
  {
    || '\t' <= c <= '\r' || '\U{1C}' <= c <= '\U{1F}' || c == ' '
    || c == '\U{85}' || c == '\U{A0}' || c == '\U{1680}'
    || '\U{2000}' <= c <= '\U{200A}' || c == '\U{2028}' || c == '\U{2029}'
    || c == '\U{202F}' || c == '\U{205F}' || c == '\U{3000}'
  }

  function LowerChar(c: char): char
  {
    if 'A' <= c <= 'Z' then (c as int + 32) as char else c
  }

  function UpperChar(c: char): char
  {
    if 'a' <= c <= 'z' then (c as int - 32) as char else c
  }

  /** `str.lower()` */
  function Lower(s: string): (r: string)
    ensures |r| == |s|
  {
    seq(|s|, i requires 0 <= i < |s| => LowerChar(s[i]))
  }

  /** `str.upper()` */
  function Upper(s: string): (r: string)
    ensures |r| == |s|
  {
    seq(|s|, i requires 0 <= i < |s| => UpperChar(s[i]))
  }

  /** For a word in lower-case letters, upper-casing a string gives the
      word's upper case exactly when lower-casing it gives the word. */
  lemma CaseAgree(k: string, w: string)
    requires forall j :: 0 <= j < |w| ==> 'a' <= w[j] <= 'z'
    ensures Upper(k) == Upper(w) <==> Lower(k) == w
  {
    if Lower(k) == w {
      assert forall j :: 0 <= j < |k| ==> Upper(k)[j] == Upper(w)[j];
    }
    if Upper(k) == Upper(w) {
      assert forall j :: 0 <= j < |k| ==> Lower(k)[j] == w[j] by {
        forall j | 0 <= j < |k|
          ensures Lower(k)[j] == w[j]
        {
          assert |Upper(k)| == |k| == |w|;
          assert Upper(k)[j] == Upper(w)[j];
        }
      }
    }
  }

  /** Two strings agree under `re.IGNORECASE`. */
  predicate CiEqual(a: string, b: string)
  {
    |a| == |b| && forall j :: 0 <= j < |a| ==> LowerChar(a[j]) == LowerChar(b[j])
  }

  /** A character matching a word character case-insensitively is one. */
  lemma CiWordChar(c: char, w: char)
    requires IsWordChar(w) && LowerChar(c) == LowerChar(w)
    ensures IsWordChar(c)
  {
  }

  /** A word character at position `i` (false outside the string). */
  predicate WordAt(s: string, i: int)
  {
    0 <= i < |s| && IsWordChar(s[i])
  }

  /** `\b` at position `i` of `s`. */
  predicate IsBoundary(s: string, i: int)
  {
    WordAt(s, i - 1) != WordAt(s, i)
  }

  /** The class `[=\+/&<>;\'"\?%#$@,\. \t\r\n]` of characters a key must not hold. */
  predicate IsProblemChar(c: char)
  {
    c in "=+/&<>;'\"?%#$@,. \t\r\n"
  }

  predicate HasProblemChar(k: string)
  {
    exists i :: 0 <= i < |k| && IsProblemChar(k[i])
  }

  predicate StartsWith(s: string, p: string)
  {
    |p| <= |s| && s[..|p|] == p
  }

  // ----- str.split and str.join -----

  /** `s.split(sep)` for a one-character separator: the pieces between
      separators, empty pieces kept. */
  function Split(s: string, sep: char): (parts: seq<string>)
    ensures |parts| >= 1
    decreases |s|
  {
    if s == [] then [""]
    else
      var rest := Split(s[1..], sep);
      if s[0] == sep then [""] + rest else [[s[0]] + rest[0]] + rest[1..]
  }

  /** `sep.join(parts)` */
  function Join(parts: seq<string>, sep: string): string
    requires |parts| >= 1
    decreases |parts|
  {
    if |parts| == 1 then parts[0] else parts[0] + sep + Join(parts[1..], sep)
  }

  /** `s` with every `from` character replaced by `to`. */
  function ReplaceChar(s: string, from: char, to: char): (r: string)
    ensures |r| == |s|
  {
    seq(|s|, i requires 0 <= i < |s| => if s[i] == from then to else s[i])
  }

  /** Joining the pieces of a split with another one-character separator
      replaces the separator; joining with the same one gives `s` back. */
  lemma {:induction false} JoinSplit(s: string, sep: char, glue: char)
    ensures Join(Split(s, sep), [glue]) == ReplaceChar(s, sep, glue)
    decreases |s|
  {
    if s != [] {
      var rest := Split(s[1..], sep);
      JoinSplit(s[1..], sep, glue);
      assert ReplaceChar(s, sep, glue) == [if s[0] == sep then glue else s[0]] + ReplaceChar(s[1..], sep, glue);
      if s[0] != sep {
        if |rest| == 1 {
          assert Split(s, sep) == [[s[0]] + rest[0]];
        } else {
          assert Split(s, sep)[1..] == rest[1..];
          assert Join(rest, [glue]) == rest[0] + [glue] + Join(rest[1..], [glue]);
        }
      }
    }
  }

  lemma SplitRoundTrip(s: string, sep: char)
    ensures Join(Split(s, sep), [sep]) == s
  {
    JoinSplit(s, sep, sep);
    assert ReplaceChar(s, sep, sep) == s;
  }

  /** Split yields one piece exactly when the separator does not occur. */
  lemma {:induction false} SplitSingle(s: string, sep: char)
    ensures |Split(s, sep)| == 1 <==> sep !in s
    ensures sep !in s ==> Split(s, sep) == [s]
    decreases |s|
  {
    if s != [] {
      SplitSingle(s[1..], sep);
      assert s == [s[0]] + s[1..];
    }
  }

  /** A prefix free of the separator becomes the first piece. */
  lemma {:induction false} SplitPrefix(p: string, sep: char, r: string)
    requires sep !in p
    ensures Split(p + [sep] + r, sep) == [p] + Split(r, sep)
    decreases |p|
  {
    if p == [] {
      assert p + [sep] + r == [sep] + r;
    } else {
      assert (p + [sep] + r)[1..] == p[1..] + [sep] + r;
      SplitPrefix(p[1..], sep, r);
      assert [p[0]] + p[1..] == p;
    }
  }

  /** The attributes collected under `created`, in lookup order (the same list in both versions). */
  const CreatedKeys: seq<string> := ["version", "changeset", "timestamp", "user", "uid"]

  /** The `ref` of every `nd` child of a way, in document order (the same loop in both versions). */
  method NodeRefs(refs: seq<string>) returns (nodeRefs: seq<string>)
    ensures nodeRefs == refs
  {
    nodeRefs := [];
    for j := 0 to |refs|
      invariant nodeRefs == refs[..j]
    {
      nodeRefs := nodeRefs + [refs[j]];
    }
  }

  // ----- Position -----

  /** `get_lat_lon` (the same in both versions): the position is kept only when both `lat` and `lon`
      are present and non-empty. */
  function LatLon(attrs: map<string, string>): (p: Option<Value>)
    ensures p.Some? <==> "lat" in attrs && "lon" in attrs && attrs["lat"] != "" && attrs["lon"] != ""
    ensures p.Some? ==> p.value == Pos(attrs["lat"], attrs["lon"])
  {
    if "lat" in attrs && "lon" in attrs && attrs["lat"] != "" && attrs["lon"] != "" then
      Some(Pos(attrs["lat"], attrs["lon"]))
    else None
  }

  // ----- Key paths -----

  /** Where a sub-tag `k` ends up in the shaped document. */
  datatype KeyPath =
    | Dropped                   // problem characters, or `addr:street:...`
    | Single(name: string)      // one segment: a top-level field
    | Address(field: string)    // `addr:X`: the entry X of `address`
    | Merged(name: string)      // several segments joined with `_`

  /** The branches of `shape_element` on `k.split(':')`. */
  function ClassifyKey(k: string): (p: KeyPath)
    ensures HasProblemChar(k) ==> p == Dropped
    ensures !HasProblemChar(k) && ':' !in k ==> p == Single(k)
    ensures !HasProblemChar(k) && StartsWith(k, "addr:") && ':' !in k[5..] ==> p == Address(k[5..])
    ensures StartsWith(k, "addr:street:") ==> p == Dropped
    ensures !HasProblemChar(k) && ':' in k && !StartsWith(k, "addr:") ==> p == Merged(ReplaceChar(k, ':', '_'))
    ensures (!HasProblemChar(k) && StartsWith(k, "addr:") && ':' in k[5..] && !StartsWith(k, "addr:street:"))
              ==> p == Merged(ReplaceChar(k, ':', '_'))
  {
    ClassifyKeyFacts(k);
    if HasProblemChar(k) then Dropped
    else
      var keys := Split(k, ':');
      if |keys| == 1 then Single(keys[0])
      else if |keys| == 2 && keys[0] == "addr" then Address(keys[1])
      else if |keys| > 2 && keys[0] == "addr" && keys[1] == "street" then Dropped
      else Merged(Join(keys, "_"))
  }

  /** The shape of `k.split(':')` in terms of the text of `k`. */
  lemma ClassifyKeyFacts(k: string)
    ensures ':' !in k ==> Split(k, ':') == [k]
    ensures ':' in k ==> |Split(k, ':')| > 1
    ensures Join(Split(k, ':'), "_") == ReplaceChar(k, ':', '_')
    ensures StartsWith(k, "addr:") <==> |Split(k, ':')| > 1 && Split(k, ':')[0] == "addr"
    ensures StartsWith(k, "addr:") ==>
              (|Split(k, ':')| == 2 <==> ':' !in k[5..]) &&
              (':' !in k[5..] ==> |Split(k, ':')| == 2 && Split(k, ':')[1] == k[5..])
    ensures StartsWith(k, "addr:street:") <==>
              |Split(k, ':')| > 2 && Split(k, ':')[0] == "addr" && Split(k, ':')[1] == "street"
  {
    SplitSingle(k, ':');
    JoinSplit(k, ':', '_');
    AddrPrefix(k);
    if StartsWith(k, "addr:") {
      AddrKeyFacts(k);
    } else if |k| >= 12 {
      assert k[..5] == k[..12][..5];
    }
  }

  lemma AddrPrefix(k: string)
    ensures StartsWith(k, "addr:") <==> |Split(k, ':')| > 1 && Split(k, ':')[0] == "addr"
  {
    assert "addr" + [':'] == "addr:";
    FirstPiece(k, "addr", ':');
  }

  lemma AddrKeyFacts(k: string)
    requires StartsWith(k, "addr:")
    ensures |Split(k, ':')| == 2 <==> ':' !in k[5..]
    ensures ':' !in k[5..] ==> |Split(k, ':')| == 2 && Split(k, ':')[1] == k[5..]
    ensures StartsWith(k, "addr:street:") <==>
              |Split(k, ':')| > 2 && Split(k, ':')[1] == "street"
  {
    AddrSplit(k);
    SplitSingle(k[5..], ':');
    AddrStreetSplit(k);
  }

  lemma AddrSplit(k: string)
    requires StartsWith(k, "addr:")
    ensures Split(k, ':') == ["addr"] + Split(k[5..], ':')
  {
    assert "addr" + [':'] == "addr:";
    FirstPiece(k, "addr", ':');
  }

  lemma AddrStreetSplit(k: string)
    requires StartsWith(k, "addr:")
    ensures StartsWith(k, "addr:street:") <==>
              |Split(k, ':')| > 2 && Split(k, ':')[1] == "street"
  {
    var r := k[5..];
    AddrSplit(k);
    assert "street" + [':'] == "street:";
    FirstPiece(r, "street", ':');
    if |k| >= 12 {
      assert k[..12] == k[..5] + r[..7];
    }
  }

  /** A split starts with the piece `p` exactly when `s` starts with `p`
      and a separator (for `p` free of separators). */
  lemma FirstPiece(s: string, p: string, sep: char)
    requires sep !in p
    ensures StartsWith(s, p + [sep]) <==> |Split(s, sep)| > 1 && Split(s, sep)[0] == p
    ensures StartsWith(s, p + [sep]) ==> Split(s, sep) == [p] + Split(s[|p| + 1..], sep)
  {
    if StartsWith(s, p + [sep]) {
      assert s == p + [sep] + s[|p| + 1..];
      SplitPrefix(p, sep, s[|p| + 1..]);
    }
    if |Split(s, sep)| > 1 && Split(s, sep)[0] == p {
      SplitFirstPiece(s, sep);
      assert s[..|p| + 1] == p + [sep];
    }
  }

  /** When there are several pieces, the first is followed by a separator. */
  lemma {:induction false} SplitFirstPiece(s: string, sep: char)
    requires |Split(s, sep)| > 1
    ensures |Split(s, sep)[0]| < |s| && s[|Split(s, sep)[0]|] == sep
    ensures s[..|Split(s, sep)[0]|] == Split(s, sep)[0]
    decreases |s|
  {
    if s[0] != sep {
      SplitFirstPiece(s[1..], sep);
    }
  }

  /** A key names the street of the address exactly when it is `addr:street`. */
  lemma StreetKey(k: string)
    ensures ClassifyKey(k) == Address("street") <==> k == "addr:street"
  {
    if k == "addr:street" {
      StreetKeyClean(k);
    }
    if ClassifyKey(k) == Address("street") {
      var keys := Split(k, ':');
      SplitRoundTrip(k, ':');
      assert Join(keys, [':']) == keys[0] + [':'] + keys[1];
    }
  }

  /** `addr:f` for a clean, colon-free `f` is the address entry `f`. */
  lemma AddressKey(f: string)
    requires ':' !in f && !HasProblemChar(f)
    ensures ClassifyKey("addr:" + f) == Address(f)
  {
    var k := "addr:" + f;
    forall i | 0 <= i < |k|
      ensures !IsProblemChar(k[i])
    {
      if i >= 5 {
        assert k[i] == f[i - 5];
      }
    }
    assert k[..5] == "addr:" && k[5..] == f;
  }

  lemma StreetKeyClean(k: string)
    requires k == "addr:street"
    ensures ClassifyKey(k) == Address("street")
  {
    var f := "street";
    StreetFieldClean(f);
    AddressKey(f);
    assert k == "addr:" + f;
  }

  lemma StreetFieldClean(f: string)
    requires f == "street"
    ensures ':' !in f && !HasProblemChar(f)
  {
    forall i | 0 <= i < |f|
      ensures !IsProblemChar(f[i]) && f[i] != ':'
    {
    }
  }

  /** `node["address"][field] = v` on a `defaultdict(dict)`: creates the
      nested dict when absent, fails when the field holds a non-dict, and
      otherwise keeps every other entry of the address and of the document. */
  function SetAddress(doc: Doc, field: string, v: string): (r: Result<Doc, Error>)
    ensures r.Success? <==> "address" !in doc || doc["address"].Dict?
    ensures r.Success? ==> r.value.Keys == doc.Keys + {"address"}
    ensures r.Success? ==> r.value["address"].Dict? && field in r.value["address"].entries
                           && r.value["address"].entries[field] == v
    ensures r.Success? ==> forall f :: f in doc && f != "address" ==> r.value[f] == doc[f]
    ensures r.Success? && "address" in doc ==>
              r.value["address"].entries.Keys == doc["address"].entries.Keys + {field} &&
              forall g :: g in doc["address"].entries && g != field ==>
                r.value["address"].entries[g] == doc["address"].entries[g]
    ensures r.Success? && "address" !in doc ==> r.value["address"].entries.Keys == {field}
  {
    if "address" !in doc then Success(doc["address" := Dict(map[field := v])])
    else
      match doc["address"]
      case Dict(m) => Success(doc["address" := Dict(m[field := v])])
      case _ => Failure(NotADict("address"))
  }
}
