/** The fixed patterns of the audit scripts, each computed by a scan and
    tied by a lemma to the match the pattern describes:
    - `\b(\S+\.?)$`, the trailing street type;
    - `^([SENW]\.?)\s+` under `re.IGNORECASE`, the leading compass prefix;
    - `\b(ste\.?)\s\d+$` under `re.IGNORECASE`, the abbreviated suite;
    together with the `expected` street types, the `defaultdict(set)` update
    the audits share, and `is_street_name`. */
module AuditPatterns {
  import opened Osm

  /** The last position where `$` matches: the end, or just before a final
      newline. */
  function EndOf(s: string): (e: nat)
    ensures e <= |s|
  {
    if |s| > 0 && s[|s| - 1] == '\n' then |s| - 1 else |s|
  }

  predicate NoSpace(s: string, i: nat, j: nat)
    requires i <= j <= |s|
  {
    forall k :: i <= k < j ==> !IsSpace(s[k])
  }

  predicate AllDigits(s: string, i: nat, j: nat)
    requires i <= j <= |s|
  {
    forall k :: i <= k < j ==> IsDigit(s[k])
  }

  // ----- `\b(\S+\.?)$` -----

  /** The pattern matches from `i`: a word boundary, then non-space
      characters up to where `$` matches. `\S` takes any period, so the
      optional `\.` adds nothing. */
  predicate TypeMatchAt(s: string, i: nat)
  {
    i < EndOf(s) && IsBoundary(s, i) && NoSpace(s, i, EndOf(s))
  }

  /** The start of the run of non-space characters that ends at `e`. */
  function RunStart(s: string, e: nat): (l: nat)
    requires e <= |s|
    ensures l <= e && NoSpace(s, l, e)
    ensures l == 0 || IsSpace(s[l - 1])
    decreases e
  {
    if e == 0 || IsSpace(s[e - 1]) then e else RunStart(s, e - 1)
  }

  /** The first word boundary in `[i, e)`. */
  function FirstBoundary(s: string, i: nat, e: nat): (r: Option<nat>)
    requires i <= e <= |s|
    ensures r.Some? ==> i <= r.value < e && IsBoundary(s, r.value)
    ensures forall k :: i <= k < (if r.Some? then r.value else e) ==> !IsBoundary(s, k)
    decreases e - i
  {
    if i == e then None
    else if IsBoundary(s, i) then Some(i)
    else FirstBoundary(s, i + 1, e)
  }

  /** `street_type_re.search(name)`, its group: the last run of non-space
      characters, from its first word boundary on. */
  function TrailingToken(s: string): Option<string>
  {
    var e := EndOf(s);
    match FirstBoundary(s, RunStart(s, e), e)
    case None => None
    case Some(i) => Some(s[i..e])
  }

  /** The scan finds the leftmost match, and a match whenever there is one. */
  lemma TrailingTokenLeftmost(s: string)
    ensures TrailingToken(s).Some? <==> exists i: nat :: TypeMatchAt(s, i)
    ensures TrailingToken(s).Some? ==>
              exists i: nat :: TypeMatchAt(s, i) && TrailingToken(s).value == s[i..EndOf(s)]
                               && forall k: nat :: k < i ==> !TypeMatchAt(s, k)
  {
    var e := EndOf(s);
    var l := RunStart(s, e);
    var r := FirstBoundary(s, l, e);
    forall k: nat | k < l
      ensures !TypeMatchAt(s, k)
    {
      if k < e {
        assert !NoSpace(s, k, e) by {
          assert IsSpace(s[l - 1]);
        }
      }
    }
    if r.Some? {
      assert TypeMatchAt(s, r.value);
    } else {
      forall k: nat
        ensures !TypeMatchAt(s, k)
      {
        if l <= k < e {
          assert !IsBoundary(s, k);
        }
      }
    }
  }

  // ----- `^([SENW]\.?)\s+` -----

  /** `[SENW]` under `re.IGNORECASE`. */
  predicate IsCompassLetter(c: char)
  {
    c == 'S' || c == 'E' || c == 'N' || c == 'W' || c == 's' || c == 'e' || c == 'n' || c == 'w'
  }

  /** `street_pre_re.search(name)`, its group: the letter, with a period
      when one follows, provided whitespace comes next. */
  function LeadingPrefix(s: string): Option<string>
  {
    if |s| >= 2 && IsCompassLetter(s[0]) && IsSpace(s[1]) then Some(s[..1])
    else if |s| >= 3 && IsCompassLetter(s[0]) && s[1] == '.' && IsSpace(s[2]) then Some(s[..2])
    else None
  }

  /** The pattern matches at the start with group `g`. */
  predicate PrefixMatch(s: string, g: string)
  {
    && 1 <= |g| <= 2 && IsCompassLetter(g[0]) && (|g| == 2 ==> g[1] == '.')
    && |g| < |s| && s[..|g|] == g && IsSpace(s[|g|])
  }

  lemma LeadingPrefixMatches(s: string, g: string)
    ensures LeadingPrefix(s) == Some(g) <==> PrefixMatch(s, g)
  {
    if PrefixMatch(s, g) {
      if |g| == 2 {
        assert s[1] == '.' && !IsSpace(s[1]);
      }
    }
  }

  // ----- `\b(ste\.?)\s\d+$` -----

  /** The start of the run of digits that ends at `e`. */
  function DigitRunStart(s: string, e: nat): (l: nat)
    requires e <= |s|
    ensures l <= e && AllDigits(s, l, e)
    ensures l == 0 || !IsDigit(s[l - 1])
    decreases e
  {
    if e == 0 || !IsDigit(s[e - 1]) then e else DigitRunStart(s, e - 1)
  }

  /** A run of digits bounded by a non-digit is the one the scan finds. */
  lemma {:induction false} DigitRunStartIs(s: string, e: nat, l: nat)
    requires l <= e <= |s| && AllDigits(s, l, e) && (l == 0 || !IsDigit(s[l - 1]))
    ensures DigitRunStart(s, e) == l
    decreases e
  {
    if e > l {
      DigitRunStartIs(s, e - 1, l);
    }
  }

  /** `ste` under `re.IGNORECASE`, at `i`. */
  predicate SteAt(s: string, i: nat)
  {
    i + 3 <= |s| && LowerChar(s[i]) == 's' && LowerChar(s[i + 1]) == 't' && LowerChar(s[i + 2]) == 'e'
  }

  /** The suite pattern matches from `i` with its group ending at `j`. */
  predicate SuiteAt(s: string, i: nat, j: nat)
  {
    && (j == i + 3 || j == i + 4)
    && j + 1 < EndOf(s)
    && (j == i + 4 ==> s[i + 3] == '.')
    && IsBoundary(s, i)
    && SteAt(s, i)
    && IsSpace(s[j])
    && AllDigits(s, j + 1, EndOf(s))
  }

  /** `suite_re.search(name)`, its group: found by reading the digits back
      from the end, then one whitespace character, then `ste` or `ste.`. */
  function SuiteToken(s: string): Option<string>
  {
    var e := EndOf(s);
    var d := DigitRunStart(s, e);
    if d == e || d == 0 || !IsSpace(s[d - 1]) then None
    else
      var p := d - 1;
      if p >= 4 && s[p - 1] == '.' && IsBoundary(s, p - 4) && SteAt(s, p - 4) then
        Some(s[p - 4..p])
      else if p >= 3 && IsBoundary(s, p - 3) && SteAt(s, p - 3) then
        Some(s[p - 3..p])
      else None
  }

  /** Every match is the one the scan finds. */
  lemma SuiteTokenFindsMatch(s: string, i: nat, j: nat)
    requires SuiteAt(s, i, j)
    ensures SuiteToken(s) == Some(s[i..j])
  {
    DigitRunStartIs(s, EndOf(s), j + 1);
  }

  /** What the scan finds is a match. */
  lemma SuiteTokenIsMatch(s: string)
    requires SuiteToken(s).Some?
    ensures exists i: nat, j: nat :: SuiteAt(s, i, j) && SuiteToken(s).value == s[i..j]
  {
    var p := DigitRunStart(s, EndOf(s)) - 1;
    if p >= 4 && s[p - 1] == '.' && IsBoundary(s, p - 4) && SteAt(s, p - 4) {
      assert SuiteAt(s, p - 4, p);
    } else {
      assert SuiteAt(s, p - 3, p);
    }
  }

  /** The scan's group is the group of a match, and every match is found.
      A match is unique, so it is also the leftmost. */
  lemma SuiteTokenMatches(s: string, g: string)
    ensures SuiteToken(s) == Some(g) <==> exists i: nat, j: nat :: SuiteAt(s, i, j) && g == s[i..j]
  {
    if exists i: nat, j: nat :: SuiteAt(s, i, j) && g == s[i..j] {
      var i: nat, j: nat :| SuiteAt(s, i, j) && g == s[i..j];
      SuiteTokenFindsMatch(s, i, j);
    }
    if SuiteToken(s) == Some(g) {
      SuiteTokenIsMatch(s);
    }
  }

  // ----- The audit records -----

  /** The street types an audit accepts as they are. */
  const Expected: seq<string> :=
    ["Street", "Avenue", "Boulevard", "Drive", "Court", "Place", "Square", "Lane", "Road",
     "Trail", "Parkway", "Commons"]

  /** `outdict[key].add(name)` on a `defaultdict(set)`. */
  function AddTo(m: map<string, set<string>>, key: string, name: string): map<string, set<string>>
  {
    m[key := (if key in m then m[key] else {}) + {name}]
  }

  /** Adding a name touches only its key's set, which gains the name and
      keeps what it had; adding it again changes nothing. */
  lemma AddToFacts(m: map<string, set<string>>, key: string, name: string)
    ensures AddTo(m, key, name).Keys == m.Keys + {key}
    ensures name in AddTo(m, key, name)[key]
    ensures key in m ==> AddTo(m, key, name)[key] == m[key] + {name}
    ensures forall k :: k in m && k != key ==> AddTo(m, key, name)[k] == m[k]
    ensures AddTo(AddTo(m, key, name), key, name) == AddTo(m, key, name)
  {
  }

  /** The order of additions does not matter. */
  lemma AddToCommutes(m: map<string, set<string>>, key: string, name: string, key2: string, name2: string)
    ensures AddTo(AddTo(m, key, name), key2, name2) == AddTo(AddTo(m, key2, name2), key, name)
  {
    var a := AddTo(AddTo(m, key, name), key2, name2);
    var b := AddTo(AddTo(m, key2, name2), key, name);
    assert a.Keys == b.Keys;
    forall k | k in a
      ensures a[k] == b[k]
    {
    }
  }

  /** `name` is recorded under `key`. */
  predicate Recorded(m: map<string, set<string>>, key: string, name: string)
  {
    key in m && name in m[key]
  }

  /** `find_match`: record the name under the group, if the pattern matched
      and, for street types, the group is not an expected type. */
  function FindMatch(m: map<string, set<string>>, g: Option<string>, name: string, streetType: bool)
    : (r: map<string, set<string>>)
    ensures r.Keys <= m.Keys + (if g.Some? then {g.value} else {})
    ensures forall k, n :: Recorded(r, k, n) <==>
              Recorded(m, k, n) || (n == name && g == Some(k) && (!streetType || k !in Expected))
  {
    if g.Some? && (!streetType || g.value !in Expected) then AddTo(m, g.value, name) else m
  }

  /** `is_street_name`: the sub-tag's key is exactly `addr:street`. */
  predicate IsStreetName(tag: (string, string))
  {
    tag.0 == "addr:street"
  }

  /** The sub-tags the audits look at are exactly those whose value the
      cleaning pass normalises. */
  lemma StreetNameIsStreetKey(tag: (string, string))
    ensures IsStreetName(tag) <==> ClassifyKey(tag.0) == Address("street")
  {
    StreetKey(tag.0);
  }
}
