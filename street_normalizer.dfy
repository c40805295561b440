/** The street-name normaliser of `CleanXML.fix_street`: every period is
    deleted, then the first prefix rule that matches is applied, then the
    first street-type rule that matches.

    A rule is a regular expression `\b(?:t1|...|tn)\b` compiled with
    `re.IGNORECASE`, where every `ti` is a word. Such a pattern matches
    exactly the maximal runs of word characters that equal one of the `ti`
    ignoring case: `\b` before a word character means the run starts there,
    and `\b` after the last character of `ti` means the run ends there. So a
    street name is cut into pieces (maximal word runs and single other
    characters), `search` asks whether some word piece is a hit, and `subn`
    replaces every hit by the rule's full word and counts them.
    `RegexOccurs` states the same test position by position, and
    `OccursIffRegex` proves the two agree. */
module StreetNormalizer {
  import opened Osm

  /** A compiled pattern `\b(?:tokens[0]|tokens[1]|...)\b` and its replacement. */
  datatype Rule = Rule(tokens: seq<string>, full: string)

  /** `street_prefixes_re`, in declaration order. */
  const PrefixRules: seq<Rule> := [
    Rule(["S"], "South"),
    Rule(["E"], "East"),
    Rule(["N"], "North"),
    Rule(["W"], "West")
  ]

  /** `street_types_re`, in declaration order; `[rR]d` under `re.I` is `rd`. */
  const TypeRules: seq<Rule> := [
    Rule(["Ct"], "Court"),
    Rule(["Rd", "Raod"], "Road"),
    Rule(["Strret", "Streer", "St"], "Street"),
    Rule(["Pl"], "Place"),
    Rule(["Pkwy"], "Parkway"),
    Rule(["Ln"], "Lane"),
    Rule(["Dr"], "Drive"),
    Rule(["Cir"], "Circle"),
    Rule(["Blvd"], "Boulevard"),
    Rule(["Ave"], "Avenue")
  ]

  /** A non-empty run of word characters. */
  predicate IsWord(t: string)
  {
    |t| > 0 && forall j :: 0 <= j < |t| ==> IsWordChar(t[j])
  }

  predicate ValidRule(r: Rule)
  {
    (forall t :: t in r.tokens ==> IsWord(t)) && IsWord(r.full)
  }

  predicate ValidRules(rules: seq<Rule>)
  {
    forall i :: 0 <= i < |rules| ==> ValidRule(rules[i])
  }

  // ----- Pieces of a street name -----

  datatype Piece = Word(w: string) | Other(c: char)

  function Text(p: Piece): string
  {
    match p
    case Word(w) => w
    case Other(c) => [c]
  }

  function Flatten(ps: seq<Piece>): string
  {
    if ps == [] then "" else Text(ps[0]) + Flatten(ps[1..])
  }

  /** The length of the run of word characters that starts `s`. */
  function WordRun(s: string): (n: nat)
    ensures n <= |s|
    ensures forall j :: 0 <= j < n ==> IsWordChar(s[j])
    ensures n < |s| ==> !IsWordChar(s[n])
  {
    if s == [] || !IsWordChar(s[0]) then 0 else 1 + WordRun(s[1..])
  }

  /** `s` cut into maximal word runs and single other characters. */
  function Tokenize(s: string): seq<Piece>
    decreases |s|
  {
    if s == [] then []
    else if !IsWordChar(s[0]) then [Other(s[0])] + Tokenize(s[1..])
    else
      var n := WordRun(s);
      [Word(s[..n])] + Tokenize(s[n..])
  }

  /** Word pieces are words never followed by another word piece; other
      pieces are non-word characters. */
  predicate WellFormed(ps: seq<Piece>)
  {
    forall i :: 0 <= i < |ps| ==> PieceOk(ps, i)
  }

  predicate PieceOk(ps: seq<Piece>, i: nat)
    requires i < |ps|
  {
    match ps[i]
    case Word(w) => IsWord(w) && (i + 1 < |ps| ==> ps[i + 1].Other?)
    case Other(c) => !IsWordChar(c)
  }

  lemma {:induction false} TokenizeSound(s: string)
    ensures WellFormed(Tokenize(s)) && Flatten(Tokenize(s)) == s
    decreases |s|
  {
    if s != [] {
      if !IsWordChar(s[0]) {
        var rest := Tokenize(s[1..]);
        TokenizeSound(s[1..]);
        assert [s[0]] + s[1..] == s;
        var ps := [Other(s[0])] + rest;
        forall i | 0 < i < |ps|
          ensures PieceOk(ps, i)
        {
          assert PieceOk(rest, i - 1);
          if i + 1 < |ps| {
            assert ps[i + 1] == rest[i];
          }
        }
        assert PieceOk(ps, 0);
      } else {
        var n := WordRun(s);
        var rest := Tokenize(s[n..]);
        TokenizeSound(s[n..]);
        assert s[..n] + s[n..] == s;
        if rest != [] {
          assert s[n..][0] == s[n];
          assert rest[0] == Other(s[n]);
        }
        var ps := [Word(s[..n])] + rest;
        forall i | 0 < i < |ps|
          ensures PieceOk(ps, i)
        {
          assert PieceOk(rest, i - 1);
          if i + 1 < |ps| {
            assert ps[i + 1] == rest[i];
          }
        }
        assert PieceOk(ps, 0);
      }
    }
  }

  /** The word run is `m` long when `m` word characters are followed by a
      non-word character or the end. */
  lemma {:induction false} WordRunIs(u: string, m: nat)
    requires m <= |u| && forall j :: 0 <= j < m ==> IsWordChar(u[j])
    requires m < |u| ==> !IsWordChar(u[m])
    ensures WordRun(u) == m
    decreases m
  {
    if m > 0 {
      WordRunIs(u[1..], m - 1);
    }
  }

  lemma {:induction false} WordRunConcat(w: string, f: string)
    requires forall j :: 0 <= j < |w| ==> IsWordChar(w[j])
    requires f == [] || !IsWordChar(f[0])
    ensures WordRun(w + f) == |w|
    decreases |w|
  {
    if w != [] {
      assert (w + f)[1..] == w[1..] + f;
      WordRunConcat(w[1..], f);
    }
  }

  lemma WellFormedTail(ps: seq<Piece>)
    requires WellFormed(ps) && ps != []
    ensures WellFormed(ps[1..])
  {
    var qs := ps[1..];
    forall i | 0 <= i < |qs|
      ensures PieceOk(qs, i)
    {
      assert PieceOk(ps, i + 1);
      if i + 1 < |qs| {
        assert qs[i + 1] == ps[i + 2];
      }
    }
  }

  /** Cutting the text of well-formed pieces gives the pieces back. */
  lemma {:induction false} TokenizeFlatten(ps: seq<Piece>)
    requires WellFormed(ps)
    ensures Tokenize(Flatten(ps)) == ps
    decreases |ps|
  {
    if ps != [] {
      var s := Flatten(ps);
      var f := Flatten(ps[1..]);
      WellFormedTail(ps);
      TokenizeFlatten(ps[1..]);
      assert PieceOk(ps, 0);
      match ps[0]
      case Other(c) =>
        assert s == [c] + f;
        assert s[1..] == f;
      case Word(w) =>
        assert IsWord(w);
        assert s == w + f;
        if f != [] {
          assert ps[1].Other?;
          assert f[0] == ps[1].c;
        }
        WordRunConcat(w, f);
        assert s[..|w|] == w;
        assert s[|w|..] == f;
    }
  }

  // ----- search and subn -----

  /** A word the pattern of `r` matches. */
  predicate Hits(r: Rule, w: string)
  {
    exists t :: t in r.tokens && CiEqual(w, t)
  }

  predicate OccursIn(r: Rule, ps: seq<Piece>)
  {
    exists i :: 0 <= i < |ps| && ps[i].Word? && Hits(r, ps[i].w)
  }

  /** `rule.search(s)` finds a match. */
  predicate Occurs(r: Rule, s: string)
  {
    OccursIn(r, Tokenize(s))
  }

  function Rewrite(r: Rule, p: Piece): Piece
  {
    if p.Word? && Hits(r, p.w) then Word(r.full) else p
  }

  function RewriteAll(r: Rule, ps: seq<Piece>): (qs: seq<Piece>)
    ensures |qs| == |ps|
  {
    seq(|ps|, i requires 0 <= i < |ps| => Rewrite(r, ps[i]))
  }

  function CountHits(r: Rule, ps: seq<Piece>): nat
  {
    if ps == [] then 0
    else (if ps[0].Word? && Hits(r, ps[0].w) then 1 else 0) + CountHits(r, ps[1..])
  }

  /** `rule.subn(full, s)`: every match replaced by the full word, and the
      number of replacements. */
  function Subn(r: Rule, s: string): (string, nat)
  {
    var ps := Tokenize(s);
    (Flatten(RewriteAll(r, ps)), CountHits(r, ps))
  }

  lemma {:induction false} CountHitsZero(r: Rule, ps: seq<Piece>)
    ensures CountHits(r, ps) == 0 <==> !OccursIn(r, ps)
    decreases |ps|
  {
    if ps != [] {
      CountHitsZero(r, ps[1..]);
      if OccursIn(r, ps[1..]) {
        var i :| 0 <= i < |ps| - 1 && ps[1..][i].Word? && Hits(r, ps[1..][i].w);
        assert ps[i + 1] == ps[1..][i];
      }
      if OccursIn(r, ps) && !(ps[0].Word? && Hits(r, ps[0].w)) {
        var i :| 0 <= i < |ps| && ps[i].Word? && Hits(r, ps[i].w);
        assert ps[1..][i - 1] == ps[i];
      }
    }
  }

  /** `subn` counts nothing exactly when `search` finds nothing, and then
      leaves the text as it was. */
  lemma SubnCount(r: Rule, s: string)
    ensures Subn(r, s).1 == 0 <==> !Occurs(r, s)
    ensures Subn(r, s).1 == 0 ==> Subn(r, s).0 == s
  {
    var ps := Tokenize(s);
    CountHitsZero(r, ps);
    TokenizeSound(s);
    if !OccursIn(r, ps) {
      assert RewriteAll(r, ps) == ps;
    }
  }

  lemma RewriteWellFormed(r: Rule, ps: seq<Piece>)
    requires ValidRule(r) && WellFormed(ps)
    ensures WellFormed(RewriteAll(r, ps))
  {
    var qs := RewriteAll(r, ps);
    forall i | 0 <= i < |qs|
      ensures PieceOk(qs, i)
    {
      assert PieceOk(ps, i);
      assert qs[i] == Rewrite(r, ps[i]);
      if i + 1 < |qs| {
        assert qs[i + 1] == Rewrite(r, ps[i + 1]);
      }
    }
  }

  /** The output of `subn` cuts into the rewritten pieces of its input. */
  lemma SubnPieces(r: Rule, s: string)
    requires ValidRule(r)
    ensures Tokenize(Subn(r, s).0) == RewriteAll(r, Tokenize(s))
  {
    TokenizeSound(s);
    RewriteWellFormed(r, Tokenize(s));
    TokenizeFlatten(RewriteAll(r, Tokenize(s)));
  }

  /** After `subn` with `r`, a rule `q` occurs only where it already did:
      `r`'s full word is not one of `q`'s words. */
  lemma SubnOccursBefore(r: Rule, q: Rule, s: string)
    requires ValidRule(r) && !Hits(q, r.full)
    ensures Occurs(q, Subn(r, s).0) ==> Occurs(q, s)
  {
    SubnPieces(r, s);
    var ps := Tokenize(s);
    var qs := RewriteAll(r, ps);
    if OccursIn(q, qs) {
      var i :| 0 <= i < |qs| && qs[i].Word? && Hits(q, qs[i].w);
      assert qs[i] == ps[i];
    }
  }

  /** `subn` replaces every occurrence: none is left afterwards. */
  lemma SubnClears(r: Rule, s: string)
    requires ValidRule(r) && !Hits(r, r.full)
    ensures !Occurs(r, Subn(r, s).0)
  {
    SubnPieces(r, s);
    var ps := Tokenize(s);
    var qs := RewriteAll(r, ps);
    forall i | 0 <= i < |qs| && qs[i].Word?
      ensures !Hits(r, qs[i].w)
    {
      assert qs[i] == Rewrite(r, ps[i]);
    }
  }

  lemma {:induction false} RewriteChars(r: Rule, ps: seq<Piece>, c: char)
    requires c in Flatten(RewriteAll(r, ps))
    ensures c in Flatten(ps) || c in r.full
    decreases |ps|
  {
    if ps != [] {
      assert RewriteAll(r, ps) == [Rewrite(r, ps[0])] + RewriteAll(r, ps[1..]);
      if c !in Text(Rewrite(r, ps[0])) {
        RewriteChars(r, ps[1..], c);
      }
    }
  }

  /** `subn` never brings in a period: the full word has none. */
  lemma SubnNoPeriod(r: Rule, s: string)
    requires ValidRule(r) && '.' !in s
    ensures '.' !in Subn(r, s).0
  {
    TokenizeSound(s);
    forall c | c in Subn(r, s).0
      ensures c != '.'
    {
      RewriteChars(r, Tokenize(s), c);
    }
  }

  // ----- The regex test, position by position -----

  /** `\bt\b` matches at `i`, ignoring case. */
  predicate TokenAt(s: string, i: nat, t: string)
  {
    i + |t| <= |s| && IsBoundary(s, i) && CiEqual(s[i..i + |t|], t) && IsBoundary(s, i + |t|)
  }

  /** `rule.search(s)` read off the pattern: some alternative matches at
      some position. */
  predicate RegexOccurs(r: Rule, s: string)
  {
    exists i: nat, t :: i < |s| && t in r.tokens && TokenAt(s, i, t)
  }

  /** The word run starting at `i`, when a word starts there. */
  predicate RunHits(r: Rule, s: string, i: nat)
  {
    i < |s| && !WordAt(s, i - 1) && WordAt(s, i) && Hits(r, s[i..i + WordRun(s[i..])])
  }

  /** A word token matches at `i` exactly when it equals the word run that
      starts at `i`. */
  lemma TokenAtRun(s: string, i: nat, t: string)
    requires IsWord(t) && i < |s|
    ensures TokenAt(s, i, t) <==>
      (!WordAt(s, i - 1) && WordAt(s, i) && CiEqual(s[i..i + WordRun(s[i..])], t))
  {
    var u := s[i..];
    var n := WordRun(u);
    if TokenAt(s, i, t) {
      forall j | 0 <= j < |t|
        ensures IsWordChar(u[j])
      {
        assert s[i..i + |t|][j] == u[j];
        CiWordChar(u[j], t[j]);
      }
      if |t| < |u| {
        assert u[|t|] == s[i + |t|];
      }
      WordRunIs(u, |t|);
    }
    if !WordAt(s, i - 1) && WordAt(s, i) && CiEqual(s[i..i + n], t) {
      if i + n < |s| {
        assert s[i..][n] == s[i + n];
      }
      assert s[i..i + n][n - 1] == s[i..][n - 1];
    }
  }

  lemma RegexRun(r: Rule, s: string)
    requires ValidRule(r)
    ensures RegexOccurs(r, s) <==> exists i: nat :: RunHits(r, s, i)
  {
    if RegexOccurs(r, s) {
      var i: nat, t :| i < |s| && t in r.tokens && TokenAt(s, i, t);
      TokenAtRun(s, i, t);
      assert RunHits(r, s, i);
    }
    if i: nat :| RunHits(r, s, i) {
      var t :| t in r.tokens && CiEqual(s[i..i + WordRun(s[i..])], t);
      TokenAtRun(s, i, t);
    }
  }

  /** Past a boundary at `k` between a word and a non-word character,
      the word runs of `s` are those of `s[k..]`. */
  lemma RunHitsShift(r: Rule, s: string, k: nat, i: nat)
    requires 0 < k <= |s| && (!WordAt(s, k - 1) || !WordAt(s, k))
    ensures RunHits(r, s, k + i) <==> RunHits(r, s[k..], i)
  {
    if k + i < |s| {
      assert s[k + i..] == s[k..][i..];
      assert s[k..][i] == s[k + i];
      if i > 0 {
        assert s[k..][i - 1] == s[k + i - 1];
      }
    }
  }

  lemma OccursInCons(r: Rule, p: Piece, rest: seq<Piece>)
    ensures OccursIn(r, [p] + rest) <==> (p.Word? && Hits(r, p.w)) || OccursIn(r, rest)
  {
    var ps := [p] + rest;
    if p.Word? && Hits(r, p.w) {
      assert ps[0] == p;
    }
    if OccursIn(r, rest) {
      var j :| 0 <= j < |rest| && rest[j].Word? && Hits(r, rest[j].w);
      assert ps[j + 1] == rest[j];
    }
    if OccursIn(r, ps) {
      var j :| 0 <= j < |ps| && ps[j].Word? && Hits(r, ps[j].w);
      if j > 0 {
        assert rest[j - 1] == ps[j];
      }
    }
  }

  /** Cutting `s` at `k`, where no word run starts strictly before `k` but
      at 0 and no word runs across `k`. */
  lemma RunsSplit(r: Rule, s: string, k: nat)
    requires 0 < k <= |s| && (!WordAt(s, k - 1) || !WordAt(s, k))
    requires forall i :: 0 < i < k ==> !RunHits(r, s, i)
    ensures (exists i: nat :: RunHits(r, s, i)) <==>
      (RunHits(r, s, 0) || exists i: nat :: RunHits(r, s[k..], i))
  {
    if i: nat :| RunHits(r, s, i) {
      if i >= k {
        RunHitsShift(r, s, k, i - k);
      }
    }
    if i: nat :| RunHits(r, s[k..], i) {
      RunHitsShift(r, s, k, i);
    }
  }

  lemma {:induction false} RunsArePieces(r: Rule, s: string)
    ensures (exists i: nat :: RunHits(r, s, i)) <==> Occurs(r, s)
    decreases |s|
  {
    if s != [] {
      if !IsWordChar(s[0]) {
        RunsArePieces(r, s[1..]);
        RunsSplit(r, s, 1);
        OccursInCons(r, Other(s[0]), Tokenize(s[1..]));
      } else {
        var n := WordRun(s);
        forall i | 0 < i < n
          ensures !RunHits(r, s, i)
        {
          assert WordAt(s, i - 1);
        }
        RunsArePieces(r, s[n..]);
        RunsSplit(r, s, n);
        assert s[0..] == s;
        OccursInCons(r, Word(s[..n]), Tokenize(s[n..]));
      }
    }
  }

  /** The pieces-based test agrees with the pattern read position by position. */
  lemma OccursIffRegex(r: Rule, s: string)
    requires ValidRule(r)
    ensures Occurs(r, s) <==> RegexOccurs(r, s)
  {
    RegexRun(r, s);
    RunsArePieces(r, s);
  }

  // ----- Rule tables -----

  /** The first rule in table order that occurs. */
  function FirstOccurring(rules: seq<Rule>, s: string): (r: Option<nat>)
    ensures r.Some? ==> r.value < |rules| && Occurs(rules[r.value], s)
    ensures r.Some? ==> forall k :: 0 <= k < r.value ==> !Occurs(rules[k], s)
    ensures r.None? ==> NoneOccur(rules, s)
  {
    if rules == [] then None
    else if Occurs(rules[0], s) then Some(0)
    else match FirstOccurring(rules[1..], s)
      case None => None
      case Some(j) => Some(j + 1)
  }

  predicate NoneOccur(rules: seq<Rule>, s: string)
  {
    forall k :: 0 <= k < |rules| ==> !Occurs(rules[k], s)
  }

  /** At most one rule of the table occurs. */
  predicate AtMostOneOccurs(rules: seq<Rule>, s: string)
  {
    forall i, j :: 0 <= i < j < |rules| ==> !(Occurs(rules[i], s) && Occurs(rules[j], s))
  }

  /** No rule of `qs` matches the full word of a rule of `rs`. */
  predicate FullsNotHit(qs: seq<Rule>, rs: seq<Rule>)
  {
    forall i, j :: 0 <= i < |qs| && 0 <= j < |rs| ==> !Hits(qs[i], rs[j].full)
  }

  /** The first rule in table order that occurs is applied, alone. */
  function ApplyFirst(rules: seq<Rule>, s: string): string
  {
    if rules == [] then s
    else if Occurs(rules[0], s) then Subn(rules[0], s).0
    else ApplyFirst(rules[1..], s)
  }

  /** `ApplyFirst` rewrites with the first occurring rule, and only with it;
      when no rule occurs it leaves the text alone. */
  lemma {:induction false} ApplyFirstIsFirst(rules: seq<Rule>, s: string)
    ensures FirstOccurring(rules, s).Some? ==>
      ApplyFirst(rules, s) == Subn(rules[FirstOccurring(rules, s).value], s).0
    ensures FirstOccurring(rules, s).None? ==> ApplyFirst(rules, s) == s
  {
    if rules != [] && !Occurs(rules[0], s) {
      ApplyFirstIsFirst(rules[1..], s);
    }
  }

  lemma {:induction false} ApplyFirstNoPeriod(rules: seq<Rule>, s: string)
    requires ValidRules(rules) && '.' !in s
    ensures '.' !in ApplyFirst(rules, s)
  {
    if rules != [] {
      if Occurs(rules[0], s) {
        SubnNoPeriod(rules[0], s);
      } else {
        ApplyFirstNoPeriod(rules[1..], s);
      }
    }
  }

  /** One table applied to a text where at most one of its rules occurs:
      afterwards none of them occurs, and a rule of another table whose
      words are no full word of this one occurs only if it did before. */
  lemma TableStep(rules: seq<Rule>, others: seq<Rule>, s: string)
    requires ValidRules(rules) && AtMostOneOccurs(rules, s)
    requires FullsNotHit(rules, rules) && FullsNotHit(others, rules)
    ensures NoneOccur(rules, ApplyFirst(rules, s))
    ensures forall k :: 0 <= k < |others| && Occurs(others[k], ApplyFirst(rules, s)) ==>
      Occurs(others[k], s)
  {
    ApplyFirstIsFirst(rules, s);
    var y := ApplyFirst(rules, s);
    match FirstOccurring(rules, s)
    case None =>
    case Some(j) =>
      var r := rules[j];
      forall k | 0 <= k < |rules|
        ensures !Occurs(rules[k], y)
      {
        if k == j {
          SubnClears(r, s);
        } else {
          SubnOccursBefore(r, rules[k], s);
        }
      }
      forall k | 0 <= k < |others|
        ensures Occurs(others[k], y) ==> Occurs(others[k], s)
      {
        SubnOccursBefore(r, others[k], s);
      }
  }

  /** `re.sub(r'[.]', '', s)` */
  function RemovePeriods(s: string): (r: string)
    ensures '.' !in r
    ensures |r| <= |s|
    ensures '.' !in s ==> r == s
  {
    if s == [] then []
    else (if s[0] == '.' then [] else [s[0]]) + RemovePeriods(s[1..])
  }

  /** A single character is dropped exactly when it is a period. */
  lemma RemovePeriodsChar(c: char)
    ensures RemovePeriods([c]) == if c == '.' then [] else [c]
  {
    assert [c][1..] == [];
  }

  /** Periods are removed piece by piece: with `RemovePeriodsChar` this
      fixes the result as the input's other characters, in order. */
  lemma {:induction false} RemovePeriodsAppend(a: string, b: string)
    ensures RemovePeriods(a + b) == RemovePeriods(a) + RemovePeriods(b)
    decreases |a|
  {
    if a == [] {
      assert a + b == b;
    } else {
      assert (a + b)[0] == a[0];
      assert (a + b)[1..] == a[1..] + b;
      RemovePeriodsAppend(a[1..], b);
    }
  }

  /** What `fix_street` computes. */
  function NormalizeStreet(s: string): string
  {
    ApplyFirst(TypeRules, ApplyFirst(PrefixRules, RemovePeriods(s)))
  }

  /** Table words are ASCII letters. */
  lemma LettersWord(t: string)
    requires |t| > 0 && forall j :: 0 <= j < |t| ==> IsLetter(t[j])
    ensures IsWord(t)
  {
  }

  lemma TablesValid()
    ensures ValidRules(PrefixRules) && ValidRules(TypeRules)
  {
    forall i | 0 <= i < |PrefixRules|
      ensures ValidRule(PrefixRules[i])
    {
      LettersWord(PrefixRules[i].full);
      LettersWord(PrefixRules[i].tokens[0]);
    }
    forall i | 0 <= i < |TypeRules|
      ensures ValidRule(TypeRules[i])
    {
      var r := TypeRules[i];
      LettersWord(r.full);
      forall t | t in r.tokens
        ensures IsWord(t)
      {
        LettersWord(t);
      }
    }
  }

  /** The signatures of the abbreviations and of the full words. */
  const PrefixTokenSigs: set<(int, char, char, char, char)> :=
    {(1, 's', ' ', ' ', ' '), (1, 'e', ' ', ' ', ' '), (1, 'n', ' ', ' ', ' '),
     (1, 'w', ' ', ' ', ' ')}
  const TypeTokenSigs: set<(int, char, char, char, char)> :=
    {(2, 'c', 't', ' ', ' '), (2, 'r', 'd', ' ', ' '),
     (4, 'r', 'a', 'd', ' '), (6, 's', 't', 'r', 't'), (6, 's', 't', 'e', 'r'),
     (2, 's', 't', ' ', ' '), (2, 'p', 'l', ' ', ' '), (4, 'p', 'k', 'y', ' '),
     (2, 'l', 'n', ' ', ' '), (2, 'd', 'r', ' ', ' '), (3, 'c', 'i', ' ', ' '),
     (4, 'b', 'l', 'd', ' '), (3, 'a', 'v', ' ', ' ')}
  const FullSigs: set<(int, char, char, char, char)> :=
    {(5, 's', 'o', 't', ' '), (4, 'e', 'a', 't', ' '), (5, 'n', 'o', 't', ' '),
     (4, 'w', 'e', 't', ' '), (5, 'c', 'o', 'r', ' '), (4, 'r', 'o', 'd', ' '),
     (6, 's', 't', 'e', 't'), (5, 'p', 'l', 'c', ' '), (7, 'p', 'a', 'k', 'a'),
     (4, 'l', 'a', 'e', ' '), (5, 'd', 'r', 'v', ' '), (6, 'c', 'i', 'c', 'e'),
     (9, 'b', 'o', 'l', 'v'), (6, 'a', 'v', 'n', 'e')}

  predicate TokensSigned(rules: seq<Rule>, sigs: set<(int, char, char, char, char)>)
  {
    forall i, t :: 0 <= i < |rules| && t in rules[i].tokens ==> Sig(t) in sigs
  }

  predicate FullsSigned(rules: seq<Rule>)
  {
    forall i :: 0 <= i < |rules| ==> Sig(rules[i].full) in FullSigs
  }

  lemma PrefixSigned()
    ensures TokensSigned(PrefixRules, PrefixTokenSigs) && FullsSigned(PrefixRules)
  {
  }

  lemma TypeTokensSigned()
    ensures TokensSigned(TypeRules, TypeTokenSigs)
  {
    assert Sig("Ct") == (2, 'c', 't', ' ', ' ');
    assert Sig("Rd") == (2, 'r', 'd', ' ', ' ');
    assert Sig("Raod") == (4, 'r', 'a', 'd', ' ');
    assert Sig("Strret") == (6, 's', 't', 'r', 't');
    assert Sig("Streer") == (6, 's', 't', 'e', 'r');
    assert Sig("St") == (2, 's', 't', ' ', ' ');
    assert Sig("Pl") == (2, 'p', 'l', ' ', ' ');
    assert Sig("Pkwy") == (4, 'p', 'k', 'y', ' ');
    assert Sig("Ln") == (2, 'l', 'n', ' ', ' ');
    assert Sig("Dr") == (2, 'd', 'r', ' ', ' ');
    assert Sig("Cir") == (3, 'c', 'i', ' ', ' ');
    assert Sig("Blvd") == (4, 'b', 'l', 'd', ' ');
    assert Sig("Ave") == (3, 'a', 'v', ' ', ' ');
  }

  lemma TypeFullsSigned()
    ensures FullsSigned(TypeRules)
  {
    assert Sig("Court") == (5, 'c', 'o', 'r', ' ');
    assert Sig("Road") == (4, 'r', 'o', 'd', ' ');
    assert Sig("Street") == (6, 's', 't', 'e', 't');
    assert Sig("Place") == (5, 'p', 'l', 'c', ' ');
    assert Sig("Parkway") == (7, 'p', 'a', 'k', 'a');
    assert Sig("Lane") == (4, 'l', 'a', 'e', ' ');
    assert Sig("Drive") == (5, 'd', 'r', 'v', ' ');
    assert Sig("Circle") == (6, 'c', 'i', 'c', 'e');
    assert Sig("Boulevard") == (9, 'b', 'o', 'l', 'v');
    assert Sig("Avenue") == (6, 'a', 'v', 'n', 'e');
  }

  lemma SigsDisjoint()
    ensures PrefixTokenSigs !! FullSigs && TypeTokenSigs !! FullSigs
  {
  }

  lemma NotHitBySigs(qs: seq<Rule>, rs: seq<Rule>)
    requires TokensSigned(qs, PrefixTokenSigs) || TokensSigned(qs, TypeTokenSigs)
    requires FullsSigned(rs)
    ensures FullsNotHit(qs, rs)
  {
    SigsDisjoint();
    forall i, j | 0 <= i < |qs| && 0 <= j < |rs|
      ensures !Hits(qs[i], rs[j].full)
    {
      forall t | t in qs[i].tokens
        ensures !CiEqual(rs[j].full, t)
      {
        SigDiffers(rs[j].full, t);
      }
    }
  }

  /** No abbreviation of either table spells a full word of either table. */
  lemma TablesDisjoint()
    ensures FullsNotHit(PrefixRules, PrefixRules) && FullsNotHit(TypeRules, PrefixRules)
    ensures FullsNotHit(TypeRules, TypeRules) && FullsNotHit(PrefixRules, TypeRules)
  {
    PrefixSigned();
    TypeTokensSigned();
    TypeFullsSigned();
    NotHitBySigs(PrefixRules, PrefixRules);
    NotHitBySigs(TypeRules, PrefixRules);
    NotHitBySigs(TypeRules, TypeRules);
    NotHitBySigs(PrefixRules, TypeRules);
  }

  /** Length and a few case-folded letters, enough to tell the table words apart. */
  function Sig(w: string): (int, char, char, char, char)
  {
    (|w|,
     if |w| > 0 then LowerChar(w[0]) else ' ',
     if |w| > 1 then LowerChar(w[1]) else ' ',
     if |w| > 3 then LowerChar(w[3]) else ' ',
     if |w| > 5 then LowerChar(w[5]) else ' ')
  }

  lemma SigDiffers(a: string, b: string)
    requires Sig(a) != Sig(b)
    ensures !CiEqual(a, b)
  {
  }

  /** `fix_street` never returns a period. */
  lemma NormalizeNoPeriod(s: string)
    ensures '.' !in NormalizeStreet(s)
  {
    TablesValid();
    var x := ApplyFirst(PrefixRules, RemovePeriods(s));
    ApplyFirstNoPeriod(PrefixRules, RemovePeriods(s));
    ApplyFirstNoPeriod(TypeRules, x);
  }

  /** A second pass changes nothing when, once the periods are gone, at most
      one rule of each table occurs in the name. */
  lemma NormalizeIdempotent(s: string)
    requires AtMostOneOccurs(PrefixRules, RemovePeriods(s))
    requires AtMostOneOccurs(TypeRules, RemovePeriods(s))
    ensures NormalizeStreet(NormalizeStreet(s)) == NormalizeStreet(s)
  {
    TablesValid();
    TablesDisjoint();
    var x := RemovePeriods(s);
    var y := ApplyFirst(PrefixRules, x);
    var z := ApplyFirst(TypeRules, y);
    TableStep(PrefixRules, TypeRules, x);
    TableStep(TypeRules, PrefixRules, y);
    NormalizeNoPeriod(s);
    ApplyFirstIsFirst(PrefixRules, z);
    ApplyFirstIsFirst(TypeRules, z);
  }

  // ----- Worked examples -----

  /** The pieces of a literal, given its cut. */
  lemma TokenizeAs(s: string, ps: seq<Piece>)
    requires WellFormed(ps) && Flatten(ps) == s
    ensures Tokenize(s) == ps
  {
    TokenizeFlatten(ps);
  }

  /** `q` matches no word of `ps` when their signatures all differ. */
  lemma NoHitWords(q: Rule, ps: seq<Piece>)
    requires forall i, t :: 0 <= i < |ps| && ps[i].Word? && t in q.tokens ==> Sig(ps[i].w) != Sig(t)
    ensures !OccursIn(q, ps)
  {
    forall i | 0 <= i < |ps| && ps[i].Word?
      ensures !Hits(q, ps[i].w)
    {
      forall t | t in q.tokens
        ensures !CiEqual(ps[i].w, t)
      {
        SigDiffers(ps[i].w, t);
      }
    }
  }

  lemma NoTypeHitWords(ps: seq<Piece>)
    requires forall i :: 0 <= i < |ps| && ps[i].Word? ==> Sig(ps[i].w) !in TypeTokenSigs
    ensures forall k :: 0 <= k < |TypeRules| ==> !OccursIn(TypeRules[k], ps)
  {
    TypeTokensSigned();
    forall k | 0 <= k < |TypeRules|
      ensures !OccursIn(TypeRules[k], ps)
    {
      NoHitWords(TypeRules[k], ps);
    }
  }

  lemma FlattenCons(p: Piece, rest: seq<Piece>)
    ensures Flatten([p] + rest) == Text(p) + Flatten(rest)
  {
    assert ([p] + rest)[1..] == rest;
  }

  /** Three words separated by single spaces, as pieces. */
  function ThreePieces(a: string, b: string, c: string): seq<Piece>
  {
    [Word(a), Other(' '), Word(b), Other(' '), Word(c)]
  }

  lemma ThreePiecesFlatten(a: string, b: string, c: string)
    ensures Flatten(ThreePieces(a, b, c)) == a + " " + b + " " + c
  {
    var ps := ThreePieces(a, b, c);
    FlattenCons(Word(c), []);
    FlattenCons(Other(' '), [Word(c)]);
    FlattenCons(Word(b), ps[3..]);
    FlattenCons(Other(' '), ps[2..]);
    FlattenCons(Word(a), ps[1..]);
    assert ps == [Word(a)] + ps[1..];
    assert ps[1..] == [Other(' ')] + ps[2..];
    assert ps[2..] == [Word(b)] + ps[3..];
    assert ps[3..] == [Other(' '), Word(c)];
  }

  lemma ThreeWords(a: string, b: string, c: string)
    requires IsWord(a) && IsWord(b) && IsWord(c)
    ensures Tokenize(a + " " + b + " " + c) == ThreePieces(a, b, c)
  {
    var ps := ThreePieces(a, b, c);
    assert PieceOk(ps, 0) && PieceOk(ps, 1) && PieceOk(ps, 2) && PieceOk(ps, 3) && PieceOk(ps, 4);
    ThreePiecesFlatten(a, b, c);
    TokenizeAs(a + " " + b + " " + c, ps);
  }

  /** A word as one rule leaves it. */
  function WordAfter(r: Rule, w: string): string
  {
    if Hits(r, w) then r.full else w
  }

  /** One rule on three words separated by single spaces. */
  lemma SubnThree(r: Rule, a: string, b: string, c: string)
    requires IsWord(a) && IsWord(b) && IsWord(c)
    ensures Occurs(r, a + " " + b + " " + c) <==> Hits(r, a) || Hits(r, b) || Hits(r, c)
    ensures Subn(r, a + " " + b + " " + c).0 ==
      WordAfter(r, a) + " " + WordAfter(r, b) + " " + WordAfter(r, c)
  {
    ThreeWords(a, b, c);
    OccursThree(r, a, b, c);
    RewriteThree(r, a, b, c);
  }

  lemma OccursThree(r: Rule, a: string, b: string, c: string)
    requires Tokenize(a + " " + b + " " + c) == ThreePieces(a, b, c)
    ensures Occurs(r, a + " " + b + " " + c) <==> Hits(r, a) || Hits(r, b) || Hits(r, c)
  {
    var ps := ThreePieces(a, b, c);
    assert ps[0].Word? && ps[2].Word? && ps[4].Word?;
  }

  lemma RewriteThree(r: Rule, a: string, b: string, c: string)
    requires Tokenize(a + " " + b + " " + c) == ThreePieces(a, b, c)
    ensures Subn(r, a + " " + b + " " + c).0 ==
      WordAfter(r, a) + " " + WordAfter(r, b) + " " + WordAfter(r, c)
  {
    var ps := ThreePieces(a, b, c);
    assert RewriteAll(r, ps) == ThreePieces(WordAfter(r, a), WordAfter(r, b), WordAfter(r, c));
    ThreePiecesFlatten(WordAfter(r, a), WordAfter(r, b), WordAfter(r, c));
  }

  /** No street-type rule touches three words that spell no abbreviation. */
  lemma NoTypeThree(a: string, b: string, c: string)
    requires IsWord(a) && IsWord(b) && IsWord(c)
    requires Sig(a) !in TypeTokenSigs && Sig(b) !in TypeTokenSigs && Sig(c) !in TypeTokenSigs
    ensures ApplyFirst(TypeRules, a + " " + b + " " + c) == a + " " + b + " " + c
  {
    ThreeWords(a, b, c);
    NoTypeHitWords(ThreePieces(a, b, c));
    ApplyFirstIsFirst(TypeRules, a + " " + b + " " + c);
  }

  /** The rule at `j` is applied when it occurs and none before it does. */
  lemma ApplyFirstAt(rules: seq<Rule>, s: string, j: nat)
    requires j < |rules| && Occurs(rules[j], s)
    requires forall k :: 0 <= k < j ==> !Occurs(rules[k], s)
    ensures ApplyFirst(rules, s) == Subn(rules[j], s).0
  {
    ApplyFirstIsFirst(rules, s);
  }

  /** A word none of whose signatures matches the rule's is left alone. */
  lemma MissWord(r: Rule, w: string)
    requires forall t :: t in r.tokens ==> Sig(w) != Sig(t)
    ensures !Hits(r, w) && WordAfter(r, w) == w
  {
    forall t | t in r.tokens
      ensures !CiEqual(w, t)
    {
      SigDiffers(w, t);
    }
  }

  lemma PrefixOnNEStreet()
    ensures ApplyFirst(PrefixRules, "N" + " " + "E" + " " + "Street") == "N" + " " + "East" + " " + "Street"
  {
    var s := "N" + " " + "E" + " " + "Street";
    NEStreetMissesS();
    NEStreetHitsE();
    ApplyFirstAt(PrefixRules, s, 1);
  }

  /** The `S` rule does not occur in `N E Street`... */
  lemma NEStreetMissesS()
    ensures !Occurs(PrefixRules[0], "N" + " " + "E" + " " + "Street")
  {
    LettersWord("N");
    LettersWord("E");
    LettersWord("Street");
    MissWord(PrefixRules[0], "N");
    MissWord(PrefixRules[0], "E");
    MissWord(PrefixRules[0], "Street");
    OccursThree(PrefixRules[0], "N", "E", "Street") by {
      ThreeWords("N", "E", "Street");
    }
  }

  /** ...and the `E` rule expands the `E`. */
  lemma NEStreetHitsE()
    ensures Occurs(PrefixRules[1], "N" + " " + "E" + " " + "Street")
    ensures Subn(PrefixRules[1], "N" + " " + "E" + " " + "Street").0 == "N" + " " + "East" + " " + "Street"
  {
    LettersWord("N");
    LettersWord("E");
    LettersWord("Street");
    MissWord(PrefixRules[1], "N");
    MissWord(PrefixRules[1], "Street");
    assert "E" in PrefixRules[1].tokens && CiEqual("E", "E");
    SubnThree(PrefixRules[1], "N", "E", "Street");
  }

  lemma PrefixOnNEastStreet()
    ensures ApplyFirst(PrefixRules, "N" + " " + "East" + " " + "Street") == "North" + " " + "East" + " " + "Street"
  {
    var s := "N" + " " + "East" + " " + "Street";
    NEastStreetMisses(0);
    NEastStreetMisses(1);
    NEastStreetHitsN();
    ApplyFirstAt(PrefixRules, s, 2);
  }

  /** Neither the `S` nor the `E` rule occurs in `N East Street`... */
  lemma NEastStreetMisses(k: nat)
    requires k < 2
    ensures !Occurs(PrefixRules[k], "N" + " " + "East" + " " + "Street")
  {
    LettersWord("N");
    LettersWord("East");
    LettersWord("Street");
    MissWord(PrefixRules[k], "N");
    MissWord(PrefixRules[k], "East");
    MissWord(PrefixRules[k], "Street");
    OccursThree(PrefixRules[k], "N", "East", "Street") by {
      ThreeWords("N", "East", "Street");
    }
  }

  /** ...and the `N` rule expands the leading `N`. */
  lemma NEastStreetHitsN()
    ensures Occurs(PrefixRules[2], "N" + " " + "East" + " " + "Street")
    ensures Subn(PrefixRules[2], "N" + " " + "East" + " " + "Street").0 == "North" + " " + "East" + " " + "Street"
  {
    LettersWord("N");
    LettersWord("East");
    LettersWord("Street");
    MissWord(PrefixRules[2], "East");
    MissWord(PrefixRules[2], "Street");
    assert "N" in PrefixRules[2].tokens && CiEqual("N", "N");
    SubnThree(PrefixRules[2], "N", "East", "Street");
  }

  lemma NormalizeVia(s: string, x: string, y: string, z: string)
    requires RemovePeriods(s) == x && ApplyFirst(PrefixRules, x) == y && ApplyFirst(TypeRules, y) == z
    ensures NormalizeStreet(s) == z
  {
  }

  /** Two prefixes in one name: the first pass expands only `E`, because
      the `E` rule comes before the `N` rule... */
  lemma NormalizeFirstPass()
    ensures NormalizeStreet("N" + " " + "E" + " " + "Street") == "N" + " " + "East" + " " + "Street"
  {
    LettersWord("N");
    LettersWord("East");
    LettersWord("Street");
    PrefixOnNEStreet();
    NoTypeThree("N", "East", "Street");
    NormalizeVia("N" + " " + "E" + " " + "Street", "N" + " " + "E" + " " + "Street",
      "N" + " " + "East" + " " + "Street",
      "N" + " " + "East" + " " + "Street");
  }

  /** ... so a second pass changes the name again. */
  lemma NormalizeSecondPass()
    ensures NormalizeStreet("N" + " " + "East" + " " + "Street") == "North" + " " + "East" + " " + "Street"
  {
    LettersWord("North");
    LettersWord("East");
    LettersWord("Street");
    PrefixOnNEastStreet();
    NoTypeThree("North", "East", "Street");
    NormalizeVia("N" + " " + "East" + " " + "Street", "N" + " " + "East" + " " + "Street",
      "North" + " " + "East" + " " + "Street",
      "North" + " " + "East" + " " + "Street");
  }

  lemma {:induction false} RemovePeriodsTrailing(u: string)
    requires '.' !in u
    ensures RemovePeriods(u + ".") == u
  {
    if u != [] {
      assert (u + ".")[1..] == u[1..] + ".";
      RemovePeriodsTrailing(u[1..]);
      assert u == [u[0]] + u[1..];
    }
  }

  lemma PrefixOnNorthLincolnAve()
    ensures ApplyFirst(PrefixRules, "North" + " " + "Lincoln" + " " + "Ave") ==
      "North" + " " + "Lincoln" + " " + "Ave"
  {
    var s := "North" + " " + "Lincoln" + " " + "Ave";
    LettersWord("North");
    LettersWord("Lincoln");
    LettersWord("Ave");
    forall k | 0 <= k < |PrefixRules|
      ensures !Occurs(PrefixRules[k], s)
    {
      MissWord(PrefixRules[k], "North");
      MissWord(PrefixRules[k], "Lincoln");
      MissWord(PrefixRules[k], "Ave");
      SubnThree(PrefixRules[k], "North", "Lincoln", "Ave");
    }
    ApplyFirstIsFirst(PrefixRules, s);
  }

  lemma TypeOnNorthLincolnAve()
    ensures ApplyFirst(TypeRules, "North" + " " + "Lincoln" + " " + "Ave") ==
      "North" + " " + "Lincoln" + " " + "Avenue"
  {
    var s := "North" + " " + "Lincoln" + " " + "Ave";
    LettersWord("North");
    LettersWord("Lincoln");
    LettersWord("Ave");
    forall k | 0 <= k < 9
      ensures !Occurs(TypeRules[k], s)
    {
      MissWord(TypeRules[k], "North");
      MissWord(TypeRules[k], "Lincoln");
      MissWord(TypeRules[k], "Ave");
      SubnThree(TypeRules[k], "North", "Lincoln", "Ave");
    }
    MissWord(TypeRules[9], "North");
    MissWord(TypeRules[9], "Lincoln");
    assert "Ave" in TypeRules[9].tokens && CiEqual("Ave", "Ave");
    SubnThree(TypeRules[9], "North", "Lincoln", "Ave");
    ApplyFirstAt(TypeRules, s, 9);
  }

  /** The periods go first, then the street type is spelled out; the
      spelled-out prefix is left alone. */
  lemma NormalizeNorthLincolnAve()
    ensures NormalizeStreet("North" + " " + "Lincoln" + " " + "Ave" + ".") ==
      "North" + " " + "Lincoln" + " " + "Avenue"
  {
    RemovePeriodsTrailing("North" + " " + "Lincoln" + " " + "Ave");
    PrefixOnNorthLincolnAve();
    TypeOnNorthLincolnAve();
    NormalizeVia("North" + " " + "Lincoln" + " " + "Ave" + ".", "North" + " " + "Lincoln" + " " + "Ave",
      "North" + " " + "Lincoln" + " " + "Ave", "North" + " " + "Lincoln" + " " + "Avenue");
  }
}
