/** Index scopes: exact names and prefixes, and what the syntactic checks on them mean for index names. */
module IndexScope {
  import opened Wrappers
  import opened Sets
  import opened Text

  datatype Pattern = Exact(text: string) | Prefix(text: string)

  type Scope = seq<Pattern>

  predicate Matches(p: Pattern, index: string) {
    match p
    case Exact(name) => name == index
    case Prefix(prefix) => prefix <= index
  }

  predicate Allows(scope: Scope, index: string) {
    exists p :: p in scope && Matches(p, index)
  }

  // ----- Parsing

  datatype ScopeError = BareStar | StrayStar | EmptyScope

  function ParsePattern(raw: string): Result<Pattern, ScopeError> {
    if raw != "" && raw[|raw| - 1] == '*' then
      var prefix := raw[..|raw| - 1];
      if prefix == "" then Err(BareStar)
      else if '*' in prefix then Err(StrayStar)
      else Ok(Prefix(prefix))
    else if '*' in raw then Err(StrayStar)
    else Ok(Exact(raw))
  }

  function Show(p: Pattern): string {
    match p
    case Exact(name) => name
    case Prefix(prefix) => prefix + "*"
  }

  /** Unicode White_Space, which Rust's `trim` strips. */
  predicate IsSpace(c: char) {
    || '\U{0009}' <= c <= '\U{000D}' || c == ' ' || c == '\U{0085}' || c == '\U{00A0}' || c == '\U{1680}'
    || '\U{2000}' <= c <= '\U{200A}' || c == '\U{2028}' || c == '\U{2029}' || c == '\U{202F}' || c == '\U{205F}'
    || c == '\U{3000}'
  }

  function Trimmed(s: string): string { Trim(s, IsSpace) }

  function ParseList(list: seq<string>): Result<Scope, ScopeError> {
    if list == [] then Ok([])
    else
      match ParseList(list[..|list| - 1])
      case Err(e) => Err(e)
      case Ok(front) =>
        var entry := Trimmed(list[|list| - 1]);
        if entry == "" then Ok(front)
        else
          match ParsePattern(entry)
          case Err(e) => Err(e)
          case Ok(p) => Ok(front + [p])
  }

  function ParseScope(list: seq<string>): Result<Scope, ScopeError> {
    match ParseList(list)
    case Err(e) => Err(e)
    case Ok(scope) => if scope == [] then Err(EmptyScope) else Ok(scope)
  }

  /** A pattern reads back as itself exactly when it has no star of its own and a prefix is not empty. */
  lemma ParseShow(p: Pattern)
    ensures ParsePattern(Show(p)) == Ok(p) <==> '*' !in p.text && (p.Prefix? ==> p.text != "")
  {
    if p.Prefix? {
      assert Show(p)[..|Show(p)| - 1] == p.text;
    }
  }

  lemma ShowParse(raw: string)
    ensures ParsePattern(raw).Ok? ==> Show(ParsePattern(raw).value) == raw
  {
  }

  /** Refused are a star alone, and any star that is not at the end. */
  lemma ParseRefuses(raw: string)
    ensures ParsePattern(raw) == Err(BareStar) <==> raw == "*"
    ensures ParsePattern(raw) == Err(StrayStar) <==> exists i :: 0 <= i < |raw| - 1 && raw[i] == '*'
    ensures ParsePattern(raw) != Err(EmptyScope)
  {
    if raw != "" && raw[|raw| - 1] == '*' {
      assert raw == raw[..|raw| - 1] + "*";
    }
  }

  lemma {:induction false} ParsedPatterns(list: seq<string>, p: Pattern)
    requires ParseList(list).Ok? && p in ParseList(list).value
    ensures Show(p) != "" && Trimmed(Show(p)) == Show(p) && ParsePattern(Show(p)) == Ok(p)
  {
    var front, entry := list[..|list| - 1], Trimmed(list[|list| - 1]);
    if p !in ParseList(front).value {
      ShowParse(entry);
      TrimKeepsTight(list[|list| - 1], IsSpace);
    } else {
      ParsedPatterns(front, p);
    }
  }

  /** The entries of a list that say anything, trimmed, in the list's order. */
  function Written(list: seq<string>): seq<string> {
    if list == [] then []
    else
      var entry := Trimmed(list[|list| - 1]);
      Written(list[..|list| - 1]) + if entry == "" then [] else [entry]
  }

  lemma {:induction false} WrittenAre(list: seq<string>, entry: string)
    ensures entry in Written(list) <==> entry != "" && exists raw :: raw in list && Trimmed(raw) == entry
  {
    if list != [] {
      assert list == list[..|list| - 1] + [list[|list| - 1]];
      WrittenAre(list[..|list| - 1], entry);
    }
  }

  /** Each entry read, and the patterns in the same order. */
  ghost predicate ReadAs(written: seq<string>, scope: Scope) {
    |scope| == |written| && forall i :: 0 <= i < |written| ==> ParsePattern(written[i]) == Ok(scope[i])
  }

  /** The first entry that cannot be read, and what is wrong with it. */
  ghost predicate FirstBad(written: seq<string>, i: nat, error: ScopeError) {
    && i < |written| && ParsePattern(written[i]) == Err(error)
    && forall j :: 0 <= j < i ==> ParsePattern(written[j]).Ok?
  }

  lemma OneMoreEntry(written: seq<string>, scope: Scope, entry: string)
    requires ReadAs(written, scope)
    ensures match ParsePattern(entry)
            case Ok(p) => ReadAs(written + [entry], scope + [p])
            case Err(error) => FirstBad(written + [entry], |written|, error)
  {
  }

  lemma StillBad(written: seq<string>, i: nat, error: ScopeError, more: seq<string>)
    requires FirstBad(written, i, error)
    ensures FirstBad(written + more, i, error)
  {
  }

  /** A list gives one pattern for each entry that says anything, in order, or the first error. */
  lemma {:induction false} ListIsRead(list: seq<string>)
    ensures ParseList(list).Ok? ==> ReadAs(Written(list), ParseList(list).value)
    ensures ParseList(list).Err? ==> exists i :: FirstBad(Written(list), i, ParseList(list).error)
  {
    if list != [] {
      var front, entry := list[..|list| - 1], Trimmed(list[|list| - 1]);
      ListIsRead(front);
      match ParseList(front)
      case Err(error) =>
        var i :| FirstBad(Written(front), i, error);
        var more := if entry == "" then [] else [entry];
        assert Written(list) == Written(front) + more;
        StillBad(Written(front), i, error, more);
        assert FirstBad(Written(list), i, error);
      case Ok(scope) =>
        if entry == "" {
          assert Written(list) == Written(front);
        } else {
          assert Written(list) == Written(front) + [entry];
          OneMoreEntry(Written(front), scope, entry);
          if ParsePattern(entry).Err? {
            assert FirstBad(Written(list), |Written(front)|, ParseList(list).error);
          }
        }
    }
  }

  /** What an entry says, as it is written: a name, or with a star at its end every name that starts so. */
  predicate Says(entry: string, index: string) {
    if entry != "" && entry[|entry| - 1] == '*' then entry[..|entry| - 1] <= index else entry == index
  }

  /** A scope allows exactly the names its list says. */
  lemma AllowsAsWritten(list: seq<string>, index: string)
    requires ParseScope(list).Ok?
    ensures Allows(ParseScope(list).value, index) <==> exists entry :: entry in Written(list) && Says(entry, index)
  {
    var written, scope := Written(list), ParseScope(list).value;
    ListIsRead(list);
    forall i | 0 <= i < |written|
      ensures Says(written[i], index) <==> Matches(scope[i], index)
    {
      assert ParsePattern(written[i]) == Ok(scope[i]);
    }
    if Allows(scope, index) {
      var i :| 0 <= i < |scope| && Matches(scope[i], index);
      assert written[i] in written && Says(written[i], index);
    }
  }

  /** A stem without stars and spaces, with a star, parses to its prefix. */
  lemma StarredParses(stem: string)
    requires stem != "" && forall c :: c in stem ==> c != '*' && !IsSpace(c)
    ensures ParseScope([stem + "*"]) == Ok([Prefix(stem)])
  {
    var entry := stem + "*";
    assert stem[0] in stem;
    TrimKeepsTight(entry, IsSpace);
    ParseShow(Prefix(stem));
    assert ParsePattern(entry) == Ok(Prefix(stem)) && Trimmed(entry) == entry;
    assert [entry][..|[entry]| - 1] == [];
    assert ParseList([entry]) == Ok([] + [Prefix(stem)]);
    assert [] + [Prefix(stem)] == [Prefix(stem)];
  }

  // ----- One pattern against another

  predicate Covers(p: Pattern, q: Pattern) {
    match (p, q)
    case (Exact(a), Exact(b)) => a == b
    case (Exact(_), Prefix(_)) => false
    case (Prefix(a), _) => a <= q.text
  }

  predicate Overlaps(p: Pattern, q: Pattern) {
    match (p, q)
    case (Exact(a), Exact(b)) => a == b
    case (Exact(name), Prefix(_)) => Matches(q, name)
    case (Prefix(_), Exact(name)) => Matches(p, name)
    case (Prefix(a), Prefix(b)) => b <= a || a <= b
  }

  /** `covers` is inclusion of the names matched. */
  lemma CoversIsInclusion(p: Pattern, q: Pattern)
    ensures Covers(p, q) <==> forall name :: Matches(q, name) ==> Matches(p, name)
  {
    assert Matches(q, q.text);
    if q.Prefix? {
      assert Matches(q, q.text + "x") && q.text + "x" != q.text;
    }
  }

  lemma CoversTwice(p: Pattern, q: Pattern, r: Pattern)
    requires Covers(p, q) && Covers(q, r)
    ensures Covers(p, r)
  {
  }

  /** `overlaps` is a name both match. */
  lemma OverlapsIsCommonName(p: Pattern, q: Pattern)
    ensures Overlaps(p, q) <==> exists name :: Matches(p, name) && Matches(q, name)
  {
    if Overlaps(p, q) {
      assert Matches(p, p.text) && Matches(q, q.text);
      assert Matches(p, q.text) || Matches(q, p.text);
    }
  }

  // ----- One scope against another

  predicate Covered(scope: Scope, q: Pattern) {
    exists p :: p in scope && Covers(p, q)
  }

  /** The first of `inner`'s patterns no single pattern of `scope` covers. */
  function FirstOutside(scope: Scope, inner: Scope): (r: Option<Pattern>)
    ensures r.None? <==> forall q :: q in inner ==> Covered(scope, q)
    ensures r.Some? ==> r.value in inner && !Covered(scope, r.value)
  {
    if inner == [] then None
    else if !Covered(scope, inner[0]) then Some(inner[0])
    else
      assert inner == [inner[0]] + inner[1..];
      FirstOutside(scope, inner[1..])
  }

  function FirstOverlapping(p: Pattern, other: Scope): (r: Option<Pattern>)
    ensures r.None? <==> forall q :: q in other ==> !Overlaps(p, q)
    ensures r.Some? ==> r.value in other && Overlaps(p, r.value)
  {
    if other == [] then None
    else if Overlaps(p, other[0]) then Some(other[0])
    else
      assert other == [other[0]] + other[1..];
      FirstOverlapping(p, other[1..])
  }

  function OverlapWith(scope: Scope, other: Scope): (r: Option<(Pattern, Pattern)>)
    ensures r.None? <==> forall p, q :: p in scope && q in other ==> !Overlaps(p, q)
    ensures r.Some? ==> r.value.0 in scope && r.value.1 in other && Overlaps(r.value.0, r.value.1)
  {
    if scope == [] then None
    else
      assert scope == [scope[0]] + scope[1..];
      match FirstOverlapping(scope[0], other)
      case Some(q) => Some((scope[0], q))
      case None => OverlapWith(scope[1..], other)
  }

  /** The overlap test is exact: a pair is reported if and only if some index name is allowed by both scopes. */
  lemma OverlapIsSharedIndex(a: Scope, b: Scope)
    ensures OverlapWith(a, b).Some? <==> exists index :: Allows(a, index) && Allows(b, index)
  {
    var r := OverlapWith(a, b);
    if r.Some? {
      OverlapsIsCommonName(r.value.0, r.value.1);
      var index :| Matches(r.value.0, index) && Matches(r.value.1, index);
      assert Allows(a, index) && Allows(b, index);
    } else {
      forall index | Allows(a, index)
        ensures !Allows(b, index)
      {
        var p :| p in a && Matches(p, index);
        forall q | q in b
          ensures !Matches(q, index)
        {
          OverlapsIsCommonName(p, q);
        }
      }
    }
  }

  /** Nothing outside: every index the inner scope allows, the outer one allows. */
  lemma NothingOutsideIsIncluded(scope: Scope, inner: Scope)
    requires FirstOutside(scope, inner).None?
    ensures forall index :: Allows(inner, index) ==> Allows(scope, index)
  {
    forall index | Allows(inner, index)
      ensures Allows(scope, index)
    {
      var q :| q in inner && Matches(q, index);
      var p :| p in scope && Covers(p, q);
      CoversIsInclusion(p, q);
    }
  }

  lemma InsideTwice(outer: Scope, scope: Scope, inner: Scope)
    requires FirstOutside(outer, scope).None? && FirstOutside(scope, inner).None?
    ensures FirstOutside(outer, inner).None?
  {
    forall r | r in inner
      ensures Covered(outer, r)
    {
      var q :| q in scope && Covers(q, r);
      var p :| p in outer && Covers(p, q);
      CoversTwice(p, q, r);
    }
  }

  // ----- When inclusion of names needs no more than single patterns. `valid` says what can be an index's name.

  type Names = string -> bool

  /** Some name begins with `s`. */
  ghost predicate Viable(valid: Names, s: string) {
    exists name :: valid(name) && s <= name
  }

  /** No name goes on after `s`. */
  ghost predicate Ends(valid: Names, s: string) {
    forall name :: valid(name) && s <= name ==> name == s
  }

  /** Every index name that `inner` allows, `scope` allows. */
  ghost predicate IncludedAmong(valid: Names, scope: Scope, inner: Scope) {
    forall index :: valid(index) && Allows(inner, index) ==> Allows(scope, index)
  }

  /** Every pattern of `inner` matches some name. */
  ghost predicate Meant(valid: Names, inner: Scope) {
    forall q :: q in inner ==> exists name :: valid(name) && Matches(q, name)
  }

  /** Enough at `stem + [c]`: its prefix, or the name itself where that is the only one. */
  ghost predicate Taken(valid: Names, scope: Scope, longer: string) {
    Prefix(longer) in scope || (Ends(valid, longer) && Exact(longer) in scope)
  }

  /** Every name that starts with `stem` is allowed, by the bare name and one pattern per way to go on. */
  ghost predicate SpellsOut(valid: Names, scope: Scope, stem: string) {
    && Viable(valid, stem) && !Covered(scope, Prefix(stem))
    && (valid(stem) ==> Exact(stem) in scope)
    && forall c :: Viable(valid, stem + [c]) ==> Taken(valid, scope, stem + [c])
  }

  /** A pattern that allows a name starting with an uncovered stem is longer than the stem, or the stem itself. */
  lemma LongerThanStem(scope: Scope, stem: string, p: Pattern, name: string)
    requires !Covered(scope, Prefix(stem)) && p in scope && Matches(p, name) && stem <= name
    ensures p == Exact(stem) || |stem| < |p.text|
    ensures p.text <= name && (p.Exact? ==> p.text == name)
  {
    assert p.Prefix? && |p.text| <= |stem| ==> Covers(p, Prefix(stem));
  }

  lemma UncoveredGoesOn(scope: Scope, stem: string, c: char)
    requires !Covered(scope, Prefix(stem)) && Prefix(stem + [c]) !in scope
    ensures !Covered(scope, Prefix(stem + [c]))
  {
    forall p | p in scope
      ensures !Covers(p, Prefix(stem + [c]))
    {
      assert p.Prefix? && p.text <= stem + [c] && |p.text| <= |stem| ==> Covers(p, Prefix(stem));
      assert p.Prefix? && p.text <= stem + [c] && |p.text| > |stem| ==> p.text == stem + [c];
    }
  }

  /** Where a way to go on is not taken, more than one name goes that way, and a longer pattern allows one of them. */
  lemma UntakenGoesOn(valid: Names, scope: Scope, stem: string, c: char, longest: nat)
    requires !Covered(scope, Prefix(stem)) && IncludedAmong(valid, scope, [Prefix(stem)])
    requires Viable(valid, stem + [c]) && !Taken(valid, scope, stem + [c])
    requires forall p :: p in scope ==> |p.text| <= longest
    ensures !Covered(scope, Prefix(stem + [c])) && IncludedAmong(valid, scope, [Prefix(stem + [c])])
    ensures |stem| + 1 < longest
  {
    var longer := stem + [c];
    UncoveredGoesOn(scope, stem, c);
    forall index | valid(index) && Allows([Prefix(longer)], index)
      ensures Allows(scope, index)
    {
      assert Prefix(stem) in [Prefix(stem)] && Matches(Prefix(stem), index);
    }
    var name :| valid(name) && longer <= name && (Ends(valid, longer) || name != longer);
    assert Prefix(longer) in [Prefix(longer)] && Matches(Prefix(longer), name);
    assert Allows(scope, name);
    var p :| p in scope && Matches(p, name);
    LongerThanStem(scope, longer, p, name);
  }

  /** A scope that allows an uncovered prefix's names spells some prefix out, that one or a longer one. */
  lemma {:induction false} SomeStemSpelledOut(valid: Names, scope: Scope, stem: string, longest: nat)
    returns (deep: string)
    requires Viable(valid, stem) && !Covered(scope, Prefix(stem)) && IncludedAmong(valid, scope, [Prefix(stem)])
    requires forall p :: p in scope ==> |p.text| <= longest
    ensures stem <= deep && SpellsOut(valid, scope, deep)
    decreases longest - |stem|
  {
    if valid(stem) {
      assert Prefix(stem) in [Prefix(stem)] && Matches(Prefix(stem), stem);
      assert Allows(scope, stem);
      var p :| p in scope && Matches(p, stem);
      LongerThanStem(scope, stem, p, stem);
    }
    if c :| Viable(valid, stem + [c]) && !Taken(valid, scope, stem + [c]) {
      UntakenGoesOn(valid, scope, stem, c, longest);
      deep := SomeStemSpelledOut(valid, scope, stem + [c], longest);
    } else {
      deep := stem;
    }
  }

  lemma {:induction false} LongestText(scope: Scope) returns (longest: nat)
    ensures forall p :: p in scope ==> |p.text| <= longest
  {
    longest := 0;
    if scope != [] {
      assert scope == [scope[0]] + scope[1..];
      var rest := LongestText(scope[1..]);
      longest := if |scope[0].text| >= rest then |scope[0].text| else rest;
    }
  }

  lemma SpelledOutIsIncluded(valid: Names, scope: Scope, stem: string)
    requires SpellsOut(valid, scope, stem)
    ensures IncludedAmong(valid, scope, [Prefix(stem)])
  {
    forall index | valid(index) && Allows([Prefix(stem)], index)
      ensures Allows(scope, index)
    {
      if index == stem {
        assert Matches(Exact(stem), index);
      } else {
        var longer := stem + [index[|stem|]];
        assert longer <= index;
        assert Viable(valid, longer);
        assert Matches(Prefix(longer), index) && Matches(Exact(longer), longer);
      }
    }
  }

  /** The check passes every scope, all of it meant, whose names are all allowed. */
  ghost predicate Complete(valid: Names, scope: Scope) {
    forall inner :: Meant(valid, inner) && IncludedAmong(valid, scope, inner) ==> FirstOutside(scope, inner).None?
  }

  /** A pattern whose names are all allowed is covered, unless the scope spells its prefix or a longer one out. */
  lemma CoveredUnlessSpelledOut(valid: Names, scope: Scope, inner: Scope, q: Pattern)
    requires IncludedAmong(valid, scope, inner) && Meant(valid, inner) && q in inner
    requires forall stem :: q.text <= stem ==> !SpellsOut(valid, scope, stem)
    ensures Covered(scope, q)
  {
    var name :| valid(name) && Matches(q, name);
    assert Allows(scope, name);
    var p :| p in scope && Matches(p, name);
    if q.Exact? {
      assert Covers(p, q);
    } else if !Covered(scope, q) {
      forall index | valid(index) && Allows([q], index)
        ensures Allows(scope, index)
      {
        assert Matches(q, index);
      }
      var longest := LongestText(scope);
      var deep := SomeStemSpelledOut(valid, scope, q.text, longest);
      assert false;
    }
  }

  /** A scope that spells no prefix out passes everything its names include. */
  lemma IncludedIsNothingOutside(valid: Names, scope: Scope, inner: Scope)
    requires forall q, stem :: q in inner && q.text <= stem ==> !SpellsOut(valid, scope, stem)
    requires Meant(valid, inner) && IncludedAmong(valid, scope, inner)
    ensures FirstOutside(scope, inner).None?
  {
    forall q | q in inner
      ensures Covered(scope, q)
    {
      CoveredUnlessSpelledOut(valid, scope, inner, q);
    }
  }

  /**
    Whatever names there can be, the syntactic check is exact for a scope if and only if the scope does not
    spell a prefix out: allow the bare name and every way to go on without covering the prefix itself.
   */
  lemma CompleteUnlessSpelledOut(valid: Names, scope: Scope)
    ensures Complete(valid, scope) <==> forall stem :: !SpellsOut(valid, scope, stem)
  {
    if stem :| SpellsOut(valid, scope, stem) {
      SpelledOutIsIncluded(valid, scope, stem);
      assert Prefix(stem) in [Prefix(stem)];
      var name :| valid(name) && stem <= name;
      assert Matches(Prefix(stem), name);
      assert Meant(valid, [Prefix(stem)]);
      assert FirstOutside(scope, [Prefix(stem)]).Some?;
    } else {
      forall inner | Meant(valid, inner) && IncludedAmong(valid, scope, inner)
        ensures FirstOutside(scope, inner).None?
      {
        IncludedIsNothingOutside(valid, scope, inner);
      }
    }
  }

  // ----- All strings over an alphabet

  predicate Over(letters: set<char>, s: string) {
    forall c :: c in s ==> c in letters
  }

  function Alphabet(letters: set<char>): Names {
    s => Over(letters, s)
  }

  /** The patterns of `scope` one character longer than `stem`. */
  function OneLonger(scope: Scope, stem: string): set<Pattern> {
    set p | p in scope && |p.text| == |stem| + 1
  }

  function LastLetters(patterns: set<Pattern>): set<char> {
    set p | p in patterns && p.text != "" :: p.text[|p.text| - 1]
  }

  lemma {:induction false} LettersAtMost(patterns: set<Pattern>)
    ensures |LastLetters(patterns)| <= |patterns|
  {
    if patterns != {} {
      var p := Pick(patterns);
      var rest := patterns - {p};
      LettersAtMost(rest);
      if p.text == "" {
        assert LastLetters(patterns) == LastLetters(rest);
      } else {
        assert LastLetters(patterns) == LastLetters(rest) + {p.text[|p.text| - 1]};
      }
    }
  }

  /** Over an alphabet a spelled-out prefix takes the bare name and one prefix for every letter. */
  lemma SpelledOverAlphabet(letters: set<char>, scope: Scope, stem: string, c: char)
    requires SpellsOut(Alphabet(letters), scope, stem) && c in letters
    ensures Exact(stem) in scope && Prefix(stem + [c]) in scope
  {
    var name :| Over(letters, name) && stem <= name;
    assert forall d :: d in stem ==> d in name;
    var longer := stem + [c];
    assert Over(letters, stem) && Over(letters, longer) && Over(letters, longer + [c]);
    assert Alphabet(letters)(longer) && Alphabet(letters)(longer + [c]);
    assert Viable(Alphabet(letters), longer) && !Ends(Alphabet(letters), longer);
  }

  lemma SpellingOutTakesMany(letters: set<char>, scope: Scope, stem: string)
    requires SpellsOut(Alphabet(letters), scope, stem)
    ensures |scope| > |letters|
    ensures letters != {} ==> exists p :: p in scope && p.Prefix?
  {
    var longer := OneLonger(scope, stem);
    forall c | c in letters
      ensures c in LastLetters(longer) && Exact(stem) in scope && Prefix(stem + [c]) in scope
    {
      SpelledOverAlphabet(letters, scope, stem, c);
      assert Prefix(stem + [c]) in longer;
    }
    var name :| Over(letters, name) && stem <= name;
    assert forall d :: d in stem ==> d in name;
    assert Alphabet(letters)(stem);
    LettersAtMost(longer);
    SubsetSize(letters, LastLetters(longer));
    SubsetSize(longer + {Exact(stem)}, Elements(scope));
    ElementsAtMost(scope);
  }

  /** So it is exact for every scope of no more patterns than the alphabet has letters, and of exact names alone. */
  lemma FewPatternsAreComplete(letters: set<char>, scope: Scope)
    requires |scope| <= |letters| || (letters != {} && forall p :: p in scope ==> p.Exact?)
    ensures Complete(Alphabet(letters), scope)
  {
    forall stem
      ensures !SpellsOut(Alphabet(letters), scope, stem)
    {
      if SpellsOut(Alphabet(letters), scope, stem) {
        SpellingOutTakesMany(letters, scope, stem);
        assert false;
      }
    }
    CompleteUnlessSpelledOut(Alphabet(letters), scope);
  }

  /** The bare name and one prefix per letter. */
  function SpelledOut(stem: string, letters: seq<char>): Scope {
    if letters == [] then [Exact(stem)]
    else SpelledOut(stem, letters[..|letters| - 1]) + [Prefix(stem + [letters[|letters| - 1]])]
  }

  lemma {:induction false} SpelledOutHas(stem: string, letters: seq<char>)
    ensures |SpelledOut(stem, letters)| == |letters| + 1
    ensures forall p :: p in SpelledOut(stem, letters)
                        <==> p == Exact(stem) || exists c :: c in letters && p == Prefix(stem + [c])
  {
    if letters != [] {
      var front, last := letters[..|letters| - 1], letters[|letters| - 1];
      assert letters == front + [last];
      SpelledOutHas(stem, front);
    }
  }

  /** With a pattern for every way to go on, that scope spells its stem out, whatever names there can be. */
  lemma SpelledOutSpellsOut(valid: Names, stem: string, letters: seq<char>)
    requires Viable(valid, stem) && forall c :: Viable(valid, stem + [c]) ==> c in letters
    ensures SpellsOut(valid, SpelledOut(stem, letters), stem)
    ensures FirstOutside(SpelledOut(stem, letters), [Prefix(stem)]) == Some(Prefix(stem))
    ensures !Complete(valid, SpelledOut(stem, letters))
  {
    var scope := SpelledOut(stem, letters);
    SpelledOutHas(stem, letters);
    assert !Covered(scope, Prefix(stem));
    CompleteUnlessSpelledOut(valid, scope);
    assert Prefix(stem) in [Prefix(stem)];
  }

  /**
    The bound is the best there is: over any alphabet, one pattern more than it has letters is enough to
    allow everything a prefix allows without covering it.
   */
  lemma OnePatternMoreIsIncomplete(letters: seq<char>, stem: string)
    ensures var scope, valid := SpelledOut(stem, letters), Alphabet(Elements(letters));
            && |scope| == |letters| + 1
            && IncludedAmong(valid, scope, [Prefix(stem)])
            && FirstOutside(scope, [Prefix(stem)]) == Some(Prefix(stem))
            && (Over(Elements(letters), stem) ==> !Complete(valid, scope))
  {
    var scope, valid := SpelledOut(stem, letters), Alphabet(Elements(letters));
    SpelledOutHas(stem, letters);
    assert !Covered(scope, Prefix(stem));
    forall c | Viable(valid, stem + [c])
      ensures c in letters
    {
      var name :| valid(name) && stem + [c] <= name;
      assert name[|stem|] == c && c in name;
    }
    if Over(Elements(letters), stem) {
      assert valid(stem);
      SpelledOutSpellsOut(valid, stem, letters);
      SpelledOutIsIncluded(valid, scope, stem);
    } else {
      NothingOver(Elements(letters), stem, scope);
    }
  }

  lemma NothingOver(letters: set<char>, stem: string, scope: Scope)
    requires !Over(letters, stem)
    ensures IncludedAmong(Alphabet(letters), scope, [Prefix(stem)])
  {
    var c :| c in stem && c !in letters;
    forall index | Allows([Prefix(stem)], index)
      ensures !Over(letters, index)
    {
      assert stem <= index && c in index;
    }
  }

  // ----- The names the node accepts

  predicate IsAlphanumeric(c: char) {
    'a' <= c <= 'z' || 'A' <= c <= 'Z' || '0' <= c <= '9'
  }

  predicate IsNameChar(c: char) {
    IsAlphanumeric(c) || c == '_' || c == '-' || c == '.'
  }

  /** Not empty, at most 255 long, alphanumeric first, no two dots together, no other characters. */
  predicate Accepted(name: string) {
    && name != "" && |name| <= 255 && IsAlphanumeric(name[0])
    && (forall i, j :: 0 <= i && j == i + 1 < |name| ==> !(name[i] == '.' && name[j] == '.'))
    && forall c :: c in name ==> IsNameChar(c)
  }

  /** Accepted names have neither stars nor spaces. */
  ghost predicate PlainNames(valid: Names) {
    forall name, c :: valid(name) && c in name ==> c != '*' && !IsSpace(c)
  }

  lemma AcceptedIsPlain()
    ensures PlainNames(Accepted)
  {
  }

  /**
    Among the accepted names a stem that ends in a dot has one way less to go on: the bare name and a prefix
    for every letter but the dot spell it out.
   */
  lemma DotIsSpelledOut(stem: string, letters: seq<char>)
    requires Accepted(stem) && stem[|stem| - 1] == '.' && forall c :: IsNameChar(c) && c != '.' ==> c in letters
    ensures !Complete(Accepted, SpelledOut(stem, letters))
  {
    forall c | Viable(Accepted, stem + [c])
      ensures c in letters
    {
      var name :| Accepted(name) && stem + [c] <= name;
      assert name[|stem|] == c && c in name && name[|stem| - 1] == '.';
    }
    assert Viable(Accepted, stem);
    SpelledOutSpellsOut(Accepted, stem, letters);
  }
}
