/** The lexicon compiled for the runtime, and the runtime that reads it back. */
module LexiconTables {
  import opened Wrappers
  import opened Sets
  import opened Guesser

  const MAX_CTX: nat := 7

  // ----- What the build starts from

  type Lexicon = map<string, string>

  /** The model: the lexicon for the forms it knows, the guesser for the rest. */
  function Answer(lex: Lexicon, best: Table, word: string): string {
    if word in lex then lex[word] else Guess(best, MAX_CTX, word)
  }

  predicate Exceptional(lex: Lexicon, best: Table, form: string) {
    form in lex && Guess(best, MAX_CTX, form) != lex[form]
  }

  // ----- What the build writes

  /**
    Rewrites as numbers (add id times 128 plus characters to strip), contexts keyed by their reversal,
    and the strings to add as one text with the places where each begins and ends.
   */
  datatype Tables = Tables(exceptions: map<string, nat>, contexts: map<string, nat>, offsets: seq<nat>, adds: string)

  function StripOf(code: nat): nat { code % 128 }

  function IdOf(code: nat): nat { code / 128 }

  /** The string numbered `id` in a packed text. */
  function PackedAt(offsets: seq<nat>, text: string, id: nat): string {
    if id + 1 < |offsets| && offsets[id] <= offsets[id + 1] <= |text| then text[offsets[id]..offsets[id + 1]] else ""
  }

  function AddOf(t: Tables, code: nat): string {
    PackedAt(t.offsets, t.adds, IdOf(code))
  }

  predicate Decodes(t: Tables, code: nat, rw: Rewrite) {
    IdOf(code) + 1 < |t.offsets| && StripOf(code) == |rw.strip| && AddOf(t, code) == rw.add
  }

  function Reverse(s: string): (r: string)
    ensures |r| == |s| && forall i :: 0 <= i < |s| ==> r[i] == s[|s| - 1 - i]
  {
    seq(|s|, i requires 0 <= i < |s| => s[|s| - 1 - i])
  }

  /** The tables' contexts are those of `keep`, every rewrite readable. */
  ghost predicate HoldsContexts(t: Tables, keep: Table) {
    && (forall k :: k in t.contexts <==> Reverse(k) in keep)
    && (forall k :: k in t.contexts ==> Decodes(t, t.contexts[k], keep[Reverse(k)]))
  }

  /** The tables hold exactly the forms the guesser gets wrong and the contexts that decide, every rewrite readable. */
  ghost predicate Compiled(t: Tables, lex: Lexicon, best: Table) {
    && (forall f :: f in t.exceptions <==> Exceptional(lex, best, f))
    && (forall f :: f in t.exceptions ==> Decodes(t, t.exceptions[f], RewriteFor(f, lex[f])))
    && HoldsContexts(t, Pruned(best))
  }

  // ----- The runtime

  /** The longest of the word's reversed prefixes, up to `n`, that holds a rewrite leaving a stem. */
  function GuessCode(contexts: map<string, nat>, word: string, n: nat): Option<nat>
    requires n <= |word|
  {
    if n == 0 then None
    else
      var key := Reverse(word)[..n];
      if key in contexts && |word| >= StripOf(contexts[key]) + MIN_STEM then Some(contexts[key])
      else GuessCode(contexts, word, n - 1)
  }

  function FindCode(t: Tables, word: string): Option<nat> {
    if word in t.exceptions then Some(t.exceptions[word])
    else GuessCode(t.contexts, word, Longest(MAX_CTX, word))
  }

  /** Cut at most the whole word, then append. */
  function Applied(t: Tables, code: nat, word: string): string {
    (if StripOf(code) <= |word| then word[..|word| - StripOf(code)] else "") + AddOf(t, code)
  }

  function Spelled(t: Tables, found: Option<nat>, word: string): string {
    if found.None? then word else Applied(t, found.value, word)
  }

  function Stemmed(t: Tables, word: string): string {
    Spelled(t, FindCode(t, word), word)
  }

  // ----- Compiled and source model answer alike

  lemma ReversedContext(word: string, n: nat)
    requires n <= |word|
    ensures Reverse(Reverse(word)[..n]) == Suffix(word, n)
  {
  }

  lemma ContextStrip(keep: Table, word: string, n: nat)
    requires StripsWithin(keep, MAX_CTX) && n <= |word| && Suffix(word, n) in keep
    ensures EndsWith(word, keep[Suffix(word, n)].strip)
  {
  }

  /** The word's last `n` characters are found reversed exactly when kept, and read back fit the same words. */
  ghost predicate ReadsAlike(t: Tables, keep: Table, word: string, n: nat)
    requires n <= |word|
  {
    var key, ctx := Reverse(word)[..n], Suffix(word, n);
    && (key in t.contexts <==> ctx in keep)
    && (ctx in keep ==>
         && Decodes(t, t.contexts[key], keep[ctx])
         && (|word| >= StripOf(t.contexts[key]) + MIN_STEM <==> Applies(keep[ctx], word)))
  }

  lemma ContextReads(t: Tables, keep: Table, word: string, n: nat)
    requires HoldsContexts(t, keep) && StripsWithin(keep, MAX_CTX) && n <= |word|
    ensures ReadsAlike(t, keep, word, n)
  {
    ReversedContext(word, n);
    if Suffix(word, n) in keep {
      ContextStrip(keep, word, n);
    }
  }

  /** The reader stops at a code for the very rewrite the walk stops at. */
  ghost predicate PicksAlike(t: Tables, picked: Option<Rewrite>, code: Option<nat>) {
    if code.None? then picked.None? else picked.Some? && Decodes(t, code.value, picked.value)
  }

  lemma {:induction false} ReaderPicks(t: Tables, keep: Table, word: string, n: nat)
    requires n <= |word| && forall m: nat :: m <= n ==> ReadsAlike(t, keep, word, m)
    ensures PicksAlike(t, Picked(keep, word, n), GuessCode(t.contexts, word, n))
  {
    if n > 0 {
      ReaderPicks(t, keep, word, n - 1);
      assert ReadsAlike(t, keep, word, n);
    }
  }

  lemma SpelledAlike(t: Tables, rw: Rewrite, code: nat, word: string)
    requires Decodes(t, code, rw) && Applies(rw, word)
    ensures Applied(t, code, word) == Rewritten(word, |rw.strip|, rw.add)
  {
  }

  /** A word that is no exception is read through the contexts, and comes out as the guesser has it. */
  lemma ReaderGuesses(t: Tables, best: Table, word: string, n: nat)
    requires HoldsContexts(t, Pruned(best)) && StripsWithin(best, MAX_CTX) && n <= |word|
    ensures Spelled(t, GuessCode(t.contexts, word, n), word) == Walk(best, word, n)
  {
    var keep := Pruned(best);
    var picked, code := Picked(keep, word, n), GuessCode(t.contexts, word, n);
    assert PicksAlike(t, picked, code) by {
      forall m: nat | m <= n
        ensures ReadsAlike(t, keep, word, m)
      {
        ContextReads(t, keep, word, m);
      }
      ReaderPicks(t, keep, word, n);
    }
    WalkPicks(keep, word, n);
    if code.Some? {
      SpelledAlike(t, picked.value, code.value, word);
    }
    PruningKeepsAnswers(best, word, n);
  }

  /** For every word, known or not, the compiled tables answer what the lexicon and the guesser answer. */
  lemma CompiledAnswersAsModel(t: Tables, lex: Lexicon, best: Table, word: string)
    requires Compiled(t, lex, best) && StripsWithin(best, MAX_CTX)
    ensures Stemmed(t, word) == Answer(lex, best, word)
  {
    if word in t.exceptions {
      RewriteRoundTrip(word, lex[word]);
    } else {
      ReaderGuesses(t, best, word, Longest(MAX_CTX, word));
    }
  }

  // ----- The runtime's one pass over the reversed word

  /** The codes of the contexts met on the way from one character to `n`, shortest first. */
  function Met(contexts: map<string, nat>, word: string, n: nat): seq<nat>
    requires n <= |word|
  {
    if n == 0 then []
    else
      var key := Reverse(word)[..n];
      Met(contexts, word, n - 1) + if key in contexts then [contexts[key]] else []
  }

  function LastFitting(hits: seq<nat>, chars: nat): Option<nat> {
    if hits == [] then None
    else if chars >= StripOf(hits[|hits| - 1]) + MIN_STEM then Some(hits[|hits| - 1])
    else LastFitting(hits[..|hits| - 1], chars)
  }

  lemma {:induction false} LastMetDecides(contexts: map<string, nat>, word: string, n: nat)
    requires n <= |word|
    ensures LastFitting(Met(contexts, word, n), |word|) == GuessCode(contexts, word, n)
  {
    if n > 0 {
      LastMetDecides(contexts, word, n - 1);
      var key := Reverse(word)[..n];
      if key in contexts {
        assert Met(contexts, word, n)[..|Met(contexts, word, n)| - 1] == Met(contexts, word, n - 1);
      } else {
        assert Met(contexts, word, n) == Met(contexts, word, n - 1);
      }
    }
  }

  /** Some context starts with `path`: the automaton has not run dead. */
  predicate Alive(contexts: map<string, nat>, path: string) {
    exists key :: key in contexts && path <= key
  }

  lemma {:induction false} DeadEnd(contexts: map<string, nat>, word: string, n: nat, m: nat)
    requires n < m <= |word| && !Alive(contexts, Reverse(word)[..n + 1])
    ensures Met(contexts, word, m) == Met(contexts, word, n)
  {
    assert Reverse(word)[..n + 1] <= Reverse(word)[..m];
    if m > n + 1 {
      DeadEnd(contexts, word, n, m - 1);
    }
  }

  method WalkReversed(contexts: map<string, nat>, word: string) returns (hits: seq<nat>)
    ensures hits == Met(contexts, word, Longest(MAX_CTX, word))
  {
    hits := [];
    var n, limit := 0, Longest(MAX_CTX, word);
    while n < limit
      invariant n <= limit && hits == Met(contexts, word, n)
    {
      var key := Reverse(word)[..n + 1];
      if !Alive(contexts, key) {
        DeadEnd(contexts, word, n, limit);
        return;
      }
      if key in contexts {
        hits := hits + [contexts[key]];
      }
      n := n + 1;
    }
  }

  method Find(t: Tables, word: string) returns (code: Option<nat>)
    ensures code == FindCode(t, word)
  {
    if word in t.exceptions {
      return Some(t.exceptions[word]);
    }
    var hits := WalkReversed(t.contexts, word);
    LastMetDecides(t.contexts, word, Longest(MAX_CTX, word));
    ghost var all := hits;
    while hits != []
      invariant LastFitting(hits, |word|) == LastFitting(all, |word|)
    {
      var hit := hits[|hits| - 1];
      if |word| >= StripOf(hit) + MIN_STEM {
        return Some(hit);
      }
      hits := hits[..|hits| - 1];
    }
    return None;
  }

  /** The cache of the most frequent forms holds the answers of the lookup it saves. */
  ghost predicate CacheOf(t: Tables, hot: map<string, Option<nat>>) {
    forall f :: f in hot ==> hot[f] == FindCode(t, f)
  }

  method Warm(t: Tables, forms: seq<string>) returns (hot: map<string, Option<nat>>)
    ensures CacheOf(t, hot) && hot.Keys == Elements(forms)
  {
    hot := map[];
    for k := 0 to |forms|
      invariant CacheOf(t, hot) && hot.Keys == Elements(forms[..k])
    {
      var code := Find(t, forms[k]);
      assert Elements(forms[..k + 1]) == Elements(forms[..k]) + {forms[k]};
      hot := hot[forms[k] := code];
    }
    assert forms[..|forms|] == forms;
  }

  /** What the analyzer does to a token, cache or no cache: the answer of the model the tables were built from. */
  method Stem(t: Tables, hot: map<string, Option<nat>>, word: string, ghost lex: Lexicon, ghost best: Table)
    returns (r: string)
    requires CacheOf(t, hot) && Compiled(t, lex, best) && StripsWithin(best, MAX_CTX)
    ensures r == Answer(lex, best, word)
  {
    CompiledAnswersAsModel(t, lex, best, word);
    var code;
    if word in hot {
      code := hot[word];
    } else {
      code := Find(t, word);
    }
    r := if code.None? then word else Applied(t, code.value, word);
  }

  // ----- The build

  /** The strings the rewrites of `m` append. */
  function AddsOf(m: map<string, Rewrite>): set<string> {
    set k | k in m :: m[k].add
  }

  /** The rewrites among `keys` that append `add`. */
  function Users(m: map<string, Rewrite>, keys: set<string>, add: string): set<string> {
    set k | k in m && k in keys && m[k].add == add
  }

  function UseCount(uses: map<string, nat>, add: string): nat {
    if add in uses then uses[add] else 0
  }

  method CountUses(m: map<string, Rewrite>, before: map<string, nat>) returns (uses: map<string, nat>)
    ensures uses.Keys == before.Keys + AddsOf(m)
    ensures forall a :: UseCount(uses, a) == UseCount(before, a) + |Users(m, m.Keys, a)|
  {
    uses := before;
    var todo := m.Keys;
    while todo != {}
      invariant todo <= m.Keys
      invariant uses.Keys == before.Keys + set k | k in m && k !in todo :: m[k].add
      invariant forall a :: UseCount(uses, a) == UseCount(before, a) + |Users(m, m.Keys - todo, a)|
    {
      var k :| k in todo;
      OneMoreUser(m, m.Keys - todo, k);
      assert m.Keys - (todo - {k}) == m.Keys - todo + {k};
      var add := m[k].add;
      uses := uses[add := 1 + UseCount(uses, add)];
      todo := todo - {k};
    }
    assert m.Keys - {} == m.Keys;
  }

  lemma OneMoreUser(m: map<string, Rewrite>, keys: set<string>, k: string)
    requires k in m && k !in keys
    ensures forall a :: |Users(m, keys + {k}, a)| == |Users(m, keys, a)| + if m[k].add == a then 1 else 0
  {
    forall a
      ensures |Users(m, keys + {k}, a)| == |Users(m, keys, a)| + if m[k].add == a then 1 else 0
    {
      if m[k].add == a {
        assert Users(m, keys + {k}, a) == Users(m, keys, a) + {k};
      } else {
        assert Users(m, keys + {k}, a) == Users(m, keys, a);
      }
    }
  }

  /** Most used first; equally used strings by `less`. */
  predicate Ahead(uses: map<string, nat>, less: (string, string) -> bool, a: string, b: string)
    requires a in uses && b in uses
  {
    uses[a] > uses[b] || (uses[a] == uses[b] && less(a, b))
  }

  ghost predicate IsOrder(less: (string, string) -> bool) {
    && (forall a, b :: a != b ==> less(a, b) || less(b, a))
    && (forall a, b, c :: less(a, b) && less(b, c) ==> less(a, c))
  }

  ghost predicate InIdOrder(uses: map<string, nat>, less: (string, string) -> bool, adds: seq<string>) {
    && Elements(adds) <= uses.Keys && Distinct(adds)
    && forall i, j :: 0 <= i < j < |adds| ==> adds[i] in uses && adds[j] in uses && Ahead(uses, less, adds[i], adds[j])
  }

  /** `a` put in at `p`. */
  function PutIn(adds: seq<string>, a: string, p: nat): (r: seq<string>)
    requires p <= |adds|
    ensures |r| == |adds| + 1
    ensures forall i :: 0 <= i < |r| ==> r[i] == if i < p then adds[i] else if i == p then a else adds[i - 1]
  {
    adds[..p] + [a] + adds[p..]
  }

  lemma PutInElements(adds: seq<string>, a: string, p: nat)
    requires p <= |adds|
    ensures Elements(PutIn(adds, a, p)) == Elements(adds) + {a}
  {
    var r := PutIn(adds, a, p);
    assert r[p] == a;
    forall i | 0 <= i < |adds|
      ensures adds[i] in r
    {
      assert r[if i < p then i else i + 1] == adds[i];
    }
  }

  lemma Inserted(uses: map<string, nat>, less: (string, string) -> bool, adds: seq<string>, a: string, p: nat)
    requires InIdOrder(uses, less, adds) && a in uses && a !in adds && p <= |adds|
    requires forall i :: 0 <= i < |adds| ==> adds[i] in uses
    requires forall i :: 0 <= i < p ==> Ahead(uses, less, adds[i], a)
    requires forall i :: p <= i < |adds| ==> Ahead(uses, less, a, adds[i])
    ensures InIdOrder(uses, less, PutIn(adds, a, p))
  {
    PutInElements(adds, a, p);
  }

  method InsertAdd(uses: map<string, nat>, less: (string, string) -> bool, adds: seq<string>, a: string)
    returns (r: seq<string>)
    requires IsOrder(less) && InIdOrder(uses, less, adds) && a in uses && a !in adds
    ensures InIdOrder(uses, less, r) && Elements(r) == Elements(adds) + {a}
  {
    var p := 0;
    assert forall i :: 0 <= i < |adds| ==> adds[i] in Elements(adds);
    while p < |adds| && Ahead(uses, less, adds[p], a)
      invariant p <= |adds| && forall i :: 0 <= i < p ==> Ahead(uses, less, adds[i], a)
    {
      p := p + 1;
    }
    forall j | p <= j < |adds|
      ensures Ahead(uses, less, a, adds[j])
    {
      assert Ahead(uses, less, a, adds[p]);
    }
    Inserted(uses, less, adds, a, p);
    PutInElements(adds, a, p);
    r := PutIn(adds, a, p);
  }

  method OrderAdds(uses: map<string, nat>, less: (string, string) -> bool) returns (adds: seq<string>)
    requires IsOrder(less)
    ensures InIdOrder(uses, less, adds) && Elements(adds) == uses.Keys
  {
    adds := [];
    var todo := uses.Keys;
    while todo != {}
      invariant todo <= uses.Keys && InIdOrder(uses, less, adds) && Elements(adds) == uses.Keys - todo
    {
      var a :| a in todo;
      adds := InsertAdd(uses, less, adds, a);
      todo := todo - {a};
    }
  }

  ghost predicate Numbers(ids: map<string, nat>, adds: seq<string>) {
    ids.Keys == Elements(adds) && forall a :: a in ids ==> ids[a] < |adds| && adds[ids[a]] == a
  }

  method NumberAdds(adds: seq<string>) returns (ids: map<string, nat>)
    requires Distinct(adds)
    ensures Numbers(ids, adds)
  {
    ids := map[];
    for i := 0 to |adds|
      invariant Numbers(ids, adds[..i])
    {
      ids := ids[adds[i] := i];
    }
    assert adds[..|adds|] == adds;
  }

  /** One text, and where in it each string begins and ends. */
  ghost predicate Packs(offsets: seq<nat>, text: string, adds: seq<string>) {
    && |offsets| == |adds| + 1 && offsets[|adds|] == |text|
    && (forall i, j :: 0 <= i <= j < |offsets| ==> offsets[i] <= offsets[j])
    && (forall i :: 0 <= i < |adds| ==> PackedAt(offsets, text, i) == adds[i])
  }

  method PackAdds(adds: seq<string>) returns (offsets: seq<nat>, text: string)
    ensures Packs(offsets, text, adds)
  {
    offsets, text := [0], "";
    for i := 0 to |adds|
      invariant Packs(offsets, text, adds[..i])
    {
      PackOne(offsets, text, adds, i);
      text := text + adds[i];
      offsets := offsets + [|text|];
    }
    assert adds[..|adds|] == adds;
  }

  lemma PackOne(offsets: seq<nat>, text: string, adds: seq<string>, i: nat)
    requires i < |adds| && Packs(offsets, text, adds[..i])
    ensures Packs(offsets + [|text + adds[i]|], text + adds[i], adds[..i + 1])
  {
    var longer, all := offsets + [|text + adds[i]|], text + adds[i];
    assert forall k :: 0 <= k < |offsets| ==> offsets[k] <= offsets[i] == |text|;
    forall k | 0 <= k < i + 1
      ensures PackedAt(longer, all, k) == adds[..i + 1][k]
    {
      if k < i {
        assert PackedAt(offsets, text, k) == adds[..i][k];
        assert all[offsets[k]..offsets[k + 1]] == text[offsets[k]..offsets[k + 1]];
      }
    }
  }

  lemma CodeParts(id: nat, strip: nat)
    requires strip < 128
    ensures IdOf(id * 128 + strip) == id && StripOf(id * 128 + strip) == strip
  {
  }

  ghost predicate Codes(codes: map<string, nat>, m: map<string, Rewrite>, adds: seq<string>) {
    && codes.Keys <= m.Keys
    && forall k :: k in codes ==>
         StripOf(codes[k]) == |m[k].strip| && IdOf(codes[k]) < |adds| && adds[IdOf(codes[k])] == m[k].add
  }

  /** Every rewrite as a number, or the length of one that strips more than the format holds. */
  method Encode(m: map<string, Rewrite>, ids: map<string, nat>, ghost adds: seq<string>)
    returns (r: Result<map<string, nat>, nat>)
    requires Numbers(ids, adds) && AddsOf(m) <= ids.Keys
    ensures r.Ok? ==> Codes(r.value, m, adds) && r.value.Keys == m.Keys
    ensures r.Err? <==> exists k :: k in m && |m[k].strip| >= 128
  {
    var codes: map<string, nat> := map[];
    var todo := m.Keys;
    while todo != {}
      invariant todo <= m.Keys && codes.Keys == m.Keys - todo && Codes(codes, m, adds)
      invariant forall k :: k in codes ==> |m[k].strip| < 128
    {
      var k :| k in todo;
      var rw := m[k];
      if |rw.strip| >= 128 {
        return Err(|rw.strip|);
      }
      assert rw.add in AddsOf(m);
      CodeParts(ids[rw.add], |rw.strip|);
      codes := codes[k := ids[rw.add] * 128 + |rw.strip|];
      todo := todo - {k};
    }
    return Ok(codes);
  }

  lemma CodesDecode(codes: map<string, nat>, m: map<string, Rewrite>, adds: seq<string>, t: Tables)
    requires Codes(codes, m, adds) && Packs(t.offsets, t.adds, adds)
    ensures forall k :: k in codes ==> Decodes(t, codes[k], m[k])
  {
  }

  function ReversedKeys(codes: map<string, nat>): map<string, nat> {
    map k | k in Reversals(codes.Keys) :: codes[Reverse(k)]
  }

  function Reversals(keys: set<string>): (r: set<string>)
    ensures forall k :: k in r <==> Reverse(k) in keys
  {
    ReverseTwice();
    set k | k in keys :: Reverse(k)
  }

  lemma ReverseTwice()
    ensures forall s :: Reverse(Reverse(s)) == s
  {
  }

  /** The rewrites of the forms the guesser gets wrong. */
  function Corrections(lex: Lexicon, best: Table): map<string, Rewrite> {
    map f | f in lex && Guess(best, MAX_CTX, f) != lex[f] :: RewriteFor(f, lex[f])
  }

  /**
    The build of one model: every rewrite that goes into the tables can be read back, and the build is
    refused exactly when one strips more than the format holds.
   */
  method BuildTables(lex: Lexicon, best: Table, less: (string, string) -> bool) returns (r: Result<Tables, nat>)
    requires IsOrder(less)
    ensures r.Ok? ==> Compiled(r.value, lex, best)
    ensures r.Err? <==> || (exists f :: f in Corrections(lex, best) && |Corrections(lex, best)[f].strip| >= 128)
                        || (exists c :: c in Pruned(best) && |Pruned(best)[c].strip| >= 128)
  {
    var corrections := Corrections(lex, best);
    var contexts := Prune(best);
    var uses := CountUses(corrections, map[]);
    uses := CountUses(contexts, uses);
    var adds := OrderAdds(uses, less);
    var ids := NumberAdds(adds);
    var exceptionCodes := Encode(corrections, ids, adds);
    if exceptionCodes.Err? {
      return Err(exceptionCodes.error);
    }
    var contextCodes := Encode(contexts, ids, adds);
    if contextCodes.Err? {
      return Err(contextCodes.error);
    }
    var offsets, text := PackAdds(adds);
    var t := Tables(exceptionCodes.value, ReversedKeys(contextCodes.value), offsets, text);
    CodesDecode(exceptionCodes.value, corrections, adds, t);
    CodesDecode(contextCodes.value, contexts, adds, t);
    return Ok(t);
  }

  /**
    Training, compiling and reading back, end to end: whenever the build goes through, every word is
    answered as the lexicon and the trained guesser answer it. It goes through unless a correction
    strips 128 characters or more; a context never does.
   */
  method CompileModel(lex: Lexicon, pairs: seq<Pair>, minSupport: int, less: (string, string) -> bool)
    returns (best: Table, r: Result<Tables, nat>)
    requires IsOrder(less)
    ensures Trained(best, pairs, minSupport, MAX_CTX)
    ensures r.Ok? ==> forall word :: Stemmed(r.value, word) == Answer(lex, best, word)
    ensures r.Err? <==> exists f :: f in Corrections(lex, best) && |Corrections(lex, best)[f].strip| >= 128
  {
    best := Train(pairs, minSupport, MAX_CTX);
    TrainedStripsWithin(best, pairs, minSupport, MAX_CTX);
    r := BuildTables(lex, best, less);
    if r.Ok? {
      forall word
        ensures Stemmed(r.value, word) == Answer(lex, best, word)
      {
        CompiledAnswersAsModel(r.value, lex, best, word);
      }
    }
  }
}
