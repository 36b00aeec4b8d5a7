/** The suffix-rewrite guesser: learned from (form, lemma) pairs, walked longest suffix first, pruned. */
module Guesser {
  import opened Wrappers

  const MIN_STEM: nat := 2

  datatype Rewrite = Rewrite(strip: string, add: string)

  datatype Pair = Pair(form: string, lemm: string)

  predicate EndsWith(s: string, tail: string) {
    |tail| <= |s| && s[|s| - |tail|..] == tail
  }

  /** The last `n` characters. */
  function Suffix(s: string, n: nat): string
    requires n <= |s|
  {
    s[|s| - n..]
  }

  // ----- One rewrite

  function CommonFrom(form: string, lemm: string, k: nat): (n: nat)
    requires k <= |form| && k <= |lemm| && form[..k] == lemm[..k]
    ensures k <= n <= |form| && n <= |lemm| && form[..n] == lemm[..n]
    ensures n < |form| && n < |lemm| ==> form[n] != lemm[n]
    decreases |form| - k
  {
    if k < |form| && k < |lemm| && form[k] == lemm[k] then
      assert form[..k + 1] == form[..k] + [form[k]] == lemm[..k + 1];
      CommonFrom(form, lemm, k + 1)
    else k
  }

  /** What is left of form and lemma past their longest common prefix. */
  function RewriteFor(form: string, lemm: string): Rewrite {
    var k := CommonFrom(form, lemm, 0);
    Rewrite(form[k..], lemm[k..])
  }

  /** `word` with `strip` characters cut off its end and `add` put on. */
  function Rewritten(word: string, strip: nat, add: string): string
    requires strip <= |word|
  {
    word[..|word| - strip] + add
  }

  /** Stripping and adding takes the form to its lemma, and nothing the two share is rewritten. */
  lemma RewriteRoundTrip(form: string, lemm: string)
    ensures var rw := RewriteFor(form, lemm);
            && EndsWith(form, rw.strip)
            && Rewritten(form, |rw.strip|, rw.add) == lemm
            && (rw.strip != "" && rw.add != "" ==> rw.strip[0] != rw.add[0])
  {
    var k := CommonFrom(form, lemm, 0);
    assert lemm == lemm[..k] + lemm[k..];
  }

  method MakeRewrite(form: string, lemm: string) returns (rw: Rewrite)
    ensures rw == RewriteFor(form, lemm)
  {
    var k := 0;
    while k < |form| && k < |lemm| && form[k] == lemm[k]
      invariant k <= |form| && k <= |lemm| && form[..k] == lemm[..k]
      invariant CommonFrom(form, lemm, 0) == CommonFrom(form, lemm, k)
    {
      assert form[..k + 1] == form[..k] + [form[k]] == lemm[..k + 1];
      k := k + 1;
    }
    rw := Rewrite(form[k..], lemm[k..]);
  }

  // ----- The walk

  type Table = map<string, Rewrite>

  predicate Applies(rw: Rewrite, word: string) {
    EndsWith(word, rw.strip) && |word| - |rw.strip| >= MIN_STEM
  }

  /** Suffixes of `word` from `n` characters down to one: the first that holds an applicable rewrite decides. */
  function Walk(best: Table, word: string, n: nat): string
    requires n <= |word|
  {
    if n == 0 then word
    else if Suffix(word, n) in best && Applies(best[Suffix(word, n)], word) then
      var rw := best[Suffix(word, n)];
      Rewritten(word, |rw.strip|, rw.add)
    else Walk(best, word, n - 1)
  }

  /** The rewrite the walk stops at. */
  function Picked(best: Table, word: string, n: nat): Option<Rewrite>
    requires n <= |word|
  {
    if n == 0 then None
    else if Suffix(word, n) in best && Applies(best[Suffix(word, n)], word) then Some(best[Suffix(word, n)])
    else Picked(best, word, n - 1)
  }

  lemma {:induction false} WalkPicks(best: Table, word: string, n: nat)
    requires n <= |word|
    ensures match Picked(best, word, n)
            case None => Walk(best, word, n) == word
            case Some(rw) => Applies(rw, word) && Walk(best, word, n) == Rewritten(word, |rw.strip|, rw.add)
  {
    if n > 0 {
      WalkPicks(best, word, n - 1);
    }
  }

  function Longest(maxCtx: nat, word: string): nat {
    if maxCtx < |word| then maxCtx else |word|
  }

  function Guess(best: Table, maxCtx: nat, word: string): string {
    Walk(best, word, Longest(maxCtx, word))
  }

  /** The word's last `n` characters hold a rewrite that fits it. */
  predicate Fitting(best: Table, word: string, n: nat) {
    && 1 <= n <= |word| && Suffix(word, n) in best
    && EndsWith(word, best[Suffix(word, n)].strip) && |word| >= |best[Suffix(word, n)].strip| + MIN_STEM
  }

  lemma {:induction false} WalkSkips(best: Table, word: string, n: nat, m: nat)
    requires m <= n <= |word| && forall k :: m < k <= n ==> !Fitting(best, word, k)
    ensures Walk(best, word, n) == Walk(best, word, m)
  {
    if m < n {
      assert !Fitting(best, word, n);
      WalkSkips(best, word, n - 1, m);
    }
  }

  /** The longest fitting suffix within the limit decides; where none fits the word is left alone. */
  lemma LongestDecides(best: Table, maxCtx: nat, word: string, n: nat)
    requires n <= Longest(maxCtx, word) && (n > 0 ==> Fitting(best, word, n))
    requires forall m :: n < m <= Longest(maxCtx, word) ==> !Fitting(best, word, m)
    ensures Guess(best, maxCtx, word)
            == if n == 0 then word
               else var rw := best[Suffix(word, n)]; word[..|word| - |rw.strip|] + rw.add
  {
    WalkSkips(best, word, Longest(maxCtx, word), n);
  }

  method FindLemma(best: Table, maxCtx: nat, word: string) returns (r: string)
    ensures r == Guess(best, maxCtx, word)
  {
    var n := Longest(maxCtx, word);
    while n > 0
      invariant 0 <= n <= |word| && Walk(best, word, n) == Guess(best, maxCtx, word)
    {
      var ctx := Suffix(word, n);
      if ctx in best {
        var rw := best[ctx];
        if EndsWith(word, rw.strip) && |word| - |rw.strip| >= MIN_STEM {
          return word[..|word| - |rw.strip|] + rw.add;
        }
      }
      n := n - 1;
    }
    r := word;
  }

  // ----- Pruning

  /** The rewrite of the nearest context of at most `n` characters that `ctx` ends with. */
  function Shorter(best: Table, ctx: string, n: nat): Option<Rewrite>
    requires n <= |ctx|
  {
    if n == 0 then None
    else if Suffix(ctx, n) in best then Some(best[Suffix(ctx, n)])
    else Shorter(best, ctx, n - 1)
  }

  /** A context decides something unless a shorter one, or leaving the word alone, already says the same. */
  predicate Decides(best: Table, ctx: string)
    requires ctx in best
  {
    var shorter := if ctx == "" then None else Shorter(best, ctx, |ctx| - 1);
    !(shorter == Some(best[ctx]) || (shorter.None? && best[ctx] == Rewrite("", "")))
  }

  function Pruned(best: Table): Table {
    map ctx | ctx in best && Decides(best, ctx) :: best[ctx]
  }

  method Prune(best: Table) returns (keep: Table)
    ensures keep == Pruned(best)
  {
    keep := map[];
    var todo := best.Keys;
    while todo != {}
      invariant todo <= best.Keys
      invariant keep == map ctx | ctx in best && ctx !in todo && Decides(best, ctx) :: best[ctx]
    {
      var ctx :| ctx in todo;
      var shorter := NearestShorter(best, ctx);
      if shorter != Some(best[ctx]) && (shorter.Some? || best[ctx] != Rewrite("", "")) {
        keep := keep[ctx := best[ctx]];
      }
      todo := todo - {ctx};
    }
  }

  method NearestShorter(best: Table, ctx: string) returns (r: Option<Rewrite>)
    ensures r == if ctx == "" then None else Shorter(best, ctx, |ctx| - 1)
  {
    if ctx == "" {
      return None;
    }
    var n := |ctx| - 1;
    while n > 0
      invariant 0 <= n < |ctx| && Shorter(best, ctx, n) == Shorter(best, ctx, |ctx| - 1)
    {
      if Suffix(ctx, n) in best {
        return Some(best[Suffix(ctx, n)]);
      }
      n := n - 1;
    }
    r := None;
  }

  /** Below a context, the walk does what that context's nearest shorter one says, if it applies. */
  lemma {:induction false} WalkTakesShorter(best: Table, word: string, n: nat, m: nat)
    requires m <= n <= |word|
    ensures match Shorter(best, Suffix(word, n), m)
            case None => Walk(best, word, m) == word
            case Some(rw) => Applies(rw, word) ==> Walk(best, word, m) == Rewritten(word, |rw.strip|, rw.add)
  {
    if m > 0 {
      assert Suffix(Suffix(word, n), m) == Suffix(word, m);
      WalkTakesShorter(best, word, n, m - 1);
    }
  }

  /** Dropping a context that decides nothing leaves the walk's answer where it was. */
  lemma DroppedChangesNothing(best: Table, word: string, n: nat)
    requires 0 < n <= |word| && Suffix(word, n) in best && !Decides(best, Suffix(word, n))
    ensures Walk(best, word, n) == Walk(best, word, n - 1)
  {
    WalkTakesShorter(best, word, n, n - 1);
    assert Rewritten(word, 0, "") == word;
  }

  /** For every table and word, the walk over the pruned table answers what the walk over the whole one does. */
  lemma {:induction false} PruningKeepsAnswers(best: Table, word: string, n: nat)
    requires n <= |word|
    ensures Walk(Pruned(best), word, n) == Walk(best, word, n)
  {
    if n > 0 {
      PruningKeepsAnswers(best, word, n - 1);
      var ctx := Suffix(word, n);
      if ctx in best && !Decides(best, ctx) {
        DroppedChangesNothing(best, word, n);
      }
    }
  }

  /** `n` characters are the nearest shorter context of `ctx` in the table. */
  ghost predicate NearestAt(best: Table, ctx: string, n: nat) {
    && 1 <= n < |ctx| && Suffix(ctx, n) in best
    && forall m :: n < m < |ctx| ==> Suffix(ctx, m) !in best
  }

  lemma {:induction false} ShorterIs(best: Table, ctx: string, n: nat)
    requires n <= |ctx|
    ensures match Shorter(best, ctx, n)
            case None => forall m :: 1 <= m <= n ==> Suffix(ctx, m) !in best
            case Some(rw) => exists m :: 1 <= m <= n && Suffix(ctx, m) in best && best[Suffix(ctx, m)] == rw
                                         && forall k :: m < k <= n ==> Suffix(ctx, k) !in best
  {
    if n > 0 {
      ShorterIs(best, ctx, n - 1);
    }
  }

  /** Kept are the contexts but those that say what their nearest shorter one says, or what saying nothing does. */
  lemma PrunedIs(best: Table, ctx: string)
    requires ctx != ""
    ensures ctx in Pruned(best) <==>
              && ctx in best
              && !(exists n :: NearestAt(best, ctx, n) && best[Suffix(ctx, n)] == best[ctx])
              && !((forall n :: 1 <= n < |ctx| ==> Suffix(ctx, n) !in best) && best[ctx] == Rewrite("", ""))
    ensures ctx in Pruned(best) ==> Pruned(best)[ctx] == best[ctx]
  {
    ShorterIs(best, ctx, |ctx| - 1);
    if n, m :| NearestAt(best, ctx, n) && NearestAt(best, ctx, m) && n < m {
      assert false;
    }
  }

  /** Nothing that is put on begins as what is cut off does. */
  predicate Canonical(rw: Rewrite) {
    rw.strip != "" && rw.add != "" ==> rw.strip[0] != rw.add[0]
  }

  /** Where two words first differ, or one of them ends, is where their common part ends. */
  lemma {:induction false} CommonEnds(form: string, lemm: string, j: nat, k: nat)
    requires j <= k <= |form| && k <= |lemm| && form[..j] == lemm[..j] && form[..k] == lemm[..k]
    requires k < |form| && k < |lemm| ==> form[k] != lemm[k]
    ensures CommonFrom(form, lemm, j) == k
    decreases k - j
  {
    if j < k {
      assert form[j] == form[..k][j] && lemm[j] == lemm[..k][j];
      assert form[..j + 1] == form[..j] + [form[j]] == lemm[..j + 1];
      CommonEnds(form, lemm, j + 1, k);
    }
  }

  lemma CanonicalIsTheRewrite(word: string, rw: Rewrite)
    requires Canonical(rw) && EndsWith(word, rw.strip)
    ensures RewriteFor(word, Rewritten(word, |rw.strip|, rw.add)) == rw
  {
    var k, lemm := |word| - |rw.strip|, Rewritten(word, |rw.strip|, rw.add);
    assert word[k..] == rw.strip && lemm[..k] == word[..k] && lemm[k..] == rw.add;
    assert k < |word| ==> word[k] == rw.strip[0];
    assert k < |lemm| ==> lemm[k] == rw.add[0];
    CommonEnds(word, lemm, 0, k);
  }

  /** No longer context has `c` before `ctx`. */
  ghost predicate Unextended(best: Table, ctx: string, c: char) {
    forall longer :: longer in best && |longer| > |ctx| && EndsWith(longer, ctx) ==>
      longer[|longer| - |ctx| - 1] != c
  }

  lemma NothingLongerFits(best: Table, ctx: string, c: char, m: nat)
    requires Unextended(best, ctx, c) && |ctx| < m <= |ctx| + MIN_STEM
    ensures Suffix([c, c] + ctx, m) !in best
  {
    var word := [c, c] + ctx;
    var longer := Suffix(word, m);
    assert longer[m - |ctx|..] == word[|word| - |ctx|..] == ctx;
    assert longer[m - |ctx| - 1] == word[|word| - |ctx| - 1] == c;
  }

  /** A table drawn from `best` answers the word `c` `c` `ctx` from `ctx` down. */
  lemma AnsweredFrom(best: Table, some: Table, maxCtx: nat, ctx: string, c: char)
    requires Unextended(best, ctx, c) && (forall x :: x in some ==> x in best) && |ctx| <= maxCtx
    ensures Guess(some, maxCtx, [c, c] + ctx) == Walk(some, [c, c] + ctx, |ctx|)
  {
    var word := [c, c] + ctx;
    forall m | |ctx| < m <= Longest(maxCtx, word)
      ensures !Fitting(some, word, m)
    {
      NothingLongerFits(best, ctx, c, m);
    }
    WalkSkips(some, word, Longest(maxCtx, word), |ctx|);
  }

  lemma EndOfContext(ctx: string, tail: string, c: char)
    requires EndsWith(ctx, tail)
    ensures EndsWith([c, c] + ctx, tail) && Suffix([c, c] + ctx, |ctx|) == ctx
  {
    var word := [c, c] + ctx;
    assert word[|word| - |tail|..] == ctx[|ctx| - |tail|..];
  }

  lemma WalkStops(some: Table, word: string, n: nat, rw: Rewrite)
    requires 1 <= n <= |word| && Suffix(word, n) in some && some[Suffix(word, n)] == rw && Applies(rw, word)
    ensures Walk(some, word, n) == Rewritten(word, |rw.strip|, rw.add)
  {
  }

  lemma WalkPasses(some: Table, word: string, n: nat)
    requires 1 <= n <= |word| && Suffix(word, n) !in some
    ensures Walk(some, word, n) == Walk(some, word, n - 1)
  {
  }

  /** What that word is answered with. */
  lemma KeptAnswer(best: Table, maxCtx: nat, ctx: string, c: char)
    requires 1 <= |ctx| <= maxCtx && ctx in Pruned(best) && EndsWith(ctx, best[ctx].strip) && Unextended(best, ctx, c)
    ensures var word, rw := [c, c] + ctx, best[ctx];
            EndsWith(word, rw.strip) && Guess(Pruned(best), maxCtx, word) == Rewritten(word, |rw.strip|, rw.add)
  {
    EndOfContext(ctx, best[ctx].strip, c);
    AnsweredFrom(best, Pruned(best), maxCtx, ctx, c);
    WalkStops(Pruned(best), [c, c] + ctx, |ctx|, best[ctx]);
  }

  /** What it would be answered with without `ctx`. */
  lemma DroppedAnswer(best: Table, maxCtx: nat, ctx: string, c: char)
    requires 1 <= |ctx| <= maxCtx && Unextended(best, ctx, c)
    ensures Guess(Pruned(best) - {ctx}, maxCtx, [c, c] + ctx) == Walk(best, [c, c] + ctx, |ctx| - 1)
  {
    var word, keep := [c, c] + ctx, Pruned(best);
    EndOfContext(ctx, "", c);
    AnsweredFrom(best, keep - {ctx}, maxCtx, ctx, c);
    WalkPasses(keep - {ctx}, word, |ctx|);
    WalkWithout(keep, ctx, word, |ctx| - 1);
    PruningKeepsAnswers(best, word, |ctx| - 1);
  }

  lemma {:induction false} WalkWithout(keep: Table, ctx: string, word: string, n: nat)
    requires n <= |word| && n < |ctx|
    ensures Walk(keep - {ctx}, word, n) == Walk(keep, word, n)
  {
    if n > 0 {
      WalkWithout(keep, ctx, word, n - 1);
    }
  }

  lemma {:induction false} ShorterStrips(best: Table, maxCtx: nat, ctx: string, n: nat)
    requires StripsWithin(best, maxCtx) && n < |ctx| && Shorter(best, ctx, n).Some?
    ensures EndsWith(ctx, Shorter(best, ctx, n).value.strip)
    ensures (forall x :: x in best ==> Canonical(best[x])) ==> Canonical(Shorter(best, ctx, n).value)
  {
    if Suffix(ctx, n) !in best {
      ShorterStrips(best, maxCtx, ctx, n - 1);
    }
  }

  /** Two canonical rewrites that fit a word and differ take it to different words. */
  lemma DifferentAnswers(word: string, rw: Rewrite, other: Rewrite)
    requires Canonical(rw) && Canonical(other) && EndsWith(word, rw.strip) && EndsWith(word, other.strip) && rw != other
    ensures Rewritten(word, |rw.strip|, rw.add) != Rewritten(word, |other.strip|, other.add)
  {
    CanonicalIsTheRewrite(word, rw);
    CanonicalIsTheRewrite(word, other);
  }

  /** What the walk makes of a word below the context it ends with. */
  function Below(shorter: Option<Rewrite>, word: string): string
    requires shorter.Some? ==> |shorter.value.strip| <= |word|
  {
    if shorter.None? then word else Rewritten(word, |shorter.value.strip|, shorter.value.add)
  }

  lemma WalkBelow(best: Table, ctx: string, word: string)
    requires 1 <= |ctx| <= |word| && Suffix(word, |ctx|) == ctx
    requires var shorter := Shorter(best, ctx, |ctx| - 1); shorter.Some? ==> Applies(shorter.value, word)
    ensures Walk(best, word, |ctx| - 1) == Below(Shorter(best, ctx, |ctx| - 1), word)
  {
    WalkTakesShorter(best, word, |ctx|, |ctx| - 1);
  }

  lemma BelowDiffers(shorter: Option<Rewrite>, rw: Rewrite, word: string)
    requires Canonical(rw) && EndsWith(word, rw.strip)
    requires shorter.None? ==> rw != Rewrite("", "")
    requires shorter.Some? ==> rw != shorter.value && Canonical(shorter.value) && EndsWith(word, shorter.value.strip)
    ensures Below(shorter, word) != Rewritten(word, |rw.strip|, rw.add)
  {
    if shorter.None? {
      assert Rewritten(word, 0, "") == word;
      DifferentAnswers(word, rw, Rewrite("", ""));
    } else {
      DifferentAnswers(word, rw, shorter.value);
    }
  }

  /** What the shorter contexts make of the word is not what `ctx` makes of it. */
  lemma ShorterSaysOtherwise(best: Table, ctx: string, word: string)
    requires ctx in best && 1 <= |ctx| && Decides(best, ctx) && Canonical(best[ctx])
    requires |word| == |ctx| + MIN_STEM && Suffix(word, |ctx|) == ctx && EndsWith(word, best[ctx].strip)
    requires var shorter := Shorter(best, ctx, |ctx| - 1);
             shorter.Some? ==> Canonical(shorter.value) && EndsWith(ctx, shorter.value.strip)
    ensures Walk(best, word, |ctx| - 1) != Rewritten(word, |best[ctx].strip|, best[ctx].add)
  {
    var shorter := Shorter(best, ctx, |ctx| - 1);
    if shorter.Some? {
      EndOfEnd(word, ctx, shorter.value.strip);
    }
    WalkBelow(best, ctx, word);
    BelowDiffers(shorter, best[ctx], word);
  }

  lemma EndOfEnd(word: string, ctx: string, tail: string)
    requires |ctx| <= |word| && Suffix(word, |ctx|) == ctx && EndsWith(ctx, tail)
    ensures EndsWith(word, tail)
  {
  }

  lemma OneKeptDecides(best: Table, maxCtx: nat, ctx: string, c: char)
    requires 1 <= |ctx| <= maxCtx && ctx in Pruned(best) && EndsWith(ctx, best[ctx].strip) && Canonical(best[ctx])
    requires var shorter := Shorter(best, ctx, |ctx| - 1);
             shorter.Some? ==> Canonical(shorter.value) && EndsWith(ctx, shorter.value.strip)
    requires Unextended(best, ctx, c)
    ensures Guess(Pruned(best) - {ctx}, maxCtx, [c, c] + ctx) != Guess(Pruned(best), maxCtx, [c, c] + ctx)
  {
    KeptAnswer(best, maxCtx, ctx, c);
    DroppedAnswer(best, maxCtx, ctx, c);
    EndOfContext(ctx, best[ctx].strip, c);
    ShorterSaysOtherwise(best, ctx, [c, c] + ctx);
  }

  /**
    Nothing kept is idle: dropping a context from a pruned table changes the answer to some word, as long as
    one letter is left that no longer context has before it.
   */
  lemma EveryKeptDecides(best: Table, maxCtx: nat, ctx: string, c: char)
    requires StripsWithin(best, maxCtx) && (forall x :: x in best ==> Canonical(best[x]))
    requires ctx in Pruned(best) && Unextended(best, ctx, c)
    ensures Guess(Pruned(best) - {ctx}, maxCtx, [c, c] + ctx) != Guess(Pruned(best), maxCtx, [c, c] + ctx)
  {
    if Shorter(best, ctx, |ctx| - 1).Some? {
      ShorterStrips(best, maxCtx, ctx, |ctx| - 1);
    }
    OneKeptDecides(best, maxCtx, ctx, c);
  }

  // ----- Training

  /** `pair` teaches its rewrite under `ctx`: a suffix of the form that covers the stripped part. */
  predicate Teaches(pair: Pair, ctx: string, maxCtx: nat) {
    var rw := RewriteFor(pair.form, pair.lemm);
    && |pair.form| - |rw.strip| >= MIN_STEM
    && 1 <= |ctx| && |rw.strip| <= |ctx| <= maxCtx
    && EndsWith(pair.form, ctx)
  }

  /** The rewrites taught under `ctx`, one vote a pair, in the order of the pairs. */
  function Votes(pairs: seq<Pair>, ctx: string, maxCtx: nat): seq<Rewrite> {
    if pairs == [] then []
    else
      var last := pairs[|pairs| - 1];
      Votes(pairs[..|pairs| - 1], ctx, maxCtx)
      + if Teaches(last, ctx, maxCtx) then [RewriteFor(last.form, last.lemm)] else []
  }

  function Tally(votes: seq<Rewrite>, rw: Rewrite): nat {
    multiset(votes)[rw]
  }

  /** `rw` has more votes than any rewrite voted for before it, and as many as any after. */
  ghost predicate Wins(votes: seq<Rewrite>, rw: Rewrite) {
    exists i :: && 0 <= i < |votes| && votes[i] == rw
                && (forall j :: 0 <= j < i ==> Tally(votes, votes[j]) < Tally(votes, rw))
                && (forall j :: i <= j < |votes| ==> Tally(votes, votes[j]) <= Tally(votes, rw))
  }

  method MostCommon(votes: seq<Rewrite>) returns (rw: Rewrite)
    requires votes != []
    ensures Wins(votes, rw)
  {
    var best := 0;
    for k := 1 to |votes|
      invariant best < k
      invariant forall j :: 0 <= j < best ==> Tally(votes, votes[j]) < Tally(votes, votes[best])
      invariant forall j :: best <= j < k ==> Tally(votes, votes[j]) <= Tally(votes, votes[best])
    {
      if Tally(votes, votes[k]) > Tally(votes, votes[best]) {
        best := k;
      }
    }
    rw := votes[best];
  }

  function Cast(table: map<string, seq<Rewrite>>, ctx: string): seq<Rewrite> {
    if ctx in table then table[ctx] else []
  }

  /** The vote `pair` casts under `ctx` once its contexts shorter than `n` are done. */
  function Ballot(pair: Pair, ctx: string, maxCtx: nat, n: nat): seq<Rewrite> {
    if Teaches(pair, ctx, maxCtx) && |ctx| < n then [RewriteFor(pair.form, pair.lemm)] else []
  }

  /** The table after all of `pairs` and, of `next`, the contexts shorter than `n`. */
  ghost predicate Counted(table: map<string, seq<Rewrite>>, pairs: seq<Pair>, maxCtx: nat, next: Pair, n: nat) {
    && (forall ctx :: ctx in table ==> table[ctx] != [])
    && forall ctx :: Cast(table, ctx) == Votes(pairs, ctx, maxCtx) + Ballot(next, ctx, maxCtx, n)
  }

  ghost predicate AllCounted(table: map<string, seq<Rewrite>>, pairs: seq<Pair>, maxCtx: nat) {
    && (forall ctx :: ctx in table ==> table[ctx] != [])
    && forall ctx :: Cast(table, ctx) == Votes(pairs, ctx, maxCtx)
  }

  lemma BallotGrows(pair: Pair, ctx: string, maxCtx: nat, n: nat)
    requires 1 <= n <= maxCtx && n <= |pair.form|
    requires |RewriteFor(pair.form, pair.lemm).strip| <= n
    requires |pair.form| - |RewriteFor(pair.form, pair.lemm).strip| >= MIN_STEM
    ensures if ctx == Suffix(pair.form, n)
            then Ballot(pair, ctx, maxCtx, n) == []
                 && Ballot(pair, ctx, maxCtx, n + 1) == [RewriteFor(pair.form, pair.lemm)]
            else Ballot(pair, ctx, maxCtx, n + 1) == Ballot(pair, ctx, maxCtx, n)
  {
  }

  lemma OneLonger(table: map<string, seq<Rewrite>>, pairs: seq<Pair>, maxCtx: nat, next: Pair, n: nat)
    requires Counted(table, pairs, maxCtx, next, n) && n <= |next.form|
    requires 1 <= n <= maxCtx
    requires |RewriteFor(next.form, next.lemm).strip| <= n
    requires |next.form| - |RewriteFor(next.form, next.lemm).strip| >= MIN_STEM
    ensures var ctx := Suffix(next.form, n);
            var rw := RewriteFor(next.form, next.lemm);
            Counted(table[ctx := Cast(table, ctx) + [rw]], pairs, maxCtx, next, n + 1)
  {
    var ctx, rw := Suffix(next.form, n), RewriteFor(next.form, next.lemm);
    var grown := table[ctx := Cast(table, ctx) + [rw]];
    forall c
      ensures Cast(grown, c) == Votes(pairs, c, maxCtx) + Ballot(next, c, maxCtx, n + 1)
    {
      BallotGrows(next, c, maxCtx, n);
      assert Cast(table, c) == Votes(pairs, c, maxCtx) + Ballot(next, c, maxCtx, n);
      assert c == ctx ==> Cast(table, c) == Votes(pairs, c, maxCtx);
    }
  }

  lemma PairStarts(table: map<string, seq<Rewrite>>, pairs: seq<Pair>, maxCtx: nat, next: Pair, n: nat)
    requires AllCounted(table, pairs, maxCtx)
    requires n <= 1 || n <= |RewriteFor(next.form, next.lemm).strip|
    ensures Counted(table, pairs, maxCtx, next, n)
  {
  }

  lemma PairDone(table: map<string, seq<Rewrite>>, pairs: seq<Pair>, maxCtx: nat, next: Pair, n: nat)
    requires Counted(table, pairs, maxCtx, next, n)
    requires n > maxCtx || n > |next.form|
             || |next.form| - |RewriteFor(next.form, next.lemm).strip| < MIN_STEM
    ensures AllCounted(table, pairs + [next], maxCtx)
  {
  }

  /** Count one pair's vote under each of its contexts. */
  method CountPair(table: map<string, seq<Rewrite>>, ghost pairs: seq<Pair>, maxCtx: nat, pair: Pair)
    returns (counted: map<string, seq<Rewrite>>)
    requires AllCounted(table, pairs, maxCtx)
    ensures AllCounted(counted, pairs + [pair], maxCtx)
  {
    counted := table;
    var rw := MakeRewrite(pair.form, pair.lemm);
    var n := if |rw.strip| < 1 then 1 else |rw.strip|;
    PairStarts(table, pairs, maxCtx, pair, n);
    if |pair.form| - |rw.strip| >= MIN_STEM {
      while n <= maxCtx && n <= |pair.form|
        invariant 1 <= n && |rw.strip| <= n
        invariant Counted(counted, pairs, maxCtx, pair, n)
      {
        var ctx := Suffix(pair.form, n);
        OneLonger(counted, pairs, maxCtx, pair, n);
        counted := counted[ctx := Cast(counted, ctx) + [rw]];
        n := n + 1;
      }
    }
    PairDone(counted, pairs, maxCtx, pair, n);
  }

  /**
    A context is kept when enough pairs vote under it, and holds the rewrite most of them vote for, the
    first voted for on a tie.
   */
  ghost predicate Trained(best: Table, pairs: seq<Pair>, minSupport: int, maxCtx: nat) {
    forall ctx :: var votes := Votes(pairs, ctx, maxCtx);
                  && (ctx in best <==> votes != [] && |votes| >= minSupport)
                  && (ctx in best ==> Wins(votes, best[ctx]))
  }

  method Train(pairs: seq<Pair>, minSupport: int, maxCtx: nat) returns (best: Table)
    ensures Trained(best, pairs, minSupport, maxCtx)
  {
    var table: map<string, seq<Rewrite>> := map[];
    for i := 0 to |pairs|
      invariant AllCounted(table, pairs[..i], maxCtx)
    {
      assert pairs[..i + 1] == pairs[..i] + [pairs[i]];
      table := CountPair(table, pairs[..i], maxCtx, pairs[i]);
    }
    assert pairs[..|pairs|] == pairs;
    best := KeepWinners(table, minSupport);
    WinnersTrained(table, best, pairs, minSupport, maxCtx);
  }

  lemma WinnersTrained(table: map<string, seq<Rewrite>>, best: Table, pairs: seq<Pair>, minSupport: int, maxCtx: nat)
    requires AllCounted(table, pairs, maxCtx)
    requires forall ctx :: ctx in best <==> ctx in table && |table[ctx]| >= minSupport
    requires forall ctx :: ctx in best ==> Wins(table[ctx], best[ctx])
    ensures Trained(best, pairs, minSupport, maxCtx)
  {
  }

  method KeepWinners(table: map<string, seq<Rewrite>>, minSupport: int) returns (best: Table)
    requires forall ctx :: ctx in table ==> table[ctx] != []
    ensures forall ctx :: ctx in best <==> ctx in table && |table[ctx]| >= minSupport
    ensures forall ctx :: ctx in best ==> Wins(table[ctx], best[ctx])
  {
    best := map[];
    var todo := table.Keys;
    while todo != {}
      invariant todo <= table.Keys
      invariant forall ctx :: ctx in best <==> ctx in table && ctx !in todo && |table[ctx]| >= minSupport
      invariant forall ctx :: ctx in best ==> Wins(table[ctx], best[ctx])
    {
      var ctx :| ctx in todo;
      if |table[ctx]| >= minSupport {
        var winner := MostCommon(table[ctx]);
        best := best[ctx := winner];
      }
      todo := todo - {ctx};
    }
  }

  lemma {:induction false} VotesAreTaught(pairs: seq<Pair>, ctx: string, maxCtx: nat, rw: Rewrite)
    requires rw in Votes(pairs, ctx, maxCtx)
    ensures exists p :: p in pairs && Teaches(p, ctx, maxCtx) && rw == RewriteFor(p.form, p.lemm)
  {
    var front, last := pairs[..|pairs| - 1], pairs[|pairs| - 1];
    if Teaches(last, ctx, maxCtx) && rw == RewriteFor(last.form, last.lemm) {
      assert last in pairs;
    } else {
      VotesAreTaught(front, ctx, maxCtx, rw);
      assert forall p :: p in front ==> p in pairs;
    }
  }

  /** Every kept context ends with what its rewrite strips, and is no longer than the limit. */
  ghost predicate StripsWithin(best: Table, maxCtx: nat) {
    forall ctx :: ctx in best ==> 1 <= |ctx| <= maxCtx && EndsWith(ctx, best[ctx].strip)
  }

  lemma TaughtStripsWithin(pair: Pair, ctx: string, maxCtx: nat)
    requires Teaches(pair, ctx, maxCtx)
    ensures 1 <= |ctx| <= maxCtx && EndsWith(ctx, RewriteFor(pair.form, pair.lemm).strip)
  {
  }

  /** And its rewrite cuts off no more than it has to. */
  lemma TrainedIsCanonical(best: Table, pairs: seq<Pair>, minSupport: int, maxCtx: nat, ctx: string)
    requires Trained(best, pairs, minSupport, maxCtx) && ctx in best
    ensures Canonical(best[ctx])
  {
    assert Wins(Votes(pairs, ctx, maxCtx), best[ctx]);
    VotesAreTaught(pairs, ctx, maxCtx, best[ctx]);
    var p :| p in pairs && Teaches(p, ctx, maxCtx) && best[ctx] == RewriteFor(p.form, p.lemm);
    RewriteRoundTrip(p.form, p.lemm);
  }

  lemma TrainedStripsWithin(best: Table, pairs: seq<Pair>, minSupport: int, maxCtx: nat)
    requires Trained(best, pairs, minSupport, maxCtx)
    ensures StripsWithin(best, maxCtx)
  {
    forall ctx | ctx in best
      ensures 1 <= |ctx| <= maxCtx && EndsWith(ctx, best[ctx].strip)
    {
      assert Wins(Votes(pairs, ctx, maxCtx), best[ctx]);
      VotesAreTaught(pairs, ctx, maxCtx, best[ctx]);
      var p :| p in pairs && Teaches(p, ctx, maxCtx) && best[ctx] == RewriteFor(p.form, p.lemm);
      TaughtStripsWithin(p, ctx, maxCtx);
    }
  }
}
