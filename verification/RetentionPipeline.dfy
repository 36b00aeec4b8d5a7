/** From `select` to `delete`: the id file between them, and when the ids sent are the ids listed. */
module RetentionPipeline {
  import opened Wrappers
  import opened Text
  import W = RetentionWalk
  import D = RetentionDelete

  // ----- The file

  /** Python reads a text file line by line at these; a carriage return counts as a line's end too. */
  predicate IsBreak(c: char) {
    c == '\n' || c == '\r'
  }

  /** What `select` writes: every id and a line's end. */
  function FileText(ids: seq<string>): string {
    if ids == [] then "" else FileText(ids[..|ids| - 1]) + ids[|ids| - 1] + "\n"
  }

  /** The pieces between line ends, the last one what follows the last of them. */
  function Pieces(text: string): (pieces: seq<string>)
    ensures pieces != []
  {
    if text == "" then [""]
    else
      var front, last := Pieces(text[..|text| - 1]), text[|text| - 1];
      if IsBreak(last) then front + [""] else front[..|front| - 1] + [front[|front| - 1] + [last]]
  }

  /** What `delete` makes of a text: its lines stripped, blank ones dropped. */
  function IdsIn(text: string, space: char -> bool): seq<string> {
    D.Ids(Pieces(text), (s: string) => Trim(s, space))
  }

  /** The id comes through: not empty, no line's end inside, nothing to strip. */
  predicate Plain(id: string, space: char -> bool) {
    id != "" && (forall c :: c in id ==> !IsBreak(c)) && Trim(id, space) == id
  }

  // ----- Reading back

  /** Reading on after a line's end does not touch what was read before. */
  lemma {:induction false} PiecesJoin(text: string, more: string)
    requires forall c :: c in more ==> !IsBreak(c)
    ensures var before := Pieces(text);
            Pieces(text + more) == before[..|before| - 1] + [before[|before| - 1] + more]
  {
    var before := Pieces(text);
    if more == "" {
      assert text + more == text && before[|before| - 1] + more == before[|before| - 1];
      assert before == before[..|before| - 1] + [before[|before| - 1]];
    } else {
      var front, last := more[..|more| - 1], more[|more| - 1];
      PiecesJoin(text, front);
      var all := text + more;
      assert all[..|all| - 1] == text + front && all[|all| - 1] == last && last in more;
      assert before[|before| - 1] + front + [last] == before[|before| - 1] + more;
    }
  }

  lemma {:induction false} IdsJoin(a: seq<string>, b: seq<string>, strip: string -> string)
    ensures D.Ids(a + b, strip) == D.Ids(a, strip) + D.Ids(b, strip)
  {
    if b == [] {
      assert a + b == a;
    } else {
      assert (a + b)[..|a + b| - 1] == a + b[..|b| - 1];
      IdsJoin(a, b[..|b| - 1], strip);
    }
  }

  lemma IdsOfOne(piece: string, strip: string -> string)
    ensures D.Ids([piece], strip) == if strip(piece) == "" then [] else [strip(piece)]
  {
    assert [piece][..0] == [];
  }

  lemma LineEnds(text: string)
    ensures Pieces(text + "\n") == Pieces(text) + [""]
  {
    var all := text + "\n";
    assert all[..|all| - 1] == text && all[|all| - 1] == '\n';
  }

  /** One more line, after a text that ended with a line's end. */
  lemma OneMoreLine(text: string, id: string)
    requires Pieces(text)[|Pieces(text)| - 1] == "" && forall c :: c in id ==> !IsBreak(c)
    ensures Pieces(text + id + "\n") == Pieces(text)[..|Pieces(text)| - 1] + [id] + [""]
  {
    PiecesJoin(text, id);
    assert "" + id == id;
    LineEnds(text + id);
  }

  lemma OneMoreId(rest: seq<string>, id: string, strip: string -> string)
    requires id != "" && strip(id) == id && strip("") == ""
    ensures D.Ids(rest + [id] + [""], strip) == D.Ids(rest + [""], strip) + [id]
  {
    IdsJoin(rest, [""], strip);
    IdsJoin(rest + [id], [""], strip);
    IdsJoin(rest, [id], strip);
    IdsOfOne("", strip);
    IdsOfOne(id, strip);
  }

  /** One more plain id and its line's end, after a text that ended with one. */
  lemma PlainReadBack(text: string, id: string, space: char -> bool)
    requires Plain(id, space) && Pieces(text)[|Pieces(text)| - 1] == ""
    ensures var after := text + id + "\n";
            Pieces(after)[|Pieces(after)| - 1] == "" && IdsIn(after, space) == IdsIn(text, space) + [id]
  {
    var before := Pieces(text);
    OneMoreLine(text, id);
    assert before == before[..|before| - 1] + [""];
    OneMoreId(before[..|before| - 1], id, (s: string) => Trim(s, space));
  }

  lemma {:induction false} PlainComesThrough(ids: seq<string>, space: char -> bool)
    requires forall id :: id in ids ==> Plain(id, space)
    ensures Pieces(FileText(ids))[|Pieces(FileText(ids))| - 1] == "" && IdsIn(FileText(ids), space) == ids
  {
    var strip := (s: string) => Trim(s, space);
    if ids == [] {
      IdsOfOne("", strip);
    } else {
      var front, last := ids[..|ids| - 1], ids[|ids| - 1];
      assert ids == front + [last] && last in ids;
      PlainComesThrough(front, space);
      PlainReadBack(FileText(front), last, space);
    }
  }

  lemma {:induction false} PiecesUnbroken(text: string, piece: string)
    requires piece in Pieces(text)
    ensures forall c :: c in piece ==> !IsBreak(c)
  {
    if text != "" {
      var front, last := Pieces(text[..|text| - 1]), text[|text| - 1];
      if piece in front {
        PiecesUnbroken(text[..|text| - 1], piece);
      } else if !IsBreak(last) {
        assert piece == front[|front| - 1] + [last];
        PiecesUnbroken(text[..|text| - 1], front[|front| - 1]);
      }
    }
  }

  lemma {:induction false} IdComesFrom(pieces: seq<string>, strip: string -> string, id: string)
    requires id in D.Ids(pieces, strip)
    ensures id != "" && exists piece :: piece in pieces && strip(piece) == id
  {
    var front, last := pieces[..|pieces| - 1], pieces[|pieces| - 1];
    if id in D.Ids(front, strip) {
      IdComesFrom(front, strip, id);
      var piece :| piece in front && strip(piece) == id;
      assert piece in pieces;
    } else {
      assert last in pieces;
    }
  }

  lemma {:induction false} TrimIsPart(s: string, space: char -> bool, c: char)
    requires c in Trim(s, space)
    ensures c in s
  {
    StartIsPart(s, space);
    EndTrimmed(TrimStart(s, space), space);
  }

  lemma {:induction false} StartIsPart(s: string, space: char -> bool)
    ensures forall c :: c in TrimStart(s, space) ==> c in s
  {
    if s != "" && space(s[0]) {
      StartIsPart(s[1..], space);
    }
  }

  /** Whatever the file holds, only plain ids are sent. */
  lemma OnlyPlainSent(text: string, space: char -> bool, id: string)
    requires id in IdsIn(text, space)
    ensures Plain(id, space)
  {
    var strip := (s: string) => Trim(s, space);
    IdComesFrom(Pieces(text), strip, id);
    var piece :| piece in Pieces(text) && strip(piece) == id;
    PiecesUnbroken(text, piece);
    TrimKeepsTight(piece, space);
    forall c | c in id
      ensures !IsBreak(c)
    {
      TrimIsPart(piece, space, c);
    }
  }

  /**
    The ids `delete` sends are the ids `select` listed, each and in order, if and only if no listed id is
    empty, holds a line's end, or changes when stripped.
   */
  lemma SentAreListed(ids: seq<string>, space: char -> bool)
    ensures IdsIn(FileText(ids), space) == ids <==> forall id :: id in ids ==> Plain(id, space)
  {
    if forall id :: id in ids ==> Plain(id, space) {
      PlainComesThrough(ids, space);
    }
    if IdsIn(FileText(ids), space) == ids {
      forall id | id in ids
        ensures Plain(id, space)
      {
        OnlyPlainSent(FileText(ids), space, id);
      }
    }
  }

  /** An id with a line's end inside is not sent; the two halves are, whatever documents they name. */
  lemma BrokenIdSendsOthers(one: string, two: string, space: char -> bool)
    requires Plain(one, space) && Plain(two, space)
    ensures IdsIn(FileText([one + "\n" + two]), space) == [one, two]
  {
    PlainComesThrough([one, two], space);
    assert [one, two][..1] == [one] && [one][..0] == [] && [one + "\n" + two][..0] == [];
    assert FileText([one]) == "" + one + "\n" == one + "\n";
    assert FileText([one, two]) == one + "\n" + two + "\n";
    assert FileText([one + "\n" + two]) == "" + (one + "\n" + two) + "\n" == one + "\n" + two + "\n";
  }

  // ----- Both commands

  function NamesOf(docs: set<W.Entry>): set<string> {
    set e | e in docs && e.id.Some? :: e.id.value
  }

  /**
    A selection that listed every document of a range once, handed to `delete` with plain ids: in every
    state of every sequence of runs nothing but those documents has been deleted, and once a run given the
    whole rest of the file has counted all of it, exactly those have.
   */
  lemma SelectedIsDeleted(docs: set<W.Entry>, ids: seq<string>, space: char -> bool, steps: seq<D.Step>)
    requires W.Lists(ids, docs) && forall id :: id in ids ==> Plain(id, space)
    ensures var s := D.After(D.Fresh(IdsIn(FileText(ids), space)), steps);
            && s.deleted <= NamesOf(docs)
            && (s.run.Some? && s.run.value.counted == |s.run.value.batches| && s.run.value.from <= |ids|
                && D.Flatten(s.run.value.batches) == ids[s.run.value.from..]
                ==> s.deleted == NamesOf(docs))
  {
    SentAreListed(ids, space);
    D.DeletesOnlyListed(ids, steps);
    D.ProgressIsDeleted(ids, steps);
    D.WholeRunDeletesAll(ids, steps);
    ListedNames(docs, ids);
  }

  lemma OneRunDeletes(ids: seq<string>, size: int, all: seq<seq<string>>)
    requires D.Batching(all, ids, 0, size)
    ensures var run := [D.Start(size, false, all)] + D.Worked(|all|);
            forall i :: i in D.After(D.Fresh(ids), run).deleted <==> i in ids
  {
    var run := [D.Start(size, false, all)] + D.Worked(|all|);
    D.RunFinishes(ids, [], size, false, all);
    assert [] + [D.Start(size, false, all)] + D.Worked(|all|) == run;
    D.DeletesOnlyListed(ids, run);
    D.ProgressIsDeleted(ids, run);
  }

  /** And one run that is not interrupted gets there, from a fresh id file, whatever the batch size. */
  lemma SelectedGetsDeleted(docs: set<W.Entry>, ids: seq<string>, space: char -> bool, size: int,
                            all: seq<seq<string>>)
    requires W.Lists(ids, docs) && (forall id :: id in ids ==> Plain(id, space)) && D.Batching(all, ids, 0, size)
    ensures var run := [D.Start(size, false, all)] + D.Worked(|all|);
            D.After(D.Fresh(IdsIn(FileText(ids), space)), run).deleted == NamesOf(docs)
  {
    SentAreListed(ids, space);
    OneRunDeletes(ids, size, all);
    ListedNames(docs, ids);
  }

  lemma ListedNames(docs: set<W.Entry>, ids: seq<string>)
    requires W.Lists(ids, docs)
    ensures forall id :: id in ids <==> id in NamesOf(docs)
  {
    forall id | id in ids
      ensures id in NamesOf(docs)
    {
      var e :| e in docs && e.id == Some(id);
    }
  }
}
