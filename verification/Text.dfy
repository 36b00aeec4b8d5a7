/** The few string operations the components share. */
module Text {
  /** `s` without the leading and trailing characters `space` accepts. */
  function Trim(s: string, space: char -> bool): string {
    TrimEnd(TrimStart(s, space), space)
  }

  function TrimStart(s: string, space: char -> bool): string {
    if s != "" && space(s[0]) then TrimStart(s[1..], space) else s
  }

  function TrimEnd(s: string, space: char -> bool): string {
    if s != "" && space(s[|s| - 1]) then TrimEnd(s[..|s| - 1], space) else s
  }

  /** Neither end is a space. */
  predicate Tight(s: string, space: char -> bool) {
    s == "" || (!space(s[0]) && !space(s[|s| - 1]))
  }

  lemma {:induction false} StartTrimmed(s: string, space: char -> bool)
    ensures TrimStart(s, space) == "" || !space(TrimStart(s, space)[0])
  {
    if s != "" && space(s[0]) {
      StartTrimmed(s[1..], space);
    }
  }

  lemma {:induction false} EndTrimmed(s: string, space: char -> bool)
    ensures TrimEnd(s, space) <= s
    ensures TrimEnd(s, space) == "" || !space(TrimEnd(s, space)[|TrimEnd(s, space)| - 1])
  {
    if s != "" && space(s[|s| - 1]) {
      EndTrimmed(s[..|s| - 1], space);
    }
  }

  lemma TrimmedIsTight(s: string, space: char -> bool)
    ensures Tight(Trim(s, space), space)
  {
    StartTrimmed(s, space);
    EndTrimmed(TrimStart(s, space), space);
  }

  /** Trimming keeps a text if and only if neither end is a space; so once is enough. */
  lemma TrimKeepsTight(s: string, space: char -> bool)
    ensures Trim(s, space) == s <==> Tight(s, space)
    ensures Trim(Trim(s, space), space) == Trim(s, space)
  {
    TrimmedIsTight(s, space);
  }

  /** A beginning without spaces survives. */
  lemma {:induction false} TrimKeepsStart(s: string, start: string, space: char -> bool)
    requires start <= s && forall i :: 0 <= i < |start| ==> !space(start[i])
    ensures start <= Trim(s, space)
  {
    if start != "" {
      assert s[0] == start[0];
      assert TrimStart(s, space) == s;
      EndKeepsStart(s, start, space);
    }
  }

  lemma {:induction false} EndKeepsStart(s: string, start: string, space: char -> bool)
    requires start <= s && forall i :: 0 <= i < |start| ==> !space(start[i])
    ensures start <= TrimEnd(s, space)
  {
    if s != "" && space(s[|s| - 1]) {
      EndKeepsStart(s[..|s| - 1], start, space);
    }
  }

  /** Spaces before and after are exactly what goes. */
  lemma TrimPadded(before: string, s: string, after: string, space: char -> bool)
    requires Tight(s, space) && (forall c :: c in before ==> space(c)) && (forall c :: c in after ==> space(c))
    ensures Trim(before + s + after, space) == s
  {
    assert before + s + after == before + (s + after);
    StartGoes(before, s + after, space);
    if s == "" {
      assert s + after == after + "";
      StartGoes(after, "", space);
    } else {
      assert (s + after)[0] == s[0];
      EndGoes(s, after, space);
    }
  }

  lemma {:induction false} StartGoes(before: string, s: string, space: char -> bool)
    requires forall c :: c in before ==> space(c)
    ensures TrimStart(before + s, space) == TrimStart(s, space)
  {
    if before == "" {
      assert before + s == s;
    } else {
      assert before[0] in before && (before + s)[1..] == before[1..] + s;
      StartGoes(before[1..], s, space);
    }
  }

  lemma {:induction false} EndGoes(s: string, after: string, space: char -> bool)
    requires (forall c :: c in after ==> space(c)) && s != "" && !space(s[|s| - 1])
    ensures TrimEnd(s + after, space) == s
  {
    if after == "" {
      assert s + after == s;
    } else {
      var all := s + after;
      assert after[|after| - 1] in after && all[..|all| - 1] == s + after[..|after| - 1];
      EndGoes(s, after[..|after| - 1], space);
    }
  }
}
