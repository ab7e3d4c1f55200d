/** A rewrite that is not refused keeps every entry of the hand-written part where it was. */
module LogIndexKept {
  import opened Wrappers
  import opened Text
  import opened LogIndex
  import opened LogIndexFacts

  // ---------- Trailing white space and one line ----------

  predicate AllSpaces(s: string) {
    forall i | 0 <= i < |s| :: IsSpace(s[i])
  }

  lemma {:induction false} TrimEndPadded(s: string, pad: string)
    requires AllSpaces(pad)
    ensures TrimEnd(s + pad) == TrimEnd(s)
    decreases |pad|
  {
    if pad == "" {
      assert s + pad == s;
    } else {
      var rest := pad[..|pad| - 1];
      assert (s + pad)[..|s + pad| - 1] == s + rest;
      TrimEndPadded(s, rest);
    }
  }

  lemma {:induction false} TrimSpaces(s: string)
    requires AllSpaces(s)
    ensures TrimStart(s) == "" && TrimEnd(s) == ""
  {
    if s != "" {
      TrimSpaces(s[1..]);
      TrimEndPadded("", s);
      assert "" + s == s;
    }
  }

  lemma {:induction false} TrimPadded(s: string, pad: string)
    requires AllSpaces(pad)
    ensures Trim(s + pad) == Trim(s)
  {
    if s == "" {
      assert s + pad == pad;
      TrimSpaces(pad);
    } else if IsSpace(s[0]) {
      assert (s + pad)[1..] == s[1..] + pad;
      TrimPadded(s[1..], pad);
    } else {
      TrimEndPadded(s, pad);
    }
  }

  /** The same text with white space after it. */
  predicate Padded(s: string, longer: string) {
    s <= longer && forall i | |s| <= i < |longer| :: IsSpace(longer[i])
  }

  lemma SlicePadded(s: string, longer: string, i: nat, j: nat)
    requires s <= longer && i <= j <= |s|
    ensures longer[i..j] == s[i..j]
  {
  }

  lemma {:induction false} SkipToEnd(s: string, i: nat)
    requires i <= |s| && forall k | i <= k < |s| :: IsSpace(s[k])
    ensures SkipSpaces(s, i) == |s|
    decreases |s| - i
  {
    if i < |s| { SkipToEnd(s, i + 1); }
  }

  /** Skipping spaces ends where it did, or both run to the end. */
  lemma {:induction false} SkipSpacesPadded(s: string, longer: string, i: nat)
    requires Padded(s, longer) && i <= |s|
    ensures SkipSpaces(longer, i) == if SkipSpaces(s, i) < |s| then SkipSpaces(s, i) else |longer|
    decreases |s| - i
  {
    if i == |s| {
      SkipToEnd(longer, i);
    } else if IsSpace(s[i]) {
      SkipSpacesPadded(s, longer, i + 1);
    }
  }

  lemma {:induction false} SkipDigitsPadded(s: string, longer: string, i: nat)
    requires Padded(s, longer) && i <= |s|
    ensures SkipDigits(longer, i) == SkipDigits(s, i)
    decreases |s| - i
  {
    if i < |s| && IsDigit(s[i]) { SkipDigitsPadded(s, longer, i + 1); }
  }

  lemma IdAtPadded(s: string, longer: string, i: nat)
    requires Padded(s, longer)
    ensures IdAt(longer, i) == IdAt(s, i)
  {
    if i + 3 < |s| {
      AtPrefix(s, longer, "PT-", i);
      SkipDigitsPadded(s, longer, i + 4);
    }
  }

  /** The first character that is no space, if it is a slash. */
  function SlashAt(s: string, i: nat): (slash: Option<nat>)
    requires i <= |s|
    ensures slash.Some? ==> i <= slash.value < |s|
  {
    var slash := SkipSpaces(s, i);
    if slash < |s| && s[slash] == '/' then Some(slash) else None
  }

  /** Where an id starts and ends that only spaces precede. */
  function IdFrom(s: string, i: nat): (id: Option<(nat, nat)>)
    requires i <= |s|
    ensures id.Some? ==> i <= id.value.0 < id.value.1 <= |s|
  {
    var end := IdAt(s, SkipSpaces(s, i));
    if end.Some? then Some((SkipSpaces(s, i), end.value)) else None
  }

  /** One more id after a slash, if there is one. */
  function NextId(s: string, i: nat): (id: Option<(nat, nat)>)
    requires i <= |s|
    ensures id.Some? ==> i < id.value.0 < id.value.1 <= |s|
  {
    var slash := SlashAt(s, i);
    if slash.Some? then IdFrom(s, slash.value + 1) else None
  }

  lemma SlashPadded(s: string, longer: string, i: nat)
    requires Padded(s, longer) && i <= |s|
    ensures SlashAt(longer, i) == SlashAt(s, i)
  {
    SkipSpacesPadded(s, longer, i);
  }

  lemma IdFromPadded(s: string, longer: string, i: nat)
    requires Padded(s, longer) && i <= |s|
    ensures IdFrom(longer, i) == IdFrom(s, i)
  {
    SkipSpacesPadded(s, longer, i);
    IdAtPadded(s, longer, SkipSpaces(s, i));
    IdAtPadded(s, longer, |longer|);
  }

  lemma NextIdPadded(s: string, longer: string, i: nat)
    requires Padded(s, longer) && i <= |s|
    ensures NextId(longer, i) == NextId(s, i)
  {
    SlashPadded(s, longer, i);
    if SlashAt(s, i).Some? { IdFromPadded(s, longer, SlashAt(s, i).value + 1); }
  }

  lemma MoreIdsStep(s: string, i: nat)
    requires i <= |s|
    ensures MoreIds(s, i) ==
            var next := NextId(s, i);
            if next.None? then ([], i)
            else ([s[next.value.0..next.value.1]] + MoreIds(s, next.value.1).0, MoreIds(s, next.value.1).1)
  {
  }

  lemma {:induction false} MoreIdsPadded(s: string, longer: string, i: nat)
    requires Padded(s, longer) && i <= |s|
    ensures MoreIds(longer, i) == MoreIds(s, i)
    decreases |s| - i
  {
    NextIdPadded(s, longer, i);
    MoreIdsStep(s, i);
    MoreIdsStep(longer, i);
    var next := NextId(s, i);
    if next.Some? {
      SlicePadded(s, longer, next.value.0, next.value.1);
      MoreIdsPadded(s, longer, next.value.1);
    }
  }

  lemma OneLinePadded(s: string, longer: string, i: nat)
    requires Padded(s, longer) && i <= |s| && OneLine(longer[SkipSpaces(longer, i)..])
    ensures OneLine(s[SkipSpaces(s, i)..])
  {
    SkipSpacesPadded(s, longer, i);
    var from := SkipSpaces(s, i);
    forall k | 0 <= k < |s[from..]| ensures !IsLineTerminator(s[from..][k]) {
      assert longer[from..][k] == s[from..][k];
    }
  }

  lemma TrimPaddedFrom(s: string, longer: string, i: nat)
    requires Padded(s, longer) && i <= |s|
    ensures Trim(longer[i..]) == Trim(s[i..])
  {
    var pad := longer[|s|..];
    assert longer[i..] == s[i..] + pad;
    TrimPadded(s[i..], pad);
  }

  lemma DashPadded(s: string, longer: string, end: nat)
    requires Padded(s, longer) && end <= |s| && HasTitle(longer, SkipSpaces(longer, end))
    ensures SkipSpaces(s, end) == SkipSpaces(longer, end) && HasTitle(s, SkipSpaces(s, end))
  {
    var dash := SkipSpaces(longer, end);
    SkipSpacesPadded(s, longer, end);
    assert !IsSpace(longer[dash]);
    OneLinePadded(s, longer, dash + 1);
  }

  lemma TitleIs(line: string, end: nat, dash: nat)
    requires end <= |line| && dash == SkipSpaces(line, end) && HasTitle(line, dash)
    ensures Title(line, end) == Some(Trim(line[dash + 1..]))
  {
  }

  lemma TitlePadded(s: string, longer: string, end: nat)
    requires Padded(s, longer) && end <= |s| && HasTitle(longer, SkipSpaces(longer, end))
    ensures Title(s, end) == Title(longer, end)
  {
    var dash := SkipSpaces(longer, end);
    DashPadded(s, longer, end);
    TrimPaddedFrom(s, longer, dash + 1);
    TitleIs(s, end, dash);
    TitleIs(longer, end, dash);
  }

  /** The heading as its parts. */
  lemma HeadingIs(line: string)
    requires At(line, "## ", 0) && IdAt(line, 3).Some?
    ensures var first := IdAt(line, 3).value;
            Heading(line) == HeadingOf(line[3..first], MoreIds(line, first).0, Title(line, MoreIds(line, first).1))
  {
  }

  /** A heading with white space after it is the same heading without it. */
  lemma HeadingPadded(s: string, longer: string)
    requires Padded(s, longer) && Heading(longer).Some?
    ensures Heading(s) == Heading(longer)
  {
    IdAtPadded(s, longer, 3);
    var first := IdAt(s, 3).value;
    AtPrefix(s, longer, "## ", 0);
    HeadingIs(s);
    HeadingIs(longer);
    MoreIdsPadded(s, longer, first);
    TitlePadded(s, longer, MoreIds(s, first).1);
    SlicePadded(s, longer, 3, first);
  }

  // ---------- Lines ----------

  /** The same lines with white space after them, and then lines of white space. */
  ghost predicate LinesPadded(lines: seq<string>, longer: seq<string>) {
    && |lines| <= |longer|
    && (forall i | 0 <= i < |lines| :: Padded(lines[i], longer[i]))
    && (forall i | |lines| <= i < |longer| :: AllSpaces(longer[i]))
  }

  lemma {:induction false} SplitSpaces(s: string)
    requires AllSpaces(s)
    ensures forall i | 0 <= i < |Split(s)| :: AllSpaces(Split(s)[i])
    decreases |s|
  {
    var k := LineEnd(s, 0);
    if k < |s| { SplitSpaces(s[k + 1..]); }
  }

  lemma FirstLinePadded(s: string, longer: string)
    requires Padded(s, longer) && LineEnd(s, 0) == |s|
    ensures |s| <= LineEnd(longer, 0) && Padded(s, longer[..LineEnd(longer, 0)])
  {
    assert forall j | 0 <= j < |s| :: longer[j] == s[j];
  }

  lemma TailIsSpaces(s: string, longer: string, k: nat)
    requires Padded(s, longer) && |s| <= k <= |longer|
    ensures AllSpaces(longer[k..])
  {
    forall i | 0 <= i < |longer[k..]| ensures IsSpace(longer[k..][i]) {
      assert longer[k..][i] == longer[k + i];
    }
  }

  lemma SplitOne(s: string)
    requires LineEnd(s, 0) == |s|
    ensures Split(s) == [s]
  {
  }

  lemma SplitLastLine(s: string, longer: string)
    requires Padded(s, longer) && LineEnd(s, 0) == |s|
    ensures LinesPadded(Split(s), Split(longer))
  {
    var k := LineEnd(longer, 0);
    FirstLinePadded(s, longer);
    SplitOne(s);
    if k < |longer| {
      TailIsSpaces(s, longer, k + 1);
      SplitSpaces(longer[k + 1..]);
    } else {
      SplitOne(longer);
    }
  }

  lemma {:induction false} SplitPadded(s: string, longer: string)
    requires Padded(s, longer)
    ensures LinesPadded(Split(s), Split(longer))
    decreases |s|
  {
    var k := LineEnd(s, 0);
    if k == |s| {
      SplitLastLine(s, longer);
    } else {
      assert forall j | 0 <= j <= k :: longer[j] == s[j];
      LineEndIs(longer, 0, k);
      SlicePadded(s, longer, 0, k);
      assert Padded(s[k + 1..], longer[k + 1..]);
      SplitPadded(s[k + 1..], longer[k + 1..]);
      ConsPadded(s[..k], Split(s[k + 1..]), Split(longer[k + 1..]));
      assert longer[..k] == s[..k];
    }
  }

  lemma ConsPadded(line: string, lines: seq<string>, longer: seq<string>)
    requires LinesPadded(lines, longer)
    ensures LinesPadded([line] + lines, [line] + longer)
  {
    assert Padded(line, line);
  }

  lemma NoHeadingInSpaces(line: string)
    requires AllSpaces(line)
    ensures Heading(line).None?
  {
    AtMeans(line, "## ", 0);
    assert line == "" || (IsSpace(line[0]) && line[0] != '#');
    assert "## "[0] == '#';
  }

  // ---------- Entries ----------

  /** Every entry of `p` is an entry of `kept`, with the same ids and title on the same line. */
  ghost predicate Survives(before: seq<Entrada>, after: seq<Entrada>) {
    forall i | 0 <= i < |before| :: IsIn(before[i], after)
  }

  ghost predicate IsIn(e: Entrada, entries: seq<Entrada>) {
    exists j :: 0 <= j < |entries| && SameHeading(entries[j], e)
  }

  lemma SurvivesTogether(a: seq<Entrada>, b: seq<Entrada>, c: seq<Entrada>)
    requires Survives(a, b) && Survives(b, c)
    ensures Survives(a, c)
  {
    forall i | 0 <= i < |a| ensures IsIn(a[i], c) {
      assert IsIn(a[i], b);
      var j :| 0 <= j < |b| && SameHeading(b[j], a[i]);
      assert IsIn(b[j], c);
      var k :| 0 <= k < |c| && SameHeading(c[k], b[j]);
      assert SameHeading(c[k], a[i]);
    }
  }

  /** Every heading is the entry of its line. */
  lemma {:induction false} HeadingIsEntry(lines: seq<Line>, k: nat, n: nat)
    requires k < n <= |lines| && lines[k].heading.Some?
    ensures exists j :: 0 <= j < |Entries(lines, n)| && Entries(lines, n)[j].linea == k + 1 &&
                        lines[k].heading == Some((Entries(lines, n)[j].pts, Entries(lines, n)[j].titulo))
  {
    if k < n - 1 {
      HeadingIsEntry(lines, k, n - 1);
      var j :| 0 <= j < |Entries(lines, n - 1)| && Entries(lines, n - 1)[j].linea == k + 1 &&
               lines[k].heading == Some((Entries(lines, n - 1)[j].pts, Entries(lines, n - 1)[j].titulo));
      assert Entries(lines, n)[j] == Entries(lines, n - 1)[j];
    } else {
      var last := |Entries(lines, n)| - 1;
      assert Entries(lines, n)[last].linea == k + 1;
    }
  }

  /** What one line of the longer text is the heading of, the same line of the shorter is too. */
  lemma HeadingsPadded(lines: seq<string>, longer: seq<string>, k: nat)
    requires LinesPadded(lines, longer) && k < |longer| && Heading(longer[k]).Some?
    ensures k < |lines| && Heading(lines[k]) == Heading(longer[k])
  {
    if k < |lines| {
      HeadingPadded(lines[k], longer[k]);
    } else {
      NoHeadingInSpaces(longer[k]);
    }
  }

  /** The entry a line is the heading of, in a log read from its lines. */
  lemma LineIsEntry(lines: seq<Line>, k: nat, e: Entrada)
    requires k < |lines| && lines[k].heading == Some((e.pts, e.titulo)) && e.linea == k + 1
    ensures IsIn(e, Analysis(lines))
  {
    HeadingIsEntry(lines, k, |lines|);
    var entries := Entries(lines, |lines|);
    var j :| 0 <= j < |entries| && entries[j].linea == k + 1 && lines[k].heading == Some((entries[j].pts, entries[j].titulo));
    assert SameHeading(Analysis(lines)[j], e);
  }

  lemma EntryIsOnItsLine(lines: seq<Line>, i: nat)
    requires i < |Analysis(lines)|
    ensures IsHeading(lines, Analysis(lines)[i])
  {
    EntriesAreHeadings(lines, |lines|);
    assert IsHeading(lines, Entries(lines, |lines|)[i]);
  }

  /** Every heading of the longer log is a heading of the shorter, on the same line. */
  ghost predicate HeadingsKept(lines: seq<Line>, longer: seq<Line>) {
    forall k | 0 <= k < |longer| && longer[k].heading.Some? :: k < |lines| && lines[k].heading == longer[k].heading
  }

  lemma PaddedHeadingsKept(lines: seq<string>, longer: seq<string>)
    requires LinesPadded(lines, longer)
    ensures HeadingsKept(ReadAll(lines), ReadAll(longer))
  {
    var short, long := ReadAll(lines), ReadAll(longer);
    forall k | 0 <= k < |long| && long[k].heading.Some? ensures k < |short| && short[k].heading == long[k].heading {
      HeadingsPadded(lines, longer, k);
    }
  }

  lemma EntrySurvives(lines: seq<Line>, longer: seq<Line>, i: nat)
    requires HeadingsKept(lines, longer) && i < |Analysis(longer)|
    ensures IsIn(Analysis(longer)[i], Analysis(lines))
  {
    var e := Analysis(longer)[i];
    EntryIsOnItsLine(longer, i);
    LineIsEntry(lines, e.linea - 1, e);
  }

  lemma EntriesSurvive(lines: seq<Line>, longer: seq<Line>)
    requires HeadingsKept(lines, longer)
    ensures Survives(Analysis(longer), Analysis(lines))
  {
    forall i | 0 <= i < |Analysis(longer)| ensures IsIn(Analysis(longer)[i], Analysis(lines)) {
      EntrySurvives(lines, longer, i);
    }
  }

  /** Cutting trailing white space loses no entry. */
  lemma PaddedSurvives(s: string, longer: string)
    requires Padded(s, longer)
    ensures Survives(Indexed(longer), Indexed(s))
  {
    SplitPadded(s, longer);
    PaddedHeadingsKept(Split(s), Split(longer));
    EntriesSurvive(ReadAll(Split(s)), ReadAll(Split(longer)));
  }

  /** Text added after a line break loses no entry. */
  lemma ExtendedSurvives(p: string, longer: string)
    requires p + "\n" <= longer
    ensures Survives(Indexed(p), Indexed(longer))
  {
    var more := longer[|p| + 1..];
    assert longer == p + "\n" + more;
    AppendOnly(p, more);
    var before, after := Indexed(p), Indexed(longer);
    forall i | 0 <= i < |before| ensures IsIn(before[i], after) {
      assert Continues(before[i], after[i], |Split(p)|);
    }
  }

  /** What precedes the index stays: the text above the mark, or all of it where there is no mark. */
  ghost predicate Written(log: string, p: string) {
    var corte := IndexOf(log, MARCA);
    if corte < 0 then p == log else p + "\n" <= log[..corte]
  }

  lemma KeptSurvives(log: string, prose: Prose, p: string)
    requires Rewritten(log, prose).Some? && Written(log, p)
    ensures Survives(Indexed(p), Indexed(Kept(log)))
  {
    var corte := IndexOf(log, MARCA);
    if corte < 0 {
      TrimEndIsPrefix(log);
      PaddedSurvives(Kept(log), log);
    } else if LastIndexOf(log, SEPARATOR, corte) < 0 {
      MarkHasNoBreak();
      assert log[..corte] <= Kept(log);
      ExtendedSurvives(p, Kept(log));
    } else {
      ExtendedSurvives(p, log[..corte]);
      IndexKeepsEntries(log, prose);
      SameSurvives(Indexed(log[..corte]), Indexed(Kept(log)));
      SurvivesTogether(Indexed(p), Indexed(log[..corte]), Indexed(Kept(log)));
    }
  }

  lemma SameSurvives(a: seq<Entrada>, b: seq<Entrada>)
    requires SameEntries(a, b)
    ensures Survives(a, b)
  {
    forall i | 0 <= i < |a| ensures IsIn(a[i], b) {
      assert SameHeading(b[i], a[i]);
    }
  }

  /**
   A rewrite that is not refused loses no entry: every one written above the mark, or anywhere in a file
   without a mark, is in the new file with the same ids and title, on the same line.
   */
  lemma NoEntryIsLost(log: string, prose: Prose, p: string)
    requires Rewritten(log, prose).Some? && Written(log, p)
    ensures Survives(Indexed(p), Indexed(Rewritten(log, prose).value))
  {
    KeptSurvives(log, prose, p);
    GenerarShape(Kept(log), prose);
    StartsWithBreak(Kept(log), Generar(Kept(log), prose));
    ExtendedSurvives(Kept(log), Rewritten(log, prose).value);
    SurvivesTogether(Indexed(p), Indexed(Kept(log)), Indexed(Rewritten(log, prose).value));
  }

  lemma StartsWithBreak(p: string, tail: string)
    requires tail != "" && tail[0] == '\n'
    ensures p + "\n" <= p + tail
  {
    assert (p + tail)[..|p| + 1] == p + "\n";
  }
}
