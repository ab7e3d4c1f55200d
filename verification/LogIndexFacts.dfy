/** What the index promises: an append-only reading of the log, and a rewrite that keeps what was written by hand. */
module LogIndexFacts {
  import opened Wrappers
  import opened Text
  import opened LogIndex

  // ---------- Lines ----------

  lemma {:induction false} LineEndIs(s: string, i: nat, k: nat)
    requires i <= k <= |s| && (k < |s| ==> s[k] == '\n') && forall j | i <= j < k :: s[j] != '\n'
    ensures LineEnd(s, i) == k
    decreases k - i
  {
    if i < k { LineEndIs(s, i + 1, k); }
  }

  predicate NoBreak(s: string) {
    forall k | 0 <= k < |s| :: s[k] != '\n'
  }

  lemma SplitFirst(line: string, rest: string)
    requires NoBreak(line)
    ensures Split(line + "\n" + rest) == [line] + Split(rest)
  {
    var s := line + "\n" + rest;
    LineEndIs(s, 0, |line|);
    assert s[..|line|] == line && s[|line| + 1..] == rest;
  }

  /** Splitting distributes over a line break. */
  lemma {:induction false} SplitAppend(a: string, b: string)
    ensures Split(a + "\n" + b) == Split(a) + Split(b)
    decreases |a|
  {
    var k := LineEnd(a, 0);
    if k == |a| {
      SplitFirst(a, b);
    } else {
      var line, rest := a[..k], a[k + 1..];
      assert a + "\n" + b == line + "\n" + (rest + "\n" + b);
      SplitFirst(line, rest + "\n" + b);
      SplitAppend(rest, b);
    }
  }

  // ---------- Appending ----------

  lemma ReadAppend(a: string, b: string)
    ensures ReadAll(Split(a + "\n" + b)) == ReadAll(Split(a)) + ReadAll(Split(b))
  {
    SplitAppend(a, b);
  }

  /** The same entry as far as its heading goes. */
  predicate SameHeading(e: Entrada, f: Entrada) {
    e.pts == f.pts && e.titulo == f.titulo && e.linea == f.linea
  }

  /** A status found within fewer lines is found within more; one not found stays so only without new lines. */
  lemma {:induction false} DeclaredGrows(lines: seq<Line>, more: seq<Line>, j: nat, end: nat, later: nat)
    requires end <= |lines| && end <= later <= |lines + more|
    ensures Declared(lines + more, j, later) == Declared(lines, j, end) || Declared(lines, j, end) == UNDECLARED
    ensures later == end ==> Declared(lines + more, j, later) == Declared(lines, j, end)
    decreases end - j
  {
    if j < end {
      assert (lines + more)[j] == lines[j];
      if !lines[j].section && lines[j].status.None? {
        DeclaredGrows(lines, more, j + 1, end, later);
      }
    }
  }

  /** What an entry may become when lines are added below line `n`. */
  predicate Continues(e: Entrada, f: Entrada, n: nat) {
    && SameHeading(e, f)
    && (f.estado == e.estado || (e.estado == UNDECLARED && n < e.linea + WINDOW - 1))
  }

  /** The same entries, later. */
  predicate ContinueAll(before: seq<Entrada>, after: seq<Entrada>, n: nat) {
    |before| == |after| && forall i | 0 <= i < |before| :: Continues(before[i], after[i], n)
  }

  lemma ContinueTogether(a: seq<Entrada>, b: seq<Entrada>, a': seq<Entrada>, b': seq<Entrada>, n: nat)
    requires ContinueAll(a, a', n) && ContinueAll(b, b', n)
    ensures ContinueAll(a + b, a' + b', n)
  {
  }

  lemma EntryAppend(lines: seq<Line>, more: seq<Line>, i: nat)
    requires i < |lines|
    ensures ContinueAll(EntryAt(lines, i), EntryAt(lines + more, i), |lines|)
  {
    assert (lines + more)[i] == lines[i];
    DeclaredGrows(lines, more, i + 1, Smaller(i + WINDOW, |lines|), Smaller(i + WINDOW, |lines + more|));
  }

  lemma {:induction false} EntriesAppend(lines: seq<Line>, more: seq<Line>, n: nat)
    requires n <= |lines|
    ensures ContinueAll(Entries(lines, n), Entries(lines + more, n), |lines|)
  {
    if n > 0 {
      EntriesAppend(lines, more, n - 1);
      EntryAppend(lines, more, n - 1);
      var i := n - 1;
      ContinueTogether(Entries(lines, i), EntryAt(lines, i), Entries(lines + more, i), EntryAt(lines + more, i), |lines|);
    }
  }

  /** Each entry is the heading on its own line. */
  predicate AreHeadings(lines: seq<Line>, entries: seq<Entrada>) {
    forall k | 0 <= k < |entries| :: IsHeading(lines, entries[k])
  }

  predicate IsHeading(lines: seq<Line>, e: Entrada) {
    1 <= e.linea <= |lines| && lines[e.linea - 1].heading == Some((e.pts, e.titulo))
  }

  lemma HeadingsTogether(lines: seq<Line>, a: seq<Entrada>, b: seq<Entrada>)
    requires AreHeadings(lines, a) && AreHeadings(lines, b)
    ensures AreHeadings(lines, a + b)
  {
    forall k | 0 <= k < |a + b| ensures IsHeading(lines, (a + b)[k]) {
      assert k < |a| ==> IsHeading(lines, a[k]);
      assert k >= |a| ==> IsHeading(lines, b[k - |a|]);
    }
  }

  lemma {:induction false} EntriesAreHeadings(lines: seq<Line>, n: nat)
    requires n <= |lines|
    ensures AreHeadings(lines, Entries(lines, n))
  {
    if n > 0 {
      EntriesAreHeadings(lines, n - 1);
      HeadingsTogether(lines, Entries(lines, n - 1), EntryAt(lines, n - 1));
    }
  }

  /** Later lines only add entries, below the ones there are. */
  lemma {:induction false} EntriesGrow(lines: seq<Line>, m: nat, n: nat)
    requires m <= n <= |lines|
    ensures Entries(lines, m) <= Entries(lines, n)
    ensures forall i | |Entries(lines, m)| <= i < |Entries(lines, n)| :: m < Entries(lines, n)[i].linea
  {
    if m < n { EntriesGrow(lines, m, n - 1); }
  }

  lemma ClosesAlike(lines: seq<Line>, more: seq<Line>, k: nat, e: Entrada, f: Entrada)
    requires k < |lines| && SameHeading(e, f)
    ensures Closes(lines + more, k, f) == Closes(lines, k, e)
  {
    assert (lines + more)[k] == lines[k];
  }

  /** The first closure is decided by the lines up to it. */
  lemma {:induction false} FirstClosureGrows(lines: seq<Line>, more: seq<Line>, e: Entrada, f: Entrada, n: nat)
    requires |lines| <= n <= |lines + more| && SameHeading(e, f)
    ensures var before, after := FirstClosure(lines, e, |lines|), FirstClosure(lines + more, f, n);
            (before.Some? ==> after == before) && (before.None? && after.Some? ==> |lines| < after.value)
  {
    var before, after := FirstClosure(lines, e, |lines|), FirstClosure(lines + more, f, n);
    if before.Some? {
      ClosesAlike(lines, more, before.value - 1, e, f);
      if after.Some? && after.value < before.value {
        ClosesAlike(lines, more, after.value - 1, e, f);
      }
    } else if after.Some? && after.value <= |lines| {
      ClosesAlike(lines, more, after.value - 1, e, f);
    }
  }

  /** The same headings on the same lines. */
  predicate SameEntries(a: seq<Entrada>, b: seq<Entrada>) {
    |a| == |b| && forall i | 0 <= i < |a| :: SameHeading(a[i], b[i])
  }

  /** What the entries of a log of `n` lines become when lines are added below. */
  predicate Extends(before: seq<Entrada>, after: seq<Entrada>, n: nat) {
    && |before| <= |after|
    && (forall i | 0 <= i < |before| ::
          && Continues(before[i], after[i], n)
          && (before[i].cerradoEn.Some? ==> after[i].cerradoEn == before[i].cerradoEn)
          && (before[i].cerradoEn.None? && after[i].cerradoEn.Some? ==> n < after[i].cerradoEn.value))
    && (forall i | |before| <= i < |after| :: n < after[i].linea)
  }

  lemma AppendLines(lines: seq<Line>, more: seq<Line>)
    ensures Extends(Analysis(lines), Analysis(lines + more), |lines|)
  {
    var all := lines + more;
    EntriesAppend(lines, more, |lines|);
    EntriesGrow(all, |lines|, |all|);
    var before, after := Entries(lines, |lines|), Entries(all, |all|);
    forall i | 0 <= i < |before|
      ensures Continues(before[i], after[i], |lines|)
      ensures var x, y := FirstClosure(lines, before[i], |lines|), FirstClosure(all, after[i], |all|);
              (x.Some? ==> y == x) && (x.None? && y.Some? ==> |lines| < y.value)
    {
      assert after[i] == Entries(all, |lines|)[i];
      FirstClosureGrows(lines, more, before[i], after[i], |all|);
    }
  }

  /**
   Appending lines keeps every entry in its place with its heading and any closing line it had. A new closing
   line is one of the new lines. The declared status changes only from none, and only for an entry whose
   window of lines was cut short by the end of the log.
   */
  lemma AppendOnly(a: string, b: string)
    ensures Extends(Indexed(a), Indexed(a + "\n" + b), |Split(a)|)
  {
    ReadAppend(a, b);
    AppendLines(ReadAll(Split(a)), ReadAll(Split(b)));
  }

  /** An entry records the first later line that closes it, and records one exactly when there is one. */
  lemma ClosingLine(lines: seq<Line>, i: nat, n: nat)
    requires i < |Analysis(lines)|
    ensures var e := Analysis(lines)[i];
            e.cerradoEn == Some(n) <==>
            0 < n <= |lines| && Closes(lines, n - 1, e) && forall k | 0 <= k < n - 1 :: !Closes(lines, k, e)
  {
    var e, f := Analysis(lines)[i], Entries(lines, |lines|)[i];
    assert e == ClosedBy(lines, f, |lines|);
    assert forall k | 0 <= k < |lines| :: Closes(lines, k, e) == Closes(lines, k, f);
  }

  /** What is shown: a closure wins only over a status that was open, and nothing shown as open was closed later. */
  lemma ShownState(lines: seq<Line>, i: nat)
    requires i < |Analysis(lines)|
    ensures var e := Analysis(lines)[i];
            && (EstadoReal(e) in ESTADOS_ABIERTOS <==>
                e.estado in ESTADOS_ABIERTOS && forall k | 0 <= k < |lines| :: !Closes(lines, k, e))
            && (EstadoReal(e) != e.estado ==> EstadoReal(e) == "CLOSED" && e.estado in ESTADOS_ABIERTOS)
  {
    var e := Analysis(lines)[i];
    assert e == ClosedBy(lines, Entries(lines, |lines|)[i], |lines|);
    assert forall k | 0 <= k < |lines| :: Closes(lines, k, e) == Closes(lines, k, Entries(lines, |lines|)[i]);
    assert "CLOSED" !in ESTADOS_ABIERTOS by {
      assert |"CLOSED"| == 6 && |"VALIDATION_PENDING"| == 18 && |"IN_PROGRESS"| == 11;
      assert "CLOSED"[0] == 'C' && "BLOCKED"[0] == 'B' && "PENDING"[0] == 'P';
    }
  }

  // ---------- The rewrite ----------

  lemma MarkHasNoBreak()
    ensures |MARCA| > 4 && MARCA[0] == '#' && NoBreak(MARCA)
  {
  }

  function Tail(log: string, prose: Prose): string {
    "\n" + Join(BodyOf(log, prose), "\n")
  }

  /** The index starts with its separator and its mark. */
  lemma GenerarShape(log: string, prose: Prose)
    ensures Generar(log, prose) == "\n---\n\n" + (MARCA + Tail(log, prose))
  {
    JoinHead(BodyOf(log, prose), MARCA);
  }

  lemma JoinHead(body: seq<string>, mark: string)
    requires body != []
    ensures Join(["", "---", "", mark] + body, "\n") == "\n---\n\n" + (mark + ("\n" + Join(body, "\n")))
  {
    var last := mark + "\n" + Join(body, "\n");
    var parts := ["", "---", "", mark] + body;
    assert parts[1..] == ["---", "", mark] + body;
    assert parts[1..][1..] == ["", mark] + body;
    assert parts[1..][1..][1..] == [mark] + body;
    assert parts[1..][1..][1..][1..] == body;
    assert Join(parts[1..][1..][1..], "\n") == last;
    assert Join(parts[1..][1..], "\n") == "" + "\n" + last;
    assert Join(parts[1..], "\n") == "---" + "\n" + ("" + "\n" + last);
    assert Join(parts, "\n") == "" + "\n" + ("---" + "\n" + ("" + "\n" + last));
    assert "" + "\n" + ("---" + "\n" + ("" + "\n" + last)) == "\n---\n\n" + last;
  }

  lemma FirstAt(s: string, pattern: string, k: nat)
    requires At(s, pattern, k) && forall i | 0 <= i < k :: !At(s, pattern, i)
    ensures IndexOf(s, pattern) == k
  {
  }

  /** Standing at a position, character by character. */
  lemma AtMeans(s: string, pattern: string, i: nat)
    ensures At(s, pattern, i) <==> i + |pattern| <= |s| && forall k | 0 <= k < |pattern| :: s[i + k] == pattern[k]
  {
    if i + |pattern| <= |s| {
      var part := s[i..i + |pattern|];
      assert forall k | 0 <= k < |pattern| :: part[k] == s[i + k];
    }
  }

  /** What holds of a longer text's first part. */
  lemma AtPrefix(s: string, longer: string, pattern: string, i: nat)
    requires s <= longer && i + |pattern| <= |s|
    ensures At(longer, pattern, i) == At(s, pattern, i)
  {
    assert longer[i..i + |pattern|] == s[i..i + |pattern|];
  }

  lemma NoMarkBefore(p: string, gap: string, mark: string, tail: string, i: nat)
    requires !Contains(p, mark) && |mark| > 0 && NoBreak(mark) && i < |p| + |gap|
    requires |gap| > 0 && gap[0] == '\n' && forall k | 0 <= k < |gap| :: gap[k] != mark[0]
    ensures !At(p + gap + (mark + tail), mark, i)
  {
    var s := p + gap + (mark + tail);
    AtMeans(s, mark, i);
    if i + |mark| <= |p| {
      AtPrefix(p, s, mark, i);
      assert !At(p, mark, i);
    } else if i >= |p| {
      assert s[i + 0] == gap[i - |p|];
    } else {
      var k := |p| - i;
      assert s[i + k] == gap[0] && mark[k] != '\n';
    }
  }

  /** A text followed by an index: the separator, the mark and more. */
  predicate HasIndex(log: string, p: string, mark: string, tail: string) {
    log == p + "\n---\n\n" + (mark + tail)
  }

  /** The first mark of a text without marks followed by an index is that of the index. */
  lemma MarkOf(log: string, p: string, mark: string, tail: string)
    requires HasIndex(log, p, mark, tail)
    requires !Contains(p, mark) && |mark| > 0 && mark[0] == '#' && NoBreak(mark)
    ensures IndexOf(log, mark) == |p| + 6
  {
    AtMeans(log, mark, |p| + 6);
    forall i | 0 <= i < |p| + 6 ensures !At(log, mark, i) {
      NoMarkBefore(p, "\n---\n\n", mark, tail, i);
    }
    FirstAt(log, mark, |p| + 6);
  }

  /** And the last separator up to it is that of the index. */
  lemma SeparatorOf(log: string, p: string, mark: string, tail: string)
    requires HasIndex(log, p, mark, tail) && |mark| > 0 && mark[0] == '#'
    ensures LastIndexOf(log, SEPARATOR, |p| + 6) == |p|
  {
    var gap := "\n---\n\n";
    AtMeans(log, SEPARATOR, |p|);
    assert forall k | 0 <= k < 6 :: log[|p| + k] == gap[k];
    assert log[|p| + 6] == '#';
    forall i | |p| < i <= |p| + 6 ensures !At(log, SEPARATOR, i) {
      AtMeans(log, SEPARATOR, i);
      assert SEPARATOR[0] == '\n' && SEPARATOR[1] == '-';
      assert i < |p| + 6 ==> log[i] == gap[i - |p|];
      assert i + 1 < |p| + 6 ==> log[i + 1] == gap[i + 1 - |p|];
    }
  }

  lemma GapHasNoHeading()
    ensures !HasIntruder("\n---\n\n")
  {
    var gap := "\n---\n\n";
    forall i | 0 <= i <= |gap| ensures !IntruderAt(gap, i) {
      AtMeans(gap, "##", i);
      if At(gap, "##", i) { assert gap[i + 0] == '#'; }
    }
  }

  /**
   Rewriting keeps the text before the index, whatever index stood there: any text without the mark, followed
   by the index of any other log, becomes that very text followed by its own index.
   */
  lemma RewriteKeepsText(p: string, stale: string, formerly: Prose, prose: Prose)
    requires !Contains(p, MARCA)
    ensures Rewritten(p + Generar(stale, formerly), prose) == Some(p + Generar(p, prose))
  {
    GenerarShape(stale, formerly);
    GapHasNoHeading();
    CutAtIndex(p + Generar(stale, formerly), p, Tail(stale, formerly));
  }

  lemma CutAtIndex(log: string, p: string, tail: string)
    requires !Contains(p, MARCA) && HasIndex(log, p, MARCA, tail)
    ensures Kept(log) == p && Replaced(log) == "\n---\n\n"
  {
    MarkHasNoBreak();
    MarkOf(log, p, MARCA, tail);
    SeparatorOf(log, p, MARCA, tail);
    assert log[..|p|] == p;
    assert log[|p|..|p| + 6] == "\n---\n\n";
  }

  /** The mark is in the file with no separator before it, and is not the end of the file. */
  predicate LooseMark(log: string) {
    var corte := IndexOf(log, MARCA);
    corte >= 0 && LastIndexOf(log, SEPARATOR, corte) < 0 && corte + |MARCA| < |log|
  }

  /** Cutting never takes the first mark with it, but for a loose one. */
  lemma CutHasNoMark(log: string)
    requires !LooseMark(log)
    ensures !Contains(Kept(log), MARCA)
  {
    MarkHasNoBreak();
    var p := Kept(log);
    var i := IndexOf(p, MARCA);
    TrimEndIsPrefix(log);
    if i >= 0 {
      assert p <= log;
      assert log[i..i + |MARCA|] == p[i..i + |MARCA|];
      assert At(log, MARCA, i);
    }
  }

  /** A loose mark stays loose whatever follows what precedes it and it. */
  lemma LooseMarkStays(log: string, kept: string, out: string)
    requires LooseMark(log) && kept <= log && kept <= out && |kept| < |out|
    requires IndexOf(log, MARCA) + |MARCA| <= |kept|
    ensures LooseMark(out)
  {
    MarkHasNoBreak();
    var corte, mark := IndexOf(log, MARCA), MARCA;
    forall i | 0 <= i <= corte
      ensures At(out, mark, i) == At(log, mark, i) && At(out, SEPARATOR, i) == At(log, SEPARATOR, i)
    {
      AtPrefix(kept, log, mark, i);
      AtPrefix(kept, out, mark, i);
      AtPrefix(kept, log, SEPARATOR, i);
      AtPrefix(kept, out, SEPARATOR, i);
    }
    FirstAt(out, mark, corte);
  }

  /** With a loose mark each rewrite takes the last character of the file for the index and adds another. */
  lemma LooseMarkGrows(log: string, prose: Prose)
    requires LooseMark(log)
    ensures Rewritten(log, prose).Some? && LooseMark(Rewritten(log, prose).value)
    ensures |log| < |Rewritten(log, prose).value|
  {
    var p := Kept(log);
    assert p == log[..|log| - 1];
    GenerarShape(p, prose);
    LooseMarkStays(log, p, p + Generar(p, prose));
  }

  /** Rewriting twice is rewriting once exactly when the mark is not loose. */
  lemma WhenRewritingIsIdempotent(log: string, prose: Prose)
    requires Rewritten(log, prose).Some?
    ensures Rewritten(Rewritten(log, prose).value, prose) == Rewritten(log, prose) <==> !LooseMark(log)
  {
    if LooseMark(log) {
      LooseMarkGrows(log, prose);
      LooseMarkGrows(Rewritten(log, prose).value, prose);
    } else {
      CutHasNoMark(log);
      RewriteKeepsText(Kept(log), Kept(log), prose, prose);
    }
  }

  /** Such a log: the mark with a letter after it. */
  lemma MarkAloneIsLoose(prose: Prose)
    ensures LooseMark(MARCA + "x")
    ensures Rewritten(MARCA + "x", prose).Some?
    ensures Rewritten(Rewritten(MARCA + "x", prose).value, prose) != Rewritten(MARCA + "x", prose)
  {
    MarkHasNoBreak();
    var log := MARCA + "x";
    AtMeans(log, MARCA, 0);
    FirstAt(log, MARCA, 0);
    AtMeans(log, SEPARATOR, 0);
    assert log[0] == '#' && SEPARATOR[0] == '\n';
    LooseMarkGrows(log, prose);
    WhenRewritingIsIdempotent(log, prose);
  }

  // ---------- Nothing is lost ----------

  /** What every heading starts with. */
  predicate StartsEntry(line: string) {
    At(line, "## ", 0) && IdAt(line, 3).Some?
  }

  lemma StartIsIntruder(line: string, text: string)
    requires StartsEntry(line) && line <= text
    ensures IntruderAt(text, 0)
  {
    AtMeans(line, "## ", 0);
    AtMeans(line, "PT-", 3);
    assert line[0 + 0] == '#' && line[0 + 1] == '#' && line[0 + 2] == ' ' && line[3 + 0] == 'P';
    AtMeans(text, "##", 0);
    AtMeans(text, "PT-", 3);
    assert SkipSpaces(text, 3) == 3;
    assert SkipSpaces(text, 2) == 3;
  }

  /** An entry's heading on some line of a text is found by the scan of that text. */
  lemma {:induction false} HeadingIsFound(text: string, k: nat)
    requires k < |Split(text)| && StartsEntry(Split(text)[k])
    ensures HasIntruder(text)
    decreases k
  {
    if k == 0 {
      StartIsIntruder(Split(text)[0], text);
    } else {
      var cut := LineEnd(text, 0);
      HeadingIsFound(text[cut + 1..], k - 1);
      IntruderBelow(text, cut + 1);
    }
  }

  lemma IntruderBelow(s: string, d: nat)
    requires 0 < d <= |s| && s[d - 1] == '\n' && HasIntruder(s[d..])
    ensures HasIntruder(s)
  {
    var p :| 0 <= p <= |s[d..]| && IntruderAt(s[d..], p);
    ShiftIntruder(s, d, p);
  }

  lemma {:induction false} SkipSpacesShift(s: string, d: nat, i: nat)
    requires d + i <= |s|
    ensures SkipSpaces(s, d + i) == d + SkipSpaces(s[d..], i)
    decreases |s| - i
  {
    if d + i < |s| && IsSpace(s[d + i]) { SkipSpacesShift(s, d, i + 1); }
  }

  lemma AtShift(s: string, pattern: string, d: nat, i: nat)
    requires d <= |s|
    ensures At(s, pattern, d + i) == At(s[d..], pattern, i)
  {
    AtMeans(s, pattern, d + i);
    AtMeans(s[d..], pattern, i);
  }

  lemma ShiftIntruder(s: string, d: nat, p: nat)
    requires 0 < d <= |s| && s[d - 1] == '\n' && p <= |s| - d && IntruderAt(s[d..], p)
    ensures IntruderAt(s, d + p)
  {
    var rest := s[d..];
    AtShift(s, "##", d, p);
    SkipSpacesShift(s, d, p + 2);
    var id := SkipSpaces(rest, p + 2);
    AtShift(s, "PT-", d, id);
    assert s[d + id + 3] == rest[id + 3];
    assert p > 0 ==> s[d + p - 1] == rest[p - 1];
  }

  /**
   A rewrite that is not refused loses no entry written above the mark: the text kept has the same headings on
   the same lines as all that stood before the mark.
   */
  lemma IndexKeepsEntries(log: string, prose: Prose)
    requires Rewritten(log, prose).Some?
    requires IndexOf(log, MARCA) >= 0 && LastIndexOf(log, SEPARATOR, IndexOf(log, MARCA)) >= 0
    ensures SameEntries(Indexed(log[..IndexOf(log, MARCA)]), Indexed(Kept(log)))
  {
    var corte := IndexOf(log, MARCA);
    var start := LastIndexOf(log, SEPARATOR, corte);
    SeparatorBeforeMark(log, start, corte);
    NothingBetween(log, start, corte);
  }

  lemma NothingBetween(log: string, start: nat, corte: nat)
    requires start < corte <= |log| && log[start..corte][0] == '\n' && !HasIntruder(log[start..corte])
    ensures SameEntries(Indexed(log[..corte]), Indexed(log[..start]))
  {
    var zone := log[start..corte];
    var below := zone[1..];
    assert log[..corte] == log[..start] + "\n" + below;
    if HasIntruder(below) { IntruderBelow(zone, 1); }
    NothingBelow(log[..start], below);
  }

  lemma NewEntryHasHeading(lines: seq<Line>, more: seq<Line>)
    requires |Analysis(lines)| < |Analysis(lines + more)|
    ensures exists k :: 0 <= k < |more| && more[k].heading.Some?
  {
    var all, m := lines + more, |Analysis(lines)|;
    AppendLines(lines, more);
    EntriesAreHeadings(all, |all|);
    var line := Entries(all, |all|)[m].linea;
    assert |lines| < Analysis(all)[m].linea == line;
    assert IsHeading(all, Entries(all, |all|)[m]);
    assert all[line - 1] == more[line - 1 - |lines|];
  }

  lemma NoHeadingNoEntry(lines: seq<Line>, more: seq<Line>)
    requires forall k | 0 <= k < |more| :: more[k].heading.None?
    ensures SameEntries(Analysis(lines + more), Analysis(lines))
  {
    AppendLines(lines, more);
    if |Analysis(lines)| < |Analysis(lines + more)| { NewEntryHasHeading(lines, more); }
  }

  lemma NothingBelow(p: string, below: string)
    requires !HasIntruder(below)
    ensures SameEntries(Indexed(p + "\n" + below), Indexed(p))
  {
    ReadAppend(p, below);
    var lines := Split(below);
    forall k | 0 <= k < |lines| ensures ReadAll(lines)[k].heading.None? {
      if Heading(lines[k]).Some? { HeadingIsFound(below, k); }
    }
    NoHeadingNoEntry(ReadAll(Split(p)), ReadAll(lines));
  }

  lemma SeparatorBeforeMark(log: string, start: nat, corte: nat)
    requires At(log, SEPARATOR, start) && At(log, MARCA, corte) && start <= corte
    ensures start < corte && log[start..corte][0] == '\n'
  {
    MarkHasNoBreak();
    AtMeans(log, SEPARATOR, start);
    AtMeans(log, MARCA, corte);
    assert log[start + 0] == '\n' && log[corte + 0] == '#';
  }
}
