/** What the patterns of the index match, said of the text, and what the index shows of its entries. */
module LogIndexMeaning {
  import opened Wrappers
  import opened Text
  import opened LogIndex
  import opened LogIndexFacts
  import LogIndexKept
  import PaymentReference

  // ---------- Closing lines ----------

  /** The words stand somewhere in the text. */
  ghost predicate Mentions(s: string, words: string) {
    exists before, after :: s == before + words + after
  }

  lemma ContainsMeans(s: string, words: string)
    ensures Contains(s, words) <==> Mentions(s, words)
  {
    var k := IndexOf(s, words);
    if k >= 0 {
      AtMeans(s, words, k);
      assert s == s[..k] + words + s[k + |words|..];
    }
    if before, after :| s == before + words + after {
      AtMeans(s, words, |before|);
    }
  }

  /** A line closes everything when it says so in one of four ways, whatever its capitals. */
  ghost predicate ClosesEverything(line: string) {
    var small := Lower(line);
    || Mentions(small, "toda la validacion pendiente") || Mentions(small, "toda la validación pendiente")
    || Mentions(small, "dalos a todos por validados") || Mentions(small, "las validaciones dalas por validado")
  }

  /** It is a closure when it has one of three words. */
  ghost predicate IsAClosure(line: string) {
    var small := Lower(line);
    Mentions(small, "vobo") || Mentions(small, "closed") || Mentions(small, "validad")
  }

  lemma AnyOfThree(s: string, a: string, b: string, c: string)
    ensures ContainsAny(s, [a, b, c]) <==> Mentions(s, a) || Mentions(s, b) || Mentions(s, c)
  {
    var all := [a, b, c];
    ContainsAnyMeans(s, all);
    ContainsMeans(s, a);
    ContainsMeans(s, b);
    ContainsMeans(s, c);
    assert all[0] == a && all[1] == b && all[2] == c;
  }

  lemma AnyOfFour(s: string, a: string, b: string, c: string, d: string)
    ensures ContainsAny(s, [a, b, c, d]) <==> Mentions(s, a) || Mentions(s, b) || Mentions(s, c) || Mentions(s, d)
  {
    ContainsMeans(s, a);
    AnyOfThree(s, b, c, d);
    assert [a, b, c, d][1..] == [b, c, d];
  }

  lemma TotalMeans(line: string)
    ensures IsTotal(line) <==> ClosesEverything(line)
  {
    AnyOfFour(Lower(line), "toda la validacion pendiente", "toda la validación pendiente",
              "dalos a todos por validados", "las validaciones dalas por validado");
  }

  lemma ClosureMeans(line: string)
    ensures IsClosure(line) <==> IsAClosure(line)
  {
    AnyOfThree(Lower(line), "vobo", "closed", "validad");
  }

  // ---------- Ids ----------

  /** At `i` stands the id, a `PT-` and digits, and no more digits follow. */
  predicate IdStands(s: string, i: nat, id: string) {
    && |id| > 3 && id[..3] == "PT-" && AllDigits(id[3..])
    && i + |id| <= |s| && s[i..i + |id|] == id
    && (i + |id| < |s| ==> !IsDigit(s[i + |id|]))
  }

  lemma {:induction false} SkipDigitsTo(s: string, i: nat, j: nat)
    requires i <= j <= |s| && (forall k | i <= k < j :: IsDigit(s[k])) && (j < |s| ==> !IsDigit(s[j]))
    ensures SkipDigits(s, i) == j
    decreases j - i
  {
    if i < j { SkipDigitsTo(s, i + 1, j); }
  }

  lemma {:induction false} SkipsDigits(s: string, i: nat)
    requires i <= |s|
    ensures var j := SkipDigits(s, i);
            (forall k | i <= k < j :: IsDigit(s[k])) && (j < |s| ==> !IsDigit(s[j]))
    decreases |s| - i
  {
    if i < |s| && IsDigit(s[i]) { SkipsDigits(s, i + 1); }
  }

  lemma IdAtMeans(s: string, i: nat, id: string)
    ensures IdStands(s, i, id) <==> IdAt(s, i).Some? && s[i..IdAt(s, i).value] == id
  {
    AtMeans(s, "PT-", i);
    if IdStands(s, i, id) {
      var part := s[i..i + |id|];
      assert forall k | 0 <= k < |id| :: part[k] == s[i + k];
      assert id[0] == id[..3][0] && id[1] == id[..3][1] && id[2] == id[..3][2];
      forall k | i + 3 <= k < i + |id| ensures IsDigit(s[k]) {
        assert s[k] == id[k - i] == id[3..][k - i - 3];
      }
      SkipDigitsTo(s, i + 4, i + |id|);
    }
    if IdAt(s, i).Some? && s[i..IdAt(s, i).value] == id {
      var end := IdAt(s, i).value;
      SkipsDigits(s, i + 4);
      assert id[..3] == "PT-";
      forall k | 0 <= k < |id[3..]| ensures IsDigit(id[3..][k]) {
        assert id[3..][k] == s[i + 3 + k];
      }
    }
  }

  lemma NoIdInsideAnId(s: string, i: nat, j: nat)
    requires IdAt(s, i).Some? && i < j < IdAt(s, i).value
    ensures IdAt(s, j).None?
  {
    AtMeans(s, "PT-", i);
    AtMeans(s, "PT-", j);
    SkipsDigits(s, i + 4);
    assert "PT-"[0] == 'P' && "PT-"[1] == 'T' && "PT-"[2] == '-';
    assert j == i + 1 ==> s[j] == 'T';
    assert j == i + 2 ==> s[j] == '-';
    assert j >= i + 3 ==> IsDigit(s[j]);
    assert s[j + 0] != 'P';
  }

  /** A line names exactly the ids that stand in it. */
  lemma {:induction false} NamedMeans(s: string, i: nat, id: string)
    ensures id in NamedFrom(s, i) <==> exists j :: i <= j && IdStands(s, j, id)
    decreases |s| - i
  {
    if i < |s| {
      IdAtMeans(s, i, id);
      if IdAt(s, i).Some? {
        var end := IdAt(s, i).value;
        NamedMeans(s, end, id);
        forall j | i < j < end ensures !IdStands(s, j, id) {
          NoIdInsideAnId(s, i, j);
          IdAtMeans(s, j, id);
        }
      } else {
        NamedMeans(s, i + 1, id);
      }
    }
  }

  /** The line names the entry by one of its ids. */
  ghost predicate Names(line: string, pts: seq<string>) {
    exists k, j :: 0 <= k < |pts| && 0 <= j && IdStands(line, j, pts[k])
  }

  lemma NamesMeans(line: string, pts: seq<string>)
    ensures NamesOneOf(Read(line), pts) <==> Names(line, pts)
  {
    forall k | 0 <= k < |pts|
      ensures pts[k] in NamedFrom(line, 0) <==> exists j :: 0 <= j && IdStands(line, j, pts[k])
    {
      NamedMeans(line, 0, pts[k]);
    }
    if NamesOneOf(Read(line), pts) {
      var k :| 0 <= k < |pts| && pts[k] in Read(line).named;
      assert Read(line).named == NamedFrom(line, 0);
      var j :| 0 <= j && IdStands(line, j, pts[k]);
    }
    if k, j :| 0 <= k < |pts| && 0 <= j && IdStands(line, j, pts[k]) {
      assert pts[k] in NamedFrom(line, 0);
      assert pts[k] in Read(line).named;
    }
  }

  /** A later line closes an entry by closing everything, or by being a closure that names one of its ids. */
  lemma WhatCloses(lines: seq<string>, k: nat, e: Entrada)
    requires k < |lines|
    ensures Closes(ReadAll(lines), k, e) <==>
            e.linea <= k && (ClosesEverything(lines[k]) || (IsAClosure(lines[k]) && Names(lines[k], e.pts)))
  {
    TotalMeans(lines[k]);
    ClosureMeans(lines[k]);
    NamesMeans(lines[k], e.pts);
    assert ReadAll(lines)[k] == Read(lines[k]);
  }

  // ---------- The declared status ----------

  /** The first of the next eleven lines that has a status, if no section starts up to it. */
  ghost predicate DeclaredAt(lines: seq<Line>, heading: nat, j: nat) {
    && heading < j < heading + 12 && j < |lines| && lines[j].status.Some?
    && forall k | heading < k <= j :: !lines[k].section && (k < j ==> lines[k].status.None?)
  }

  lemma {:induction false} DeclaredFrom(lines: seq<Line>, heading: nat, j: nat, end: nat)
    requires heading < j <= |lines| && end <= |lines| && end <= heading + 12
    requires forall k | heading < k < j :: !lines[k].section && lines[k].status.None?
    requires end < |lines| ==> end == heading + 12
    ensures var found := Declared(lines, j, end);
            if exists k: nat :: DeclaredAt(lines, heading, k)
            then exists k: nat :: DeclaredAt(lines, heading, k) && lines[k].status == Some(found)
            else found == "SIN_DECLARAR"
    decreases end - j
  {
    if j < end {
      if lines[j].section {
        assert forall k: nat :: k < j ==> !DeclaredAt(lines, heading, k);
      } else if lines[j].status.Some? {
        assert DeclaredAt(lines, heading, j);
      } else {
        DeclaredFrom(lines, heading, j + 1, end);
      }
    }
  }

  lemma {:induction false} EntryIs(lines: seq<Line>, n: nat, i: nat)
    requires n <= |lines| && i < |Entries(lines, n)|
    ensures 1 <= Entries(lines, n)[i].linea <= n
    ensures EntryAt(lines, Entries(lines, n)[i].linea - 1) == [Entries(lines, n)[i]]
  {
    if i < |Entries(lines, n - 1)| {
      EntryIs(lines, n - 1, i);
    }
  }

  /** An entry's status is that of the first line declaring one in its window, or says that none does. */
  lemma DeclaredStatus(lines: seq<Line>, i: nat)
    requires i < |Analysis(lines)|
    ensures 1 <= Analysis(lines)[i].linea
    ensures var e, heading: nat := Analysis(lines)[i], Analysis(lines)[i].linea - 1;
            if exists k: nat :: DeclaredAt(lines, heading, k)
            then exists k: nat :: DeclaredAt(lines, heading, k) && lines[k].status == Some(e.estado)
            else e.estado == "SIN_DECLARAR"
  {
    EntryIs(lines, |lines|, i);
    var h := Entries(lines, |lines|)[i].linea - 1;
    DeclaredFrom(lines, h, h + 1, Smaller(h + WINDOW, |lines|));
  }

  // ---------- Headings and statuses as they are written ----------

  predicate IsId(id: string) {
    |id| > 3 && id[..3] == "PT-" && AllDigits(id[3..])
  }

  /** At `i` is written ` / PT-n`, and a space follows. */
  predicate IdAfterSlash(s: string, i: nat, id: string) {
    && IsId(id) && i + 3 + |id| < |s|
    && s[i] == ' ' && s[i + 1] == '/' && s[i + 2] == ' ' && s[i + 3..i + 3 + |id|] == id && s[i + 3 + |id|] == ' '
  }

  /** At `i` is written ` — ` and the title, to the end. */
  predicate TitleFrom(s: string, i: nat, title: string) {
    i + 3 <= |s| && s[i] == ' ' && s[i + 1] == '—' && s[i + 2] == ' ' && s[i + 3..] == title
  }

  predicate IdsThenTitle(s: string, i: nat, pts: seq<string>, title: string)
    decreases |pts|
  {
    if pts == [] then TitleFrom(s, i, title)
    else IdAfterSlash(s, i, pts[0]) && IdsThenTitle(s, i + 3 + |pts[0]|, pts[1..], title)
  }

  /** The line is `## PT-1 / PT-2 — title`. */
  predicate Written(s: string, pts: seq<string>, title: string) {
    && pts != [] && IsId(pts[0]) && 3 + |pts[0]| < |s|
    && s[0] == '#' && s[1] == '#' && s[2] == ' ' && s[3..3 + |pts[0]|] == pts[0] && s[3 + |pts[0]|] == ' '
    && IdsThenTitle(s, 3 + |pts[0]|, pts[1..], title)
  }

  lemma OneSpace(s: string, i: nat)
    requires i + 1 < |s| && s[i] == ' ' && !IsSpace(s[i + 1])
    ensures SkipSpaces(s, i) == i + 1
  {
    assert SkipSpaces(s, i + 1) == i + 1;
  }

  lemma IdHere(s: string, i: nat, id: string)
    requires IsId(id) && i + |id| < |s| && s[i..i + |id|] == id && s[i + |id|] == ' '
    ensures IdAt(s, i) == Some(i + |id|)
  {
    assert IdStands(s, i, id);
    IdAtMeans(s, i, id);
    var end := IdAt(s, i).value;
    assert |s[i..end]| == end - i;
  }

  lemma SlashHere(s: string, i: nat, id: string)
    requires IdAfterSlash(s, i, id)
    ensures LogIndexKept.SlashAt(s, i) == Some(i + 1) && LogIndexKept.IdFrom(s, i + 2) == Some((i + 3, i + 3 + |id|))
  {
    OneSpace(s, i);
    assert s[i + 3] == s[i + 3..i + 3 + |id|][0] == id[..3][0];
    OneSpace(s, i + 2);
    IdHere(s, i + 3, id);
  }

  lemma NoMoreIds(s: string, i: nat, title: string)
    requires TitleFrom(s, i, title)
    ensures MoreIds(s, i) == ([], i)
  {
    OneSpace(s, i);
  }

  lemma OneMoreId(s: string, i: nat, id: string)
    requires IdAfterSlash(s, i, id)
    ensures MoreIds(s, i) == ([id] + MoreIds(s, i + 3 + |id|).0, MoreIds(s, i + 3 + |id|).1)
  {
    SlashHere(s, i, id);
    LogIndexKept.MoreIdsStep(s, i);
  }

  lemma OneMoreRead(s: string, i: nat, pts: seq<string>)
    requires pts != [] && IdAfterSlash(s, i, pts[0]) && MoreIds(s, i + 3 + |pts[0]|).0 == pts[1..]
    ensures MoreIds(s, i).0 == pts && MoreIds(s, i).1 == MoreIds(s, i + 3 + |pts[0]|).1
  {
    OneMoreId(s, i, pts[0]);
    assert [pts[0]] + pts[1..] == pts;
  }

  lemma {:induction false} IdsAreRead(s: string, i: nat, pts: seq<string>, title: string)
    requires i <= |s| && IdsThenTitle(s, i, pts, title)
    ensures MoreIds(s, i).0 == pts && TitleFrom(s, MoreIds(s, i).1, title)
    decreases |pts|
  {
    if pts == [] {
      NoMoreIds(s, i, title);
    } else {
      IdsAreRead(s, i + 3 + |pts[0]|, pts[1..], title);
      OneMoreRead(s, i, pts);
    }
  }

  lemma TrimmedStarts(title: string)
    requires Trim(title) == title
    ensures title == "" || !IsSpace(title[0])
  {
    TrimStartIsSuffix(title);
    TrimEndIsPrefix(TrimStart(title));
  }

  lemma SpaceIsTrimmed(title: string)
    ensures Trim(" " + title) == Trim(title)
  {
    var s := " " + title;
    assert s[0] == ' ' && s[1..] == title;
    assert TrimStart(s) == TrimStart(title);
  }

  lemma TitleIsRead(s: string, i: nat, title: string)
    requires TitleFrom(s, i, title) && OneLine(title) && Trim(title) == title
    ensures Title(s, i) == Some(title)
  {
    OneSpace(s, i);
    TrimmedStarts(title);
    SpaceIsTrimmed(title);
    assert s[i + 2..] == " " + title;
    assert title != "" ==> s[i + 3] == title[0];
    assert SkipSpaces(s, i + 3) == i + 3;
    assert SkipSpaces(s, i + 2) == i + 3;
  }

  /** A heading is read as it is written: its ids in order, and its title. */
  lemma HeadingIsRead(s: string, pts: seq<string>, title: string)
    requires Written(s, pts, title) && OneLine(title) && Trim(title) == title
    ensures Heading(s) == Some((pts, title))
  {
    var end := 3 + |pts[0]|;
    FirstIdIsRead(s, pts[0]);
    IdsAreRead(s, end, pts[1..], title);
    TitleIsRead(s, MoreIds(s, end).1, title);
    LogIndexKept.HeadingIs(s);
    assert [pts[0]] + pts[1..] == pts;
  }

  lemma FirstIdIsRead(s: string, id: string)
    requires IsId(id) && 3 + |id| < |s| && s[0] == '#' && s[1] == '#' && s[2] == ' '
    requires s[3..3 + |id|] == id && s[3 + |id|] == ' '
    ensures At(s, "## ", 0) && IdAt(s, 3) == Some(3 + |id|)
  {
    AtMeans(s, "## ", 0);
    IdHere(s, 3, id);
  }

  /** At `p` is written `Status: ` and a word, which ends at a space or at the end. */
  predicate StatusWritten(s: string, p: nat, word: string) {
    && word != "" && (forall i | 0 <= i < |word| :: !IsSpace(word[i]))
    && p + 8 + |word| <= |s| && At(s, "Status:", p) && s[p + 7] == ' ' && s[p + 8..p + 8 + |word|] == word
    && (p + 8 + |word| < |s| ==> IsSpace(s[p + 8 + |word|]))
  }

  lemma {:induction false} SkipWordTo(s: string, i: nat, j: nat)
    requires i <= j <= |s| && (forall k | i <= k < j :: !IsSpace(s[k])) && (j < |s| ==> IsSpace(s[j]))
    ensures SkipWord(s, i) == j
    decreases j - i
  {
    if i < j { SkipWordTo(s, i + 1, j); }
  }

  lemma StatusStands(s: string, p: nat, word: string)
    requires StatusWritten(s, p, word)
    ensures StatusAt(s, p) == Some(word)
  {
    var w := p + 8;
    var part := s[w..w + |word|];
    assert forall k | 0 <= k < |word| :: part[k] == s[w + k];
    forall k | w <= k < w + |word| ensures !IsSpace(s[k]) { assert part[k - w] == s[k]; }
    OneSpace(s, p + 7);
    SkipWordTo(s, w, w + |word|);
  }

  /** A status at the start of a line is read. */
  lemma StatusAtStart(s: string, word: string)
    requires StatusWritten(s, 0, word)
    ensures Status(s) == Some(word)
  {
    StatusStands(s, 0, word);
  }

  lemma {:induction false} StatusSkips(s: string, p: nat, bar: nat)
    requires p <= bar < |s| && s[bar] == '|' && StatusAt(s, SkipSpaces(s, bar + 1)).Some?
    requires StatusAt(s, 0).None? && forall k | p <= k < bar :: s[k] != '|'
    ensures StatusFrom(s, p) == StatusAt(s, SkipSpaces(s, bar + 1))
    decreases bar - p
  {
    if p < bar { StatusSkips(s, p + 1, bar); }
  }

  /** So is one after the first bar of a line. */
  lemma StatusAfterBar(s: string, bar: nat, word: string)
    requires bar + 2 <= |s| && s[bar] == '|' && s[bar + 1] == ' ' && StatusWritten(s, bar + 2, word)
    requires StatusAt(s, 0).None? && forall k | 0 <= k < bar :: s[k] != '|'
    ensures Status(s) == Some(word)
  {
    StatusStands(s, bar + 2, word);
    AtMeans(s, "Status:", bar + 2);
    assert "Status:"[0] == 'S' && s[bar + 2 + 0] == 'S';
    OneSpace(s, bar + 1);
    StatusSkips(s, 0, bar);
  }

  // ---------- What the index shows ----------

  function Shown(entries: seq<Entrada>, states: seq<string>): set<nat> {
    set i: nat | i < |entries| && EstadoReal(entries[i]) in states
  }

  lemma ShownAppend(entries: seq<Entrada>, e: Entrada, states: seq<string>)
    ensures |Shown(entries + [e], states)| == |Shown(entries, states)| + if EstadoReal(e) in states then 1 else 0
  {
    var n := |entries|;
    assert forall i | 0 <= i < n :: (entries + [e])[i] == entries[i];
    assert n !in Shown(entries, states);
    if EstadoReal(e) in states {
      assert Shown(entries + [e], states) == Shown(entries, states) + {n};
    } else {
      assert Shown(entries + [e], states) == Shown(entries, states);
    }
  }

  /** The counts of the index are the numbers of entries shown with those states. */
  lemma {:induction false} CountsAreRight(entries: seq<Entrada>, states: seq<string>)
    ensures CountReal(entries, states) == |Shown(entries, states)|
  {
    if entries != [] {
      var n := |entries| - 1;
      CountsAreRight(entries[..n], states);
      ShownAppend(entries[..n], entries[n], states);
      assert entries[..n] + [entries[n]] == entries;
    }
  }

  /** The index counts its entries, those shown with an open status, and those without a status, and lists them all. */
  lemma WhatTheIndexSays(log: string, prose: Prose)
    ensures var entries := Indexed(log);
            BodyOf(log, prose) == prose.explanation +
              ["**" + PaymentReference.Decimal(|entries|) + "** encabezados · **" +
               PaymentReference.Decimal(|Shown(entries, ["VALIDATION_PENDING", "IN_PROGRESS", "BLOCKED", "PENDING"])|) +
               "** realmente abiertos · **" + PaymentReference.Decimal(|Shown(entries, ["SIN_DECLARAR"])|) +
               "** sin `Status:` declarado."] +
              prose.header + RowsOf(entries) + [""]
  {
    CountsAreRight(Indexed(log), ESTADOS_ABIERTOS);
    CountsAreRight(Indexed(log), [UNDECLARED]);
  }

  lemma RowIs(e: Entrada)
    ensures RowOf(e) ==
            "| " + Join(e.pts, " / ") + " | " + PaymentReference.Decimal(e.linea) + " | `" + e.estado + "` | **" + EstadoReal(e) + "** | "
            + (if e.cerradoEn.Some? then "cerrado en la línea " + PaymentReference.Decimal(e.cerradoEn.value) else "—") + " |"
  {
    assert e.cerradoEn.None? ==> EstadoReal(e) == e.estado;
  }

  /** The table has one row an entry, in order. */
  lemma {:induction false} RowPerEntry(entries: seq<Entrada>)
    ensures |RowsOf(entries)| == |entries| && forall i | 0 <= i < |entries| :: RowsOf(entries)[i] == RowOf(entries[i])
  {
    if entries != [] {
      RowPerEntry(entries[..|entries| - 1]);
    }
  }
}
