/**
 The status index of an append-only work log: entries with the status they declared, the later line
 that closed each, and a table rebuilt at the end of the file without touching what precedes it.
 */
module LogIndex {
  import opened Wrappers
  import opened Text
  import PaymentReference

  const MARCA := MARK_TITLE + MARK_NOTICE
  const MARK_TITLE := "## ÍNDICE DE ESTADO"
  const MARK_NOTICE := " — generado, no escrito a mano"
  const SEPARATOR := "\n---"
  const UNDECLARED := "SIN_DECLARAR"

  const TOTALIDAD: seq<string> := [
    "toda la validacion pendiente",
    "toda la validación pendiente",
    "dalos a todos por validados",
    "las validaciones dalas por validado"
  ]

  const CLOSURES: seq<string> := ["vobo", "closed", "validad"]

  const ESTADOS_ABIERTOS: seq<string> := ["VALIDATION_PENDING", "IN_PROGRESS", "BLOCKED", "PENDING"]

  /** How many lines, the heading's own included, are looked at for a status. */
  const WINDOW: nat := 12

  /** `linea` and `cerradoEn` count lines from one. */
  datatype Entrada = Entrada(pts: seq<string>, titulo: string, linea: nat, estado: string, cerradoEn: Option<nat>)

  // ---------- Reading one line ----------

  /** Where the line that starts at `i` ends. */
  function LineEnd(s: string, i: nat): (k: nat)
    requires i <= |s|
    ensures i <= k <= |s| && (k < |s| ==> s[k] == '\n')
    ensures forall j | i <= j < k :: s[j] != '\n'
    decreases |s| - i
  {
    if i < |s| && s[i] != '\n' then LineEnd(s, i + 1) else i
  }

  function Split(s: string): (lines: seq<string>)
    ensures lines != []
    decreases |s|
  {
    var k := LineEnd(s, 0);
    if k == |s| then [s] else [s[..k]] + Split(s[k + 1..])
  }

  function SkipSpaces(s: string, i: nat): (j: nat)
    requires i <= |s|
    ensures i <= j <= |s|
    decreases |s| - i
  {
    if i < |s| && IsSpace(s[i]) then SkipSpaces(s, i + 1) else i
  }

  function SkipDigits(s: string, i: nat): (j: nat)
    requires i <= |s|
    ensures i <= j <= |s|
    decreases |s| - i
  {
    if i < |s| && IsDigit(s[i]) then SkipDigits(s, i + 1) else i
  }

  function SkipWord(s: string, i: nat): (j: nat)
    requires i <= |s|
    ensures i <= j <= |s|
    decreases |s| - i
  {
    if i < |s| && !IsSpace(s[i]) then SkipWord(s, i + 1) else i
  }

  /** The end of `PT-<digits>` standing at `i`, if it does. */
  function IdAt(s: string, i: nat): (end: Option<nat>)
    ensures end.Some? ==> i + 3 < end.value <= |s|
  {
    if At(s, "PT-", i) && i + 3 < |s| && IsDigit(s[i + 3]) then Some(SkipDigits(s, i + 4)) else None
  }

  /** The ids of a heading from one that ends at `i` on, and where the last of them ends. */
  function MoreIds(s: string, i: nat): (r: (seq<string>, nat))
    requires i <= |s|
    ensures i <= r.1 <= |s|
    decreases |s| - i
  {
    var slash := SkipSpaces(s, i);
    if slash < |s| && s[slash] == '/' then
      var next := SkipSpaces(s, slash + 1);
      var end := IdAt(s, next);
      if end.Some? then
        var (rest, last) := MoreIds(s, end.value);
        ([s[next..end.value]] + rest, last)
      else ([], i)
    else ([], i)
  }

  /** What follows the ids of a heading: a dash at `dash` and the title, which is the rest of the line. */
  predicate HasTitle(line: string, dash: nat) {
    && dash < |line| && (line[dash] == '—' || line[dash] == '-')
    && OneLine(line[SkipSpaces(line, dash + 1)..])
  }

  function Title(line: string, end: nat): Option<string>
    requires end <= |line|
  {
    var dash := SkipSpaces(line, end);
    if HasTitle(line, dash) then Some(Trim(line[dash + 1..])) else None
  }

  function HeadingOf(first: string, more: seq<string>, title: Option<string>): Option<(seq<string>, string)> {
    if title.Some? then Some(([first] + more, title.value)) else None
  }

  /** `## PT-n / PT-m — title`: the ids and the title of a heading. */
  function Heading(line: string): (h: Option<(seq<string>, string)>)
    ensures h.Some? ==> At(line, "## ", 0) && IdAt(line, 3).Some?
  {
    var first := IdAt(line, 3);
    if !At(line, "## ", 0) || first.None? then None
    else
      var (more, end) := MoreIds(line, first.value);
      HeadingOf(line[3..first.value], more, Title(line, end))
  }

  /** The word after `Status:` standing at `i`. */
  function StatusAt(s: string, i: nat): Option<string> {
    if !At(s, "Status:", i) then None
    else
      var word := SkipSpaces(s, i + 7);
      if word < SkipWord(s, word) then Some(s[word..SkipWord(s, word)]) else None
  }

  /** The first status at the start of the line or after a bar. */
  function StatusFrom(s: string, p: nat): Option<string>
    requires p <= |s|
    decreases |s| - p
  {
    if p == |s| then None
    else if p == 0 && StatusAt(s, 0).Some? then StatusAt(s, 0)
    else if s[p] == '|' && StatusAt(s, SkipSpaces(s, p + 1)).Some? then StatusAt(s, SkipSpaces(s, p + 1))
    else StatusFrom(s, p + 1)
  }

  function Status(line: string): Option<string> {
    StatusFrom(line, 0)
  }

  /** Every `PT-<digits>` the line mentions from `i` on. */
  function NamedFrom(s: string, i: nat): seq<string>
    decreases |s| - i
  {
    if i >= |s| then []
    else if IdAt(s, i).Some? then [s[i..IdAt(s, i).value]] + NamedFrom(s, IdAt(s, i).value)
    else NamedFrom(s, i + 1)
  }

  predicate IsTotal(line: string) {
    ContainsAny(Lower(line), TOTALIDAD)
  }

  predicate IsClosure(line: string) {
    ContainsAny(Lower(line), CLOSURES)
  }

  /** What one line says: a heading, the start of a section, a status, and whom it closes. */
  datatype Line = Line(
    heading: Option<(seq<string>, string)>, section: bool, status: Option<string>,
    total: bool, closure: bool, named: seq<string>)

  function Read(line: string): Line {
    Line(Heading(line), At(line, "## ", 0), Status(line), IsTotal(line), IsClosure(line), NamedFrom(line, 0))
  }

  function ReadAll(lines: seq<string>): (r: seq<Line>)
    ensures |r| == |lines| && forall i | 0 <= i < |r| :: r[i] == Read(lines[i])
  {
    seq(|lines|, i requires 0 <= i < |lines| => Read(lines[i]))
  }

  // ---------- Entries ----------

  /** The status declared in the lines from `j` to before `end`, up to the next section. */
  function Declared(lines: seq<Line>, j: nat, end: nat): string
    requires end <= |lines|
    decreases end - j
  {
    if j >= end || lines[j].section then UNDECLARED
    else if lines[j].status.Some? then lines[j].status.value
    else Declared(lines, j + 1, end)
  }

  function Smaller(a: nat, b: nat): nat {
    if a < b then a else b
  }

  function EntryAt(lines: seq<Line>, i: nat): seq<Entrada>
    requires i < |lines|
  {
    var h := lines[i].heading;
    if h.None? then []
    else [Entrada(h.value.0, h.value.1, i + 1, Declared(lines, i + 1, Smaller(i + WINDOW, |lines|)), None)]
  }

  /** The entries whose heading is among the first `n` lines, none closed yet. */
  function Entries(lines: seq<Line>, n: nat): seq<Entrada>
    requires n <= |lines|
  {
    if n == 0 then [] else Entries(lines, n - 1) + EntryAt(lines, n - 1)
  }

  // ---------- Closures, described ----------

  predicate NamesOneOf(line: Line, pts: seq<string>) {
    exists k :: 0 <= k < |pts| && pts[k] in line.named
  }

  /** Line `k` closes the entry: it comes later, and closes everything or is a closure that names it. */
  predicate Closes(lines: seq<Line>, k: nat, e: Entrada)
    requires k < |lines|
  {
    && e.linea < k + 1
    && (lines[k].total || (lines[k].closure && NamesOneOf(lines[k], e.pts)))
  }

  /** The first of the first `n` lines that closes the entry. */
  function FirstClosure(lines: seq<Line>, e: Entrada, n: nat): (r: Option<nat>)
    requires n <= |lines|
    ensures r.Some? ==> 0 < r.value <= n && Closes(lines, r.value - 1, e) && forall k | 0 <= k < r.value - 1 :: !Closes(lines, k, e)
    ensures r.None? ==> forall k | 0 <= k < n :: !Closes(lines, k, e)
  {
    if n == 0 then None
    else
      var before := FirstClosure(lines, e, n - 1);
      if before.Some? then before else if Closes(lines, n - 1, e) then Some(n) else None
  }

  function ClosedBy(lines: seq<Line>, e: Entrada, n: nat): Entrada
    requires n <= |lines|
  {
    e.(cerradoEn := FirstClosure(lines, e, n))
  }

  function ClosedAll(lines: seq<Line>, entries: seq<Entrada>, n: nat): (r: seq<Entrada>)
    requires n <= |lines|
    ensures |r| == |entries| && forall i | 0 <= i < |r| :: r[i] == ClosedBy(lines, entries[i], n)
  {
    seq(|entries|, i requires 0 <= i < |entries| => ClosedBy(lines, entries[i], n))
  }

  /** The whole analysis of a log given by what its lines say. */
  function Analysis(lines: seq<Line>): seq<Entrada> {
    ClosedAll(lines, Entries(lines, |lines|), |lines|)
  }

  /** What the index says of a log. */
  function Indexed(log: string): seq<Entrada> {
    Analysis(ReadAll(Split(log)))
  }

  // ---------- Closures, computed ----------

  method Analizar(log: string) returns (entradas: seq<Entrada>)
    ensures entradas == Indexed(log)
  {
    var lineas := ReadAll(Split(log));
    entradas := AnalyseLines(lineas);
  }

  method AnalyseLines(lineas: seq<Line>) returns (entradas: seq<Entrada>)
    ensures entradas == Analysis(lineas)
  {
    entradas := ReadEntries(lineas);
    ghost var entries := entradas;
    NoneClosedYet(lineas, |lineas|);
    for i := 0 to |lineas|
      invariant entradas == ClosedAll(lineas, entries, i)
    {
      entradas := CloseWith(lineas, i, entradas, entries);
    }
  }

  lemma {:induction false} NoneClosedYet(lines: seq<Line>, n: nat)
    requires n <= |lines|
    ensures forall k | 0 <= k < |Entries(lines, n)| :: Entries(lines, n)[k].cerradoEn.None?
  {
    if n > 0 { NoneClosedYet(lines, n - 1); }
  }

  method ReadEntries(lineas: seq<Line>) returns (entradas: seq<Entrada>)
    ensures entradas == Entries(lineas, |lineas|)
  {
    entradas := [];
    for i := 0 to |lineas|
      invariant entradas == Entries(lineas, i)
    {
      var m := lineas[i].heading;
      if m.Some? {
        var estado := ReadStatus(lineas, i);
        entradas := entradas + [Entrada(m.value.0, m.value.1, i + 1, estado, None)];
      }
    }
  }

  /** The status of the entry whose heading is line `i`. */
  method ReadStatus(lineas: seq<Line>, i: nat) returns (estado: string)
    requires i < |lineas|
    ensures estado == Declared(lineas, i + 1, Smaller(i + WINDOW, |lineas|))
  {
    estado := UNDECLARED;
    var j, end := i + 1, Smaller(i + WINDOW, |lineas|);
    while j < end
      invariant i < j && end <= |lineas|
      invariant Declared(lineas, j, end) == Declared(lineas, i + 1, end)
    {
      if lineas[j].section {
        return;
      }
      var s := lineas[j].status;
      if s.Some? {
        return s.value;
      }
      j := j + 1;
    }
  }

  /** What line `i` adds: it closes the entries it may, and never one already closed. */
  method CloseWith(lineas: seq<Line>, i: nat, before: seq<Entrada>, ghost entries: seq<Entrada>) returns (entradas: seq<Entrada>)
    requires i < |lineas| && before == ClosedAll(lineas, entries, i)
    ensures entradas == ClosedAll(lineas, entries, i + 1)
  {
    entradas := before;
    if !lineas[i].closure && !lineas[i].total {
      return;
    }
    for j := 0 to |entradas|
      invariant |entradas| == |entries|
      invariant forall k | 0 <= k < j :: entradas[k] == ClosedBy(lineas, entries[k], i + 1)
      invariant forall k | j <= k < |entradas| :: entradas[k] == ClosedBy(lineas, entries[k], i)
    {
      var e := entradas[j];
      if e.linea < i + 1 && e.cerradoEn.None? && (lineas[i].total || NamesOneOf(lineas[i], e.pts)) {
        entradas := entradas[j := e.(cerradoEn := Some(i + 1))];
      }
    }
  }

  // ---------- The state shown ----------

  function EstadoReal(e: Entrada): string {
    if e.cerradoEn.Some? && e.estado in ESTADOS_ABIERTOS then "CLOSED" else e.estado
  }

  function Note(e: Entrada): string {
    if e.cerradoEn.Some? then "cerrado en la línea " + PaymentReference.Decimal(e.cerradoEn.value)
    else if e.estado == EstadoReal(e) then "—"
    else ""
  }

  function RowOf(e: Entrada): string {
    "| " + Join(e.pts, " / ") + " | " + PaymentReference.Decimal(e.linea) + " | `" + e.estado + "` | **" + EstadoReal(e)
    + "** | " + Note(e) + " |"
  }

  function RowsOf(entries: seq<Entrada>): seq<string> {
    if entries == [] then [] else RowsOf(entries[..|entries| - 1]) + [RowOf(entries[|entries| - 1])]
  }

  function CountReal(entries: seq<Entrada>, states: seq<string>): nat {
    if entries == [] then 0
    else CountReal(entries[..|entries| - 1], states) + if EstadoReal(entries[|entries| - 1]) in states then 1 else 0
  }

  /** The fixed lines around the counts of an index; nothing depends on what they say. */
  datatype Prose = Prose(explanation: seq<string>, header: seq<string>)

  function BodyOf(log: string, prose: Prose): seq<string> {
    var entries := Indexed(log);
    prose.explanation +
    ["**" + PaymentReference.Decimal(|entries|) + "** encabezados · **" +
     PaymentReference.Decimal(CountReal(entries, ESTADOS_ABIERTOS)) + "** realmente abiertos · **" +
     PaymentReference.Decimal(CountReal(entries, [UNDECLARED])) + "** sin `Status:` declarado."] +
    prose.header + RowsOf(entries) + [""]
  }

  function Generar(log: string, prose: Prose): string {
    Join(["", "---", "", MARCA] + BodyOf(log, prose), "\n")
  }

  // ---------- Rewriting the file ----------

  /** A heading of an entry at the start of a line. */
  predicate IntruderAt(zone: string, p: nat) {
    && p <= |zone|
    && (p == 0 || IsLineTerminator(zone[p - 1]))
    && At(zone, "##", p)
    && var id := SkipSpaces(zone, p + 2);
       p + 2 < id && IdAt(zone, id).Some?
  }

  predicate HasIntruder(zone: string) {
    exists p :: 0 <= p <= |zone| && IntruderAt(zone, p)
  }

  /** `s.slice(0, k)`; a negative end counts from the end of the string. */
  function SliceTo(s: string, k: int): string
    requires -1 <= k <= |s|
  {
    if k >= 0 then s[..k] else if s == "" then "" else s[..|s| - 1]
  }

  /** What the log keeps before the index is written again. */
  function Kept(log: string): string {
    var corte := IndexOf(log, MARCA);
    if corte < 0 then TrimEnd(log) else SliceTo(log, LastIndexOf(log, SEPARATOR, corte))
  }

  /** The zone that would be replaced, between the separator and the mark. */
  function Replaced(log: string): string {
    var corte := IndexOf(log, MARCA);
    if corte < 0 || LastIndexOf(log, SEPARATOR, corte) < 0 then "" else log[LastIndexOf(log, SEPARATOR, corte)..corte]
  }

  /** The file after the command, or nothing where the command refuses to lose an entry. */
  function Rewritten(log: string, prose: Prose): Option<string> {
    if HasIntruder(Replaced(log)) then None else Some(Kept(log) + Generar(Kept(log), prose))
  }
}
