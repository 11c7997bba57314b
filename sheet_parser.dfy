/** The second front end's sheet reader (react-app/src/utils/ExcelParser.ts):
    which sheets are project sheets, the metadata block, the task table with
    its last-match column roles, the cell converters, the five status codes
    and the project-level roll-up. A sheet is the decoded grid of cells;
    `Empty` is a missing cell. */
module SheetParser {
  import opened Options
  import opened Text
  import opened JsNumbers
  import opened Seqs
  import opened Grid
  import opened Domain
  import opened Calendar

  // ---- Which sheets describe a project ----

  /** A text cell that mentions TAREFA in any case. */
  predicate TarefaText(c: Cell) {
    c.Str? && Contains(Upper(c.text), "TAREFA")
  }

  /** The recognition window: rows 0..20 and columns 0..10. */
  const ValidRows: nat := 20
  const ValidCols: nat := 10

  predicate InValidWindow(grid: Sheet, r: int, c: int) {
    0 <= r <= ValidRows && r < |grid| && 0 <= c <= ValidCols && c < |grid[r]|
  }

  /** isValidProjectSheet. */
  method IsValidProjectSheet(grid: Sheet) returns (valid: bool)
    ensures valid <==> exists r, c :: InValidWindow(grid, r, c) && TarefaText(grid[r][c])
  {
    var r := 0;
    while r < |grid| && r <= ValidRows
      invariant 0 <= r
      invariant forall i, c :: InValidWindow(grid, i, c) && i < r ==> !TarefaText(grid[i][c])
    {
      var c := 0;
      while c < |grid[r]| && c <= ValidCols
        invariant 0 <= c
        invariant forall i, k :: InValidWindow(grid, i, k) && (i < r || (i == r && k < c)) ==> !TarefaText(grid[i][k])
      {
        if TarefaText(grid[r][c]) {
          assert InValidWindow(grid, r, c);
          return true;
        }
        c := c + 1;
      }
      r := r + 1;
    }
    return false;
  }

  /** The same test as a function, for the workbook loop. */
  function ValidSheet(grid: Sheet): (b: bool)
    ensures b <==> exists r, c :: InValidWindow(grid, r, c) && TarefaText(grid[r][c])
  {
    ValidFrom(grid, 0)
  }

  function ValidFrom(grid: Sheet, r: nat): (b: bool)
    ensures b <==> exists i, c :: r <= i && InValidWindow(grid, i, c) && TarefaText(grid[i][c])
    decreases |grid| - r
  {
    if r >= |grid| || r > ValidRows then false
    else
      var c := FindIndex(grid[r][..Min(|grid[r]|, ValidCols + 1)], TarefaText);
      if c >= 0 then
        assert InValidWindow(grid, r, c);
        true
      else
        var b := ValidFrom(grid, r + 1);
        assert forall k :: InValidWindow(grid, r, k) ==> !TarefaText(grid[r][k]) by {
          forall k | InValidWindow(grid, r, k) ensures !TarefaText(grid[r][k]) {
            assert grid[r][..Min(|grid[r]|, ValidCols + 1)][k] == grid[r][k];
          }
        }
        b
  }

  // ---- Cell converters ----

  /** parseDate: a date cell as it is, a serial number as Unix milliseconds
      (`new Date(t)`, an Invalid Date beyond the Date range), otherwise null. */
  function ParseDate(cell: Cell): (r: Option<JsDate>)
    ensures cell.DateV? ==> r == Some(Valid(cell.ms))
    ensures cell.Num? ==> var t := Round((cell.value - 25569.0) * 86400.0 * 1000.0);
      r.Some? && (r.value.Valid? <==> -MaxTimeMs <= t <= MaxTimeMs) && (r.value.Valid? ==> r.value.ms == t)
    ensures cell.Empty? || cell.Str? ==> r.None?
  {
    match cell
    case DateV(ms) => Some(Valid(ms))
    case Num(v) => Some(TimeClip(Round((v - 25569.0) * 86400.0 * 1000.0)))
    case _ => None
  }

  /** Serial -1e12 lies before the Date range, so it reads as an Invalid Date. */
  lemma FarSerialInvalid()
    ensures ParseDate(Num(-1.0e12)) == Some(InvalidDate)
  {
    assert Round((-1.0e12 - 25569.0) * 86400.0 * 1000.0) == -86400002209161600000;
  }

  /** A whole serial number is that many days after 1899-12-30, at midnight UTC. */
  lemma SerialDay(days: int)
    ensures ParseDate(Num((days + 25569) as real)) == Some(TimeClip(days * 86400000))
  {
    var x := ((days + 25569) as real - 25569.0) * 86400.0 * 1000.0;
    assert x == (days * 86400000) as real;
  }

  /** parseProgress: a fraction up to 1 becomes a rounded percentage, a text with '%' goes
      through the radix-less parseInt without its first '%', anything else is 0. `None` is NaN. */
  function ParseProgress(cell: Cell): (r: Option<real>)
    ensures cell.Num? && cell.value <= 1.0 ==> r == Some(Round(cell.value * 100.0) as real)
    ensures cell.Num? && cell.value > 1.0 ==> r == Some(cell.value)
    ensures cell.Str? && '%' in cell.text ==> (r.None? <==> ParseIntAuto(ReplaceFirst(cell.text, '%', "")).None?)
    ensures cell.Str? && '%' in cell.text && r.Some? ==> r.value == ParseIntAuto(ReplaceFirst(cell.text, '%', "")).value as real
    ensures !cell.Num? && !(cell.Str? && '%' in cell.text) ==> r == Some(0.0)
  {
    match cell
    case Num(v) => Some(if v <= 1.0 then Round(v * 100.0) as real else v)
    case Str(s) =>
      if '%' in s then
        var n := ParseIntAuto(ReplaceFirst(s, '%', ""));
        if n.Some? then Some(n.value as real) else None
      else Some(0.0)
    case _ => Some(0.0)
  }

  /** A fraction in [0, 1] becomes a whole percentage in [0, 100]. */
  lemma FractionProgress(v: real)
    requires 0.0 <= v <= 1.0
    ensures var r := ParseProgress(Num(v)); r.Some? && 0.0 <= r.value <= 100.0 && r.value == r.value.Floor as real
  {
  }

  /** "n%" reads back as n. */
  lemma PercentProgress(n: int)
    ensures ParseProgress(Str(IntText(n) + "%")) == Some(n as real)
  {
    var t := IntText(n);
    assert '%' !in t by {
      var m := if n < 0 then -n else n;
      assert forall k :: 0 <= k < |NatText(m)| ==> NatText(m)[k] != '%';
    }
    ReplaceFirstAfter(t, "%", '%', "");
    assert ReplaceFirst("%", '%', "") == "";
    assert t + "" == t;
    assert '%' in t + "%" by { assert (t + "%")[|t|] == '%'; }
    ParseIntAutoOfIntText(n);
  }

  /** "0x50%" reads as 80: without a radix, parseInt takes "0x" as base 16. */
  lemma HexPercent(d: string)
    requires |d| > 0 && forall k :: 0 <= k < |d| ==> IsHexDigit(d[k])
    ensures ParseProgress(Str("0x" + d + "%")) == Some(HexDigitsValue(d) as real)
  {
    var t := "0x" + d;
    assert '%' !in t by {
      forall k | 0 <= k < |t| ensures t[k] != '%' {
        if k >= 2 { assert t[k] == d[k - 2]; }
      }
    }
    ReplaceFirstAfter(t, "%", '%', "");
    assert ReplaceFirst("%", '%', "") == "";
    assert t + "" == t;
    assert '%' in t + "%" by { assert (t + "%")[|t|] == '%'; }
    ParseIntAutoHex(d);
  }

  // ---- Task status ----

  /** The status codes of the status column: a letter or the spelled-out name. */
  function StatusCode(s: string): (r: Option<Status>)
    ensures r.Some? ==> IsSheetStatus(r.value) && r.value != Atrasado
    ensures r == Some(Concluido) <==> s == "a" || s == "concluido"
    ensures r == Some(EmAndamento) <==> s == "q" || s == "em andamento"
    ensures r == Some(Bloqueado) <==> s == "x" || s == "bloqueado"
    ensures r == Some(Pendente) <==> s == ";" || s == "pendente"
    ensures r == Some(Cancelado) <==> s == "r" || s == "cancelado"
  {
    if s == "a" || s == "concluido" then Some(Concluido)
    else if s == "q" || s == "em andamento" then Some(EmAndamento)
    else if s == "x" || s == "bloqueado" then Some(Bloqueado)
    else if s == ";" || s == "pendente" then Some(Pendente)
    else if s == "r" || s == "cancelado" then Some(Cancelado)
    else None
  }

  /** The code a status cell carries: its lower-cased trimmed text, when the cell is truthy. */
  function CodeOf(raw: Cell): Option<Status> {
    if Truthy(raw) then StatusCode(Trim(Lower(CellText(raw)))) else None
  }

  /** determineStatus: a code wins; then progress 100; then the dates
      against `now`. A date is tested for truthiness (an Invalid Date passes)
      and compared by its time (NaN compares false). */
  function DetermineStatus(raw: Cell, progress: Option<real>, start: Option<JsDate>, end: Option<JsDate>, now: int): (r: Status)
    ensures IsSheetStatus(r)
    ensures CodeOf(raw).Some? ==> r == CodeOf(raw).value
    ensures CodeOf(raw).None? && progress == Some(100.0) ==> r == Concluido
    ensures CodeOf(raw).None? && progress != Some(100.0) ==>
      var s, e := TimeOrNone(start), TimeOrNone(end);
      (r == Atrasado <==> e.Some? && e.value < now && progress.Some? && progress.value < 100.0)
      && (r == EmAndamento <==> !(e.Some? && e.value < now && progress.Some? && progress.value < 100.0)
                                && s.Some? && s.value <= now && (end.None? || (e.Some? && e.value >= now)))
      && (r == Pendente || r == Atrasado || r == EmAndamento)
  {
    var s, e := TimeOrNone(start), TimeOrNone(end);
    if CodeOf(raw).Some? then CodeOf(raw).value
    else if progress == Some(100.0) then Concluido
    else if e.Some? && e.value < now && progress.Some? && progress.value < 100.0 then Atrasado
    else if s.Some? && s.value <= now && (end.None? || (e.Some? && e.value >= now)) then EmAndamento
    else Pendente
  }

  /** A finished task without a code is never late, whatever its dates. */
  lemma DoneNotLate(raw: Cell, start: Option<JsDate>, end: Option<JsDate>, now: int)
    requires CodeOf(raw).None?
    ensures DetermineStatus(raw, Some(100.0), start, end, now) == Concluido
  {
  }

  /** An unfinished task without a code whose end is an Invalid Date is
      neither late nor under way: `!end` is false and NaN compares false. */
  lemma InvalidEndPending(raw: Cell, progress: Option<real>, start: Option<JsDate>, now: int)
    requires CodeOf(raw).None? && progress != Some(100.0)
    ensures DetermineStatus(raw, progress, start, Some(InvalidDate), now) == Pendente
  {
  }

  // ---- The metadata block ----

  datatype Meta = Meta(title: string, benefit: string, team: Team)

  const NoTeam: Team := Team("N/A", "N/A", "N/A", "N/A", "N/A")
  const NoMeta: Meta := Meta("", "0", NoTeam)

  /** The metadata block lies in rows 0..10. */
  const MetaRows: nat := 10

  /** getNextVal: the text of the first truthy cell of the two to the right, or null. */
  function NextVal(grid: Sheet, r: int, c: int): (v: Option<string>)
    ensures v.Some? ==> v.value != ""
    ensures Truthy(CellAt(grid, r, c + 1)) ==> v == Some(CellText(CellAt(grid, r, c + 1)))
    ensures !Truthy(CellAt(grid, r, c + 1)) && Truthy(CellAt(grid, r, c + 2)) ==> v == Some(CellText(CellAt(grid, r, c + 2)))
    ensures !Truthy(CellAt(grid, r, c + 1)) && !Truthy(CellAt(grid, r, c + 2)) ==> v.None?
  {
    TruthyText(CellAt(grid, r, c + 1));
    TruthyText(CellAt(grid, r, c + 2));
    if Truthy(CellAt(grid, r, c + 1)) then Some(CellText(CellAt(grid, r, c + 1)))
    else if Truthy(CellAt(grid, r, c + 2)) then Some(CellText(CellAt(grid, r, c + 2)))
    else None
  }

  /** `val.split(':')[1]?.trim() || val`: the trimmed text between the first and
      the second ':' when it is not blank, else the whole cell text. */
  function BenefitText(val: string): (r: string)
    ensures r == val || (|Split(val, ':')| > 1 && r == Trim(Split(val, ':')[1]) && r != "")
    ensures |Split(val, ':')| <= 1 ==> r == val
    ensures |Split(val, ':')| > 1 && Trim(Split(val, ':')[1]) != "" ==> r == Trim(Split(val, ':')[1])
    ensures |Split(val, ':')| > 1 && Trim(Split(val, ':')[1]) == "" ==> r == val
  {
    var parts := Split(val, ':');
    if |parts| > 1 && Trim(parts[1]) != "" then Trim(parts[1]) else val
  }

  /** A text `a:b` or `a:b:rest` with no ':' in `a` or `b` gives the trimmed `b`,
      when it is not blank, and otherwise the whole text. */
  lemma BenefitBetweenColons(a: string, b: string, rest: string)
    requires ':' !in a && ':' !in b
    requires rest == "" || rest[0] == ':'
    ensures BenefitText(a + ":" + b + rest) == if Trim(b) != "" then Trim(b) else a + ":" + b + rest
  {
    var tail := b + rest;
    assert a + ":" + b + rest == a + [':'] + tail;
    SplitHead(a, tail, ':');
    if rest == "" {
      assert tail == b;
      SplitWhole(b, ':');
    } else {
      assert tail == b + [':'] + rest[1..];
      SplitHead(b, rest[1..], ':');
    }
  }

  /** A team field: overwritten by the next value of a matching cell, when there is one. */
  function TeamField(current: string, matches: bool, next: Option<string>): (r: string)
    ensures matches && next.Some? ==> r == next.value
    ensures !(matches && next.Some?) ==> r == current
  {
    if matches && next.Some? then next.value else current
  }

  /** The title rule: the first short cell naming PROJETO sets the title, to its own
      text when longer than 10 characters, else to the cell on its right. */
  function TitleField(title: string, grid: Sheet, r: int, c: int, val: string, upper: string): (t: string)
    ensures title != "" ==> t == title
    ensures title == "" && !TitleCandidate(val, upper) ==> t == ""
    ensures title == "" && TitleCandidate(val, upper) && |val| > 10 ==> t == val
    ensures title == "" && TitleCandidate(val, upper) && |val| <= 10 && !CellAt(grid, r, c + 1).Empty?
      ==> t == CellText(CellAt(grid, r, c + 1))
    ensures title == "" && TitleCandidate(val, upper) && |val| <= 10 && CellAt(grid, r, c + 1).Empty? ==> t == ""
  {
    if Contains(upper, "PROJETO") && |val| < 50 && title == "" then
      if |val| > 10 then val
      else if !CellAt(grid, r, c + 1).Empty? then CellText(CellAt(grid, r, c + 1))
      else title
    else title
  }

  /** A cell text that may name the title: it mentions PROJETO and is shorter than 50 characters. */
  predicate TitleCandidate(val: string, upper: string) {
    Contains(upper, "PROJETO") && |val| < 50
  }

  /** The title cell (r, c) offers while no title is set yet ("" when it offers none). */
  function OfferedTitle(grid: Sheet, r: int, c: int): string {
    var cell := CellAt(grid, r, c);
    if !Truthy(cell) then "" else var val := CellText(cell); TitleField("", grid, r, c, val, Upper(val))
  }

  /** The five team-field rules of one cell, whose upper-cased text is `upper`. */
  function TeamStep(team: Team, upper: string, next: Option<string>): (t: Team)
    ensures Contains(upper, "SQUAD") && next.Some? ==> t.squad == next.value
    ensures !(Contains(upper, "SQUAD") && next.Some?) ==> t.squad == team.squad
    ensures (Contains(upper, "FABRICA") || Contains(upper, "FÁBRICA")) && next.Some? ==> t.fabrica == next.value
    ensures !((Contains(upper, "FABRICA") || Contains(upper, "FÁBRICA")) && next.Some?) ==> t.fabrica == team.fabrica
    ensures Contains(upper, "ARQ") && next.Some? ==> t.arq == next.value
    ensures !(Contains(upper, "ARQ") && next.Some?) ==> t.arq == team.arq
    ensures Contains(upper, "AF") && next.Some? ==> t.af == next.value
    ensures !(Contains(upper, "AF") && next.Some?) ==> t.af == team.af
    ensures Contains(upper, "DEV") && next.Some? ==> t.dev == next.value
    ensures !(Contains(upper, "DEV") && next.Some?) ==> t.dev == team.dev
    ensures TeamFilled(team) && (next.Some? ==> next.value != "") ==> TeamFilled(t)
  {
    Team(
      TeamField(team.squad, Contains(upper, "SQUAD"), next),
      TeamField(team.fabrica, Contains(upper, "FABRICA") || Contains(upper, "FÁBRICA"), next),
      TeamField(team.arq, Contains(upper, "ARQ"), next),
      TeamField(team.af, Contains(upper, "AF"), next),
      TeamField(team.dev, Contains(upper, "DEV"), next))
  }

  /** The benefit rule: a cell naming BENEFÍCIO or SAVING replaces the benefit. */
  function BenefitField(benefit: string, val: string, upper: string): (b: string)
    ensures (Contains(upper, "BENEFÍCIO") || Contains(upper, "SAVING")) ==> b == BenefitText(val)
    ensures !(Contains(upper, "BENEFÍCIO") || Contains(upper, "SAVING")) ==> b == benefit
  {
    if Contains(upper, "BENEFÍCIO") || Contains(upper, "SAVING") then BenefitText(val) else benefit
  }

  /** One cell of the metadata scan. */
  function MetaCell(m: Meta, grid: Sheet, r: int, c: int): (n: Meta)
    ensures !Truthy(CellAt(grid, r, c)) ==> n == m
  {
    var cell := CellAt(grid, r, c);
    if !Truthy(cell) then m
    else
      var val := CellText(cell);
      var upper := Upper(val);
      Meta(TitleField(m.title, grid, r, c, val, upper), BenefitField(m.benefit, val, upper), TeamStep(m.team, upper, NextVal(grid, r, c)))
  }

  /** Every team field holds some text. */
  predicate TeamFilled(t: Team) {
    t.squad != "" && t.fabrica != "" && t.arq != "" && t.af != "" && t.dev != ""
  }

  /** What one metadata step keeps: a title once set, and filled team fields. */
  predicate MetaKeeps(m: Meta, n: Meta) {
    (m.title != "" ==> n.title == m.title) && (TeamFilled(m.team) ==> TeamFilled(n.team))
  }

  type MetaStep = (Meta, Sheet, int, int) -> Meta

  ghost predicate StepKeepsMeta(step: MetaStep) {
    forall m, grid, r, c :: MetaKeeps(m, step(m, grid, r, c))
  }

  lemma MetaCellKeeps()
    ensures StepKeepsMeta(MetaCell)
  {
  }

  /** The scan over the first `n` cells of row `r`. */
  function MetaCells(m: Meta, grid: Sheet, r: int, n: nat, step: MetaStep): Meta {
    if n == 0 then m else step(MetaCells(m, grid, r, n - 1, step), grid, r, n - 1)
  }

  /** The scan over the first `n` rows. */
  function MetaScanRows(grid: Sheet, n: nat, step: MetaStep): Meta
    requires n <= |grid|
  {
    if n == 0 then NoMeta else var r := n - 1; MetaCells(MetaScanRows(grid, r, step), grid, r, |grid[r]|, step)
  }

  /** extractMetadata: the cells of rows 0..10, row by row. */
  function Metadata(grid: Sheet): Meta {
    MetaScanRows(grid, Min(|grid|, MetaRows + 1), MetaCell)
  }

  lemma {:induction false} MetaCellsKeep(m: Meta, grid: Sheet, r: int, n: nat, step: MetaStep)
    requires StepKeepsMeta(step)
    ensures MetaKeeps(m, MetaCells(m, grid, r, n, step))
  {
    if n > 0 {
      var prev := MetaCells(m, grid, r, n - 1, step);
      MetaCellsKeep(m, grid, r, n - 1, step);
      assert MetaKeeps(prev, step(prev, grid, r, n - 1));
    }
  }

  lemma {:induction false} MetaRowsFilled(grid: Sheet, n: nat, step: MetaStep)
    requires n <= |grid| && StepKeepsMeta(step)
    ensures TeamFilled(MetaScanRows(grid, n, step).team)
  {
    if n > 0 {
      MetaRowsFilled(grid, n - 1, step);
      MetaCellsKeep(MetaScanRows(grid, n - 1, step), grid, n - 1, |grid[n - 1]|, step);
    }
  }

  /** Team fields start at 'N/A' and are only ever replaced by non-empty text. */
  lemma TeamAlwaysFilled(grid: Sheet)
    ensures TeamFilled(Metadata(grid).team)
  {
    MetaCellKeeps();
    MetaRowsFilled(grid, Min(|grid|, MetaRows + 1), MetaCell);
  }

  /** A title found in an earlier row is the title of the whole scan. */
  lemma {:induction false} TitleFirstWins(grid: Sheet, a: nat, b: nat)
    requires a <= b <= |grid|
    requires MetaScanRows(grid, a, MetaCell).title != ""
    ensures MetaScanRows(grid, b, MetaCell).title == MetaScanRows(grid, a, MetaCell).title
    decreases b - a
  {
    if a < b {
      TitleFirstWins(grid, a, b - 1);
      MetaCellKeeps();
      MetaCellsKeep(MetaScanRows(grid, b - 1, MetaCell), grid, b - 1, |grid[b - 1]|, MetaCell);
    }
  }

  /** One cell keeps a title already set, and otherwise takes the title the cell offers. */
  lemma MetaCellTitle(m: Meta, grid: Sheet, r: int, c: int)
    ensures MetaCell(m, grid, r, c).title == (if m.title != "" then m.title else OfferedTitle(grid, r, c))
  {
  }

  /** The title a cell offers while none is set yet. */
  type TitleOffer = (Sheet, int, int) -> string

  /** A step keeps a title once set and otherwise takes the title `offer` names. */
  ghost predicate StepTitle(step: MetaStep, offer: TitleOffer) {
    forall m, grid, r, c {:trigger step(m, grid, r, c)} ::
      step(m, grid, r, c).title == (if m.title != "" then m.title else offer(grid, r, c))
  }

  lemma MetaCellTitles()
    ensures StepTitle(MetaCell, OfferedTitle)
  {
    forall m, grid, r, c ensures MetaCell(m, grid, r, c).title == (if m.title != "" then m.title else OfferedTitle(grid, r, c)) {
      MetaCellTitle(m, grid, r, c);
    }
  }

  /** The title after cell `c` of a row, from the title before it. */
  lemma CellTitleStep(m: Meta, grid: Sheet, r: int, c: nat, step: MetaStep, offer: TitleOffer)
    requires StepTitle(step, offer)
    ensures MetaCells(m, grid, r, c + 1, step).title
      == (if MetaCells(m, grid, r, c, step).title != "" then MetaCells(m, grid, r, c, step).title else offer(grid, r, c))
  {
    var p := MetaCells(m, grid, r, c, step);
    assert MetaCells(m, grid, r, c + 1, step) == step(p, grid, r, c);
  }

  /** Cells of a row that offer no title leave the title empty. */
  lemma {:induction false} CellsNoTitle(m: Meta, grid: Sheet, r: int, n: nat, step: MetaStep, offer: TitleOffer)
    requires StepTitle(step, offer) && m.title == ""
    requires forall c :: 0 <= c < n ==> offer(grid, r, c) == ""
    ensures MetaCells(m, grid, r, n, step).title == ""
  {
    if n > 0 {
      CellsNoTitle(m, grid, r, n - 1, step, offer);
      CellTitleStep(m, grid, r, n - 1, step, offer);
    }
  }

  /** Once set within a row, the title stays for the rest of the row. */
  lemma {:induction false} CellsTitleKept(m: Meta, grid: Sheet, r: int, a: nat, b: nat, step: MetaStep, offer: TitleOffer)
    requires StepTitle(step, offer) && a <= b
    requires MetaCells(m, grid, r, a, step).title != ""
    ensures MetaCells(m, grid, r, b, step).title == MetaCells(m, grid, r, a, step).title
    decreases b - a
  {
    if a < b {
      CellsTitleKept(m, grid, r, a, b - 1, step, offer);
      CellTitleStep(m, grid, r, b - 1, step, offer);
    }
  }

  /** The first cell of a row offering a title sets it for the row. */
  lemma CellsFirstTitle(m: Meta, grid: Sheet, r: int, c: nat, n: nat, step: MetaStep, offer: TitleOffer)
    requires StepTitle(step, offer) && m.title == "" && c < n
    requires offer(grid, r, c) != ""
    requires forall k :: 0 <= k < c ==> offer(grid, r, k) == ""
    ensures MetaCells(m, grid, r, n, step).title == offer(grid, r, c)
  {
    CellsNoTitle(m, grid, r, c, step, offer);
    CellTitleStep(m, grid, r, c, step, offer);
    CellsTitleKept(m, grid, r, c + 1, n, step, offer);
  }

  /** Rows with no offering cell leave the title empty. */
  lemma {:induction false} RowsNoTitle(grid: Sheet, n: nat, step: MetaStep, offer: TitleOffer)
    requires StepTitle(step, offer) && n <= |grid|
    requires forall r, c :: 0 <= r < n && 0 <= c < |grid[r]| ==> offer(grid, r, c) == ""
    ensures MetaScanRows(grid, n, step).title == ""
  {
    if n > 0 {
      RowsNoTitle(grid, n - 1, step, offer);
      CellsNoTitle(MetaScanRows(grid, n - 1, step), grid, n - 1, |grid[n - 1]|, step, offer);
    }
  }

  /** The title is the one offered by the first offering cell of rows 0..10
      in row-major order. */
  lemma TitleFromFirstOffer(grid: Sheet, r: nat, c: nat)
    requires r < Min(|grid|, MetaRows + 1) && c < |grid[r]|
    requires OfferedTitle(grid, r, c) != ""
    requires forall r2, c2 :: 0 <= r2 < r && 0 <= c2 < |grid[r2]| ==> OfferedTitle(grid, r2, c2) == ""
    requires forall c2 :: 0 <= c2 < c ==> OfferedTitle(grid, r, c2) == ""
    ensures Metadata(grid).title == OfferedTitle(grid, r, c)
  {
    var before := MetaScanRows(grid, r, MetaCell);
    MetaCellTitles();
    RowsNoTitle(grid, r, MetaCell, OfferedTitle);
    CellsFirstTitle(before, grid, r, c, |grid[r]|, MetaCell, OfferedTitle);
    assert MetaScanRows(grid, r + 1, MetaCell) == MetaCells(before, grid, r, |grid[r]|, MetaCell);
    TitleFirstWins(grid, r + 1, Min(|grid|, MetaRows + 1));
  }

  /** Without an offering cell in rows 0..10 the title stays empty. */
  lemma TitleWithoutOffer(grid: Sheet)
    requires forall r, c :: 0 <= r < Min(|grid|, MetaRows + 1) && 0 <= c < |grid[r]| ==> OfferedTitle(grid, r, c) == ""
    ensures Metadata(grid).title == ""
  {
    MetaCellTitles();
    RowsNoTitle(grid, Min(|grid|, MetaRows + 1), MetaCell, OfferedTitle);
  }

  /** The fields a labelled cell overwrites, by number: 0 the benefit, then
      1 squad, 2 fabrica, 3 arq, 4 af and 5 dev. */
  function MetaField(m: Meta, f: nat): string {
    if f == 0 then m.benefit
    else if f == 1 then m.team.squad
    else if f == 2 then m.team.fabrica
    else if f == 3 then m.team.arq
    else if f == 4 then m.team.af
    else m.team.dev
  }

  /** The upper-cased cell text carries the label of field `f`. */
  predicate NamesField(upper: string, f: nat) {
    if f == 0 then Contains(upper, "BENEFÍCIO") || Contains(upper, "SAVING")
    else if f == 1 then Contains(upper, "SQUAD")
    else if f == 2 then Contains(upper, "FABRICA") || Contains(upper, "FÁBRICA")
    else if f == 3 then Contains(upper, "ARQ")
    else if f == 4 then Contains(upper, "AF")
    else Contains(upper, "DEV")
  }

  /** What cell (r, c) writes into field `f`: the benefit text of a benefit
      label, the next value of a team label, nothing otherwise. */
  function OfferedValue(grid: Sheet, r: int, c: int, f: nat): Option<string> {
    var cell := CellAt(grid, r, c);
    if !Truthy(cell) || !NamesField(Upper(CellText(cell)), f) then None
    else if f == 0 then Some(BenefitText(CellText(cell)))
    else NextVal(grid, r, c)
  }

  /** One cell replaces the benefit with its benefit text when it is a benefit label. */
  lemma MetaCellBenefit(m: Meta, grid: Sheet, r: int, c: int)
    ensures var cell := CellAt(grid, r, c);
      MetaCell(m, grid, r, c).benefit
        == (if Truthy(cell) && NamesField(Upper(CellText(cell)), 0) then BenefitText(CellText(cell)) else m.benefit)
  {
  }

  /** One cell replaces team field `f` with its next value when it carries the
      field's label and a next value exists. */
  lemma MetaCellTeam(m: Meta, grid: Sheet, r: int, c: int, f: nat)
    requires 1 <= f
    ensures var cell := CellAt(grid, r, c);
      MetaField(MetaCell(m, grid, r, c), f)
        == (if Truthy(cell) && NamesField(Upper(CellText(cell)), f) && NextVal(grid, r, c).Some?
            then NextVal(grid, r, c).value else MetaField(m, f))
  {
  }

  /** The value a cell offers to a field. */
  type ValueOffer = (Sheet, int, int, nat) -> Option<string>

  /** A step overwrites each field with what `offer` names, and keeps it otherwise. */
  ghost predicate StepValue(step: MetaStep, offer: ValueOffer) {
    forall m, grid, r, c, f {:trigger MetaField(step(m, grid, r, c), f)} ::
      MetaField(step(m, grid, r, c), f) == offer(grid, r, c, f).GetOr(MetaField(m, f))
  }

  lemma MetaCellValues()
    ensures StepValue(MetaCell, OfferedValue)
  {
    forall m, grid, r, c, f ensures MetaField(MetaCell(m, grid, r, c), f) == OfferedValue(grid, r, c, f).GetOr(MetaField(m, f)) {
      if f == 0 {
        MetaCellBenefit(m, grid, r, c);
      } else {
        MetaCellTeam(m, grid, r, c, f);
      }
    }
  }

  /** Field `f` after cell `c` of a row, from its value before it. */
  lemma CellValueStep(m: Meta, grid: Sheet, r: int, c: nat, f: nat, step: MetaStep, offer: ValueOffer)
    requires StepValue(step, offer)
    ensures MetaField(MetaCells(m, grid, r, c + 1, step), f)
      == offer(grid, r, c, f).GetOr(MetaField(MetaCells(m, grid, r, c, step), f))
  {
    var p := MetaCells(m, grid, r, c, step);
    assert MetaCells(m, grid, r, c + 1, step) == step(p, grid, r, c);
  }

  /** Cells that offer nothing to field `f` leave it unchanged. */
  lemma {:induction false} CellsNoValue(m: Meta, grid: Sheet, r: int, a: nat, b: nat, f: nat, step: MetaStep, offer: ValueOffer)
    requires StepValue(step, offer) && a <= b
    requires forall c :: a <= c < b ==> offer(grid, r, c, f).None?
    ensures MetaField(MetaCells(m, grid, r, b, step), f) == MetaField(MetaCells(m, grid, r, a, step), f)
    decreases b - a
  {
    if a < b {
      CellsNoValue(m, grid, r, a, b - 1, f, step, offer);
      CellValueStep(m, grid, r, b - 1, f, step, offer);
    }
  }

  /** The last cell of a row's first `n` offering a value to field `f` sets it. */
  lemma CellsLastValue(m: Meta, grid: Sheet, r: int, c: nat, n: nat, f: nat, step: MetaStep, offer: ValueOffer)
    requires StepValue(step, offer) && c < n
    requires offer(grid, r, c, f).Some?
    requires forall k :: c < k < n ==> offer(grid, r, k, f).None?
    ensures MetaField(MetaCells(m, grid, r, n, step), f) == offer(grid, r, c, f).value
  {
    CellValueStep(m, grid, r, c, f, step, offer);
    CellsNoValue(m, grid, r, c + 1, n, f, step, offer);
  }

  /** Rows that offer nothing to field `f` leave it unchanged. */
  lemma {:induction false} RowsNoValue(grid: Sheet, a: nat, b: nat, f: nat, step: MetaStep, offer: ValueOffer)
    requires StepValue(step, offer) && a <= b <= |grid|
    requires forall r, c :: a <= r < b && 0 <= c < |grid[r]| ==> offer(grid, r, c, f).None?
    ensures MetaField(MetaScanRows(grid, b, step), f) == MetaField(MetaScanRows(grid, a, step), f)
    decreases b - a
  {
    if a < b {
      RowsNoValue(grid, a, b - 1, f, step, offer);
      var before := MetaScanRows(grid, b - 1, step);
      CellsNoValue(before, grid, b - 1, 0, |grid[b - 1]|, f, step, offer);
      assert MetaScanRows(grid, b, step) == MetaCells(before, grid, b - 1, |grid[b - 1]|, step);
    }
  }

  /** The benefit (f = 0) and each team field (f = 1..5) hold the value offered
      by the LAST offering cell of rows 0..10 in row-major order. */
  lemma ValueFromLastOffer(grid: Sheet, r: nat, c: nat, f: nat)
    requires r < Min(|grid|, MetaRows + 1) && c < |grid[r]|
    requires OfferedValue(grid, r, c, f).Some?
    requires forall c2 :: c < c2 < |grid[r]| ==> OfferedValue(grid, r, c2, f).None?
    requires forall r2, c2 :: r < r2 < Min(|grid|, MetaRows + 1) && 0 <= c2 < |grid[r2]| ==> OfferedValue(grid, r2, c2, f).None?
    ensures MetaField(Metadata(grid), f) == OfferedValue(grid, r, c, f).value
  {
    var before := MetaScanRows(grid, r, MetaCell);
    MetaCellValues();
    CellsLastValue(before, grid, r, c, |grid[r]|, f, MetaCell, OfferedValue);
    assert MetaScanRows(grid, r + 1, MetaCell) == MetaCells(before, grid, r, |grid[r]|, MetaCell);
    RowsNoValue(grid, r + 1, Min(|grid|, MetaRows + 1), f, MetaCell, OfferedValue);
  }

  /** Without an offering cell in rows 0..10 the benefit stays "0" and a team field 'N/A'. */
  lemma ValueWithoutOffer(grid: Sheet, f: nat)
    requires forall r, c :: 0 <= r < Min(|grid|, MetaRows + 1) && 0 <= c < |grid[r]| ==> OfferedValue(grid, r, c, f).None?
    ensures MetaField(Metadata(grid), f) == (if f == 0 then "0" else "N/A")
  {
    MetaCellValues();
    RowsNoValue(grid, 0, Min(|grid|, MetaRows + 1), f, MetaCell, OfferedValue);
  }

  /** The metadata loops. */
  method ExtractMetadata(grid: Sheet) returns (m: Meta)
    ensures m == Metadata(grid)
  {
    m := NoMeta;
    var limit := Min(|grid|, MetaRows + 1);
    var r := 0;
    while r < limit
      invariant 0 <= r <= limit
      invariant m == MetaScanRows(grid, r, MetaCell)
    {
      var c := 0;
      while c < |grid[r]|
        invariant 0 <= c <= |grid[r]|
        invariant m == MetaCells(MetaScanRows(grid, r, MetaCell), grid, r, c, MetaCell)
      {
        m := VisitMetaCell(m, grid, r, c);
        c := c + 1;
      }
      r := r + 1;
    }
  }

  /** The body of the inner metadata loop. */
  method VisitMetaCell(m: Meta, grid: Sheet, r: int, c: int) returns (n: Meta)
    ensures n == MetaCell(m, grid, r, c)
  {
    var cell := CellAt(grid, r, c);
    if !Truthy(cell) {
      return m;
    }
    var val := CellText(cell);
    var upper := Upper(val);
    var title := m.title;
    if Contains(upper, "PROJETO") && |val| < 50 && title == "" {
      if |val| > 10 {
        title := val;
      } else {
        var nextCell := CellAt(grid, r, c + 1);
        if !nextCell.Empty? {
          title := CellText(nextCell);
        }
      }
    }
    assert title == TitleField(m.title, grid, r, c, val, upper);
    var benefit := m.benefit;
    if Contains(upper, "BENEFÍCIO") || Contains(upper, "SAVING") {
      benefit := BenefitText(val);
    }
    var team := VisitTeam(m.team, upper, NextVal(grid, r, c));
    n := Meta(title, benefit, team);
  }

  /** The team-field statements of the metadata loop: `getNextVal(...) || field`. */
  method VisitTeam(team: Team, upper: string, next: Option<string>) returns (t: Team)
    ensures t == TeamStep(team, upper, next)
  {
    t := team;
    if Contains(upper, "SQUAD") { t := t.(squad := next.GetOr(t.squad)); }
    if Contains(upper, "FABRICA") || Contains(upper, "FÁBRICA") { t := t.(fabrica := next.GetOr(t.fabrica)); }
    if Contains(upper, "ARQ") { t := t.(arq := next.GetOr(t.arq)); }
    if Contains(upper, "AF") { t := t.(af := next.GetOr(t.af)); }
    if Contains(upper, "DEV") { t := t.(dev := next.GetOr(t.dev)); }
  }

  // ---- The task table ----

  /** A present cell whose text mentions TAREFA. */
  predicate HeaderText(c: Cell) {
    !c.Empty? && Contains(Upper(CellText(c)), "TAREFA")
  }

  /** The header row is searched among rows 0..20. */
  const TaskHeaderRows: nat := 20

  /** The first row at or after `r`, up to row 20, with a TAREFA cell; -1 if none. */
  function TaskHeaderFrom(grid: Sheet, r: nat): (h: int)
    ensures h == -1 || (r <= h <= TaskHeaderRows && h < |grid| && exists c :: 0 <= c < |grid[h]| && HeaderText(grid[h][c]))
    ensures forall i, c :: r <= i <= TaskHeaderRows && i < |grid| && (h == -1 || i < h) && 0 <= c < |grid[i]| ==> !HeaderText(grid[i][c])
    decreases |grid| - r
  {
    if r >= |grid| || r > TaskHeaderRows then -1
    else if FindIndex(grid[r], HeaderText) >= 0 then r
    else TaskHeaderFrom(grid, r + 1)
  }

  /** The header row of the task table, or -1. */
  function TaskHeaderRow(grid: Sheet): (h: int)
    ensures -1 <= h < |grid| && h <= TaskHeaderRows
  {
    TaskHeaderFrom(grid, 0)
  }

  /** Column roles; `None` is a role no header cell named, which reads as a missing cell. */
  datatype ColMap = ColMap(name: Option<int>, start: Option<int>, end: Option<int>,
                           status: Option<int>, progress: Option<int>, etapa: Option<int>)

  const NoCols: ColMap := ColMap(None, None, None, None, None, None)

  /** The normalised header text of a present cell; None for a missing one. */
  function HeaderLabel(c: Cell): Option<string> {
    if c.Empty? then None else Some(Trim(Upper(CellText(c))))
  }

  function HeaderLabels(row: Row): (r: seq<Option<string>>)
    ensures |r| == |row|
    ensures forall k :: 0 <= k < |row| ==> r[k] == HeaderLabel(row[k])
  {
    if |row| == 0 then [] else [HeaderLabel(row[0])] + HeaderLabels(row[1..])
  }

  predicate NameLabel(v: string) { Contains(v, "TAREFA") }
  predicate StartLabel(v: string) { Contains(v, "INICIO") || Contains(v, "INÍCIO") }
  predicate EndLabel(v: string) { Contains(v, "FIM") }
  predicate StatusLabelText(v: string) { Contains(v, "STATUS") }
  predicate ProgressLabel(v: string) { Contains(v, "PROGRESSO") }
  predicate EtapaLabel(v: string) { Contains(v, "ETAPA") || Contains(v, "JIRA") }

  /** The role update of one header cell: each role it names moves to its column. */
  function ColStep(m: ColMap, c: int, cellLabel: Option<string>): (r: ColMap)
    ensures cellLabel.None? ==> r == m
  {
    if cellLabel.None? then m
    else
      var v := cellLabel.value;
      ColMap(
        if NameLabel(v) then Some(c) else m.name,
        if StartLabel(v) then Some(c) else m.start,
        if EndLabel(v) then Some(c) else m.end,
        if StatusLabelText(v) then Some(c) else m.status,
        if ProgressLabel(v) then Some(c) else m.progress,
        if EtapaLabel(v) then Some(c - 1) else m.etapa)
  }

  /** The roles after the first `n` header cells. */
  function ColumnsUpTo(labels: seq<Option<string>>, n: nat): ColMap
    requires n <= |labels|
  {
    if n == 0 then NoCols else ColStep(ColumnsUpTo(labels, n - 1), n - 1, labels[n - 1])
  }

  /** The last column whose present header cell satisfies `p`, or None. */
  function LastWhere(labels: seq<Option<string>>, n: nat, p: string -> bool): (r: Option<int>)
    requires n <= |labels|
    ensures r.Some? ==> 0 <= r.value < n && labels[r.value].Some? && p(labels[r.value].value)
    ensures forall k :: 0 <= k < n && (r.None? || k > r.value) ==> labels[k].None? || !p(labels[k].value)
  {
    if n == 0 then None
    else if labels[n - 1].Some? && p(labels[n - 1].value) then Some(n - 1)
    else LastWhere(labels, n - 1, p)
  }

  /** Each role takes the last header cell that names it. */
  lemma {:induction false} ColumnsLastMatch(labels: seq<Option<string>>, n: nat)
    requires n <= |labels|
    ensures ColumnsUpTo(labels, n).name == LastWhere(labels, n, NameLabel)
    ensures ColumnsUpTo(labels, n).start == LastWhere(labels, n, StartLabel)
    ensures ColumnsUpTo(labels, n).end == LastWhere(labels, n, EndLabel)
    ensures ColumnsUpTo(labels, n).status == LastWhere(labels, n, StatusLabelText)
    ensures ColumnsUpTo(labels, n).progress == LastWhere(labels, n, ProgressLabel)
  {
    if n > 0 {
      ColumnsLastMatch(labels, n - 1);
    }
  }

  /** colMap of the header row. */
  function Columns(row: Row): ColMap {
    var labels := HeaderLabels(row);
    ColumnsUpTo(labels, |labels|)
  }

  /** A header cell mentioning TAREFA always gives the name role a column. */
  lemma NameColumnFound(row: Row, c: int)
    requires 0 <= c < |row| && HeaderText(row[c])
    ensures Columns(row).name.Some?
  {
    var labels := HeaderLabels(row);
    ColumnsLastMatch(labels, |labels|);
    HeaderNamesTask(row[c]);
    assert labels[c].Some? && NameLabel(labels[c].value);
  }

  /** Trimming keeps the TAREFA of a header cell. */
  lemma HeaderNamesTask(cell: Cell)
    requires HeaderText(cell)
    ensures HeaderLabel(cell).Some? && NameLabel(HeaderLabel(cell).value)
  {
    TarefaWord();
    TrimKeepsWord(Upper(CellText(cell)), "TAREFA");
  }

  lemma TarefaWord()
    ensures forall k :: 0 <= k < |"TAREFA"| ==> !IsSpace("TAREFA"[k])
  {
  }

  /** The column-role loop. */
  method MapColumns(row: Row) returns (m: ColMap)
    ensures m == Columns(row)
  {
    m := NoCols;
    var c := 0;
    while c < |row|
      invariant 0 <= c <= |row|
      invariant m == ColumnsUpTo(HeaderLabels(row), c)
    {
      m := NextColumn(row, c, m);
      c := c + 1;
    }
  }

  /** One pass of the column-role loop, at column `c`. */
  method NextColumn(row: Row, c: nat, m: ColMap) returns (next: ColMap)
    requires c < |row| && m == ColumnsUpTo(HeaderLabels(row), c)
    ensures next == ColumnsUpTo(HeaderLabels(row), c + 1)
  {
    var cellLabel := HeaderLabel(row[c]);
    assert cellLabel == HeaderLabels(row)[c];
    next := MapColumn(m, c, cellLabel);
    ColumnsUpToStep(HeaderLabels(row), c);
  }

  lemma ColumnsUpToStep(labels: seq<Option<string>>, c: nat)
    requires c < |labels|
    ensures ColumnsUpTo(labels, c + 1) == ColStep(ColumnsUpTo(labels, c), c, labels[c])
  {
  }

  /** The body of the column-role loop. */
  method MapColumn(m: ColMap, c: int, cellLabel: Option<string>) returns (next: ColMap)
    ensures next == ColStep(m, c, cellLabel)
  {
    next := m;
    if cellLabel.Some? {
      var v := cellLabel.value;
      if NameLabel(v) { next := next.(name := Some(c)); }
      if StartLabel(v) { next := next.(start := Some(c)); }
      if EndLabel(v) { next := next.(end := Some(c)); }
      if StatusLabelText(v) { next := next.(status := Some(c)); }
      if ProgressLabel(v) { next := next.(progress := Some(c)); }
      if EtapaLabel(v) { next := next.(etapa := Some(c - 1)); }
    }
  }

  /** The cell of a role in row `r`; an unassigned role reads a missing cell. */
  function RoleCell(grid: Sheet, r: int, col: Option<int>): Cell {
    if col.Some? then CellAt(grid, r, col.value) else Empty
  }

  /** The task of row `r`: its id is the row index and its duration 0. */
  function RowTask(grid: Sheet, r: int, cols: ColMap, now: int): (t: Task)
    ensures t.id == IntText(r) && t.duration == 0.0
    ensures t.name == CellText(RoleCell(grid, r, cols.name))
    ensures t.start == ParseDate(RoleCell(grid, r, cols.start)) && t.end == ParseDate(RoleCell(grid, r, cols.end))
    ensures t.progress == ParseProgress(RoleCell(grid, r, cols.progress))
    ensures t.status == DetermineStatus(RoleCell(grid, r, cols.status), t.progress, t.start, t.end, now)
  {
    var start := ParseDate(RoleCell(grid, r, cols.start));
    var end := ParseDate(RoleCell(grid, r, cols.end));
    var progress := ParseProgress(RoleCell(grid, r, cols.progress));
    Task(IntText(r), CellText(RoleCell(grid, r, cols.name)), start, end, 0.0,
      DetermineStatus(RoleCell(grid, r, cols.status), progress, start, end, now), progress)
  }

  /** The row index a task id names. */
  function RowOf(t: Task): int {
    ParseInt(t.id).GetOr(-1)
  }

  /** The task loop over rows `first` up to `n`: rows with a falsy name cell are skipped. */
  function TaskRows(grid: Sheet, cols: ColMap, first: nat, n: nat, now: int): (ts: seq<Task>)
    requires first <= n
    ensures |ts| <= n - first
    ensures forall k :: 0 <= k < |ts| ==> ts[k].duration == 0.0 && ts[k].name != "" && first <= RowOf(ts[k]) < n
    ensures forall i, j :: 0 <= i < j < |ts| ==> RowOf(ts[i]) < RowOf(ts[j])
    decreases n - first
  {
    if n == first then []
    else
      var prev := TaskRows(grid, cols, first, n - 1, now);
      var r := n - 1;
      if !Truthy(RoleCell(grid, r, cols.name)) then prev
      else
        var t := RowTask(grid, r, cols, now);
        ParseIntOfIntText(r);
        TruthyText(RoleCell(grid, r, cols.name));
        prev + [t]
  }

  /** A task is read exactly for each row of the range whose name cell is truthy. */
  lemma {:induction false} TaskRowsMembers(grid: Sheet, cols: ColMap, first: nat, n: nat, now: int, t: Task)
    requires first <= n
    ensures t in TaskRows(grid, cols, first, n, now)
      <==> exists r :: first <= r < n && Truthy(RoleCell(grid, r, cols.name)) && t == RowTask(grid, r, cols, now)
    decreases n - first
  {
    if n > first {
      var prev := TaskRows(grid, cols, first, n - 1, now);
      TaskRowsMembers(grid, cols, first, n - 1, now, t);
      var r := n - 1;
      if t in TaskRows(grid, cols, first, n, now) && t !in prev {
        assert t == RowTask(grid, r, cols, now) && Truthy(RoleCell(grid, r, cols.name));
      }
      if exists q :: first <= q < n && Truthy(RoleCell(grid, q, cols.name)) && t == RowTask(grid, q, cols, now) {
        var q :| first <= q < n && Truthy(RoleCell(grid, q, cols.name)) && t == RowTask(grid, q, cols, now);
        if q == r {
          assert TaskRows(grid, cols, first, n, now) == prev + [t];
        }
      }
    }
  }

  /** Each task is the reading of its own row (its id names the row), whose name cell is truthy. */
  lemma TaskOfItsRow(grid: Sheet, cols: ColMap, first: nat, n: nat, now: int, k: int)
    requires first <= n && 0 <= k < |TaskRows(grid, cols, first, n, now)|
    ensures var t := TaskRows(grid, cols, first, n, now)[k];
      Truthy(RoleCell(grid, RowOf(t), cols.name)) && t == RowTask(grid, RowOf(t), cols, now)
  {
    var t := TaskRows(grid, cols, first, n, now)[k];
    TaskRowsMembers(grid, cols, first, n, now, t);
    var r :| first <= r < n && Truthy(RoleCell(grid, r, cols.name)) && t == RowTask(grid, r, cols, now);
    ParseIntOfIntText(r);
    assert RowOf(t) == r;
  }

  /** Tasks come from distinct rows, so their ids are distinct. */
  lemma TaskIdsDistinct(grid: Sheet, cols: ColMap, first: nat, n: nat, now: int, i: int, j: int)
    requires first <= n
    requires 0 <= i < j < |TaskRows(grid, cols, first, n, now)|
    ensures TaskRows(grid, cols, first, n, now)[i].id != TaskRows(grid, cols, first, n, now)[j].id
  {
  }

  /** extractTasks: no header row, no tasks; otherwise the rows below it. */
  function Tasks(grid: Sheet, now: int): (ts: seq<Task>)
    ensures TaskHeaderRow(grid) == -1 ==> ts == []
  {
    TasksBelow(grid, TaskHeaderRow(grid), now)
  }

  /** The tasks under header row `h`; none when there is no header row. */
  function TasksBelow(grid: Sheet, h: int, now: int): seq<Task>
    requires -1 <= h < |grid|
  {
    if h == -1 then [] else TaskRows(grid, Columns(grid[h]), h + 1, |grid|, now)
  }

  /** The header search loop: the first TAREFA cell in row-major order, then stop. */
  method FindTaskHeader(grid: Sheet) returns (h: int)
    ensures h == TaskHeaderRow(grid)
  {
    h := -1;
    var r := 0;
    while r < |grid| && r <= TaskHeaderRows
      invariant 0 <= r
      invariant TaskHeaderRow(grid) == TaskHeaderFrom(grid, r)
    {
      var found := RowHasHeader(grid[r]);
      if found {
        h := r;
        return;
      }
      r := r + 1;
    }
  }

  /** The inner header search loop over one row, which breaks at the first TAREFA cell. */
  method RowHasHeader(row: Row) returns (found: bool)
    ensures found <==> FindIndex(row, HeaderText) >= 0
  {
    var c := 0;
    while c < |row|
      invariant 0 <= c <= |row|
      invariant forall k :: 0 <= k < c ==> !HeaderText(row[k])
    {
      if HeaderText(row[c]) {
        return true;
      }
      c := c + 1;
    }
    return false;
  }

  /** The task-row loop. */
  method ReadTasks(grid: Sheet, cols: ColMap, first: nat, now: int) returns (ts: seq<Task>)
    requires first <= |grid|
    ensures ts == TaskRows(grid, cols, first, |grid|, now)
  {
    ts := [];
    var r := first;
    while r < |grid|
      invariant first <= r <= |grid|
      invariant ts == TaskRows(grid, cols, first, r, now)
    {
      var nameCell := RoleCell(grid, r, cols.name);
      if Truthy(nameCell) {
        var name := CellText(nameCell);
        var start := ParseDate(RoleCell(grid, r, cols.start));
        var end := ParseDate(RoleCell(grid, r, cols.end));
        var statusRaw := RoleCell(grid, r, cols.status);
        var progress := ParseProgress(RoleCell(grid, r, cols.progress));
        var status := DetermineStatus(statusRaw, progress, start, end, now);
        ts := ts + [Task(IntText(r), name, start, end, 0.0, status, progress)];
      }
      r := r + 1;
    }
  }

  /** extractTasks. */
  method ExtractTasks(grid: Sheet, now: int) returns (ts: seq<Task>)
    ensures ts == Tasks(grid, now)
  {
    var h := FindTaskHeader(grid);
    assert Tasks(grid, now) == TasksBelow(grid, h, now);
    if h == -1 {
      return [];
    }
    ts := ReadBelowHeader(grid, h, now);
  }

  /** The column mapping of header row `h`, then the task-row loop below it. */
  method ReadBelowHeader(grid: Sheet, h: int, now: int) returns (ts: seq<Task>)
    requires 0 <= h < |grid|
    ensures ts == TasksBelow(grid, h, now)
  {
    var cols := MapColumns(grid[h]);
    ts := ReadTasks(grid, cols, h + 1, now);
    TasksUnder(grid, h, now);
  }

  lemma TasksUnder(grid: Sheet, h: int, now: int)
    requires 0 <= h < |grid|
    ensures TasksBelow(grid, h, now) == TaskRows(grid, Columns(grid[h]), h + 1, |grid|, now)
  {
  }

  // ---- The project of a sheet ----

  /** The sum of the task progresses; NaN (None) as soon as one is NaN. */
  function ProgressSum(ts: seq<Task>): (r: Option<real>)
    ensures r.None? <==> exists k :: 0 <= k < |ts| && ts[k].progress.None?
  {
    if |ts| == 0 then Some(0.0)
    else
      var init := ts[..|ts| - 1];
      var prev := ProgressSum(init);
      assert forall k :: 0 <= k < |init| ==> init[k] == ts[k];
      if prev.None? || ts[|ts| - 1].progress.None? then None
      else Some(prev.value + ts[|ts| - 1].progress.value)
  }

  /** The mean task progress. */
  function MeanProgress(ts: seq<Task>): Option<real>
    requires |ts| > 0
  {
    var s := ProgressSum(ts);
    if s.None? then None else Some(s.value / |ts| as real)
  }

  /** The truthy timestamps among the task starts (`pick` true) or ends. */
  function TaskTimes(ts: seq<Task>, starts: bool): (r: seq<int>)
    ensures |r| <= |ts|
    ensures forall k :: 0 <= k < |r| ==> r[k] != 0
  {
    if |ts| == 0 then []
    else
      var d := TimeOf(ts[|ts| - 1], starts);
      TaskTimes(ts[..|ts| - 1], starts) + (if d.Some? && d.value != 0 then [d.value] else [])
  }

  /** The start (`starts` true) or the end of a task. */
  function TimeOf(t: Task, starts: bool): Option<int> {
    if starts then TimeOrNone(t.start) else TimeOrNone(t.end)
  }

  /** A timestamp is collected exactly when some task has it, and it is not 0. */
  lemma {:induction false} TaskTimesMembers(ts: seq<Task>, starts: bool, x: int)
    ensures x in TaskTimes(ts, starts) <==> exists k :: 0 <= k < |ts| && TimeOf(ts[k], starts) == Some(x) && x != 0
  {
    if |ts| > 0 {
      var init := ts[..|ts| - 1];
      TaskTimesMembers(init, starts, x);
      if exists k :: 0 <= k < |ts| && TimeOf(ts[k], starts) == Some(x) && x != 0 {
        var k :| 0 <= k < |ts| && TimeOf(ts[k], starts) == Some(x) && x != 0;
        if k < |init| {
          assert init[k] == ts[k];
        }
      }
      if exists k :: 0 <= k < |init| && TimeOf(init[k], starts) == Some(x) && x != 0 {
        var k :| 0 <= k < |init| && TimeOf(init[k], starts) == Some(x) && x != 0;
        assert ts[k] == init[k];
      }
    }
  }

  /** The project status: complete at a mean of exactly 100, late when the last end has passed. */
  function SheetStatus(mean: Option<real>, maxDate: Option<int>, now: int): (s: Status)
    ensures s == Concluido <==> mean == Some(100.0)
    ensures s == Atrasado <==> mean != Some(100.0) && maxDate.Some? && maxDate.value < now && mean.Some? && mean.value < 100.0
    ensures s == Concluido || s == Atrasado || s == EmAndamento
  {
    if mean == Some(100.0) then Concluido
    else if maxDate.Some? && maxDate.value < now && mean.Some? && mean.value < 100.0 then Atrasado
    else EmAndamento
  }

  /** parseSheet. */
  function SheetProject(grid: Sheet, sheetName: string, now: int): (p: Option<Project>)
    ensures p.None? <==> |Tasks(grid, now)| == 0
    ensures p.Some? ==> p.value.id == sheetName && p.value.tasks == Tasks(grid, now)
    ensures p.Some? ==> p.value.title == (if Metadata(grid).title != "" then Metadata(grid).title else sheetName)
    ensures p.Some? ==> p.value.benefit == Metadata(grid).benefit && p.value.team == Metadata(grid).team
    ensures p.Some? ==> p.value.description.None?
    ensures p.Some? ==> p.value.progress == (var m := MeanProgress(Tasks(grid, now)); if m.Some? then Some(Round(m.value)) else None)
    ensures p.Some? ==> p.value.status == SheetStatus(MeanProgress(Tasks(grid, now)), p.value.endDate, now)
    ensures p.Some? ==> (p.value.startDate == EarliestOf(TaskTimes(Tasks(grid, now), true))
                         && p.value.endDate == LatestOf(TaskTimes(Tasks(grid, now), false)))
  {
    var meta := Metadata(grid);
    var tasks := Tasks(grid, now);
    if |tasks| == 0 then None
    else
      var mean := MeanProgress(tasks);
      var maxDate := LatestOf(TaskTimes(tasks, false));
      Some(Project(sheetName, if meta.title != "" then meta.title else sheetName, None, meta.benefit, meta.team,
        tasks, SheetStatus(mean, maxDate, now), if mean.Some? then Some(Round(mean.value)) else None,
        EarliestOf(TaskTimes(tasks, true)), maxDate))
  }

  method ParseSheet(grid: Sheet, sheetName: string, now: int) returns (p: Option<Project>)
    ensures p == SheetProject(grid, sheetName, now)
  {
    var meta := ExtractMetadata(grid);
    var tasks := ExtractTasks(grid, now);
    if |tasks| == 0 {
      return None;
    }
    var mean := MeanProgress(tasks);
    var maxDate := LatestOf(TaskTimes(tasks, false));
    var status := SheetStatus(mean, maxDate, now);
    p := Some(Project(sheetName, if meta.title != "" then meta.title else sheetName, None, meta.benefit, meta.team,
      tasks, status, if mean.Some? then Some(Round(mean.value)) else None, EarliestOf(TaskTimes(tasks, true)), maxDate));
  }

  // ---- The workbook ----

  type ProjectReader = (string, Sheet) -> Option<Project>

  function SheetProjects(now: int): ProjectReader {
    (name, grid) => SheetProject(grid, name, now)
  }

  ghost predicate IdIsName(read: ProjectReader) {
    forall name, grid :: read(name, grid).Some? ==> read(name, grid).value.id == name
  }

  lemma SheetProjectsIdIsName(now: int)
    ensures IdIsName(SheetProjects(now))
  {
  }

  /** parseFile: the projects of the valid sheets, in sheet order. */
  function FileProjects(sheets: seq<(string, Sheet)>, read: ProjectReader): (r: seq<Project>)
    ensures |r| <= |sheets|
  {
    if |sheets| == 0 then []
    else
      var (name, grid) := sheets[|sheets| - 1];
      var prev := FileProjects(sheets[..|sheets| - 1], read);
      if ValidSheet(grid) && read(name, grid).Some? then prev + [read(name, grid).value] else prev
  }

  /** Every project is named after a valid sheet of the file. */
  lemma {:induction false} FileProjectsFromValidSheets(sheets: seq<(string, Sheet)>, read: ProjectReader, k: int)
    requires IdIsName(read)
    requires 0 <= k < |FileProjects(sheets, read)|
    ensures exists i :: 0 <= i < |sheets| && sheets[i].0 == FileProjects(sheets, read)[k].id && ValidSheet(sheets[i].1)
  {
    var init := sheets[..|sheets| - 1];
    var prev := FileProjects(init, read);
    var (name, grid) := sheets[|sheets| - 1];
    if k < |prev| {
      FileProjectsFromValidSheets(init, read, k);
      var i :| 0 <= i < |init| && init[i].0 == prev[k].id && ValidSheet(init[i].1);
      assert sheets[i] == init[i];
    } else {
      assert sheets[|sheets| - 1].0 == FileProjects(sheets, read)[k].id;
    }
  }

  method ParseFile(sheets: seq<(string, Sheet)>, now: int) returns (projects: seq<Project>)
    ensures projects == FileProjects(sheets, SheetProjects(now))
  {
    ghost var read := SheetProjects(now);
    projects := [];
    var i := 0;
    while i < |sheets|
      invariant 0 <= i <= |sheets|
      invariant projects == FileProjects(sheets[..i], read)
    {
      var (name, grid) := sheets[i];
      assert sheets[..i + 1][..i] == sheets[..i];
      projects := VisitSheet(projects, name, grid, now);
      i := i + 1;
    }
    assert sheets[..|sheets|] == sheets;
  }

  /** The body of the sheet loop: a valid sheet that yields a project adds it. */
  method VisitSheet(projects: seq<Project>, name: string, grid: Sheet, now: int) returns (next: seq<Project>)
    ensures var p := SheetProjects(now)(name, grid);
      next == projects + (if ValidSheet(grid) && p.Some? then [p.value] else [])
  {
    next := projects;
    var valid := IsValidProjectSheet(grid);
    if valid {
      var project := ParseSheet(grid, name, now);
      if project.Some? {
        next := projects + [project.value];
      }
    }
  }
}
