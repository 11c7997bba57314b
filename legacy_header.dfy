/** The top of a legacy project sheet (dash_old/services/excelParser.ts):
    the saving amount and team fields scanned from the first 15 rows, the
    task-table header row, and the roles of its columns. */
module LegacyHeader {
  import opened Options
  import opened Text
  import opened JsNumbers
  import opened Seqs
  import opened Grid
  import opened LegacyValues

  /** What the header scan collects. Empty strings are fields not found yet. */
  datatype HeaderInfo = HeaderInfo(
    saving: real,
    factory: string,
    squad: string,
    architect: string,
    analyst: string,
    developer: string)

  const NoHeader: HeaderInfo := HeaderInfo(0.0, "", "", "", "", "")

  /** Only the first rows of a sheet hold project metadata. */
  const HeaderRows: nat := 15

  predicate IsAmountChar(c: char) {
    IsDigit(c) || c == '.' || c == ','
  }

  /** End of the run of white space starting at `i`. */
  function SpaceRun(s: string, i: nat): (j: nat)
    requires i <= |s|
    ensures i <= j <= |s|
    ensures forall k :: i <= k < j ==> IsSpace(s[k])
    ensures j == |s| || !IsSpace(s[j])
    decreases |s| - i
  {
    if i < |s| && IsSpace(s[i]) then SpaceRun(s, i + 1) else i
  }

  /** End of the run of digits, dots and commas starting at `i`. */
  function AmountRun(s: string, i: nat): (j: nat)
    requires i <= |s|
    ensures i <= j <= |s|
    ensures forall k :: i <= k < j ==> IsAmountChar(s[k])
    ensures j == |s| || !IsAmountChar(s[j])
    decreases |s| - i
  {
    if i < |s| && IsAmountChar(s[i]) then AmountRun(s, i + 1) else i
  }

  /** The capture of `[:\s]\s*(?:R\$)?\s*([\d.,]+)` when the match starts at `i`. */
  function AmountAt(s: string, i: nat): (r: Option<string>)
    requires i < |s|
    ensures r.Some? ==> |r.value| > 0 && forall k :: 0 <= k < |r.value| ==> IsAmountChar(r.value[k])
  {
    if !(s[i] == ':' || IsSpace(s[i])) then None
    else
      var j := SpaceRun(s, i + 1);
      var k := if j + 1 < |s| && s[j] == 'R' && s[j + 1] == '$' then SpaceRun(s, j + 2) else j;
      var e := AmountRun(s, k);
      var amount := s[k..e];
      assert forall q :: 0 <= q < |amount| ==> IsAmountChar(amount[q]) by {
        forall q | 0 <= q < |amount| ensures IsAmountChar(amount[q]) {
          assert amount[q] == s[k + q];
        }
      }
      if e > k then Some(amount) else None
  }

  /** The leftmost match of the saving pattern at or after `i`. */
  function SavingMatch(s: string, i: nat): (r: Option<string>)
    requires i <= |s|
    ensures r.Some? ==> |r.value| > 0 && forall k :: 0 <= k < |r.value| ==> IsAmountChar(r.value[k])
    ensures r.None? ==> forall k :: i <= k < |s| ==> AmountAt(s, k).None?
    decreases |s| - i
  {
    if i == |s| then None
    else if AmountAt(s, i).Some? then AmountAt(s, i)
    else SavingMatch(s, i + 1)
  }

  /** A next cell the parser accepts as an amount: a number, or a string with a digit, dot or comma. */
  predicate AmountCell(cell: Cell) {
    cell.Num? || (cell.Str? && exists k :: 0 <= k < |cell.text| && IsAmountChar(cell.text[k]))
  }

  /** The saving a labelled cell yields, read in the cell itself or in the next one. */
  function CellSaving(row: Row, c: int): (r: Option<real>)
    ensures r.Some? ==> SavingLabel(row, c)
    ensures SavingLabel(row, c) && SavingMatch(Trim(CellText(RowCell(row, c))), 0).Some? ==>
      r == Some(ParseCurrency(Str(SavingMatch(Trim(CellText(RowCell(row, c))), 0).value)))
    ensures SavingLabel(row, c) && SavingMatch(Trim(CellText(RowCell(row, c))), 0).None? ==>
      r == (if c + 1 < |row| && AmountCell(RowCell(row, c + 1)) then Some(ParseCurrency(RowCell(row, c + 1))) else None)
  {
    var cellVal := Trim(CellText(RowCell(row, c)));
    var lower := Lower(cellVal);
    if !(Contains(lower, "benefício") || Contains(lower, "saving")) then None
    else
      match SavingMatch(cellVal, 0)
      case Some(g) => Some(ParseCurrency(Str(g)))
      case None =>
        if c + 1 < |row| && AmountCell(RowCell(row, c + 1)) then Some(ParseCurrency(RowCell(row, c + 1))) else None
  }

  /** The trimmed cell names 'benefício' or 'saving', in any case. */
  predicate SavingLabel(row: Row, c: int) {
    var lower := Lower(Trim(CellText(RowCell(row, c))));
    Contains(lower, "benefício") || Contains(lower, "saving")
  }

  /** The team fields by number: 0 factory, 1 squad, 2 architect, 3 analyst and 4 developer. */
  function TeamFieldOf(h: HeaderInfo, f: nat): string {
    if f == 0 then h.factory
    else if f == 1 then h.squad
    else if f == 2 then h.architect
    else if f == 3 then h.analyst
    else h.developer
  }

  /** What a non-blank cell writes into an empty factory field; "" for a blank cell. */
  function FactoryFill(row: Row, c: int): (r: string)
    ensures Trim(CellText(RowCell(row, c))) == "" ==> r == ""
  {
    var cellVal := Trim(CellText(RowCell(row, c)));
    if cellVal == "" then "" else FactoryField("", row, c, Lower(cellVal))
  }

  /** What a non-blank cell writes into an empty squad field; "" for a blank cell. */
  function SquadFill(row: Row, c: int): (r: string)
    ensures Trim(CellText(RowCell(row, c))) == "" ==> r == ""
  {
    var cellVal := Trim(CellText(RowCell(row, c)));
    if cellVal == "" then "" else SquadField("", row, c, Lower(cellVal))
  }

  /** What a non-blank cell writes into an empty architect field; "" for a blank cell. */
  function ArchitectFill(row: Row, c: int): (r: string)
    ensures Trim(CellText(RowCell(row, c))) == "" ==> r == ""
  {
    var cellVal := Trim(CellText(RowCell(row, c)));
    if cellVal == "" then "" else ArchitectField("", row, c, Lower(cellVal))
  }

  /** What a non-blank cell writes into an empty analyst field; "" for a blank cell. */
  function AnalystFill(row: Row, c: int): (r: string)
    ensures Trim(CellText(RowCell(row, c))) == "" ==> r == ""
  {
    var cellVal := Trim(CellText(RowCell(row, c)));
    if cellVal == "" then "" else AnalystField("", row, c, Lower(cellVal))
  }

  /** What a non-blank cell writes into an empty developer field; "" for a blank cell. */
  function DeveloperFill(row: Row, c: int): (r: string)
    ensures Trim(CellText(RowCell(row, c))) == "" ==> r == ""
  {
    var cellVal := Trim(CellText(RowCell(row, c)));
    if cellVal == "" then "" else DeveloperField("", row, c, Lower(cellVal))
  }

  /** The fill rule of team field `f`. */
  function FillOf(f: nat): (Row, int) -> string {
    if f == 0 then FactoryFill
    else if f == 1 then SquadFill
    else if f == 2 then ArchitectFill
    else if f == 3 then AnalystFill
    else DeveloperFill
  }

  /** What cell `c` of a row writes into team field `f` while that field is empty. */
  function HeaderFill(row: Row, c: int, f: nat): string {
    FillOf(f)(row, c)
  }

  /** A team field found already is kept; an empty one takes the cell's fill. */
  function FieldStep(current: string, fill: string): (r: string)
    ensures current != "" ==> r == current
    ensures current == "" ==> r == fill
  {
    if current != "" then current else fill
  }

  /** One cell of the header scan: a blank cell changes nothing, a saving
      label overwrites the saving, and a team label fills a field still empty. */
  function HeaderCell(h: HeaderInfo, row: Row, c: int): (r: HeaderInfo)
    ensures Trim(CellText(RowCell(row, c))) == "" ==> r == h
    ensures CellSaving(row, c).Some? ==> r.saving == CellSaving(row, c).value
    ensures CellSaving(row, c).None? ==> r.saving == h.saving
    ensures Keeps(h, r)
    ensures r.factory == FieldStep(h.factory, FactoryFill(row, c))
    ensures r.squad == FieldStep(h.squad, SquadFill(row, c))
    ensures r.architect == FieldStep(h.architect, ArchitectFill(row, c))
    ensures r.analyst == FieldStep(h.analyst, AnalystFill(row, c))
    ensures r.developer == FieldStep(h.developer, DeveloperFill(row, c))
  {
    var cellVal := Trim(CellText(RowCell(row, c)));
    if cellVal == "" then h
    else
      HeaderInfo(
        CellSaving(row, c).GetOr(h.saving),
        FieldStep(h.factory, FactoryFill(row, c)),
        FieldStep(h.squad, SquadFill(row, c)),
        FieldStep(h.architect, ArchitectFill(row, c)),
        FieldStep(h.analyst, AnalystFill(row, c)),
        FieldStep(h.developer, DeveloperFill(row, c)))
  }

  /** The factory rule: label 'fábrica' or 'fabrica'. */
  function FactoryField(current: string, row: Row, c: int, lower: string): (r: string)
    ensures current != "" ==> r == current
    ensures current == "" && (Contains(lower, "fábrica") || Contains(lower, "fabrica")) ==>
      r == OrElse(ExtractHeaderValue(row, c, "fábrica"), ExtractHeaderValue(row, c, "fabrica"))
    ensures current == "" && !(Contains(lower, "fábrica") || Contains(lower, "fabrica")) ==> r == ""
  {
    if current == "" && (Contains(lower, "fábrica") || Contains(lower, "fabrica")) then
      OrElse(ExtractHeaderValue(row, c, "fábrica"), ExtractHeaderValue(row, c, "fabrica"))
    else current
  }

  /** The squad rule: label 'squad'. */
  function SquadField(current: string, row: Row, c: int, lower: string): (r: string)
    ensures current != "" ==> r == current
    ensures current == "" && Contains(lower, "squad") ==> r == ExtractHeaderValue(row, c, "squad")
    ensures current == "" && !Contains(lower, "squad") ==> r == ""
  {
    if current == "" && Contains(lower, "squad") then ExtractHeaderValue(row, c, "squad") else current
  }

  /** The architect rule: 'arquiteto' anywhere, else exactly 'arq' or a leading 'arq:'. */
  function ArchitectField(current: string, row: Row, c: int, lower: string): (r: string)
    ensures current != "" ==> r == current
    ensures current == "" && Contains(lower, "arquiteto") ==> r == ExtractHeaderValue(row, c, "arquiteto")
    ensures current == "" && !Contains(lower, "arquiteto") && (lower == "arq" || StartsWith(lower, "arq:")) ==>
      r == ExtractHeaderValue(row, c, "arq")
    ensures current == "" && !Contains(lower, "arquiteto") && !(lower == "arq" || StartsWith(lower, "arq:")) ==> r == ""
  {
    if current != "" then current
    else if Contains(lower, "arquiteto") then ExtractHeaderValue(row, c, "arquiteto")
    else if lower == "arq" || StartsWith(lower, "arq:") then ExtractHeaderValue(row, c, "arq")
    else current
  }

  /** The analyst rule: 'analista' anywhere, else exactly 'af', a leading 'af:' or 'analista func'. */
  function AnalystField(current: string, row: Row, c: int, lower: string): (r: string)
    ensures current != "" ==> r == current
    ensures current == "" && Contains(lower, "analista") ==> r == ExtractHeaderValue(row, c, "analista")
    ensures current == "" && !Contains(lower, "analista") && (lower == "af" || StartsWith(lower, "af:") || lower == "analista func") ==>
      r == OrElse(ExtractHeaderValue(row, c, "af"), ExtractHeaderValue(row, c, "analista"))
    ensures current == "" && !Contains(lower, "analista") && !(lower == "af" || StartsWith(lower, "af:") || lower == "analista func") ==>
      r == ""
  {
    if current != "" then current
    else if Contains(lower, "analista") then ExtractHeaderValue(row, c, "analista")
    else if lower == "af" || StartsWith(lower, "af:") || lower == "analista func" then
      OrElse(ExtractHeaderValue(row, c, "af"), ExtractHeaderValue(row, c, "analista"))
    else current
  }

  /** The developer rule: 'desenvol' anywhere, else 'dev' in a text without 'delivery'. */
  function DeveloperField(current: string, row: Row, c: int, lower: string): (r: string)
    ensures current != "" ==> r == current
    ensures current == "" && Contains(lower, "desenvol") ==> r == ExtractHeaderValue(row, c, "desenvol")
    ensures current == "" && !Contains(lower, "desenvol") && Contains(lower, "dev") && !Contains(lower, "delivery") ==>
      r == ExtractHeaderValue(row, c, "dev")
    ensures current == "" && !Contains(lower, "desenvol") && !(Contains(lower, "dev") && !Contains(lower, "delivery")) ==>
      r == ""
  {
    if current != "" then current
    else if Contains(lower, "desenvol") then ExtractHeaderValue(row, c, "desenvol")
    else if Contains(lower, "dev") && !Contains(lower, "delivery") then ExtractHeaderValue(row, c, "dev")
    else current
  }

  /** Every team field already found keeps its value: the first extraction wins. */
  predicate Keeps(h: HeaderInfo, r: HeaderInfo) {
    (h.factory != "" ==> r.factory == h.factory)
    && (h.squad != "" ==> r.squad == h.squad)
    && (h.architect != "" ==> r.architect == h.architect)
    && (h.analyst != "" ==> r.analyst == h.analyst)
    && (h.developer != "" ==> r.developer == h.developer)
  }

  /** A per-cell step of the header scan. */
  type CellStep = (HeaderInfo, Row, int) -> HeaderInfo

  /** The scan over the first `n` cells of a row. */
  function ScanCells(h: HeaderInfo, row: Row, n: nat, step: CellStep): HeaderInfo
    requires n <= |row|
  {
    if n == 0 then h else step(ScanCells(h, row, n - 1, step), row, n - 1)
  }

  /** The scan over the first `n` rows. */
  function ScanRows(grid: Sheet, n: nat, step: CellStep): HeaderInfo
    requires n <= |grid|
  {
    if n == 0 then NoHeader else ScanCells(ScanRows(grid, n - 1, step), grid[n - 1], |grid[n - 1]|, step)
  }

  /** The header scan over rows below min(rows, 15). */
  function HeaderScan(grid: Sheet): HeaderInfo {
    ScanRows(grid, Min(|grid|, HeaderRows), HeaderCell)
  }

  /** The scan loops of parseProjectSheet, cell by cell over the first 15 rows. */
  method ScanHeader(grid: Sheet) returns (info: HeaderInfo)
    ensures info == HeaderScan(grid)
  {
    info := NoHeader;
    var limit := Min(|grid|, HeaderRows);
    var r := 0;
    assert info == ScanRows(grid, 0, HeaderCell);
    while r < limit
      invariant 0 <= r <= limit
      invariant info == ScanRows(grid, r, HeaderCell)
    {
      info := NextRow(grid, r, info);
      r := r + 1;
    }
    assert HeaderScan(grid) == ScanRows(grid, limit, HeaderCell);
  }

  /** One pass of the outer scan loop: the scan of row `r`. */
  method NextRow(grid: Sheet, r: nat, info: HeaderInfo) returns (next: HeaderInfo)
    requires r < |grid|
    requires info == ScanRows(grid, r, HeaderCell)
    ensures next == ScanRows(grid, r + 1, HeaderCell)
  {
    next := ScanRow(info, grid[r]);
    ScanRowsStep(grid, r);
  }

  /** The inner loop of the header scan, over the cells of one row. */
  method ScanRow(start: HeaderInfo, row: Row) returns (info: HeaderInfo)
    ensures info == ScanCells(start, row, |row|, HeaderCell)
  {
    info := start;
    var c := 0;
    while c < |row|
      invariant 0 <= c <= |row|
      invariant info == ScanCells(start, row, c, HeaderCell)
    {
      info := VisitCell(info, row, c);
      ScanCellsStep(start, row, c);
      c := c + 1;
    }
  }

  lemma ScanRowsStep(grid: Sheet, r: nat)
    requires r < |grid|
    ensures ScanRows(grid, r + 1, HeaderCell) == ScanCells(ScanRows(grid, r, HeaderCell), grid[r], |grid[r]|, HeaderCell)
  {
  }

  lemma ScanCellsStep(h: HeaderInfo, row: Row, c: nat)
    requires c < |row|
    ensures ScanCells(h, row, c + 1, HeaderCell) == HeaderCell(ScanCells(h, row, c, HeaderCell), row, c)
  {
  }

  /** The body of the inner scan loop: the saving rule and the five team-field rules. */
  method VisitCell(info: HeaderInfo, row: Row, c: int) returns (next: HeaderInfo)
    requires 0 <= c < |row|
    ensures next == HeaderCell(info, row, c)
  {
    var cellVal := Trim(CellText(row[c]));
    if cellVal == "" {
      return info;
    }
    var lower := Lower(cellVal);
    var saving := info.saving;
    var amount := CellSaving(row, c);
    if amount.Some? {
      saving := amount.value;
    }
    var factory := FillFactory(info.factory, row, c, lower);
    var squad := FillSquad(info.squad, row, c, lower);
    var architect := FillArchitect(info.architect, row, c, lower);
    var analyst := FillAnalyst(info.analyst, row, c, lower);
    var developer := FillDeveloper(info.developer, row, c, lower);
    next := HeaderInfo(saving, factory, squad, architect, analyst, developer);
  }

  /** The factory test of the cell loop. */
  method FillFactory(current: string, row: Row, c: int, lower: string) returns (factory: string)
    requires 0 <= c < |row| && Trim(CellText(row[c])) != "" && lower == Lower(Trim(CellText(row[c])))
    ensures factory == FieldStep(current, FactoryFill(row, c))
  {
    factory := current;
    if factory == "" && (Contains(lower, "fábrica") || Contains(lower, "fabrica")) {
      factory := OrElse(ExtractHeaderValue(row, c, "fábrica"), ExtractHeaderValue(row, c, "fabrica"));
    }
    assert factory == FactoryField(current, row, c, lower);
  }

  /** The squad test of the cell loop. */
  method FillSquad(current: string, row: Row, c: int, lower: string) returns (squad: string)
    requires 0 <= c < |row| && Trim(CellText(row[c])) != "" && lower == Lower(Trim(CellText(row[c])))
    ensures squad == FieldStep(current, SquadFill(row, c))
  {
    squad := current;
    if squad == "" && Contains(lower, "squad") {
      squad := ExtractHeaderValue(row, c, "squad");
    }
    assert squad == SquadField(current, row, c, lower);
  }

  /** The architect tests of the cell loop. */
  method FillArchitect(current: string, row: Row, c: int, lower: string) returns (architect: string)
    requires 0 <= c < |row| && Trim(CellText(row[c])) != "" && lower == Lower(Trim(CellText(row[c])))
    ensures architect == FieldStep(current, ArchitectFill(row, c))
  {
    architect := current;
    if architect == "" {
      if Contains(lower, "arquiteto") {
        architect := ExtractHeaderValue(row, c, "arquiteto");
      } else if lower == "arq" || StartsWith(lower, "arq:") {
        architect := ExtractHeaderValue(row, c, "arq");
      }
    }
    assert architect == ArchitectField(current, row, c, lower);
  }

  /** The analyst tests of the cell loop. */
  method FillAnalyst(current: string, row: Row, c: int, lower: string) returns (analyst: string)
    requires 0 <= c < |row| && Trim(CellText(row[c])) != "" && lower == Lower(Trim(CellText(row[c])))
    ensures analyst == FieldStep(current, AnalystFill(row, c))
  {
    analyst := current;
    if analyst == "" {
      if Contains(lower, "analista") {
        analyst := ExtractHeaderValue(row, c, "analista");
      } else if lower == "af" || StartsWith(lower, "af:") || lower == "analista func" {
        analyst := OrElse(ExtractHeaderValue(row, c, "af"), ExtractHeaderValue(row, c, "analista"));
      }
    }
    assert analyst == AnalystField(current, row, c, lower);
  }

  /** The developer tests of the cell loop. */
  method FillDeveloper(current: string, row: Row, c: int, lower: string) returns (developer: string)
    requires 0 <= c < |row| && Trim(CellText(row[c])) != "" && lower == Lower(Trim(CellText(row[c])))
    ensures developer == FieldStep(current, DeveloperFill(row, c))
  {
    developer := current;
    if developer != "" {
      return;
    }
    ghost var fill := DeveloperField("", row, c, lower);
    assert DeveloperFill(row, c) == fill;
    if Contains(lower, "desenvol") {
      developer := ExtractHeaderValue(row, c, "desenvol");
      assert developer == fill;
    } else if Contains(lower, "dev") && !Contains(lower, "delivery") {
      developer := ExtractHeaderValue(row, c, "dev");
      assert developer == fill;
    } else {
      assert fill == "";
    }
  }

  /** A cell's saving rule: `Some(v)` when the cell yields the amount v. */
  type SavingRule = (Row, int) -> Option<real>

  /** A step that overwrites the saving exactly with what the rule yields. */
  ghost predicate StepSaving(step: CellStep, rule: SavingRule) {
    forall h, row, c {:trigger step(h, row, c)} :: step(h, row, c).saving == rule(row, c).GetOr(h.saving)
  }

  lemma HeaderCellSaving()
    ensures StepSaving(HeaderCell, CellSaving)
  {
    forall h, row, c ensures HeaderCell(h, row, c).saving == CellSaving(row, c).GetOr(h.saving) {
    }
  }

  lemma {:induction false} LastYieldWins(h: HeaderInfo, row: Row, k: nat, n: nat, step: CellStep, rule: SavingRule)
    requires k < n <= |row| && StepSaving(step, rule)
    requires rule(row, k).Some?
    requires forall j :: k < j < n ==> rule(row, j).None?
    ensures ScanCells(h, row, n, step).saving == rule(row, k).value
    decreases n
  {
    var prev := ScanCells(h, row, n - 1, step);
    assert ScanCells(h, row, n, step) == step(prev, row, n - 1);
    assert step(prev, row, n - 1).saving == rule(row, n - 1).GetOr(prev.saving);
    if n > k + 1 {
      LastYieldWins(h, row, k, n - 1, step, rule);
      assert rule(row, n - 1).None?;
    }
  }

  lemma {:induction false} NoYieldKeeps(h: HeaderInfo, row: Row, n: nat, step: CellStep, rule: SavingRule)
    requires n <= |row| && StepSaving(step, rule)
    requires forall j :: 0 <= j < n ==> rule(row, j).None?
    ensures ScanCells(h, row, n, step).saving == h.saving
  {
    if n > 0 {
      var prev := ScanCells(h, row, n - 1, step);
      NoYieldKeeps(h, row, n - 1, step, rule);
      assert ScanCells(h, row, n, step) == step(prev, row, n - 1);
      assert step(prev, row, n - 1).saving == rule(row, n - 1).GetOr(prev.saving);
    }
  }

  /** The saving after a row's first `n` cells is the one read from the last of them that rule one. */
  lemma LastSavingWins(h: HeaderInfo, row: Row, k: nat, n: nat)
    requires k < n <= |row|
    requires CellSaving(row, k).Some?
    requires forall j :: k < j < n ==> CellSaving(row, j).None?
    ensures ScanCells(h, row, n, HeaderCell).saving == CellSaving(row, k).value
  {
    HeaderCellSaving();
    LastYieldWins(h, row, k, n, HeaderCell, CellSaving);
  }

  /** When none of a row's first `n` cells rule a saving, the saving is unchanged. */
  lemma SavingKept(h: HeaderInfo, row: Row, n: nat)
    requires n <= |row|
    requires forall j :: 0 <= j < n ==> CellSaving(row, j).None?
    ensures ScanCells(h, row, n, HeaderCell).saving == h.saving
  {
    HeaderCellSaving();
    NoYieldKeeps(h, row, n, HeaderCell, CellSaving);
  }

  lemma KeepsTransitive(a: HeaderInfo, b: HeaderInfo, c: HeaderInfo)
    requires Keeps(a, b) && Keeps(b, c)
    ensures Keeps(a, c)
  {
  }

  /** A step that never overwrites a team field already found. */
  ghost predicate StepKeeps(step: CellStep) {
    forall h, row, c :: Keeps(h, step(h, row, c))
  }

  lemma HeaderCellKeeps()
    ensures StepKeeps(HeaderCell)
  {
    forall h, row, c ensures Keeps(h, HeaderCell(h, row, c)) {
    }
  }

  lemma {:induction false} ScanCellsKeeps(h: HeaderInfo, row: Row, n: nat, step: CellStep)
    requires n <= |row| && StepKeeps(step)
    ensures Keeps(h, ScanCells(h, row, n, step))
  {
    if n > 0 {
      var prev := ScanCells(h, row, n - 1, step);
      ScanCellsKeeps(h, row, n - 1, step);
      KeepsTransitive(h, prev, step(prev, row, n - 1));
    }
  }

  lemma {:induction false} ScanRowsKeeps(grid: Sheet, a: nat, b: nat, step: CellStep)
    requires a <= b <= |grid| && StepKeeps(step)
    ensures Keeps(ScanRows(grid, a, step), ScanRows(grid, b, step))
    decreases b - a
  {
    if a < b {
      ScanRowsKeeps(grid, a, b - 1, step);
      ScanCellsKeeps(ScanRows(grid, b - 1, step), grid[b - 1], |grid[b - 1]|, step);
      KeepsTransitive(ScanRows(grid, a, step), ScanRows(grid, b - 1, step), ScanRows(grid, b, step));
    }
  }

  /** A team field found in an earlier row is never overwritten by a later one. */
  lemma FirstFieldWins(grid: Sheet, a: nat, b: nat)
    requires a <= b <= |grid|
    ensures Keeps(ScanRows(grid, a, HeaderCell), ScanRows(grid, b, HeaderCell))
  {
    HeaderCellKeeps();
    ScanRowsKeeps(grid, a, b, HeaderCell);
  }

  /** A team field's fill rule: what a cell writes into the field while it is empty. */
  type FillRule = (Row, int, nat) -> string

  /** A step keeps a team field once found and otherwise takes what `fill` names. */
  ghost predicate StepFills(step: CellStep, fill: FillRule) {
    forall h, row, c, f {:trigger TeamFieldOf(step(h, row, c), f)} ::
      TeamFieldOf(step(h, row, c), f) == (if TeamFieldOf(h, f) != "" then TeamFieldOf(h, f) else fill(row, c, f))
  }

  lemma HeaderCellFills()
    ensures StepFills(HeaderCell, HeaderFill)
  {
    forall h, row, c, f
      ensures TeamFieldOf(HeaderCell(h, row, c), f) == (if TeamFieldOf(h, f) != "" then TeamFieldOf(h, f) else HeaderFill(row, c, f))
    {
      HeaderCellField(h, row, c, f);
    }
  }

  /** Team field `f` after one cell: kept once found, otherwise the cell's fill. */
  lemma HeaderCellField(h: HeaderInfo, row: Row, c: int, f: nat)
    ensures TeamFieldOf(HeaderCell(h, row, c), f) == FieldStep(TeamFieldOf(h, f), HeaderFill(row, c, f))
  {
    if f == 0 {
      HeaderCellFieldAt(h, row, c, 0);
    } else if f == 1 {
      HeaderCellFieldAt(h, row, c, 1);
    } else if f == 2 {
      HeaderCellFieldAt(h, row, c, 2);
    } else if f == 3 {
      HeaderCellFieldAt(h, row, c, 3);
    } else {
      HeaderCellFieldAt(h, row, c, 4);
      assert TeamFieldOf(HeaderCell(h, row, c), f) == TeamFieldOf(HeaderCell(h, row, c), 4);
      assert HeaderFill(row, c, f) == HeaderFill(row, c, 4);
    }
  }

  lemma HeaderCellFieldAt(h: HeaderInfo, row: Row, c: int, f: nat)
    requires f <= 4
    ensures TeamFieldOf(HeaderCell(h, row, c), f) == FieldStep(TeamFieldOf(h, f), HeaderFill(row, c, f))
  {
    var r := HeaderCell(h, row, c);
    if f == 0 {
      assert r.factory == FieldStep(h.factory, FactoryFill(row, c));
    } else if f == 1 {
      assert r.squad == FieldStep(h.squad, SquadFill(row, c));
    } else if f == 2 {
      assert r.architect == FieldStep(h.architect, ArchitectFill(row, c));
    } else if f == 3 {
      assert r.analyst == FieldStep(h.analyst, AnalystFill(row, c));
    } else {
      assert r.developer == FieldStep(h.developer, DeveloperFill(row, c));
    }
  }




  /** Team field `f` after cell `c` of a row, from its value before it. */
  lemma CellFillStep(h: HeaderInfo, row: Row, c: nat, f: nat, step: CellStep, fill: FillRule)
    requires c < |row| && StepFills(step, fill)
    ensures TeamFieldOf(ScanCells(h, row, c + 1, step), f)
      == (if TeamFieldOf(ScanCells(h, row, c, step), f) != "" then TeamFieldOf(ScanCells(h, row, c, step), f) else fill(row, c, f))
  {
    var p := ScanCells(h, row, c, step);
    assert ScanCells(h, row, c + 1, step) == step(p, row, c);
  }

  /** Cells that fill nothing leave an empty team field empty. */
  lemma {:induction false} CellsNoFill(h: HeaderInfo, row: Row, n: nat, f: nat, step: CellStep, fill: FillRule)
    requires n <= |row| && StepFills(step, fill) && TeamFieldOf(h, f) == ""
    requires forall j :: 0 <= j < n ==> fill(row, j, f) == ""
    ensures TeamFieldOf(ScanCells(h, row, n, step), f) == ""
  {
    if n > 0 {
      CellsNoFill(h, row, n - 1, f, step, fill);
      CellFillStep(h, row, n - 1, f, step, fill);
    }
  }

  /** A team field found within a row keeps its value for the rest of the row. */
  lemma {:induction false} CellsFillKept(h: HeaderInfo, row: Row, a: nat, b: nat, f: nat, step: CellStep, fill: FillRule)
    requires a <= b <= |row| && StepFills(step, fill)
    requires TeamFieldOf(ScanCells(h, row, a, step), f) != ""
    ensures TeamFieldOf(ScanCells(h, row, b, step), f) == TeamFieldOf(ScanCells(h, row, a, step), f)
    decreases b - a
  {
    if a < b {
      CellsFillKept(h, row, a, b - 1, f, step, fill);
      CellFillStep(h, row, b - 1, f, step, fill);
    }
  }

  /** The first cell of a row that fills an empty team field sets it for the row. */
  lemma CellsFirstFill(h: HeaderInfo, row: Row, k: nat, n: nat, f: nat, step: CellStep, fill: FillRule)
    requires k < n <= |row| && StepFills(step, fill) && TeamFieldOf(h, f) == ""
    requires fill(row, k, f) != ""
    requires forall j :: 0 <= j < k ==> fill(row, j, f) == ""
    ensures TeamFieldOf(ScanCells(h, row, n, step), f) == fill(row, k, f)
  {
    CellsNoFill(h, row, k, f, step, fill);
    CellFillStep(h, row, k, f, step, fill);
    CellsFillKept(h, row, k + 1, n, f, step, fill);
  }

  /** Rows that fill nothing leave a team field empty. */
  lemma {:induction false} RowsNoFill(grid: Sheet, n: nat, f: nat, step: CellStep, fill: FillRule)
    requires n <= |grid| && StepFills(step, fill)
    requires forall r, c :: 0 <= r < n && 0 <= c < |grid[r]| ==> fill(grid[r], c, f) == ""
    ensures TeamFieldOf(ScanRows(grid, n, step), f) == ""
  {
    if n > 0 {
      RowsNoFill(grid, n - 1, f, step, fill);
      CellsNoFill(ScanRows(grid, n - 1, step), grid[n - 1], |grid[n - 1]|, f, step, fill);
    }
  }

  lemma KeepsField(h: HeaderInfo, r: HeaderInfo, f: nat)
    requires Keeps(h, r) && TeamFieldOf(h, f) != ""
    ensures TeamFieldOf(r, f) == TeamFieldOf(h, f)
  {
  }

  /** For any step that fills and keeps team fields: after the first `n` rows a
      field holds the first non-empty fill in row-major order. */
  lemma FirstFillWins(grid: Sheet, n: nat, r: nat, c: nat, f: nat, step: CellStep, fill: FillRule)
    requires r < n <= |grid| && c < |grid[r]|
    requires StepFills(step, fill) && StepKeeps(step)
    requires fill(grid[r], c, f) != ""
    requires forall r2, c2 :: 0 <= r2 < r && 0 <= c2 < |grid[r2]| ==> fill(grid[r2], c2, f) == ""
    requires forall c2 :: 0 <= c2 < c ==> fill(grid[r], c2, f) == ""
    ensures TeamFieldOf(ScanRows(grid, n, step), f) == fill(grid[r], c, f)
  {
    var before := ScanRows(grid, r, step);
    RowsNoFill(grid, r, f, step, fill);
    CellsFirstFill(before, grid[r], c, |grid[r]|, f, step, fill);
    assert ScanRows(grid, r + 1, step) == ScanCells(before, grid[r], |grid[r]|, step);
    ScanRowsKeeps(grid, r + 1, n, step);
    KeepsField(ScanRows(grid, r + 1, step), ScanRows(grid, n, step), f);
  }

  /** Each team field holds the first non-empty fill in row-major order over
      the first 15 rows. */
  lemma FieldFromFirstFill(grid: Sheet, r: nat, c: nat, f: nat)
    requires r < Min(|grid|, HeaderRows) && c < |grid[r]|
    requires HeaderFill(grid[r], c, f) != ""
    requires forall r2, c2 :: 0 <= r2 < r && 0 <= c2 < |grid[r2]| ==> HeaderFill(grid[r2], c2, f) == ""
    requires forall c2 :: 0 <= c2 < c ==> HeaderFill(grid[r], c2, f) == ""
    ensures TeamFieldOf(HeaderScan(grid), f) == HeaderFill(grid[r], c, f)
  {
    HeaderCellFills();
    HeaderCellKeeps();
    FirstFillWins(grid, Min(|grid|, HeaderRows), r, c, f, HeaderCell, HeaderFill);
  }

  /** Without a non-empty fill in the first 15 rows a team field stays empty. */
  lemma FieldWithoutFill(grid: Sheet, f: nat)
    requires forall r, c :: 0 <= r < Min(|grid|, HeaderRows) && 0 <= c < |grid[r]| ==> HeaderFill(grid[r], c, f) == ""
    ensures TeamFieldOf(HeaderScan(grid), f) == ""
  {
    HeaderCellFills();
    RowsNoFill(grid, Min(|grid|, HeaderRows), f, HeaderCell, HeaderFill);
  }

  lemma {:induction false} ScanRowsPrefix(g1: Sheet, g2: Sheet, n: nat, step: CellStep)
    requires n <= |g1| && n <= |g2| && g1[..n] == g2[..n]
    ensures ScanRows(g1, n, step) == ScanRows(g2, n, step)
  {
    if n > 0 {
      assert g1[..n - 1] == g2[..n - 1];
      assert g1[n - 1] == g1[..n][n - 1] == g2[n - 1];
      ScanRowsPrefix(g1, g2, n - 1, step);
    }
  }

  /** Rows from the sixteenth on never influence the header scan. */
  lemma HeaderScanIgnoresLaterRows(g1: Sheet, g2: Sheet)
    requires Min(|g1|, HeaderRows) == Min(|g2|, HeaderRows)
    requires g1[..Min(|g1|, HeaderRows)] == g2[..Min(|g2|, HeaderRows)]
    ensures HeaderScan(g1) == HeaderScan(g2)
  {
    ScanRowsPrefix(g1, g2, Min(|g1|, HeaderRows), HeaderCell);
  }

  /** `grid[2][2]`, trimmed, or '' when that cell is falsy. */
  function Description(grid: Sheet): (r: string)
    ensures !Truthy(CellAt(grid, 2, 2)) ==> r == ""
    ensures Truthy(CellAt(grid, 2, 2)) ==> r == Trim(CellText(grid[2][2]))
  {
    if |grid| > 2 && Truthy(RowCell(grid[2], 2)) then Trim(CellText(grid[2][2])) else ""
  }

  // ---- The task-table header row ----

  /** The header row is searched among the first 20 rows. */
  const HeaderSearchRows: nat := 20

  function CellTexts(row: Row): (r: seq<string>)
    ensures |r| == |row|
    ensures forall k :: 0 <= k < |row| ==> r[k] == CellText(row[k])
  {
    if |row| == 0 then [] else [CellText(row[0])] + CellTexts(row[1..])
  }

  /** `(grid[r] || []).join(' ').toUpperCase()`. */
  function RowString(grid: Sheet, r: nat): string {
    Upper(Join(CellTexts(if r < |grid| then grid[r] else []), " "))
  }

  predicate IsTableHeader(grid: Sheet, r: nat) {
    Contains(RowString(grid, r), "TAREFA") || Contains(RowString(grid, r), "ETAPA")
  }

  /** The first header row at or after `r`, or -1. */
  function HeaderRowFrom(grid: Sheet, r: nat): (h: int)
    requires r <= HeaderSearchRows
    ensures h == -1 || (r <= h < HeaderSearchRows && IsTableHeader(grid, h))
    ensures forall k :: r <= k < HeaderSearchRows && (h == -1 || k < h) ==> !IsTableHeader(grid, k)
    decreases HeaderSearchRows - r
  {
    if r == HeaderSearchRows then -1
    else if IsTableHeader(grid, r) then r
    else HeaderRowFrom(grid, r + 1)
  }

  function HeaderRowIndex(grid: Sheet): (h: int)
    ensures h == -1 || (0 <= h < HeaderSearchRows && IsTableHeader(grid, h))
    ensures forall k :: 0 <= k < HeaderSearchRows && (h == -1 || k < h) ==> !IsTableHeader(grid, k)
  {
    HeaderRowFrom(grid, 0)
  }

  /** The loop that looks for the row naming TAREFA or ETAPA and stops at the first. */
  method FindHeaderRow(grid: Sheet) returns (h: int)
    ensures h == HeaderRowIndex(grid)
  {
    h := -1;
    var r := 0;
    while r < HeaderSearchRows
      invariant 0 <= r <= HeaderSearchRows
      invariant forall k :: 0 <= k < r ==> !IsTableHeader(grid, k)
    {
      var rowStr := RowString(grid, r);
      if Contains(rowStr, "TAREFA") || Contains(rowStr, "ETAPA") {
        assert IsTableHeader(grid, r);
        h := r;
        return;
      }
      r := r + 1;
    }
  }

  lemma NotInEmpty(p: string)
    requires |p| > 0
    ensures !Contains("", p)
  {
  }

  /** The header row always lies inside the grid. */
  lemma HeaderRowInGrid(grid: Sheet)
    requires HeaderRowIndex(grid) >= 0
    ensures HeaderRowIndex(grid) < |grid|
  {
    var h := HeaderRowIndex(grid);
    if h >= |grid| {
      assert Join(CellTexts([]), " ") == "";
      NotInEmpty("TAREFA");
      NotInEmpty("ETAPA");
    }
  }

  // ---- Column roles ----

  datatype Columns = Columns(task: int, start: int, plannedEnd: int, executedEnd: int, duration: int, progress: int)

  predicate TaskLabel(h: string) { Contains(h, "TAREFA") || Contains(h, "ETAPA") }
  predicate StartLabel(h: string) { Contains(h, "INICIO") || Contains(h, "INÍCIO") }
  predicate DurationLabel(h: string) { Contains(h, "DIAS") || Contains(h, "DURAÇÃO") }
  predicate ProgressLabel(h: string) { Contains(h, "PROGRE") || Contains(h, "%") }

  /** The header labels, upper-cased and trimmed. */
  function HeaderLabels(row: Row): (r: seq<string>)
    ensures |r| == |row|
    ensures forall k :: 0 <= k < |row| ==> r[k] == Trim(Upper(CellText(row[k])))
  {
    if |row| == 0 then [] else [Trim(Upper(CellText(row[0])))] + HeaderLabels(row[1..])
  }

  /** The column of each role: the first label naming it, and for the end
      dates the first and the last column labelled exactly FIM. */
  function ColumnsOf(labels: seq<string>): (c: Columns)
    ensures c.task == FindIndex(labels, TaskLabel)
    ensures c.start == FindIndex(labels, StartLabel)
    ensures c.duration == FindIndex(labels, DurationLabel)
    ensures c.progress == FindIndex(labels, ProgressLabel)
    ensures -1 <= c.plannedEnd <= c.executedEnd < |labels|
    ensures c.plannedEnd == -1 <==> "FIM" !in labels
    ensures c.plannedEnd >= 0 ==> labels[c.plannedEnd] == "FIM" && labels[c.executedEnd] == "FIM"
    ensures forall k :: 0 <= k < |labels| && (c.plannedEnd == -1 || k < c.plannedEnd) ==> labels[k] != "FIM"
    ensures forall k :: c.executedEnd < k < |labels| ==> labels[k] != "FIM"
    ensures c.plannedEnd < c.executedEnd <==> exists i, j :: 0 <= i < j < |labels| && labels[i] == "FIM" && labels[j] == "FIM"
  {
    var first, last := IndexOf(labels, "FIM"), LastIndexOf(labels, "FIM");
    assert first >= 0 ==> first <= last;
    Columns(FindIndex(labels, TaskLabel), FindIndex(labels, StartLabel), first, last,
      FindIndex(labels, DurationLabel), FindIndex(labels, ProgressLabel))
  }

  /** A non-empty pattern without white space. */
  predicate Word(p: string) {
    |p| > 0 && forall k :: 0 <= k < |p| ==> !IsSpace(p[k])
  }

  lemma TaskWords()
    ensures Word("TAREFA") && Word("ETAPA")
  {
  }

  /** A word that the joined row shows lies inside one cell. */
  lemma {:induction false} JoinedWord(xs: seq<string>, p: string) returns (i: int)
    requires Word(p)
    requires Contains(Upper(Join(xs, " ")), p)
    ensures 0 <= i < |xs| && Contains(Upper(xs[i]), p)
  {
    if |xs| == 0 {
      NotInEmpty(p);
    } else if |xs| == 1 {
      i := 0;
    } else {
      var rest := Join(xs[1..], " ");
      UpperAppend(xs[0] + " ", rest);
      UpperAppend(xs[0], " ");
      assert Upper(Join(xs, " ")) == Upper(xs[0]) + [' '] + Upper(rest);
      ContainsAcrossSeparator(Upper(xs[0]), ' ', Upper(rest), p);
      if Contains(Upper(xs[0]), p) {
        i := 0;
      } else {
        var j := JoinedWord(xs[1..], p);
        i := j + 1;
      }
    }
  }

  /** A word of the joined header row survives in that cell's label. */
  lemma WordInLabel(row: Row, p: string) returns (i: int)
    requires Word(p)
    requires Contains(Upper(Join(CellTexts(row), " ")), p)
    ensures 0 <= i < |row| && Contains(HeaderLabels(row)[i], p)
  {
    var texts := CellTexts(row);
    i := JoinedWord(texts, p);
    TrimKeepsWord(Upper(texts[i]), p);
  }

  /** Once a header row is found, the task column is found too. */
  lemma TaskColumnFound(grid: Sheet)
    requires HeaderRowIndex(grid) >= 0
    ensures ColumnsOf(HeaderLabels(grid[HeaderRowIndex(grid)])).task >= 0
  {
    HeaderRowInGrid(grid);
    TaskWords();
    var h := HeaderRowIndex(grid);
    var labels := HeaderLabels(grid[h]);
    var i;
    if Contains(RowString(grid, h), "TAREFA") {
      i := WordInLabel(grid[h], "TAREFA");
    } else {
      i := WordInLabel(grid[h], "ETAPA");
    }
    assert TaskLabel(labels[i]);
  }
}
