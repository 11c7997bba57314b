# A verified model of the project dashboard's data logic

The dashboard reads project workbooks (one worksheet per project) and shows
portfolio figures, a burnup chart with a least-squares forecast,
average stage durations, Gantt rows, a roadmap and squad groups. It exists in two
front ends: the first (`dash_old/`) and the second (`react-app/`). This
project models in Dafny the logic behind what both of them show, and proves the properties the
code promises:

- **Sheet extraction, first front end** (`legacy_values.dfy`,
  `legacy_header.dfy`, `legacy_sheet.dfy`): the date, currency and status
  normalisers, the label/value extractor, the header scan over the first
  rows, the task-table header and its column roles, the row walk that
  builds tasks and stage totals, the aggregation into one project, and the
  workbook loop with its sheet-name deny list.
- **Sheet extraction, second front end** (`sheet_parser.dfy`): the sheet
  test, the metadata scan, the task extraction with its last-match column
  mapping, the date, progress and status rules, and the per-sheet project.
- **Analytics** (`analytics.dfy`, `burnup.dfy`, `stage_average.dfy`,
  `gantt.dfy`, `views.dfy`): the KPIs, the monthly burnup series and its
  regression, the per-stage averages in workflow order, the Gantt rows of
  both front ends (with the second one's phase grouping), the roadmap order,
  the squad groups and the status doughnut and macro schedule.
  The two `AverageDurationChart.tsx` files compute `chartData` with the same
  code, so one module models both. The rows below cite the second front
  end's copy.
- **State** (`dashboard.dfy`, `apps.dfy`): the first front end's filter bar
  and its derived lists, the merge of uploaded projects by id, the theme
  cycles and the two applications' state. Each application is a class whose
  fields are its React state and whose methods are its handlers.
- **Support** (`text.dfy`, `numbers.dfy`, `calendar.dfy`, `seqs.dfy`,
  `grid.dfy`, `keywords.dfy`, `domain.dfy`, `options.dfy`): the
  JavaScript string, number and date operations the code relies on.
  - strings are sequences of characters, with `toUpperCase`/`toLowerCase` written out for ASCII and the Latin-1 letters (including 'ÿ' to 'Ÿ' and 'µ' to the Greek 'Μ' in upper case);
  - `parseFloat` reads the decimal literal at the start of the text, and `parseInt` reads a signed run of digits there: in base 10, or, called without a radix, in base 16 after a leading '0x' or '0X' (`JsNumbers.ParseIntAuto`); both skip leading white space;
  - `Math.round`, `Math.floor` and `Math.ceil` are written out on reals;
  - the Gregorian calendar maps instants (ms since 1970) to months
    (`year * 12 + month`) and back;
  - a Date object is a `JsDate`: a time within ±8.64e15 ms, or an Invalid
    Date, which is truthy but compares false (TimeClip);
  - the stable sort of `Array.prototype.sort` is an insertion sort by an integer key;
  - the object literals used as keyword tables are ordered tables.

Loops that update variables in the source are methods with loop invariants. Each is
proved equal to a specification function, and the properties are lemmas
about those functions. Timestamps are integers in milliseconds. A
worksheet is given as a grid of cells (`Empty`, `Num`, `Str`, `DateV`). The
clock ("now", "today", the id timestamp) is a parameter.

## Model

| member | source | states |
|---|---|---|
| Analytics.Bump | react-app/src/utils/AnalyticsEngine.ts:11 | `(d[s] \|\| 0) + 1`: the statuses stay distinct, a status becomes a new key only when it was absent, the total grows by one and only the bumped status's count changes |
| Analytics.Distribute | react-app/src/utils/AnalyticsEngine.ts:9-12 | the distribution has one key per status |
| Analytics.DistributeTotal | react-app/src/utils/AnalyticsEngine.ts:9-12 | the counts add up to the number of projects |
| Analytics.DistributeCounts | react-app/src/utils/AnalyticsEngine.ts:10-12 | the count of every status is the number of projects with that status |
| Analytics.DistributeKeys | react-app/src/utils/AnalyticsEngine.ts:10-12 | a status is a key exactly when some project has it |
| Analytics.CountAtMost | react-app/src/utils/AnalyticsEngine.ts:14 | no status counts more projects than there are |
| Analytics.CompletionRate | react-app/src/utils/AnalyticsEngine.ts:15 | the rate lies in 0..100, is 0 with no projects and 100 when all are completed |
| Analytics.Kpis | react-app/src/utils/AnalyticsEngine.ts:5-24 | total saving is the sum of savings, total projects the length, the delay placeholder 0, and the rate is the share of 'Concluído' projects times 100 (0 for none) |
| Analytics.CalculateKpis | react-app/src/utils/AnalyticsEngine.ts:5-24 | the `forEach` loop yields exactly the figures `Kpis` describes |
| LegacyValues.ParseExcelDate | dash_old/services/excelParser.ts:8-27 | a falsy value or a date object gives null; a number is 1899-12-30 plus its whole days, an Invalid Date exactly when that leaves the Date range; a string goes through Date.parse, then the D/M/Y fallback, and never gives an Invalid Date |
| LegacyValues.DayMonthYear | dash_old/services/excelParser.ts:16-24 | a date is produced only from exactly three '/'-separated parts, and none when one of them is NaN under `parseInt`; when all three read as integers it is `new Date(year, month - 1, day)` with a year below 100 read as 20YY; it always lies in the Date range |
| LegacyValues.DayMonthYearText | dash_old/services/excelParser.ts:16-22 | the text 'D/M/Y' written with `String` of each number is read as `new Date(CenturyYear(Y), M - 1, D)` |
| LegacyValues.DayMonthYearOf | dash_old/services/excelParser.ts:16-23 | for a real calendar day, 'D/M/Y' always gives a date: midnight of day D of month M of the year Y (20YY below 100) |
| LegacyValues.CenturyYear | dash_old/services/excelParser.ts:21 | a year below 100 gets 2000 added, any other is kept |
| LegacyValues.TwoDigitYear | dash_old/services/excelParser.ts:20-22 | a two-digit year lands in 2000..2099, outside the range `new Date` would move to the 1900s |
| LegacyValues.SerialIsCalendarDay | dash_old/services/excelParser.ts:10-12 | serial number n is the Date `new Date(1899, 11, 30 + floor(n))` makes: that calendar day, or an Invalid Date beyond the Date range |
| LegacyValues.FarSerialInvalid | dash_old/services/excelParser.ts:10-12 | serial 2e8 reads as an Invalid Date |
| LegacyValues.AmountText | dash_old/services/excelParser.ts:33-38 | no 'R', '$' or white space remains in the amount text |
| LegacyValues.DecimalComma | dash_old/services/excelParser.ts:34-35 | '1.234,56': the dots are dropped and the comma becomes the decimal point |
| LegacyValues.ThousandsComma | dash_old/services/excelParser.ts:34-37 | '1,234.56': the commas are dropped and the dot stays the decimal point |
| LegacyValues.ParseCurrency | dash_old/services/excelParser.ts:29-43 | a number is returned as it is, a falsy or non-string value gives 0, a string is parseFloat of its cleaned text with NaN read as 0 |
| LegacyValues.CurrencyDecimalComma | dash_old/services/excelParser.ts:33-40 | '1.234,56' is read as the value of the whole digits without dots plus the fraction digits over their power of ten |
| LegacyValues.CurrencyThousandsComma | dash_old/services/excelParser.ts:33-40 | '1,234.56' is read as the value of the whole digits without commas plus the fraction digits over their power of ten |
| LegacyValues.NormalizeStatus | dash_old/services/excelParser.ts:45-53 | always one of the project statuses, each rule in code order as an if-and-only-if: 'Concluído' exactly when the text says conclu/entregue or the completion is 99 or more; else 'Cancelado' exactly when it says cancel; else 'Atrasado' exactly when it says atrasado/bloqueado or the project is late; else 'Em Andamento' exactly for a positive completion and 'Não Iniciado' for none |
| LegacyValues.BlockedButComplete | dash_old/services/excelParser.ts:47-49 | a 'bloqueado' project at 100% is 'Concluído', because the completion rule comes first |
| LegacyValues.ColonSpaceRun | dash_old/services/excelParser.ts:60 | the `[:\s]*` run: every character inside it is ':' or white space and the next one is neither |
| LegacyValues.LineLength | dash_old/services/excelParser.ts:60 | the `(.*)` capture stops at the first line terminator |
| LegacyValues.KeywordRemainder | dash_old/services/excelParser.ts:60-61 | a match starts with the keyword, case-insensitively, and the capture holds no line terminator |
| LegacyValues.ExtractHeaderValue | dash_old/services/excelParser.ts:56-75 | the result is '' or has no white space at its ends; it is the trimmed same-cell value after the keyword when that is not blank; otherwise, when the cleaned cell is or starts with the keyword and the next cell is truthy, the trimmed next cell; otherwise '' |
| LegacyHeader.SpaceRun | dash_old/services/excelParser.ts:145 | the `\s*` run of the saving pattern |
| LegacyHeader.AmountRun | dash_old/services/excelParser.ts:145 | the `[\d.,]+` run of the saving pattern |
| LegacyHeader.AmountAt | dash_old/services/excelParser.ts:145 | a capture at one position is a non-empty run of digits, dots and commas |
| LegacyHeader.SavingMatch | dash_old/services/excelParser.ts:145 | the leftmost match: a non-empty amount, or no position where the pattern matches |
| LegacyHeader.CellSaving | dash_old/services/excelParser.ts:144-153 | a saving is read only from a cell that mentions 'benefício' or 'saving': the currency value of the first amount matched in the cell, else of the next cell when it holds an amount, else none |
| LegacyHeader.HeaderCell | dash_old/services/excelParser.ts:138-179 | a blank cell changes nothing; a cell yielding a saving overwrites the saving with it, any other keeps it; each team field already found is kept and an empty one takes what the cell's fill rule for that field gives |
| LegacyHeader.LastSavingWins | dash_old/services/excelParser.ts:138-153 | after a row's cells the saving is the one read from the last cell yielding one |
| LegacyHeader.SavingKept | dash_old/services/excelParser.ts:138-153 | when no cell of the row yields a saving, the saving is unchanged |
| LegacyHeader.FactoryField | dash_old/services/excelParser.ts:156-158 | a factory already found is kept; an empty one takes the value after 'fábrica', else after 'fabrica', when the lower-cased cell names either, and stays '' otherwise |
| LegacyHeader.SquadField | dash_old/services/excelParser.ts:159-161 | a squad already found is kept; an empty one takes the value after 'squad' when the cell names it, and stays '' otherwise |
| LegacyHeader.ArchitectField | dash_old/services/excelParser.ts:164-167 | an architect already found is kept; an empty one takes the value after 'arquiteto' when the cell contains it, else the value after 'arq' when the cell is exactly 'arq' or starts with 'arq:', and stays '' otherwise |
| LegacyHeader.AnalystField | dash_old/services/excelParser.ts:170-173 | an analyst already found is kept; an empty one takes the value after 'analista' when the cell contains it, else the value after 'af' (or after 'analista') when the cell is exactly 'af' or 'analista func' or starts with 'af:', and stays '' otherwise |
| LegacyHeader.DeveloperField | dash_old/services/excelParser.ts:176-179 | a developer already found is kept; an empty one takes the value after 'desenvol' when the cell contains it, else the value after 'dev' when the cell contains 'dev' but not 'delivery', and stays '' otherwise |
| LegacyHeader.FactoryFill | dash_old/services/excelParser.ts:139-158 | a blank cell fills the factory with nothing |
| LegacyHeader.SquadFill | dash_old/services/excelParser.ts:139-161 | a blank cell fills the squad with nothing |
| LegacyHeader.ArchitectFill | dash_old/services/excelParser.ts:139-167 | a blank cell fills the architect with nothing |
| LegacyHeader.AnalystFill | dash_old/services/excelParser.ts:139-173 | a blank cell fills the analyst with nothing |
| LegacyHeader.DeveloperFill | dash_old/services/excelParser.ts:139-179 | a blank cell fills the developer with nothing |
| LegacyHeader.FieldStep | dash_old/services/excelParser.ts:156-179 | the shape of each team test: a field already found is kept, an empty one takes the fill |
| LegacyHeader.HeaderCellFills | dash_old/services/excelParser.ts:138-179 | every team field of one cell step is `FieldStep` of its old value and that field's fill |
| LegacyHeader.HeaderCellField | dash_old/services/excelParser.ts:156-179 | the same for one field chosen by number |
| LegacyHeader.FieldFromFirstFill | dash_old/services/excelParser.ts:135-181 | each team field of the scan is the fill of the first cell, in row-major order over the first 15 rows, whose fill for that field is not empty |
| LegacyHeader.FieldWithoutFill | dash_old/services/excelParser.ts:135-181 | a team field no cell of the first 15 rows fills stays '' |
| LegacyHeader.FirstFillWins | dash_old/services/excelParser.ts:135-181 | for any cell step that fills empty team fields and keeps found ones, the first non-empty fill in row-major order is the field's final value |
| LegacyHeader.FillFactory | dash_old/services/excelParser.ts:156-158 | the factory test of the loop body computes `FieldStep` of the factory and its fill |
| LegacyHeader.FillSquad | dash_old/services/excelParser.ts:159-161 | the squad test computes `FieldStep` of the squad and its fill |
| LegacyHeader.FillArchitect | dash_old/services/excelParser.ts:164-167 | the architect tests compute `FieldStep` of the architect and its fill |
| LegacyHeader.FillAnalyst | dash_old/services/excelParser.ts:170-173 | the analyst tests compute `FieldStep` of the analyst and its fill |
| LegacyHeader.FillDeveloper | dash_old/services/excelParser.ts:176-179 | the developer tests compute `FieldStep` of the developer and its fill |
| LegacyHeader.ScanHeader | dash_old/services/excelParser.ts:135-181 | the two nested loops over the first min(rows, 15) rows compute `HeaderScan` |
| LegacyHeader.NextRow | dash_old/services/excelParser.ts:135-136 | one pass of the row loop adds that row's scan |
| LegacyHeader.ScanRow | dash_old/services/excelParser.ts:137-180 | the cell loop folds `HeaderCell` over the row |
| LegacyHeader.VisitCell | dash_old/services/excelParser.ts:138-179 | the body of the cell loop is `HeaderCell` |
| LegacyHeader.HeaderCellKeeps | dash_old/services/excelParser.ts:156-179 | no cell step overwrites a team field already found |
| LegacyHeader.FirstFieldWins | dash_old/services/excelParser.ts:156-179 | a team field found in an earlier row keeps its value through all later rows |
| LegacyHeader.HeaderScanIgnoresLaterRows | dash_old/services/excelParser.ts:135 | rows from the sixteenth on never influence the metadata |
| LegacyHeader.Description | dash_old/services/excelParser.ts:130-132 | the description is the trimmed C3 cell, or '' when that cell is falsy |
| LegacyHeader.CellTexts | dash_old/services/excelParser.ts:186 | the texts of the row's cells, position by position |
| LegacyHeader.HeaderRowFrom | dash_old/services/excelParser.ts:185-191 | the first row from r below 20 naming TAREFA or ETAPA, and no earlier one does |
| LegacyHeader.HeaderRowIndex | dash_old/services/excelParser.ts:184-191 | -1 or the first of rows 0..19 naming TAREFA or ETAPA |
| LegacyHeader.FindHeaderRow | dash_old/services/excelParser.ts:184-191 | the loop with `break` finds `HeaderRowIndex` |
| LegacyHeader.HeaderRowInGrid | dash_old/services/excelParser.ts:186-195 | a header row found always lies inside the grid, since a missing row joins to '' |
| LegacyHeader.HeaderLabels | dash_old/services/excelParser.ts:195 | each label is its cell's text upper-cased and trimmed |
| LegacyHeader.ColumnsOf | dash_old/services/excelParser.ts:196-201 | each role is the first label naming it; planned and executed end are the first and last label equal to FIM, and differ exactly when FIM occurs twice |
| LegacyHeader.JoinedWord | dash_old/services/excelParser.ts:186-187 | a word without spaces seen in the joined row lies inside one cell |
| LegacyHeader.WordInLabel | dash_old/services/excelParser.ts:186-196 | that word survives in the cell's trimmed label |
| LegacyHeader.TaskColumnFound | dash_old/services/excelParser.ts:187-196 | once a header row is found, the task column is found too |
| Seqs.FirstKeys | dash_old/services/excelParser.ts:205 | the keys of an object built key by key (the stage totals, the status distribution), position by position in insertion order |
| LegacySheet.AddTo | dash_old/services/excelParser.ts:272 | `(stageDurations[label] \|\| 0) + days`: labels stay distinct, an existing label keeps its place, a new one goes last, and only that label's total grows, by `days` |
| LegacySheet.DurationOf | dash_old/services/excelParser.ts:240 | a number is the duration itself, anything else is the radix-less `parseInt` of its text with NaN as 0 |
| LegacySheet.HexDuration | dash_old/services/excelParser.ts:240 | a duration text '0x' plus hexadecimal digits counts their base-16 value of days |
| LegacySheet.ProgressOf | dash_old/services/excelParser.ts:247-250 | a number up to 1 is a fraction scaled to percent, a larger number is kept, a missing cell is 0 |
| LegacySheet.PercentText | dash_old/services/excelParser.ts:249-250 | a text 't%' reads as parseFloat(t), with NaN as 0 |
| LegacySheet.FractionScaled | dash_old/services/excelParser.ts:248 | a fraction in 0..1 becomes a percentage in 0..100 |
| LegacySheet.BackfillStart | dash_old/services/excelParser.ts:243-245 | a start is kept; a missing one is planned end minus the whole days of a positive duration, never after the planned end and strictly before it from one day on, and an Invalid Date when the planned end is one or the result leaves the Date range; otherwise it stays missing |
| LegacySheet.ReadTask | dash_old/services/excelParser.ts:227-245 | the name is the trimmed task cell; the planned end is read from the first FIM column; an actual end only when a second FIM column exists; a start cell that parses is kept; duration and progress are 0 when their column is missing |
| LegacySheet.StageDays | dash_old/services/excelParser.ts:268-271 | the duration, except that a zero-duration row with both a planned end and a start (an Invalid Date counts) counts one day |
| LegacySheet.WalkInvariant | dash_old/services/excelParser.ts:220-221 | the task count is the number of tasks, the progress total their sum, stage labels are distinct |
| LegacySheet.AddTask | dash_old/services/excelParser.ts:253-281 | a row whose planned end parsed, even to an Invalid Date, is appended as a task and counted; any named row adds its days to its stage's total; the walk invariant is kept |
| LegacySheet.InvalidPlannedEnd | dash_old/services/excelParser.ts:253-291 | a row whose planned end is an Invalid Date is counted, but its NaN end adds nothing to the planned ends the baseline is taken from |
| LegacySheet.RowStep | dash_old/services/excelParser.ts:224-281 | rows with both first cells empty, or with a blank name, change nothing; other rows are read and added |
| LegacySheet.WalkRows | dash_old/services/excelParser.ts:223-282 | the walk over the task rows keeps the invariant |
| LegacySheet.VisitRow | dash_old/services/excelParser.ts:224-281 | the loop body computes exactly `RowStep` |
| LegacySheet.ReadRow | dash_old/services/excelParser.ts:227-250 | the cell reads of a named row give `ReadTask` |
| LegacySheet.RecordTask | dash_old/services/excelParser.ts:253-281 | the push, the stage update and the counters give `AddTask` |
| LegacySheet.WalkTable | dash_old/services/excelParser.ts:223-282 | the task loop below the header row gives `WalkRows` |
| LegacySheet.AverageIsMean | dash_old/services/excelParser.ts:284 | the average progress is the mean progress of the dated tasks |
| LegacySheet.Times | dash_old/services/excelParser.ts:287-289 | at most one timestamp per task |
| LegacySheet.TimesMembers | dash_old/services/excelParser.ts:287-289 | a timestamp is collected exactly when some selected task has it and it is truthy |
| LegacySheet.ProjectId | dash_old/services/excelParser.ts:303 | each white-space run of the file and sheet names becomes one '_', and the two names and the stamp are joined by '-'; the id holds no white space |
| LegacySheet.Assemble | dash_old/services/excelParser.ts:284-321 | no project exactly when there is neither a planned end nor a saving; otherwise 'Concluído' exactly when the average is 99 or more, 'Atrasado' exactly when today is past the baseline and not done, never 'Cancelado', an actual date only when done, the baseline the latest planned end, the start the earliest start, the id `ProjectId`, the description and the five team fields those of the header, no technology and no burnup table |
| LegacySheet.EmptyStatusText | dash_old/services/excelParser.ts:298 | with an empty status text `normalizeStatus` reduces to completion first, then lateness, then whether any progress was made |
| LegacySheet.BaselineIsLatest | dash_old/services/excelParser.ts:287-291 | every task's truthy planned end is at or before the baseline date |
| LegacySheet.ProjectSheet | dash_old/services/excelParser.ts:114-322 | fewer than five rows or no header row give no project; a project is named after its sheet and carries the header scan's description, saving and team fields |
| LegacySheet.ParseProjectSheet | dash_old/services/excelParser.ts:114-322 | the scan, header search and task loop give `ProjectSheet` |
| LegacySheet.AnyContained | dash_old/services/excelParser.ts:90 | true exactly when one of the words occurs in the text |
| LegacySheet.SheetProjectsKeepName | dash_old/services/excelParser.ts:93 | every sheet's project carries that sheet's name |
| LegacySheet.Workbook | dash_old/services/excelParser.ts:89-95 | at most one project per sheet |
| LegacySheet.WorkbookSources | dash_old/services/excelParser.ts:89-95 | every project comes from a sheet of the workbook that is not skipped |
| LegacySheet.ParseWorkbook | dash_old/services/excelParser.ts:86-103 | the sheet loop gives `Workbook`, in sheet order |
| SheetParser.IsValidProjectSheet | react-app/src/utils/ExcelParser.ts:21-32 | true exactly when some text cell in rows 0..20, columns 0..10 mentions TAREFA in any case |
| SheetParser.ValidSheet | react-app/src/utils/ExcelParser.ts:21-32 | the same window test as a function, with the same if-and-only-if |
| SheetParser.ValidFrom | react-app/src/utils/ExcelParser.ts:23-30 | some TAREFA text cell lies in the window at or below row r |
| SheetParser.ParseDate | react-app/src/utils/ExcelParser.ts:172-179 | a date cell is its own time; a number is (n - 25569) days in milliseconds, rounded, and an Invalid Date exactly when that leaves the Date range; anything else is null |
| SheetParser.SerialDay | react-app/src/utils/ExcelParser.ts:176 | a whole serial number is that many days after the Unix epoch offset, at midnight UTC, clipped to the Date range |
| SheetParser.FarSerialInvalid | react-app/src/utils/ExcelParser.ts:176 | serial -1e12 reads as an Invalid Date |
| SheetParser.ParseProgress | react-app/src/utils/ExcelParser.ts:181-185 | a number up to 1 becomes a rounded percentage, a larger one is kept; a text with '%' is the value of parseInt of it without its first '%', NaN exactly when that fails; anything else 0 |
| SheetParser.FractionProgress | react-app/src/utils/ExcelParser.ts:182 | a fraction in 0..1 becomes a whole percentage in 0..100 |
| SheetParser.PercentProgress | react-app/src/utils/ExcelParser.ts:183 | the text "n%" reads back as n |
| SheetParser.HexPercent | react-app/src/utils/ExcelParser.ts:183 | the text '0x' plus hexadecimal digits plus '%' reads as their base-16 value, since `parseInt` has no radix |
| SheetParser.StatusCode | react-app/src/utils/ExcelParser.ts:189-194 | each status is produced exactly by its letter code or its spelled-out name; a code never means 'Atrasado' |
| SheetParser.DetermineStatus | react-app/src/utils/ExcelParser.ts:187-204 | a code wins; then progress 100 is 'Concluído'; otherwise 'Atrasado' exactly when a valid end has passed below 100%, 'Em Andamento' exactly when not late, a valid start has come and the end is null or a valid time not yet passed, else 'Pendente' |
| SheetParser.InvalidEndPending | react-app/src/utils/ExcelParser.ts:200-203 | an unfinished task without a code whose end is an Invalid Date is 'Pendente' |
| SheetParser.DoneNotLate | react-app/src/utils/ExcelParser.ts:197-200 | a task at 100% without a code is 'Concluído' whatever its dates |
| SheetParser.NextVal | react-app/src/utils/ExcelParser.ts:106-112 | the text of the first truthy cell of the two to the right, never '', or null when both are falsy |
| SheetParser.BenefitText | react-app/src/utils/ExcelParser.ts:92 | with no ':' the whole cell text; otherwise the trimmed `split(':')[1]`, the text between the first and the second ':', when it is not blank, else the whole cell text |
| SheetParser.BenefitBetweenColons | react-app/src/utils/ExcelParser.ts:92 | 'a:b' and 'a:b:rest' give the trimmed b when not blank, else the whole text; so 'Saving: R$ 10: anual' gives 'R$ 10' |
| SheetParser.TeamField | react-app/src/utils/ExcelParser.ts:95-99 | `getNextVal(...) \|\| field`: replaced by the next value when the cell matches and there is one, else kept |
| SheetParser.TitleField | react-app/src/utils/ExcelParser.ts:83-89 | a title once set is never replaced; while none is set, a cell naming PROJETO shorter than 50 characters sets it to its own text when longer than 10, else to the text of a present right neighbour, else leaves it empty; any other cell leaves it empty |
| SheetParser.TeamStep | react-app/src/utils/ExcelParser.ts:95-99 | each of the five fields takes the next value exactly when the text names its label (SQUAD; FABRICA or FÁBRICA; ARQ; AF; DEV) and a next value exists, and is kept otherwise; fields that all hold text keep holding text |
| SheetParser.BenefitField | react-app/src/utils/ExcelParser.ts:91-93 | a cell naming BENEFÍCIO or SAVING sets the benefit, any other keeps it |
| SheetParser.MetaCell | react-app/src/utils/ExcelParser.ts:77-79 | a falsy cell changes nothing |
| SheetParser.MetaCellBenefit | react-app/src/utils/ExcelParser.ts:91-93 | one cell replaces the benefit with its benefit text exactly when it is truthy and names BENEFÍCIO or SAVING |
| SheetParser.MetaCellTeam | react-app/src/utils/ExcelParser.ts:95-99 | one cell replaces a team field with its next value exactly when it is truthy, names that field's label and has a next value |
| SheetParser.ValueFromLastOffer | react-app/src/utils/ExcelParser.ts:69-99 | the benefit and each team field hold the value offered by the last offering cell of rows 0..10 in row-major order (later cells overwrite) |
| SheetParser.ValueWithoutOffer | react-app/src/utils/ExcelParser.ts:70-99 | without an offering cell in rows 0..10 the benefit stays '0' and a team field 'N/A' |
| SheetParser.MetaCellKeeps | react-app/src/utils/ExcelParser.ts:83-99 | no cell step clears a title or empties a team field |
| SheetParser.TeamAlwaysFilled | react-app/src/utils/ExcelParser.ts:72-99 | team fields start at 'N/A' and only ever take non-empty text, so none is ever empty |
| SheetParser.TitleFirstWins | react-app/src/utils/ExcelParser.ts:83 | a title found in an earlier row is the title of the whole scan |
| SheetParser.MetaCellTitle | react-app/src/utils/ExcelParser.ts:77-89 | one cell keeps a title already set and otherwise takes the title that cell offers |
| SheetParser.TitleFromFirstOffer | react-app/src/utils/ExcelParser.ts:72-89 | the title is the one offered by the first offering cell of rows 0..10 in row-major order |
| SheetParser.TitleWithoutOffer | react-app/src/utils/ExcelParser.ts:70-89 | without an offering cell in rows 0..10 the title stays empty |
| SheetParser.ExtractMetadata | react-app/src/utils/ExcelParser.ts:69-104 | the nested loops over rows 0..10 compute `Metadata` |
| SheetParser.VisitMetaCell | react-app/src/utils/ExcelParser.ts:77-99 | the body of the inner loop is `MetaCell` |
| SheetParser.VisitTeam | react-app/src/utils/ExcelParser.ts:95-99 | the five team statements are `TeamStep` |
| SheetParser.TaskHeaderFrom | react-app/src/utils/ExcelParser.ts:120-141 | the first row from r, up to row 20, holding a TAREFA cell, and no earlier one holds one |
| SheetParser.TaskHeaderRow | react-app/src/utils/ExcelParser.ts:116-141 | -1 or a row inside the grid, at most row 20 |
| SheetParser.HeaderLabels | react-app/src/utils/ExcelParser.ts:126-128 | each present cell's label is its upper-cased, trimmed text |
| SheetParser.ColStep | react-app/src/utils/ExcelParser.ts:127-135 | a missing header cell changes no role |
| SheetParser.LastWhere | react-app/src/utils/ExcelParser.ts:125-136 | the last column whose label satisfies the test, and no later column does |
| SheetParser.ColumnsLastMatch | react-app/src/utils/ExcelParser.ts:125-136 | because later assignments overwrite earlier ones, each role ends at the last header cell naming it |
| SheetParser.NameColumnFound | react-app/src/utils/ExcelParser.ts:123-129 | the header row's TAREFA cell always gives the name role a column |
| SheetParser.HeaderNamesTask | react-app/src/utils/ExcelParser.ts:128-129 | trimming keeps the TAREFA of a header cell |
| SheetParser.MapColumns | react-app/src/utils/ExcelParser.ts:125-136 | the column loop computes `Columns` |
| SheetParser.NextColumn | react-app/src/utils/ExcelParser.ts:126-135 | one pass of the column loop adds one header cell |
| SheetParser.MapColumn | react-app/src/utils/ExcelParser.ts:128-134 | the six role assignments of one cell are `ColStep` |
| SheetParser.RowTask | react-app/src/utils/ExcelParser.ts:146-166 | the id is the row index, the duration 0, and name, dates, progress and status come from the role columns |
| SheetParser.TaskRows | react-app/src/utils/ExcelParser.ts:145-167 | at most one task per row, each with a non-empty name and duration 0, from a row of the range, in increasing row order |
| SheetParser.TaskRowsMembers | react-app/src/utils/ExcelParser.ts:145-167 | a task is read exactly for each row of the range whose name cell is truthy, as that row's reading |
| SheetParser.TaskOfItsRow | react-app/src/utils/ExcelParser.ts:145-166 | each task is the reading of the row its id names, and that row's name cell is truthy |
| SheetParser.TaskIdsDistinct | react-app/src/utils/ExcelParser.ts:159 | tasks come from distinct rows, so their ids differ |
| SheetParser.Tasks | react-app/src/utils/ExcelParser.ts:143 | no header row, no tasks |
| SheetParser.FindTaskHeader | react-app/src/utils/ExcelParser.ts:120-141 | the search loop with its two `break`s finds `TaskHeaderRow` |
| SheetParser.RowHasHeader | react-app/src/utils/ExcelParser.ts:121-123 | true exactly when some cell of the row is a TAREFA cell |
| SheetParser.ReadTasks | react-app/src/utils/ExcelParser.ts:145-167 | the task-row loop computes `TaskRows` |
| SheetParser.ExtractTasks | react-app/src/utils/ExcelParser.ts:114-170 | the header search, the column map and the row loop compute `Tasks` |
| SheetParser.ReadBelowHeader | react-app/src/utils/ExcelParser.ts:125-167 | the column map of the header row, then the rows below it |
| SheetParser.ProgressSum | react-app/src/utils/ExcelParser.ts:47 | NaN exactly when some task progress is NaN |
| SheetParser.TaskTimes | react-app/src/utils/ExcelParser.ts:41-42 | at most one time per task, none of them 0 |
| SheetParser.TaskTimesMembers | react-app/src/utils/ExcelParser.ts:41-42 | a time is collected exactly when it is the non-zero time of the start (or end) of some task; a null or an Invalid Date gives none |
| SheetParser.SheetStatus | react-app/src/utils/ExcelParser.ts:48-50 | 'Concluído' exactly at a mean of 100; 'Atrasado' exactly when the last end has passed below 100; otherwise 'Em Andamento' |
| SheetParser.SheetProject | react-app/src/utils/ExcelParser.ts:34-67 | no project exactly when there are no tasks; id is the sheet name, title the metadata title or the sheet name, benefit and team those of the metadata, no description, progress the rounded mean, the dates the earliest start and latest end |
| SheetParser.ParseSheet | react-app/src/utils/ExcelParser.ts:34-67 | the two extractions and the roll-up compute `SheetProject` |
| SheetParser.SheetProjectsIdIsName | react-app/src/utils/ExcelParser.ts:53 | every project's id is the name of its sheet |
| SheetParser.FileProjects | react-app/src/utils/ExcelParser.ts:10-16 | at most one project per sheet |
| SheetParser.FileProjectsFromValidSheets | react-app/src/utils/ExcelParser.ts:10-16 | every project is named after a valid sheet of the file |
| SheetParser.ParseFile | react-app/src/utils/ExcelParser.ts:5-19 | the sheet loop computes `FileProjects`, in sheet order |
| SheetParser.VisitSheet | react-app/src/utils/ExcelParser.ts:11-15 | a valid sheet that yields a project adds it; any other sheet adds nothing |
| Burnup.AllTasks | dash_old/components/BurnupChart.tsx:25-28 | no projects give no tasks |
| Burnup.AllTasksMembers | dash_old/components/BurnupChart.tsx:28 | a task is in the flattened list exactly when some project holds it |
| Burnup.Stamps | dash_old/components/BurnupChart.tsx:32-34 | every timestamp kept is positive |
| Burnup.StampsMembers | dash_old/components/BurnupChart.tsx:32-34 | a value is a timestamp exactly when it is positive and it is the planned or the actual end of some task |
| Burnup.GregorianIsCalendar | dash_old/components/BurnupChart.tsx:41-47 | the month arithmetic satisfies the calendar laws the chart relies on: each month ends inside itself before the next begins, and every instant lies in the month it is assigned to |
| Burnup.GregorianEnds | dash_old/components/BurnupChart.tsx:57-58 | the last millisecond of a month lies between its start and the next month's start |
| Burnup.GregorianOf | dash_old/components/BurnupChart.tsx:41-42 | every instant lies in the month it is assigned to |
| Burnup.GregorianOfAt | dash_old/components/BurnupChart.tsx:41-42 | one instant lies between the start of its month and the start of the next |
| Burnup.StartMonotone | dash_old/components/BurnupChart.tsx:47 | later months start later |
| Burnup.OfMonotone | dash_old/components/BurnupChart.tsx:41-45 | a later instant never falls in an earlier month |
| Burnup.EndMonotone | dash_old/components/BurnupChart.tsx:57-58 | later months end later |
| Burnup.MonthAxis | dash_old/components/BurnupChart.tsx:38-47 | the months run from the month of the earliest timestamp to three months past the month of the latest, so every timestamp's month is on the axis and at least four months are shown |
| Burnup.PastOrCurrentMonths | dash_old/components/BurnupChart.tsx:64 | a month counts as past or current when it is before the current month, or has the current month's number in any year |
| Burnup.NextYearIsCurrent | dash_old/components/BurnupChart.tsx:64 | the same month one year ahead, which starts after now, still counts as past or current |
| Burnup.MonthAt | dash_old/components/BurnupChart.tsx:56-87 | one month's point: its index, the total task count, the baseline counts the tasks planned to end by the month's end, and realized is present exactly for past or current months and counts the tasks ended by then with progress 99 or more |
| Burnup.Points | dash_old/components/BurnupChart.tsx:56-87 | one point per month of the axis, the k-th carrying index k |
| Burnup.BaselineMonotone | dash_old/components/BurnupChart.tsx:61 | the baseline never decreases from one month to a later one |
| Burnup.RealizedMonotone | dash_old/components/BurnupChart.tsx:68-69 | where two months both have a realized count, the later count is at least the earlier |
| Burnup.DoneAtMonotone | dash_old/components/BurnupChart.tsx:69 | the count of finished tasks by a later month's end is at least that by an earlier month's end |
| Burnup.PlannedMonotone | dash_old/components/BurnupChart.tsx:61 | a later cut-off counts at least as many planned tasks |
| Burnup.DoneMonotone | dash_old/components/BurnupChart.tsx:69 | a later cut-off counts at least as many finished tasks |
| Burnup.Accumulate | dash_old/components/BurnupChart.tsx:53-54 | the regression counter never exceeds the number of points |
| Burnup.AccumulateSnoc | dash_old/components/BurnupChart.tsx:68-77 | one more point updates the sums exactly as the loop body does |
| Burnup.AccumulateCounts | dash_old/components/BurnupChart.tsx:72 | `n` counts the points that have a realized value |
| Burnup.Square | dash_old/components/BurnupChart.tsx:93 | a non-zero difference has a square of at least 1 |
| Burnup.SquareExpand | dash_old/components/BurnupChart.tsx:93 | the binomial expansion used to relate the sums to squared deviations |
| Burnup.DeviationFormula | dash_old/components/BurnupChart.tsx:73-76 | the sum of squared deviations of the realized indices from x equals sumXX - 2x sumX + n x² |
| Burnup.DeviationStep | dash_old/components/BurnupChart.tsx:73-76 | the algebra of one step of that sum |
| Burnup.DeviationAtLeast | dash_old/components/BurnupChart.tsx:73-76 | with every index below x, the squared deviations add up to at least n |
| Burnup.SpreadStep | dash_old/components/BurnupChart.tsx:93 | the algebra of one step of the denominator |
| Burnup.SpreadPositive | dash_old/components/BurnupChart.tsx:92-93 | the denominator `n*sumXX - sumX*sumX` is never negative and is positive once n > 1, so the division never divides by zero |
| Burnup.Regression | dash_old/components/BurnupChart.tsx:89-95 | slope and intercept are 0 for at most one point; otherwise they solve the least-squares normal equations of the realized points |
| Burnup.Forecast | dash_old/components/BurnupChart.tsx:98-102 | a forecast exists exactly when the month has no realized value and the slope is positive, and it lies between 0 and the total |
| Burnup.ForecastValue | dash_old/components/BurnupChart.tsx:100-101 | the forecast is the rounded line value, capped at the total and raised to 0 when negative |
| Burnup.Real | dash_old/components/BurnupChart.tsx:84 | a count is present exactly when it was present, with the same value |
| Burnup.WithForecast | dash_old/components/BurnupChart.tsx:97-107 | each point keeps its index, month, baseline, realized and total and gains its forecast |
| Burnup.Finish | dash_old/components/BurnupChart.tsx:89-107 | with the fitted line, each chart point keeps its month's values, and a forecast only appears on a month without a realized value and stays between 0 and the total |
| Burnup.ChartData | dash_old/components/BurnupChart.tsx:24-109 | the chart is empty exactly when there is no positive timestamp; otherwise it has one point per month of the axis |
| Burnup.ChartIs | dash_old/components/BurnupChart.tsx:47-107 | a non-empty chart is the finished series of the axis months |
| Burnup.ChartBounds | dash_old/components/BurnupChart.tsx:50-107 | every point's total is the number of tasks, and its baseline, realized and forecast lie between 0 and that number, the forecast only where realized is absent |
| Burnup.SeriesPoint | dash_old/components/BurnupChart.tsx:56-107 | the k-th chart point is dated at the k-th month, realized exactly for past or current months, with all values bounded by the task count |
| Burnup.SeriesMonotone | dash_old/components/BurnupChart.tsx:61 | the baseline series of the chart never decreases |
| Burnup.MonthPoints | dash_old/components/BurnupChart.tsx:53-87 | the `map` with its running sums yields exactly the points and the sums of their realized months |
| Burnup.FitLine | dash_old/components/BurnupChart.tsx:89-95 | the slope and intercept computed are the least-squares line |
| Burnup.BuildChart | dash_old/components/BurnupChart.tsx:24-109 | the whole `chartData` computation yields the chart described above |
| Burnup.Passthrough | react-app/src/components/BurnupChart.tsx:32-50 | one chart row per sheet row, with the same date, baseline, realized and forecast; the total is the sheet's total scope, or 1.2 times the baseline when that is missing or 0 |
| Burnup.ReactChartData | react-app/src/components/BurnupChart.tsx:26-62 | no projects give no chart; the first project with burnup rows supplies the chart unchanged; without any, the chart is computed from the tasks as in the first front end |
| Burnup.BuildReactChart | react-app/src/components/BurnupChart.tsx:26-135 | the computation yields the chart `ReactChartData` describes |
| StageAverage.Add | react-app/src/components/AverageDurationChart.tsx:37-38 | adding one positive duration keeps the tallies consistent, appends the stage to the key order only when it is new, and raises that stage's sum by the days and its count by one, leaving every other stage unchanged |
| StageAverage.Visit | react-app/src/components/AverageDurationChart.tsx:35-39 | one `[stage, days]` pair keeps the tallies consistent |
| StageAverage.TallyOf | react-app/src/components/AverageDurationChart.tsx:27-41 | the tallies of any list of pairs are consistent: distinct keys, the same keys in both objects, every count at least 1 |
| StageAverage.TallyOrder | react-app/src/components/AverageDurationChart.tsx:33-44 | `Object.keys(durationSums)` lists the stages with a positive duration once each, in order of first occurrence |
| StageAverage.TallyKeys | react-app/src/components/AverageDurationChart.tsx:36-37 | a stage has a sum exactly when some pair gives it a positive duration |
| StageAverage.PositiveStagesMembers | react-app/src/components/AverageDurationChart.tsx:36 | the stages kept are exactly those with some positive duration |
| StageAverage.TallySum | react-app/src/components/AverageDurationChart.tsx:37 | a stage's sum is the sum of its positive durations |
| StageAverage.TallyCount | react-app/src/components/AverageDurationChart.tsx:38 | a stage's count is the number of its positive durations |
| StageAverage.EntriesMembers | react-app/src/components/AverageDurationChart.tsx:33-34 | a pair is visited exactly when it is among some project's stageDurations |
| StageAverage.AveragesAt | react-app/src/components/AverageDurationChart.tsx:44-47 | one bar per key, holding the stage and the rounded mean of its sum over its count |
| StageAverage.RankValues | react-app/src/components/AverageDurationChart.tsx:51-53 | a standard stage ranks by its position in the list of five, any other stage ranks 99 |
| StageAverage.StandardRanks | react-app/src/components/AverageDurationChart.tsx:31 | Discovery, Desenvolvimento, Homologação, Implantação and Delivery rank 0 to 4 |
| StageAverage.ChartOrder | react-app/src/components/AverageDurationChart.tsx:25-56 | no projects give no bars; the bars are sorted by rank, are a permutation of the unsorted averages, and bars of equal rank keep their relative order |
| StageAverage.UnsortedAt | react-app/src/components/AverageDurationChart.tsx:44-47 | before sorting there is one bar per key, in key order, holding its rounded mean |
| StageAverage.UnsortedDistinct | react-app/src/components/AverageDurationChart.tsx:44-47 | no stage has two bars |
| StageAverage.UnsortedStages | react-app/src/components/AverageDurationChart.tsx:33-47 | a stage has a bar exactly when some project gives it a positive duration |
| StageAverage.UnsortedMeans | react-app/src/components/AverageDurationChart.tsx:46 | each bar's value is the rounded sum of the stage's positive durations over their number, which is at least 1 |
| StageAverage.ChartMember | react-app/src/components/AverageDurationChart.tsx:50-54 | sorting neither adds nor drops a bar |
| StageAverage.ChartStages | react-app/src/components/AverageDurationChart.tsx:24-57 | the chart has a bar for a stage exactly when some project gives that stage a positive duration |
| StageAverage.ChartHasStage | react-app/src/components/AverageDurationChart.tsx:50-54 | sorting keeps the set of stages shown |
| StageAverage.ChartMeans | react-app/src/components/AverageDurationChart.tsx:46 | each bar of the chart holds the rounded mean of its stage's positive durations |
| StageAverage.ChartDistinct | react-app/src/components/AverageDurationChart.tsx:44-54 | no stage appears twice in the chart |
| StageAverage.ChartNoRepeats | react-app/src/components/AverageDurationChart.tsx:44-54 | no bar appears twice in the chart |
| StageAverage.SameStageBar | react-app/src/components/AverageDurationChart.tsx:44-54 | two bars with the same stage are the same bar |
| StageAverage.MeanBounds | react-app/src/components/AverageDurationChart.tsx:46 | when every positive duration of a stage lies in lo..hi, so does its rounded mean |
| StageAverage.MeanWithin | react-app/src/components/AverageDurationChart.tsx:46 | the unrounded mean lies between the least and greatest duration bounds |
| StageAverage.AverageDurationChart | react-app/src/components/AverageDurationChart.tsx:24-57 | the loops, the `map` and the sort yield exactly `ChartData` |
| StageAverage.MeanBars | react-app/src/components/AverageDurationChart.tsx:44-47 | the `map` over the keys yields one averaged bar per key |
| StageAverage.VisitProject | react-app/src/components/AverageDurationChart.tsx:33-41 | after project i the tallies are those of the pairs of the first i + 1 projects |
| StageAverage.VisitPairs | react-app/src/components/AverageDurationChart.tsx:34-40 | the inner `forEach` adds all of one project's pairs to the tallies |
| StageAverage.VisitPair | react-app/src/components/AverageDurationChart.tsx:35-39 | one more pair gives the tallies of one more pair |
| StageAverage.TallySnoc | react-app/src/components/AverageDurationChart.tsx:35-39 | tallying one more pair is one `Visit` |
| Gantt.FirstWord | react-app/src/components/GanttChart.tsx:136-138 | `split(' ')[0]`: the longest prefix without a space, ended by a space or by the end of the text |
| Gantt.JoinEmpty | react-app/src/components/GanttChart.tsx:142 | joining non-empty parts gives the empty text exactly when there are no parts |
| Gantt.SubtitleEmpty | react-app/src/components/GanttChart.tsx:133-142 | the subtitle is empty exactly when the project has no squad, factory, developer, analyst or architect |
| Gantt.Offsets | react-app/src/components/GanttChart.tsx:155-163 | one bar per item, its length `end - start`, its offset never negative, the offsets differing exactly as the starts do, and some item at offset 0 |
| Gantt.OldChart | dash_old/components/GanttChart.tsx:24-80 | no projects give no bars; otherwise the bars are those of the kept items, sorted by start, stable for equal starts, the first at offset 0 and none negative |
| Gantt.SortedOffsets | dash_old/components/GanttChart.tsx:70-78 | sorting the offset bars by start keeps them all, stably, with the earliest at offset 0 |
| Gantt.EarliestFirst | dash_old/components/GanttChart.tsx:78 | after the sort by start the first bar is one with offset 0 |
| Gantt.PhaseLabelsOrdered | react-app/src/components/GanttChart.tsx:35-47 | every label of the phase table is in `phaseOrder` |
| Gantt.TaskPhaseOrdered | react-app/src/components/GanttChart.tsx:53-61 | every phase a task can get has a place in `phaseOrder` |
| Gantt.PhaseOrderDistinct | react-app/src/components/GanttChart.tsx:91 | `phaseOrder` names each phase once |
| Gantt.DetectPhase | react-app/src/components/GanttChart.tsx:53-61 | the loop over the table yields the label of the first key the upper-cased name contains, else 'Outras' |
| Gantt.PhaseTasks | react-app/src/components/GanttChart.tsx:50-80 | the `filter`/`map` yields exactly the dated tasks, in order, each with its phase, its days and its 'Concluído'/'Pendente' status |
| Gantt.PhaseHeader | react-app/src/components/GanttChart.tsx:97-113 | a phase header starts at the earliest start and ends at the latest end of its tasks, lasts the sum of their durations, and is marked as the header of that phase |
| Gantt.GroupByPhase | react-app/src/components/GanttChart.tsx:83-87 | each phase's group is exactly the tasks of that phase, in order, and no group is empty |
| Gantt.GroupTask | react-app/src/components/GanttChart.tsx:84-87 | pushing one more task keeps every group equal to the tasks seen so far of its phase |
| Gantt.BuildGrouped | react-app/src/components/GanttChart.tsx:82-125 | the grouping and the `phaseOrder` loop yield exactly `Grouped`: each non-empty phase in order, its header then its tasks as children |
| Gantt.NextSection | react-app/src/components/GanttChart.tsx:93-123 | one more phase of `phaseOrder` appends that phase's section |
| Gantt.SectionsStep | react-app/src/components/GanttChart.tsx:93-123 | the sections of one more phase are the earlier sections plus that phase's section |
| Gantt.PushSection | react-app/src/components/GanttChart.tsx:103-122 | pushing a non-empty group appends its header and its tasks renamed as children |
| Gantt.SectionSplit | react-app/src/components/GanttChart.tsx:103-122 | a section is its header followed by its tasks as children |
| Gantt.SectionsChildren | react-app/src/components/GanttChart.tsx:116-122 | the child rows of the sections are as many as the tasks of those phases |
| Gantt.SectionChildren | react-app/src/components/GanttChart.tsx:116-122 | the child rows of one section are the tasks of its phase, renamed, in their order |
| Gantt.SectionUnderHeader | react-app/src/components/GanttChart.tsx:100-122 | a non-empty section starts with its phase's header, and every row after it is a child row of that phase |
| Gantt.SectionsChildBag | react-app/src/components/GanttChart.tsx:91-123 | the child rows of the sections are, as a multiset, the renamed tasks of the listed phases |
| Gantt.PhaseImagesSnoc | react-app/src/components/GanttChart.tsx:84-87 | one more task adds its image to the images of the listed phases exactly when its phase is listed |
| Gantt.PhaseImagesAll | react-app/src/components/GanttChart.tsx:91-95 | when every task's phase is listed once, the images of the listed phases are the images of all the tasks |
| Gantt.ChildInjective | react-app/src/components/GanttChart.tsx:116-121 | renaming a task row as a child row tells different task rows apart |
| Gantt.PhaseTotalSnoc | react-app/src/components/GanttChart.tsx:84-87 | one more task adds one to the task count of the listed phases exactly when its phase is listed |
| Gantt.PhaseTotalAll | react-app/src/components/GanttChart.tsx:91-95 | when every task's phase is listed, the listed phases hold all the tasks |
| Gantt.PhaseTotalEmpty | react-app/src/components/GanttChart.tsx:91-95 | no tasks give no task in any phase |
| Gantt.GroupedKeepsTasks | react-app/src/components/GanttChart.tsx:50-125 | grouping by phase loses and duplicates no task: the child rows are the dated task rows, renamed, with the same multiplicities, so there is one child row per dated task |
| Gantt.GroupedTaskCount | react-app/src/components/GanttChart.tsx:50-125 | each dated task row occurs under the headers, renamed, exactly as often as it occurs among the dated tasks |
| Gantt.GanttChartData | react-app/src/components/GanttChart.tsx:24-165 | the `useMemo` body yields exactly `ChartData`: nothing for no projects or no items, the phase-grouped tasks of the one project in single-project mode, otherwise the projects with both dates and no burnup table, with their offsets |
| Gantt.SectionsLength | react-app/src/components/GanttChart.tsx:93-123 | the sections hold one header per non-empty phase plus the tasks of those phases |
| Gantt.GroupedLength | react-app/src/components/GanttChart.tsx:82-125 | the grouped list has as many rows as the dated tasks plus the number of non-empty phases |
| LegacyDashboard.SquadTabsMembers | dash_old/components/Dashboard.tsx:35-43 | the tabs are in strictly ascending order and are exactly the upper-cased squads of the projects whose squad is not blank |
| LegacyDashboard.UniqueSquads | dash_old/components/Dashboard.tsx:36-42 | the `forEach` filling the set, then the sort, yields exactly `SquadTabs` |
| LegacyDashboard.AddSquad | dash_old/components/Dashboard.tsx:37-41 | one more project adds its upper-cased squad to the set, in order of first addition, when it is not blank |
| LegacyDashboard.SquadsSeenSnoc | dash_old/components/Dashboard.tsx:38-39 | one more project appends its key exactly when its squad is not blank and the key was not yet in the set |
| LegacyDashboard.ProjectChoicesMembers | dash_old/components/Dashboard.tsx:46-53 | the project choices are strictly ascending and are exactly the names of the projects of the selected squad (of all projects for 'Todos') |
| LegacyDashboard.StatusChoices | dash_old/components/Dashboard.tsx:91 | the status buttons are exactly the statuses that occur, each once |
| LegacyDashboard.ShownMembers | dash_old/components/Dashboard.tsx:56-67 | the filtered list keeps the input order and holds exactly the projects passing the search, status, project and squad tests |
| LegacyDashboard.ShownUnfiltered | dash_old/components/Dashboard.tsx:24-29 | with the initial filters every project is shown |
| LegacyDashboard.Metrics | dash_old/components/Dashboard.tsx:70-89 | total projects and total saving are those of the filtered list, the delay placeholder is 0, and the rate lies in 0..100 |
| LegacyDashboard.MetricsTotals | dash_old/components/Dashboard.tsx:74-80 | the status counts add up to the number of shown projects under distinct keys, and the rate is 0 when none is shown |
| LegacyDashboard.SingleProjectIsSelected | dash_old/components/Dashboard.tsx:120 | in single-project mode the one project shown is the selected one |
| LegacyDashboard.SquadTab | dash_old/components/Dashboard.tsx:215-229 | a tab sets the squad, clears the project choice to 'Todos' and keeps the search and status |
| LegacyDashboard.SquadTabShows | dash_old/components/Dashboard.tsx:215-229 | after a tab is clicked the view is never in single-project mode, and shows exactly the projects of that squad (all for the overview) that pass the search and status tests |
| LegacyDashboard.FilterBar.constructor | dash_old/components/Dashboard.tsx:24-29 | the filters start with an empty search and every choice at 'Todos' |
| LegacyDashboard.FilterBar.SelectOverview | dash_old/components/Dashboard.tsx:215 | the overview tab resets the squad and the project to 'Todos' and keeps the rest |
| LegacyDashboard.FilterBar.SelectSquad | dash_old/components/Dashboard.tsx:229 | a squad tab selects that squad, resets the project and keeps the rest |
| LegacyDashboard.FilterBar.Search | dash_old/components/Dashboard.tsx:267 | the search box replaces only the search term |
| LegacyDashboard.FilterBar.SelectProject | dash_old/components/Dashboard.tsx:276 | the project drop-down replaces only the project choice |
| LegacyDashboard.FilterBar.SelectStatus | dash_old/components/Dashboard.tsx:306-319 | the status buttons replace only the status choice |
| ProjectMerge.IdsMembers | react-app/src/App.tsx:42 | an id is in the set exactly when some project already loaded has it |
| ProjectMerge.MergeKeeps | react-app/src/App.tsx:41-45 | the projects already loaded come first, unchanged; after them come, in batch order, exactly the batch's projects whose id is not yet loaded, each as often as in the batch |
| ProjectMerge.SameFilter | react-app/src/App.tsx:43 | a project whose id is new is kept by the filter as often as it occurs in the batch |
| ProjectMerge.MergedIds | react-app/src/App.tsx:41-45 | after the merge every id of the batch is loaded |
| ProjectMerge.MergeIdempotent | react-app/src/App.tsx:41-45 | loading the same batch twice gives what loading it once gives |
| ReactApp.NextThemes | react-app/src/App.tsx:25-29 | the cycle goes light, dark, vivo, light |
| ReactApp.ThemeAt | react-app/src/App.tsx:26-27 | each theme's `indexOf` in the list is its position |
| ReactApp.ThemeCycle | react-app/src/App.tsx:25-29 | the next theme always differs, and three steps come back to the start |
| ReactApp.OfSquadMembers | react-app/src/App.tsx:61-64 | the squad filter keeps the order and keeps exactly the projects of the selected squad, or all when none is selected |
| ReactApp.SquadsMembers | react-app/src/App.tsx:55-58 | the squad list is strictly ascending and holds exactly the squads that are set, not empty and not 'N/A' |
| ReactApp.FactoriesMembers | react-app/src/App.tsx:60-67 | the factory list is strictly ascending and holds exactly the usable factories of the selected squad's projects |
| ReactApp.TechnologiesMembers | react-app/src/App.tsx:69-76 | the technology list is strictly ascending and holds exactly the usable technologies of the selected squad's projects |
| ReactApp.FilteredMembers | react-app/src/App.tsx:78-93 | the filtered list keeps the input order and holds exactly the projects passing all the tests; no burnup-only project is shown, and with a technology choice every shown project has a technology |
| ReactApp.EmptySearch | react-app/src/App.tsx:89-90 | an empty search term matches every project |
| ReactApp.AvailableMembers | react-app/src/App.tsx:96-102 | one choice per project of the selected squad (per project when none is selected), carrying its id and name |
| ReactApp.SelectedProjectIsSingle | react-app/src/App.tsx:88-106 | when the selected id belongs to exactly one project and that project passes the other tests, the view is in single-project mode |
| ReactApp.App.constructor | react-app/src/App.tsx:16-23 | no projects, no selections, an empty search, not loading, and the 'vivo' theme |
| ReactApp.App.ToggleTheme | react-app/src/App.tsx:25-29 | only the theme changes, to the next one in the cycle |
| ReactApp.App.HandleFiles | react-app/src/App.tsx:32-52 | when every file parses, the batch is all their projects in file order, merged by id; when one fails, the projects stay as they were; loading ends, and theme and selections are unchanged |
| ReactApp.App.SelectSquad | react-app/src/App.tsx:112 | only the squad choice changes |
| ReactApp.App.SelectProject | react-app/src/App.tsx:118 | only the project choice changes |
| ReactApp.App.SelectFactory | react-app/src/App.tsx:123 | only the factory choice changes |
| ReactApp.App.SelectTechnology | react-app/src/App.tsx:126 | only the technology choice changes |
| ReactApp.App.Search | react-app/src/App.tsx:115 | only the search term changes |
| LegacyApp.SameCycle | dash_old/App.tsx:28-34 | the first front end cycles the themes exactly as the second does, returning after three steps |
| LegacyApp.Append | dash_old/App.tsx:36-44 | the first batch is stored as it is; later ones keep the loaded projects first and unchanged |
| LegacyApp.AppendIdempotent | dash_old/App.tsx:36-44 | appending the same batch twice is appending it once, also for the first batch |
| LegacyApp.App.constructor | dash_old/App.tsx:7-10 | no data is loaded and the theme is light |
| LegacyApp.App.CycleTheme | dash_old/App.tsx:28-34 | the theme moves one step in the cycle and the data is unchanged |
| LegacyApp.App.Load | dash_old/App.tsx:50 | the uploaded batch replaces the data and the theme is unchanged |
| LegacyApp.App.AppendData | dash_old/App.tsx:36-44 | the batch is appended as `Append` says and the theme is unchanged |
| LegacyApp.App.Reset | dash_old/App.tsx:57 | the data is cleared and the theme is unchanged |
| RoadmapTimeline.Roadmap | dash_old/components/RoadmapTimeline.tsx:13-19 | the sorted list is a permutation of the projects, ordered by delivery date (actual, else baseline, else 1 January 2099), stable for equal dates, and the list shown is its first min(15, n) entries |
| RoadmapTimeline.UndatedLast | dash_old/components/RoadmapTimeline.tsx:13-17 | a project with a date before 2099 is listed before every project with neither date |
| RoadmapTimeline.ProgressWidth | dash_old/components/RoadmapTimeline.tsx:99 | the bar is full exactly for a completed project and half full otherwise |
| SquadView.GroupSquads | dash_old/components/SquadView.tsx:17-25 | the `forEach` builds, for each squad name seen, the group of its projects in input order, with the keys in order of first occurrence |
| SquadView.AddToGroup | dash_old/components/SquadView.tsx:20-24 | one more project joins the group of its name, which is created when missing |
| SquadView.GroupingStep | dash_old/components/SquadView.tsx:20-24 | the grouping of one more project is the old one with that project appended to its name's group |
| SquadView.GroupKeysStep | dash_old/components/SquadView.tsx:21-23 | a new name becomes both a key and the last entry of the key order |
| SquadView.GroupValuesStep | dash_old/components/SquadView.tsx:24 | after the push, every group holds exactly the projects of its name so far |
| SquadView.KeysSnoc | dash_old/components/SquadView.tsx:20-23 | one more project adds its name to the key order exactly when the name is new |
| SquadView.NotKey | dash_old/components/SquadView.tsx:21 | a name that is no key has no projects |
| SquadView.GroupsPartition | dash_old/components/SquadView.tsx:16-33 | each group holds exactly the projects of its own squad name, in input order, and every project has a group |
| SquadView.SortedKeysMembers | dash_old/components/SquadView.tsx:28-32 | sorting the groups keeps exactly their names |
| SquadView.GroupsOrdered | dash_old/components/SquadView.tsx:28-32 | 'SEM SQUAD' can only be the last group, the other groups are in ascending order of name, and there is one group per distinct squad name |
| SquadView.KeyOfSome | dash_old/components/SquadView.tsx:16-33 | a name has a group exactly when some project has that squad name |
| SquadView.SortedKeysShape | dash_old/components/SquadView.tsx:28-32 | the sorted names have no repeats, 'SEM SQUAD' comes only last, and the others ascend |
| SquadView.DistinctCard | dash_old/components/SquadView.tsx:28 | a list of names without repeats has as many entries as its set |
| Charts.StatusCounts | react-app/src/components/Charts.tsx:46-50 | one count per chart status |
| Charts.CountStatuses | react-app/src/components/Charts.tsx:46-50 | the `forEach` yields for each of the six statuses the number of projects with it, ignoring every other status |
| Charts.CountOne | react-app/src/components/Charts.tsx:50 | one more project adds one to the count of its status when that is a key |
| Charts.KeyAt | react-app/src/components/Charts.tsx:50 | the key a status is counted under is the only key equal to it |
| Charts.KeysDistinct | react-app/src/components/Charts.tsx:46-48 | the six keys are different statuses |
| Charts.CountsSnoc | react-app/src/components/Charts.tsx:50 | one more project adds one to the count of its status and to no other |
| Charts.CountsTotal | react-app/src/components/Charts.tsx:46-50 | the six counts add up to the number of projects whose status is one of the six |
| Charts.CountsStep | react-app/src/components/Charts.tsx:50 | one project raises the total of the counts by one exactly when its status is a key |
| Charts.OneKey | react-app/src/components/Charts.tsx:46-50 | a status equals exactly one of the six keys when it is one of them, and none otherwise |
| Charts.MacroBarOf | react-app/src/components/Charts.tsx:154-165 | a bar carries the project's title, the range from start to end or null when either date is missing, and green exactly for a completed project |
| Charts.MacroSchedule | react-app/src/components/Charts.tsx:149-165 | the schedule has one bar per project, in ascending order of start (a missing start as 0), stable for equal starts, each bar built from the project at its place |
| Keywords.FirstMatch | dash_old/services/excelParser.ts:266-275 | no label when no key occurs in the text; otherwise the label of the first key, in table order, that occurs |
| Keywords.FindLabel | react-app/src/components/GanttChart.tsx:56-61 | the `for ... of` loop with its `break` yields exactly `FirstMatch` |
| Keywords.HomologationCountsOnce | dash_old/services/excelParser.ts:266-275 | a task named 'HOMOLOGAÇÃO QA' matches two keys but is counted once, for Homologação |
| Keywords.FirstMatchAt | dash_old/services/excelParser.ts:266-273 | the first key that occurs decides the label |
| Keywords.MissingChar | dash_old/services/excelParser.ts:267 | a key holding a character the text lacks does not occur in it |
| Grid.RowCell | dash_old/services/excelParser.ts:57 | a position inside the row reads its cell, one outside reads as missing |
| Grid.CellAt | react-app/src/utils/ExcelParser.ts:107 | a position inside the sheet reads its cell, one outside reads as missing |
| Grid.TruthyText | react-app/src/utils/ExcelParser.ts:108 | a truthy cell has a non-empty text; for a missing cell or a string, truthy exactly when its text is non-empty |
| Calendar.DaysInMonth | dash_old/services/excelParser.ts:22 | every month has 28 to 31 days |
| Calendar.MonthEndMs | dash_old/components/BurnupChart.tsx:57-58 | a month's last instant `23:59:59` lies after its start and before the next month's start |
| Calendar.MonthStartMonotone | dash_old/components/BurnupChart.tsx:47 | later months start strictly later |
| Calendar.MonthUnique | dash_old/components/BurnupChart.tsx:41-42 | an instant lies in one month only |
| Calendar.MonthIndex | dash_old/components/BurnupChart.tsx:41-42 | every instant lies in the month it is assigned to |
| Calendar.MonthIndexMonotone | dash_old/components/BurnupChart.tsx:38-45 | a later instant falls in the same month or a later one |
| Calendar.TimeClip | dash_old/services/excelParser.ts:10 | a computed time makes a valid Date exactly within ±8.64e15 ms, and an Invalid Date beyond |
| Calendar.MakeDate | dash_old/services/excelParser.ts:22-23 | `new Date(y, m, d)` is valid only within the Date range of ±8.64e15 ms |
| Calendar.FullYear | dash_old/services/excelParser.ts:22 | a year 0..99 passed to `new Date` means 1900..1999, any other is kept |
| Calendar.MonthLengthLaw | dash_old/services/excelParser.ts:22 | the distance between consecutive month starts is that month's Gregorian length |
| Calendar.LeapCycle | dash_old/services/excelParser.ts:22 | leap years repeat every 400 years |
| Calendar.MakeDateDay | dash_old/services/excelParser.ts:22 | `new Date(y, m, d)` for a day of that month is midnight of that day, in month y*12+m |
| Calendar.CalendarDay | dash_old/services/excelParser.ts:22-23 | every real calendar day of the years 100..199999 is a valid date, midnight of that very day |
| Calendar.MakeDateOfInstant | dash_old/services/excelParser.ts:22 | every valid midnight outside the years 0..99 is `new Date` of its own year, month and day |
| Calendar.MakeDateValid | dash_old/services/excelParser.ts:22-23 | any day 1..31 of any month of the years 0..199999 is a valid date |
| Calendar.ExcelEpoch | dash_old/services/excelParser.ts:11 | 30 December 1899 is the Excel epoch day from which serial numbers count |
| Calendar.UnixEpoch | dash_old/services/excelParser.ts:22 | January 1970 starts at time 0 |
| JsNumbers.ParseFloat | dash_old/services/excelParser.ts:39-40 | `parseFloat` gives NaN exactly when the text, after an optional sign, starts with neither a digit nor a dot followed by a digit |
| JsNumbers.ParseFloatDigits | dash_old/services/excelParser.ts:39-40 | `parseFloat` reads a string of digits as its decimal value |
| JsNumbers.ParseFloatDecimal | dash_old/services/excelParser.ts:39-40 | `parseFloat` reads 'www.fff' as www plus fff over ten to the number of fraction digits |
| JsNumbers.ParseInt | dash_old/services/excelParser.ts:18-20 | `parseInt` gives NaN exactly when the text, after an optional sign, starts with no digit |
| JsNumbers.ParseIntOfIntText | dash_old/services/excelParser.ts:18-20 | writing an integer and reading it back with `parseInt` gives the same integer |
| JsNumbers.ParseIntAuto | dash_old/services/excelParser.ts:240 | `parseInt` without a radix is the base-10 reading unless '0x' or '0X' follows the sign, and then NaN exactly when no hexadecimal digit follows |
| JsNumbers.ParseIntAutoHex | dash_old/services/excelParser.ts:240 | '0x' plus hexadecimal digits reads as their base-16 value |
| JsNumbers.ParseIntAutoOfIntText | dash_old/services/excelParser.ts:240 | the radix-less `parseInt` reads back what `String(n)` writes |
| JsNumbers.DecimalStopsAtX | dash_old/services/excelParser.ts:18-20 | a base-10 `parseInt` reads any '0x…' text as 0 |
| JsNumbers.HexWithoutDigits | react-app/src/utils/ExcelParser.ts:183 | '0x' without a hexadecimal digit after it is NaN |
| JsNumbers.Floor | dash_old/services/excelParser.ts:11 | `Math.floor`: the greatest integer not above x |
| JsNumbers.Round | dash_old/components/BurnupChart.tsx:100 | `Math.round`: the integer within half of x, halves rounded up |
| JsNumbers.Ceil | react-app/src/components/GanttChart.tsx:67 | `Math.ceil`: the least integer not below x |
| Text.Upper | dash_old/components/Dashboard.tsx:39 | `toUpperCase` maps each character (ASCII and Latin-1 letters, with 'ÿ' and 'µ' leaving Latin-1) and keeps the length |
| Text.Lower | dash_old/components/Dashboard.tsx:58 | `toLowerCase` maps each character and keeps the length |
| Text.TrimStart | dash_old/components/Dashboard.tsx:38 | the leading white space, and only that, is removed |
| Text.TrimEnd | dash_old/components/Dashboard.tsx:38 | the trailing white space, and only that, is removed |
| Text.ContainsIff | dash_old/components/Dashboard.tsx:58 | `includes` holds exactly when the text occurs at some position |
| Text.Split | dash_old/services/excelParser.ts:16 | `split` gives at least one part, and no part holds the separator |
| Text.SplitJoin | dash_old/services/excelParser.ts:16 | joining the parts with the separator gives the text back |
| Text.JoinSplit | dash_old/services/excelParser.ts:16 | splitting parts joined by the separator, none holding it, gives the parts back |
| Text.UnderscoreNoSpace | dash_old/services/excelParser.ts:303 | `replace(/\s+/g, '_')` keeps a text without white space as it is |
| Text.UnderscoreKeepPrefix | dash_old/services/excelParser.ts:303 | a prefix without white space is kept in front of the replaced rest |
| Text.UnderscoreRun | dash_old/services/excelParser.ts:303 | a whole run of white space between two non-space texts becomes one '_' |
| Text.StrLtTotal | dash_old/components/Dashboard.tsx:42 | the default sort order on strings is a strict total order |
| Text.StrLtTransitive | dash_old/components/Dashboard.tsx:42 | the default sort order on strings is transitive |
| Text.SortedDistinct | dash_old/components/Dashboard.tsx:42 | `Array.from(new Set(xs)).sort()` (also react-app/src/App.tsx:56-57): strictly ascending, exactly the members of xs |
| Seqs.SortByStable | dash_old/components/RoadmapTimeline.tsx:13-17 | the sort by a numeric key is stable: the elements with any one key keep their relative order |
| Seqs.SortBy | dash_old/components/RoadmapTimeline.tsx:13-17 | `[...xs].sort((a, b) => key(a) - key(b))`: the result is ordered by the key, a permutation of the input, of the same length |

## Left out

- File and workbook reading are not modelled: `FileReader`, `XLSX.read`, the decoding into a grid, and the asynchronous multi-file plumbing. The decoded grid is the input. `ReactApp.App.HandleFiles` takes each file's parse outcome (`None` for a failure) as a parameter.
- The clock is a parameter: `Date.now`, `new Date()` and `startOfToday`. Local time is taken as UTC, so every date is a UTC instant.
- LegacySheet.ParseWorkbook, SheetParser.ParseFile: one clock reading serves every sheet (and every task) of a file, whereas the code reads the clock again for each sheet (`startOfToday()` and `Date.now()` at dash_old/services/excelParser.ts:297 and :303; `new Date()` at react-app/src/utils/ExcelParser.ts:50 and in the status of each task). So in the model all sheets of one file share the id stamp and the same 'today', and a file parsed across midnight or across a millisecond boundary is not captured.
- `Date.parse` on free-form text is a parameter of the date normaliser, a partial function given by the caller, because its accepted formats depend on the JavaScript engine.
- IEEE floating point is not modelled. Numbers are exact reals; NaN appears only where the code tests for it: `parseFloat`/`parseInt` failures, the second parser's progress read as `None`, and the time of an Invalid Date (a `JsDate`), which a legacy task record holds as `None` because every reader of those fields tests truthiness first, where null and NaN fail alike. Rounding errors of the float operations are absent.
- Number-to-text conversion is approximated. `String(x)` is exact for integers; non-integral values are cut to at most six fraction digits. A date cell's text is a `Date(<ms>)` form, which, like the engine's date string, starts with a letter.
- Case mapping outside ASCII and the Latin-1 letters is not modelled; such characters are left as they are. Upper case does map the two Latin-1 letters whose capitals lie outside it ('ÿ' to 'Ÿ', 'µ' to 'Μ'). The length-changing mappings (such as 'ß' to 'SS') are not modelled either.
- `localeCompare` in the squad view is modelled as code-unit order, a strict total order; locale collation rules are not.
- Display is left out: `format`, `toLocaleString`, the labels, colours (`getBarColor`, badge helpers), chart configuration and all rendering. The `displayDate`, `displayStart` and `displayEnd` fields are left out of the rows.
- The DOM and theme effects are left out: the class list, the body colour and `localStorage`. Only the theme value is modelled.
- Presentational files carry no data logic and are left out: layout, KPI cards, tables, upload zones.
- The calls to `AnalyticsEngine.generateBurnup` and `calculateDurationPerStage` are left out. Those methods do not exist in `react-app/src/utils/AnalyticsEngine.ts`.
- Concurrency and React scheduling are not modelled. A state update applies at once, and `useMemo` is a plain function of its inputs.
- Burnup.SeriesMonotone: the baseline is proved non-decreasing on the finished series `Finish(c, Points(...))` and not on `ChartData` directly. `Burnup.ChartIs` states that a non-empty chart is that series, so the property carries over in one step.
- The stage keyword table follows the code's order (DISCOVERY, MAPEAMENTO, DELIVERY, DESENVOLVIMENTO, DEV, HOMOLOGAÇÃO, QA, ROLLOUT, IMPLANTAÇÃO). The order decides which label a task counts for.
- A 'bloqueado' project at 100% is 'Concluído', because completion is tested first (`LegacyValues.BlockedButComplete`).
- SheetParser.TitleField, Text.StrLt, Text.Upper: strings are sequences of Unicode scalar values, while JavaScript measures and compares UTF-16 code units. A character outside the Basic Multilingual Plane counts 1 here and 2 in JavaScript, so `val.length < 50` and `> 10` can differ, and the default `sort()` order can differ between such characters and those from U+E000 up. `toUpperCase` also has length-changing mappings (such as 'ß' to 'SS'); `Text.Upper` keeps the length and leaves those characters as they are.
