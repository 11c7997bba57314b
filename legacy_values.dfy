/** The value normalisers of the legacy sheet parser
    (dash_old/services/excelParser.ts): dates, currency amounts, status
    labels and "Label: value" header cells. */
module LegacyValues {
  import opened Options
  import opened Text
  import opened JsNumbers
  import opened Calendar
  import opened Grid
  import opened Domain
  import opened Seqs

  /** `Date.parse` on free text, supplied by the caller; `None` is NaN. */
  type DateParser = string -> Option<int>

  /** parseExcelDate: a serial day number counts from 1899-12-30 (`addDays`
      beyond the Date range gives an Invalid Date), a string goes through
      Date.parse and then the D/M/Y fallback, anything else is null. */
  function ParseExcelDate(v: Cell, dateParse: DateParser): (r: Option<JsDate>)
    ensures !Truthy(v) ==> r.None?
    ensures v.DateV? ==> r.None?
    ensures v.Num? && Truthy(v) ==> var t := ExcelEpochMs + Floor(v.value) * DayMs;
      r.Some? && (r.value.Valid? <==> -MaxTimeMs <= t <= MaxTimeMs) && (r.value.Valid? ==> r.value.ms == t)
    ensures v.Str? && Truthy(v) && dateParse(v.text).Some? ==> r == Some(Valid(dateParse(v.text).value))
    ensures v.Str? && Truthy(v) && dateParse(v.text).None? ==>
      (r.Some? <==> DayMonthYear(v.text).Some?) && (r.Some? ==> r.value == Valid(DayMonthYear(v.text).value))
    ensures r == Some(InvalidDate) ==> v.Num?
  {
    if !Truthy(v) then None
    else
      match v
      case Num(x) => Some(TimeClip(ExcelEpochMs + Floor(x) * DayMs))
      case Str(s) =>
        if dateParse(s).Some? then Some(Valid(dateParse(s).value))
        else if DayMonthYear(s).Some? then Some(Valid(DayMonthYear(s).value))
        else None
      case _ => None
  }

  /** The `D/M/Y` fallback: three '/'-separated integers, a year below 100
      taken as 20YY, the month counted from 1, and an invalid date as null. */
  function DayMonthYear(s: string): (r: Option<int>)
    ensures r.Some? ==> |Split(s, '/')| == 3
    ensures var p := Split(s, '/'); |p| == 3 && ParseInt(p[0]).Some? && ParseInt(p[1]).Some? && ParseInt(p[2]).Some? ==>
      r == MakeDate(CenturyYear(ParseInt(p[2]).value), ParseInt(p[1]).value - 1, ParseInt(p[0]).value)
    ensures var p := Split(s, '/'); |p| == 3 && (ParseInt(p[0]).None? || ParseInt(p[1]).None? || ParseInt(p[2]).None?) ==>
      r.None?
    ensures r.Some? ==> -MaxTimeMs <= r.value <= MaxTimeMs
  {
    var parts := Split(s, '/');
    if |parts| != 3 then None else DateOfFields(ParseInt(parts[0]), ParseInt(parts[1]), ParseInt(parts[2]))
  }

  /** The date for parsed day, month and year fields; None when one is NaN. */
  function DateOfFields(day: Option<int>, month: Option<int>, year: Option<int>): (r: Option<int>)
    ensures r.Some? ==> -MaxTimeMs <= r.value <= MaxTimeMs
  {
    if day.None? || month.None? || year.None? then None
    else MakeDate(CenturyYear(year.value), month.value - 1, day.value)
  }

  /** 'D/M/Y' written out with String(n) for each part. */
  function DateText(day: nat, month: nat, year: nat): string {
    IntText(day) + "/" + IntText(month) + "/" + IntText(year)
  }

  /** The fallback reads 'D/M/Y' as midnight of day D of month M of the
      year Y (20YY for a year below 100). */
  lemma DayMonthYearOf(day: nat, month: nat, year: nat)
    requires 1 <= month <= 12 && year < 200000
    requires 1 <= day <= DaysInMonth(month - 1, IsLeapYear(CenturyYear(year)))
    ensures DayMonthYear(DateText(day, month, year)).Some?
    ensures MonthIndex(DayMonthYear(DateText(day, month, year)).value) == CenturyYear(year) * 12 + month - 1
    ensures DayOfMonth(DayMonthYear(DateText(day, month, year)).value) == day
    ensures DayMonthYear(DateText(day, month, year)).value % DayMs == 0
  {
    DayMonthYearText(day, month, year);
    CalendarDay(CenturyYear(year), month - 1, day);
  }

  lemma DayMonthYearText(day: nat, month: nat, year: nat)
    requires 1 <= month
    ensures DayMonthYear(DateText(day, month, year)) == MakeDate(CenturyYear(year), month - 1, day)
  {
    DateTextParts(day, month, year);
    ParseIntOfIntText(day);
    ParseIntOfIntText(month);
    ParseIntOfIntText(year);
    assert DayMonthYear(DateText(day, month, year)) == DateOfFields(Some(day), Some(month), Some(year));
  }

  /** DateText splits at its two slashes into the three numbers. */
  lemma DateTextParts(day: nat, month: nat, year: nat)
    ensures Split(DateText(day, month, year), '/') == [IntText(day), IntText(month), IntText(year)]
  {
    var a, b, c := IntText(day), IntText(month), IntText(year);
    var parts := [a, b, c];
    assert parts[1..] == [b, c] && [b, c][1..] == [c];
    assert Join([b, c], "/") == b + "/" + c;
    assert Join(parts, "/") == a + "/" + (b + "/" + c);
    assert a + "/" + (b + "/" + c) == a + "/" + b + "/" + c;
    NoSlash(day);
    NoSlash(month);
    NoSlash(year);
    JoinSplit(parts, '/');
  }

  lemma NoSlash(n: nat)
    ensures '/' !in IntText(n)
  {
  }

  /** `if (year < 100) year += 2000`. */
  function CenturyYear(y: int): (r: int)
    ensures y < 100 ==> r == y + 2000
    ensures y >= 100 ==> r == y
  {
    if y < 100 then y + 2000 else y
  }

  /** A two-digit year lands in 2000..2099, so `new Date` does not move it to the 1900s. */
  lemma TwoDigitYear(y: int)
    requires 0 <= y < 100
    ensures 2000 <= CenturyYear(y) <= 2099
    ensures !(0 <= CenturyYear(y) <= 99)
  {
  }

  /** A serial number n is the Date `new Date(1899, 11, 30 + floor(n))`
      makes: that calendar day, or an Invalid Date beyond the Date range. */
  lemma {:induction false} SerialIsCalendarDay(x: real, dateParse: DateParser)
    requires x != 0.0
    ensures ParseExcelDate(Num(x), dateParse) == Some(DateOf(MakeDate(1899, 11, 30 + Floor(x))))
  {
    ExcelEpochDay(1899 * 12 + 11);
  }

  /** Serial 2e8 lies past the year 275760, so it reads as an Invalid Date. */
  lemma FarSerialInvalid(dateParse: DateParser)
    ensures ParseExcelDate(Num(2.0e8), dateParse) == Some(InvalidDate)
  {
    assert Floor(2.0e8) == 200000000;
  }

  /** The characters `/[R$\s]/g` removes from an amount. */
  predicate CurrencyNoise(c: char) {
    c == 'R' || c == '$' || IsSpace(c)
  }

  predicate IsDot(c: char) { c == '.' }
  predicate IsComma(c: char) { c == ',' }

  /** The amount text parseFloat reads: a first comma after the last dot is
      the decimal comma (all dots are thousands separators, and the first
      comma becomes the decimal point), otherwise commas are thousands separators. */
  function AmountText(s: string): (r: string)
    ensures forall k :: 0 <= k < |r| ==> !CurrencyNoise(r[k])
  {
    var clean := RemoveWhere(s, CurrencyNoise);
    if ',' in clean && IndexOf(clean, ',') > LastIndexOf(clean, '.') then
      var noDots := RemoveWhere(clean, IsDot);
      var r := ReplaceFirst(noDots, ',', ".");
      assert forall k :: 0 <= k < |r| ==> !CurrencyNoise(r[k]) by {
        forall k | 0 <= k < |r| ensures !CurrencyNoise(r[k]) {
          ReplaceFirstChars(noDots, ',', ".", r[k]);
          if r[k] in noDots {
            RemoveWhereChars(clean, IsDot, r[k]);
          }
        }
      }
      r
    else
      var r := RemoveWhere(clean, IsComma);
      assert forall k :: 0 <= k < |r| ==> !CurrencyNoise(r[k]) by {
        forall k | 0 <= k < |r| ensures !CurrencyNoise(r[k]) {
          RemoveWhereChars(clean, IsComma, r[k]);
        }
      }
      r
  }

  predicate AllChars(s: string, ok: char -> bool) {
    forall k :: 0 <= k < |s| ==> ok(s[k])
  }

  predicate DigitOrDot(c: char) { IsDigit(c) || c == '.' }
  predicate DigitOrComma(c: char) { IsDigit(c) || c == ',' }
  predicate AmountChar(c: char) { IsDigit(c) || c == '.' || c == ',' }

  /** '1.234,56': dots group thousands and the comma is the decimal point. */
  lemma DecimalComma(whole: string, frac: string)
    requires AllChars(whole, DigitOrDot) && AllChars(frac, IsDigit)
    ensures AmountText(whole + "," + frac) == RemoveWhere(whole, IsDot) + "." + frac
  {
    var s := whole + "," + frac;
    Joined(whole, ',', frac);
    CleanAmount(s);
    FirstAt(s, ',', |whole|);
    LastBefore(s, '.', |whole|);
    DecimalBranch(s);
    DecimalRewrite(whole, frac);
  }

  lemma DecimalRewrite(whole: string, frac: string)
    requires AllChars(whole, DigitOrDot) && AllChars(frac, IsDigit)
    ensures ReplaceFirst(RemoveWhere(whole + "," + frac, IsDot), ',', ".") == RemoveWhere(whole, IsDot) + "." + frac
  {
    var w := RemoveWhere(whole, IsDot);
    RemoveDots(whole, frac);
    NoCommaLeft(whole);
    ReplaceFirstAfter(w, "," + frac, ',', ".");
    CommaHead(frac);
    ConcatAssoc(w, ",", frac);
    ConcatAssoc(w, ".", frac);
  }

  lemma RemoveDots(whole: string, frac: string)
    requires AllChars(frac, IsDigit)
    ensures RemoveWhere(whole + "," + frac, IsDot) == RemoveWhere(whole, IsDot) + "," + frac
  {
    RemoveWhereAppend(whole + ",", frac, IsDot);
    RemoveWhereAppend(whole, ",", IsDot);
    assert RemoveWhere(",", IsDot) == ",";
    RemoveWhereKeep(frac, IsDot);
  }

  lemma CommaHead(frac: string)
    ensures ReplaceFirst("," + frac, ',', ".") == "." + frac
  {
    assert ("," + frac)[1..] == frac;
  }

  lemma NoCommaLeft(whole: string)
    requires AllChars(whole, DigitOrDot)
    ensures ',' !in RemoveWhere(whole, IsDot)
  {
    if ',' in RemoveWhere(whole, IsDot) {
      RemoveWhereChars(whole, IsDot, ',');
    }
  }

  /** '1,234.56': commas group thousands and the dot is the decimal point. */
  lemma ThousandsComma(whole: string, frac: string)
    requires AllChars(whole, DigitOrComma) && AllChars(frac, IsDigit)
    ensures AmountText(whole + "." + frac) == RemoveWhere(whole, IsComma) + "." + frac
  {
    var s := whole + "." + frac;
    Joined(whole, '.', frac);
    CleanAmount(s);
    assert s[|whole|] == '.';
    if ',' in s {
      LastBefore(s, ',', |whole|);
    }
    ThousandsBranch(s);
    ThousandsRewrite(whole, frac);
  }

  lemma ThousandsRewrite(whole: string, frac: string)
    requires AllChars(frac, IsDigit)
    ensures RemoveWhere(whole + "." + frac, IsComma) == RemoveWhere(whole, IsComma) + "." + frac
  {
    RemoveWhereAppend(whole + ".", frac, IsComma);
    RemoveWhereAppend(whole, ".", IsComma);
    assert RemoveWhere(".", IsComma) == ".";
    RemoveWhereKeep(frac, IsComma);
  }

  /** parseCurrency('1.234,56') is 1234.56: the digits of the whole part
      without its dots, plus the fraction digits after the comma. */
  lemma CurrencyDecimalComma(whole: string, frac: string)
    requires AllChars(whole, DigitOrDot) && AllChars(frac, IsDigit)
    requires |RemoveWhere(whole, IsDot)| > 0 && |frac| > 0
    ensures AllChars(RemoveWhere(whole, IsDot), IsDigit)
    ensures ParseCurrency(Str(whole + "," + frac))
      == DigitsValue(RemoveWhere(whole, IsDot)) as real + DigitsValue(frac) as real / Pow10(|frac|) as real
  {
    var w := RemoveWhere(whole, IsDot);
    KeptChars(whole, IsDot, DigitOrDot, IsDigit);
    DecimalComma(whole, frac);
    ParseFloatDecimal(w, frac);
  }

  /** parseCurrency('1,234.56') is 1234.56: the digits of the whole part
      without its commas, plus the fraction digits after the dot. */
  lemma CurrencyThousandsComma(whole: string, frac: string)
    requires AllChars(whole, DigitOrComma) && AllChars(frac, IsDigit)
    requires |RemoveWhere(whole, IsComma)| > 0 && |frac| > 0
    ensures AllChars(RemoveWhere(whole, IsComma), IsDigit)
    ensures ParseCurrency(Str(whole + "." + frac))
      == DigitsValue(RemoveWhere(whole, IsComma)) as real + DigitsValue(frac) as real / Pow10(|frac|) as real
  {
    var w := RemoveWhere(whole, IsComma);
    KeptChars(whole, IsComma, DigitOrComma, IsDigit);
    ThousandsComma(whole, frac);
    ParseFloatDecimal(w, frac);
  }

  /** Removing the characters `drop` names from a string of `ok` characters
      leaves only characters that are `ok` and not dropped, which `keep` covers. */
  lemma KeptChars(s: string, drop: char -> bool, ok: char -> bool, keep: char -> bool)
    requires AllChars(s, ok)
    requires forall c :: ok(c) && !drop(c) ==> keep(c)
    ensures AllChars(RemoveWhere(s, drop), keep)
  {
    var r := RemoveWhere(s, drop);
    forall k | 0 <= k < |r| ensures keep(r[k]) {
      RemoveWhereChars(s, drop, r[k]);
      var i :| 0 <= i < |s| && s[i] == r[k];
      assert ok(s[i]);
    }
  }

  /** The characters of `whole + [sep] + frac`, by position. */
  lemma Joined(whole: string, sep: char, frac: string)
    requires AllChars(whole, AmountChar) && AllChars(frac, IsDigit) && AmountChar(sep)
    ensures var s := whole + [sep] + frac;
      AllChars(s, AmountChar) && s[|whole|] == sep
      && (forall k :: 0 <= k < |whole| ==> s[k] == whole[k])
      && (forall k :: |whole| < k < |s| ==> IsDigit(s[k]))
  {
    var s := whole + [sep] + frac;
    forall k | 0 <= k < |s| ensures AmountChar(s[k]) && (k > |whole| ==> IsDigit(s[k])) {
      if k < |whole| { assert s[k] == whole[k]; }
      else if k > |whole| { assert s[k] == frac[k - |whole| - 1]; }
    }
  }

  lemma CleanAmount(s: string)
    requires AllChars(s, AmountChar)
    ensures RemoveWhere(s, CurrencyNoise) == s
  {
    forall k | 0 <= k < |s| ensures !CurrencyNoise(s[k]) {
      assert AmountChar(s[k]);
    }
    RemoveWhereKeep(s, CurrencyNoise);
  }

  lemma FirstAt(s: string, x: char, i: int)
    requires 0 <= i < |s| && s[i] == x
    requires forall k :: 0 <= k < i ==> s[k] != x
    ensures IndexOf(s, x) == i
  {
  }

  lemma LastBefore(s: string, x: char, i: int)
    requires 0 <= i <= |s|
    requires forall k :: i <= k < |s| ==> s[k] != x
    ensures LastIndexOf(s, x) < i
  {
  }

  lemma DecimalBranch(s: string)
    requires RemoveWhere(s, CurrencyNoise) == s
    requires ',' in s && IndexOf(s, ',') > LastIndexOf(s, '.')
    ensures AmountText(s) == ReplaceFirst(RemoveWhere(s, IsDot), ',', ".")
  {
  }

  lemma ThousandsBranch(s: string)
    requires RemoveWhere(s, CurrencyNoise) == s
    requires !(',' in s && IndexOf(s, ',') > LastIndexOf(s, '.'))
    ensures AmountText(s) == RemoveWhere(s, IsComma)
  {
  }

  /** parseCurrency. */
  function ParseCurrency(v: Cell): (r: real)
    ensures v.Num? ==> r == v.value
    ensures v.Empty? || v.DateV? || v == Str("") ==> r == 0.0
    ensures v.Str? && v.text != "" ==> r == ParseFloat(AmountText(v.text)).GetOr(0.0)
  {
    match v
    case Num(x) => x
    case Str(s) => if s == "" then 0.0 else ParseFloat(AmountText(s)).GetOr(0.0)
    case _ => 0.0
  }

  /** normalizeStatus: the first matching rule wins, and a completion of 99
      or more outranks every label. */
  function NormalizeStatus(status: string, completion: real, isLate: bool): (r: Status)
    ensures IsProjectStatus(r)
    ensures completion >= 99.0 ==> r == Concluido
    ensures r == Concluido <==> StatusSaysDone(status) || completion >= 99.0
    ensures r == Cancelado <==> !RuleDone(status, completion) && StatusSays(status, "cancel")
    ensures r == Atrasado <==> (!RuleDone(status, completion) && !StatusSays(status, "cancel")
      && (StatusSaysLate(status) || isLate))
    ensures r == EmAndamento <==> (!RuleDone(status, completion) && !StatusSays(status, "cancel")
      && !StatusSaysLate(status) && !isLate && completion > 0.0)
    ensures r == NaoIniciado <==> (!RuleDone(status, completion) && !StatusSays(status, "cancel")
      && !StatusSaysLate(status) && !isLate && completion <= 0.0)
  {
    var s := Trim(Lower(status));
    if Contains(s, "conclu") || Contains(s, "entregue") || completion >= 99.0 then Concluido
    else if Contains(s, "cancel") then Cancelado
    else if Contains(s, "atrasado") || Contains(s, "bloqueado") then Atrasado
    else if isLate then Atrasado
    else if completion > 0.0 then EmAndamento
    else NaoIniciado
  }

  /** The lower-cased, trimmed status text contains `word`. */
  predicate StatusSays(status: string, word: string) {
    Contains(Trim(Lower(status)), word)
  }

  predicate StatusSaysDone(status: string) {
    StatusSays(status, "conclu") || StatusSays(status, "entregue")
  }

  /** The first rule: the text says done, or the completion is at least 99. */
  predicate RuleDone(status: string, completion: real) {
    StatusSaysDone(status) || completion >= 99.0
  }

  predicate StatusSaysLate(status: string) {
    StatusSays(status, "atrasado") || StatusSays(status, "bloqueado")
  }

  /** A 'bloqueado' project at 100% counts as done. */
  lemma BlockedButComplete()
    ensures NormalizeStatus("bloqueado", 100.0, false) == Concluido
  {
  }

  /** JavaScript `a || b` on strings. */
  function OrElse(a: string, b: string): string {
    if a != "" then a else b
  }

  /** `String(row[c])`, which reads 'undefined' outside the row. */
  function CellString(row: Row, c: int): string {
    if 0 <= c < |row| then CellText(row[c]) else "undefined"
  }

  /** Length of the run of ':' and white space at the start of `s`. */
  function ColonSpaceRun(s: string): (n: nat)
    ensures n <= |s|
    ensures forall k :: 0 <= k < n ==> s[k] == ':' || IsSpace(s[k])
    ensures n == |s| || !(s[n] == ':' || IsSpace(s[n]))
  {
    if |s| > 0 && (s[0] == ':' || IsSpace(s[0])) then 1 + ColonSpaceRun(s[1..]) else 0
  }

  /** Length of the text before the first line terminator. */
  function LineLength(s: string): (n: nat)
    ensures n <= |s|
    ensures forall k :: 0 <= k < n ==> !IsLineTerminator(s[k])
    ensures n == |s| || IsLineTerminator(s[n])
  {
    if |s| > 0 && !IsLineTerminator(s[0]) then 1 + LineLength(s[1..]) else 0
  }

  /** Characters equal under the regular-expression `i` flag. */
  predicate SameLetters(a: string, b: string) {
    Upper(a) == Upper(b)
  }

  /** The capture of `^keyword[:\s]*(.*)` (case-insensitive) on `text`, or None when it does not match. */
  function KeywordRemainder(text: string, keyword: string): (r: Option<string>)
    ensures r.Some? ==> |keyword| <= |text| && SameLetters(text[..|keyword|], keyword)
    ensures r.Some? ==> forall k :: 0 <= k < |r.value| ==> !IsLineTerminator(r.value[k])
  {
    if |keyword| <= |text| && SameLetters(text[..|keyword|], keyword) then
      var rest := text[|keyword|..];
      var after := rest[ColonSpaceRun(rest)..];
      Some(after[..LineLength(after)])
    else None
  }

  /** extractHeaderValue: the value in the same cell after the keyword, else
      the next cell when this one holds only the keyword, else ''. */
  function ExtractHeaderValue(row: Row, c: int, keyword: string): (r: string)
    ensures r == "" || (!IsSpace(r[0]) && !IsSpace(r[|r| - 1]))
    ensures SameCellValue(row, c, keyword) ==> r == Trim(KeywordRemainder(CellString(row, c), keyword).value)
    ensures !SameCellValue(row, c, keyword) && NamesKeyword(row, c, keyword) && NextCellTruthy(row, c)
      ==> r == Trim(CellText(row[c + 1]))
    ensures !SameCellValue(row, c, keyword) && !(NamesKeyword(row, c, keyword) && NextCellTruthy(row, c)) ==> r == ""
  {
    if SameCellValue(row, c, keyword) then
      var v := KeywordRemainder(CellString(row, c), keyword).value;
      TrimEnds(v); Trim(v)
    else if NamesKeyword(row, c, keyword) && NextCellTruthy(row, c) then
      TrimEnds(CellText(row[c + 1])); Trim(CellText(row[c + 1]))
    else ""
  }

  /** `match && match[1] && match[1].trim().length > 0`: the cell itself holds a value after the keyword. */
  predicate SameCellValue(row: Row, c: int, keyword: string) {
    var m := KeywordRemainder(CellString(row, c), keyword);
    m.Some? && Trim(m.value) != ""
  }

  /** The cell, lower-cased, its first ':' dropped and trimmed, is or starts with the keyword. */
  predicate NamesKeyword(row: Row, c: int, keyword: string) {
    StartsWith(Trim(ReplaceFirst(Lower(CellString(row, c)), ':', "")), Lower(keyword))
  }

  /** `colIndex + 1 < row.length && row[colIndex + 1]`. */
  predicate NextCellTruthy(row: Row, c: int) {
    0 <= c + 1 < |row| && Truthy(row[c + 1])
  }

  /** Trim leaves no white space at either end. */
  lemma TrimEnds(s: string)
    ensures Trim(s) == "" || (!IsSpace(Trim(s)[0]) && !IsSpace(Trim(s)[|Trim(s)| - 1]))
  {
    var a := TrimStart(s);
    var b := TrimEnd(a);
    if |b| > 0 {
      assert b[0] == a[0];
    }
  }
}
