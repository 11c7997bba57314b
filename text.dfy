/** Text primitives that the dashboard code takes from JavaScript's String
    methods: case mapping, trimming, substring search, splitting and joining,
    decimal rendering of integers and the default (code-unit) string order
    used by Array.prototype.sort. */
module Text {

  /** JavaScript's `\s` class, which `trim` also strips: white space and line terminators. */
  predicate IsSpace(c: char) {
    c == '\t' || c == '\n' || c == '\U{B}' || c == '\U{C}' || c == '\r' || c == ' '
    || c == '\U{A0}' || c == '\U{1680}' || ('\U{2000}' <= c <= '\U{200A}')
    || c == '\U{2028}' || c == '\U{2029}' || c == '\U{202F}' || c == '\U{205F}'
    || c == '\U{3000}' || c == '\U{FEFF}'
  }

  /** Characters that end a line for the regular-expression dot. */
  predicate IsLineTerminator(c: char) {
    c == '\n' || c == '\r' || c == '\U{2028}' || c == '\U{2029}'
  }

  /** toLowerCase on one character, for ASCII and the Latin-1 letters. */
  function LowerChar(c: char): char {
    if 'A' <= c <= 'Z' then (c as int + 32) as char
    else if '\U{C0}' <= c <= '\U{DE}' && c != '\U{D7}' then (c as int + 32) as char
    else c
  }

  /** toUpperCase on one character, for ASCII and the Latin-1 letters; 'ÿ'
      and the micro sign 'µ' leave Latin-1 for 'Ÿ' and the Greek 'Μ'. */
  function UpperChar(c: char): char {
    if 'a' <= c <= 'z' then (c as int - 32) as char
    else if '\U{E0}' <= c <= '\U{FE}' && c != '\U{F7}' then (c as int - 32) as char
    else if c == '\U{FF}' then '\U{178}'
    else if c == '\U{B5}' then '\U{39C}'
    else c
  }

  function Lower(s: string): (r: string)
    ensures |r| == |s|
    ensures forall i :: 0 <= i < |s| ==> r[i] == LowerChar(s[i])
  {
    seq(|s|, i requires 0 <= i < |s| => LowerChar(s[i]))
  }

  function Upper(s: string): (r: string)
    ensures |r| == |s|
    ensures forall i :: 0 <= i < |s| ==> r[i] == UpperChar(s[i])
  {
    seq(|s|, i requires 0 <= i < |s| => UpperChar(s[i]))
  }

  lemma UpperAppend(a: string, b: string)
    ensures Upper(a + b) == Upper(a) + Upper(b)
  {
  }

  function TrimStart(s: string): (r: string)
    ensures |r| <= |s| && r == s[|s| - |r|..]
    ensures r == [] || !IsSpace(r[0])
    ensures forall i :: 0 <= i < |s| - |r| ==> IsSpace(s[i])
  {
    if |s| > 0 && IsSpace(s[0]) then TrimStart(s[1..]) else s
  }

  function TrimEnd(s: string): (r: string)
    ensures |r| <= |s| && r == s[..|r|]
    ensures r == [] || !IsSpace(r[|r| - 1])
    ensures forall i :: |r| <= i < |s| ==> IsSpace(s[i])
  {
    if |s| > 0 && IsSpace(s[|s| - 1]) then TrimEnd(s[..|s| - 1]) else s
  }

  /** String.prototype.trim. */
  function Trim(s: string): string {
    TrimEnd(TrimStart(s))
  }

  predicate StartsWith(s: string, p: string) {
    |p| <= |s| && s[..|p|] == p
  }

  /** String.prototype.includes. */
  predicate Contains(s: string, p: string) {
    StartsWith(s, p) || (|s| > 0 && Contains(s[1..], p))
  }

  /** `p` occurs in `s` at position `i`. */
  predicate OccursAt(s: string, p: string, i: int) {
    0 <= i && i + |p| <= |s| && s[i..i + |p|] == p
  }

  lemma {:induction false} ContainsIff(s: string, p: string)
    ensures Contains(s, p) <==> exists i :: OccursAt(s, p, i)
  {
    if StartsWith(s, p) {
      assert OccursAt(s, p, 0);
    } else if |s| > 0 {
      ContainsIff(s[1..], p);
      if Contains(s[1..], p) {
        var i :| OccursAt(s[1..], p, i);
        assert s[1..][i..i + |p|] == s[i + 1..i + 1 + |p|];
        assert OccursAt(s, p, i + 1);
      }
      if exists i :: OccursAt(s, p, i) {
        var i :| OccursAt(s, p, i);
        assert i != 0;
        assert s[1..][i - 1..i - 1 + |p|] == s[i..i + |p|];
        assert OccursAt(s[1..], p, i - 1);
      }
    }
  }

  lemma ContainsEmpty(s: string)
    ensures Contains(s, "")
  {
    assert StartsWith(s, "");
  }

  /** An occurrence of a pattern that contains no white space survives trimming. */
  lemma TrimKeepsWord(s: string, p: string)
    requires |p| > 0 && forall k :: 0 <= k < |p| ==> !IsSpace(p[k])
    requires Contains(s, p)
    ensures Contains(Trim(s), p)
  {
    ContainsIff(s, p);
    var i :| OccursAt(s, p, i);
    var a := TrimStart(s);
    var j := TrimStartKeepsWord(s, p, i);
    var b := TrimEnd(a);
    TrimEndKeepsWord(a, p, j);
    ContainsIff(b, p);
  }

  lemma TrimStartKeepsWord(s: string, p: string, i: int) returns (j: int)
    requires |p| > 0 && !IsSpace(p[0])
    requires OccursAt(s, p, i)
    ensures OccursAt(TrimStart(s), p, j)
  {
    var a := TrimStart(s);
    var d := |s| - |a|;
    assert s[i..i + |p|][0] == s[i];
    assert i >= d;
    j := i - d;
    assert a[j..j + |p|] == s[i..i + |p|];
  }

  lemma TrimEndKeepsWord(a: string, p: string, j: int)
    requires |p| > 0 && !IsSpace(p[|p| - 1])
    requires OccursAt(a, p, j)
    ensures OccursAt(TrimEnd(a), p, j)
  {
    var b := TrimEnd(a);
    assert a[j..j + |p|][|p| - 1] == a[j + |p| - 1];
    assert j + |p| <= |b|;
    assert b[j..j + |p|] == a[j..j + |p|];
  }

  /** An occurrence in `a + [sep] + b` of a pattern free of `sep` lies in `a` or in `b`. */
  lemma ContainsAcrossSeparator(a: string, sep: char, b: string, p: string)
    requires |p| > 0 && forall k :: 0 <= k < |p| ==> p[k] != sep
    requires Contains(a + [sep] + b, p)
    ensures Contains(a, p) || Contains(b, p)
  {
    var s := a + [sep] + b;
    ContainsIff(s, p);
    var i :| OccursAt(s, p, i);
    if i + |p| <= |a| {
      OccursLeft(a, sep, b, p, i);
    } else if i > |a| {
      OccursRight(a, sep, b, p, i);
    } else {
      SeparatorInOccurrence(s, p, i, |a|);
      assert false;
    }
  }

  lemma OccursLeft(a: string, sep: char, b: string, p: string, i: int)
    requires OccursAt(a + [sep] + b, p, i) && i + |p| <= |a|
    ensures Contains(a, p)
  {
    var s := a + [sep] + b;
    assert a[i..i + |p|] == s[i..i + |p|];
    assert OccursAt(a, p, i);
    ContainsIff(a, p);
  }

  lemma OccursRight(a: string, sep: char, b: string, p: string, i: int)
    requires OccursAt(a + [sep] + b, p, i) && i > |a|
    ensures Contains(b, p)
  {
    var s := a + [sep] + b;
    assert b[i - |a| - 1..i - |a| - 1 + |p|] == s[i..i + |p|];
    assert OccursAt(b, p, i - |a| - 1);
    ContainsIff(b, p);
  }

  lemma SeparatorInOccurrence(s: string, p: string, i: int, m: int)
    requires OccursAt(s, p, i) && i <= m < i + |p|
    ensures p[m - i] == s[m]
  {
    assert s[i..i + |p|][m - i] == s[m];
  }

  /** The value of `s.indexOf(x)`: the first position of `x`, or -1. */
  function IndexOf<T(==)>(s: seq<T>, x: T): (r: int)
    ensures -1 <= r < |s|
    ensures r == -1 <==> x !in s
    ensures r >= 0 ==> s[r] == x && forall k :: 0 <= k < r ==> s[k] != x
  {
    if |s| == 0 then -1
    else if s[0] == x then 0
    else var k := IndexOf(s[1..], x); if k == -1 then -1 else k + 1
  }

  /** The value of `s.lastIndexOf(x)`: the last position of `x`, or -1. */
  function LastIndexOf<T(==)>(s: seq<T>, x: T): (r: int)
    ensures -1 <= r < |s|
    ensures r == -1 <==> x !in s
    ensures r >= 0 ==> s[r] == x && forall k :: r < k < |s| ==> s[k] != x
  {
    if |s| == 0 then -1
    else if s[|s| - 1] == x then |s| - 1
    else LastIndexOf(s[..|s| - 1], x)
  }

  /** `s.split(sep)` for a one-character separator. */
  function Split(s: string, sep: char): (r: seq<string>)
    ensures |r| >= 1
    ensures forall k :: 0 <= k < |r| ==> sep !in r[k]
  {
    if |s| == 0 then [""]
    else
      var rest := Split(s[1..], sep);
      if s[0] == sep then [""] + rest else [[s[0]] + rest[0]] + rest[1..]
  }

  /** Joining the parts of a split with the separator gives the text back. */
  lemma {:induction false} SplitJoin(s: string, sep: char)
    ensures Join(Split(s, sep), [sep]) == s
    decreases |s|
  {
    if |s| > 0 {
      var rest := Split(s[1..], sep);
      SplitJoin(s[1..], sep);
      if s[0] == sep {
        assert ([""] + rest)[1..] == rest;
        assert Join([""] + rest, [sep]) == "" + [sep] + Join(rest, [sep]);
      } else {
        var parts := [[s[0]] + rest[0]] + rest[1..];
        assert parts[1..] == rest[1..];
        if |rest| > 1 {
          assert Join(rest, [sep]) == rest[0] + [sep] + Join(rest[1..], [sep]);
          assert Join(parts, [sep]) == [s[0]] + rest[0] + [sep] + Join(rest[1..], [sep]);
        }
        assert Join(parts, [sep]) == [s[0]] + Join(rest, [sep]);
      }
    }
  }

  /** Splitting parts joined with the separator, none of which holds it, gives the parts back. */
  lemma {:induction false} JoinSplit(xs: seq<string>, sep: char)
    requires |xs| >= 1
    requires forall i :: 0 <= i < |xs| ==> sep !in xs[i]
    ensures Split(Join(xs, [sep]), sep) == xs
    decreases |xs|
  {
    if |xs| == 1 {
      SplitWhole(xs[0], sep);
    } else {
      JoinSplit(xs[1..], sep);
      SplitHead(xs[0], Join(xs[1..], [sep]), sep);
      assert [xs[0]] + xs[1..] == xs;
    }
  }

  /** A text without the separator splits into itself. */
  lemma {:induction false} SplitWhole(a: string, sep: char)
    requires sep !in a
    ensures Split(a, sep) == [a]
    decreases |a|
  {
    if |a| > 0 {
      SplitWhole(a[1..], sep);
      assert [a[0]] + a[1..] == a;
    }
  }

  /** The first separator ends the first part. */
  lemma {:induction false} SplitHead(a: string, b: string, sep: char)
    requires sep !in a
    ensures Split(a + [sep] + b, sep) == [a] + Split(b, sep)
    decreases |a|
  {
    var s := a + [sep] + b;
    if |a| == 0 {
      assert s == [sep] + b;
      assert s[1..] == b;
    } else {
      assert s[0] == a[0];
      assert s[1..] == a[1..] + [sep] + b;
      SplitHead(a[1..], b, sep);
      var rest := Split(s[1..], sep);
      assert rest == [a[1..]] + Split(b, sep);
      assert [a[0]] + a[1..] == a;
      assert rest[1..] == Split(b, sep);
    }
  }

  /** `xs.join(sep)`. */
  function Join(xs: seq<string>, sep: string): string {
    if |xs| == 0 then ""
    else if |xs| == 1 then xs[0]
    else xs[0] + sep + Join(xs[1..], sep)
  }

  /** `s.replace(c, d)`: replaces the first occurrence of the character `c` only. */
  function ReplaceFirst(s: string, c: char, d: string): string {
    if |s| == 0 then ""
    else if s[0] == c then d + s[1..]
    else [s[0]] + ReplaceFirst(s[1..], c, d)
  }

  /** A character of `s.replace(c, d)` comes from `s` or from `d`. */
  lemma {:induction false} ReplaceFirstChars(s: string, c: char, d: string, x: char)
    requires x in ReplaceFirst(s, c, d)
    ensures x in s || x in d
  {
    if |s| > 0 && s[0] != c {
      if x != s[0] {
        ReplaceFirstChars(s[1..], c, d, x);
      }
    }
  }

  /** Removes every character for which `drop` holds (a global character-class replace with ''). */
  function RemoveWhere(s: string, drop: char -> bool): (r: string)
    ensures forall k :: 0 <= k < |r| ==> !drop(r[k])
  {
    if |s| == 0 then ""
    else if drop(s[0]) then RemoveWhere(s[1..], drop)
    else [s[0]] + RemoveWhere(s[1..], drop)
  }

  /** A character kept by RemoveWhere comes from `s`. */
  lemma {:induction false} RemoveWhereChars(s: string, drop: char -> bool, x: char)
    requires x in RemoveWhere(s, drop)
    ensures x in s
  {
    if |s| > 0 && (drop(s[0]) || x != s[0]) {
      RemoveWhereChars(s[1..], drop, x);
    }
  }

  lemma {:induction false} RemoveWhereAppend(a: string, b: string, drop: char -> bool)
    ensures RemoveWhere(a + b, drop) == RemoveWhere(a, drop) + RemoveWhere(b, drop)
  {
    if |a| == 0 {
      assert a + b == b;
    } else {
      assert (a + b)[1..] == a[1..] + b;
      RemoveWhereAppend(a[1..], b, drop);
    }
  }

  lemma {:induction false} RemoveWhereKeep(s: string, drop: char -> bool)
    requires forall k :: 0 <= k < |s| ==> !drop(s[k])
    ensures RemoveWhere(s, drop) == s
  {
    if |s| > 0 {
      RemoveWhereKeep(s[1..], drop);
    }
  }

  /** The first `c` lies after a prefix without `c`. */
  lemma {:induction false} ReplaceFirstAfter(a: string, b: string, c: char, d: string)
    requires c !in a
    ensures ReplaceFirst(a + b, c, d) == a + ReplaceFirst(b, c, d)
  {
    if |a| == 0 {
      assert a + b == b;
    } else {
      assert (a + b)[1..] == a[1..] + b;
      ReplaceFirstAfter(a[1..], b, c, d);
    }
  }

  /** `s.replace(/\s+/g, '_')`: every run of white space becomes one underscore. */
  function UnderscoreSpaces(s: string): (r: string)
    ensures forall k :: 0 <= k < |r| ==> !IsSpace(r[k])
    decreases |s|
  {
    if |s| == 0 then ""
    else if IsSpace(s[0]) then "_" + UnderscoreSpaces(TrimStart(s))
    else [s[0]] + UnderscoreSpaces(s[1..])
  }

  /** A text without white space is kept as it is. */
  lemma {:induction false} UnderscoreNoSpace(s: string)
    requires NoSpace(s)
    ensures UnderscoreSpaces(s) == s
  {
    if |s| > 0 {
      assert NoSpace(s[1..]) by {
        forall k | 0 <= k < |s[1..]| ensures !IsSpace(s[1..][k]) {
          assert s[1..][k] == s[k + 1];
        }
      }
      UnderscoreNoSpace(s[1..]);
    }
  }

  /** A run of white space, after a text without white space and before a text
      that does not start with white space, becomes one '_'. */
  lemma UnderscoreRun(a: string, ws: string, b: string)
    requires NoSpace(a) && |ws| > 0 && forall k :: 0 <= k < |ws| ==> IsSpace(ws[k])
    requires b == "" || !IsSpace(b[0])
    ensures UnderscoreSpaces(a + ws + b) == a + "_" + UnderscoreSpaces(b)
  {
    UnderscoreKeepPrefix(a, ws + b);
    UnderscoreRunStart(ws, b);
    assert a + ws + b == a + (ws + b);
    assert a + "_" + UnderscoreSpaces(b) == a + ("_" + UnderscoreSpaces(b));
  }

  /** A prefix without white space is kept as it is in front of the rest. */
  lemma {:induction false} UnderscoreKeepPrefix(a: string, rest: string)
    requires NoSpace(a)
    ensures UnderscoreSpaces(a + rest) == a + UnderscoreSpaces(rest)
    decreases |a|
  {
    if |a| == 0 {
      assert a + rest == rest;
    } else {
      NoSpaceTail(a);
      UnderscoreKeepPrefix(a[1..], rest);
      UnderscoreRunCons(a, rest, UnderscoreSpaces(rest));
    }
  }

  /** A first character that is not white space is kept in front of the rest. */
  lemma UnderscoreRunCons(a: string, rest: string, u: string)
    requires |a| > 0 && !IsSpace(a[0])
    requires UnderscoreSpaces(a[1..] + rest) == a[1..] + u
    ensures UnderscoreSpaces(a + rest) == a + u
  {
    var s := a + rest;
    assert s[0] == a[0];
    assert s[1..] == a[1..] + rest;
    UnderscoreKeepHead(s);
    ConsJoin(a, u);
  }

  lemma NoSpaceTail(a: string)
    requires |a| > 0 && NoSpace(a)
    ensures NoSpace(a[1..])
  {
    forall k | 0 <= k < |a[1..]| ensures !IsSpace(a[1..][k]) {
      assert a[1..][k] == a[k + 1];
    }
  }

  lemma ConsJoin(a: string, u: string)
    requires |a| > 0
    ensures [a[0]] + (a[1..] + u) == a + u
  {
    assert [a[0]] + a[1..] == a;
  }

  lemma UnderscoreRunStart(ws: string, b: string)
    requires |ws| > 0 && forall k :: 0 <= k < |ws| ==> IsSpace(ws[k])
    requires b == "" || !IsSpace(b[0])
    ensures UnderscoreSpaces(ws + b) == "_" + UnderscoreSpaces(b)
  {
    TrimStartRun(ws, b);
    assert (ws + b)[0] == ws[0];
    UnderscoreSpaceHead(ws + b);
  }

  lemma UnderscoreSpaceHead(s: string)
    requires |s| > 0 && IsSpace(s[0])
    ensures UnderscoreSpaces(s) == "_" + UnderscoreSpaces(TrimStart(s))
  {
  }

  lemma UnderscoreKeepHead(s: string)
    requires |s| > 0 && !IsSpace(s[0])
    ensures UnderscoreSpaces(s) == [s[0]] + UnderscoreSpaces(s[1..])
  {
  }

  lemma TrimStartRun(ws: string, b: string)
    requires forall k :: 0 <= k < |ws| ==> IsSpace(ws[k])
    requires b == "" || !IsSpace(b[0])
    ensures TrimStart(ws + b) == b
  {
    var s := ws + b;
    var r := TrimStart(s);
    assert s[|ws|..] == b;
  }

  /** Decimal digits of a natural number, as String(n) writes them. */
  function NatText(n: nat): (r: string)
    ensures |r| > 0
    ensures forall k :: 0 <= k < |r| ==> '0' <= r[k] <= '9'
  {
    if n < 10 then [('0' as int + n) as char]
    else NatText(n / 10) + [('0' as int + n % 10) as char]
  }

  /** String(n) for an integer. */
  function IntText(n: int): string {
    if n < 0 then "-" + NatText(-n) else NatText(n)
  }

  predicate NoSpace(s: string) {
    forall k :: 0 <= k < |s| ==> !IsSpace(s[k])
  }

  /** String(n) holds a sign and digits only. */
  lemma IntTextNoSpace(n: int)
    ensures NoSpace(IntText(n))
  {
    var d := NatText(if n < 0 then -n else n);
    assert NoSpace(d);
    if n < 0 {
      var r := IntText(n);
      assert r == "-" + d;
      forall k | 0 <= k < |r| ensures !IsSpace(r[k]) {
        if k > 0 {
          assert r[k] == d[k - 1];
        }
      }
    }
  }

  /** The default comparison of Array.prototype.sort and `<` on strings: lexicographic by character. */
  predicate StrLt(a: string, b: string) {
    if |a| == 0 then |b| > 0
    else if |b| == 0 then false
    else if a[0] != b[0] then a[0] < b[0]
    else StrLt(a[1..], b[1..])
  }

  lemma {:induction false} StrLtTotal(a: string, b: string)
    ensures StrLt(a, b) || a == b || StrLt(b, a)
    ensures !(StrLt(a, b) && StrLt(b, a))
    ensures !StrLt(a, a)
  {
    if |a| > 0 && |b| > 0 {
      StrLtTotal(a[1..], b[1..]);
      if a[0] == b[0] && a[1..] == b[1..] {
        assert a == [a[0]] + a[1..] && b == [b[0]] + b[1..];
      }
    }
    if |a| > 0 {
      StrLtTotal(a[1..], a[1..]);
    }
  }

  lemma {:induction false} StrLtTransitive(a: string, b: string, c: string)
    requires StrLt(a, b) && StrLt(b, c)
    ensures StrLt(a, c)
  {
    if |a| > 0 && a[0] == b[0] && b[0] == c[0] {
      StrLtTransitive(a[1..], b[1..], c[1..]);
    }
  }

  /** Strictly increasing in the string order, which makes the elements distinct. */
  predicate StrictlySorted(xs: seq<string>) {
    forall i, j :: 0 <= i < j < |xs| ==> StrLt(xs[i], xs[j])
  }

  /** Inserts `x` into a strictly sorted list, unless it is already there. */
  function InsertSorted(xs: seq<string>, x: string): (r: seq<string>)
    requires StrictlySorted(xs)
    ensures StrictlySorted(r)
    ensures forall k :: k in r <==> k in xs || k == x
    decreases |xs|
  {
    if |xs| == 0 then [x]
    else if x == xs[0] then xs
    else if StrLt(x, xs[0]) then
      assert forall j :: 0 <= j < |xs| ==> StrLt(x, xs[j]) by {
        forall j | 0 <= j < |xs| ensures StrLt(x, xs[j]) {
          if j > 0 { StrLtTransitive(x, xs[0], xs[j]); }
        }
      }
      [x] + xs
    else
      StrLtTotal(x, xs[0]);
      var t := InsertSorted(xs[1..], x);
      assert forall k :: k in t ==> StrLt(xs[0], k);
      assert forall k :: k in xs ==> k == xs[0] || k in xs[1..];
      [xs[0]] + t
  }

  /** `Array.from(new Set(xs)).sort()`: the distinct elements of `xs` in ascending order. */
  function SortedDistinct(xs: seq<string>): (r: seq<string>)
    ensures StrictlySorted(r)
    ensures forall k :: k in r <==> k in xs
  {
    if |xs| == 0 then []
    else
      assert forall k :: k in xs ==> k in xs[..|xs| - 1] || k == xs[|xs| - 1];
      InsertSorted(SortedDistinct(xs[..|xs| - 1]), xs[|xs| - 1])
  }

  /** A strictly sorted list has no repeated element. */
  lemma StrictlySortedDistinct(xs: seq<string>, i: int, j: int)
    requires StrictlySorted(xs) && 0 <= i < |xs| && 0 <= j < |xs| && i != j
    ensures xs[i] != xs[j]
  {
    if i < j { StrLtTotal(xs[i], xs[j]); } else { StrLtTotal(xs[j], xs[i]); }
  }
}
