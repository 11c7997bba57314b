/** Ordered keyword tables. The source writes them as object literals
    whose string keys iterate in insertion order, and scans them with a
    `for ... of` loop that stops at the first key the text contains. */
module Keywords {
  import opened Options
  import opened Text
  import opened Seqs

  type Table = seq<(string, string)>

  /** The stage table of the legacy sheet parser. */
  const StageKeywords: Table := [
    ("DISCOVERY", "Discovery"), ("MAPEAMENTO", "Discovery"), ("DELIVERY", "Delivery"),
    ("DESENVOLVIMENTO", "Desenvolvimento"), ("DEV", "Desenvolvimento"),
    ("HOMOLOGAÇÃO", "Homologação"), ("QA", "Homologação"),
    ("ROLLOUT", "Implantação"), ("IMPLANTAÇÃO", "Implantação")]

  /** The phase table of the second front end's Gantt chart, which adds unaccented spellings. */
  const PhaseKeywords: Table := [
    ("DISCOVERY", "Discovery"), ("MAPEAMENTO", "Discovery"), ("DELIVERY", "Delivery"),
    ("DESENVOLVIMENTO", "Desenvolvimento"), ("DEV", "Desenvolvimento"),
    ("HOMOLOGAÇÃO", "Homologação"), ("HOMOLOGACAO", "Homologação"), ("QA", "Homologação"),
    ("ROLLOUT", "Implantação"), ("IMPLANTAÇÃO", "Implantação"), ("IMPLANTACAO", "Implantação")]

  /** The entries of `table` whose key occurs in `text`. */
  function KeyIn(text: string): ((string, string)) -> bool {
    (kv: (string, string)) => Contains(text, kv.0)
  }

  /** The label of the first entry, in table order, whose key occurs in `text`. */
  function FirstMatch(table: Table, text: string): (r: Option<string>)
    ensures r.None? <==> forall i :: 0 <= i < |table| ==> !Contains(text, table[i].0)
    ensures r.Some? ==> exists i :: (0 <= i < |table| && Contains(text, table[i].0)
      && r.value == table[i].1 && forall j :: 0 <= j < i ==> !Contains(text, table[j].0))
  {
    var i := FindIndex(table, KeyIn(text));
    if i < 0 then None else Some(table[i].1)
  }

  /** The keyword loop: scans the table in order and stops at the first key found. */
  method FindLabel(table: Table, text: string) returns (found: Option<string>)
    ensures found == FirstMatch(table, text)
  {
    var i := 0;
    while i < |table|
      invariant 0 <= i <= |table|
      invariant forall j :: 0 <= j < i ==> !Contains(text, table[j].0)
    {
      if Contains(text, table[i].0) {
        found := Some(table[i].1);
        assert FindIndex(table, KeyIn(text)) == i;
        return;
      }
      i := i + 1;
    }
    found := None;
  }

  /** A task named "HOMOLOGAÇÃO QA" matches two keys but counts once, for Homologação. */
  lemma HomologationCountsOnce()
    ensures FirstMatch(StageKeywords, "HOMOLOGAÇÃO QA") == Some("Homologação")
  {
    var t := "HOMOLOGAÇÃO QA";
    var table := StageKeywords;
    assert StartsWith(t, "HOMOLOGAÇÃO");
    assert table[5].0 == "HOMOLOGAÇÃO";
    assert 'D' !in t && 'P' !in t;
    forall j | 0 <= j < 5 ensures !Contains(t, table[j].0) {
      if j == 1 {
        assert table[1].0 == "MAPEAMENTO";
        MissingChar(t, "MAPEAMENTO", 2);
      } else {
        assert table[j].0[0] == 'D';
        MissingChar(t, table[j].0, 0);
      }
    }
    FirstMatchAt(table, t, 5);
  }

  /** The entry at `n` decides the match when no earlier key occurs. */
  lemma FirstMatchAt(table: Table, text: string, n: int)
    requires 0 <= n < |table| && Contains(text, table[n].0)
    requires forall j :: 0 <= j < n ==> !Contains(text, table[j].0)
    ensures FirstMatch(table, text) == Some(table[n].1)
  {
  }

  /** A key with a character that the text lacks does not occur in it. */
  lemma MissingChar(s: string, p: string, k: int)
    requires 0 <= k < |p| && p[k] !in s
    ensures !Contains(s, p)
  {
    ContainsIff(s, p);
  }
}
