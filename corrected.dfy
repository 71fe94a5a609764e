/** The column widths `maxLength` is evidently meant to compute: for each
    column, the longest of its header and of its values, plus 2. This is
    the corrected counterpart of the cross-wired loop in `Errgen.MaxLength`. */
module CorrectedWidths {
  import opened Wrappers
  import opened Strconv
  import opened Errgen

  /** The length of the longest of `texts`, or `floor` when that is longer:
      at least `floor` and every text (`LongestAttained`: and equal to one of
      them). */
  function Longest(floor: nat, texts: seq<string>): (m: nat)
    ensures floor <= m
    ensures forall i :: 0 <= i < |texts| ==> |texts[i]| <= m
  {
    if texts == [] then floor
    else
      var n := |texts| - 1;
      var m := Longest(floor, texts[..n]);
      assert forall i :: 0 <= i < n ==> texts[..n][i] == texts[i];
      if |texts[n]| > m then |texts[n]| else m
  }

  lemma {:induction false} LongestAttained(floor: nat, texts: seq<string>)
    ensures Longest(floor, texts) == floor ||
      exists i :: 0 <= i < |texts| && Longest(floor, texts) == |texts[i]|
  {
    if texts != [] {
      var n := |texts| - 1;
      LongestAttained(floor, texts[..n]);
      var m := Longest(floor, texts[..n]);
      if m != floor && Longest(floor, texts) == m {
        var i :| 0 <= i < n && m == |texts[..n][i]|;
        assert texts[..n][i] == texts[i];
      }
    }
  }

  /** The texts of column `c`, one per entry. */
  function ColumnTexts(errors: seq<Entry>, c: Column): (r: seq<string>)
    ensures |r| == |errors|
    ensures forall i :: 0 <= i < |errors| ==> r[i] == CellText(errors[i].1, c)
  {
    seq(|errors|, i requires 0 <= i < |errors| => CellText(errors[i].1, c))
  }

  /** The longest text in column `c`, header included. */
  function ColumnMax(errors: seq<Entry>, c: Column): nat
  {
    Longest(|Header(c)|, ColumnTexts(errors, c))
  }

  /** The longest text of column `c` is at least the header and every value
      of the column, and equal to one of them. */
  lemma ColumnMaxBounds(errors: seq<Entry>, c: Column)
    ensures |Header(c)| <= ColumnMax(errors, c)
    ensures forall i :: 0 <= i < |errors| ==> |CellText(errors[i].1, c)| <= ColumnMax(errors, c)
    ensures ColumnMax(errors, c) == |Header(c)| ||
      exists i :: 0 <= i < |errors| && ColumnMax(errors, c) == |CellText(errors[i].1, c)|
  {
    var texts := ColumnTexts(errors, c);
    LongestAttained(|Header(c)|, texts);
    if ColumnMax(errors, c) != |Header(c)| {
      var i :| 0 <= i < |texts| && ColumnMax(errors, c) == |texts[i]|;
      assert ColumnMax(errors, c) == |CellText(errors[i].1, c)|;
    }
  }

  /** One more entry raises the longest text of a column to that entry's
      text when it is longer. */
  lemma ColumnMaxSnoc(errors: seq<Entry>, i: nat, c: Column)
    requires i < |errors|
    ensures var m, t := ColumnMax(errors[..i], c), |CellText(errors[i].1, c)|;
      ColumnMax(errors[..i + 1], c) == if t > m then t else m
  {
    var texts := ColumnTexts(errors[..i + 1], c);
    assert texts[..i] == ColumnTexts(errors[..i], c);
  }

  /** The widths of the corrected table. */
  function ColumnWidths(errors: seq<Entry>): Widths
  {
    AddMargin(ColumnMaxes(errors))
  }

  /** The widths before the `+= 2`, after the entries `errors`. */
  function ColumnMaxes(errors: seq<Entry>): Widths
  {
    Widths(ColumnMax(errors, StatusColumn), ColumnMax(errors, CodeColumn), ColumnMax(errors, MessageColumn))
  }

  /** The body of the corrected loop for one error `value`. */
  method MaxLengthFixedStep(l0: map<string, int>, value: Error) returns (l: map<string, int>)
    requires l0.Keys == {"Status", "Code", "Message"}
    ensures l.Keys == {"Status", "Code", "Message"}
    ensures WidthsOf(l) == Widths(
      if |Itoa(value.status)| > Lookup(l0, "Status") then |Itoa(value.status)| else Lookup(l0, "Status"),
      if |Itoa(value.code)| > Lookup(l0, "Code") then |Itoa(value.code)| else Lookup(l0, "Code"),
      if |value.message| > Lookup(l0, "Message") then |value.message| else Lookup(l0, "Message"))
  {
    l := l0;
    if |Itoa(value.status)| > l["Status"] {
      l := l["Status" := |Itoa(value.status)|];
    }
    if |Itoa(value.code)| > l["Code"] {
      l := l["Code" := |Itoa(value.code)|];
    }
    if |value.message| > l["Message"] {
      l := l["Message" := |value.message|];
    }
  }

  lemma ColumnMaxesSnoc(errors: seq<Entry>, i: nat)
    requires i < |errors|
    ensures var m, e := ColumnMaxes(errors[..i]), errors[i].1;
      ColumnMaxes(errors[..i + 1]) == Widths(
        if |Itoa(e.status)| > m.status then |Itoa(e.status)| else m.status,
        if |Itoa(e.code)| > m.code then |Itoa(e.code)| else m.code,
        if |e.message| > m.message then |e.message| else m.message)
  {
    ColumnMaxSnoc(errors, i, StatusColumn);
    ColumnMaxSnoc(errors, i, CodeColumn);
    ColumnMaxSnoc(errors, i, MessageColumn);
  }

  /** `maxLength`'s loop with each column compared against its own values. */
  method MaxLengthFixed(cfg: Config) returns (l: map<string, int>)
    ensures l.Keys == {"Status", "Code", "Message"}
    ensures WidthsOf(l) == ColumnWidths(cfg.errors)
  {
    var errors := cfg.errors;
    l := map["Status" := |"Status"|, "Code" := |"Code"|, "Message" := |"Message"|];
    for i := 0 to |errors|
      invariant l.Keys == {"Status", "Code", "Message"}
      invariant WidthsOf(l) == ColumnMaxes(errors[..i])
    {
      ColumnMaxesSnoc(errors, i);
      l := MaxLengthFixedStep(l, errors[i].1);
    }
    assert errors[..|errors|] == errors;
    l := l["Status" := l["Status"] + 2];
    l := l["Code" := l["Code"] + 2];
    l := l["Message" := l["Message"] + 2];
  }

  /** Every width of the corrected table is its header's length plus 2 or
      one of its values' lengths plus 2, and at least all of them. */
  lemma ColumnWidthsTight(errors: seq<Entry>, c: Column)
    ensures Width(ColumnWidths(errors), c) >= |Header(c)| + 2
    ensures forall i :: 0 <= i < |errors| ==> Width(ColumnWidths(errors), c) >= |CellText(errors[i].1, c)| + 2
    ensures Width(ColumnWidths(errors), c) == |Header(c)| + 2 ||
      exists i :: 0 <= i < |errors| && Width(ColumnWidths(errors), c) == |CellText(errors[i].1, c)| + 2
  {
    ColumnMaxBounds(errors, c);
  }

  /** The corrected widths do not depend on the order in which the map was
      iterated: any reordering of the entries gives the same widths. */
  lemma ColumnWidthsOrderFree(xs: seq<Entry>, ys: seq<Entry>)
    requires multiset(xs) == multiset(ys)
    ensures ColumnWidths(xs) == ColumnWidths(ys)
  {
    ColumnMaxOrderFree(xs, ys, StatusColumn);
    ColumnMaxOrderFree(xs, ys, CodeColumn);
    ColumnMaxOrderFree(xs, ys, MessageColumn);
  }

  lemma ColumnMaxOrderFree(xs: seq<Entry>, ys: seq<Entry>, c: Column)
    requires multiset(xs) == multiset(ys)
    ensures ColumnMax(xs, c) == ColumnMax(ys, c)
  {
    ColumnMaxBelow(xs, ys, c);
    ColumnMaxBelow(ys, xs, c);
  }

  lemma ColumnMaxBelow(xs: seq<Entry>, ys: seq<Entry>, c: Column)
    requires multiset(xs) == multiset(ys)
    ensures ColumnMax(xs, c) <= ColumnMax(ys, c)
  {
    var m := ColumnMax(xs, c);
    ColumnMaxBounds(xs, c);
    if m != |Header(c)| {
      var i :| 0 <= i < |xs| && m == |CellText(xs[i].1, c)|;
      assert xs[i] in multiset(ys);
      var j :| 0 <= j < |ys| && ys[j] == xs[i];
    }
  }
}
