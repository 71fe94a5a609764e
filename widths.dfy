/** What the cross-wired loop of `maxLength` computes: where each width comes
    from, when it agrees with the intended one, and how it depends on the
    order in which the map is iterated. */
module WidthProperties {
  import opened Wrappers
  import opened Strconv
  import opened Errgen
  import opened CorrectedWidths
  import opened TableProperties

  /** The Message column is computed as intended: its width is the longest of
      "Message" and of the messages, plus 2. */
  lemma {:induction false} CrossWiredMessage(errors: seq<Entry>)
    ensures CrossWiredWidths(errors).message == ColumnWidths(errors).message
  {
    ScanMessage(errors);
  }

  lemma {:induction false} ScanMessage(errors: seq<Entry>)
    ensures CrossWiredScan(errors).message == ColumnMax(errors, MessageColumn)
  {
    if errors != [] {
      var n := |errors| - 1;
      ScanMessage(errors[..n]);
      ColumnMaxSnoc(errors, n, MessageColumn);
      assert errors[..n + 1] == errors;
    }
  }

  /** The Status width is 6, the starting value, or the length of some
      entry's status; the Code width is 4 or the length of some entry's code.
      Neither need be the longest of its column. */
  lemma {:induction false} ScanSources(errors: seq<Entry>)
    ensures var m := CrossWiredScan(errors);
      && (m.status == |"Status"| || exists i :: 0 <= i < |errors| && m.status == |Itoa(errors[i].1.status)|)
      && (m.code == |"Code"| || exists i :: 0 <= i < |errors| && m.code == |Itoa(errors[i].1.code)|)
  {
    if errors != [] {
      var n := |errors| - 1;
      var init := errors[..n];
      ScanSources(init);
      var m0 := CrossWiredScan(init);
      var m := CrossWiredScan(errors);
      if m.status == m0.status && m.status != |"Status"| {
        var i :| 0 <= i < n && m0.status == |Itoa(init[i].1.status)|;
        assert init[i] == errors[i];
      }
      if m.code == m0.code && m.code != |"Code"| {
        var i :| 0 <= i < n && m0.code == |Itoa(init[i].1.code)|;
        assert init[i] == errors[i];
      }
    }
  }

  /** Every width `maxLength` returns is at least 3: a number's text is never
      empty. The Message width never drops below "Message" plus 2. */
  lemma {:induction false} CrossWiredFloor(errors: seq<Entry>)
    ensures CrossWiredWidths(errors).status >= 3
    ensures CrossWiredWidths(errors).code >= 3
    ensures CrossWiredWidths(errors).message >= |"Message"| + 2
  {
    ScanFloor(errors);
    CrossWiredMessage(errors);
    ColumnMaxBounds(errors, MessageColumn);
  }

  lemma {:induction false} ScanFloor(errors: seq<Entry>)
    ensures CrossWiredScan(errors).status >= 1 && CrossWiredScan(errors).code >= 1
  {
    if errors != [] {
      ScanFloor(errors[..|errors| - 1]);
    }
  }

  /** While no code is longer than 6 characters and no status longer than 4,
      the loop never touches the Status and Code widths: they stay 8 and 6. */
  lemma {:induction false} CrossWiredShortValues(errors: seq<Entry>)
    requires forall i :: 0 <= i < |errors| ==> |Itoa(errors[i].1.code)| <= 6 && |Itoa(errors[i].1.status)| <= 4
    ensures CrossWiredWidths(errors).status == 8 && CrossWiredWidths(errors).code == 6
  {
    ScanShortValues(errors);
  }

  lemma {:induction false} ScanShortValues(errors: seq<Entry>)
    requires forall i :: 0 <= i < |errors| ==> |Itoa(errors[i].1.code)| <= 6 && |Itoa(errors[i].1.status)| <= 4
    ensures CrossWiredScan(errors).status == 6 && CrossWiredScan(errors).code == 4
  {
    if errors != [] {
      var n := |errors| - 1;
      assert forall i :: 0 <= i < n ==> errors[..n][i] == errors[i];
      ScanShortValues(errors[..n]);
    }
  }

  /** The same in terms of the numbers: codes above -100000 and below
      1000000, statuses above -1000 and below 10000. */
  lemma NumericShortValues(errors: seq<Entry>)
    requires forall i :: 0 <= i < |errors| ==>
      -100000 < errors[i].1.code < 1000000 && -1000 < errors[i].1.status < 10000
    ensures CrossWiredWidths(errors).status == 8 && CrossWiredWidths(errors).code == 6
  {
    forall i | 0 <= i < |errors|
      ensures |Itoa(errors[i].1.code)| <= 6 && |Itoa(errors[i].1.status)| <= 4
    {
      ItoaLength(errors[i].1.code, 6);
      ItoaLength(errors[i].1.status, 4);
    }
    CrossWiredShortValues(errors);
  }

  /** With such short numbers `GenerateMarkdown` does not panic, whatever
      order `maxLength` visits the map in: every status fits 8 columns, every
      code 6, and the Message column is wide enough. */
  lemma ShortValuesRender(errors: seq<Entry>, scanOrder: seq<Entry>)
    requires multiset(scanOrder) == multiset(errors)
    requires forall i :: 0 <= i < |errors| ==> |Itoa(errors[i].1.code)| <= 6 && |Itoa(errors[i].1.status)| <= 4
    ensures MarkdownText(errors, CrossWiredWidths(scanOrder)).Some?
  {
    forall i | 0 <= i < |scanOrder|
      ensures |Itoa(scanOrder[i].1.code)| <= 6 && |Itoa(scanOrder[i].1.status)| <= 4
    {
      assert scanOrder[i] in multiset(errors);
      var j :| 0 <= j < |errors| && errors[j] == scanOrder[i];
    }
    var w := CrossWiredWidths(scanOrder);
    CrossWiredShortValues(scanOrder);
    CrossWiredMessage(scanOrder);
    CrossWiredMessage(errors);
    ColumnWidthsOrderFree(scanOrder, errors);
    CrossWiredMessageFits(errors);
    assert forall i :: 0 <= i < |errors| ==> EntryFits(errors[i].1, w);
    TableFits(errors, w);
  }

  /** Every message fits the Message column `maxLength` returns. */
  lemma CrossWiredMessageFits(errors: seq<Entry>)
    ensures forall i :: 0 <= i < |errors| ==> |errors[i].1.message| + 2 <= CrossWiredWidths(errors).message
    ensures |"Message"| + 2 <= CrossWiredWidths(errors).message
  {
    CrossWiredMessage(errors);
    ColumnMaxBounds(errors, MessageColumn);
    forall i | 0 <= i < |errors|
      ensures |errors[i].1.message| + 2 <= CrossWiredWidths(errors).message
    {
      assert CellText(errors[i].1, MessageColumn) == errors[i].1.message;
    }
  }

  const Long := Error(1234567, 1, "")
  const Wide := Error(100, 123456789, "")

  /** The widths depend on the order in which the map is iterated: the same
      two entries give a Status width of 11 in one order and 3 in the other. */
  lemma OrderMatters()
    ensures CrossWiredWidths([("a", Long), ("b", Wide)]).status == 11
    ensures CrossWiredWidths([("b", Wide), ("a", Long)]).status == 3
  {
    var ab: seq<Entry> := [("a", Long), ("b", Wide)];
    var ba: seq<Entry> := [("b", Wide), ("a", Long)];
    assert |Itoa(1234567)| == 7 && |Itoa(1)| == 1 && |Itoa(100)| == 3 && |Itoa(123456789)| == 9;
    assert ab[..1] == [("a", Long)] && ba[..1] == [("b", Wide)];
    assert CrossWiredScan([("a", Long)]) == Widths(1, 4, 7);
    assert CrossWiredScan([("b", Wide)]) == Widths(6, 3, 7);
  }

  /** A width can shrink below its header: one entry with a 7-digit code
      leaves the Status column 3 wide. */
  lemma WidthShrinks()
    ensures CrossWiredWidths([("a", Long)]).status == 3 < |"Status"|
  {
    var a: seq<Entry> := [("a", Long)];
    assert |Itoa(1234567)| == 7 && |Itoa(1)| == 1;
    assert a[..0] == [];
    assert CrossWiredScan(a) == CrossWiredStep(HeaderWidths, Long);
  }

  const SevenDigits := Error(1000000, 1000000, "")
  const EightDigitCode := Error(10000000, 1000000, "")

  lemma ScanOrderWidths()
    ensures CrossWiredWidths([("x", SevenDigits), ("w", EightDigitCode)]) == Widths(9, 9, 9)
    ensures CrossWiredWidths([("w", EightDigitCode), ("x", SevenDigits)]) == Widths(9, 10, 9)
  {
    var xw: seq<Entry> := [("x", SevenDigits), ("w", EightDigitCode)];
    var wx: seq<Entry> := [("w", EightDigitCode), ("x", SevenDigits)];
    assert |Itoa(1000000)| == 7 && |Itoa(10000000)| == 8;
    assert xw[..1] == [xw[0]] && wx[..1] == [wx[0]];
    assert [xw[0]][..0] == [] && [wx[0]][..0] == [];
    assert CrossWiredScan([xw[0]]) == Widths(7, 7, 7);
    assert CrossWiredScan([wx[0]]) == Widths(7, 8, 7);
  }

  /** The two loops over the map are separate `range`s, each in its own
      order: the same two entries, written in the same order, are drawn as
      two different tables depending on the order `maxLength` visits them. */
  lemma ScanOrderMatters()
    ensures var rows: seq<Entry> := [("x", SevenDigits), ("w", EightDigitCode)];
      var w1 := CrossWiredWidths(rows);
      var w2 := CrossWiredWidths([rows[1], rows[0]]);
      && w1 == Widths(9, 9, 9) && w2 == Widths(9, 10, 9)
      && MarkdownText(rows, w1).Some? && MarkdownText(rows, w2).Some?
      && |RowText(HeaderRow(w1)).value| == 32 && |RowText(HeaderRow(w2)).value| == 33
  {
    var rows: seq<Entry> := [("x", SevenDigits), ("w", EightDigitCode)];
    assert [rows[1], rows[0]] == [("w", EightDigitCode), ("x", SevenDigits)];
    ScanOrderWidths();
    assert |Itoa(1000000)| == 7 && |Itoa(10000000)| == 8;
    var w1, w2 := Widths(9, 9, 9), Widths(9, 10, 9);
    TableFits(rows, w1);
    TableFits(rows, w2);
    HeaderFramed(w1);
    HeaderFramed(w2);
  }
}
