/** Two tables written out in full: the table of an empty configuration and
    that of a single 404 error. */
module Scenarios {
  import opened Wrappers
  import opened GoStrings
  import opened Strconv
  import opened Errgen
  import opened TableProperties

  /** The text of a table, spelled out from its lines. */
  lemma TableText(errors: seq<Entry>, w: Widths, header: string, sep: string, rows: seq<string>)
    requires RowText(HeaderRow(w)) == Some(header) && SeparatorLine(w) == Some(sep)
    requires EntryLines(errors, w) == Some(rows)
    ensures MarkdownText(errors, w) == Some(header + sep + Concat(rows))
  {
    assert [header, sep][..1] == [header] && [header][..0] == [];
    assert Concat([header]) == header by {
      assert Concat([header]) == "" + header;
    }
    assert Concat([header, sep]) == header + sep;
    ConcatAppend([header, sep], rows);
  }

  lemma CenterOne(s: string)
    requires |s| < MaxWidth
    ensures AlignCenter(s, |s| + 2) == Some(" " + s + " ")
  {
    AlignCenterForm(s, |s| + 2);
    assert Run(' ', 1) == " ";
  }

  lemma CenterTwo(s: string)
    requires |s| < MaxWidth
    ensures AlignCenter(s, |s| + 4) == Some("  " + s + "  ")
  {
    AlignCenterForm(s, |s| + 4);
    assert Run(' ', 2) == "  ";
  }

  lemma CenterOdd(s: string)
    requires |s| < MaxWidth
    ensures AlignCenter(s, |s| + 3) == Some("  " + s + " ")
    ensures AlignCenter(s, |s| + 5) == Some("   " + s + "  ")
  {
    AlignCenterForm(s, |s| + 3);
    AlignCenterForm(s, |s| + 5);
    assert Run(' ', 1) == " " && Run(' ', 2) == "  " && Run(' ', 3) == "   ";
  }

  lemma EmptyHeaderCells()
    ensures RowText(HeaderRow(Widths(8, 6, 9))) ==
      Some("|" + " Status " + "|" + " Code " + "|" + " Message " + "|" + "\n")
  {
    CenterOne("Status");
    CenterOne("Code");
    CenterOne("Message");
    assert " " + "Status" + " " == " Status ";
    assert " " + "Code" + " " == " Code ";
    assert " " + "Message" + " " == " Message ";
    HeaderLine(Widths(8, 6, 9));
  }

  lemma EmptyHeader()
    ensures RowText(HeaderRow(Widths(8, 6, 9))) == Some("| Status | Code | Message |\n")
  {
    EmptyHeaderCells();
    EmptyHeaderText();
  }

  /** Joins a line's pieces into one literal; kept apart from the lemma that
      uses it so that the solver compares the literals on their own. */
  lemma EmptyHeaderText()
    ensures "|" + " Status " + "|" + " Code " + "|" + " Message " + "|" + "\n" == "| Status | Code | Message |\n"
  {
  }

  lemma EmptySeparator()
    ensures SeparatorLine(Widths(8, 6, 9)) == Some("|--------|------|---------|\n")
  {
    SeparatorForm(Widths(8, 6, 9));
    assert Run('-', 8) == "--------" && Run('-', 6) == "------" && Run('-', 9) == "---------";
    assert "|" + "--------" + "|" + "------" + "|" + "---------" + "|" + "\n" == "|--------|------|---------|\n";
  }

  /** With no errors the document is the header and the separator. */
  lemma EmptyTable()
    ensures CrossWiredWidths([]) == Widths(8, 6, 9)
    ensures MarkdownText([], CrossWiredWidths([])) ==
      Some("| Status | Code | Message |\n" + "|--------|------|---------|\n")
  {
    EmptyHeader();
    EmptySeparator();
    assert CrossWiredWidths([]) == Widths(8, 6, 9);
    assert EntryTexts([], Widths(8, 6, 9)) == [];
    assert EntryLines([], Widths(8, 6, 9)) == Some([]);
    TableText([], Widths(8, 6, 9), "| Status | Code | Message |\n", "|--------|------|---------|\n", []);
    assert Concat([]) == "";
    assert "| Status | Code | Message |\n" + "|--------|------|---------|\n" + ""
      == "| Status | Code | Message |\n" + "|--------|------|---------|\n";
  }

  /** The error of the example: a 404 named NotFound. */
  const NotFound: Entry := ("NotFound", Error(404, 404, "not found"))

  lemma Itoa404()
    ensures Itoa(404) == "404"
  {
    assert Digits(4) == "4" && Digits(40) == "40";
  }

  lemma NotFoundWidths()
    ensures CrossWiredWidths([NotFound]) == Widths(8, 6, 11)
  {
    Itoa404();
    var a: seq<Entry> := [NotFound];
    assert a[..0] == [];
    assert CrossWiredScan(a) == CrossWiredStep(HeaderWidths, NotFound.1);
  }

  lemma NotFoundHeader()
    ensures RowText(HeaderRow(Widths(8, 6, 11))) == Some("| Status | Code |  Message  |\n")
  {
    CenterOne("Status");
    CenterOne("Code");
    CenterTwo("Message");
    assert " " + "Status" + " " == " Status ";
    assert " " + "Code" + " " == " Code ";
    assert "  " + "Message" + "  " == "  Message  ";
    HeaderLine(Widths(8, 6, 11));
    NotFoundHeaderText();
  }

  /** Joins a line's pieces into one literal; kept apart from the lemma that
      uses it so that the solver compares the literals on their own. */
  lemma NotFoundHeaderText()
    ensures "|" + " Status " + "|" + " Code " + "|" + "  Message  " + "|" + "\n" == "| Status | Code |  Message  |\n"
  {
  }

  lemma NotFoundSeparator()
    ensures SeparatorLine(Widths(8, 6, 11)) == Some("|--------|------|-----------|\n")
  {
    SeparatorForm(Widths(8, 6, 11));
    assert Run('-', 8) == "--------" && Run('-', 6) == "------" && Run('-', 11) == "-----------";
    assert "|" + "--------" + "|" + "------" + "|" + "-----------" + "|" + "\n" == "|--------|------|-----------|\n";
  }

  lemma NotFoundRow()
    ensures RowText(EntryRow(NotFound.1, Widths(8, 6, 11))) == Some("|   404  |  404 | not found |\n")
  {
    Itoa404();
    CenterOdd("404");
    CenterOne("not found");
    assert "   " + "404" + "  " == "   404  ";
    assert "  " + "404" + " " == "  404 ";
    assert " " + "not found" + " " == " not found ";
    EntryLine(NotFound.1, Widths(8, 6, 11));
    NotFoundRowText();
  }

  /** Joins a line's pieces into one literal; kept apart from the lemma that
      uses it so that the solver compares the literals on their own. */
  lemma NotFoundRowText()
    ensures "|" + "   404  " + "|" + "  404 " + "|" + " not found " + "|" + "\n" == "|   404  |  404 | not found |\n"
  {
  }

  /** One 404 error: the Code column is 6 wide, so the code is centred with
      its extra blank on the left. */
  lemma NotFoundTable()
    ensures MarkdownText([NotFound], CrossWiredWidths([NotFound])) ==
      Some("| Status | Code |  Message  |\n" + "|--------|------|-----------|\n" + "|   404  |  404 | not found |\n")
  {
    var w := Widths(8, 6, 11);
    var row := "|   404  |  404 | not found |\n";
    NotFoundWidths();
    NotFoundHeader();
    NotFoundSeparator();
    NotFoundRow();
    assert EntryTexts([NotFound], w) == [Some(row)];
    assert Collect([Some(row)]) == Some([row]) by {
      assert [Some(row)][..0] == [];
      assert [] + [row] == [row];
    }
    assert Concat([row]) == row by {
      assert [row][..0] == [];
      assert Concat([row]) == "" + row;
    }
    TableText([NotFound], w, "| Status | Code |  Message  |\n", "|--------|------|-----------|\n", [row]);
  }
}
