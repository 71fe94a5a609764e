/** Properties of the table `GenerateMarkdown` draws with given widths: when
    it panics, how many lines it has and in what order, the frame every line
    shares, and the values that can be read back from its cells. */
module TableProperties {
  import opened Wrappers
  import opened GoStrings
  import opened Strconv
  import opened Errgen
  import opened RowProperties

  /** The header fits the widths: no header cell panics. */
  predicate HeaderFits(w: Widths)
  {
    |"Status"| <= w.status && |"Code"| <= w.code && |"Message"| <= w.message
  }

  /** The entry fits the widths: none of its cells panics. */
  predicate EntryFits(e: Error, w: Widths)
  {
    |Itoa(e.status)| <= w.status && |Itoa(e.code)| <= w.code && |e.message| <= w.message
  }

  /** No value of the entry is too long for `fmt` to take its length as a
      `*` width, so no cell of its line is oversized. */
  predicate Formattable(e: Error)
  {
    |Itoa(e.status)| < MaxWidth && |Itoa(e.code)| < MaxWidth && |e.message| < MaxWidth
  }

  /** Codes and statuses are Go `int`s: only a message can make an entry
      oversized. */
  lemma GoIntsFormattable(e: Error)
    requires -0x8000_0000_0000_0000 <= e.status < 0x8000_0000_0000_0000
    requires -0x8000_0000_0000_0000 <= e.code < 0x8000_0000_0000_0000
    requires |e.message| < MaxWidth
    ensures Formattable(e)
  {
    assert Pow10(19) == 10_000_000_000_000_000_000 by {
      assert Pow10(1) == 10 && Pow10(2) == 100 && Pow10(3) == 1000 && Pow10(4) == 10000 &&
        Pow10(5) == 100000 && Pow10(6) == 1000000 && Pow10(7) == 10000000 && Pow10(8) == 100000000 &&
        Pow10(9) == 1000000000 && Pow10(10) == 10000000000 && Pow10(11) == 100000000000 && Pow10(12) == 1000000000000 &&
        Pow10(13) == 10000000000000 && Pow10(14) == 100000000000000 && Pow10(15) == 1000000000000000 && Pow10(16) == 10000000000000000 &&
        Pow10(17) == 100000000000000000 && Pow10(18) == 1000000000000000000;
    }
    ItoaLength(e.status, 20);
    ItoaLength(e.code, 20);
  }

  lemma HeaderRowFits(w: Widths)
    ensures RowText(HeaderRow(w)).Some? <==> HeaderFits(w)
  {
    Row3(Cell("Status", w.status), Cell("Code", w.code), Cell("Message", w.message));
  }

  lemma EntryRowFits(e: Error, w: Widths)
    ensures RowText(EntryRow(e, w)).Some? <==> EntryFits(e, w)
  {
    Row3(Cell(Itoa(e.status), w.status), Cell(Itoa(e.code), w.code), Cell(e.message, w.message));
  }

  /** The line of a fitting entry. */
  lemma EntryLine(e: Error, w: Widths)
    requires EntryFits(e, w)
    ensures RowText(EntryRow(e, w)) == Some("|" + AlignCenter(Itoa(e.status), w.status).value
      + "|" + AlignCenter(Itoa(e.code), w.code).value
      + "|" + AlignCenter(e.message, w.message).value + "|" + "\n")
  {
    Row3(Cell(Itoa(e.status), w.status), Cell(Itoa(e.code), w.code), Cell(e.message, w.message));
  }

  /** The header line of fitting widths. */
  lemma HeaderLine(w: Widths)
    requires HeaderFits(w)
    ensures RowText(HeaderRow(w)) == Some("|" + AlignCenter("Status", w.status).value
      + "|" + AlignCenter("Code", w.code).value
      + "|" + AlignCenter("Message", w.message).value + "|" + "\n")
  {
    Row3(Cell("Status", w.status), Cell("Code", w.code), Cell("Message", w.message));
  }

  lemma SeparatorForm(w: Widths)
    requires w.status >= 0 && w.code >= 0 && w.message >= 0
    ensures SeparatorLine(w) == Some("|" + Run('-', w.status) + "|" + Run('-', w.code)
      + "|" + Run('-', w.message) + "|" + "\n")
  {
  }

  /** The table panics exactly when the header or some entry is wider than
      its column; the separator never panics once the header fits. */
  lemma TableFits(errors: seq<Entry>, w: Widths)
    ensures TableLines(errors, w).Some? <==>
      HeaderFits(w) && forall i :: 0 <= i < |errors| ==> EntryFits(errors[i].1, w)
  {
    Row3(Cell("Status", w.status), Cell("Code", w.code), Cell("Message", w.message));
    var texts := EntryTexts(errors, w);
    CollectShape(texts);
    forall i | 0 <= i < |errors|
      ensures texts[i].Some? <==> EntryFits(errors[i].1, w)
    {
      EntryRowFits(errors[i].1, w);
    }
  }

  /** One data line per entry, in iteration order. */
  lemma EntryLinesShape(errors: seq<Entry>, w: Widths)
    requires EntryLines(errors, w).Some?
    ensures var rows := EntryLines(errors, w).value;
      && |rows| == |errors|
      && forall i :: 0 <= i < |errors| ==> RowText(EntryRow(errors[i].1, w)) == Some(rows[i])
  {
    CollectShape(EntryTexts(errors, w));
  }

  /** N entries give N + 2 lines: the header, the separator, then the data
      lines. */
  lemma TableShape(errors: seq<Entry>, w: Widths)
    requires TableLines(errors, w).Some?
    ensures EntryLines(errors, w).Some?
    ensures var lines := TableLines(errors, w).value;
      && |lines| == |errors| + 2
      && lines[0] == RowText(HeaderRow(w)).value
      && lines[1] == SeparatorLine(w).value
      && lines[2..] == EntryLines(errors, w).value
  {
    EntryLinesShape(errors, w);
    var lines := TableLines(errors, w).value;
    assert lines[2..] == EntryLines(errors, w).value;
  }

  /** The frame every line of a table with widths `w` has: the same length,
      a pipe at the same four places, and the newline last. */
  predicate Framed(line: string, w: Widths)
    requires w.status >= 0 && w.code >= 0 && w.message >= 0
  {
    && |line| == w.status + w.code + w.message + 5
    && line[0] == '|'
    && line[w.status + 1] == '|'
    && line[w.status + w.code + 2] == '|'
    && line[w.status + w.code + w.message + 3] == '|'
    && line[w.status + w.code + w.message + 4] == '\n'
  }

  /** The text between the pipes of column `c`. */
  function Slot(line: string, w: Widths, c: Column): string
    requires w.status >= 0 && w.code >= 0 && w.message >= 0
    requires Framed(line, w)
  {
    match c
    case StatusColumn => line[1..w.status + 1]
    case CodeColumn => line[w.status + 2..w.status + w.code + 2]
    case MessageColumn => line[w.status + w.code + 3..w.status + w.code + w.message + 3]
  }

  lemma Frame(a: string, b: string, c: string)
    ensures var line := "|" + a + "|" + b + "|" + c + "|" + "\n";
      var w := Widths(|a|, |b|, |c|);
      Framed(line, w) && Slot(line, w, StatusColumn) == a && Slot(line, w, CodeColumn) == b
      && Slot(line, w, MessageColumn) == c
  {
    var line := "|" + a + "|" + b + "|" + c + "|" + "\n";
    assert line[1..|a| + 1] == a;
    assert line[|a| + 2..|a| + |b| + 2] == b;
    assert line[|a| + |b| + 3..|a| + |b| + |c| + 3] == c;
  }

  lemma HeaderFramed(w: Widths)
    requires RowText(HeaderRow(w)).Some?
    ensures w.status >= 0 && w.code >= 0 && w.message >= 0
    ensures Framed(RowText(HeaderRow(w)).value, w)
  {
    HeaderRowFits(w);
    HeaderLine(w);
    Frame(AlignCenter("Status", w.status).value, AlignCenter("Code", w.code).value,
      AlignCenter("Message", w.message).value);
  }

  lemma SeparatorFramed(w: Widths)
    requires w.status >= 0 && w.code >= 0 && w.message >= 0
    ensures var sep := SeparatorLine(w).value;
      && Framed(sep, w)
      && Slot(sep, w, StatusColumn) == Run('-', w.status)
      && Slot(sep, w, CodeColumn) == Run('-', w.code)
      && Slot(sep, w, MessageColumn) == Run('-', w.message)
  {
    SeparatorForm(w);
    Frame(Run('-', w.status), Run('-', w.code), Run('-', w.message));
  }

  lemma EntryFramed(e: Error, w: Widths)
    requires EntryFits(e, w) && Formattable(e)
    ensures w.status >= 0 && w.code >= 0 && w.message >= 0
    ensures RowText(EntryRow(e, w)).Some?
    ensures Framed(RowText(EntryRow(e, w)).value, w)
  {
    EntryLine(e, w);
    Frame(AlignCenter(Itoa(e.status), w.status).value, AlignCenter(Itoa(e.code), w.code).value,
      AlignCenter(e.message, w.message).value);
  }

  lemma DataLinesFramed(errors: seq<Entry>, w: Widths)
    requires w.status >= 0 && w.code >= 0 && w.message >= 0
    requires EntryLines(errors, w).Some?
    requires forall i :: 0 <= i < |errors| ==> Formattable(errors[i].1)
    ensures var rows := EntryLines(errors, w).value;
      forall i :: 0 <= i < |rows| ==> Framed(rows[i], w)
  {
    EntryLinesShape(errors, w);
    var rows := EntryLines(errors, w).value;
    forall i | 0 <= i < |rows|
      ensures Framed(rows[i], w)
    {
      EntryRowFits(errors[i].1, w);
      EntryFramed(errors[i].1, w);
    }
  }

  /** Every line of the table is framed alike: the columns line up, as long
      as no value is oversized. In the separator a slot holds a run of dashes
      as wide as the column. */
  lemma TableFramed(errors: seq<Entry>, w: Widths)
    requires TableLines(errors, w).Some?
    requires forall i :: 0 <= i < |errors| ==> Formattable(errors[i].1)
    ensures w.status >= 0 && w.code >= 0 && w.message >= 0
    ensures var lines := TableLines(errors, w).value;
      forall k :: 0 <= k < |lines| ==> Framed(lines[k], w)
    ensures var sep := TableLines(errors, w).value[1];
      && Slot(sep, w, StatusColumn) == Run('-', w.status)
      && Slot(sep, w, CodeColumn) == Run('-', w.code)
      && Slot(sep, w, MessageColumn) == Run('-', w.message)
  {
    TableShape(errors, w);
    var lines := TableLines(errors, w).value;
    HeaderFramed(w);
    SeparatorFramed(w);
    DataLinesFramed(errors, w);
    forall k | 2 <= k < |lines|
      ensures Framed(lines[k], w)
    {
      assert lines[k] == lines[2..][k - 2];
    }
  }

  /** A short value without outer blanks fills its slot and trims back. */
  lemma CentredSlot(s: string, width: int)
    requires |s| <= width && |s| < MaxWidth && NoOuterBlanks(s)
    ensures |AlignCenter(s, width).value| == width
    ensures TrimBlanks(AlignCenter(s, width).value) == s
  {
    ShortCentred(s, width);
    AlignCenterTrim(s, width);
  }

  /** Trimming the blanks of a data line's slots gives back the entry's
      status, code and message (a message that neither starts nor ends with
      a blank). */
  lemma EntryReadBack(e: Error, w: Widths)
    requires EntryFits(e, w) && Formattable(e) && NoOuterBlanks(e.message)
    ensures w.status >= 0 && w.code >= 0 && w.message >= 0
    ensures RowText(EntryRow(e, w)).Some?
    ensures var line := RowText(EntryRow(e, w)).value;
      && Framed(line, w)
      && TrimBlanks(Slot(line, w, StatusColumn)) == Itoa(e.status)
      && TrimBlanks(Slot(line, w, CodeColumn)) == Itoa(e.code)
      && TrimBlanks(Slot(line, w, MessageColumn)) == e.message
  {
    EntryLine(e, w);
    ItoaChars(e.status);
    ItoaChars(e.code);
    CentredSlot(Itoa(e.status), w.status);
    CentredSlot(Itoa(e.code), w.code);
    CentredSlot(e.message, w.message);
    Frame(AlignCenter(Itoa(e.status), w.status).value, AlignCenter(Itoa(e.code), w.code).value,
      AlignCenter(e.message, w.message).value);
  }

  /** The i-th data line of the table reads back as the i-th entry. */
  lemma TableReadBack(errors: seq<Entry>, w: Widths, i: nat)
    requires HeaderFits(w) && forall j :: 0 <= j < |errors| ==> EntryFits(errors[j].1, w)
    requires i < |errors| && Formattable(errors[i].1) && NoOuterBlanks(errors[i].1.message)
    ensures TableLines(errors, w).Some?
    ensures w.status >= 0 && w.code >= 0 && w.message >= 0
    ensures |TableLines(errors, w).value| == |errors| + 2
    ensures var line := TableLines(errors, w).value[i + 2];
      && Framed(line, w)
      && TrimBlanks(Slot(line, w, StatusColumn)) == Itoa(errors[i].1.status)
      && TrimBlanks(Slot(line, w, CodeColumn)) == Itoa(errors[i].1.code)
      && TrimBlanks(Slot(line, w, MessageColumn)) == errors[i].1.message
  {
    TableFits(errors, w);
    TableShape(errors, w);
    EntryLinesShape(errors, w);
    var lines := TableLines(errors, w).value;
    assert lines[i + 2] == lines[2..][i];
    EntryRowFits(errors[i].1, w);
    EntryReadBack(errors[i].1, w);
  }

  lemma {:induction false} ConcatCount(c: char, lines: seq<string>)
    requires forall k :: 0 <= k < |lines| ==> Count(c, lines[k]) == 1
    ensures Count(c, Concat(lines)) == |lines|
  {
    if lines != [] {
      var init := lines[..|lines| - 1];
      assert forall k :: 0 <= k < |init| ==> init[k] == lines[k];
      ConcatCount(c, init);
      CountConcat(c, Concat(init), lines[|lines| - 1]);
    }
  }

  lemma {:induction false} CountZeroLacks(c: char, s: string)
    requires Count(c, s) == 0
    ensures Lacks(c, s)
  {
    if s != [] {
      CountZeroLacks(c, s[1..]);
      assert forall i :: 1 <= i < |s| ==> s[i] == s[1..][i - 1];
    }
  }

  /** A framed line whose slots hold no newline holds exactly one. */
  lemma FramedNewlines(a: string, b: string, c: string)
    requires Lacks('\n', a) && Lacks('\n', b) && Lacks('\n', c)
    ensures Count('\n', "|" + a + "|" + b + "|" + c + "|" + "\n") == 1
  {
    var n := '\n';
    CountAbsent(n, a);
    CountAbsent(n, b);
    CountAbsent(n, c);
    CountConcat(n, "|" + a + "|" + b + "|" + c + "|", "\n");
    CountConcat(n, "|" + a + "|" + b + "|" + c, "|");
    CountConcat(n, "|" + a + "|" + b + "|", c);
    CountConcat(n, "|" + a + "|" + b, "|");
    CountConcat(n, "|" + a + "|", b);
    CountConcat(n, "|" + a, "|");
    CountConcat(n, "|", a);
  }

  lemma CenteredLacks(c: char, s: string, width: int)
    requires |s| <= width && c != ' ' && Lacks(c, s) && Lacks(c, BadWidth)
    ensures Lacks(c, AlignCenter(s, width).value)
  {
    CountAbsent(c, s);
    CountAbsent(c, BadWidth);
    AlignCenterCount(c, s, width);
    CountZeroLacks(c, AlignCenter(s, width).value);
  }

  lemma HeaderNewlines(w: Widths)
    requires RowText(HeaderRow(w)).Some?
    ensures w.status >= 0 && w.code >= 0 && w.message >= 0
    ensures Count('\n', RowText(HeaderRow(w)).value) == 1
  {
    HeaderRowFits(w);
    HeaderLine(w);
    CenteredLacks('\n', "Status", w.status);
    CenteredLacks('\n', "Code", w.code);
    CenteredLacks('\n', "Message", w.message);
    FramedNewlines(AlignCenter("Status", w.status).value, AlignCenter("Code", w.code).value,
      AlignCenter("Message", w.message).value);
  }

  lemma SeparatorNewlines(w: Widths)
    requires w.status >= 0 && w.code >= 0 && w.message >= 0
    ensures Count('\n', SeparatorLine(w).value) == 1
  {
    SeparatorForm(w);
    FramedNewlines(Run('-', w.status), Run('-', w.code), Run('-', w.message));
  }

  lemma EntryNewlines(e: Error, w: Widths)
    requires EntryFits(e, w) && Lacks('\n', e.message)
    ensures RowText(EntryRow(e, w)).Some?
    ensures Count('\n', RowText(EntryRow(e, w)).value) == 1
  {
    EntryLine(e, w);
    ItoaChars(e.status);
    ItoaChars(e.code);
    CenteredLacks('\n', Itoa(e.status), w.status);
    CenteredLacks('\n', Itoa(e.code), w.code);
    CenteredLacks('\n', e.message, w.message);
    FramedNewlines(AlignCenter(Itoa(e.status), w.status).value, AlignCenter(Itoa(e.code), w.code).value,
      AlignCenter(e.message, w.message).value);
  }

  /** When no message holds a newline, the Markdown text of N entries holds
      exactly N + 2 newlines: it is N + 2 newline-terminated lines. */
  lemma MarkdownLineCount(errors: seq<Entry>, w: Widths)
    requires MarkdownText(errors, w).Some?
    requires forall i :: 0 <= i < |errors| ==> Lacks('\n', errors[i].1.message)
    ensures Count('\n', MarkdownText(errors, w).value) == |errors| + 2
  {
    TableShape(errors, w);
    EntryLinesShape(errors, w);
    var lines := TableLines(errors, w).value;
    HeaderNewlines(w);
    SeparatorNewlines(w);
    forall k | 2 <= k < |lines|
      ensures Count('\n', lines[k]) == 1
    {
      var e := errors[k - 2].1;
      assert lines[k] == lines[2..][k - 2];
      EntryRowFits(e, w);
      EntryNewlines(e, w);
    }
    ConcatCount('\n', lines);
  }
}
