/** The Markdown table renderer of the error-code generator: the records it
    reads, `alignCenter`, `writeRow`, `maxLength`, `GenerateMarkdown` and the
    format switch of `Generate`. A Go panic is `None`. */
module Errgen {
  import opened Wrappers
  import opened GoStrings
  import opened Strconv

  /** One error definition. Go's `int` is 64 bits wide; nothing here does
      arithmetic on a code or a status, and `strconv.Itoa` is exact on every
      64-bit value, so an unbounded `int` loses nothing. */
  datatype Error = Error(code: int, status: int, message: string)

  /** A symbolic name and its definition. */
  type Entry = (string, Error)

  /** The loaded configuration. The Go map from name to `Error` is the
      sequence of its entries in the order the row loop's `range` in
      `GenerateMarkdown` visits them. */
  datatype Config = Config(packageName: string, errors: seq<Entry>)

  /** A value to be centred in a column `width` characters wide. */
  datatype Cell = Cell(value: string, width: int)

  predicate Fits(c: Cell)
  {
    |c.value| <= c.width
  }

  // ---------------------------------------------------------------------------
  // alignCenter

  /** The text `alignCenter` hands to `%*s` (the value, with the extra blank
      of an odd padding) is longer than a `*` width may be. */
  predicate Oversized(s: string, totalLength: int)
  {
    |s| + (totalLength - |s|) % 2 > MaxWidth
  }

  /** `alignCenter(s, totalLength)`. The padding is split with Go's truncating
      `%` and `/`; a negative padding hands `strings.Repeat` a negative count,
      which panics. Otherwise the extra blank of an odd padding goes LEFT, and
      an oversized value comes out with `fmt`'s bad-width marker in front. */
  function AlignCenter(s: string, totalLength: int): (r: Option<string>)
    ensures r.Some? <==> |s| <= totalLength
    ensures r.Some? ==> |r.value| == totalLength + (if Oversized(s, totalLength) then |BadWidth| else 0)
  {
    var padding := totalLength - |s|;
    var (str, pad) := if Rem(padding, 2) == 1 then (" " + s, padding - 1) else (s, padding);
    var leftPadding := Quo(pad, 2);
    var rightPadding := pad - leftPadding;
    var left := Repeat(' ', leftPadding);
    var right := Repeat(' ', rightPadding);
    if left.None? || right.None? then None
    else Some(left.value + FormatWidth(str, |str|) + right.value)
  }

  /** When `s` fits and is not oversized, the centred text is ceil(p/2)
      blanks, `s`, then floor(p/2) blanks, where p is the padding
      `totalLength - |s|`. */
  lemma AlignCenterForm(s: string, totalLength: int)
    requires |s| <= totalLength && !Oversized(s, totalLength)
    ensures AlignCenter(s, totalLength) ==
      Some(Run(' ', (totalLength - |s| + 1) / 2) + s + Run(' ', (totalLength - |s|) / 2))
  {
    var p := totalLength - |s|;
    if p % 2 == 1 {
      assert Run(' ', p / 2) + (" " + s) == Run(' ', p / 2 + 1) + s;
    }
  }

  /** An oversized value is written after floor(p/2) blanks and the bad-width
      marker, with the extra blank of an odd padding still in front of it. */
  lemma AlignCenterOversized(s: string, totalLength: int)
    requires |s| <= totalLength && Oversized(s, totalLength)
    ensures var p := totalLength - |s|;
      AlignCenter(s, totalLength) ==
        Some(Run(' ', p / 2) + BadWidth + Run(' ', p % 2) + s + Run(' ', p / 2))
  {
    var p := totalLength - |s|;
    if p % 2 == 1 {
      assert Run(' ', p / 2) + (BadWidth + (" " + s)) == Run(' ', p / 2) + BadWidth + Run(' ', 1) + s;
    } else {
      assert Run(' ', p / 2) + (BadWidth + s) == Run(' ', p / 2) + BadWidth + Run(' ', 0) + s;
    }
  }

  // ---------------------------------------------------------------------------
  // writeRow

  /** What `writeRow` appends before its newline: the opening `|`, then each
      centred value followed by `|`; `None` once a cell does not fit. */
  function PipedCells(row: seq<Cell>): (r: Option<string>)
    ensures r.Some? ==> |r.value| >= 1 && r.value[0] == '|'
  {
    if row == [] then Some("|")
    else
      var init := PipedCells(row[..|row| - 1]);
      var cell := AlignCenter(row[|row| - 1].value, row[|row| - 1].width);
      if init.None? || cell.None? then None else Some(init.value + cell.value + "|")
  }

  /** The line `writeRow` appends: an empty row is just the newline. */
  function RowText(row: seq<Cell>): Option<string>
  {
    if row == [] then Some("\n")
    else if PipedCells(row).None? then None
    else Some(PipedCells(row).value + "\n")
  }

  /** `writeRow` panics exactly when some cell is wider than its column. */
  lemma {:induction false} PipedCellsFit(row: seq<Cell>)
    ensures PipedCells(row).Some? <==> forall i :: 0 <= i < |row| ==> Fits(row[i])
  {
    if row != [] {
      var init := row[..|row| - 1];
      PipedCellsFit(init);
      assert forall i :: 0 <= i < |init| ==> init[i] == row[i];
    }
  }

  lemma PipedCellsSnoc(row: seq<Cell>, i: nat)
    requires i < |row|
    requires PipedCells(row[..i]).Some? && AlignCenter(row[i].value, row[i].width).Some?
    ensures PipedCells(row[..i + 1]) ==
      Some(PipedCells(row[..i]).value + AlignCenter(row[i].value, row[i].width).value + "|")
  {
    assert row[..i + 1][..i] == row[..i];
  }

  /** Regroups an append onto the buffer, so that the loops below need no
      associativity reasoning of their own. */
  lemma PipeAppend(o: string, done: string, cell: string)
    ensures o + done + cell + "|" == o + (done + cell + "|")
  {
  }

  /** Associativity of `+` on strings, given to the solver where it is needed. */
  lemma AppendAssoc(a: string, b: string, c: string)
    ensures a + b + c == a + (b + c)
  {
  }

  /** `bytes.Buffer`, reduced to what the renderer uses: text appended at the end. */
  class Buffer {
    var contents: string

    constructor ()
      ensures contents == []
    {
      contents := [];
    }

    method WriteString(s: string)
      modifies this
      ensures contents == old(contents) + s
    {
      contents := contents + s;
    }
  }

  /** `writeRow(b, row)`: `ok` is false when the row panics, and then the
      buffer holds whatever was written before the panic. */
  method WriteRow(b: Buffer, row: seq<Cell>) returns (ok: bool)
    modifies b
    ensures ok <==> RowText(row).Some?
    ensures ok ==> b.contents == old(b.contents) + RowText(row).value
  {
    for i := 0 to |row|
      invariant PipedCells(row[..i]).Some?
      invariant b.contents == old(b.contents) + (if i == 0 then "" else PipedCells(row[..i]).value)
    {
      var cell := AlignCenter(row[i].value, row[i].width);
      if cell.None? {
        PipedCellsFit(row);
        return false;
      }
      if i == 0 || i == |row| {
        b.WriteString("|");
      }
      b.WriteString(cell.value);
      b.WriteString("|");
      PipedCellsSnoc(row, i);
      if i == 0 {
        assert row[..0] == [];
        PipeAppend(old(b.contents), "|", cell.value);
      } else {
        PipeAppend(old(b.contents), PipedCells(row[..i]).value, cell.value);
      }
    }
    b.WriteString("\n");
    assert row[..|row|] == row;
    return true;
  }

  // ---------------------------------------------------------------------------
  // maxLength

  /** The three column widths, in the order Status, Code, Message. */
  datatype Widths = Widths(status: int, code: int, message: int)

  /** Go's index expression on a `map[string]int`: zero for a missing key. */
  function Lookup(l: map<string, int>, k: string): int
  {
    if k in l then l[k] else 0
  }

  /** Reading a map back: a key reads as the value last stored under it, a
      store under another key leaves it alone, and a key never stored reads
      as zero. */
  lemma LookupUpdate(l: map<string, int>, k: string, v: int, other: string)
    ensures Lookup(l[k := v], k) == v
    ensures other != k ==> Lookup(l[k := v], other) == Lookup(l, other)
    ensures k !in l ==> Lookup(l, k) == 0
  {
  }

  function WidthsOf(l: map<string, int>): Widths
  {
    Widths(Lookup(l, "Status"), Lookup(l, "Code"), Lookup(l, "Message"))
  }

  /** The widths before the loop: the header lengths. */
  const HeaderWidths := Widths(|"Status"|, |"Code"|, |"Message"|)

  /** One iteration of `maxLength`'s loop with its comparisons as written:
      the Status width depends on the code's text and takes the status's
      length, the Code width the other way round. */
  function CrossWiredStep(l: Widths, e: Error): Widths
  {
    var l1 := if |Itoa(e.code)| > l.status then l.(status := |Itoa(e.status)|) else l;
    var l2 := if |Itoa(e.status)| > l1.code then l1.(code := |Itoa(e.code)|) else l1;
    if |e.message| > l2.message then l2.(message := |e.message|) else l2
  }

  /** The widths after the loop has visited `errors` in order. */
  function CrossWiredScan(errors: seq<Entry>): Widths
  {
    if errors == [] then HeaderWidths
    else CrossWiredStep(CrossWiredScan(errors[..|errors| - 1]), errors[|errors| - 1].1)
  }

  /** The final `+= 2` of every width. */
  function AddMargin(w: Widths): Widths
  {
    Widths(w.status + 2, w.code + 2, w.message + 2)
  }

  /** The widths `maxLength` returns. */
  function CrossWiredWidths(errors: seq<Entry>): Widths
  {
    AddMargin(CrossWiredScan(errors))
  }

  /** The body of `maxLength`'s loop for one error `value`. */
  method MaxLengthStep(l0: map<string, int>, value: Error) returns (l: map<string, int>)
    requires l0.Keys == {"Status", "Code", "Message"}
    ensures l.Keys == {"Status", "Code", "Message"}
    ensures WidthsOf(l) == CrossWiredStep(WidthsOf(l0), value)
  {
    l := l0;
    if |Itoa(value.code)| > l["Status"] {
      l := l["Status" := |Itoa(value.status)|];
    }
    if |Itoa(value.status)| > l["Code"] {
      l := l["Code" := |Itoa(value.code)|];
    }
    if |value.message| > l["Message"] {
      l := l["Message" := |value.message|];
    }
  }

  /** `maxLength(cfg)`: a map with exactly the three header keys. */
  method MaxLength(cfg: Config) returns (l: map<string, int>)
    ensures l.Keys == {"Status", "Code", "Message"}
    ensures WidthsOf(l) == CrossWiredWidths(cfg.errors)
  {
    l := map["Status" := |"Status"|, "Code" := |"Code"|, "Message" := |"Message"|];
    for i := 0 to |cfg.errors|
      invariant l.Keys == {"Status", "Code", "Message"}
      invariant WidthsOf(l) == CrossWiredScan(cfg.errors[..i])
    {
      l := MaxLengthStep(l, cfg.errors[i].1);
      assert cfg.errors[..i + 1][..i] == cfg.errors[..i];
    }
    assert cfg.errors[..|cfg.errors|] == cfg.errors;
    l := l["Status" := l["Status"] + 2];
    l := l["Code" := l["Code"] + 2];
    l := l["Message" := l["Message"] + 2];
  }

  /** The three columns of the table. */
  datatype Column = StatusColumn | CodeColumn | MessageColumn

  /** The header text of a column. */
  function Header(c: Column): string
  {
    match c
    case StatusColumn => "Status"
    case CodeColumn => "Code"
    case MessageColumn => "Message"
  }

  /** The text an entry shows in a column. */
  function CellText(e: Error, c: Column): string
  {
    match c
    case StatusColumn => Itoa(e.status)
    case CodeColumn => Itoa(e.code)
    case MessageColumn => e.message
  }

  function Width(w: Widths, c: Column): int
  {
    match c
    case StatusColumn => w.status
    case CodeColumn => w.code
    case MessageColumn => w.message
  }

  // ---------------------------------------------------------------------------
  // GenerateMarkdown

  function HeaderRow(w: Widths): seq<Cell>
  {
    [Cell("Status", w.status), Cell("Code", w.code), Cell("Message", w.message)]
  }

  function EntryRow(e: Error, w: Widths): seq<Cell>
  {
    [Cell(Itoa(e.status), w.status), Cell(Itoa(e.code), w.code), Cell(e.message, w.message)]
  }

  /** The dash line under the header, with its newline. */
  function SeparatorLine(w: Widths): Option<string>
  {
    var s := Repeat('-', w.status);
    var c := Repeat('-', w.code);
    var m := Repeat('-', w.message);
    if s.None? || c.None? || m.None? then None
    else Some("|" + s.value + "|" + c.value + "|" + m.value + "|" + "\n")
  }

  /** The line of every entry, in iteration order; `None` where it panics. */
  function EntryTexts(errors: seq<Entry>, w: Widths): (r: seq<Option<string>>)
    ensures |r| == |errors|
    ensures forall i :: 0 <= i < |errors| ==> r[i] == RowText(EntryRow(errors[i].1, w))
  {
    seq(|errors|, i requires 0 <= i < |errors| => RowText(EntryRow(errors[i].1, w)))
  }

  /** The data lines, one per entry in iteration order. */
  function EntryLines(errors: seq<Entry>, w: Widths): Option<seq<string>>
  {
    Collect(EntryTexts(errors, w))
  }

  /** The header line, the separator line, then the data lines. */
  function TableLines(errors: seq<Entry>, w: Widths): Option<seq<string>>
  {
    var header := RowText(HeaderRow(w));
    var sep := SeparatorLine(w);
    var rows := EntryLines(errors, w);
    if header.None? || sep.None? || rows.None? then None
    else Some([header.value, sep.value] + rows.value)
  }

  function Concat(lines: seq<string>): string
  {
    if lines == [] then "" else Concat(lines[..|lines| - 1]) + lines[|lines| - 1]
  }

  /** The text of the whole table drawn with the widths `w`. */
  function MarkdownText(errors: seq<Entry>, w: Widths): Option<string>
  {
    var t := TableLines(errors, w);
    if t.None? then None else Some(Concat(t.value))
  }

  lemma ConcatSnoc(lines: seq<string>, line: string)
    ensures Concat(lines + [line]) == Concat(lines) + line
  {
    assert (lines + [line])[..|lines|] == lines;
  }

  lemma {:induction false} ConcatAppend(xs: seq<string>, ys: seq<string>)
    ensures Concat(xs + ys) == Concat(xs) + Concat(ys)
  {
    if ys != [] {
      var init := ys[..|ys| - 1];
      assert (xs + ys)[..|xs + ys| - 1] == xs + init;
      ConcatAppend(xs, init);
    } else {
      assert xs + ys == xs;
    }
  }

  /** The header row, then the separator line and its newline. */
  method WriteHeader(b: Buffer, w: Widths) returns (ok: bool)
    modifies b
    ensures ok <==> RowText(HeaderRow(w)).Some? && SeparatorLine(w).Some?
    ensures ok ==> b.contents == old(b.contents) + RowText(HeaderRow(w)).value + SeparatorLine(w).value
  {
    ok := WriteRow(b, HeaderRow(w));
    if !ok {
      return;
    }
    var s := Repeat('-', w.status);
    var c := Repeat('-', w.code);
    var m := Repeat('-', w.message);
    if s.None? || c.None? || m.None? {
      return false;
    }
    b.WriteString("|" + s.value + "|" + c.value + "|" + m.value + "|");
    b.WriteString("\n");
  }

  /** The loop of `GenerateMarkdown` over the entries: one row per entry. */
  method WriteEntries(b: Buffer, errors: seq<Entry>, w: Widths) returns (ok: bool)
    modifies b
    ensures ok <==> EntryLines(errors, w).Some?
    ensures ok ==> b.contents == old(b.contents) + Concat(EntryLines(errors, w).value)
  {
    ghost var texts := EntryTexts(errors, w);
    ghost var lines: seq<string> := [];
    for i := 0 to |errors|
      invariant Collect(texts[..i]) == Some(lines)
      invariant b.contents == old(b.contents) + Concat(lines)
    {
      ok := WriteRow(b, EntryRow(errors[i].1, w));
      if !ok {
        CollectNone(texts, i);
        return;
      }
      CollectSnoc(texts, i);
      ConcatSnoc(lines, texts[i].value);
      AppendAssoc(old(b.contents), Concat(lines), texts[i].value);
      lines := lines + [texts[i].value];
    }
    assert texts[..|errors|] == texts;
    return true;
  }

  /** The body of `GenerateMarkdown` after `maxLength`: draws the table with
      the widths held in `lengths`. */
  method RenderTable(errors: seq<Entry>, lengths: map<string, int>) returns (doc: Option<string>)
    ensures doc == MarkdownText(errors, WidthsOf(lengths))
  {
    var w := WidthsOf(lengths);
    var b := new Buffer();
    var ok := WriteHeader(b, w);
    if !ok {
      return None;
    }
    ghost var head := [RowText(HeaderRow(w)).value, SeparatorLine(w).value];
    assert Concat(head) == head[0] + head[1] by {
      assert head[..1] == [head[0]];
      assert Concat([head[0]]) == head[0] by { assert [head[0]][..0] == []; }
    }
    ok := WriteEntries(b, errors, w);
    if !ok {
      return None;
    }
    ConcatAppend(head, EntryLines(errors, w).value);
    return Some(b.contents);
  }

  /** `GenerateMarkdown(cfg)`: the buffer's text, or `None` when it panics.
      The rows follow `cfg.errors`, the order of the row loop's `range`;
      `scanOrder` is the order in which the separate `range` of `maxLength`
      visits the same map. */
  method GenerateMarkdown(cfg: Config, scanOrder: seq<Entry>) returns (doc: Option<string>)
    requires multiset(scanOrder) == multiset(cfg.errors)
    ensures doc == MarkdownText(cfg.errors, CrossWiredWidths(scanOrder))
  {
    var lengths := MaxLength(cfg.(errors := scanOrder));
    doc := RenderTable(cfg.errors, lengths);
  }

  // ---------------------------------------------------------------------------
  // Generate: the format switch

  /** What `Generate` leaves behind once the output file has been created:
      the Markdown text written, the Go template executed (its text is not
      modelled), the unsupported-type error, or a panic of the renderer. */
  datatype Outcome = Written(text: string) | TemplateExecuted | Failed(message: string) | Panicked

  /** The `switch fileType` of `Generate`. */
  method Generate(cfg: Config, fileType: string, scanOrder: seq<Entry>) returns (outcome: Outcome)
    requires multiset(scanOrder) == multiset(cfg.errors)
    ensures outcome.Failed? <==> fileType != "md" && fileType != "go"
    ensures outcome.Failed? ==> outcome.message == "not support file type: " + fileType
    ensures fileType == "go" ==> outcome == TemplateExecuted
    ensures fileType == "md" ==>
      match MarkdownText(cfg.errors, CrossWiredWidths(scanOrder))
      case Some(text) => outcome == Written(text)
      case None => outcome == Panicked
  {
    if fileType == "md" {
      var w := GenerateMarkdown(cfg, scanOrder);
      outcome := if w.Some? then Written(w.value) else Panicked;
    } else if fileType == "go" {
      outcome := TemplateExecuted;
    } else {
      outcome := Failed("not support file type: " + fileType);
    }
  }
}
