/** The cross-wired comparisons of `maxLength`: an input on which the
    Markdown renderer as written panics, and the corrected renderer, which
    never does. */
module Findings {
  import opened Wrappers
  import opened Strconv
  import opened Errgen
  import opened CorrectedWidths
  import opened TableProperties
  import opened WidthProperties

  /** One error whose code has seven digits and whose status has one. */
  const Big: Entry := ("Big", Error(1234567, 1, "x"))

  /** As written: the Status column of `[Big]` is 3 wide, narrower than the
      header "Status", so `alignCenter` hands `strings.Repeat` a negative
      count and `GenerateMarkdown` panics. */
  lemma CrossWiredPanics()
    ensures CrossWiredWidths([Big]).status == 3
    ensures MarkdownText([Big], CrossWiredWidths([Big])).None?
  {
    var a: seq<Entry> := [Big];
    assert |Itoa(1234567)| == 7 && |Itoa(1)| == 1;
    assert a[..0] == [];
    assert CrossWiredScan(a) == CrossWiredStep(HeaderWidths, Big.1);
    TableFits(a, CrossWiredWidths(a));
  }

  /** Corrected: with every column as wide as its longest text plus 2 the
      table never panics, whatever the entries and their order. */
  lemma FixedWidthsFit(errors: seq<Entry>)
    ensures MarkdownText(errors, ColumnWidths(errors)).Some?
  {
    var w := ColumnWidths(errors);
    ColumnMaxBounds(errors, StatusColumn);
    ColumnMaxBounds(errors, CodeColumn);
    ColumnMaxBounds(errors, MessageColumn);
    forall i | 0 <= i < |errors|
      ensures EntryFits(errors[i].1, w)
    {
      var e := errors[i].1;
      assert CellText(e, StatusColumn) == Itoa(e.status);
      assert CellText(e, CodeColumn) == Itoa(e.code);
      assert CellText(e, MessageColumn) == e.message;
    }
    TableFits(errors, w);
  }

  /** When no status and no code is longer than 4 characters, as with HTTP
      statuses and four-digit codes, the cross-wired widths are the intended
      ones, so the defect does not show. */
  lemma {:induction false} AgreeOnShortNumbers(errors: seq<Entry>)
    requires forall i :: 0 <= i < |errors| ==> |Itoa(errors[i].1.code)| <= 4 && |Itoa(errors[i].1.status)| <= 4
    ensures CrossWiredWidths(errors) == ColumnWidths(errors)
  {
    CrossWiredShortValues(errors);
    CrossWiredMessage(errors);
    ColumnMaxBounds(errors, StatusColumn);
    ColumnMaxBounds(errors, CodeColumn);
  }

  /** `GenerateMarkdown` with the corrected `maxLength`: it always produces
      the table drawn with the intended widths, whatever order the widths'
      loop visits the map in. */
  method GenerateMarkdownFixed(cfg: Config, scanOrder: seq<Entry>) returns (doc: string)
    requires multiset(scanOrder) == multiset(cfg.errors)
    ensures Some(doc) == MarkdownText(cfg.errors, ColumnWidths(cfg.errors))
  {
    var lengths := MaxLengthFixed(cfg.(errors := scanOrder));
    ColumnWidthsOrderFree(scanOrder, cfg.errors);
    FixedWidthsFit(cfg.errors);
    var d := RenderTable(cfg.errors, lengths);
    doc := d.value;
  }

  /** The format switch of `Generate` over the corrected renderer: the
      Markdown branch no longer panics. */
  method GenerateFixed(cfg: Config, fileType: string, scanOrder: seq<Entry>) returns (outcome: Outcome)
    requires multiset(scanOrder) == multiset(cfg.errors)
    ensures !outcome.Panicked?
    ensures outcome.Failed? <==> fileType != "md" && fileType != "go"
    ensures outcome.Failed? ==> outcome.message == "not support file type: " + fileType
    ensures fileType == "go" ==> outcome == TemplateExecuted
    ensures fileType == "md" ==> outcome.Written? && Some(outcome.text) == MarkdownText(cfg.errors, ColumnWidths(cfg.errors))
  {
    if fileType == "md" {
      var w := GenerateMarkdownFixed(cfg, scanOrder);
      outcome := Written(w);
    } else if fileType == "go" {
      outcome := TemplateExecuted;
    } else {
      outcome := Failed("not support file type: " + fileType);
    }
  }
}
