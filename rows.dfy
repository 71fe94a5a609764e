/** Properties of `alignCenter` and `writeRow`: the centred text, the panics,
    the width and the pipes of a row, and the values read back from it. */
module RowProperties {
  import opened Wrappers
  import opened GoStrings
  import opened Strconv
  import opened Errgen

  /** A row of any length panics exactly when one of its cells is too wide;
      an empty row is the bare newline. */
  lemma RowFits(row: seq<Cell>)
    ensures RowText(row).Some? <==> forall i :: 0 <= i < |row| ==> Fits(row[i])
    ensures row == [] ==> RowText(row) == Some("\n")
  {
    PipedCellsFit(row);
  }

  /** A value shorter than the largest `*` width is never oversized. */
  lemma ShortCentred(s: string, totalLength: int)
    requires |s| < MaxWidth
    ensures !Oversized(s, totalLength)
  {
  }

  /** Centring a value without outer blanks and trimming the result gives the
      value back, unless the value is oversized. */
  lemma AlignCenterTrim(s: string, totalLength: int)
    requires |s| <= totalLength && !Oversized(s, totalLength) && NoOuterBlanks(s)
    ensures TrimBlanks(AlignCenter(s, totalLength).value) == s
  {
    AlignCenterForm(s, totalLength);
    TrimBlanksPadded((totalLength - |s| + 1) / 2, s, (totalLength - |s|) / 2);
  }

  /** The characters a centred cell takes: its width, and the bad-width
      marker when its value is oversized. */
  function CenteredWidth(c: Cell): int
  {
    c.width + if Oversized(c.value, c.width) then |BadWidth| else 0
  }

  /** The characters a row takes before its newline: the opening pipe, then
      each centred cell plus its closing pipe. */
  function PipedWidth(row: seq<Cell>): int
  {
    if row == [] then 1 else PipedWidth(row[..|row| - 1]) + CenteredWidth(row[|row| - 1]) + 1
  }

  lemma {:induction false} PipedCellsLength(row: seq<Cell>)
    requires PipedCells(row).Some?
    ensures |PipedCells(row).value| == PipedWidth(row)
  {
    if row != [] {
      PipedCellsLength(row[..|row| - 1]);
    }
  }

  /** A row that does not panic is one pipe, each centred cell plus a pipe,
      and the newline. */
  lemma RowLength(row: seq<Cell>)
    requires RowText(row).Some?
    ensures |RowText(row).value| == if row == [] then 1 else PipedWidth(row) + 1
  {
    if row != [] {
      PipedCellsLength(row);
    }
  }

  predicate Lacks(c: char, s: string)
  {
    forall i :: 0 <= i < |s| ==> s[i] != c
  }

  /** A centred value holds `c` as often as the value itself does, for any
      `c` other than the blank, plus the marker's `c`s when it is oversized. */
  lemma AlignCenterCount(c: char, s: string, totalLength: int)
    requires |s| <= totalLength && c != ' '
    ensures Count(c, AlignCenter(s, totalLength).value) ==
      Count(c, s) + if Oversized(s, totalLength) then Count(c, BadWidth) else 0
  {
    var p := totalLength - |s|;
    if Oversized(s, totalLength) {
      AlignCenterOversized(s, totalLength);
      var l, m, r := Run(' ', p / 2), Run(' ', p % 2), Run(' ', p / 2);
      CountConcat(c, l + BadWidth + m + s, r);
      CountConcat(c, l + BadWidth + m, s);
      CountConcat(c, l + BadWidth, m);
      CountConcat(c, l, BadWidth);
      CountAbsent(c, l);
      CountAbsent(c, m);
    } else {
      AlignCenterForm(s, totalLength);
      var l, r := Run(' ', (p + 1) / 2), Run(' ', p / 2);
      CountConcat(c, l + s, r);
      CountConcat(c, l, s);
      CountAbsent(c, l);
      CountAbsent(c, r);
    }
  }

  lemma {:induction false} PipedCellsCount(c: char, row: seq<Cell>)
    requires PipedCells(row).Some? && c != ' ' && Lacks(c, BadWidth)
    requires forall i :: 0 <= i < |row| ==> Lacks(c, row[i].value)
    ensures Count(c, PipedCells(row).value) == if c == '|' then |row| + 1 else 0
  {
    if row != [] {
      var init, last := row[..|row| - 1], row[|row| - 1];
      assert forall i :: 0 <= i < |init| ==> init[i] == row[i];
      PipedCellsCount(c, init);
      var cell := AlignCenter(last.value, last.width).value;
      CountConcat(c, PipedCells(init).value + cell, "|");
      CountConcat(c, PipedCells(init).value, cell);
      AlignCenterCount(c, last.value, last.width);
      CountAbsent(c, last.value);
      CountAbsent(c, BadWidth);
    }
  }

  /** The `i == len(row)` test in `writeRow` never holds, so a row of n > 0
      cells without pipes in its values has exactly n + 1 pipes, and every
      row, whose values hold no newline, ends in its only newline. */
  lemma RowPipes(row: seq<Cell>)
    requires RowText(row).Some?
    requires forall i :: 0 <= i < |row| ==> Lacks('|', row[i].value) && Lacks('\n', row[i].value)
    ensures Count('|', RowText(row).value) == if row == [] then 0 else |row| + 1
    ensures Count('\n', RowText(row).value) == 1
    ensures RowText(row).value[|RowText(row).value| - 1] == '\n'
    ensures row != [] ==> RowText(row).value[0] == '|'
  {
    if row != [] {
      var t := PipedCells(row).value;
      PipedCellsCount('|', row);
      PipedCellsCount('\n', row);
      CountConcat('|', t, "\n");
      CountConcat('\n', t, "\n");
    }
  }

  /** The three-cell rows the table is made of. */
  lemma Row3(a: Cell, b: Cell, c: Cell)
    ensures RowText([a, b, c]).Some? <==> Fits(a) && Fits(b) && Fits(c)
    ensures RowText([a, b, c]).Some? ==>
      RowText([a, b, c]).value ==
        "|" + AlignCenter(a.value, a.width).value + "|" + AlignCenter(b.value, b.width).value
        + "|" + AlignCenter(c.value, c.width).value + "|" + "\n"
  {
    var row := [a, b, c];
    PipedCellsFit(row);
    assert Fits(row[0]) && Fits(row[1]) && Fits(row[2]) ==> forall i :: 0 <= i < 3 ==> Fits(row[i]);
    if Fits(a) && Fits(b) && Fits(c) {
      var ta, tb, tc := AlignCenter(a.value, a.width).value, AlignCenter(b.value, b.width).value,
        AlignCenter(c.value, c.width).value;
      assert row[..2] == [a, b] && [a, b][..1] == [a] && [a][..0] == [];
      assert PipedCells([a]) == Some("|" + ta + "|");
      assert PipedCells([a, b]) == Some("|" + ta + "|" + tb + "|");
    }
  }
}
