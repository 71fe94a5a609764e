# Markdown table renderer of the error-code generator

The generator reads a set of named error definitions (code, HTTP status and
message) and writes either a Go source file or a Markdown document. This
project models the Markdown half of `pkg/errgen/errgen.go` and proves
properties about it:

- `maxLength` computes the width of the Status, Code and Message columns.
- `alignCenter` centres a value in its column.
- `writeRow` joins centred cells into one `|`-delimited line.
- `GenerateMarkdown` writes a header row, a separator of dashes and one row
  per error.
- The `switch` on the file type in `Generate` chooses between the two
  outputs.

Modelling choices:

- A Go panic is `None` (`Wrappers.Option`). The only panic in the core comes
  from `strings.Repeat` when it gets a negative count. That happens as soon
  as a value is wider than its column.
- Go's map of errors is a sequence of `(name, Error)` entries, in the order
  the `range` of `GenerateMarkdown` (errgen.go:96) visits them; that order
  gives the order of the rows. The `range` of `maxLength` (errgen.go:149) is a
  separate iteration, and Go may visit the map in another order there. It is
  the parameter `scanOrder` of `Errgen.GenerateMarkdown` and `Errgen.Generate`,
  any permutation of the same entries. As written, the widths depend on it;
  the corrected widths do not.
- Strings are `seq<char>` under an ASCII assumption, so Go's byte length is
  the sequence length.
- Go's truncating `/` and `%` are `GoStrings.Quo` and `GoStrings.Rem`.
- `fmt` refuses a `*` width beyond a million: `%*s` then writes
  `%!(BADWIDTH)` followed by the value, unpadded. `GoStrings.FormatWidth`
  models that, so a value longer than a million characters (or exactly a
  million, with an odd padding) comes out of `alignCenter` with the marker in
  front (`Errgen.Oversized`).
- `strconv.Itoa` is `Strconv.Itoa`, partnered with a decimal parser that
  reads its output back.
- `bytes.Buffer` is the class `Errgen.Buffer` with one `string` field.
  `writeRow` and `GenerateMarkdown` are methods that append to it. Each is
  proved equal to a function of its inputs (`RowText`, `MarkdownText`), and
  the table lemmas are proved about those functions.
- The `maxLength` loop is the method `Errgen.MaxLength`. It updates a
  `map<string, int>` exactly as the Go map is updated. It is proved equal to
  the fold `CrossWiredWidths`.

Two consequences of the code that the tables below rely on:

- On an odd padding, `alignCenter` puts the extra blank on the LEFT.
- In a table with one 404 error, the Code column is 6 characters wide
  (`|  404 |`): the header "Code" is 4 long, no code-text comparison widens
  it, and 2 is added. `Scenarios.NotFoundTable` spells that table out.

## Model

| member | source | states |
|---|---|---|
| Errgen.AlignCenter | pkg/errgen/errgen.go:130-140 | `alignCenter` panics (a negative count reaches `strings.Repeat`) exactly when the value is longer than the width; otherwise the result is exactly `totalLength` long, or 12 longer when the value is oversized and `fmt` writes its bad-width marker |
| Errgen.AlignCenterForm | pkg/errgen/errgen.go:131-139 | for padding p = width − len(s) ≥ 0 and a value that is not oversized, the result is ceil(p/2) blanks, then s, then floor(p/2) blanks, so an odd padding puts the extra blank on the left |
| Errgen.AlignCenterOversized | pkg/errgen/errgen.go:131-139 | for an oversized value, the result is floor(p/2) blanks, the marker `%!(BADWIDTH)`, the odd padding's extra blank, s, then floor(p/2) blanks |
| RowProperties.AlignCenterTrim | pkg/errgen/errgen.go:130-140 | centring is undone by trimming the blanks, for a value with no blank at either end that is not oversized |
| RowProperties.AlignCenterCount | pkg/errgen/errgen.go:130-140 | centring adds only blanks, and the bad-width marker for an oversized value: every other character occurs as often as in the value, plus as often as in the marker when oversized |
| Errgen.PipedCellsFit | pkg/errgen/errgen.go:117-125 | the cells of a row are written without a panic exactly when every cell fits its width |
| Errgen.Buffer.constructor | pkg/errgen/errgen.go:78 | a new buffer is empty |
| Errgen.Buffer.WriteString | pkg/errgen/errgen.go:121-126 | `WriteString` appends its argument and changes nothing else |
| Errgen.WriteRow | pkg/errgen/errgen.go:117-127 | `writeRow` succeeds exactly when `RowText(row)` is defined, and then it appends exactly that text; the `i == len(row)` branch never fires, so one opening pipe is written |
| RowProperties.RowFits | pkg/errgen/errgen.go:117-127 | a row's line is defined exactly when every cell fits; an empty row writes only the newline |
| RowProperties.PipedCellsLength | pkg/errgen/errgen.go:118-125 | the text before the newline is 1 + the sum over cells of (width + 1) long, plus 12 for each oversized cell |
| RowProperties.RowLength | pkg/errgen/errgen.go:117-127 | a row's line is that length plus the newline; an empty row's line is 1 long |
| RowProperties.PipedCellsCount | pkg/errgen/errgen.go:118-125 | for a non-blank character that neither the values nor the bad-width marker hold, the written cells hold len(row)+1 pipes and none of any other such character |
| RowProperties.RowPipes | pkg/errgen/errgen.go:117-127 | when no value holds a pipe or a newline, a non-empty row's line has exactly len(row)+1 pipes, starts with a pipe, and holds one newline, which comes last; an empty row has no pipe |
| RowProperties.Row3 | pkg/errgen/errgen.go:117-127 | a three-cell row is defined exactly when all three cells fit, and its line is `\|` A `\|` B `\|` C `\|` newline, where A, B and C are the centred values |
| Errgen.MaxLengthStep | pkg/errgen/errgen.go:150-160 | one loop pass as written: the Status width is compared with the code's text and set from the status's text, the Code width the other way round, and the Message width is a running maximum |
| Errgen.MaxLength | pkg/errgen/errgen.go:143-167 | `maxLength` returns a map with exactly the three header keys, holding the cross-wired fold over the entries in iteration order, each plus 2 |
| Errgen.LookupUpdate | pkg/errgen/errgen.go:150-164 | reading the width map: a key reads as the value last stored under it, a store under another key leaves it alone, and a missing key reads as zero |
| WidthProperties.CrossWiredMessage | pkg/errgen/errgen.go:144-164 | the Message width is the longest of "Message" and all messages, plus 2 |
| WidthProperties.ScanMessage | pkg/errgen/errgen.go:149-161 | before the +2, the Message width is the running maximum over the messages |
| WidthProperties.CrossWiredMessageFits | pkg/errgen/errgen.go:144-164 | every message, and the header "Message", is at least 2 narrower than the Message column |
| WidthProperties.ScanSources | pkg/errgen/errgen.go:149-156 | the Status width is 6 or the length of some entry's status; the Code width is 4 or the length of some entry's code |
| WidthProperties.CrossWiredFloor | pkg/errgen/errgen.go:143-167 | the Status and Code widths are at least 3, the Message width at least 9 |
| WidthProperties.ScanFloor | pkg/errgen/errgen.go:149-156 | before the +2, the Status and Code widths never drop below 1 |
| WidthProperties.CrossWiredShortValues | pkg/errgen/errgen.go:144-156 | when no code text is longer than 6 and no status text longer than 4, the widths are exactly 8 (Status) and 6 (Code) |
| WidthProperties.ScanShortValues | pkg/errgen/errgen.go:149-156 | under the same condition, the loop never changes the Status and Code entries |
| WidthProperties.NumericShortValues | pkg/errgen/errgen.go:144-156 | the same condition in numbers: −100000 < code < 1000000 and −1000 < status < 10000 give widths 8 and 6 |
| WidthProperties.ShortValuesRender | pkg/errgen/errgen.go:75-113 | under that condition `GenerateMarkdown` does not panic, whatever order `maxLength` visits the map in |
| WidthProperties.OrderMatters | pkg/errgen/errgen.go:149-156 | the same two errors give a Status width of 11 in one iteration order and 3 in the other |
| WidthProperties.ScanOrderWidths | pkg/errgen/errgen.go:149-156 | two errors with seven- and eight-digit codes give widths 9, 9, 9 in one order and 9, 10, 9 in the other |
| WidthProperties.ScanOrderMatters | pkg/errgen/errgen.go:75-113 | for those two errors, rows written in one order are drawn with two different header lines (32 and 33 long), depending only on the order `maxLength` visits the map |
| WidthProperties.WidthShrinks | pkg/errgen/errgen.go:150-152 | one error with a seven-digit code shrinks the Status column to 3, below the header's 6 |
| Errgen.WriteHeader | pkg/errgen/errgen.go:79-95 | the header row and then the separator with its newline are appended, or the call panics exactly when one of them is undefined |
| Errgen.WriteEntries | pkg/errgen/errgen.go:96-111 | the loop over the errors appends the data lines in iteration order, and panics exactly when some entry's line is undefined |
| Errgen.RenderTable | pkg/errgen/errgen.go:78-113 | the buffer `GenerateMarkdown` returns, drawn with given widths, is exactly `MarkdownText` |
| Errgen.GenerateMarkdown | pkg/errgen/errgen.go:75-113 | `GenerateMarkdown(cfg)` is `MarkdownText` for the entries in the order the rows are written, with the widths `maxLength` computes over the same entries in its own, possibly different, order |
| Errgen.Generate | pkg/errgen/errgen.go:57-70 | "md" yields the Markdown text (widths from the scan order), or a panic when it panics; "go" runs the template; any other file type fails with "not support file type: " followed by the type |
| TableProperties.HeaderRowFits | pkg/errgen/errgen.go:79-92 | the header row is defined exactly when the widths are at least 6, 4 and 7 |
| TableProperties.EntryRowFits | pkg/errgen/errgen.go:97-110 | an entry's row is defined exactly when its status text, code text and message fit their columns |
| TableProperties.HeaderLine | pkg/errgen/errgen.go:79-92 | the header line is the three centred header names between pipes, then a newline |
| TableProperties.EntryLine | pkg/errgen/errgen.go:97-110 | an entry's line is its centred status, code and message between pipes, then a newline |
| TableProperties.SeparatorForm | pkg/errgen/errgen.go:93-95 | the separator is `\|`, wStatus dashes, `\|`, wCode dashes, `\|`, wMessage dashes, `\|`, then a newline |
| TableProperties.TableFits | pkg/errgen/errgen.go:75-113 | the document is produced without a panic exactly when the header and every entry fit the widths |
| TableProperties.EntryLinesShape | pkg/errgen/errgen.go:96-111 | there is one data line per entry, and the i-th is the row of the i-th entry |
| TableProperties.TableShape | pkg/errgen/errgen.go:75-113 | N entries give N+2 lines: the header, the separator, then the data lines in iteration order |
| TableProperties.HeaderFramed | pkg/errgen/errgen.go:79-92 | the header line has the frame of the widths |
| TableProperties.SeparatorFramed | pkg/errgen/errgen.go:93-95 | the separator has the same frame, with each slot a run of dashes as wide as its column |
| TableProperties.EntryFramed | pkg/errgen/errgen.go:97-110 | every data line whose values are all shorter than a million characters has the same frame |
| TableProperties.DataLinesFramed | pkg/errgen/errgen.go:96-111 | when no entry has a value of a million characters or more, all data lines have the frame of the widths |
| TableProperties.TableFramed | pkg/errgen/errgen.go:75-113 | when no entry has a value of a million characters or more, every line of the document is wStatus+wCode+wMessage+5 long, with pipes at the same four positions, so the columns line up |
| TableProperties.EntryReadBack | pkg/errgen/errgen.go:97-110 | for an entry that fits, has values shorter than a million characters and a message with no blank at either end, trimming the blanks of its line's slots gives back Itoa(status), Itoa(code) and the message |
| TableProperties.GoIntsFormattable | pkg/errgen/errgen.go:99-110 | a code and a status within Go's 64-bit `int` are always shorter than a million characters, so only a long message can make an entry's cell oversized |
| TableProperties.TableReadBack | pkg/errgen/errgen.go:96-111 | when the header and every entry fit the widths, the document is produced, and if the i-th entry's values are shorter than a million characters and its message has no blank at either end, the (i+2)-th line reads back as that entry |
| TableProperties.HeaderNewlines | pkg/errgen/errgen.go:79-92 | the header line holds one newline |
| TableProperties.SeparatorNewlines | pkg/errgen/errgen.go:93-95 | the separator holds one newline |
| TableProperties.EntryNewlines | pkg/errgen/errgen.go:97-110 | a data line whose message has no newline holds exactly one |
| TableProperties.MarkdownLineCount | pkg/errgen/errgen.go:75-113 | when no message holds a newline, the document of N entries holds exactly N+2 newlines |
| Scenarios.EmptyTable | pkg/errgen/errgen.go:75-167 | with no errors the widths are 8, 6 and 9, and the document is the header line and the separator |
| Scenarios.NotFoundTable | pkg/errgen/errgen.go:75-167 | one 404 "not found" error gives widths 8, 6 and 11 and the three lines spelled out, with the odd padding's extra blank on the left |
| Scenarios.NotFoundWidths | pkg/errgen/errgen.go:143-167 | the widths of that table are 8, 6 and 11 |
| Scenarios.NotFoundRow | pkg/errgen/errgen.go:97-110 | its data line is `\|   404  \|  404 \| not found \|` |
| Findings.CrossWiredPanics | pkg/errgen/errgen.go:150-152 | as written, one error with code 1234567 and status 1 gets a Status column 3 wide, and `GenerateMarkdown` panics on it |
| CorrectedWidths.MaxLengthFixed | pkg/errgen/errgen.go:143-167 | the corrected loop, each column compared with its own values, returns each column's longest text plus 2 |
| CorrectedWidths.MaxLengthFixedStep | pkg/errgen/errgen.go:150-160 | one pass of the corrected loop: each width is a running maximum over its own column |
| CorrectedWidths.ColumnMaxBounds | pkg/errgen/errgen.go:143-167 | a corrected column's text width is at least its header and every value in it, and equal to one of them |
| CorrectedWidths.ColumnWidthsTight | pkg/errgen/errgen.go:143-167 | each corrected width is the longest text of its column plus 2: no narrower and no wider |
| CorrectedWidths.ColumnWidthsOrderFree | pkg/errgen/errgen.go:149 | the corrected widths do not depend on the map's iteration order |
| Findings.FixedWidthsFit | pkg/errgen/errgen.go:75-113 | with the corrected widths, the document never panics |
| Findings.AgreeOnShortNumbers | pkg/errgen/errgen.go:150-156 | when no status and no code is longer than 4 characters, the widths as written equal the corrected ones |
| Findings.GenerateMarkdownFixed | pkg/errgen/errgen.go:75-113 | `GenerateMarkdown` over the corrected `maxLength`, whatever order its loop visits the map in, always returns the table drawn with the corrected widths of the entries |
| Findings.GenerateFixed | pkg/errgen/errgen.go:57-70 | the same dispatch as `Generate` over the corrected renderer, which never panics and does not depend on the scan order |
| Strconv.Itoa | pkg/errgen/errgen.go:99-103 | a number's text is never empty and starts with '-' exactly when the number is negative |
| Strconv.ItoaRoundTrip | pkg/errgen/errgen.go:99-103 | parsing a number's text as a decimal gives the number back |
| Strconv.ItoaChars | pkg/errgen/errgen.go:99-103 | a number's text holds no blank, no pipe and no newline |
| Strconv.DigitsNoLeadingZero | pkg/errgen/errgen.go:99-103 | the digits of a natural number start with '0' exactly when it is zero, so `strconv.Itoa` writes no leading zeros |
| Strconv.ItoaLength | pkg/errgen/errgen.go:150-155 | a number's text is at most k long exactly when −10^(k−1) < n < 10^k |
| GoStrings.Repeat | pkg/errgen/errgen.go:93 | `strings.Repeat` is defined exactly for a non-negative count, and is then that many copies |
| GoStrings.FormatWidth | pkg/errgen/errgen.go:139 | `%*s` writes the bad-width marker and then the value for a width beyond ±1000000; otherwise a width no larger than the value's length leaves the value unchanged, and a larger one pads it to that width |
| GoStrings.Quo | pkg/errgen/errgen.go:137 | Go's `/` agrees with floor division on a non-negative dividend and a positive divisor |
| GoStrings.Rem | pkg/errgen/errgen.go:132 | Go's `%` agrees with the Euclidean remainder on a non-negative dividend and a positive divisor |
| GoStrings.TruncatedDivision | pkg/errgen/errgen.go:132-137 | quotient and remainder rebuild the dividend, the remainder is smaller than the divisor and has the dividend's sign, and negating the dividend negates the quotient |
| GoStrings.RemTwo | pkg/errgen/errgen.go:132 | `padding%2 == 1` holds exactly for a positive odd padding; a negative odd padding gives -1 |

## Left out

- `LoadConfig` is not modelled. It reads a file and decodes YAML through a
  library outside this repository.
- `Generate` is not modelled before its `switch`: `os.MkdirAll`, `os.Create`
  and `defer file.Close()` are file-system I/O. `Errgen.Generate` models the
  dispatch only. It says what would be written; it does not model
  `fmt.Fprint` or its error.
- Errgen.Generate: the "go" branch only states that the template is
  executed. `pkg/errgen/template.go` is a template rendered by `text/template`
  and is not part of this model, and neither is the template's own error
  result.
- `cmd/root.go` and `cmd/doc/doc.go` are CLI wiring and documentation
  generation around foreign libraries, and are not part of this model.
- Go's `int` is 64 bits wide. It is not bounded here, because nothing in the
  core does arithmetic on a code or a status. `TableProperties.GoIntsFormattable`
  states the one place the bound matters.
- Strings are ASCII: a multi-byte character is not modelled. For such a
  string, Go's `len` and the padding of `%*s` count differently.
- Errgen.GenerateMarkdown: a panic is modelled as `None`. A Go panic mid-way
  leaves a partly written buffer, and nothing uses it: the Markdown text
  never reaches the file.
- Errgen.WriteRow, Errgen.WriteHeader and Errgen.WriteEntries: when `ok` is
  false, the contracts do not say what was written before the panic.
- TableProperties.TableFramed, TableProperties.DataLinesFramed,
  TableProperties.EntryFramed, TableProperties.EntryReadBack and
  TableProperties.TableReadBack do not promise anything for a value of a
  million characters or more. `fmt` writes such a value after its
  bad-width marker, so the line is longer than the frame and the slot does
  not trim back to the value. `RowProperties.RowLength` still gives such a
  line's length.
- RowProperties.AlignCenterTrim and Errgen.AlignCenterForm do not cover an
  oversized value; Errgen.AlignCenterOversized gives its exact text instead.
- RowProperties.PipedCellsCount is stated only for characters that the
  bad-width marker does not hold, such as the pipe and the newline.
- Errgen.RenderTable: `GenerateMarkdown` is split into `Errgen.MaxLength`
  followed by `Errgen.RenderTable`. This lets the corrected widths reuse the
  same renderer; the statements run in the same order.

## Findings

| source | as written | input that shows it | evidently intended | confidence | as-written member | corrected member |
|---|---|---|---|---|---|---|
| pkg/errgen/errgen.go:150-156 | the Status width is compared with the code's text and set to the status's length, and the Code width the other way round | one error with code 1234567 and status 1: the Status column becomes 3 wide, below the header's 6, so `alignCenter("Status", 3)` hands `strings.Repeat` a negative count and `GenerateMarkdown` panics | each column's width is the longest of its header and its own values, plus 2 (the comment on `maxLength` says it gets the maximum length of each column) | high; not executed | Findings.CrossWiredPanics | Findings.GenerateMarkdownFixed |
