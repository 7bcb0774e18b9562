# Mandachord song decoder, modelled in Dafny

`parsesong.py` reads Warframe's `EE.log`. It finds the `[SONG-…]` markers that a
player posted to chat and prints each song as ASCII tablature. A song carries:

- a name;
- a base64 payload;
- three instrument-pack identifiers, for melody, bass and percussion.

The payload, once decoded, has two parts:

- six volume-slider bytes, two per instrument part, stored percussion-last
  (melody in bytes 0–1, bass in 2–3, percussion in 4–5);
- a 13 × 64 note grid, stored transposed (time step major) with the bits of each
  byte counted from the most significant end. Trailing all-zero bytes may be cut off.

This project models the part of the program that works on the decoded bytes:

- `packnames.dfy` (module `PackNames`): the `mapping` table of the nine known
  instrument packs, and `getPackName`, which returns the table entry or the identifier
  itself.
- `bitmatrix.dfy` (module `BitMatrix`): `getBit`, random access to a byte buffer viewed
  as a row-major bit matrix after a byte offset, with out-of-range bytes reading as 0.
  `GetBit` computes the flat bit index and delegates to `FlatBit`. Its independent
  reference definition is `Stream`, the whole buffer read as one flat sequence of bits,
  byte after byte. Each byte's bits are listed by `MsbFirst` or `LsbFirst` according
  to the endianness flag.
- `decoder.dfy` (module `Decoder`): `getVolume` and the rendering part of `parseSong`.
  - `Render` is a method that builds the header lines, then calls `RenderGrid`.
  - `RenderGrid` is the outer loop: it counts `c` down from 12 to 0 and accumulates the
    note rows and their separators.
  - `RenderRow` is the inner loop over the 64 time columns of one note row.
  - All three are proved against the specification functions `RowPrefix`, `NoteRow`,
    `RowsFrom`, `Header` and `Tablature`. Layout properties are then proved about
    those functions: line count, line widths, cell positions, bars, separator
    placement, the ruler's measure numbers and indifference to trailing zero bytes.
  - Output is a sequence of lines. Each line is one `print`, or a run of
    `sys.stdout.write` calls ended by `print("||")`, without the newline.

The header lines come in the order Name, Percussion, Bass, Melody
(`parsesong.py:95-98`).

A payload shorter than six bytes raises an `IndexError` at `parsesong.py:90`, on `b[4]`
or `b[5]`. `Render`, `Header` and `Tablature` therefore require `|b| >= 6`.

Bytes are `bv8`, because indexing Python 3 `bytes` yields small integers, and `>>`
and `&` on them behave like shifts and masks on `bv8`. The caller passes `1` as the
endianness flag; it is modelled as a `bool`.

## Model

| member | source | states |
|---|---|---|
| PackNames.PackNameKnown | parsesong.py:13-33 | each of the nine pack identifiers resolves to its in-game name (BardTennoPackA to Adau, …, BardGrineerPackB to Plogg) |
| PackNames.PackName | parsesong.py:27-33 | a key of the table resolves to its entry, any other identifier to itself; the result is always a table value or the identifier |
| PackNames.NamesAreNotIdentifiers | parsesong.py:13-23 | no in-game name of the table is itself a key of the table |
| PackNames.PackNameIdempotent | parsesong.py:27-33 | resolving a name twice gives what resolving it once gives, for every identifier, known or not |
| BitMatrix.GetBit | parsesong.py:37-52 | the result is 0 or 1 for every buffer, including an empty one, and is 0 whenever offset + (row * numColumns + column) / 8 is past the end of the buffer |
| BitMatrix.FlatBit | parsesong.py:39-52 | the bit of a flat index is 0 or 1, and 0 when its byte lies past the end of the buffer |
| BitMatrix.FlatBitInRange | parsesong.py:39-46 | when the addressed byte exists, the result is position bit % 8 of that byte in stream order, which is bit 7 - bit % 8 of the byte when little-endian and bit bit % 8 otherwise |
| BitMatrix.BitOfIsShift | parsesong.py:52 | shifting right by k and masking with 1 yields bit k of the byte |
| BitMatrix.ByteBitsAt | parsesong.py:43-46 | position j of a byte's bits in stream order is bit 7 - j of the byte when little-endian, bit j otherwise |
| BitMatrix.ByteBitsReversed | parsesong.py:44-46 | the endianness flag reverses the order of the bits within each byte |
| BitMatrix.StreamAt | parsesong.py:39-43 | bit i of the flat bit stream of a buffer is position i % 8 of byte i / 8 |
| BitMatrix.StreamAfterOffset | parsesong.py:41-49 | bit `bit` of the stream of the bytes after the offset is position bit % 8 of byte offset + bit / 8, and 0 when that byte is missing |
| BitMatrix.FlatBitReadsStream | parsesong.py:37-52 | the bit read equals position `bit` of the flat bit stream of the bytes after the offset, and 0 past its end |
| BitMatrix.GetBitZeroPadding | parsesong.py:47-49 | appending zero bytes to the buffer changes no bit, so a payload whose trailing zero bytes were cut off reads like the full one |
| Decoder.Volume | parsesong.py:55-70 | "100%" exactly when both bytes are 0, "0%" exactly when they are 0xD1 and 0xD2, "?%" exactly for every other pair |
| Decoder.Header | parsesong.py:80-98 | there are four header lines: the name line, then the percussion line with its pack name and the volume of bytes 4 and 5, the bass line with bytes 2 and 3, and the melody line with bytes 0 and 1 |
| Decoder.Cell | parsesong.py:130-136 | a cell is never a bar or a dash, so it cannot be taken for a divider or part of a separator |
| Decoder.Render | parsesong.py:88-147 | the lines produced are the tablature specification (header, ruler, note rows from 12 down to 0 with their separators, footer); there are 21 of them and every line from the ruler on is 86 characters wide |
| Decoder.RenderGrid | parsesong.py:118-145 | the lines built by counting c down from 12 to 0 are the specified note rows, each followed by a separator when c is 10 or 5 |
| Decoder.RenderRow | parsesong.py:120-140 | the line built for note row c is the specified note row: each time column's divider and cell in order, then the closing "\|\|"; it is 86 characters wide |
| Decoder.DividerBars | parsesong.py:123-129 | the divider before time column r is two bars when r % 16 == 0, one bar when r % 4 == 0 otherwise, and nothing else |
| Decoder.PrefixWidthClosedForm | parsesong.py:122-129 | n time columns with their dividers take n + (n + 3) / 4 + (n + 15) / 16 characters: one bar before every fourth column and a second before every sixteenth |
| Decoder.CellPosClosedForm | parsesong.py:122-136 | the cell of time column r is character r + r/4 + r/16 + 2 of its row |
| Decoder.FullRowWidth | parsesong.py:122-136 | the 64 time columns with their dividers take 84 characters, before the closing "\|\|" |
| Decoder.RowPrefixLength | parsesong.py:122-136 | the first n columns of a row take n cells plus one bar per multiple of 4 and a second bar per multiple of 16 below n |
| Decoder.RowPrefixCell | parsesong.py:122-136 | the cell of time column r sits at position r + r/4 + r/16 + 2 of every prefix that includes it |
| Decoder.RowPrefixBar | parsesong.py:122-129 | every position of a row prefix that holds no cell holds a bar |
| Decoder.NoteRowLayout | parsesong.py:120-140 | a note row is 86 characters wide; position r + r/4 + r/16 + 2 holds the cell of time column r and every other position holds a bar |
| Decoder.NoteRowStartsWithBar | parsesong.py:123-126 | a note row begins with a bar (time column 0 opens a measure) |
| Decoder.NoteRowIsNotSeparator | parsesong.py:123-147 | no note row equals the separator line |
| Decoder.CellReadsTransposed | parsesong.py:100-113 | the cell of note row c and time column r is 'O' exactly when bit r * 13 + c of the bit stream after the six volume bytes is set, so the grid is the stored data transposed |
| Decoder.RowsFromLength | parsesong.py:120-145 | note rows 12 down to k take 13 - k lines plus one separator for each of rows 10 and 5 among them |
| Decoder.RowsFromAt | parsesong.py:120-145 | note row c appears at its place among rows 12 down to k, and a separator follows it when c is 10 or 5 |
| Decoder.TablatureParts | parsesong.py:95-147 | the output is 21 lines: four header lines and the ruler, the 15 lines of note rows and separators, and the footer separator |
| Decoder.TablatureHeader | parsesong.py:80-98 | the lines open with the name, then percussion (bytes 4, 5), bass (bytes 2, 3) and melody (bytes 0, 1), each with its in-game pack name and volume, then the ruler |
| Decoder.TablatureRow | parsesong.py:120-145 | note row c is printed on line 5 + (12 - c), moved down one line for each separator above it, and is followed by a separator when c is 10 or 5 |
| Decoder.RulerAndSeparator | parsesong.py:116-147 | the ruler and the separator are both 86 characters wide; the separator is all dashes |
| Decoder.RulerMarksMeasures | parsesong.py:116 | the number of measure m + 1 stands on the ruler right above the beat bar in the middle of measure m |
| Decoder.RulerDashes | parsesong.py:116 | every character of the ruler other than the four measure numbers is a dash |
| Decoder.TablatureWidth | parsesong.py:116-147 | any one line from the ruler on is 86 characters wide |
| Decoder.TablatureLineWidths | parsesong.py:116-147 | all 17 lines from the ruler on are 86 characters wide |
| Decoder.SeparatorPlacement | parsesong.py:142-147 | the line after note row c is a separator exactly when c is 10, 5 or 0 (0 being the footer) |
| Decoder.RowPrefixZeroPadding | parsesong.py:111-113 | appending zero bytes to the payload changes no row prefix |
| Decoder.RowsFromZeroPadding | parsesong.py:111-113 | appending zero bytes to the payload changes no note row or separator |
| Decoder.TablatureZeroPadding | parsesong.py:111-113 | a payload rendered with any number of zero bytes appended gives exactly the same lines |
| Decoder.TablatureCell | parsesong.py:131-136 | the printed cell of note row c and time column r is 'O' exactly when getBit(b, 13, r, c, 1, 6) is 1, and '.' exactly when it is 0 |
| Decoder.BlankGrid | parsesong.py:111-113 | when every byte after the six volume bytes is zero (in particular when there are none), every cell is '.' |
| Decoder.AllZeroPayload | parsesong.py:58-60 | an all-zero payload shows every part at "100%" and every cell as '.' |

## Left out

- Base64 decoding (`parsesong.py:86`) is a library call. The model takes the decoded bytes as its input.
- Command-line handling, opening and reading the log file (`parsesong.py:153-161`): I/O.
- The regular-expression search for `[SONG-…]` markers (`parsesong.py:159-164`). The five captured fields are parameters of `Render`.
- Printing the raw matched marker (`parsesong.py:166`). It is output of the driver loop, not of the rendering.
- `sys.stdout.flush()` (`parsesong.py:138`). Output is a returned sequence of lines, without newline characters.
- GetBit: its row, column, numColumns and offset are natural numbers. Python's behaviour for negative arguments (indexing from the end of the buffer) is not modelled. The only caller passes non-negative values.
- Render: a payload shorter than six bytes is excluded by `requires |b| >= 6`. The source fails on such a payload, at `parsesong.py:90` on `b[4]` or `b[5]` (an `IndexError`), instead of rendering it.
- Render: the outer loop over note rows is the separate method `RenderGrid`, and the inner loop over time columns the separate method `RenderRow`, called once per note row. The output is the same as with the nested loop.
- Cell: its own contract says only that a cell is never a bar or a dash. That it is 'O' exactly when the note bit is set and '.' otherwise is stated by `TablatureCell` and `CellReadsTransposed`, so that a proof about a whole row does not split on every one of its cells.
- Header: its contract gives each line's label, pack name and volume as a prefix and a suffix of that line. The exact lines are stated by `TablatureHeader`.
