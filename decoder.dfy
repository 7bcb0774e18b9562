/** The song decoder of parsesong.py once the payload is base64-decoded:
    volume sliders (`getVolume`), the header lines, and the 13 x 64 note
    grid rendered as ASCII tablature (the body of `parseSong`). */
module Decoder {
  import opened BitMatrix
  import opened PackNames

  /** Volume of one instrument part from its two slider bytes. Only two
      byte pairs are understood; every other pair is reported as unknown. */
  function Volume(b1: Byte, b2: Byte): (v: string)
    ensures v == "100%" <==> b1 == 0 && b2 == 0
    ensures v == "0%" <==> b1 == 0xD1 && b2 == 0xD2
    ensures v == "?%" <==> !(b1 == 0 && b2 == 0) && !(b1 == 0xD1 && b2 == 0xD2)
  {
    if b1 == 0 && b2 == 0 then "100%"
    else if b1 == 0xD1 && b2 == 0xD2 then "0%"
    else "?%"
  }

  /** The line above the note grid, numbering the four measures:
      11 dashes, "1", 20 dashes, "2", 20 dashes, "3", 20 dashes, "4", 11 dashes. */
  const Ruler: string := RulerEdge + "1" + RulerGap + "2" + RulerGap + "3" + RulerGap + "4" + RulerEdge

  const RulerEdge: string := "-----------"
  const RulerGap: string := Dashes10 + Dashes10

  /** The line between instrument sections and below the grid: 86 dashes. */
  const Separator: string := Dashes10 + Dashes10 + Dashes10 + Dashes10 + Dashes10
                           + Dashes10 + Dashes10 + Dashes10 + "------"

  const Dashes10: string := "----------"

  /** Width of every line from the ruler on. */
  const Width: nat := 86

  /** The marker written before time column r: a measure bar every 16
      columns, a beat bar every other 4 columns. */
  function Divider(r: nat): string
  {
    if r % 16 == 0 then "||" else if r % 4 == 0 then "|" else ""
  }

  /** The cell at note row c and time column r: the note bit sits at row r,
      column c of a 13-column bit matrix starting after the 6 volume bytes,
      bits counted from the top of each byte. A cell is a filled note 'O'
      or a blank '.' (TablatureCell says which), never a bar or a dash, so
      it is not mistaken for a divider or part of a separator. */
  function Cell(b: seq<Byte>, c: nat, r: nat): (cell: char)
    ensures cell != '|' && cell != '-'
  {
    if GetBit(b, 13, r, c, true, 6) == 1 then 'O' else '.'
  }

  /** The first n time columns of note row c, each preceded by its divider. */
  function RowPrefix(b: seq<Byte>, c: nat, n: nat): string
  {
    if n == 0 then "" else RowPrefix(b, c, n - 1) + Divider(n - 1) + [Cell(b, c, n - 1)]
  }

  /** Note row c: 64 time columns closed by a measure bar. */
  function NoteRow(b: seq<Byte>, c: nat): string
  {
    RowPrefix(b, c, 64) + "||"
  }

  /** A separator follows note rows 10 and 5. */
  function SectionBreak(c: nat): seq<string>
  {
    if c == 10 || c == 5 then [Separator] else []
  }

  /** The lines for note rows 12 down to k, with their separators. */
  function RowsFrom(b: seq<Byte>, k: nat): seq<string>
    decreases 13 - k
  {
    if k > 12 then [] else RowsFrom(b, k + 1) + [NoteRow(b, k)] + SectionBreak(k)
  }

  /** Name, then each part's instrument and volume. The slider bytes are
      stored percussion last: melody in bytes 0-1, bass in 2-3, percussion
      in 4-5, while the lines show percussion first. */
  function Header(name: string, b: seq<Byte>, melodyId: string, bassId: string,
                  percussionId: string): (h: seq<string>)
    requires |b| >= 6
    ensures |h| == 4 && StartsWith(h[0], "Name: ")
    ensures StartsWith(h[1], "Percussion: " + PackName(percussionId) + ": ") && EndsWith(h[1], Volume(b[4], b[5]))
    ensures StartsWith(h[2], "Bass: " + PackName(bassId) + ": ") && EndsWith(h[2], Volume(b[2], b[3]))
    ensures StartsWith(h[3], "Melody: " + PackName(melodyId) + ": ") && EndsWith(h[3], Volume(b[0], b[1]))
  {
    [ "Name: " + name,
      "Percussion: " + PackName(percussionId) + ": " + Volume(b[4], b[5]),
      "Bass: " + PackName(bassId) + ": " + Volume(b[2], b[3]),
      "Melody: " + PackName(melodyId) + ": " + Volume(b[0], b[1]) ]
  }

  /** Whether line s begins with prefix t. */
  predicate StartsWith(s: string, t: string)
  {
    |t| <= |s| && s[..|t|] == t
  }

  /** Whether line s ends with suffix t. */
  predicate EndsWith(s: string, t: string)
  {
    |t| <= |s| && s[|s| - |t|..] == t
  }

  /** Everything printed for one song, one string per line. */
  function Tablature(name: string, b: seq<Byte>, melodyId: string, bassId: string,
                     percussionId: string): seq<string>
    requires |b| >= 6
  {
    Header(name, b, melodyId, bassId, percussionId) + [Ruler] + RowsFrom(b, 0) + [Separator]
  }

  /** Index in the output of note row c (c = 12 is printed first). */
  function NoteLine(c: nat): nat
    requires c <= 12
  {
    5 + (12 - c) + (if c < 10 then 1 else 0) + (if c < 5 then 1 else 0)
  }

  /** Position within a note row of the cell for time column r: the last
      character of the prefix that ends with that column. */
  function CellPos(r: nat): nat
  {
    PrefixWidth(r + 1) - 1
  }

  /** Renders the song: the same lines the source prints, in order. */
  method Render(name: string, b: seq<Byte>, melodyId: string, bassId: string,
                percussionId: string) returns (lines: seq<string>)
    requires |b| >= 6
    ensures lines == Tablature(name, b, melodyId, bassId, percussionId)
    ensures |lines| == 21
    ensures forall i :: 4 <= i < |lines| ==> |lines[i]| == Width
  {
    var percussionVolume := Volume(b[4], b[5]);
    var bassVolume := Volume(b[2], b[3]);
    var melodyVolume := Volume(b[0], b[1]);
    var header := [ "Name: " + name,
                    "Percussion: " + PackName(percussionId) + ": " + percussionVolume,
                    "Bass: " + PackName(bassId) + ": " + bassVolume,
                    "Melody: " + PackName(melodyId) + ": " + melodyVolume ];
    assert header == Header(name, b, melodyId, bassId, percussionId);
    var grid := RenderGrid(b);
    lines := header + [Ruler] + grid + [Separator];
    TablatureLineWidths(name, b, melodyId, bassId, percussionId);
  }

  /** Renders the note rows, counting c down from 12 to 0, with a separator
      after rows 10 and 5. */
  method RenderGrid(b: seq<Byte>) returns (grid: seq<string>)
    ensures grid == RowsFrom(b, 0)
  {
    grid := [];
    var c := 12;
    while c >= 0
      invariant -1 <= c <= 12
      invariant grid == RowsFrom(b, c + 1)
    {
      var row := RenderRow(b, c);
      grid := grid + [row];
      if c == 10 || c == 5 {
        grid := grid + [Separator];
      }
      c := c - 1;
    }
    assert c + 1 == 0;
  }

  /** Renders note row c: each time column's divider and cell, then the
      closing measure bar. */
  method RenderRow(b: seq<Byte>, c: nat) returns (row: string)
    ensures row == NoteRow(b, c)
    ensures |row| == Width
  {
    row := "";
    var r := 0;
    while r < 64
      invariant 0 <= r <= 64
      invariant row == RowPrefix(b, c, r)
    {
      if r % 16 == 0 {
        row := row + "||";
      } else if r % 4 == 0 {
        row := row + "|";
      }
      if GetBit(b, 13, r, c, true, 6) == 1 {
        row := row + "O";
      } else {
        row := row + ".";
      }
      r := r + 1;
    }
    row := row + "||";
    RowPrefixLength(b, c, 64);
    FullRowWidth();
  }

  // ---------------------------------------------------------------------
  // Layout of one note row

  /** The number of characters in a prefix of n columns: each column adds
      its divider and its cell. */
  function PrefixWidth(n: nat): nat
  {
    if n == 0 then 0 else PrefixWidth(n - 1) + |Divider(n - 1)| + 1
  }

  /** Every divider is made of bars: two before a measure, one before a beat. */
  lemma DividerBars(r: nat)
    ensures |Divider(r)| == (if r % 16 == 0 then 2 else if r % 4 == 0 then 1 else 0)
    ensures forall i :: 0 <= i < |Divider(r)| ==> Divider(r)[i] == '|'
  {
  }

  lemma Quarters(m: nat)
    ensures (m + 4) / 4 == m / 4 + 1
    ensures (m + 3) / 4 == m / 4 + (if m % 4 == 0 then 0 else 1)
  {
  }

  lemma Sixteenths(m: nat)
    ensures (m + 16) / 16 == m / 16 + 1
    ensures (m + 15) / 16 == m / 16 + (if m % 16 == 0 then 0 else 1)
  {
  }

  /** The closed form of the prefix width grows by the divider and the cell
      of time column n - 1. */
  lemma WidthArith(n: nat)
    requires n > 0
    ensures n + (n + 3) / 4 + (n + 15) / 16
         == (n - 1) + (n - 1 + 3) / 4 + (n - 1 + 15) / 16 + |Divider(n - 1)| + 1
  {
    var m := n - 1;
    Quarters(m);
    Sixteenths(m);
    DividerBars(m);
    if m % 16 == 0 {
      MeasureIsBeat(m);
    }
  }

  /** A measure boundary is also a beat boundary. */
  lemma MeasureIsBeat(m: nat)
    requires m % 16 == 0
    ensures m % 4 == 0
  {
    var q := m / 16;
    assert m == 16 * q;
    assert m / 4 == 4 * q;
  }

  /** A prefix of n columns holds n cells, a bar before every fourth column
      and a second bar before every sixteenth. */
  lemma {:induction false} PrefixWidthClosedForm(n: nat)
    ensures PrefixWidth(n) == n + (n + 3) / 4 + (n + 15) / 16
  {
    if n > 0 {
      PrefixWidthClosedForm(n - 1);
      WidthArith(n);
    }
  }

  /** The cell of time column r follows r cells, r / 4 + 1 beat or measure
      bars and r / 16 + 1 second measure bars. */
  lemma CellPosClosedForm(r: nat)
    ensures CellPos(r) == r + r / 4 + r / 16 + 2
  {
    PrefixWidthClosedForm(r + 1);
    Quarters(r);
    Sixteenths(r);
  }

  /** A note row has 84 characters of cells and dividers before its closing bar. */
  lemma FullRowWidth()
    ensures PrefixWidth(64) == 84
  {
    PrefixWidthClosedForm(64);
  }

  /** The prefix of n columns is PrefixWidth(n) characters long. */
  lemma {:induction false} RowPrefixLength(b: seq<Byte>, c: nat, n: nat)
    ensures |RowPrefix(b, c, n)| == PrefixWidth(n)
  {
    if n > 0 {
      RowPrefixLength(b, c, n - 1);
    }
  }

  /** The cell of column r sits at CellPos(r) of every prefix that includes it. */
  lemma {:induction false} RowPrefixCell(b: seq<Byte>, c: nat, n: nat, r: nat)
    requires r < n
    ensures CellPos(r) < |RowPrefix(b, c, n)|
    ensures RowPrefix(b, c, n)[CellPos(r)] == Cell(b, c, r)
  {
    var prev, bars, cell := RowPrefix(b, c, n - 1), Divider(n - 1), [Cell(b, c, n - 1)];
    assert RowPrefix(b, c, n) == prev + bars + cell;
    if r < n - 1 {
      RowPrefixCell(b, c, n - 1, r);
      assert (prev + bars + cell)[CellPos(r)] == prev[CellPos(r)];
    } else {
      RowPrefixLength(b, c, n - 1);
      assert CellPos(r) == |prev| + |bars|;
      assert (prev + bars + cell)[|prev| + |bars|] == cell[0];
    }
  }

  /** Every position of a prefix that holds no cell holds a bar. */
  lemma {:induction false} RowPrefixBar(b: seq<Byte>, c: nat, n: nat, p: nat)
    requires p < |RowPrefix(b, c, n)|
    requires forall r :: 0 <= r < n ==> p != CellPos(r)
    ensures RowPrefix(b, c, n)[p] == '|'
  {
    var prev, bars, cell := RowPrefix(b, c, n - 1), Divider(n - 1), [Cell(b, c, n - 1)];
    assert RowPrefix(b, c, n) == prev + bars + cell;
    if p < |prev| {
      RowPrefixBar(b, c, n - 1, p);
      assert (prev + bars + cell)[p] == prev[p];
    } else {
      RowPrefixLength(b, c, n - 1);
      DividerBars(n - 1);
      assert p != CellPos(n - 1);
      assert (prev + bars + cell)[p] == bars[p - |prev|];
    }
  }

  /** A note row is 86 characters wide, as wide as the ruler and the
      separator; its cell for column r sits at CellPos(r) and is 'O' exactly
      when the note bit is set; every other position is a bar. */
  lemma NoteRowLayout(b: seq<Byte>, c: nat)
    ensures |NoteRow(b, c)| == Width
    ensures forall r :: 0 <= r < 64 ==>
              CellPos(r) < |NoteRow(b, c)| && NoteRow(b, c)[CellPos(r)] == Cell(b, c, r)
    ensures forall p :: 0 <= p < Width && (forall r :: 0 <= r < 64 ==> p != CellPos(r))
              ==> NoteRow(b, c)[p] == '|'
  {
    RowPrefixLength(b, c, 64);
    FullRowWidth();
    forall r | 0 <= r < 64
      ensures CellPos(r) < |NoteRow(b, c)| && NoteRow(b, c)[CellPos(r)] == Cell(b, c, r)
    {
      RowPrefixCell(b, c, 64, r);
    }
    forall p | 0 <= p < Width && (forall r :: 0 <= r < 64 ==> p != CellPos(r))
      ensures NoteRow(b, c)[p] == '|'
    {
      if p < |RowPrefix(b, c, 64)| {
        RowPrefixBar(b, c, 64, p);
      }
    }
  }

  /** A note row opens with a measure bar, unlike a separator line. */
  lemma NoteRowStartsWithBar(b: seq<Byte>, c: nat)
    ensures |NoteRow(b, c)| > 0 && NoteRow(b, c)[0] == '|'
  {
    RowPrefixLength(b, c, 64);
    FullRowWidth();
    forall r | 0 <= r < 64
      ensures 0 != CellPos(r)
    {
      CellPosClosedForm(r);
    }
    RowPrefixBar(b, c, 64, 0);
  }

  /** The cell of note row c, time column r reads the note data transposed:
      it is 'O' exactly when bit r * 13 + c of the bit stream after the
      six volume bytes (most significant bit of each byte first) is set,
      and '.' otherwise, also past the end of the payload. */
  lemma CellReadsTransposed(b: seq<Byte>, c: nat, r: nat)
    requires |b| >= 6
    ensures Cell(b, c, r) == if StreamBit(Stream(b[6..], true), r * 13 + c) == 1 then 'O' else '.'
  {
    var bit := r * 13 + c;
    assert GetBit(b, 13, r, c, true, 6) == FlatBit(b, bit, true, 6);
    FlatBitReadsStream(b, bit, true, 6);
    assert Tail(b, 6) == b[6..];
  }

  // ---------------------------------------------------------------------
  // Layout of the whole output

  lemma {:induction false} RowsFromLength(b: seq<Byte>, k: nat)
    requires k <= 13
    ensures |RowsFrom(b, k)| == (13 - k) + (if k <= 10 then 1 else 0) + (if k <= 5 then 1 else 0)
    decreases 13 - k
  {
    if k <= 12 {
      RowsFromLength(b, k + 1);
    }
  }

  /** The note rows appear from 12 down to k, with a separator after rows
      10 and 5. */
  lemma RowsFromAt(b: seq<Byte>, k: nat, c: nat)
    requires k <= c <= 12
    ensures NoteLine(c) - 5 < |RowsFrom(b, k)|
    ensures RowsFrom(b, k)[NoteLine(c) - 5] == NoteRow(b, c)
    ensures (c == 10 || c == 5) ==>
              NoteLine(c) - 4 < |RowsFrom(b, k)| && RowsFrom(b, k)[NoteLine(c) - 4] == Separator
  {
    NoteRowAt(b, k, c);
    if c == 10 || c == 5 {
      SeparatorAt(b, k, c);
    }
  }

  /** Note row c sits at index NoteLine(c) - 5 of the rows from 12 down to k. */
  lemma {:induction false} NoteRowAt(b: seq<Byte>, k: nat, c: nat)
    requires k <= c <= 12
    ensures NoteLine(c) - 5 < |RowsFrom(b, k)| && RowsFrom(b, k)[NoteLine(c) - 5] == NoteRow(b, c)
    decreases 13 - k
  {
    var rest := RowsFrom(b, k + 1);
    var i := NoteLine(c) - 5;
    if c > k {
      NoteRowAt(b, k + 1, c);
      assert RowsFrom(b, k)[i] == rest[i];
    } else {
      RowsFromLength(b, k + 1);
      assert |rest| == i;
      assert RowsFrom(b, k)[i] == NoteRow(b, k);
    }
  }

  /** The separator after note row 10 or 5 sits right below it. */
  lemma {:induction false} SeparatorAt(b: seq<Byte>, k: nat, c: nat)
    requires k <= c <= 12 && (c == 10 || c == 5)
    ensures NoteLine(c) - 4 < |RowsFrom(b, k)| && RowsFrom(b, k)[NoteLine(c) - 4] == Separator
    decreases 13 - k
  {
    var rest := RowsFrom(b, k + 1);
    var i := NoteLine(c) - 4;
    if c > k {
      SeparatorAt(b, k + 1, c);
      assert RowsFrom(b, k)[i] == rest[i];
    } else {
      RowsFromLength(b, k + 1);
      assert |rest| + 1 == i;
      assert RowsFrom(b, k)[i] == Separator;
    }
  }

  /** The output is the header, the ruler, the note rows and a final separator. */
  lemma TablatureParts(name: string, b: seq<Byte>, melodyId: string, bassId: string,
                       percussionId: string)
    requires |b| >= 6
    ensures var t := Tablature(name, b, melodyId, bassId, percussionId);
      && |t| == 21
      && t[..5] == Header(name, b, melodyId, bassId, percussionId) + [Ruler]
      && t[5..20] == RowsFrom(b, 0)
      && t[20] == Separator
  {
    RowsFromLength(b, 0);
    FramedParts(Header(name, b, melodyId, bassId, percussionId), Ruler, RowsFrom(b, 0), Separator);
  }

  /** Where the parts of a framed sequence of lines lie: four lines, one
      line, fifteen lines, one line. */
  lemma FramedParts<T>(head: seq<T>, top: T, body: seq<T>, bottom: T)
    requires |head| == 4 && |body| == 15
    ensures var t := head + [top] + body + [bottom];
      && |t| == 21
      && t[..5] == head + [top]
      && t[5..20] == body
      && t[20] == bottom
  {
    var t := head + [top] + body + [bottom];
    assert t[..5] == head + [top];
    assert t[5..20] == body;
  }

  /** The first lines: the song name, then percussion, bass and melody,
      each with its instrument's display name and volume, then the ruler. */
  lemma TablatureHeader(name: string, b: seq<Byte>, melodyId: string, bassId: string,
                        percussionId: string)
    requires |b| >= 6
    ensures var t := Tablature(name, b, melodyId, bassId, percussionId);
      && |t| == 21
      && t[0] == "Name: " + name
      && t[1] == "Percussion: " + PackName(percussionId) + ": " + Volume(b[4], b[5])
      && t[2] == "Bass: " + PackName(bassId) + ": " + Volume(b[2], b[3])
      && t[3] == "Melody: " + PackName(melodyId) + ": " + Volume(b[0], b[1])
      && t[4] == Ruler
  {
    var t := Tablature(name, b, melodyId, bassId, percussionId);
    TablatureParts(name, b, melodyId, bassId, percussionId);
    var head := t[..5];
    assert t[0] == head[0] && t[1] == head[1] && t[2] == head[2] && t[3] == head[3] && t[4] == head[4];
  }

  /** Note row c is printed on line NoteLine(c), followed by a separator
      when c is 10 or 5. */
  lemma TablatureRow(name: string, b: seq<Byte>, melodyId: string, bassId: string,
                     percussionId: string, c: nat)
    requires |b| >= 6
    requires c <= 12
    ensures var t := Tablature(name, b, melodyId, bassId, percussionId);
      && |t| == 21
      && t[NoteLine(c)] == NoteRow(b, c)
      && ((c == 10 || c == 5) ==> t[NoteLine(c) + 1] == Separator)
  {
    var t := Tablature(name, b, melodyId, bassId, percussionId);
    TablatureParts(name, b, melodyId, bassId, percussionId);
    var rows := t[5..20];
    RowsFromAt(b, 0, c);
    assert t[NoteLine(c)] == rows[NoteLine(c) - 5];
    if c == 10 || c == 5 {
      assert t[NoteLine(c) + 1] == rows[NoteLine(c) - 4];
    }
  }

  /** The ruler and the separator are 86 characters wide; the separator is
      all dashes. */
  lemma RulerAndSeparator()
    ensures |Ruler| == Width && |Separator| == Width
    ensures forall i :: 0 <= i < Width ==> Separator[i] == '-'
  {
  }

  /** Measure m + 1 is numbered on the ruler right above the beat bar in the
      middle of measure m (before time column 16 * m + 8). */
  lemma RulerMarksMeasures(m: nat)
    requires m < 4
    ensures CellPos(16 * m + 8) - 1 < |Ruler|
    ensures Ruler[CellPos(16 * m + 8) - 1] == "1234"[m]
  {
    CellPosClosedForm(16 * m + 8);
    assert CellPos(16 * m + 8) - 1 == 21 * m + 11;
  }

  /** Every character of the ruler other than the four measure numbers is a dash. */
  lemma RulerDashes(p: nat)
    requires p < |Ruler|
    requires p !in {11, 32, 53, 74}
    ensures Ruler[p] == '-'
  {
    assert forall i :: 0 <= i < |RulerEdge| ==> RulerEdge[i] == '-';
    assert forall i :: 0 <= i < |RulerGap| ==> RulerGap[i] == '-';
  }

  /** Every line from the ruler on is 86 characters wide. */
  lemma TablatureWidth(name: string, b: seq<Byte>, melodyId: string, bassId: string,
                       percussionId: string, i: nat)
    requires |b| >= 6
    requires 4 <= i < 21
    ensures var t := Tablature(name, b, melodyId, bassId, percussionId);
      |t| == 21 && |t[i]| == Width
  {
    RulerAndSeparator();
    if i == 4 {
      TablatureHeader(name, b, melodyId, bassId, percussionId);
    } else if i == 8 {
      TablatureRow(name, b, melodyId, bassId, percussionId, 10);
    } else if i == 14 {
      TablatureRow(name, b, melodyId, bassId, percussionId, 5);
    } else if i == 20 {
      TablatureParts(name, b, melodyId, bassId, percussionId);
    } else {
      var c: nat := if i < 8 then 17 - i else if i < 14 then 18 - i else 19 - i;
      assert NoteLine(c) == i;
      TablatureRow(name, b, melodyId, bassId, percussionId, c);
      NoteRowLayout(b, c);
    }
  }

  /** Every line from the ruler on is 86 characters wide. */
  lemma TablatureLineWidths(name: string, b: seq<Byte>, melodyId: string, bassId: string,
                            percussionId: string)
    requires |b| >= 6
    ensures var t := Tablature(name, b, melodyId, bassId, percussionId);
      |t| == 21 && forall i :: 4 <= i < |t| ==> |t[i]| == Width
  {
    var t := Tablature(name, b, melodyId, bassId, percussionId);
    TablatureParts(name, b, melodyId, bassId, percussionId);
    forall i | 4 <= i < |t|
      ensures |t[i]| == Width
    {
      TablatureWidth(name, b, melodyId, bassId, percussionId, i);
    }
  }

  /** A separator line follows note row c exactly when c is 10 or 5, or c is
      the last row printed (the final separator). */
  lemma SeparatorPlacement(name: string, b: seq<Byte>, melodyId: string, bassId: string,
                           percussionId: string, c: nat)
    requires |b| >= 6
    requires c <= 12
    ensures var t := Tablature(name, b, melodyId, bassId, percussionId);
      NoteLine(c) + 1 < |t| && (t[NoteLine(c) + 1] == Separator <==> c == 10 || c == 5 || c == 0)
  {
    var t := Tablature(name, b, melodyId, bassId, percussionId);
    var next := NoteLine(c) + 1;
    TablatureRow(name, b, melodyId, bassId, percussionId, c);
    if c == 0 {
      TablatureParts(name, b, melodyId, bassId, percussionId);
      assert next == 20;
      assert t[next] == Separator;
    } else if c == 10 || c == 5 {
      assert t[next] == Separator;
    } else {
      assert next == NoteLine(c - 1);
      TablatureRow(name, b, melodyId, bassId, percussionId, c - 1);
      NoteRowIsNotSeparator(b, c - 1);
      assert t[next] != Separator;
    }
  }

  /** A note row opens with a bar, so it is never taken for a separator. */
  lemma NoteRowIsNotSeparator(b: seq<Byte>, c: nat)
    ensures NoteRow(b, c) != Separator
  {
    NoteRowStartsWithBar(b, c);
    assert Separator[0] == '-';
  }

  // ---------------------------------------------------------------------
  // Truncated payloads

  /** Zero bytes appended to a payload change no cell. */
  lemma {:induction false} RowPrefixZeroPadding(b: seq<Byte>, zeros: seq<Byte>, c: nat, n: nat)
    requires forall i :: 0 <= i < |zeros| ==> zeros[i] == 0
    ensures RowPrefix(b + zeros, c, n) == RowPrefix(b, c, n)
  {
    if n > 0 {
      RowPrefixZeroPadding(b, zeros, c, n - 1);
      GetBitZeroPadding(b, zeros, 13, n - 1, c, true, 6);
      assert Cell(b + zeros, c, n - 1) == Cell(b, c, n - 1);
    }
  }

  lemma {:induction false} RowsFromZeroPadding(b: seq<Byte>, zeros: seq<Byte>, k: nat)
    requires forall i :: 0 <= i < |zeros| ==> zeros[i] == 0
    ensures RowsFrom(b + zeros, k) == RowsFrom(b, k)
    decreases 13 - k
  {
    if k <= 12 {
      RowsFromZeroPadding(b, zeros, k + 1);
      RowPrefixZeroPadding(b, zeros, k, 64);
    }
  }

  /** The sender drops trailing blank note data: rendering a payload with any
      number of zero bytes appended gives exactly the same output. */
  lemma TablatureZeroPadding(name: string, b: seq<Byte>, zeros: seq<Byte>, melodyId: string,
                             bassId: string, percussionId: string)
    requires |b| >= 6
    requires forall i :: 0 <= i < |zeros| ==> zeros[i] == 0
    ensures Tablature(name, b + zeros, melodyId, bassId, percussionId)
         == Tablature(name, b, melodyId, bassId, percussionId)
  {
    var padded := b + zeros;
    assert padded[0] == b[0] && padded[1] == b[1] && padded[2] == b[2];
    assert padded[3] == b[3] && padded[4] == b[4] && padded[5] == b[5];
    assert Header(name, padded, melodyId, bassId, percussionId)
        == Header(name, b, melodyId, bassId, percussionId);
    RowsFromZeroPadding(b, zeros, 0);
  }

  /** The printed cell of note row c, time column r is 'O' exactly when
      GetBit(b, 13, r, c, true, 6) is 1, and '.' otherwise. */
  lemma TablatureCell(name: string, b: seq<Byte>, melodyId: string, bassId: string,
                      percussionId: string, c: nat, r: nat)
    requires |b| >= 6
    requires c <= 12 && r < 64
    ensures var t := Tablature(name, b, melodyId, bassId, percussionId);
      && NoteLine(c) < |t| && CellPos(r) < |t[NoteLine(c)]|
      && (t[NoteLine(c)][CellPos(r)] == 'O' <==> GetBit(b, 13, r, c, true, 6) == 1)
      && (t[NoteLine(c)][CellPos(r)] == '.' <==> GetBit(b, 13, r, c, true, 6) == 0)
  {
    TablatureRow(name, b, melodyId, bassId, percussionId, c);
    NoteRowLayout(b, c);
  }

  /** A payload with no set note bits after the volume bytes (in particular
      one of exactly six bytes) renders every cell as '.'. */
  lemma BlankGrid(name: string, b: seq<Byte>, melodyId: string, bassId: string,
                  percussionId: string, c: nat, r: nat)
    requires |b| >= 6
    requires forall i :: 6 <= i < |b| ==> b[i] == 0
    requires c <= 12 && r < 64
    ensures var t := Tablature(name, b, melodyId, bassId, percussionId);
      NoteLine(c) < |t| && CellPos(r) < |t[NoteLine(c)]| && t[NoteLine(c)][CellPos(r)] == '.'
  {
    TablatureCell(name, b, melodyId, bassId, percussionId, c, r);
    GetBitZeroPadding(b[..6], b[6..], 13, r, c, true, 6);
    assert b[..6] + b[6..] == b;
  }

  /** An all-zero payload (the base64 of which is all 'A's) shows every part
      at full volume and an entirely blank grid. */
  lemma AllZeroPayload(name: string, b: seq<Byte>, melodyId: string, bassId: string,
                       percussionId: string, c: nat, r: nat)
    requires |b| >= 6
    requires forall i :: 0 <= i < |b| ==> b[i] == 0
    requires c <= 12 && r < 64
    ensures var t := Tablature(name, b, melodyId, bassId, percussionId);
      && |t| == 21
      && t[1] == "Percussion: " + PackName(percussionId) + ": 100%"
      && t[2] == "Bass: " + PackName(bassId) + ": 100%"
      && t[3] == "Melody: " + PackName(melodyId) + ": 100%"
      && NoteLine(c) < |t| && CellPos(r) < |t[NoteLine(c)]|
      && t[NoteLine(c)][CellPos(r)] == '.'
  {
    assert b[0] == b[1] == b[2] == b[3] == b[4] == b[5] == 0;
    assert Volume(b[4], b[5]) == Volume(b[2], b[3]) == Volume(b[0], b[1]) == "100%";
    TablatureHeader(name, b, melodyId, bassId, percussionId);
    BlankGrid(name, b, melodyId, bassId, percussionId, c, r);
  }
}
