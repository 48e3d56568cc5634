/** Rendering a QR code two module rows to a text line, and reading it back. */
module LoginQr {
  import opened TextLines

  const QUIET_ZONE_WIDTH: nat := 2

  /** A square code: `dark(col, row)` for coordinates below `size`. */
  datatype Code = Code(size: nat, dark: (nat, nat) -> bool)

  /** Width of the code with its border. */
  function FullSize(code: Code): nat { code.size + QUIET_ZONE_WIDTH * 2 }

  /** Dark modules of the bordered code; everything outside the code is light. */
  predicate DarkAt(code: Code, col: nat, row: nat) {
    && QUIET_ZONE_WIDTH <= col < code.size + QUIET_ZONE_WIDTH
    && QUIET_ZONE_WIDTH <= row < code.size + QUIET_ZONE_WIDTH
    && code.dark(col - QUIET_ZONE_WIDTH, row - QUIET_ZONE_WIDTH)
  }

  const FULL: char := '\U{2588}'
  const UPPER: char := '\U{2580}'
  const LOWER: char := '\U{2584}'

  function Glyph(top: bool, bottom: bool): char {
    if top then (if bottom then FULL else UPPER) else if bottom then LOWER else ' '
  }

  /** The line for rows `row` and `row + 1`, up to column `width`. */
  function Line(code: Code, row: nat, width: nat): (r: string)
    ensures |r| == width
  {
    if width == 0 then []
    else
      var bottom := row + 1 < FullSize(code) && DarkAt(code, width - 1, row + 1);
      Line(code, row, width - 1) + [Glyph(DarkAt(code, width - 1, row), bottom)]
  }

  /** The lines from `row` on. */
  function LinesFrom(code: Code, row: nat): seq<string>
    decreases FullSize(code) - row
  {
    if row >= FullSize(code) then [] else [Line(code, row, FullSize(code))] + LinesFrom(code, row + 2)
  }

  function Rendered(code: Code): string { Join(LinesFrom(code, 0), '\n') }

  lemma JoinMore(line: string, lines: seq<string>, sep: char)
    requires lines != []
    ensures Join([line] + lines, sep) == line + [sep] + Join(lines, sep)
  {
    assert ([line] + lines)[1..] == lines;
  }

  method RenderLine(code: Code, row: nat) returns (line: string)
    requires row < FullSize(code)
    ensures line == Line(code, row, FullSize(code))
  {
    var size := FullSize(code);
    line := "";
    for col := 0 to size
      invariant line == Line(code, row, col)
    {
      var top := DarkAt(code, col, row);
      var bottom := if row + 1 < size then DarkAt(code, col, row + 1) else false;
      line := line + [Glyph(top, bottom)];
    }
  }

  method RenderUnicodeQr(code: Code) returns (out: string)
    ensures out == Rendered(code)
  {
    var size := FullSize(code);
    out := "";
    var row: nat := 0;
    while row < size
      invariant Rendered(code) == out + Join(LinesFrom(code, row), '\n')
      decreases if row < size then size - row else 0
    {
      var line := RenderLine(code, row);
      out := out + line;
      if row + 2 < size {
        JoinMore(line, LinesFrom(code, row + 2), '\n');
        out := out + ['\n'];
      } else {
        assert LinesFrom(code, row) == [line];
      }
      row := row + 2;
    }
  }

  // ---------- reading it back ----------

  predicate TopDark(c: char) { c == FULL || c == UPPER }

  predicate BottomDark(c: char) { c == FULL || c == LOWER }

  /** Whether the text shows a dark module at `col`, `row`; nothing is shown outside the lines. */
  predicate Shows(text: string, col: nat, row: nat) {
    var lines := Split(text, '\n');
    && row / 2 < |lines| && col < |lines[row / 2]|
    && if row % 2 == 0 then TopDark(lines[row / 2][col]) else BottomDark(lines[row / 2][col])
  }

  lemma {:induction false} LineShows(code: Code, row: nat, width: nat, col: nat)
    requires col < width
    ensures TopDark(Line(code, row, width)[col]) <==> DarkAt(code, col, row)
    ensures BottomDark(Line(code, row, width)[col]) <==> row + 1 < FullSize(code) && DarkAt(code, col, row + 1)
  {
    if col < width - 1 {
      LineShows(code, row, width - 1, col);
    }
  }

  lemma {:induction false} LineHasNoNewline(code: Code, row: nat, width: nat)
    ensures '\n' !in Line(code, row, width)
  {
    if width > 0 {
      LineHasNoNewline(code, row, width - 1);
    }
  }

  lemma {:induction false} LinesAre(code: Code, row: nat)
    requires row % 2 == 0 && row <= FullSize(code) + 1
    ensures var lines := LinesFrom(code, row);
      && |lines| == (FullSize(code) + 1) / 2 - row / 2
      && forall k :: 0 <= k < |lines| ==> lines[k] == Line(code, row + 2 * k, FullSize(code)) && '\n' !in lines[k]
    decreases FullSize(code) + 2 - row
  {
    if row < FullSize(code) {
      LinesAre(code, row + 2);
      LineHasNoNewline(code, row, FullSize(code));
      var rest := LinesFrom(code, row + 2);
      var lines := LinesFrom(code, row);
      forall k | 0 <= k < |lines| ensures lines[k] == Line(code, row + 2 * k, FullSize(code)) && '\n' !in lines[k] {
        if k > 0 {
          assert lines[k] == rest[k - 1];
        }
      }
    }
  }

  /** The text has one line for every two rows of the bordered code, each as wide as the code. */
  lemma RenderedLines(code: Code)
    ensures var lines := Split(Rendered(code), '\n');
      && |lines| == (FullSize(code) + 1) / 2
      && forall k :: 0 <= k < |lines| ==> lines[k] == Line(code, 2 * k, FullSize(code)) && |lines[k]| == FullSize(code)
  {
    LinesAre(code, 0);
    SplitUndoesJoin(LinesFrom(code, 0), '\n');
  }

  /**
   * Reading the text gives back exactly the modules inside a light border; the extra row of an odd size
   * and everything outside is light.
   */
  lemma ShowsExactlyTheCode(code: Code, col: nat, row: nat)
    ensures Shows(Rendered(code), col, row) <==> DarkAt(code, col, row)
  {
    RenderedLines(code);
    var lines := Split(Rendered(code), '\n');
    if row / 2 < |lines| && col < FullSize(code) {
      assert lines[row / 2] == Line(code, 2 * (row / 2), FullSize(code));
      LineShows(code, 2 * (row / 2), FullSize(code), col);
    }
  }

  /** Module by module: those of the code, two positions in, and nothing dark around them. */
  lemma ShowsModules(code: Code, col: nat, row: nat)
    ensures col < code.size && row < code.size ==> (Shows(Rendered(code), col + 2, row + 2) <==> code.dark(col, row))
    ensures col < 2 || row < 2 || col >= code.size + 2 || row >= code.size + 2 ==> !Shows(Rendered(code), col, row)
  {
    ShowsExactlyTheCode(code, col + 2, row + 2);
    ShowsExactlyTheCode(code, col, row);
  }

  /** Hence no two codes that differ in a module are rendered alike. */
  lemma RenderingIsInjective(a: Code, b: Code)
    requires Rendered(a) == Rendered(b)
    ensures a.size == b.size
    ensures forall col: nat, row: nat :: col < a.size && row < a.size ==> a.dark(col, row) == b.dark(col, row)
  {
    RenderedLines(a);
    RenderedLines(b);
    assert Split(Rendered(a), '\n')[0] == Line(a, 0, FullSize(a));
    forall col: nat, row: nat | col < a.size && row < a.size ensures a.dark(col, row) == b.dark(col, row) {
      ShowsExactlyTheCode(a, col + QUIET_ZONE_WIDTH, row + QUIET_ZONE_WIDTH);
      ShowsExactlyTheCode(b, col + QUIET_ZONE_WIDTH, row + QUIET_ZONE_WIDTH);
    }
  }
}
