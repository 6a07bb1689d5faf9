/** The board view: square naming from grid indices, square shading, piece letters and their
    colour, the fallback for a position the parser rejects, and coordinate labels. The grid is
    indexed `(file, row)` with row 0 the top row, rank 8. The position parser (chess.js) is a
    parameter. */
module ChessBoard {
  import opened Types
  import Text

  const Files: string := "abcdefgh"
  const Ranks: string := "87654321"

  predicate OnBoard(file: int, row: int)
  {
    0 <= file < 8 && 0 <= row < 8
  }

  /** `FILES[file] + RANKS[row]`. */
  function SquareName(file: int, row: int): (name: string)
    requires OnBoard(file, row)
    ensures |name| == 2
    ensures 'a' <= name[0] <= 'h' && name[0] as int - 'a' as int == file
    ensures '1' <= name[1] <= '8' && '8' as int - name[1] as int == row
  {
    [Files[file], Ranks[row]]
  }

  /** The inverse of `SquareName`: the grid position of an algebraic square name. */
  function SquareIndex(name: string): Option<(int, int)>
  {
    if |name| == 2 && 'a' <= name[0] <= 'h' && '1' <= name[1] <= '8'
    then Some((name[0] as int - 'a' as int, '8' as int - name[1] as int))
    else None
  }

  lemma SquareIndexRoundTrip(file: int, row: int)
    requires OnBoard(file, row)
    ensures SquareIndex(SquareName(file, row)) == Some((file, row))
  {
  }

  lemma SquareIndexSound(name: string)
    requires SquareIndex(name).Some?
    ensures OnBoard(SquareIndex(name).value.0, SquareIndex(name).value.1)
    ensures SquareName(SquareIndex(name).value.0, SquareIndex(name).value.1) == name
  {
  }

  /** Distinct grid positions have distinct names. */
  lemma SquareNameInjective(f1: int, r1: int, f2: int, r2: int)
    requires OnBoard(f1, r1) && OnBoard(f2, r2)
    requires SquareName(f1, r1) == SquareName(f2, r2)
    ensures f1 == f2 && r1 == r2
  {
    SquareIndexRoundTrip(f1, r1);
    SquareIndexRoundTrip(f2, r2);
  }

  /** `isHighlighted`. */
  predicate IsHighlighted(highlights: seq<string>, file: int, row: int)
    requires OnBoard(file, row)
  {
    SquareName(file, row) in highlights
  }

  predicate IsLight(file: int, row: int)
  {
    (row + file) % 2 == 0
  }

  datatype Shade = Highlighted | LightSquare | DarkSquare

  /** The square's background: the highlight wins over the light/dark pattern. */
  function SquareShade(highlights: seq<string>, file: int, row: int): (s: Shade)
    requires OnBoard(file, row)
    ensures s == Highlighted <==> SquareName(file, row) in highlights
    ensures s == LightSquare <==> SquareName(file, row) !in highlights && (row + file) % 2 == 0
    ensures s == DarkSquare <==> SquareName(file, row) !in highlights && (row + file) % 2 == 1
  {
    if IsHighlighted(highlights, file, row) then Highlighted
    else if IsLight(file, row) then LightSquare
    else DarkSquare
  }

  /** The pattern matches a real board: h1 is light, a1 is dark, neighbours differ. */
  lemma ShadeOrientation(file: int, row: int)
    requires OnBoard(file, row)
    ensures IsLight(7, 7) && !IsLight(0, 7)
    ensures file + 1 < 8 ==> (IsLight(file, row) <==> !IsLight(file + 1, row))
    ensures row + 1 < 8 ==> (IsLight(file, row) <==> !IsLight(file, row + 1))
  {
  }

  datatype PieceKind = Pawn | Knight | Bishop | Rook | Queen | King
  datatype Color = White | Black

  /** chess.js reports a piece's type as a lower-case letter. */
  function KindLetter(k: PieceKind): char
  {
    match k
    case Pawn => 'p'
    case Knight => 'n'
    case Bishop => 'b'
    case Rook => 'r'
    case Queen => 'q'
    case King => 'k'
  }

  /** White pieces are upper-cased, black pieces lower-cased. */
  function PieceLetter(k: PieceKind, c: Color): (l: char)
    ensures c == White ==> Text.IsUpperAscii(l)
    ensures c == Black ==> Text.IsLowerAscii(l)
    ensures Text.Lower(l) == KindLetter(k)
  {
    if c == White then Text.Upper(KindLetter(k)) else Text.Lower(KindLetter(k))
  }

  /** The glyph is drawn in white exactly when the letter equals its upper-case form. */
  predicate DrawnWhite(letter: char)
  {
    letter == Text.Upper(letter)
  }

  lemma DrawnWhiteIffWhitePiece(k: PieceKind, c: Color)
    ensures DrawnWhite(PieceLetter(k, c)) <==> c == White
  {
  }

  /** The parser's view of a position: rows top to bottom, each a row of optional pieces. */
  type Placement = seq<seq<Option<(PieceKind, Color)>>>

  function CellLetter(cell: Option<(PieceKind, Color)>): Option<char>
  {
    match cell
    case None => None
    case Some((k, c)) => Some(PieceLetter(k, c))
  }

  const EmptyBoard: seq<seq<Option<char>>> := seq(8, _ => seq(8, _ => None))

  /** The letters drawn on the board for `fen`: the parser's placement cell by cell, or an
      8x8 board of empty squares when the parser rejects the position. */
  function Board(parse: string -> Option<Placement>, fen: string): (b: seq<seq<Option<char>>>)
    ensures parse(fen).None? ==>
      |b| == 8 && forall r :: 0 <= r < 8 ==> |b[r]| == 8 && forall f :: 0 <= f < 8 ==> b[r][f].None?
    ensures parse(fen).Some? ==>
      var p := parse(fen).value;
      |b| == |p| && forall r :: 0 <= r < |p| ==>
        |b[r]| == |p[r]| && forall f :: 0 <= f < |p[r]| ==> b[r][f] == CellLetter(p[r][f])
  {
    match parse(fen)
    case None => EmptyBoard
    case Some(p) => seq(|p|, r requires 0 <= r < |p| => seq(|p[r]|, f requires 0 <= f < |p[r]| => CellLetter(p[r][f])))
  }

  /** Reference reading of a placement by square name: the piece the parser puts on the named
      square, if the name is a square and the placement reaches it. */
  function PieceOn(p: Placement, square: string): Option<(PieceKind, Color)>
  {
    match SquareIndex(square)
    case None => None
    case Some((file, row)) => if row < |p| && file < |p[row]| then p[row][file] else None
  }

  /** For an accepted position, the square drawn at a grid index shows the letter of exactly
      the piece the parser puts on the square of that name, and no letter for an empty one. */
  lemma {:induction false} BoardShowsSquarePieces(parse: string -> Option<Placement>, fen: string, file: int, row: int)
    requires OnBoard(file, row)
    requires parse(fen).Some? && |parse(fen).value| == 8
    requires forall r :: 0 <= r < 8 ==> |parse(fen).value[r]| == 8
    ensures var b := Board(parse, fen);
      && |b| == 8 && |b[row]| == 8
      && b[row][file] == CellLetter(PieceOn(parse(fen).value, SquareName(file, row)))
  {
    SquareIndexRoundTrip(file, row);
  }

  /** The drawn letter identifies the piece: kind and colour. */
  lemma PieceLetterInjective(k1: PieceKind, c1: Color, k2: PieceKind, c2: Color)
    requires PieceLetter(k1, c1) == PieceLetter(k2, c2)
    ensures k1 == k2 && c1 == c2
  {
    DrawnWhiteIffWhitePiece(k1, c1);
    DrawnWhiteIffWhitePiece(k2, c2);
  }

  /** The rank digit drawn on a square, shown only down the left-most file. */
  function RankLabel(showCoordinates: bool, file: int, row: int): (l: Option<char>)
    requires OnBoard(file, row)
    ensures l.Some? <==> showCoordinates && file == 0
    ensures l.Some? ==> l.value == SquareName(file, row)[1]
  {
    if showCoordinates && file == 0 then Some(Ranks[row]) else None
  }

  /** The file letter drawn on a square, shown only along the bottom row. */
  function FileLabel(showCoordinates: bool, file: int, row: int): (l: Option<char>)
    requires OnBoard(file, row)
    ensures l.Some? <==> showCoordinates && row == 7
    ensures l.Some? ==> l.value == SquareName(file, row)[0]
  {
    if showCoordinates && row == 7 then Some(Files[file]) else None
  }
}
