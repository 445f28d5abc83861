// The shared type declarations of the game: positions, grid sizes, the three
// string-literal unions (colour, orientation, piece name), pieces and the
// optional active piece.
module TetrisTypes {

  datatype Option<T> = None | Some(value: T)

  /** A grid cell; y grows downward and may be negative (above the board).
      `pivotPoint` is an optional flag that nothing in the game reads. */
  datatype Position = Position(x: int, y: int, pivotPoint: Option<bool>)

  datatype GridSize = GridSize(x: int, y: int)

  datatype TetrisColor = Cyan | Yellow | Purple | Green | Red | Blue | Orange

  datatype Orientation = N | E | S | W

  datatype BlockName = I | O | T | S | Z | J | L

  /** A piece: its shape is an unbounded list of cells at the type level. */
  datatype TetrisBlock = TetrisBlock(
    name: BlockName,
    color: TetrisColor,
    orientation: Orientation,
    shape: seq<Position>)

  /** `None` stands for "no active piece". */
  type CurrentBlock = Option<TetrisBlock>

  const AllOrientations: seq<Orientation> := [N, E, Orientation.S, W]
  const AllBlockNames: seq<BlockName> := [I, O, T, BlockName.S, Z, J, L]
  const AllColors: seq<TetrisColor> := [Cyan, Yellow, Purple, Green, Red, Blue, Orange]

  /** The string literal the source uses for each colour (also a CSS colour). */
  function ColorName(c: TetrisColor): (r: string)
    ensures |r| >= 3
  {
    match c
    case Cyan => "cyan"
    case Yellow => "yellow"
    case Purple => "purple"
    case Green => "green"
    case Red => "red"
    case Blue => "blue"
    case Orange => "orange"
  }

  /** The string literal the source uses for each orientation. */
  function OrientationName(o: Orientation): (r: string)
    ensures |r| == 1
  {
    match o
    case N => "N"
    case E => "E"
    case S => "S"
    case W => "W"
  }

  /** The string literal the source uses for each piece name. */
  function BlockNameString(n: BlockName): (r: string)
    ensures |r| == 1
  {
    match n
    case I => "I"
    case O => "O"
    case T => "T"
    case S => "S"
    case Z => "Z"
    case J => "J"
    case L => "L"
  }

  predicate Distinct<X(==)>(s: seq<X>)
  {
    forall i, j :: 0 <= i < j < |s| ==> s[i] != s[j]
  }

  /** Orientation is exactly the four literals "N" | "E" | "S" | "W". */
  lemma OrientationValues()
    ensures |AllOrientations| == 4 && Distinct(AllOrientations)
    ensures forall o: Orientation :: o in AllOrientations
    ensures forall o, o' :: OrientationName(o) == OrientationName(o') ==> o == o'
  {
    forall o: Orientation ensures o in AllOrientations {
      match o
      case N => assert AllOrientations[0] == o;
      case E => assert AllOrientations[1] == o;
      case S => assert AllOrientations[2] == o;
      case W => assert AllOrientations[3] == o;
    }
  }

  /** BlockName and TetrisColor each have exactly seven values, and their
      string literals are pairwise different. */
  lemma NameAndColorValues()
    ensures |AllBlockNames| == 7 && Distinct(AllBlockNames)
    ensures forall n: BlockName :: n in AllBlockNames
    ensures forall n, n' :: BlockNameString(n) == BlockNameString(n') ==> n == n'
    ensures |AllColors| == 7 && Distinct(AllColors)
    ensures forall c: TetrisColor :: c in AllColors
    ensures forall c, c' :: ColorName(c) == ColorName(c') ==> c == c'
  {
    forall n: BlockName ensures n in AllBlockNames {
      match n
      case I => assert AllBlockNames[0] == n;
      case O => assert AllBlockNames[1] == n;
      case T => assert AllBlockNames[2] == n;
      case S => assert AllBlockNames[3] == n;
      case Z => assert AllBlockNames[4] == n;
      case J => assert AllBlockNames[5] == n;
      case L => assert AllBlockNames[6] == n;
    }
    forall c: TetrisColor ensures c in AllColors {
      match c
      case Cyan => assert AllColors[0] == c;
      case Yellow => assert AllColors[1] == c;
      case Purple => assert AllColors[2] == c;
      case Green => assert AllColors[3] == c;
      case Red => assert AllColors[4] == c;
      case Blue => assert AllColors[5] == c;
      case Orange => assert AllColors[6] == c;
    }
  }
}
