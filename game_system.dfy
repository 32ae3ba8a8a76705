/**
 * The game system: a player and a dungeon grid of halls, and the player's position on
 * it. Moving the player takes one step in a direction, clamped to the grid, and is
 * refused when the hall it would reach is empty.
 */
module GameSystems {
  import opened Characters

  datatype Direction = Up | Down | Left | Right

  /** The kind of a hall; an `Empty` hall cannot be entered. */
  datatype HallType = Empty | Enemy | Treasure | Way | Exit

  /** The dungeon's halls by row: `halls[y][x]`. */
  type Grid = seq<seq<HallType>>

  /** A non-empty grid whose rows all have the length of the first one. */
  predicate IsGrid(g: Grid)
  {
    |g| > 0 && |g[0]| > 0 && forall y :: 0 <= y < |g| ==> |g[y]| == |g[0]|
  }

  function Rows(g: Grid): nat { |g| }

  function Cols(g: Grid): nat
    requires |g| > 0
  {
    |g[0]|
  }

  datatype Pos = Pos(x: int, y: int)

  predicate InBounds(g: Grid, p: Pos)
    requires IsGrid(g)
  {
    0 <= p.x < Cols(g) && 0 <= p.y < Rows(g)
  }

  /** `dungeon.getHall(x, y)`. */
  function HallAt(g: Grid, p: Pos): HallType
    requires IsGrid(g) && InBounds(g, p)
  {
    g[p.y][p.x]
  }

  function Max(a: int, b: int): int { if a >= b then a else b }

  function Min(a: int, b: int): int { if a <= b then a else b }

  /** The square a move heads for: one step in the direction, clamped to the grid. */
  function Destination(g: Grid, p: Pos, d: Direction): Pos
    requires IsGrid(g)
  {
    match d
    case Up => Pos(p.x, Max(0, p.y - 1))
    case Down => Pos(p.x, Min(Rows(g) - 1, p.y + 1))
    case Right => Pos(Min(Cols(g) - 1, p.x + 1), p.y)
    case Left => Pos(Max(0, p.x - 1), p.y)
  }

  /** Where `movePlayer(d)` leaves the player: at the destination unless that hall is empty. */
  function Moved(g: Grid, p: Pos, d: Direction): Pos
    requires IsGrid(g) && InBounds(g, p)
  {
    var q := Destination(g, p, d);
    if HallAt(g, q) == Empty then p else q
  }

  /** Where a series of moves leaves the player. */
  function Walk(g: Grid, p: Pos, ds: seq<Direction>): (q: Pos)
    requires IsGrid(g) && InBounds(g, p)
    ensures InBounds(g, q)
    decreases |ds|
  {
    if ds == [] then p
    else
      MoveStaysInBounds(g, p, ds[0]);
      Walk(g, Moved(g, p, ds[0]), ds[1..])
  }

  /** The player's position, updated in place. */
  class Position {
    var x: int
    var y: int

    constructor (x: int, y: int)
      ensures this.x == x && this.y == y
    {
      this.x := x;
      this.y := y;
    }

    function At(): Pos
      reads this
    {
      Pos(x, y)
    }
  }

  class GameSystem {
    const player: Character
    const halls: Grid
    const playerPosition: Position

    ghost predicate Valid()
      reads playerPosition
    {
      IsGrid(halls) && InBounds(halls, playerPosition.At())
    }

    /** The dungeon is a parameter here; the player starts in the top-left hall. */
    constructor (player: Character, halls: Grid)
      requires IsGrid(halls)
      ensures Valid()
      ensures this.player == player && this.halls == halls
      ensures playerPosition.At() == Pos(0, 0) && fresh(playerPosition)
    {
      this.player := player;
      this.halls := halls;
      this.playerPosition := new Position(0, 0);
    }

    /** `_currentHall()`. */
    function CurrentHall(): (h: HallType)
      requires Valid()
      reads playerPosition
    {
      HallAt(halls, playerPosition.At())
    }

    /**
     * `movePlayer(d)`: step toward the clamped destination unless its hall is empty, and
     * return the hall the player is in afterwards. Only the position changes.
     */
    method MovePlayer(d: Direction) returns (h: HallType)
      requires Valid()
      modifies playerPosition
      ensures Valid()
      ensures playerPosition.At() == Moved(halls, old(playerPosition.At()), d)
      ensures h == HallAt(halls, playerPosition.At())
    {
      var current := CurrentHall();
      match d {
        case Up =>
          var next := HallAt(halls, Pos(playerPosition.x, Max(0, playerPosition.y - 1)));
          if next == Empty {
            return current;
          }
          playerPosition.y := Max(0, playerPosition.y - 1);
        case Down =>
          var next := HallAt(halls, Pos(playerPosition.x, Min(|halls| - 1, playerPosition.y + 1)));
          if next == Empty {
            return current;
          }
          playerPosition.y := Min(|halls| - 1, playerPosition.y + 1);
        case Right =>
          var next := HallAt(halls, Pos(Min(|halls[0]| - 1, playerPosition.x + 1), playerPosition.y));
          if next == Empty {
            return current;
          }
          playerPosition.x := Min(|halls[0]| - 1, playerPosition.x + 1);
        case Left =>
          var next := HallAt(halls, Pos(Max(0, playerPosition.x - 1), playerPosition.y));
          if next == Empty {
            return current;
          }
          playerPosition.x := Max(0, playerPosition.x - 1);
      }
      h := CurrentHall();
    }
  }

  // Properties of movement

  /** From a square inside the grid, a move always ends inside the grid. */
  lemma MoveStaysInBounds(g: Grid, p: Pos, d: Direction)
    requires IsGrid(g) && InBounds(g, p)
    ensures InBounds(g, Destination(g, p, d))
    ensures InBounds(g, Moved(g, p, d))
  {
  }

  /** A move whose destination hall is empty leaves the player where they were. */
  lemma EmptyHallBlocks(g: Grid, p: Pos, d: Direction)
    requires IsGrid(g) && InBounds(g, p)
    requires HallAt(g, Destination(g, p, d)) == Empty
    ensures Moved(g, p, d) == p
  {
  }

  /**
   * A move changes only the coordinate of its direction, by at most one and the right
   * way (up decreases y, down increases it, left decreases x, right increases it).
   */
  lemma MoveIsOneStep(g: Grid, p: Pos, d: Direction)
    requires IsGrid(g) && InBounds(g, p)
    ensures var q := Moved(g, p, d);
      match d
      case Up => q.x == p.x && p.y - 1 <= q.y <= p.y
      case Down => q.x == p.x && p.y <= q.y <= p.y + 1
      case Left => q.y == p.y && p.x - 1 <= q.x <= p.x
      case Right => q.y == p.y && p.x <= q.x <= p.x + 1
  {
  }

  /** Against an edge the destination is the current square, so the move changes nothing. */
  lemma EdgeClamps(g: Grid, p: Pos, d: Direction)
    requires IsGrid(g) && InBounds(g, p)
    requires (d == Up && p.y == 0) || (d == Down && p.y == Rows(g) - 1)
          || (d == Left && p.x == 0) || (d == Right && p.x == Cols(g) - 1)
    ensures Destination(g, p, d) == p && Moved(g, p, d) == p
  {
  }

  /** Away from the edges, a move into a non-empty hall takes exactly one step. */
  lemma OpenMoveSteps(g: Grid, p: Pos, d: Direction)
    requires IsGrid(g) && InBounds(g, p)
    requires HallAt(g, Destination(g, p, d)) != Empty
    ensures Moved(g, p, d) == Destination(g, p, d)
    ensures d == Up && p.y > 0 ==> Moved(g, p, d) == Pos(p.x, p.y - 1)
    ensures d == Down && p.y < Rows(g) - 1 ==> Moved(g, p, d) == Pos(p.x, p.y + 1)
    ensures d == Left && p.x > 0 ==> Moved(g, p, d) == Pos(p.x - 1, p.y)
    ensures d == Right && p.x < Cols(g) - 1 ==> Moved(g, p, d) == Pos(p.x + 1, p.y)
  {
  }

  /** The player only ever stands on the start square or in a non-empty hall. */
  lemma {:induction false} WalkAvoidsEmpty(g: Grid, p: Pos, ds: seq<Direction>)
    requires IsGrid(g) && InBounds(g, p)
    ensures Walk(g, p, ds) == p || HallAt(g, Walk(g, p, ds)) != Empty
    decreases |ds|
  {
    if ds != [] {
      MoveStaysInBounds(g, p, ds[0]);
      var q := Moved(g, p, ds[0]);
      WalkAvoidsEmpty(g, q, ds[1..]);
      if Walk(g, p, ds) == q && q != p {
        assert HallAt(g, q) != Empty;
      }
    }
  }

  /** A walk never gets further from its start than the number of its steps, in either coordinate. */
  lemma {:induction false} WalkIsBounded(g: Grid, p: Pos, ds: seq<Direction>)
    requires IsGrid(g) && InBounds(g, p)
    ensures var q := Walk(g, p, ds);
      p.x - |ds| <= q.x <= p.x + |ds| && p.y - |ds| <= q.y <= p.y + |ds|
    decreases |ds|
  {
    if ds != [] {
      MoveStaysInBounds(g, p, ds[0]);
      MoveIsOneStep(g, p, ds[0]);
      WalkIsBounded(g, Moved(g, p, ds[0]), ds[1..]);
    }
  }
}
