/** The values of the BARR grid world and the pure rules the Room follows:
    coordinates, game objects and their glyphs, occupancy, registration,
    eight-way movement and the character map. The Room class in module
    Engine is specified by these functions. */
module World {

  datatype Option<T> = None | Some(value: T)

  /** A coordinate (x, y); x is the column, y the row, (0, 0) the top left. */
  datatype Pos = Pos(x: int, y: int)

  /** What Player adds to GameObj; the Inventory it also carries is not modelled. */
  datatype Stats = Stats(
    name: string, hitPoints: (int, int),
    agility: int, dexterity: int, endurance: int, intelligence: int, strength: int,
    experience: int, level: int)

  /** A plain GameObj, or a Player (which renders differently). */
  datatype Kind = Static | Player(stats: Stats)

  /** A game object as a value: its position, its flags and its kind.
      `physical` is the `_IsPhysical` flag that registration requires. */
  datatype Obj = Obj(pos: Pos, solid: bool, interactive: bool, physical: bool, kind: Kind)

  /** The exceptions of the engine. OutOfBounds and InvalidDirection are both
      a Python ValueError; they are kept apart here so the cause stays visible. */
  datatype Error = NotPhysical | SolidCollision | OutOfBounds | InvalidDirection

  datatype Result<T> = Ok(value: T) | Err(error: Error)

  /** A freshly constructed GameObj: not yet physical. The defaults are the
      constructor's: at (0, 0), solid, not interactive. */
  function NewGameObj(pos: Pos := Pos(0, 0), solid: bool := true, interactive: bool := false): Obj {
    Obj(pos, solid, interactive, false, Static)
  }

  /** The statistics a Player gets by default: name "P", 1 of 1 hit points,
      1 in each attribute, no experience, level 1. */
  function DefaultStats(): Stats {
    Stats("P", (1, 1), 1, 1, 1, 1, 1, 0, 1)
  }

  /** A freshly constructed Player: a solid, non-interactive, non-physical
      GameObj, by default with the default statistics at (1, 1). */
  function NewPlayer(stats: Stats := DefaultStats(), pos: Pos := Pos(1, 1)): Obj {
    Obj(pos, true, false, false, Player(stats))
  }

  /** The character `str()` gives an object. */
  function Glyph(o: Obj): char {
    match o.kind
    case Player(_) => '@'
    case Static => if o.solid then '#' else '~'
  }

  /** A new GameObj waits for p_init to become physical and shows '#' when
      solid, '~' otherwise. */
  lemma ConstructedGameObj(pos: Pos, solid: bool, interactive: bool)
    ensures var o := NewGameObj(pos, solid, interactive);
      !o.physical && o.pos == pos && o.solid == solid && o.interactive == interactive &&
      Glyph(o) == (if solid then '#' else '~')
  {
  }

  /** Without arguments, a GameObj is a solid object at (0, 0) that shows
      '#', and a Player stands at (1, 1) with the default statistics. */
  lemma DefaultObjects()
    ensures var o := NewGameObj();
      o.pos == Pos(0, 0) && o.solid && !o.interactive && !o.physical && Glyph(o) == '#'
    ensures var p := NewPlayer();
      p.pos == Pos(1, 1) && p.kind == Player(DefaultStats()) && p.solid && Glyph(p) == '@'
    ensures DefaultStats().hitPoints == (1, 1) && DefaultStats().level == 1 && DefaultStats().experience == 0
  {
  }

  /** A new Player is a solid, non-interactive GameObj, not yet physical,
      that shows '@'. */
  lemma ConstructedPlayer(stats: Stats, pos: Pos)
    ensures var p := NewPlayer(stats, pos);
      p.solid && !p.interactive && !p.physical && p.pos == pos && Glyph(p) == '@'
  {
  }

  // ---------------------------------------------------------------------
  // Occupancy

  /** The bounds test of is_obj_at and is_solid_at for a room of size (w, h). */
  predicate InBounds(w: int, h: int, p: Pos) {
    !(p.x > w - 1 || p.y > h - 1 || p.x < 0 || p.y < 0)
  }

  predicate ObjAt(objs: seq<Obj>, p: Pos) {
    exists i :: 0 <= i < |objs| && objs[i].pos == p
  }

  predicate SolidAt(objs: seq<Obj>, p: Pos) {
    exists i :: 0 <= i < |objs| && objs[i].pos == p && objs[i].solid
  }

  lemma SolidAtImpliesObjAt(objs: seq<Obj>, p: Pos)
    ensures SolidAt(objs, p) ==> ObjAt(objs, p)
  {
  }

  /** The room invariant: every registered object is physical and inside the
      room, and no two solid objects share a cell. */
  ghost predicate WellFormed(objs: seq<Obj>, w: int, h: int) {
    (forall i :: 0 <= i < |objs| ==> objs[i].physical && InBounds(w, h, objs[i].pos)) &&
    (forall i, j :: 0 <= i < j < |objs| && objs[i].solid && objs[j].solid ==> objs[i].pos != objs[j].pos)
  }

  // ---------------------------------------------------------------------
  // Registration

  /** What add_obj does with `o`: the checks in the order the source makes them. */
  function AddOutcome(objs: seq<Obj>, w: int, h: int, o: Obj): Result<()> {
    if !o.physical then Err(NotPhysical)
    else if !InBounds(w, h, o.pos) then Err(OutOfBounds)
    else if SolidAt(objs, o.pos) then Err(SolidCollision)
    else Ok(())
  }

  /** A successful registration appends an object that keeps the room well formed. */
  lemma {:induction false} AddKeepsWellFormed(objs: seq<Obj>, w: int, h: int, o: Obj)
    requires WellFormed(objs, w, h)
    requires AddOutcome(objs, w, h, o).Ok?
    ensures WellFormed(objs + [o], w, h)
  {
    var s := objs + [o];
    forall i, j | 0 <= i < j < |s| && s[i].solid && s[j].solid
      ensures s[i].pos != s[j].pos
    {
      if j == |objs| {
        assert s[i] == objs[i];
        assert !SolidAt(objs, o.pos);
      }
    }
  }

  /** Registration is refused exactly when the object is not physical, lies
      outside the room, or lands on a solid, whatever its own solidity. */
  lemma AddRefusals(objs: seq<Obj>, w: int, h: int, o: Obj)
    ensures AddOutcome(objs, w, h, o).Ok? <==> o.physical && InBounds(w, h, o.pos) && !SolidAt(objs, o.pos)
    ensures AddOutcome(objs, w, h, o) == Err(SolidCollision) <==>
              o.physical && InBounds(w, h, o.pos) && SolidAt(objs, o.pos)
  {
  }

  // ---------------------------------------------------------------------
  // Movement

  predicate IsDirection(dir: string) {
    dir == "n" || dir == "ne" || dir == "e" || dir == "se" ||
    dir == "s" || dir == "sw" || dir == "w" || dir == "nw"
  }

  /** The candidate cell of move_8d: `d` cells from `p` towards `dir`, where
      north is decreasing y; None for an unknown direction. */
  function Target(p: Pos, dir: string, d: int): Option<Pos> {
    if |dir| == 1 then
      if dir[0] == 'n' then Some(Pos(p.x, p.y - d))
      else if dir[0] == 'e' then Some(Pos(p.x + d, p.y))
      else if dir[0] == 's' then Some(Pos(p.x, p.y + d))
      else if dir[0] == 'w' then Some(Pos(p.x - d, p.y))
      else None
    else if |dir| == 2 then
      if dir[0] == 'n' && dir[1] == 'e' then Some(Pos(p.x + d, p.y - d))
      else if dir[0] == 's' && dir[1] == 'e' then Some(Pos(p.x + d, p.y + d))
      else if dir[0] == 's' && dir[1] == 'w' then Some(Pos(p.x - d, p.y + d))
      else if dir[0] == 'n' && dir[1] == 'w' then Some(Pos(p.x - d, p.y - d))
      else None
    else None
  }

  function Opposite(dir: string): string {
    match dir
    case "n" => "s"
    case "ne" => "sw"
    case "e" => "w"
    case "se" => "nw"
    case "s" => "n"
    case "sw" => "ne"
    case "w" => "e"
    case "nw" => "se"
    case _ => dir
  }

  /** Only the eight compass tokens move; each moves `d` cells along one or
      both axes (diagonals are not scaled), and the opposite token undoes it. */
  lemma TargetLaw(p: Pos, dir: string, d: int)
    ensures Target(p, dir, d).Some? <==> IsDirection(dir)
    ensures Target(p, dir, d).Some? ==>
      var t := Target(p, dir, d).value;
      (t.x - p.x == 0 || t.x - p.x == d || t.x - p.x == -d) &&
      (t.y - p.y == 0 || t.y - p.y == d || t.y - p.y == -d) &&
      (t.x != p.x || t.y != p.y || d == 0) &&
      Target(t, Opposite(dir), d) == Some(p)
  {
  }

  lemma NorthEastThenSouthWest(p: Pos, d: int)
    ensures Target(p, "ne", d) == Some(Pos(p.x + d, p.y - d))
    ensures Target(Pos(p.x + d, p.y - d), "sw", d) == Some(p)
  {
  }

  /** `objs` with the object at index `i` moved to `t`. */
  function SetPos(objs: seq<Obj>, i: nat, t: Pos): (r: seq<Obj>)
    requires i < |objs|
  {
    objs[i := objs[i].(pos := t)]
  }

  /** What move_8d does for the object at index `i`: the direction is decoded
      first, then the room is asked whether the target is solid, which also
      checks its bounds. The mover's own flags are not consulted. */
  function MoveOutcome(objs: seq<Obj>, w: int, h: int, i: nat, dir: string, d: int): Result<Pos>
    requires i < |objs|
  {
    match Target(objs[i].pos, dir, d)
    case None => Err(InvalidDirection)
    case Some(t) =>
      if !InBounds(w, h, t) then Err(OutOfBounds)
      else if SolidAt(objs, t) then Err(SolidCollision)
      else Ok(t)
  }

  /** A move succeeds exactly when the direction is one of the eight and the
      target cell is inside the room and holds no solid; it never raises NotPhysical. */
  lemma MoveRefusals(objs: seq<Obj>, w: int, h: int, i: nat, dir: string, d: int)
    requires i < |objs|
    ensures var m := MoveOutcome(objs, w, h, i, dir, d);
      (m.Ok? <==> IsDirection(dir) && InBounds(w, h, Target(objs[i].pos, dir, d).value)
                  && !SolidAt(objs, Target(objs[i].pos, dir, d).value)) &&
      (m.Ok? ==> m.value == Target(objs[i].pos, dir, d).value) &&
      m != Err(NotPhysical)
  {
  }

  /** A successful move keeps the room well formed. */
  lemma {:induction false} MoveKeepsWellFormed(objs: seq<Obj>, w: int, h: int, i: nat, dir: string, d: int)
    requires i < |objs| && WellFormed(objs, w, h)
    requires MoveOutcome(objs, w, h, i, dir, d).Ok?
    ensures WellFormed(SetPos(objs, i, MoveOutcome(objs, w, h, i, dir, d).value), w, h)
  {
    var t := MoveOutcome(objs, w, h, i, dir, d).value;
    var s := SetPos(objs, i, t);
    assert !SolidAt(objs, t);
    forall a, b | 0 <= a < b < |s| && s[a].solid && s[b].solid
      ensures s[a].pos != s[b].pos
    {
      if a == i {
        assert objs[b].pos == s[b].pos && objs[b].solid;
      } else if b == i {
        assert objs[a].pos == s[a].pos && objs[a].solid;
      }
    }
  }

  /** A solid object inside the room that moves distance 0 always meets itself. */
  lemma {:induction false} StandingStillCollides(objs: seq<Obj>, w: int, h: int, i: nat, dir: string)
    requires i < |objs| && objs[i].solid && InBounds(w, h, objs[i].pos) && IsDirection(dir)
    ensures MoveOutcome(objs, w, h, i, dir, 0) == Err(SolidCollision)
  {
    assert Target(objs[i].pos, dir, 0) == Some(objs[i].pos);
    assert objs[i].pos == objs[i].pos && objs[i].solid;
  }

  // ---------------------------------------------------------------------
  // Rendering

  /** Index of the first solid object at `p` in list order. */
  function FirstSolidAt(objs: seq<Obj>, p: Pos): (r: Option<nat>)
    ensures r.Some? ==> r.value < |objs|
    decreases |objs|
  {
    if |objs| == 0 then None
    else
      var first := FirstSolidAt(objs[..|objs| - 1], p);
      if first.Some? then first
      else if objs[|objs| - 1].pos == p && objs[|objs| - 1].solid then Some(|objs| - 1)
      else None
  }

  /** The scan finds a solid at `p` exactly when there is one, and then the
      earliest. */
  lemma {:induction false} FirstSolidAtSpec(objs: seq<Obj>, p: Pos)
    ensures var r := FirstSolidAt(objs, p);
      (r.None? <==> !SolidAt(objs, p)) &&
      (r.Some? ==>
        objs[r.value].pos == p && objs[r.value].solid &&
        forall j :: 0 <= j < r.value ==> !(objs[j].pos == p && objs[j].solid))
    decreases |objs|
  {
    if |objs| > 0 {
      var front := objs[..|objs| - 1];
      FirstSolidAtSpec(front, p);
      assert forall j :: 0 <= j < |objs| - 1 ==> front[j] == objs[j];
    }
  }

  /** Scanning stops at the first solid: what a prefix finds, the whole list finds. */
  lemma FirstSolidOfPrefix(objs: seq<Obj>, k: nat, p: Pos)
    requires k <= |objs| && FirstSolidAt(objs[..k], p).Some?
    ensures FirstSolidAt(objs, p) == FirstSolidAt(objs[..k], p)
  {
    FirstSolidAtSpec(objs[..k], p);
    FirstSolidAtSpec(objs, p);
    var m := FirstSolidAt(objs[..k], p).value;
    assert objs[..k][m] == objs[m];
    assert SolidAt(objs, p);
    var n := FirstSolidAt(objs, p).value;
    assert n < k ==> objs[..k][n] == objs[n];
  }

  /** Index of the last object at `p` in list order. */
  function LastAt(objs: seq<Obj>, p: Pos): (r: Option<nat>)
    ensures r.Some? ==> r.value < |objs|
    decreases |objs|
  {
    if |objs| == 0 then None
    else if objs[|objs| - 1].pos == p then Some(|objs| - 1)
    else LastAt(objs[..|objs| - 1], p)
  }

  /** The scan finds an object at `p` exactly when there is one, and then the
      latest. */
  lemma {:induction false} LastAtSpec(objs: seq<Obj>, p: Pos)
    ensures var r := LastAt(objs, p);
      (r.None? <==> !ObjAt(objs, p)) &&
      (r.Some? ==> objs[r.value].pos == p && forall j :: r.value < j < |objs| ==> objs[j].pos != p)
    decreases |objs|
  {
    if |objs| > 0 && objs[|objs| - 1].pos != p {
      var front := objs[..|objs| - 1];
      LastAtSpec(front, p);
      assert forall j :: 0 <= j < |objs| - 1 ==> front[j] == objs[j];
    }
  }

  /** The character shown for cell `p`: the first solid there, else the last
      object there (none of which is solid), else '.'. */
  function CellGlyph(objs: seq<Obj>, p: Pos): char {
    match FirstSolidAt(objs, p)
    case Some(i) => Glyph(objs[i])
    case None =>
      match LastAt(objs, p)
      case Some(i) => Glyph(objs[i])
      case None => '.'
  }

  /** The first `n` cells of row `y`, each a glyph and a space. */
  function Cells(objs: seq<Obj>, n: int, y: int): string
    decreases n
  {
    if n <= 0 then "" else Cells(objs, n - 1, y) + [CellGlyph(objs, Pos(n - 1, y)), ' ']
  }

  /** The first `h` rows of a map `w` cells wide, each ended by a newline.
      A negative size gives no rows or no cells, like Python's range. */
  function Render(objs: seq<Obj>, w: int, h: int): string
    decreases h
  {
    if h <= 0 then "" else Render(objs, w, h - 1) + Cells(objs, w, h - 1) + "\n"
  }

  lemma {:induction false} CellsLength(objs: seq<Obj>, n: nat, y: int)
    ensures |Cells(objs, n, y)| == 2 * n
    decreases n
  {
    if n > 0 {
      CellsLength(objs, n - 1, y);
    }
  }

  lemma {:induction false} CellsAt(objs: seq<Obj>, n: nat, y: int, x: int)
    requires 0 <= x < n
    ensures |Cells(objs, n, y)| == 2 * n
    ensures Cells(objs, n, y)[2 * x] == CellGlyph(objs, Pos(x, y))
    ensures Cells(objs, n, y)[2 * x + 1] == ' '
    decreases n
  {
    if x < n - 1 {
      CellsAt(objs, n - 1, y, x);
    } else {
      CellsLength(objs, n - 1, y);
    }
  }

  /** The map has h rows of 2w + 1 characters. */
  lemma {:induction false} RenderLength(objs: seq<Obj>, w: nat, h: nat)
    ensures |Render(objs, w, h)| == h * (2 * w + 1)
    decreases h
  {
    if h > 0 {
      RenderLength(objs, w, h - 1);
      CellsLength(objs, w, h - 1);
      assert h * (2 * w + 1) == (h - 1) * (2 * w + 1) + 2 * w + 1;
    }
  }

  /** Row y of the map, with its newline, follows the first y rows in every
      map with more than y rows. */
  lemma {:induction false} RowPrefix(objs: seq<Obj>, w: int, y: int, h: int)
    requires 0 <= y < h
    ensures var row := Render(objs, w, y) + Cells(objs, w, y) + "\n";
      |row| <= |Render(objs, w, h)| && Render(objs, w, h)[..|row|] == row
    decreases h
  {
    var row := Render(objs, w, y) + Cells(objs, w, y) + "\n";
    if y < h - 1 {
      RowPrefix(objs, w, y, h - 1);
      var prev := Render(objs, w, h - 1);
      assert Render(objs, w, h) == prev + (Cells(objs, w, h - 1) + "\n");
      assert Render(objs, w, h)[..|row|] == prev[..|row|];
    } else {
      assert row[..|row|] == row;
    }
  }

  /** Row y of the map starts right after the first y rows: its cells come
      first, then a newline. */
  lemma RowAt(objs: seq<Obj>, w: nat, h: nat, y: int, i: int)
    requires 0 <= y < h && 0 <= i < 2 * w
    ensures |Cells(objs, w, y)| == 2 * w
    ensures |Render(objs, w, y)| + 2 * w < |Render(objs, w, h)|
    ensures Render(objs, w, h)[|Render(objs, w, y)| + i] == Cells(objs, w, y)[i]
    ensures Render(objs, w, h)[|Render(objs, w, y)| + 2 * w] == '\n'
  {
    CellsLength(objs, w, y);
    RowPrefix(objs, w, y, h);
    PrefixLineAt(Render(objs, w, h), Render(objs, w, y), Cells(objs, w, y), i);
  }

  /** A string that starts with `before`, `line` and a newline shows `line`
      right after `before`. */
  lemma PrefixLineAt(r: string, before: string, line: string, i: int)
    requires |before| + |line| + 1 <= |r| && r[..|before| + |line| + 1] == before + line + "\n"
    requires 0 <= i < |line|
    ensures r[|before| + i] == line[i] && r[|before| + |line|] == '\n'
  {
    var n := |before| + |line| + 1;
    assert r[|before| + i] == r[..n][|before| + i];
    assert r[|before| + |line|] == r[..n][|before| + |line|];
  }

  /** Cell (x, y) of the map is character 2x of row y, which starts at
      y * (2w + 1); the cell is followed by a space and the row by a newline. */
  lemma RenderAt(objs: seq<Obj>, w: nat, h: nat, x: int, y: int)
    requires 0 <= x < w && 0 <= y < h
    ensures |Render(objs, w, y)| + 2 * w < |Render(objs, w, h)|
    ensures Render(objs, w, h)[|Render(objs, w, y)| + 2 * x] == CellGlyph(objs, Pos(x, y))
    ensures Render(objs, w, h)[|Render(objs, w, y)| + 2 * x + 1] == ' '
    ensures Render(objs, w, h)[|Render(objs, w, y)| + 2 * w] == '\n'
  {
    RowAt(objs, w, h, y, 2 * x);
    RowAt(objs, w, h, y, 2 * x + 1);
    CellsAt(objs, w, y, x);
  }

  /** In a well-formed room a solid object is always what its cell shows. */
  lemma {:induction false} SolidIsVisible(objs: seq<Obj>, w: int, h: int, i: nat)
    requires WellFormed(objs, w, h) && i < |objs| && objs[i].solid
    ensures CellGlyph(objs, objs[i].pos) == Glyph(objs[i])
  {
    var p := objs[i].pos;
    assert SolidAt(objs, p);
    FirstSolidAtSpec(objs, p);
    var k := FirstSolidAt(objs, p).value;
    assert objs[k].pos == p && objs[k].solid;
  }

  /** Without a solid, the last object at the cell shows, even over earlier
      non-solid ones. */
  lemma {:induction false} LastNonSolidIsVisible(objs: seq<Obj>, i: nat)
    requires i < |objs| && !SolidAt(objs, objs[i].pos)
    requires forall j :: i < j < |objs| ==> objs[j].pos != objs[i].pos
    ensures CellGlyph(objs, objs[i].pos) == Glyph(objs[i])
  {
    var p := objs[i].pos;
    assert ObjAt(objs, p);
    FirstSolidAtSpec(objs, p);
    LastAtSpec(objs, p);
    assert objs[LastAt(objs, p).value].pos == p;
  }
}
