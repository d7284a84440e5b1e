/** The Room of barr_engine.py as a class whose object list and map string
    change in place, and the GameObj operations that act on a room:
    registration (p_init) and eight-way movement (move_8d). A game object is
    a value of World.Obj; once registered it is addressed by its index in
    the room's list. */
module Engine {
  import opened World

  class Room {
    /** Size (width, height); fixed once the room exists. */
    const width: int
    const height: int
    const floor: int
    /** The objects registered in the room, in registration order. */
    var objects: seq<Obj>
    /** The last rendered map. */
    var mapString: string

    ghost predicate Valid()
      reads this
    {
      WellFormed(objects, width, height)
    }

    /** A room of the given size with its own, empty object list; by default
        4 by 4 on floor 0. */
    constructor (w: int := 4, h: int := 4, floor: int := 0)
      ensures width == w && height == h && this.floor == floor
      ensures objects == [] && mapString == "No map initialized"
      ensures Valid()
    {
      width, height, this.floor := w, h, floor;
      objects := [];
      mapString := "No map initialized";
    }

    /** is_obj_at: whether any object stands at `p`; OutOfBounds outside the room. */
    method IsObjAt(p: Pos) returns (r: Result<bool>)
      ensures r.Err? <==> !InBounds(width, height, p)
      ensures r.Err? ==> r.error == OutOfBounds
      ensures r.Ok? ==> (r.value <==> ObjAt(objects, p))
    {
      if p.x > width - 1 || p.y > height - 1 || p.x < 0 || p.y < 0 {
        return Err(OutOfBounds);
      }
      var i := 0;
      while i < |objects|
        invariant 0 <= i <= |objects|
        invariant forall j :: 0 <= j < i ==> objects[j].pos != p
      {
        if objects[i].pos == p {
          return Ok(true);
        }
        i := i + 1;
      }
      return Ok(false);
    }

    /** is_solid_at: whether a solid object stands at `p`; OutOfBounds outside the room. */
    method IsSolidAt(p: Pos) returns (r: Result<bool>)
      ensures r.Err? <==> !InBounds(width, height, p)
      ensures r.Err? ==> r.error == OutOfBounds
      ensures r.Ok? ==> (r.value <==> SolidAt(objects, p))
    {
      if p.x > width - 1 || p.y > height - 1 || p.x < 0 || p.y < 0 {
        return Err(OutOfBounds);
      }
      var i := 0;
      while i < |objects|
        invariant 0 <= i <= |objects|
        invariant forall j :: 0 <= j < i ==> !(objects[j].pos == p && objects[j].solid)
      {
        if objects[i].pos == p && objects[i].solid {
          return Ok(true);
        }
        i := i + 1;
      }
      return Ok(false);
    }

    /** add_obj: appends `o` unless it is not physical, lies outside the room
        or its cell already holds a solid. */
    method AddObj(o: Obj) returns (r: Result<()>)
      modifies this`objects
      ensures r == AddOutcome(old(objects), width, height, o)
      ensures objects == if r.Ok? then old(objects) + [o] else old(objects)
      ensures old(Valid()) ==> Valid()
    {
      if !o.physical {
        return Err(NotPhysical);
      }
      var solid := IsSolidAt(o.pos);
      if solid.Err? {
        return Err(solid.error);
      }
      if solid.value {
        return Err(SolidCollision);
      }
      objects := objects + [o];
      r := Ok(());
      if old(Valid()) {
        AddKeepsWellFormed(old(objects), width, height, o);
      }
    }

    /** move_8d for the object at index `i`: on success only that object's
        position changes; on any error nothing changes. */
    method Move8d(i: nat, dir: string, d: int) returns (r: Result<Pos>)
      requires i < |objects|
      modifies this`objects
      ensures r == MoveOutcome(old(objects), width, height, i, dir, d)
      ensures objects == if r.Ok? then SetPos(old(objects), i, r.value) else old(objects)
      ensures old(Valid()) ==> Valid()
    {
      var target := Target(objects[i].pos, dir, d);
      if target.None? {
        return Err(InvalidDirection);
      }
      var solid := IsSolidAt(target.value);
      if solid.Err? {
        return Err(solid.error);
      }
      if solid.value {
        return Err(SolidCollision);
      }
      if Valid() {
        MoveKeepsWellFormed(objects, width, height, i, dir, d);
      }
      objects := SetPos(objects, i, target.value);
      r := Ok(target.value);
    }

    /** update_map_str: rebuilds the map row by row and column by column,
        scanning the object list for each cell. */
    method UpdateMapStr()
      modifies this`mapString
      ensures mapString == Render(objects, width, height)
    {
      var s := "";
      var row := 0;
      while row < height
        invariant 0 <= row && (row <= height || row == 0)
        invariant s == Render(objects, width, row)
      {
        var col := 0;
        while col < width
          invariant 0 <= col && (col <= width || col == 0)
          invariant s == Render(objects, width, row) + Cells(objects, col, row)
        {
          var cell := CellAt(Pos(col, row));
          s := s + cell;
          col := col + 1;
        }
        s := s + "\n";
        row := row + 1;
      }
      mapString := s;
    }

    /** The two characters update_map_str writes for cell `p`: the scan keeps
        the glyph of every object at `p` it meets and stops at the first solid. */
    method CellAt(p: Pos) returns (cell: string)
      ensures cell == [CellGlyph(objects, p), ' ']
    {
      cell := "";
      var i := 0;
      var stop := false;
      while i < |objects| && !stop
        invariant 0 <= i <= |objects|
        invariant !stop ==> (FirstSolidAt(objects[..i], p).None? &&
          cell == match LastAt(objects[..i], p) case Some(k) => [Glyph(objects[k]), ' '] case None => "")
        invariant stop ==> (0 < i && FirstSolidAt(objects[..i], p) == Some(i - 1) &&
          cell == [Glyph(objects[i - 1]), ' '])
      {
        assert objects[..i + 1][..i] == objects[..i];
        if objects[i].pos == p {
          cell := [Glyph(objects[i]), ' '];
          if objects[i].solid {
            stop := true;
          }
        }
        i := i + 1;
      }
      if stop {
        FirstSolidOfPrefix(objects, i, p);
      } else {
        assert objects[..i] == objects;
      }
      if cell == "" {
        cell := ". ";
      }
    }
  }

  /** A room built without arguments is 4 by 4 on floor 0 and empty. */
  method DefaultRoom() returns (room: Room)
    ensures fresh(room) && room.width == 4 && room.height == 4 && room.floor == 0 && room.objects == []
  {
    room := new Room();
  }

  /** p_init: marks the object physical, then registers it. A refused
      registration leaves the returned object physical but outside the room. */
  method PInit(room: Room, o: Obj) returns (marked: Obj, r: Result<()>)
    modifies room`objects
    ensures marked == o.(physical := true)
    ensures r == AddOutcome(old(room.objects), room.width, room.height, marked)
    ensures r != Err(NotPhysical)
    ensures room.objects == if r.Ok? then old(room.objects) + [marked] else old(room.objects)
    ensures old(room.Valid()) ==> room.Valid()
  {
    marked := o.(physical := true);
    r := room.AddObj(marked);
  }
}
