# BARR in Dafny

BARR is a small terminal rogue-like. Its engine (`barr_engine.py`) keeps a
rectangular Room holding a list of game objects. Each object has a position,
a solid flag and an "is physical" flag. The Room answers occupancy questions,
registers objects, and renders itself as a character map. An object moves
one of eight compass directions. It cannot enter a solid or leave the room.

The front end (`barr.py`) reads commands with `take_cmd_input`. It prints
the active vocabulary's banner, then reads lines until one is a valid command
of that vocabulary. It then moves the player, or opens one nested Action or
Inventory dispatch, and returns a reply string.

This project models that core and proves what it promises:

- `world.dfy` (module `World`) holds the values and the pure rules:
  - positions and game objects, with their glyphs;
  - occupancy and the room invariant (objects registered, in bounds, no two
    solids on one cell);
  - the outcome of registration and of an eight-way move;
  - the character map as a function `Render`.
- `engine.dfy` (module `Engine`) holds the Room as a class. Its object list
  and map string change in place, and its methods carry the source's loops:
  `IsObjAt`, `IsSolidAt`, `AddObj`, `Move8d`, `UpdateMapStr` and `CellAt`.
  Each method is proved against the functions in `World`, and each keeps
  the room invariant. `PInit` registers a game object.
- `text_input.dfy` (module `TextInput`) models `lower().strip()` over ASCII.
- `commands.dfy` (module `Commands`) holds the three vocabularies and the
  dispatcher:
  - `Dispatch`, `AfterRead` and `Respond` are its specification, as
    functions over a finite sequence of input lines and a cursor.
  - `TakeCmdInput`, `ReadCommand`, `CommandNumber` and `Route` are the
    imperative dispatcher. They update the Room and are proved equal to the
    specification.
  - The banner, "help" and invalid-command prints become a log of `Event`s.
  - Running out of input is the reply `EndOfInput`. This is where Python's
    `input()` would raise `EOFError`.
- `command_facts.dfy` (module `CommandFacts`) proves what the dispatcher
  guarantees:
  - the retry loop stops at the first accepted line;
  - it prints the rejection of each line it does not accept (none for a
    blank line the master vocabulary lists), and such a line changes nothing
    else;
  - an accepted "a" or "i" opens exactly one nested dispatch, and a nested
    dispatch opens none;
  - an Action or Inventory dispatch replies exactly when it accepts a line;
  - only an accepted direction moves the player, and only by one step;
  - the replies are exactly the fixed strings of the source.

A game object is a value `Obj`. Once registered it is addressed by its index
in the room's list. This is how the source's shared object references are
represented.

The Python `ValueError` of the engine has two variants in the model, so that
the cause stays visible:

- `OutOfBounds`: the coordinate is outside the room.
- `InvalidDirection`: the direction token is unknown.

## Model

| member | source | states |
|---|---|---|
| World.NewGameObj | barr_engine.py:107-112 | the GameObj constructor: the given position and flags, not yet physical, a plain static object; by default at (0, 0), solid and not interactive |
| World.DefaultStats | barr_engine.py:192-193 | the Player constructor's default statistics: name "P", hit points [1, 1], 1 in each attribute, experience 0, level 1 |
| World.NewPlayer | barr_engine.py:192-194 | the Player constructor: a solid, non-interactive GameObj at the given position carrying the player's statistics; by default the default statistics at (1, 1) |
| World.DefaultObjects | barr_engine.py:107 | built without arguments, a GameObj is a solid, non-interactive object at (0, 0) showing '#', and a Player (barr_engine.py:192-193) stands at (1, 1) with the default statistics |
| World.Glyph | barr_engine.py:114-118 | what `str()` gives an object: '@' for a player (barr_engine.py:206-207), otherwise '#' when solid and '~' when not |
| World.ConstructedGameObj | barr_engine.py:107-118 | a new GameObj keeps the given position and flags and is not physical; it shows '#' when solid and '~' otherwise |
| World.ConstructedPlayer | barr_engine.py:192-207 | a new Player is solid, not interactive, not physical, at the given position, and shows '@' |
| World.SolidAtImpliesObjAt | barr_engine.py:41-74 | a cell holding a solid is occupied |
| World.AddOutcome | barr_engine.py:30-39 | the outcome of add_obj, with its checks in the source's order: NotPhysical, then the bounds test of is_solid_at, then SolidCollision |
| World.AddRefusals | barr_engine.py:30-39 | registration succeeds exactly when the object is physical, inside the room and not on a solid; it fails with SolidCollision exactly when an in-bounds physical object lands on a solid |
| World.AddKeepsWellFormed | barr_engine.py:30-39 | a successful registration keeps every object physical and in bounds, with no two solids on one cell |
| World.Target | barr_engine.py:136-153 | the cell move_8d aims at: `d` cells along each axis the token names, north decreasing y; no cell for a token outside the eight |
| World.MoveOutcome | barr_engine.py:133-158 | the outcome of move_8d: InvalidDirection for an unknown token, then the bounds test and the solid test of is_solid_at on the target |
| World.TargetLaw | barr_engine.py:133-153 | only the eight compass tokens give a target; each moves by exactly 0 or ±d along each axis, never stays put unless d = 0, and the opposite token leads back |
| World.NorthEastThenSouthWest | barr_engine.py:138-147 | "ne" moves to (x+d, y-d), and "sw" from there returns to the start |
| World.MoveRefusals | barr_engine.py:133-158 | a move succeeds exactly when the direction is one of the eight and the target is in bounds and not solid; the new position is the target; a move never fails with NotPhysical |
| World.MoveKeepsWellFormed | barr_engine.py:155-158 | a successful move keeps the room invariant |
| World.StandingStillCollides | barr_engine.py:155-156 | a solid object in the room that moves distance 0 collides with itself |
| World.FirstSolidAtSpec | barr_engine.py:86-90 | the cell scan finds a solid exactly when the cell holds one, and then the earliest in list order |
| World.FirstSolidOfPrefix | barr_engine.py:89-90 | the scan stops at the first solid, so a solid found in a prefix is the one found in the whole list |
| World.LastAtSpec | barr_engine.py:86-88 | without a break, the scan keeps the last object at the cell: it finds one exactly when the cell is occupied, and nothing later stands there |
| World.CellGlyph | barr_engine.py:86-92 | the character update_map_str writes for a cell: the first solid there, else the last object there, else '.' |
| World.Render | barr_engine.py:83-96 | the map update_map_str builds: h rows, each the w cells of that row, each cell a character and a space, each row ended by a newline |
| World.CellsLength | barr_engine.py:84-95 | a row of n cells is 2n characters |
| World.CellsAt | barr_engine.py:84-95 | cell x of a row is the cell's glyph followed by a space |
| World.RenderLength | barr_engine.py:83-96 | a map w cells wide and h rows high is h·(2w+1) characters |
| World.RowPrefix | barr_engine.py:83-96 | row y of the map, with its newline, follows the first y rows |
| World.RowAt | barr_engine.py:83-96 | row y's cells sit right after the first y rows, and a newline follows them |
| World.RenderAt | barr_engine.py:83-96 | cell (x, y) is at offset 2x of row y: the glyph, then a space; the row ends with a newline |
| World.SolidIsVisible | barr_engine.py:89-90 | in a well-formed room a solid object is what its cell shows |
| World.LastNonSolidIsVisible | barr_engine.py:86-92 | without a solid at the cell, the last object there is what shows |
| Engine.Room.constructor | barr_engine.py:21-25 | a new room has the given size and floor, no objects, the map "No map initialized", and satisfies the invariant; the size defaults to 4 by 4 and the floor to 0 |
| Engine.DefaultRoom | barr_engine.py:21 | a room built without arguments is a fresh, empty 4 by 4 room on floor 0 |
| Engine.Room.IsObjAt | barr_engine.py:41-56 | OutOfBounds exactly when p is outside the room; otherwise true exactly when some object stands at p |
| Engine.Room.IsSolidAt | barr_engine.py:58-74 | OutOfBounds exactly when p is outside the room; otherwise true exactly when a solid stands at p |
| Engine.Room.AddObj | barr_engine.py:30-39 | returns the registration outcome; on success appends the object, otherwise changes nothing; keeps the room invariant |
| Engine.Room.Move8d | barr_engine.py:133-158 | returns the move outcome; on success only the mover's position changes, otherwise nothing changes; keeps the room invariant |
| Engine.Room.UpdateMapStr | barr_engine.py:76-98 | the map string becomes the rendering of the room: h rows of w cells, each row ended by a newline |
| Engine.Room.CellAt | barr_engine.py:85-95 | the two characters of a cell: the first solid's glyph, else the last object's glyph, else '.', then a space |
| Engine.PInit | barr_engine.py:129-131 | marks the object physical and registers it, so it never fails with NotPhysical; the room changes only on success and keeps its invariant |
| TextInput.Normalize | barr.py:64 | `cmd.lower().strip()`: ASCII upper-case letters lowered, then leading and trailing whitespace removed |
| TextInput.StripStartShape | barr.py:64 | strip() drops only leading whitespace and leaves no leading whitespace |
| TextInput.StripEndShape | barr.py:64 | strip() drops only trailing whitespace and leaves no trailing whitespace |
| TextInput.NormalizeShape | barr.py:64 | a normalised command has no upper-case letter and no whitespace at either end, and is no longer than the line |
| TextInput.NormalizeIdempotent | barr.py:64 | normalising twice is the same as normalising once |
| TextInput.NormalizeIgnoresPadding | barr.py:64 | whitespace before and after a command makes no difference, whatever each side holds: strip() trims the two sides independently |
| Commands.MasterCmds | barr.py:8 | MASTER_CMDS: "", the eight directions, "a" and "i", in the source's order |
| Commands.ActionCmds | barr.py:9 | ACTION_CMDS: the banner "Possible actions:", then "a", "i", "u", "o" |
| Commands.InventCmds | barr.py:10 | INVENT_CMDS: the banner "inventory:", then "c", "e", "d", "u", "s" |
| Commands.Vocabulary | barr.py:8-10 | every vocabulary has an entry 0, which is its banner |
| Commands.IndexFromSpec | barr.py:76-80 | the search from i gives -1 exactly when the command is absent from that point on, otherwise the first index at or after i holding it |
| Commands.IndexOfSpec | barr.py:76-80 | the number of a command is -1 exactly when it is not in the vocabulary, otherwise the first index holding it |
| Commands.CommandNumber | barr.py:76-80 | the enumerate loop returns the first index of the command, or -1 |
| Commands.Accepted | barr.py:61-74 | the lines that end the retry loop: the normalised line is not "help", is in the vocabulary, and is not empty (an empty `cmd` keeps `while cmd == ''` going) |
| Commands.Rejection | barr.py:66-74 | what the loop prints for a line it does not accept: the vocabulary after "help", the invalid-command message for a token outside it, nothing for a listed empty line |
| Commands.ActionReply | barr.py:97-104 | the Action replies "attacked", "interacted", "used", "observed" for numbers 1 to 4, and the final empty string otherwise |
| Commands.Read | barr.py:61-74 | the retry loop only moves forward; when nothing is accepted it stops at the end of the input, and otherwise it consumes the accepted line |
| Commands.ReadCommand | barr.py:60-74 | the imperative retry loop returns exactly what `Read` specifies: the command, the next line, the end of input and the messages |
| Commands.Dispatch | barr.py:55-111 | a dispatch reads forward only; it prints its vocabulary's entry 0 first; a reply consumes at least one line; running out of input consumes all of it |
| Commands.AfterRead | barr.py:58-111 | after the retry loop: a reply needs an accepted command; the banner comes first |
| Commands.Respond | barr.py:82-111 | the routing reads forward only, and EndOfInput means the input is used up |
| Commands.TakeCmdInput | barr.py:55-111 | the method's reply, room, next line and printed events are those of `Dispatch` on barr.py's vocabularies |
| Commands.Route | barr.py:82-111 | the method's reply, room, next line and events are those of `Respond` on barr.py's vocabularies |
| CommandFacts.Stop | barr.py:61-74 | the line the retry loop stops on lies between the cursor and the end of the input |
| CommandFacts.ReadFindsFirstAccepted | barr.py:61-74 | the loop returns the normalised stop line, which is accepted, and no earlier line is accepted |
| CommandFacts.ReadPrintsComplaints | barr.py:66-74 | the loop prints exactly the rejections of the lines before the stop line, in order: one message per line, none for a blank line of the master vocabulary |
| CommandFacts.ComplaintsFront | barr.py:61-74 | the messages of a run of rejected lines are the first line's message followed by the rest |
| CommandFacts.RejectionMessages | barr.py:66-74 | "help" shows the vocabulary; a token outside the vocabulary gets the invalid-command message; an empty listed token prints nothing; a line ends the loop exactly when it is non-empty, not "help", and in the vocabulary |
| CommandFacts.AfterReadShift | barr.py:58-74 | what the loop printed appears right after the banner and affects nothing else |
| CommandFacts.RejectedLineIsNoOp | barr.py:61-74 | a rejected line changes nothing but the printed messages: the dispatch is the one that starts at the next line, with the rejection after the banner |
| CommandFacts.BannerNeverSelectable | barr.py:9 | no input line normalises to "Possible actions:", because lower() removes its capital |
| CommandFacts.ActionIndexTable | barr.py:96-104 | the Action commands a line can select are a, i, u and o, numbered 1 to 4 |
| CommandFacts.MasterIndexTable | barr.py:82-94 | an accepted master command is numbered 1 to 10; it is 9 exactly for "a" and 10 exactly for "i" |
| CommandFacts.MasterDirections | barr.py:8 | each of the eight directions is an accepted master command numbered below 9 |
| CommandFacts.ReadPrintsNoBanner | barr.py:61-74 | the retry loop never prints a banner |
| CommandFacts.DispatchDepth | barr.py:58-94 | each dispatch prints its banner first; it prints two banners exactly when it is a master dispatch that accepted a command numbered 9 or 10, and one otherwise |
| CommandFacts.RespondDepth | barr.py:82-111 | the routing prints one banner exactly when a master command numbered 9 or 10 opens a nested dispatch, and none otherwise; Action and Inventory routing prints nothing |
| CommandFacts.RespondWorldEffect | barr.py:82-111 | only a successful master move changes the objects, and then only the player's position |
| CommandFacts.DispatchWorldEffect | barr.py:55-111 | a dispatch leaves every object unchanged unless it replied "You successfully moved."; then it was a master dispatch, the last line read is a direction accepted by move_8d, and the player moved one step that way |
| CommandFacts.DispatchKeepsWellFormed | barr.py:55-111 | a dispatch keeps the room invariant |
| CommandFacts.MoveReplies | barr.py:83-90 | a direction gets "You successfully moved." and the move when move_8d succeeds, and "You cannot move there." with nothing moved when it raises |
| CommandFacts.NestedReplies | barr.py:96-109 | an Action or Inventory dispatch answers EndOfInput exactly when its retry loop accepts nothing, ends where the loop ends, and changes nothing |
| CommandFacts.ActionReplies | barr.py:96-104 | an Action dispatch changes nothing; it answers EndOfInput exactly when it accepts nothing, and otherwise "attacked", "interacted", "used" or "observed" to the a, i, u or o it accepted |
| CommandFacts.InventoryReplies | barr.py:106-109 | an Inventory dispatch changes nothing; it answers "Closed inventory." whenever it accepts a line and EndOfInput otherwise; the banner "inventory:" is itself accepted |
| CommandFacts.MasterNests | barr.py:91-94 | an accepted "a" or "i" opens exactly one Action or Inventory dispatch on the following lines; the master dispatch returns its reply, objects and end, after its own banner and messages |
| CommandFacts.MasterReplies | barr.py:82-111 | a master dispatch ends in one of seven fixed replies or at the end of the input, and never returns the empty string |
| CommandFacts.MasterEndOfInput | barr.py:61-94 | a master dispatch answers EndOfInput exactly when the input runs out before it accepts a line, or before the dispatch its "a" or "i" opens accepts one |
| CommandFacts.DispatchConsumes | barr.py:61-111 | a reply comes from an accepted line: the last line read is accepted by the dispatch's own vocabulary, or by the Action or Inventory vocabulary after a master dispatch |
| CommandFacts.RespondConsumes | barr.py:82-109 | the routing replies without reading further, or, after a master command numbered 9 or 10, after a line the Action or Inventory vocabulary accepts |
| CommandFacts.ScenarioNorthTwice | barr.py:82-88 | in a 4x4 room with the player at (1, 1), "n" moves it to (1, 0), and a second "n" is refused |
| CommandFacts.ScenarioUnknownThenAttack | barr.py:61-98 | "xyz" is reported as invalid, then "a" opens the Action vocabulary and "a" attacks |

## Left out

- `main`, `draw_room`, `clear`, `prompt_plyr_atts`, `stat_string`, `distance_to` and `create_statics` are left out. They are terminal I/O, the game's outer loop, or code the dispatcher never calls.
- `Item` and `Inventory` are left out. No modelled operation reads them.
- Room `__str__` is left out. It only returns the map string, which `UpdateMapStr` defines.
- The `Floor` attribute is kept as a constant. Nothing reads it.
- Python's shared default arguments are left out. In the source, every Room created without an object list shares one list. Each modelled room owns its list.
- Object identity and aliasing are left out. A registered object is its index in the room's list. The source's object and the room's entry are one Python object; the model updates the entry.
- A move of an object that is not in the room's list is not modelled: `Move8d` and `MoveOutcome` take the mover by its index. In the source, `move_8d` also runs on a GameObj never registered or whose `p_init` was refused; `is_solid_at` then does not see the mover, so a solid object moving distance 0 does not collide with itself. The dispatcher only moves the registered player.
- The `pos` setter's `isinstance` assertion and `copy.copy` are left out. Positions are immutable values here.
- The exceptions' message texts are left out.
- The source raises one `ValueError` for an unknown direction and for a coordinate outside the room. The model splits it into `InvalidDirection` and `OutOfBounds`. The dispatcher treats both alike, as the source's `except ValueError` does.
- `lower()` and `strip()` are ASCII-only. Non-ASCII case mapping and Unicode whitespace are not modelled.
- The `TypeError` handler of the retry loop is left out, because `input()` always returns a string.
- Two prints of `take_cmd_input` are not in the event log: the prompt `"\nInput command:"` that `input()` writes before every line it reads (barr.py:63), and the newline appended to the banner (barr.py:58). Each line read would add one prompt; no property here depends on them.
- The Room constructor takes only the size and the floor. A room built from a caller's own object list is not modelled, and such a list may break the room invariant, because `add_obj` never checked it. A custom initial map string is not modelled either; every room starts with "No map initialized".
- `input()` raising `EOFError` is modelled as the reply `EndOfInput`. The source does not catch it.
- The retry loop leaves by `return` once a line is accepted. The source instead writes the command and tests `cmd == ''`. Both leave on the same lines.
- The routing tests the active vocabulary by a `Menu` tag. The source compares tuples with `==`. The two agree for barr.py's three distinct vocabularies.
- `Dispatch` and the lemmas about its structure take the three vocabularies as a parameter. The methods and the reply lemmas use barr.py's own vocabularies.
- Commands.Respond: states only the cursor bounds. What it replies and what it changes are stated by CommandFacts.RespondWorldEffect, CommandFacts.RespondConsumes, CommandFacts.RespondDepth, CommandFacts.MoveReplies, CommandFacts.MasterNests, CommandFacts.NestedReplies, CommandFacts.ActionReplies and CommandFacts.InventoryReplies.
- CommandFacts.MasterReplies: lists EndOfInput among the possible replies without saying when. CommandFacts.MasterEndOfInput states exactly when it occurs.
- World.FirstSolidAt: its own contract states only the index bound. The full property is World.FirstSolidAtSpec.
- World.LastAt: its own contract states only the index bound. The full property is World.LastAtSpec.
