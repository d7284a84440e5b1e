/** The command dispatcher of barr.py: three fixed vocabularies and
    take_cmd_input, which reads lines until one is a valid command of the
    active vocabulary, then moves the player or runs one nested dispatch on
    the Action or Inventory vocabulary. Input is a finite sequence of lines
    and a cursor into it; the prints become a log of events. */
module Commands {
  import opened World
  import opened Engine
  import opened TextInput

  /** The vocabulary take_cmd_input is called with. */
  datatype Menu = Master | Action | Inventory

  function MasterCmds(): seq<string> { ["", "n", "w", "s", "e", "ne", "nw", "se", "sw", "a", "i"] }
  function ActionCmds(): seq<string> { ["Possible actions:", "a", "i", "u", "o"] }
  function InventCmds(): seq<string> { ["inventory:", "c", "e", "d", "u", "s"] }

  /** The three vocabularies take_cmd_input tells apart; barr.py's own are
      `Barr()`. Every vocabulary has an entry 0, which is printed as its banner. */
  datatype Vocabularies = Vocabularies(master: seq<string>, action: seq<string>, invent: seq<string>)

  function Barr(): Vocabularies {
    Vocabularies(MasterCmds(), ActionCmds(), InventCmds())
  }

  predicate Ready(v: Vocabularies) {
    |v.master| > 0 && |v.action| > 0 && |v.invent| > 0
  }

  function Vocabulary(v: Vocabularies, menu: Menu): (cmds: seq<string>)
    requires Ready(v)
    ensures |cmds| > 0
  {
    match menu
    case Master => v.master
    case Action => v.action
    case Inventory => v.invent
  }

  const MovedMsg := "You successfully moved."
  const BlockedMsg := "You cannot move there."
  const ClosedMsg := "Closed inventory."

  /** What the dispatcher prints: the vocabulary's first entry when a dispatch
      starts, the whole vocabulary after "help", the invalid-command message.
      The input prompt and the newline after the banner are not logged. */
  datatype Event = Banner(title: string) | ShowVocabulary(cmds: seq<string>) | InvalidCommand

  /** The string take_cmd_input returns, or the end of the input, where
      Python's input() raises an EOFError that nothing catches. */
  datatype Reply = Said(text: string) | EndOfInput

  /** The outcome of one dispatch: the reply, the room's objects afterwards,
      the index of the first unread line, and what was printed. */
  datatype Turn = Turn(reply: Reply, objects: seq<Obj>, next: nat, events: seq<Event>)

  /** The first index of `cmd` in `cmds` at or after `i`, or -1. */
  function IndexFrom(cmds: seq<string>, cmd: string, i: nat): int
    requires i <= |cmds|
    decreases |cmds| - i
  {
    if i == |cmds| then -1
    else if cmds[i] == cmd then i
    else IndexFrom(cmds, cmd, i + 1)
  }

  /** The first index of `cmd` in `cmds`, or -1. */
  function IndexOf(cmds: seq<string>, cmd: string): int {
    IndexFrom(cmds, cmd, 0)
  }

  lemma {:induction false} IndexFromSpec(cmds: seq<string>, cmd: string, i: nat)
    requires i <= |cmds|
    ensures var r := IndexFrom(cmds, cmd, i);
      (r == -1 <==> cmd !in cmds[i..]) &&
      (r != -1 ==> i <= r < |cmds| && cmds[r] == cmd && forall j :: i <= j < r ==> cmds[j] != cmd)
    decreases |cmds| - i
  {
    if i < |cmds| && cmds[i] != cmd {
      IndexFromSpec(cmds, cmd, i + 1);
      assert cmds[i..] == [cmds[i]] + cmds[i + 1..];
    }
  }

  lemma IndexOfSpec(cmds: seq<string>, cmd: string)
    ensures var r := IndexOf(cmds, cmd);
      (r == -1 <==> cmd !in cmds) &&
      (r != -1 ==> 0 <= r < |cmds| && cmds[r] == cmd && forall i :: 0 <= i < r ==> cmds[i] != cmd)
  {
    IndexFromSpec(cmds, cmd, 0);
    assert cmds[0..] == cmds;
  }

  /** A normalised line that ends the retry loop over `cmds`: not "help",
      in the vocabulary, and not empty. */
  predicate Accepted(cmds: seq<string>, cmd: string) {
    cmd != "help" && cmd in cmds && cmd != ""
  }

  /** What the retry loop prints for a normalised line it does not accept. */
  function Rejection(cmds: seq<string>, cmd: string): seq<Event> {
    if cmd == "help" then [ShowVocabulary(cmds)]
    else if cmd !in cmds then [InvalidCommand]
    else []
  }

  /** What the retry loop does from line `k` on: the accepted command and
      the line after it, or None and the end of the input, and what it
      printed for the lines it rejected on the way. */
  datatype Heard = Heard(cmd: Option<string>, next: nat, events: seq<Event>)

  function Read(cmds: seq<string>, lines: seq<string>, k: nat): (r: Heard)
    requires k <= |lines|
    ensures k <= r.next <= |lines|
    ensures r.cmd.None? ==> r.next == |lines|
    ensures r.cmd.Some? ==> k < r.next
    decreases |lines| - k
  {
    if k == |lines| then Heard(None, k, [])
    else
      var cmd := Normalize(lines[k]);
      if Accepted(cmds, cmd) then Heard(Some(cmd), k + 1, [])
      else
        var r := Read(cmds, lines, k + 1);
        r.(events := Rejection(cmds, cmd) + r.events)
  }

  function ActionReply(n: int): string {
    if n == 1 then "attacked"
    else if n == 2 then "interacted"
    else if n == 3 then "used"
    else if n == 4 then "observed"
    else ""
  }

  function Rank(menu: Menu): nat {
    if menu == Master then 1 else 0
  }

  /** take_cmd_input on `menu` for the player at index `player` of a room of
      size (w, h) holding `objs`, reading `lines` from index `k`: the banner,
      the retry loop, then the routing of the accepted command. */
  function Dispatch(v: Vocabularies, menu: Menu, w: int, h: int, objs: seq<Obj>, player: nat, lines: seq<string>, k: nat): (t: Turn)
    requires Ready(v) && player < |objs| && k <= |lines|
    ensures k <= t.next <= |lines|
    ensures t.reply == EndOfInput ==> t.next == |lines|
    ensures t.reply.Said? ==> k < t.next
    ensures |t.events| > 0 && t.events[0] == Banner(Vocabulary(v, menu)[0])
    decreases Rank(menu), 2
  {
    AfterRead(v, menu, Read(Vocabulary(v, menu), lines, k), w, h, objs, player, lines)
  }

  /** The dispatch once the retry loop has returned `r`: the banner and what
      the loop printed, then the routing of the accepted command, or the end
      of the input. */
  function AfterRead(v: Vocabularies, menu: Menu, r: Heard, w: int, h: int, objs: seq<Obj>, player: nat, lines: seq<string>): (t: Turn)
    requires Ready(v) && player < |objs| && r.next <= |lines|
    ensures r.next <= t.next <= |lines|
    ensures t.reply == EndOfInput ==> t.next == |lines|
    ensures t.reply.Said? ==> r.cmd.Some?
    ensures |t.events| > 0 && t.events[0] == Banner(Vocabulary(v, menu)[0])
    decreases Rank(menu), 1
  {
    var cmds := Vocabulary(v, menu);
    var heard := [Banner(cmds[0])] + r.events;
    match r.cmd
    case None => Turn(EndOfInput, objs, |lines|, heard)
    case Some(cmd) =>
      var t := Respond(v, menu, cmd, IndexOf(cmds, cmd), w, h, objs, player, lines, r.next);
      t.(events := heard + t.events)
  }

  /** The routing after the retry loop: `cmd` was accepted, `n` is its index
      in the vocabulary and `next` is the first line not yet read. */
  function Respond(v: Vocabularies, menu: Menu, cmd: string, n: int, w: int, h: int, objs: seq<Obj>, player: nat, lines: seq<string>, next: nat): (t: Turn)
    requires Ready(v) && player < |objs| && next <= |lines|
    ensures next <= t.next <= |lines|
    ensures t.reply == EndOfInput ==> t.next == |lines|
    decreases Rank(menu), 0
  {
    match menu
    case Master =>
      if n < 9 then
        var m := MoveOutcome(objs, w, h, player, cmd, 1);
        if m.Ok? then Turn(Said(MovedMsg), SetPos(objs, player, m.value), next, [])
        else Turn(Said(BlockedMsg), objs, next, [])
      else if n == 9 || n == 10 then Dispatch(v, if n == 9 then Action else Inventory, w, h, objs, player, lines, next)
      else Turn(Said(""), objs, next, [])
    case Action => Turn(Said(ActionReply(n)), objs, next, [])
    case Inventory => Turn(Said(ClosedMsg), objs, next, [])
  }

  /** The retry loop of take_cmd_input: reads lines from `k` until one is
      accepted, printing for each rejected one. `eof` when the input runs out
      first; otherwise `cmd` is the accepted command and `next` follows its
      line. The loop leaves with the accepted command where the source's
      `while cmd == ''` would see a non-empty `cmd`. */
  method ReadCommand(cmds: seq<string>, lines: seq<string>, k: nat)
    returns (cmd: string, next: nat, eof: bool, events: seq<Event>)
    requires k <= |lines|
    ensures var r := Read(cmds, lines, k);
      (eof <==> r.cmd.None?) && (!eof ==> r.cmd == Some(cmd)) && next == r.next && events == r.events
  {
    next := k;
    events := [];
    while next < |lines|
      invariant k <= next <= |lines|
      invariant var r := Read(cmds, lines, next);
        Read(cmds, lines, k) == r.(events := events + r.events)
      decreases |lines| - next
    {
      var c := Normalize(lines[next]);
      var said: seq<Event>;
      if c == "help" {
        said := [ShowVocabulary(cmds)];
      } else if c !in cmds {
        said := [InvalidCommand];
      } else if c != "" {
        assert events + [] == events;
        return c, next + 1, false, events;
      } else {
        said := [];
      }
      Regroup(events, said, Read(cmds, lines, next + 1).events);
      events := events + said;
      next := next + 1;
    }
    return "", next, true, events;
  }

  lemma Regroup<T>(a: seq<T>, b: seq<T>, c: seq<T>)
    ensures a + (b + c) == a + b + c
  {
    assert |a + (b + c)| == |a + b + c|;
  }

  /** The enumerate loop of take_cmd_input: the first index of `cmd` in `cmds`, or -1. */
  method CommandNumber(cmds: seq<string>, cmd: string) returns (n: int)
    ensures n == IndexOf(cmds, cmd)
  {
    IndexOfSpec(cmds, cmd);
    n := -1;
    var i := 0;
    while i < |cmds|
      invariant 0 <= i <= |cmds|
      invariant forall j :: 0 <= j < i ==> cmds[j] != cmd
    {
      if cmds[i] == cmd {
        n := i;
        return;
      }
      i := i + 1;
    }
  }

  /** take_cmd_input: one dispatch on `menu` for the player at index `player`. */
  method TakeCmdInput(room: Room, player: nat, menu: Menu, lines: seq<string>, k: nat)
    returns (reply: Reply, next: nat, events: seq<Event>)
    requires player < |room.objects| && k <= |lines|
    modifies room`objects
    ensures var t := Dispatch(Barr(), menu, room.width, room.height, old(room.objects), player, lines, k);
      reply == t.reply && room.objects == t.objects && next == t.next && events == t.events
    decreases Rank(menu), 2
  {
    var cmds := Vocabulary(Barr(), menu);
    events := [Banner(cmds[0])];
    var cmd, j, eof, heard := ReadCommand(cmds, lines, k);
    events := events + heard;
    if eof {
      return EndOfInput, |lines|, events;
    }
    var n := CommandNumber(cmds, cmd);
    var routed;
    reply, next, routed := Route(room, player, menu, cmd, n, lines, j);
    events := events + routed;
  }

  /** The part of take_cmd_input after the retry loop and the numbering:
      acts on the accepted `cmd`, whose index is `n`; `j` is the first line
      not yet read. */
  method Route(room: Room, player: nat, menu: Menu, cmd: string, n: int, lines: seq<string>, j: nat)
    returns (reply: Reply, next: nat, events: seq<Event>)
    requires player < |room.objects| && j <= |lines|
    modifies room`objects
    ensures var t := Respond(Barr(), menu, cmd, n, room.width, room.height, old(room.objects), player, lines, j);
      reply == t.reply && room.objects == t.objects && next == t.next && events == t.events
    decreases Rank(menu), 0
  {
    reply, next, events := Said(""), j, [];
    if menu == Master {
      if n < 9 {
        // SolidCollision and ValueError (OutOfBounds, InvalidDirection) are
        // caught; move_8d raises nothing else.
        var moved := room.Move8d(player, cmd, 1);
        reply := if moved.Ok? then Said(MovedMsg) else Said(BlockedMsg);
      } else if n == 9 {
        reply, next, events := TakeCmdInput(room, player, Action, lines, j);
      } else if n == 10 {
        reply, next, events := TakeCmdInput(room, player, Inventory, lines, j);
      }
    } else if menu == Action {
      reply := Said(ActionReply(n));
    } else {
      reply := Said(ClosedMsg);
    }
  }
}
