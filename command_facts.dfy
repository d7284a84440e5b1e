/** What take_cmd_input guarantees, stated over its specification Dispatch:
    the retry loop stops at the first accepted line and prints one message
    per rejected line, rejected lines change nothing, dispatch nests at most
    once, only a direction command moves the player, and the replies are fixed. */
module CommandFacts {
  import opened World
  import opened TextInput
  import opened Commands

  // ---------------------------------------------------------------------
  // The retry loop

  /** The messages for lines k .. j-1, one rejection after another. */
  function Complaints(cmds: seq<string>, lines: seq<string>, k: nat, j: nat): seq<Event>
    requires k <= j <= |lines|
    decreases j
  {
    if j == k then [] else Complaints(cmds, lines, k, j - 1) + Rejection(cmds, Normalize(lines[j - 1]))
  }

  lemma {:induction false} ComplaintsFront(cmds: seq<string>, lines: seq<string>, k: nat, j: nat)
    requires k < j <= |lines|
    ensures Complaints(cmds, lines, k, j) == Rejection(cmds, Normalize(lines[k])) + Complaints(cmds, lines, k + 1, j)
    decreases j
  {
    var first := Rejection(cmds, Normalize(lines[k]));
    if j > k + 1 {
      ComplaintsFront(cmds, lines, k, j - 1);
      Regroup(first, Complaints(cmds, lines, k + 1, j - 1), Rejection(cmds, Normalize(lines[j - 1])));
    } else {
      assert [] + first == first + [];
    }
  }

  /** The line the retry loop stops on: the accepted one, or the end of the input. */
  function Stop(cmds: seq<string>, lines: seq<string>, k: nat): (stop: nat)
    requires k <= |lines|
    ensures k <= stop <= |lines|
  {
    var r := Read(cmds, lines, k);
    if r.cmd.Some? then r.next - 1 else |lines|
  }

  /** The retry loop stops at the first accepted line, or reads to the end
      when there is none. */
  lemma {:induction false} ReadFindsFirstAccepted(cmds: seq<string>, lines: seq<string>, k: nat)
    requires k <= |lines|
    ensures var r := Read(cmds, lines, k);
      var stop := Stop(cmds, lines, k);
      (r.cmd.Some? ==> r.cmd.value == Normalize(lines[stop]) && Accepted(cmds, r.cmd.value)) &&
      (forall i :: k <= i < stop ==> !Accepted(cmds, Normalize(lines[i])))
    decreases |lines| - k
  {
    if k < |lines| && !Accepted(cmds, Normalize(lines[k])) {
      ReadFindsFirstAccepted(cmds, lines, k + 1);
      assert Stop(cmds, lines, k) == Stop(cmds, lines, k + 1);
    }
  }

  /** The retry loop prints exactly the rejections of the lines before the
      one it stops on, in order. */
  lemma {:induction false} ReadPrintsComplaints(cmds: seq<string>, lines: seq<string>, k: nat)
    requires k <= |lines|
    ensures Read(cmds, lines, k).events == Complaints(cmds, lines, k, Stop(cmds, lines, k))
    decreases |lines| - k
  {
    if k < |lines| && !Accepted(cmds, Normalize(lines[k])) {
      ReadPrintsComplaints(cmds, lines, k + 1);
      ComplaintsFront(cmds, lines, k, Stop(cmds, lines, k + 1));
      assert Stop(cmds, lines, k) == Stop(cmds, lines, k + 1);
    }
  }

  /** "help" shows the vocabulary, a token outside it gets the invalid-command
      message, an empty line that the vocabulary lists prints nothing; none
      of them ends the loop, and every other line does. */
  lemma RejectionMessages(cmds: seq<string>, cmd: string)
    ensures cmd == "help" ==> !Accepted(cmds, cmd) && Rejection(cmds, cmd) == [ShowVocabulary(cmds)]
    ensures cmd != "help" && cmd !in cmds ==> !Accepted(cmds, cmd) && Rejection(cmds, cmd) == [InvalidCommand]
    ensures cmd == "" && cmd in cmds ==> !Accepted(cmds, cmd) && Rejection(cmds, cmd) == []
    ensures Accepted(cmds, cmd) <==> cmd != "" && cmd != "help" && cmd in cmds
  {
    IndexOfSpec(cmds, cmd);
  }

  /** `t` with `e` printed right after its banner. */
  function AfterBanner(t: Turn, e: seq<Event>): Turn
    requires |t.events| > 0
  {
    t.(events := [t.events[0]] + e + t.events[1..])
  }

  lemma InsertAfterHead(b: Event, e: seq<Event>, x: seq<Event>, rest: seq<Event>)
    ensures [b] + (e + x) + rest == [([b] + x + rest)[0]] + e + ([b] + x + rest)[1..]
  {
    assert ([b] + x + rest)[1..] == x + rest;
  }

  /** What the retry loop printed shows right after the banner; the rest of
      the dispatch does not depend on it. */
  lemma AfterReadShift(v: Vocabularies, menu: Menu, r: Heard, e: seq<Event>, w: int, h: int, objs: seq<Obj>, player: nat, lines: seq<string>)
    requires Ready(v) && player < |objs| && r.next <= |lines|
    ensures AfterRead(v, menu, r.(events := e + r.events), w, h, objs, player, lines) ==
      AfterBanner(AfterRead(v, menu, r, w, h, objs, player, lines), e)
  {
    var cmds := Vocabulary(v, menu);
    var rest := if r.cmd.None? then [] else
      Respond(v, menu, r.cmd.value, IndexOf(cmds, r.cmd.value), w, h, objs, player, lines, r.next).events;
    InsertAfterHead(Banner(cmds[0]), e, r.events, rest);
  }

  /** A line the loop does not accept only prints: the dispatch reads on as
      if it were not there, with the same reply, the same world and the same
      end, and prints its rejection after the banner. */
  lemma RejectedLineIsNoOp(v: Vocabularies, menu: Menu, w: int, h: int, objs: seq<Obj>, player: nat, lines: seq<string>, k: nat)
    requires Ready(v) && player < |objs| && k < |lines| && !Accepted(Vocabulary(v, menu), Normalize(lines[k]))
    ensures Dispatch(v, menu, w, h, objs, player, lines, k) ==
      AfterBanner(Dispatch(v, menu, w, h, objs, player, lines, k + 1), Rejection(Vocabulary(v, menu), Normalize(lines[k])))
  {
    var cmds := Vocabulary(v, menu);
    var r := Read(cmds, lines, k + 1);
    var rejection := Rejection(cmds, Normalize(lines[k]));
    assert Read(cmds, lines, k) == r.(events := rejection + r.events);
    AfterReadShift(v, menu, r, rejection, w, h, objs, player, lines);
  }

  /** The Action banner has an upper-case letter, so no input can select it. */
  lemma {:induction false} BannerNeverSelectable(line: string)
    ensures Normalize(line) != ActionCmds()[0]
  {
    NormalizeShape(line);
    var cmd := Normalize(line);
    if cmd == ActionCmds()[0] {
      assert IsUpper(cmd[0]);
    }
  }

  /** The Action commands a line can select are a, i, u, o, numbered 1..4. */
  lemma {:induction false} ActionIndexTable(line: string)
    requires Accepted(ActionCmds(), Normalize(line))
    ensures var cmd := Normalize(line);
      var n := IndexOf(ActionCmds(), cmd);
      (cmd == "a" && n == 1) || (cmd == "i" && n == 2) || (cmd == "u" && n == 3) || (cmd == "o" && n == 4)
  {
    var cmd := Normalize(line);
    BannerNeverSelectable(line);
    IndexOfSpec(ActionCmds(), cmd);
    assert IndexOf(ActionCmds(), cmd) != 0;
  }

  /** In the master vocabulary "" (index 0) is listed but never accepted,
      "a" is 9 and "i" is 10, and everything else accepted is below 9. */
  lemma {:induction false} MasterIndexTable(cmd: string)
    requires Accepted(MasterCmds(), cmd)
    ensures var n := IndexOf(MasterCmds(), cmd);
      1 <= n <= 10 && (n == 9 <==> cmd == "a") && (n == 10 <==> cmd == "i")
  {
    IndexOfSpec(MasterCmds(), cmd);
  }

  /** Every direction is accepted by the master menu and numbered below 9;
      with MasterIndexTable, the accepted master commands below 9 are exactly
      the eight directions. */
  lemma MasterDirections(cmd: string)
    requires IsDirection(cmd)
    ensures Accepted(MasterCmds(), cmd) && IndexOf(MasterCmds(), cmd) <= 8
  {
    if cmd == "n" { assert IndexOf(MasterCmds(), "n") == 1; }
    else if cmd == "w" { assert IndexOf(MasterCmds(), "w") == 2; }
    else if cmd == "s" { assert IndexOf(MasterCmds(), "s") == 3; }
    else if cmd == "e" { assert IndexOf(MasterCmds(), "e") == 4; }
    else if cmd == "ne" { assert IndexOf(MasterCmds(), "ne") == 5; }
    else if cmd == "nw" { assert IndexOf(MasterCmds(), "nw") == 6; }
    else if cmd == "se" { assert IndexOf(MasterCmds(), "se") == 7; }
    else { assert IndexOf(MasterCmds(), "sw") == 8; }
  }

  // ---------------------------------------------------------------------
  // Nesting

  function Banners(evs: seq<Event>): nat
    decreases |evs|
  {
    if evs == [] then 0 else (if evs[0].Banner? then 1 else 0) + Banners(evs[1..])
  }

  lemma {:induction false} BannersAppend(a: seq<Event>, b: seq<Event>)
    ensures Banners(a + b) == Banners(a) + Banners(b)
    decreases |a|
  {
    if a != [] {
      assert (a + b)[1..] == a[1..] + b;
      BannersAppend(a[1..], b);
    } else {
      assert a + b == b;
    }
  }

  /** The retry loop never prints a banner. */
  lemma {:induction false} ReadPrintsNoBanner(cmds: seq<string>, lines: seq<string>, k: nat)
    requires k <= |lines|
    ensures Banners(Read(cmds, lines, k).events) == 0
    decreases |lines| - k
  {
    if k < |lines| && !Accepted(cmds, Normalize(lines[k])) {
      ReadPrintsNoBanner(cmds, lines, k + 1);
      var rejection := Rejection(cmds, Normalize(lines[k]));
      BannersAppend(rejection, Read(cmds, lines, k + 1).events);
      assert Banners(rejection) == 0;
    }
  }

  /** Each dispatch prints its vocabulary's first entry once, first. A
      master dispatch prints a second banner exactly when it accepts a
      command numbered 9 or 10, and a nested dispatch prints no other, so at
      most two dispatches are ever active. */
  lemma {:induction false} DispatchDepth(v: Vocabularies, menu: Menu, w: int, h: int, objs: seq<Obj>, player: nat, lines: seq<string>, k: nat)
    requires Ready(v) && player < |objs| && k <= |lines|
    ensures var t := Dispatch(v, menu, w, h, objs, player, lines, k);
      var r := Read(Vocabulary(v, menu), lines, k);
      |t.events| > 0 && t.events[0] == Banner(Vocabulary(v, menu)[0]) &&
      Banners(t.events) ==
        (if menu == Master && r.cmd.Some? && 9 <= IndexOf(v.master, r.cmd.value) <= 10 then 2 else 1)
    decreases Rank(menu), 1
  {
    var cmds := Vocabulary(v, menu);
    var r := Read(cmds, lines, k);
    var heard := [Banner(cmds[0])] + r.events;
    ReadPrintsNoBanner(cmds, lines, k);
    BannersAppend([Banner(cmds[0])], r.events);
    assert Banners([Banner(cmds[0])]) == 1;
    if r.cmd.Some? {
      var cmd := r.cmd.value;
      var t := Respond(v, menu, cmd, IndexOf(cmds, cmd), w, h, objs, player, lines, r.next);
      RespondDepth(v, menu, cmd, IndexOf(cmds, cmd), w, h, objs, player, lines, r.next);
      BannersAppend(heard, t.events);
    }
  }

  /** The routing prints nothing itself; it prints one banner, that of the
      nested dispatch, exactly when a master command numbered 9 or 10 opens
      one. */
  lemma {:induction false} RespondDepth(v: Vocabularies, menu: Menu, cmd: string, n: int, w: int, h: int, objs: seq<Obj>, player: nat, lines: seq<string>, next: nat)
    requires Ready(v) && player < |objs| && next <= |lines|
    ensures var t := Respond(v, menu, cmd, n, w, h, objs, player, lines, next);
      Banners(t.events) == (if menu == Master && 9 <= n <= 10 then 1 else 0) &&
      (menu != Master ==> t.events == [])
    decreases Rank(menu), 0
  {
    if menu == Master && 9 <= n <= 10 {
      DispatchDepth(v, if n == 9 then Action else Inventory, w, h, objs, player, lines, next);
    }
  }

  // ---------------------------------------------------------------------
  // Effects on the world and replies

  /** Only a successful move changes the world, and then only the player's
      position; a nested dispatch never moves anything. */
  lemma {:induction false} RespondWorldEffect(v: Vocabularies, menu: Menu, cmd: string, n: int, w: int, h: int, objs: seq<Obj>, player: nat, lines: seq<string>, next: nat)
    requires Ready(v) && player < |objs| && next <= |lines|
    ensures var t := Respond(v, menu, cmd, n, w, h, objs, player, lines, next);
      var m := MoveOutcome(objs, w, h, player, cmd, 1);
      (t.reply != Said(MovedMsg) ==> t.objects == objs) &&
      (t.reply == Said(MovedMsg) ==>
        (menu == Master && n < 9 && t.next == next && m.Ok? && t.objects == SetPos(objs, player, m.value)))
    decreases Rank(menu), 0
  {
    if menu == Master && 9 <= n <= 10 {
      DispatchWorldEffect(v, if n == 9 then Action else Inventory, w, h, objs, player, lines, next);
    }
  }

  /** Only a direction command that move_8d accepts changes the world, and
      then only the player's position, by one step; every other outcome
      leaves every object as it was. */
  lemma {:induction false} DispatchWorldEffect(v: Vocabularies, menu: Menu, w: int, h: int, objs: seq<Obj>, player: nat, lines: seq<string>, k: nat)
    requires Ready(v) && player < |objs| && k <= |lines|
    ensures var t := Dispatch(v, menu, w, h, objs, player, lines, k);
      (t.reply != Said(MovedMsg) ==> t.objects == objs) &&
      (t.reply == Said(MovedMsg) ==>
        menu == Master && k < t.next <= |lines| &&
        var cmd := Normalize(lines[t.next - 1]);
        IsDirection(cmd) && MoveOutcome(objs, w, h, player, cmd, 1).Ok? &&
        t.objects == SetPos(objs, player, Target(objs[player].pos, cmd, 1).value))
    decreases Rank(menu), 1
  {
    var cmds := Vocabulary(v, menu);
    var r := Read(cmds, lines, k);
    if r.cmd.Some? {
      var cmd := r.cmd.value;
      ReadFindsFirstAccepted(cmds, lines, k);
      RespondWorldEffect(v, menu, cmd, IndexOf(cmds, cmd), w, h, objs, player, lines, r.next);
      MoveRefusals(objs, w, h, player, cmd, 1);
    }
  }

  /** The master menu answers a direction with "You successfully moved." when
      move_8d succeeds and "You cannot move there." when it raises. */
  lemma {:induction false} MoveReplies(w: int, h: int, objs: seq<Obj>, player: nat, lines: seq<string>, k: nat)
    requires player < |objs| && k <= |lines|
    requires Read(MasterCmds(), lines, k).cmd.Some?
    requires IsDirection(Read(MasterCmds(), lines, k).cmd.value)
    ensures var r := Read(MasterCmds(), lines, k);
      var m := MoveOutcome(objs, w, h, player, r.cmd.value, 1);
      var t := Dispatch(Barr(), Master, w, h, objs, player, lines, k);
      t.next == r.next &&
      (m.Ok? ==> t.reply == Said(MovedMsg) && t.objects == SetPos(objs, player, m.value)) &&
      (m.Err? ==> t.reply == Said(BlockedMsg) && t.objects == objs)
  {
    var r := Read(MasterCmds(), lines, k);
    ReadFindsFirstAccepted(MasterCmds(), lines, k);
    MasterDirections(r.cmd.value);
  }

  /** An Action or Inventory dispatch replies exactly when its retry loop
      accepts a line: only running out of input gives EndOfInput. */
  lemma NestedReplies(v: Vocabularies, menu: Menu, w: int, h: int, objs: seq<Obj>, player: nat, lines: seq<string>, k: nat)
    requires Ready(v) && menu != Master && player < |objs| && k <= |lines|
    ensures var t := Dispatch(v, menu, w, h, objs, player, lines, k);
      var r := Read(Vocabulary(v, menu), lines, k);
      (t.reply == EndOfInput <==> r.cmd.None?) && t.objects == objs && t.next == r.next
  {
  }

  /** An Action dispatch answers "attacked", "interacted", "used" or
      "observed" to the a, i, u or o it accepts, and EndOfInput only when it
      accepts nothing; its banner is never selected, so it never falls
      through to the empty reply. */
  lemma {:induction false} ActionReplies(w: int, h: int, objs: seq<Obj>, player: nat, lines: seq<string>, k: nat)
    requires player < |objs| && k <= |lines|
    ensures var t := Dispatch(Barr(), Action, w, h, objs, player, lines, k);
      var r := Read(ActionCmds(), lines, k);
      t.objects == objs && (t.reply == EndOfInput <==> r.cmd.None?) &&
      (r.cmd.Some? ==>
        var cmd := r.cmd.value;
        t.next == r.next && cmd == Normalize(lines[t.next - 1]) &&
        ((cmd == "a" && t.reply == Said("attacked")) ||
         (cmd == "i" && t.reply == Said("interacted")) ||
         (cmd == "u" && t.reply == Said("used")) ||
         (cmd == "o" && t.reply == Said("observed"))))
  {
    var r := Read(ActionCmds(), lines, k);
    if r.cmd.Some? {
      ReadFindsFirstAccepted(ActionCmds(), lines, k);
      ActionIndexTable(lines[r.next - 1]);
    }
  }

  /** An Inventory dispatch closes at once on every accepted line, the
      lower-case banner "inventory:" included, answers EndOfInput only when
      it accepts nothing, and changes nothing. */
  lemma InventoryReplies(w: int, h: int, objs: seq<Obj>, player: nat, lines: seq<string>, k: nat)
    requires player < |objs| && k <= |lines|
    ensures var t := Dispatch(Barr(), Inventory, w, h, objs, player, lines, k);
      var r := Read(InventCmds(), lines, k);
      t.objects == objs && t.next == r.next &&
      (r.cmd.None? ==> t.reply == EndOfInput) &&
      (r.cmd.Some? ==> t.reply == Said(ClosedMsg))
    ensures k < |lines| && Normalize(lines[k]) == "inventory:" ==>
      Dispatch(Barr(), Inventory, w, h, objs, player, lines, k) == Turn(Said(ClosedMsg), objs, k + 1, [Banner("inventory:")])
  {
    if k < |lines| && Normalize(lines[k]) == "inventory:" {
      assert IndexOf(InventCmds(), "inventory:") == 0;
    }
  }

  /** An accepted "a" or "i" opens exactly one Action or Inventory dispatch
      on the lines after it, and the master dispatch returns what that one
      returns, after its own banner and messages. */
  lemma {:induction false} MasterNests(w: int, h: int, objs: seq<Obj>, player: nat, lines: seq<string>, k: nat)
    requires player < |objs| && k <= |lines|
    requires Read(MasterCmds(), lines, k).cmd == Some("a") || Read(MasterCmds(), lines, k).cmd == Some("i")
    ensures var r := Read(MasterCmds(), lines, k);
      var nested := if r.cmd.value == "a" then Action else Inventory;
      var t := Dispatch(Barr(), Master, w, h, objs, player, lines, k);
      var u := Dispatch(Barr(), nested, w, h, objs, player, lines, r.next);
      t == Turn(u.reply, u.objects, u.next, [Banner("")] + r.events + u.events)
  {
    var r := Read(MasterCmds(), lines, k);
    ReadFindsFirstAccepted(MasterCmds(), lines, k);
    MasterIndexTable(r.cmd.value);
  }

  /** A master dispatch ends in one of seven fixed replies or at the end of
      the input; it never returns the empty string. */
  lemma {:induction false} MasterReplies(w: int, h: int, objs: seq<Obj>, player: nat, lines: seq<string>, k: nat)
    requires player < |objs| && k <= |lines|
    ensures Dispatch(Barr(), Master, w, h, objs, player, lines, k).reply in
      [EndOfInput, Said(MovedMsg), Said(BlockedMsg), Said("attacked"), Said("interacted"),
       Said("used"), Said("observed"), Said(ClosedMsg)]
  {
    var r := Read(MasterCmds(), lines, k);
    if r.cmd.Some? {
      ReadFindsFirstAccepted(MasterCmds(), lines, k);
      MasterIndexTable(r.cmd.value);
      var n := IndexOf(MasterCmds(), r.cmd.value);
      if n == 9 {
        ActionReplies(w, h, objs, player, lines, r.next);
      } else if n == 10 {
        InventoryReplies(w, h, objs, player, lines, r.next);
      }
    }
  }

  /** A master dispatch answers EndOfInput exactly when the input runs out
      before it accepts a line, or before the dispatch that its "a" or "i"
      opens accepts one. */
  lemma {:induction false} MasterEndOfInput(w: int, h: int, objs: seq<Obj>, player: nat, lines: seq<string>, k: nat)
    requires player < |objs| && k <= |lines|
    ensures var r := Read(MasterCmds(), lines, k);
      Dispatch(Barr(), Master, w, h, objs, player, lines, k).reply == EndOfInput <==>
        r.cmd.None? ||
        (r.cmd == Some("a") && Read(ActionCmds(), lines, r.next).cmd.None?) ||
        (r.cmd == Some("i") && Read(InventCmds(), lines, r.next).cmd.None?)
  {
    var r := Read(MasterCmds(), lines, k);
    if r.cmd.Some? {
      ReadFindsFirstAccepted(MasterCmds(), lines, k);
      MasterIndexTable(r.cmd.value);
      if r.cmd.value == "a" {
        MasterNests(w, h, objs, player, lines, k);
        NestedReplies(Barr(), Action, w, h, objs, player, lines, r.next);
      } else if r.cmd.value == "i" {
        MasterNests(w, h, objs, player, lines, k);
        NestedReplies(Barr(), Inventory, w, h, objs, player, lines, r.next);
      }
    }
  }

  /** The line a dispatch last read before replying is one that the
      replying vocabulary accepts: the dispatch's own, or for a master
      dispatch that opened a nested one, the Action or Inventory vocabulary. */
  lemma {:induction false} DispatchConsumes(v: Vocabularies, menu: Menu, w: int, h: int, objs: seq<Obj>, player: nat, lines: seq<string>, k: nat)
    requires Ready(v) && player < |objs| && k <= |lines|
    ensures var t := Dispatch(v, menu, w, h, objs, player, lines, k);
      t.reply.Said? ==>
        var last := Normalize(lines[t.next - 1]);
        Accepted(Vocabulary(v, menu), last) ||
        (menu == Master && (Accepted(v.action, last) || Accepted(v.invent, last)))
    decreases Rank(menu), 1
  {
    var cmds := Vocabulary(v, menu);
    var r := Read(cmds, lines, k);
    if r.cmd.Some? {
      ReadFindsFirstAccepted(cmds, lines, k);
      RespondConsumes(v, menu, r.cmd.value, IndexOf(cmds, r.cmd.value), w, h, objs, player, lines, r.next);
    }
  }

  /** The routing either replies without reading further, or, for a master
      command numbered 9 or 10, replies after a line that the Action or
      Inventory vocabulary accepts. */
  lemma {:induction false} RespondConsumes(v: Vocabularies, menu: Menu, cmd: string, n: int, w: int, h: int, objs: seq<Obj>, player: nat, lines: seq<string>, next: nat)
    requires Ready(v) && player < |objs| && next <= |lines|
    ensures var t := Respond(v, menu, cmd, n, w, h, objs, player, lines, next);
      t.reply.Said? ==>
        t.next == next ||
        (menu == Master && 9 <= n <= 10 &&
          var last := Normalize(lines[t.next - 1]);
          Accepted(v.action, last) || Accepted(v.invent, last))
    decreases Rank(menu), 0
  {
    if menu == Master && 9 <= n <= 10 {
      DispatchConsumes(v, if n == 9 then Action else Inventory, w, h, objs, player, lines, next);
    }
  }

  /** A dispatch keeps the room well formed. */
  lemma {:induction false} DispatchKeepsWellFormed(v: Vocabularies, menu: Menu, w: int, h: int, objs: seq<Obj>, player: nat, lines: seq<string>, k: nat)
    requires Ready(v) && player < |objs| && k <= |lines| && WellFormed(objs, w, h)
    ensures WellFormed(Dispatch(v, menu, w, h, objs, player, lines, k).objects, w, h)
  {
    DispatchWorldEffect(v, menu, w, h, objs, player, lines, k);
    var t := Dispatch(v, menu, w, h, objs, player, lines, k);
    if t.reply == Said(MovedMsg) {
      MoveKeepsWellFormed(objs, w, h, player, Normalize(lines[t.next - 1]), 1);
    }
  }

  // ---------------------------------------------------------------------
  // Scenarios

  /** A 4x4 room holding only the player at (1, 1): "n" moves it to (1, 0);
      a second "n" would leave the room, so it is refused and nothing moves. */
  lemma ScenarioNorthTwice(stats: Stats)
    ensures var p := NewPlayer(stats, Pos(1, 1)).(physical := true);
      var moved := p.(pos := Pos(1, 0));
      Dispatch(Barr(), Master, 4, 4, [p], 0, ["n", "n"], 0) == Turn(Said(MovedMsg), [moved], 1, [Banner("")]) &&
      Dispatch(Barr(), Master, 4, 4, [moved], 0, ["n", "n"], 1) == Turn(Said(BlockedMsg), [moved], 2, [Banner("")])
  {
    assert Normalize("n") == "n";
    assert IndexOf(MasterCmds(), "n") == 1;
  }

  /** An unknown token is reported and re-prompted; "a" then "a" attacks. */
  lemma ScenarioUnknownThenAttack(stats: Stats)
    ensures var p := NewPlayer(stats, Pos(1, 1)).(physical := true);
      Dispatch(Barr(), Master, 4, 4, [p], 0, ["xyz", "a", "a"], 0) ==
        Turn(Said("attacked"), [p], 3, [Banner(""), InvalidCommand, Banner("Possible actions:")])
  {
    assert Normalize("xyz") == "xyz";
    assert IndexOf(MasterCmds(), "xyz") == -1;
    assert Normalize("a") == "a";
    assert IndexOf(MasterCmds(), "a") == 9;
    assert IndexOf(ActionCmds(), "a") == 1;
  }
}
