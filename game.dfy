/** The game state machine: the room map, the current position, the
    inventory and the discovered set, changed by moving and by picking up
    items, with the message boxes replaced by result values and the
    closing of the window replaced by a terminal status. */
module Game {
  import opened Rooms
  import opened Generator

  /** Exploring until the window would be destroyed: Won on escape, Lost on death. */
  datatype Status = Exploring | Won | Lost

  /** The module-level game state of the source, as one value. */
  datatype State = State(
    rooms: map<Pos, Room>,
    pos: Pos,
    exitPos: Pos,
    inventory: seq<Item>,
    discovered: set<Pos>,
    status: Status)

  /** What check_win reports: not at the Exit, the locked-door warning, or victory. */
  datatype Verdict = NotAtExit | LockedDoor | Escaped

  /** What move reports: the "Blocked" box, the "Game Over" box, or entering
      the room (after the "Battle!" box when `fought`) followed by check_win. */
  datatype MoveOutcome = Blocked | Died | Entered(fought: bool, verdict: Verdict)

  /** What get_item reports: the "Item Collected" box or the "Nothing Here" box. */
  datatype PickUpOutcome = Collected(item: Item) | NothingHere

  /** The facts every reachable state keeps: the player stands in a room that
      is discovered, every discovered position is a room, and the Exit
      position is the only room whose role is Exit. */
  ghost predicate Consistent(s: State) {
    && s.pos in s.rooms
    && s.pos in s.discovered
    && s.discovered <= s.rooms.Keys
    && s.exitPos in s.rooms
    && (forall p | p in s.rooms :: s.rooms[p].role == Exit <==> p == s.exitPos)
  }

  /** The state at start-up and after restart_game: the player in the Cell,
      an empty inventory, and only the Cell discovered. */
  function Initial(g: Dungeon): (s: State)
    ensures s.rooms == g.rooms && s.exitPos == g.exit
    ensures s.pos == g.cell && s.inventory == [] && s.discovered == {g.cell} && s.status == Exploring
  {
    State(g.rooms, g.cell, g.exit, [], {g.cell}, Exploring)
  }

  /** The initial state of a generated dungeon is consistent and starts in the Cell. */
  lemma InitialConsistent(rows: nat, cols: nat, shuffled: seq<Pos>, d: Draw)
    requires FromRandom(rows, cols, shuffled, d)
    ensures var s := Initial(Generate(rows, cols, shuffled, d));
            && Consistent(s)
            && s.rooms[s.pos].role == Cell
            && s.inventory == [] && s.discovered == {s.pos} && s.status == Exploring
  {
    GenerateCoversGrid(rows, cols, shuffled, d);
    GeneratePlacesRoles(rows, cols, shuffled, d);
  }

  const Directions: set<string> := {"north", "south", "east", "west"}

  /** Two grid positions one step apart horizontally or vertically. */
  predicate Adjacent(p: Pos, q: Pos) {
    || (p.x == q.x && (p.y - q.y == 1 || q.y - p.y == 1))
    || (p.y == q.y && (p.x - q.x == 1 || q.x - p.x == 1))
  }

  /** The direction table of move: a position exactly when the direction is
      one of the four known names, and then a neighbour of p. */
  function Target(p: Pos, dir: string): (t: Option<Pos>)
    ensures t.Some? <==> dir in Directions
    ensures t.Some? ==> Adjacent(p, t.value)
  {
    if dir == "north" then Some(Pos(p.x, p.y - 1))
    else if dir == "south" then Some(Pos(p.x, p.y + 1))
    else if dir == "east" then Some(Pos(p.x + 1, p.y))
    else if dir == "west" then Some(Pos(p.x - 1, p.y))
    else None
  }

  /** check_win: at a room whose role is Exit, victory exactly when a key is carried. */
  function CheckWin(s: State): (v: Verdict)
    requires s.pos in s.rooms
    ensures v != NotAtExit <==> s.rooms[s.pos].role == Exit
    ensures v == Escaped ==> Key in s.inventory
    ensures v == LockedDoor ==> Key !in s.inventory
  {
    if s.rooms[s.pos].role == Exit then
      if Key in s.inventory then Escaped else LockedDoor
    else NotAtExit
  }

  /** In a consistent state the name test of check_win is the test
      "standing on the Exit position": victory needs the key, and without
      it the door is locked. */
  lemma CheckWinAtExit(s: State)
    requires Consistent(s)
    ensures CheckWin(s) == Escaped <==> s.pos == s.exitPos && Key in s.inventory
    ensures CheckWin(s) == LockedDoor <==> s.pos == s.exitPos && Key !in s.inventory
    ensures CheckWin(s) == NotAtExit <==> s.pos != s.exitPos
  {
  }

  /** move: the state after one move in direction `dir`, and what is reported.
      Moves arrive only while exploring: winning or dying closes the window. */
  function MoveStep(s: State, dir: string): (r: (State, MoveOutcome))
    requires s.status == Exploring
    // blocked exactly when the direction is unknown or leads off the room map,
    // and then nothing changes
    ensures r.1 == Blocked <==> Target(s.pos, dir).None? || Target(s.pos, dir).value !in s.rooms
    ensures r.1 == Blocked ==> r.0 == s
    ensures r.0.rooms.Keys == s.rooms.Keys && r.0.exitPos == s.exitPos
    // otherwise the player stands one step away, that room is discovered,
    // and the inventory is untouched
    ensures r.1 != Blocked ==>
              && Target(s.pos, dir) == Some(r.0.pos)
              && r.0.pos in s.rooms
              && r.0.discovered == s.discovered + {r.0.pos}
              && r.0.inventory == s.inventory
    // death exactly when entering a monster room without the sword; check_win is not reached
    ensures r.1 == Died <==> r.1 != Blocked && s.rooms[r.0.pos].monster && Sword !in s.inventory
    ensures r.1 == Died ==> r.0.rooms == s.rooms && r.0.status == Lost
    // with the sword the monster of that room only is defeated
    ensures r.1.Entered? ==>
              && (r.1.fought <==> s.rooms[r.0.pos].monster)
              && (forall p | p in s.rooms ::
                    r.0.rooms[p] == if p == r.0.pos then s.rooms[p].(monster := false) else s.rooms[p])
              && r.1.verdict == CheckWin(r.0)
              && r.0.status == if r.1.verdict == Escaped then Won else Exploring
    ensures s.discovered <= r.0.discovered
    ensures Consistent(s) ==> Consistent(r.0)
  {
    var t := Target(s.pos, dir);
    if t.None? || t.value !in s.rooms then (s, Blocked)
    else
      var entered := s.(pos := t.value, discovered := s.discovered + {t.value});
      var room := s.rooms[t.value];
      if room.monster && Sword !in s.inventory then (entered.(status := Lost), Died)
      else
        var after := if room.monster
                     then entered.(rooms := s.rooms[t.value := room.(monster := false)])
                     else entered;
        var verdict := CheckWin(after);
        (if verdict == Escaped then after.(status := Won) else after, Entered(room.monster, verdict))
  }

  /** get_item: the state after trying to pick up, and what is reported. */
  function PickUp(s: State): (r: (State, PickUpOutcome))
    requires s.pos in s.rooms && s.status == Exploring
    // an item is collected exactly when the room holds one; otherwise nothing changes
    ensures r.1 == NothingHere <==> s.rooms[s.pos].item.None?
    ensures r.1 == NothingHere ==> r.0 == s
    // that item is appended to the inventory and removed from this room only
    ensures r.1.Collected? ==>
              && s.rooms[s.pos].item == Some(r.1.item)
              && r.0.inventory == s.inventory + [r.1.item]
              && r.0.rooms.Keys == s.rooms.Keys
              && (forall p | p in s.rooms ::
                    r.0.rooms[p] == if p == s.pos then s.rooms[p].(item := None) else s.rooms[p])
              && r.0 == s.(rooms := r.0.rooms, inventory := r.0.inventory)
    ensures Consistent(s) ==> Consistent(r.0)
  {
    var room := s.rooms[s.pos];
    match room.item
    case Some(it) =>
      (s.(inventory := s.inventory + [it], rooms := s.rooms[s.pos := room.(item := None)]), Collected(it))
    case None => (s, NothingHere)
  }

  /** Picking up consumes the item: a second pick-up in the same room finds
      nothing and changes nothing, and the item was added exactly once. */
  lemma PickUpTwice(s: State)
    requires s.pos in s.rooms && s.status == Exploring
    ensures var (s1, r1) := PickUp(s);
            && PickUp(s1) == (s1, NothingHere)
            && (r1.Collected? ==> multiset(s1.inventory)[r1.item] == multiset(s.inventory)[r1.item] + 1)
  {
  }

  /** A button press of the user interface. */
  datatype Command = Go(dir: string) | PickUpItem

  function Step(s: State, c: Command): (t: State)
    requires Consistent(s) && s.status == Exploring
    ensures Consistent(t)
  {
    match c
    case Go(dir) => MoveStep(s, dir).0
    case PickUpItem => PickUp(s).0
  }

  /** A session: the commands are applied one by one until the game is won
      or lost, after which the window is gone and no command arrives. */
  function Run(s: State, cmds: seq<Command>): (t: State)
    requires Consistent(s)
    ensures Consistent(t)
    decreases |cmds|
  {
    if cmds == [] || s.status != Exploring then s
    else Run(Step(s, cmds[0]), cmds[1..])
  }

  /** Won and Lost are terminal: the window is closed on a death and on a
      victory, so no later command changes the state and only a restart
      leaves them. */
  lemma TerminalIsFinal(s: State, cmds: seq<Command>)
    requires Consistent(s)
    ensures s.status != Exploring ==> Run(s, cmds) == s
  {
  }

  /** Across a session the discovered set and the inventory only grow, the
      set of rooms and the Exit stay the same, and no monster reappears. */
  lemma {:induction false} RunOnlyGrows(s: State, cmds: seq<Command>)
    requires Consistent(s)
    ensures var t := Run(s, cmds);
            && s.discovered <= t.discovered
            && s.inventory <= t.inventory
            && t.rooms.Keys == s.rooms.Keys
            && t.exitPos == s.exitPos
            && (forall p | p in s.rooms :: t.rooms[p].monster ==> s.rooms[p].monster)
    decreases |cmds|
  {
    if cmds != [] && s.status == Exploring {
      RunOnlyGrows(Step(s, cmds[0]), cmds[1..]);
    }
  }

  /** A session that starts exploring and ends in victory ends on the Exit
      with the key in the inventory. */
  lemma {:induction false} RunWonHoldsKey(s: State, cmds: seq<Command>)
    requires Consistent(s) && s.status == Exploring
    ensures var t := Run(s, cmds);
            t.status == Won ==> t.pos == t.exitPos && Key in t.inventory
    decreases |cmds|
  {
    if cmds != [] {
      var next := Step(s, cmds[0]);
      if next.status == Exploring {
        RunWonHoldsKey(next, cmds[1..]);
      } else if next.status == Won {
        CheckWinAtExit(next);
      }
    }
  }

  /** A session that starts exploring and ends in death ends in a monster
      room entered without the sword. */
  lemma {:induction false} RunLostMetMonster(s: State, cmds: seq<Command>)
    requires Consistent(s) && s.status == Exploring
    ensures var t := Run(s, cmds);
            t.status == Lost ==> t.rooms[t.pos].monster && Sword !in t.inventory
    decreases |cmds|
  {
    if cmds != [] {
      var next := Step(s, cmds[0]);
      if next.status == Exploring {
        RunLostMetMonster(next, cmds[1..]);
      }
    }
  }

  /** Every item kind exists at most once, carried or lying in a single
      room, and the key always exists: carried or lying in some room. */
  ghost predicate ItemsOnce(s: State) {
    && (forall it: Item :: multiset(s.inventory)[it] <= 1)
    && (forall p, q | p in s.rooms && q in s.rooms && s.rooms[p].item.Some? && s.rooms[p].item == s.rooms[q].item
          :: p == q)
    && (forall p | p in s.rooms && s.rooms[p].item.Some? :: s.rooms[p].item.value !in s.inventory)
    && (Key in s.inventory || exists p | p in s.rooms :: s.rooms[p].item == Some(Key))
  }

  /** A generated dungeon starts with one key lying in one room, at most one
      sword, and nothing carried. */
  lemma InitialItemsOnce(rows: nat, cols: nat, shuffled: seq<Pos>, d: Draw)
    requires FromRandom(rows, cols, shuffled, d)
    ensures ItemsOnce(Initial(Generate(rows, cols, shuffled, d)))
  {
    var g := Generate(rows, cols, shuffled, d);
    GeneratePlacesItems(rows, cols, shuffled, d);
    var key := KeyPos(rows, cols, shuffled, d);
    assert g.rooms[key].item == Some(Key);
  }

  /** Moving never creates, destroys or moves an item. */
  lemma MoveKeepsItems(s: State, dir: string)
    requires s.status == Exploring && ItemsOnce(s)
    ensures ItemsOnce(MoveStep(s, dir).0)
  {
    var (t, r) := MoveStep(s, dir);
    if r != Blocked {
      assert forall p | p in s.rooms :: t.rooms[p].item == s.rooms[p].item;
      if Key !in s.inventory {
        var k :| k in s.rooms && s.rooms[k].item == Some(Key);
        assert t.rooms[k].item == Some(Key);
      }
    }
  }

  /** Picking up moves the single item of its kind from the room into the
      inventory: it is then carried once and lies nowhere. */
  lemma PickUpKeepsItems(s: State)
    requires s.pos in s.rooms && s.status == Exploring && ItemsOnce(s)
    ensures ItemsOnce(PickUp(s).0)
  {
    var (t, r) := PickUp(s);
    if r.Collected? {
      var it := r.item;
      assert it !in s.inventory;
      forall i: Item ensures multiset(t.inventory)[i] <= 1 {
        assert multiset(t.inventory) == multiset(s.inventory) + multiset{it};
      }
      if Key !in s.inventory && it != Key {
        var k :| k in s.rooms && s.rooms[k].item == Some(Key);
        assert t.rooms[k].item == Some(Key);
      }
    }
  }

  /** A session keeps every item kind unique and the key in existence. */
  lemma {:induction false} RunItemsOnce(s: State, cmds: seq<Command>)
    requires Consistent(s) && ItemsOnce(s)
    ensures ItemsOnce(Run(s, cmds))
    decreases |cmds|
  {
    if cmds != [] && s.status == Exploring {
      match cmds[0] {
        case Go(dir) => MoveKeepsItems(s, dir);
        case PickUpItem => PickUpKeepsItems(s);
      }
      RunItemsOnce(Step(s, cmds[0]), cmds[1..]);
    }
  }

  /** From the start of any generated game, the inventory never holds two
      keys or two swords, and the key is always either carried or lying in
      a room. */
  lemma InventoryHoldsEachOnce(rows: nat, cols: nat, shuffled: seq<Pos>, d: Draw, g: Dungeon, cmds: seq<Command>)
    requires FromRandom(rows, cols, shuffled, d) && g == Generate(rows, cols, shuffled, d)
    ensures Consistent(Initial(g))
    ensures var t := Run(Initial(g), cmds);
            && multiset(t.inventory)[Key] <= 1
            && multiset(t.inventory)[Sword] <= 1
            && (Key in t.inventory || exists p | p in t.rooms :: t.rooms[p].item == Some(Key))
  {
    InitialConsistent(rows, cols, shuffled, d);
    InitialItemsOnce(rows, cols, shuffled, d);
    RunItemsOnce(Initial(g), cmds);
  }

  /** A defeated monster stays defeated: after winning a fight in a room,
      coming back into that room later in the session never kills the player. */
  lemma SafeReentry(s: State, dir: string, cmds: seq<Command>, back: string)
    requires Consistent(s) && s.status == Exploring
    requires MoveStep(s, dir).1.Entered? && MoveStep(s, dir).1.fought
    ensures var s1 := MoveStep(s, dir).0;
            var t := Run(s1, cmds);
            t.status == Exploring && Target(t.pos, back) == Some(s1.pos) ==> MoveStep(t, back).1 != Died
  {
    var s1 := MoveStep(s, dir).0;
    RunOnlyGrows(s1, cmds);
  }

  /** A 2 x 2 grid shuffled into comprehension order, with the Cell at (0, 0),
      the Exit at (1, 1), the sword at (1, 0), the monster at (0, 1), and the
      key drawn as the second of the remaining positions (0, 1) and (1, 0). */
  const ScenarioShuffle := [Pos(0, 0), Pos(0, 1), Pos(1, 0), Pos(1, 1)]
  const ScenarioDraw := Draw(0, 3, 2, 1, 1)

  lemma ScenarioIsRandom()
    ensures FromRandom(2, 2, ScenarioShuffle, ScenarioDraw)
  {
    assert Column(0, 2) == [Pos(0, 0), Pos(0, 1)];
    assert Column(1, 2) == [Pos(1, 0), Pos(1, 1)];
    assert Grid(1, 2) == [Pos(0, 0), Pos(0, 1)];
  }

  /** In the scenario the key is dropped into the sword room. */
  lemma ScenarioKeyOnSword()
    requires FromRandom(2, 2, ScenarioShuffle, ScenarioDraw)
    ensures KeyPos(2, 2, ScenarioShuffle, ScenarioDraw) == ScenarioShuffle[ScenarioDraw.sword]
  {
  }

  /** The scenario dungeon: the Cell at (0, 0), the monster south of it and
      the Exit at (1, 1). */
  lemma ScenarioDungeon()
    requires FromRandom(2, 2, ScenarioShuffle, ScenarioDraw)
    ensures var g := Generate(2, 2, ScenarioShuffle, ScenarioDraw);
            && g.cell == Pos(0, 0) && g.exit == Pos(1, 1)
            && Pos(0, 1) in g.rooms && g.rooms[Pos(0, 1)] == Room(Ordinary, None, true)
            && Pos(1, 1) in g.rooms && g.rooms[Pos(1, 1)] == Room(Exit, None, false)
  {
  }

  /** In the scenario the key has replaced the sword: the room east of the
      Cell holds only the key, and no sword is left anywhere. */
  lemma ScenarioNoSword()
    requires FromRandom(2, 2, ScenarioShuffle, ScenarioDraw)
    ensures var g := Generate(2, 2, ScenarioShuffle, ScenarioDraw);
            && Pos(1, 0) in g.rooms && g.rooms[Pos(1, 0)] == Room(Ordinary, Some(Key), false)
            && forall p | p in g.rooms :: g.rooms[p].item != Some(Sword)
  {
    ScenarioKeyOnSword();
    GeneratePlacesItems(2, 2, ScenarioShuffle, ScenarioDraw);
  }

  /** Going south from the scenario's Cell runs into the monster without a
      sword: the game is lost. */
  lemma ScenarioDies(s: State)
    requires Consistent(s) && s.pos == Pos(0, 0) && s.inventory == [] && s.status == Exploring
    requires Pos(0, 1) in s.rooms && s.rooms[Pos(0, 1)].monster
    ensures Run(s, [Go("south")]).status == Lost
  {
  }

  /** Going east from the scenario's Cell enters the key room and changes
      nothing but the position and the discovered set. */
  lemma ScenarioGoEast(s: State)
    requires Consistent(s) && s.pos == Pos(0, 0) && s.status == Exploring
    requires Pos(1, 0) in s.rooms && s.rooms[Pos(1, 0)] == Room(Ordinary, Some(Key), false)
    ensures var (s1, r) := MoveStep(s, "east");
            && r == Entered(false, NotAtExit)
            && s1 == s.(pos := Pos(1, 0), discovered := s.discovered + {Pos(1, 0)})
  {
  }

  /** Going south from the key room reaches the Exit: victory with the key,
      the locked door without it. */
  lemma ScenarioGoSouth(s: State)
    requires Consistent(s) && s.pos == Pos(1, 0) && s.status == Exploring
    requires Pos(1, 1) in s.rooms && s.rooms[Pos(1, 1)] == Room(Exit, None, false)
    ensures var (s1, r) := MoveStep(s, "south");
            && r == Entered(false, if Key in s.inventory then Escaped else LockedDoor)
            && s1.status == if Key in s.inventory then Won else Exploring
  {
  }

  /** Going east from the scenario's Cell, picking up the key and going
      south to the Exit escapes. */
  lemma ScenarioEscapes(s: State)
    requires Consistent(s) && s.pos == Pos(0, 0) && s.inventory == [] && s.status == Exploring
    requires Pos(1, 0) in s.rooms && s.rooms[Pos(1, 0)] == Room(Ordinary, Some(Key), false)
    requires Pos(1, 1) in s.rooms && s.rooms[Pos(1, 1)] == Room(Exit, None, false)
    ensures Run(s, [Go("east"), PickUpItem, Go("south")]).status == Won
  {
    ScenarioGoEast(s);
    var s1 := Step(s, Go("east"));
    var s2 := Step(s1, PickUpItem);
    assert s2.inventory == [Key];
    ScenarioGoSouth(s2);
    assert Run(s, [Go("east"), PickUpItem, Go("south")]) == Run(s1, [PickUpItem, Go("south")]);
    assert Run(s1, [PickUpItem, Go("south")]) == Run(s2, [Go("south")]);
  }

  /** Going east from the scenario's Cell and straight south to the Exit
      without picking up the key finds the door locked: the game goes on. */
  lemma ScenarioLockedDoor(s: State)
    requires Consistent(s) && s.pos == Pos(0, 0) && s.inventory == [] && s.status == Exploring
    requires Pos(1, 0) in s.rooms && s.rooms[Pos(1, 0)] == Room(Ordinary, Some(Key), false)
    requires Pos(1, 1) in s.rooms && s.rooms[Pos(1, 1)] == Room(Exit, None, false)
    ensures var s1 := MoveStep(s, "east").0;
            && s1.status == Exploring
            && MoveStep(s1, "south").1 == Entered(false, LockedDoor)
            && MoveStep(s1, "south").0.status == Exploring
    ensures Run(s, [Go("east"), Go("south")]).status == Exploring
  {
    ScenarioGoEast(s);
    var s1 := MoveStep(s, "east").0;
    ScenarioGoSouth(s1);
    assert Run(s, [Go("east"), Go("south")]) == Run(s1, [Go("south")]);
  }

  /** The scenario dungeon is won by fetching the key first, lost by
      walking into the monster, and goes on at a locked door when the
      Exit is reached without the key. */
  lemma ScenarioPlay()
    ensures FromRandom(2, 2, ScenarioShuffle, ScenarioDraw)
    ensures var s := Initial(Generate(2, 2, ScenarioShuffle, ScenarioDraw));
            && Consistent(s)
            && Run(s, [Go("south")]).status == Lost
            && Run(s, [Go("east"), PickUpItem, Go("south")]).status == Won
            && Run(s, [Go("east"), Go("south")]).status == Exploring
  {
    ScenarioIsRandom();
    ScenarioDungeon();
    ScenarioNoSword();
    InitialConsistent(2, 2, ScenarioShuffle, ScenarioDraw);
    var s := Initial(Generate(2, 2, ScenarioShuffle, ScenarioDraw));
    ScenarioDies(s);
    ScenarioEscapes(s);
    ScenarioLockedDoor(s);
  }

  /** The running game: the source's module-level variables as fields. */
  class Game {
    var rooms: map<Pos, Room>
    var currentPos: Pos
    var exitPos: Pos
    var inventory: seq<Item>
    var discovered: set<Pos>
    var status: Status

    function Snapshot(): (s: State)
      reads this
      ensures s.rooms == rooms && s.pos == currentPos && s.exitPos == exitPos
      ensures s.inventory == inventory && s.discovered == discovered && s.status == status
    {
      State(rooms, currentPos, exitPos, inventory, discovered, status)
    }

    /** The state is consistent and the rooms are exactly the cells of the grid. */
    ghost predicate Valid()
      reads this
    {
      && Consistent(Snapshot())
      && forall p :: p in rooms <==> InGrid(p, GridCols, GridRows)
    }

    /** The game state set up when the program starts. */
    constructor (shuffled: seq<Pos>, d: Draw)
      requires FromRandom(GridRows, GridCols, shuffled, d)
      ensures Valid()
      ensures Snapshot() == Initial(Generate(GridRows, GridCols, shuffled, d))
    {
      var g := GenerateDungeon(GridRows, GridCols, shuffled, d);
      rooms, currentPos, exitPos := g.rooms, g.cell, g.exit;
      inventory := [];
      discovered := {currentPos};
      status := Exploring;
      new;
      InitialConsistent(GridRows, GridCols, shuffled, d);
      GenerateCoversGrid(GridRows, GridCols, shuffled, d);
    }

    /** restart_game: a new dungeon and a fresh state; nothing carries over. */
    method Restart(shuffled: seq<Pos>, d: Draw)
      requires FromRandom(GridRows, GridCols, shuffled, d)
      modifies this
      ensures Valid()
      ensures Snapshot() == Initial(Generate(GridRows, GridCols, shuffled, d))
    {
      var g := GenerateDungeon(GridRows, GridCols, shuffled, d);
      rooms, currentPos, exitPos := g.rooms, g.cell, g.exit;
      inventory := [];
      discovered := {currentPos};
      status := Exploring;
      InitialConsistent(GridRows, GridCols, shuffled, d);
      GenerateCoversGrid(GridRows, GridCols, shuffled, d);
    }

    /** move: step into the neighbouring room if there is one, fight or die
        in a monster room, then check for victory. The movement buttons
        exist only until the game is won or lost. */
    method Move(dir: string) returns (r: MoveOutcome)
      requires Valid() && status == Exploring
      modifies this
      ensures Valid()
      ensures (Snapshot(), r) == MoveStep(old(Snapshot()), dir)
    {
      var target := Target(currentPos, dir);
      if target.Some? && target.value in rooms {
        currentPos := target.value;
        discovered := discovered + {currentPos};
        var fought := false;
        if rooms[currentPos].monster {
          if Sword in inventory {
            rooms := rooms[currentPos := rooms[currentPos].(monster := false)];
            fought := true;
          } else {
            status := Lost;
            return Died;
          }
        }
        var verdict := CheckWin(Snapshot());
        if verdict == Escaped {
          status := Won;
        }
        r := Entered(fought, verdict);
      } else {
        r := Blocked;
      }
    }

    /** get_item: move the item of the current room, if any, into the
        inventory; the button exists only until the game is won or lost. */
    method GetItem() returns (r: PickUpOutcome)
      requires Valid() && status == Exploring
      modifies this
      ensures Valid()
      ensures (Snapshot(), r) == PickUp(old(Snapshot()))
    {
      var room := rooms[currentPos];
      if room.item.Some? {
        var item := room.item.value;
        inventory := inventory + [item];
        rooms := rooms[currentPos := room.(item := None)];
        r := Collected(item);
      } else {
        r := NothingHere;
      }
    }
  }
}
