# Escape the Dungeon: a verified model of the game core

This project models the game logic of `Game.py`, a small grid dungeon game. The
game has two parts.

- **Dungeon generation** (`generate_dungeon`). Every `(x, y)` cell of a
  `cols × rows` grid becomes a room. Four distinct rooms are drawn: the Cell
  (start), the Exit, the sword room and the monster room. Then a key is
  dropped into any room except the Cell and the Exit. The key is written last,
  so when it lands in the sword room it replaces the sword.
- **The game state machine.** The state is the room map, the current
  position, the inventory list and the discovered set. `move` steps one cell
  north (y − 1), south (y + 1), east (x + 1) or west (x − 1). It is blocked
  off the grid or for an unknown direction. Entering a monster room defeats
  the monster if the player holds the sword and kills the player otherwise.
  `get_item` moves the room's item into the inventory. `check_win` at the Exit
  wins only with the key. `restart_game` and program start create a fresh
  state in the Cell.

The Dafny project has three modules, one per layer of the program:

- `Rooms` (`rooms.dfy`): the data model. `Pos`, `Item` (`Sword`, `Key`),
  `Role` (`Ordinary`, `Cell`, `Exit`) and the `Room` record. It also holds the
  grid comprehension `Grid` and facts about lists without repetitions.
- `Generator` (`generator.dfy`): generation. The random module is replaced by
  its results, given as inputs: the shuffled position list (any reordering of
  the grid), a `Draw` of four distinct sample indices, and a key index into
  the positions left without the Cell and the Exit. `Generate` is the
  specification function. `GenerateDungeon` is the source's procedure, with
  the loop that fills a fresh map, proved equal to it.
- `Game` (`game.dfy`): the state machine. `MoveStep`, `PickUp` and
  `CheckWin` are pure transition functions on a `State` value. The class
  `Game` holds the source's module-level variables as fields. Its methods
  `Move`, `GetItem` and `Restart`, and its constructor, are proved to follow
  those functions. `Run` applies a sequence of button presses and stops once
  the game is won or lost. Its lemmas state the properties of whole sessions,
  among them that each item exists at most once, carried or lying in one room.

Message boxes become result values: `MoveOutcome`, `PickUpOutcome` and
`Verdict`. The closing of the window becomes the terminal status `Won` or
`Lost`.

The key may land in the sword room, where it replaces the sword, or in the
monster room. Generation has no reachability check and no retry loop, and has
no option to leave out the sword or the key. The inventory is a list that
items are appended to.

## Model

| member | source | states |
|---|---|---|
| Rooms.Grid | Game.py:30 | the position list has `cols * rows` entries, each a cell `0 <= x < cols`, `0 <= y < rows` of the grid |
| Rooms.GridCells | Game.py:30 | the position comprehension lists every grid cell `0 <= x < cols`, `0 <= y < rows` exactly once, `cols * rows` in all, and nothing else |
| Generator.ShuffleFacts | Game.py:30-31 | a shuffled position list still holds every grid cell exactly once and has `cols * rows` entries |
| Generator.Remaining | Game.py:50 | the filtered list holds exactly the positions of the input other than the Cell and the Exit |
| Generator.RemainingLength | Game.py:50 | filtering a list without repetitions removes one entry for each of the Cell and the Exit present in it |
| Generator.KeyCandidates | Game.py:50-51 | the positions the key is drawn from are exactly the `cols * rows - 2` grid cells other than the Cell and the Exit |
| Generator.KeyPos | Game.py:49-51 | the key position is a grid position, never the Cell and never the Exit |
| Generator.Generate | Game.py:28-54 | the generated room map has exactly the shuffled positions as keys, and the Cell and the Exit are two different rooms of it |
| Generator.GenerateCoversGrid | Game.py:30-36 | generation produces a room for every grid coordinate and for no other position |
| Generator.GeneratePlacesRoles | Game.py:39-47 | the Cell, Exit, sword and monster positions are pairwise distinct; exactly one room has role Cell (the returned cell), exactly one has role Exit (the returned exit), and exactly one has the monster flag |
| Generator.GeneratePlacesItems | Game.py:46-52 | the key lies in exactly one room, which is neither Cell nor Exit; the sword lies in the sword room unless the key was written there, in which case no room holds a sword; all other rooms are empty |
| Generator.GenerateDungeon | Game.py:28-54 | the procedure (fill loop, then the special rooms, then the key) returns exactly the specified dungeon |
| Game.Initial | Game.py:59-61 | a fresh game keeps the generated rooms and Exit, stands in the Cell with an empty inventory and only the Cell discovered, and is exploring |
| Game.InitialConsistent | Game.py:59-61 | the initial state stands in the Cell with an empty inventory, only the Cell discovered, status Exploring, and satisfies the state invariant |
| Game.Target | Game.py:78-84 | the direction table yields a position exactly for "north", "south", "east" and "west", and that position is a grid neighbour |
| Game.CheckWin | Game.py:116-123 | check_win reports an outcome exactly when the current room is the Exit; victory only with a key in the inventory, a locked door only without one |
| Game.CheckWinAtExit | Game.py:116-123 | in a consistent state check_win reports victory exactly at the Exit with a key in the inventory, and a locked door exactly at the Exit without one |
| Game.MoveStep | Game.py:76-103 | a move happens only while exploring; an unknown direction or an off-grid target is Blocked and changes nothing; otherwise the position becomes that neighbour and is added to the discovered set, with the inventory unchanged; death exactly when the room has a monster and no sword is held, with status Lost and rooms unchanged; with the sword only that room's monster flag is cleared; then check_win's verdict sets Won and otherwise the game goes on exploring; the invariant is preserved |
| Game.PickUp | Game.py:105-114 | a pick-up happens only while exploring; an item is collected exactly when the current room holds one: it is appended to the inventory and removed from that room only; otherwise the result is NothingHere and nothing changes; the invariant is preserved |
| Game.PickUpTwice | Game.py:105-114 | a second pick-up in the same room yields NothingHere and changes nothing; the collected item occurs once more in the inventory than before |
| Game.Step | Game.py:201-212 | a button press (a move or a pick-up) keeps the state invariant |
| Game.Run | Game.py:201-212 | a session of button presses, which stops once the game is won or lost, keeps the state invariant |
| Game.TerminalIsFinal | Game.py:96-121 | the window is destroyed on a death (line 97) and on a victory (line 121), so once the game is won or lost no further button press changes the state, and only a restart leaves it |
| Game.RunOnlyGrows | Game.py:76-114 | across a session the discovered set only grows, the old inventory stays a prefix of the new one, the set of room positions and the Exit stay the same, and no monster flag is ever set again |
| Game.RunWonHoldsKey | Game.py:116-121 | a session that ends in victory ends on the Exit with the key in the inventory |
| Game.RunLostMetMonster | Game.py:91-98 | a session that ends in death ends in a monster room entered without the sword |
| Game.InitialItemsOnce | Game.py:46-61 | a freshly generated game carries nothing, has the key lying in exactly one room and at most one sword in the rooms |
| Game.MoveKeepsItems | Game.py:76-103 | moving keeps each item kind at most once, carried or lying in one room, and keeps the key in existence |
| Game.PickUpKeepsItems | Game.py:105-114 | picking up moves the only item of its kind from the room into the inventory, so it is then carried once and lies nowhere |
| Game.RunItemsOnce | Game.py:76-114 | a whole session keeps each item kind at most once across inventory and rooms, with the key always carried or lying somewhere |
| Game.InventoryHoldsEachOnce | Game.py:46-114 | from the start of any generated game, the inventory never holds the key twice or the sword twice, and the key is always carried or lying in a room |
| Game.SafeReentry | Game.py:91-94 | after a monster is defeated, moving back into its room later in the session never kills the player |
| Game.ScenarioIsRandom | Game.py:30-31 | a 2 × 2 grid in comprehension order with the draw (Cell 0, Exit 3, sword 2, monster 1, key 1) is a valid set of random inputs |
| Game.ScenarioKeyOnSword | Game.py:50-52 | in that scenario the key is drawn into the sword room |
| Game.ScenarioDungeon | Game.py:39-47 | in that scenario the Cell is at (0, 0), the Exit at (1, 1), and the monster room at (0, 1) |
| Game.ScenarioNoSword | Game.py:46-52 | in that scenario the sword room holds only the key and no room holds a sword |
| Game.ScenarioDies | Game.py:91-98 | walking from the Cell into the monster room without the sword loses the game |
| Game.ScenarioGoEast | Game.py:76-101 | going east from the Cell enters the key room and changes only the position and the discovered set |
| Game.ScenarioGoSouth | Game.py:116-123 | going south from the key room reaches the Exit: victory with the key, a locked door and a game that goes on without it |
| Game.ScenarioEscapes | Game.py:76-121 | going east, picking up the key and going south to the Exit wins the game |
| Game.ScenarioLockedDoor | Game.py:116-123 | going east and then south to the Exit without the key reports the locked door and the game goes on exploring |
| Game.ScenarioPlay | Game.py:59-121 | the scenario dungeon is lost by walking into the monster, won by fetching the key first, and still being explored after reaching the Exit without the key |
| Game.Game.constructor | Game.py:59-61 | the start-up state is the initial state of the generated dungeon and satisfies the invariant, with rooms exactly the 4 × 3 grid |
| Game.Game.Restart | Game.py:125-130 | a new dungeon is generated and the state is reset to its initial state; nothing carries over |
| Game.Game.Move | Game.py:76-103 | the move button acts only while the game is exploring; the fields after the move and the reported outcome are those of MoveStep on the fields before |
| Game.Game.GetItem | Game.py:105-114 | the pick-up button acts only while the game is exploring; the fields after the pick-up and the reported outcome are those of PickUp on the fields before |

## Left out

- All presentation is left out, because it holds no game logic: `update_status` text output, `draw_map` (pixel arithmetic, colours, emoji fallback), the window, labels, buttons and `mainloop` (Game.py:66-74, 135-225). The buttons appear only as the `Command` sequence that `Run` applies.
- Message boxes (Game.py:93, 96, 103, 110, 114, 120, 123) are replaced by the result values `MoveOutcome`, `PickUpOutcome` and `Verdict`. `window.destroy()` (Game.py:97, 121) is replaced by the status `Won` or `Lost`. Because the buttons vanish with the window, `MoveStep`, `PickUp`, `Game.Move` and `Game.GetItem` require status Exploring, and `Run` accepts no command after a win or a loss.
- The `random` module (Game.py:31, 39, 51) is not modelled. Its results are inputs: any reordering of the grid, four distinct sample indices, and a key index. Uniformity of the draws is not modelled.
- The "Room N" display names (Game.py:36) are not modelled. A room's name is reduced to its role (Ordinary, Cell or Exit). check_win's test `name == "Exit"` is the test `role == Exit`, because no "Room N" name equals "Exit".
- The per-room `"discovered": True` flag of the Cell (Game.py:43) is not modelled: nothing reads it. The global discovered set is modelled.
- Generator.Generate: for a grid of fewer than four cells, `random.sample` raises `ValueError`. The model has no such error path: no valid `Draw` exists then, so generation cannot be called.
- Game.Game.constructor: the running game always uses the default 4 × 3 grid, as the source does. Generation itself is modelled for any `rows` and `cols`.
- Game.Game.Restart: the source's restart button disappears with the window after a win or a loss. The model lets `Restart` run in any status and sets the status back to Exploring.
