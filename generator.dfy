/** Dungeon generation: every grid cell becomes a room, four distinct rooms
    become the Cell, the Exit, the sword room and the monster room, and a key
    is dropped into any room other than the Cell and the Exit.

    The random module is replaced by its results, given as inputs: the
    shuffled position list, the four indices that `random.sample` picks
    from it, and the index that `random.choice` picks from the positions
    left once the Cell and the Exit are removed. */
module Generator {
  import opened Rooms

  /** The grid the game is played on: 4 rows of 3 columns. */
  const GridRows: nat := 4
  const GridCols: nat := 3

  /** The random draws of one generation, as indices into the shuffled list
      (`cell`, `exit`, `sword`, `monster`) and into the remaining positions (`key`). */
  datatype Draw = Draw(cell: nat, exit: nat, sword: nat, monster: nat, key: nat)

  /** What generation returns: the room map, the Cell position and the Exit position. */
  datatype Dungeon = Dungeon(rooms: map<Pos, Room>, cell: Pos, exit: Pos)

  /** `shuffled` is a reordering of the grid's positions, as `random.shuffle` leaves it. */
  ghost predicate IsShuffle(shuffled: seq<Pos>, rows: nat, cols: nat) {
    multiset(shuffled) == multiset(Grid(cols, rows))
  }

  /** Four distinct indices into a population of n, as `random.sample(positions, 4)`
      draws them, and a key index into the n - 2 positions left without Cell and Exit. */
  predicate ValidDraw(d: Draw, n: int) {
    && d.cell < n && d.exit < n && d.sword < n && d.monster < n
    && d.cell != d.exit && d.cell != d.sword && d.cell != d.monster
    && d.exit != d.sword && d.exit != d.monster && d.sword != d.monster
    && d.key < n - 2
  }

  /** The random inputs of one call of generation on a rows x cols grid are well formed. */
  ghost predicate FromRandom(rows: nat, cols: nat, shuffled: seq<Pos>, d: Draw) {
    IsShuffle(shuffled, rows, cols) && ValidDraw(d, |shuffled|)
  }

  /** A shuffled grid lists every grid cell exactly once. */
  lemma ShuffleFacts(rows: nat, cols: nat, shuffled: seq<Pos>)
    requires IsShuffle(shuffled, rows, cols)
    ensures |shuffled| == cols * rows
    ensures Distinct(shuffled)
    ensures forall p :: p in shuffled <==> InGrid(p, cols, rows)
  {
    GridCells(cols, rows);
    PermutationKeepsDistinct(shuffled, Grid(cols, rows));
    assert |multiset(shuffled)| == |multiset(Grid(cols, rows))|;
    forall p ensures p in shuffled <==> InGrid(p, cols, rows) {
      assert p in shuffled <==> p in multiset(shuffled);
      assert p in Grid(cols, rows) <==> p in multiset(Grid(cols, rows));
    }
  }

  /** The comprehension `[pos for pos in positions if pos not in (cell, exit)]`. */
  function Remaining(s: seq<Pos>, cell: Pos, exit: Pos): (r: seq<Pos>)
    ensures forall p :: p in r <==> p in s && p != cell && p != exit
  {
    if s == [] then []
    else
      assert s == [s[0]] + s[1..];
      (if s[0] == cell || s[0] == exit then [] else [s[0]]) + Remaining(s[1..], cell, exit)
  }

  /** Filtering a list without repetitions drops one entry for each of the
      two excluded positions that occurs in it. */
  lemma {:induction false} RemainingLength(s: seq<Pos>, cell: Pos, exit: Pos)
    requires Distinct(s)
    ensures |Remaining(s, cell, exit)|
            == |s| - (if cell in s then 1 else 0) - (if exit in s && exit != cell then 1 else 0)
  {
    if s != [] {
      assert s == [s[0]] + s[1..];
      assert Distinct(s[1..]);
      assert s[0] !in s[1..];
      RemainingLength(s[1..], cell, exit);
    }
  }

  /** The room that `random.choice` picks for the key: never the Cell, never the Exit. */
  function KeyPos(rows: nat, cols: nat, shuffled: seq<Pos>, d: Draw): (k: Pos)
    requires FromRandom(rows, cols, shuffled, d)
    ensures k in shuffled && k != shuffled[d.cell] && k != shuffled[d.exit]
  {
    ShuffleFacts(rows, cols, shuffled);
    RemainingLength(shuffled, shuffled[d.cell], shuffled[d.exit]);
    Remaining(shuffled, shuffled[d.cell], shuffled[d.exit])[d.key]
  }

  /** The dungeon that generation builds from the given random draws. The
      updates are made in the source's order, so the key, written last,
      replaces a sword placed in the same room. */
  function Generate(rows: nat, cols: nat, shuffled: seq<Pos>, d: Draw): (g: Dungeon)
    requires FromRandom(rows, cols, shuffled, d)
    ensures g.rooms.Keys == set p | p in shuffled
    ensures g.cell in g.rooms && g.exit in g.rooms && g.cell != g.exit
  {
    ShuffleFacts(rows, cols, shuffled);
    var cell := shuffled[d.cell];
    var exit := shuffled[d.exit];
    var sword := shuffled[d.sword];
    var monster := shuffled[d.monster];
    var key := KeyPos(rows, cols, shuffled, d);
    var r0 := map p | p in shuffled :: Blank;
    var r1 := r0[cell := r0[cell].(role := Cell)];
    var r2 := r1[exit := r1[exit].(role := Exit)];
    var r3 := r2[sword := r2[sword].(item := Some(Sword))];
    var r4 := r3[monster := r3[monster].(monster := true)];
    var r5 := r4[key := r4[key].(item := Some(Key))];
    Dungeon(r5, cell, exit)
  }

  /** There is exactly one room for every cell of the grid, and no other room. */
  lemma GenerateCoversGrid(rows: nat, cols: nat, shuffled: seq<Pos>, d: Draw)
    requires FromRandom(rows, cols, shuffled, d)
    ensures forall p :: p in Generate(rows, cols, shuffled, d).rooms <==> InGrid(p, cols, rows)
  {
    ShuffleFacts(rows, cols, shuffled);
  }

  /** The Cell, the Exit, the sword room and the monster room are four
      different rooms; exactly one room is the Cell, exactly one is the Exit,
      and exactly one holds the monster. */
  lemma GeneratePlacesRoles(rows: nat, cols: nat, shuffled: seq<Pos>, d: Draw)
    requires FromRandom(rows, cols, shuffled, d)
    ensures var g := Generate(rows, cols, shuffled, d);
            var sword, monster := shuffled[d.sword], shuffled[d.monster];
            && g.cell == shuffled[d.cell] && g.exit == shuffled[d.exit]
            && g.cell != g.exit && g.cell != sword && g.cell != monster
            && g.exit != sword && g.exit != monster && sword != monster
            && (forall p | p in g.rooms :: g.rooms[p].role == Cell <==> p == g.cell)
            && (forall p | p in g.rooms :: g.rooms[p].role == Exit <==> p == g.exit)
            && (forall p | p in g.rooms :: g.rooms[p].monster <==> p == monster)
  {
    ShuffleFacts(rows, cols, shuffled);
  }

  /** The key lies in exactly one room, which is neither the Cell nor the
      Exit; the sword lies in the sword room unless the key was dropped
      there, in which case no room holds a sword; every other room is empty. */
  lemma GeneratePlacesItems(rows: nat, cols: nat, shuffled: seq<Pos>, d: Draw)
    requires FromRandom(rows, cols, shuffled, d)
    ensures var g := Generate(rows, cols, shuffled, d);
            var key, sword := KeyPos(rows, cols, shuffled, d), shuffled[d.sword];
            && key in g.rooms && key != g.cell && key != g.exit
            && (forall p | p in g.rooms ::
                  g.rooms[p].item == if p == key then Some(Key)
                                     else if p == sword then Some(Sword)
                                     else None)
            && ((exists p | p in g.rooms :: g.rooms[p].item == Some(Sword)) <==> key != sword)
  {
    var g := Generate(rows, cols, shuffled, d);
    var key, sword := KeyPos(rows, cols, shuffled, d), shuffled[d.sword];
    if key != sword {
      assert g.rooms[sword].item == Some(Sword);
    }
  }

  /** Every room other than the Cell and the Exit can receive the key:
      the positions `random.choice` draws from are exactly those rooms. */
  lemma KeyCandidates(rows: nat, cols: nat, shuffled: seq<Pos>, d: Draw)
    requires FromRandom(rows, cols, shuffled, d)
    ensures var cell, exit := shuffled[d.cell], shuffled[d.exit];
            var rest := Remaining(shuffled, cell, exit);
            && |rest| == cols * rows - 2
            && forall p :: p in rest <==> InGrid(p, cols, rows) && p != cell && p != exit
  {
    ShuffleFacts(rows, cols, shuffled);
    RemainingLength(shuffled, shuffled[d.cell], shuffled[d.exit]);
  }

  /** generate_dungeon as the source runs it: a loop fills a fresh map with
      one record per shuffled position, then the special rooms are marked
      and the key is dropped last. */
  method GenerateDungeon(rows: nat, cols: nat, shuffled: seq<Pos>, d: Draw) returns (g: Dungeon)
    requires FromRandom(rows, cols, shuffled, d)
    ensures g == Generate(rows, cols, shuffled, d)
  {
    var rooms: map<Pos, Room> := map[];
    for i := 0 to |shuffled|
      invariant forall p :: p in rooms <==> p in shuffled[..i]
      invariant forall p | p in rooms :: rooms[p] == Blank
    {
      rooms := rooms[shuffled[i] := Blank];
    }
    assert shuffled[..|shuffled|] == shuffled;
    assert rooms == map p | p in shuffled :: Blank;

    var cell, exit := shuffled[d.cell], shuffled[d.exit];
    var sword, monster := shuffled[d.sword], shuffled[d.monster];
    rooms := rooms[cell := rooms[cell].(role := Cell)];
    rooms := rooms[exit := rooms[exit].(role := Exit)];
    rooms := rooms[sword := rooms[sword].(item := Some(Sword))];
    rooms := rooms[monster := rooms[monster].(monster := true)];

    ShuffleFacts(rows, cols, shuffled);
    RemainingLength(shuffled, cell, exit);
    var remaining := Remaining(shuffled, cell, exit);
    var key := remaining[d.key];
    rooms := rooms[key := rooms[key].(item := Some(Key))];
    g := Dungeon(rooms, cell, exit);
  }
}
