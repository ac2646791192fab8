/** The data model of the dungeon: grid positions, rooms and their contents,
    and the list of grid coordinates that generation starts from. */
module Rooms {

  datatype Option<T> = None | Some(value: T)

  /** A grid coordinate: x is the column, y the row (north is y - 1). */
  datatype Pos = Pos(x: int, y: int)

  /** The two items that can lie in a room and be carried. */
  datatype Item = Sword | Key

  /** The special status of a room. The source keeps it in the room's name:
      "Cell", "Exit", or a "Room N" display name, here `Ordinary`. */
  datatype Role = Ordinary | Cell | Exit

  /** One room record: its role, the item lying in it (at most one, the
      "item" entry) and whether the "monster" entry is present. */
  datatype Room = Room(role: Role, item: Option<Item>, monster: bool)

  /** The record every position starts with before special rooms are assigned. */
  const Blank := Room(Ordinary, None, false)

  predicate InGrid(p: Pos, cols: int, rows: int) {
    0 <= p.x < cols && 0 <= p.y < rows
  }

  ghost predicate Distinct<T>(s: seq<T>) {
    forall i, j :: 0 <= i < j < |s| ==> s[i] != s[j]
  }

  /** The positions of column x, from y = 0 to y = rows - 1. */
  function Column(x: int, rows: nat): (c: seq<Pos>)
    ensures |c| == rows
  {
    seq(rows, y => Pos(x, y))
  }

  /** The comprehension `[(x, y) for x in range(cols) for y in range(rows)]`:
      column by column, each column top to bottom. */
  function Grid(cols: nat, rows: nat): (g: seq<Pos>)
    ensures |g| == cols * rows
    ensures forall p :: p in g ==> InGrid(p, cols, rows)
  {
    if cols == 0 then [] else Grid(cols - 1, rows) + Column(cols - 1, rows)
  }

  /** The comprehension lists every cell of the grid exactly once and nothing else. */
  lemma {:induction false} GridCells(cols: nat, rows: nat)
    ensures |Grid(cols, rows)| == cols * rows
    ensures forall p :: p in Grid(cols, rows) <==> InGrid(p, cols, rows)
    ensures Distinct(Grid(cols, rows))
  {
    if cols > 0 {
      GridCells(cols - 1, rows);
      var prev, col := Grid(cols - 1, rows), Column(cols - 1, rows);
      assert Grid(cols, rows) == prev + col;
      assert (cols - 1) * rows + rows == cols * rows;
      forall p ensures p in prev + col <==> InGrid(p, cols, rows) {
        if InGrid(p, cols, rows) && p.x == cols - 1 {
          assert col[p.y] == p;
        }
      }
      forall i, j | 0 <= i < j < |prev + col| ensures (prev + col)[i] != (prev + col)[j] {
        if i < |prev| && |prev| <= j {
          assert (prev + col)[i] in prev;
          assert (prev + col)[j] == col[j - |prev|];
        }
      }
    }
  }

  lemma {:induction false} DistinctCountsOnce<T>(s: seq<T>, v: T)
    requires Distinct(s)
    ensures multiset(s)[v] <= 1
  {
    if s != [] {
      var last := |s| - 1;
      assert s == s[..last] + [s[last]];
      assert multiset(s) == multiset(s[..last]) + multiset{s[last]};
      DistinctCountsOnce(s[..last], v);
      if v == s[last] {
        assert v !in s[..last];
      }
    }
  }

  lemma RepeatCountsTwice<T>(s: seq<T>, i: nat, j: nat)
    requires i < j < |s|
    ensures s[i] == s[j] ==> multiset(s)[s[i]] >= 2
  {
    assert s == s[..j] + [s[j]] + s[j + 1..];
    assert multiset(s) == multiset(s[..j]) + multiset{s[j]} + multiset(s[j + 1..]);
    assert s[..j][i] == s[i];
  }

  /** A reordering of a list without repetitions has no repetitions. */
  lemma PermutationKeepsDistinct<T>(a: seq<T>, b: seq<T>)
    requires multiset(a) == multiset(b) && Distinct(b)
    ensures Distinct(a)
  {
    forall i, j | 0 <= i < j < |a| ensures a[i] != a[j] {
      RepeatCountsTwice(a, i, j);
      DistinctCountsOnce(b, a[i]);
    }
  }
}
