/**
 * The starting grids of `initialize_grid` in `lab_04/game_of_life_logic.py`:
 * fixed shapes placed relative to (height // 2, width // 2), a random grid,
 * and a reader for a subset of the run-length encoded (RLE) pattern notation
 * of Life: digits accumulate a run count, `b` skips that many cells, `o`
 * sets that many cells alive, `$` starts the next row and `!` ends the
 * pattern.  Any other character is skipped and keeps the pending count; a
 * count before `$` is dropped, so `4$` advances a single row.
 *
 * Cells are addressed (row, column); the shapes are lists of offsets from
 * (start_y, start_x), in the order the source sets them.
 */
module Lab04Patterns {
  import opened Grids
  import opened Lab04Life

  /** Every cell is inside the height x width grid. */
  predicate InGrid(cells: seq<(int, int)>, h: nat, w: nat)
  {
    forall p :: p in cells ==> 0 <= p.0 < h && 0 <= p.1 < w
  }

  /**
   * `grid` with every listed cell set to 1, in order: a run of
   * `grid[r][c] = 1` assignments.  Cells off the grid are passed over (the
   * callers only list cells on it).
   */
  function Place(grid: Board, h: nat, w: nat, cells: seq<(int, int)>): (g: Board)
    requires IsPlane(grid, h, w)
    ensures IsPlane(g, h, w)
    ensures forall r, c :: 0 <= r < h && 0 <= c < w ==> g[r][c] == if (r, c) in cells then 1 else grid[r][c]
  {
    if |cells| == 0 then grid
    else
      var last := cells[|cells| - 1];
      var g := Place(grid, h, w, cells[..|cells| - 1]);
      if 0 <= last.0 < h && 0 <= last.1 < w then g[last.0 := g[last.0][last.1 := 1]] else g
  }

  /** The offsets moved to the anchor (top, left). */
  function Shift(offsets: seq<(int, int)>, top: int, left: int): (cells: seq<(int, int)>)
    ensures |cells| == |offsets|
    ensures forall k :: 0 <= k < |offsets| ==> cells[k] == (top + offsets[k].0, left + offsets[k].1)
  {
    seq(|offsets|, k requires 0 <= k < |offsets| => (top + offsets[k].0, left + offsets[k].1))
  }

  /** A cell is among the shifted offsets exactly when its offset from the anchor is listed. */
  lemma ShiftMembership(offsets: seq<(int, int)>, top: int, left: int, r: int, c: int)
    ensures (r, c) in Shift(offsets, top, left) <==> (r - top, c - left) in offsets
  {
    var cells := Shift(offsets, top, left);
    if (r, c) in cells {
      var k :| 0 <= k < |cells| && cells[k] == (r, c);
      assert offsets[k] == (r - top, c - left);
    }
    if (r - top, c - left) in offsets {
      var k :| 0 <= k < |offsets| && offsets[k] == (r - top, c - left);
      assert cells[k] == (r, c);
    }
  }

  const Glider: seq<(int, int)> := [(2, 2), (2, 3), (1, 3), (1, 4), (3, 4)]
  const Oscillator: seq<(int, int)> := [(1, 2), (2, 2), (3, 2)]
  const Static: seq<(int, int)> := [(2, 1), (1, 2), (1, 3), (2, 4), (3, 2), (3, 3)]
  const Acorn: seq<(int, int)> := [(1, 2), (3, 1), (3, 2), (2, 4), (3, 5), (3, 6), (3, 7)]
  const Cap: seq<(int, int)> := [(1, 2), (1, 3), (2, 1), (3, 1), (3, 2), (3, 3), (3, 4), (2, 4)]
  const Squares: seq<(int, int)> := [(0, 0), (0, 1), (0, 2), (1, -1), (1, 3), (2, 3), (3, 0), (3, 2)]

  /** The 11 x 11 block of "snake_pit". */
  const SnakePit: seq<seq<int>> := [
      [0, 0, 0, 0, 0, 1, 1, 1, 1, 0, 0],
      [0, 1, 1, 0, 1, 0, 0, 0, 0, 1, 0],
      [1, 0, 0, 0, 1, 0, 0, 0, 0, 1, 0],
      [1, 0, 0, 0, 0, 1, 1, 0, 0, 0, 0],
      [1, 0, 0, 1, 0, 0, 0, 0, 1, 1, 0],
      [1, 0, 0, 1, 0, 0, 0, 1, 0, 0, 1],
      [0, 1, 1, 0, 0, 0, 0, 1, 0, 0, 1],
      [0, 0, 0, 0, 1, 1, 0, 0, 0, 0, 1],
      [0, 1, 0, 0, 0, 0, 1, 0, 0, 0, 1],
      [0, 1, 0, 0, 0, 0, 1, 0, 1, 1, 0],
      [0, 0, 1, 1, 1, 1, 0, 0, 0, 0, 0]
    ]

  /** The 3 x 3 block of "???". */
  const Mystery: seq<seq<int>> := [[0, 1, 0], [1, 1, 0], [0, 1, 1]]

  /** Both copied blocks are square 0/1 grids. */
  lemma StampedBlocks()
    ensures IsBoard(SnakePit, 11, 11) && IsBoard(Mystery, 3, 3)
  {
  }

  const Spaceship: string :=
    "8bo$7bobo$6bo3bo$7b3o$$5b2o3b2o$2b2o3bobo3b2o$2b2o3bobo3b2o$2o5bobo5b2"
    + "o$4b2obobob2o$o6bobo6bo$3b2o2bobo2b2o$bo2bobo3bobo2bo$b2o11b2o$b2o11b2"
    + "o$4bo7bo$4b3o3b3o$6bo3bo$3b2obo3bob2o$5b2o3b2o$5bobobobo$$5bo2bo2bo$6b"
    + "2ob2o$5b2o3b2o$$4bo2b3o2bo$3b11o$3b2obo3bob2o!"

  const BiggerOscillator: string :=
    "20bo14bo$19b2o2b3o4b3o2b2o$16bo4bobo2bo2bo2bobo4bo$13b4o3b2o4bo2bo4b2o"
    + "                        3b4o$12bo12bo4bo12bo$13b4o2b2o14b2o2b4o$14b2o4"
    + "bobo10bobo4b2o$21bo12bo$                        22b2o8b2o$22bobo6bobo$"
    + "22bobo2b2o2bobo$23bo3b2o3bo$4bo46bo$3bobo44bobo$                      "
    + "  3bob2o42b2obo$3bob2o42b2obo$2b2obo44bob2o$$$bo3bo44bo3bo$2obob2o42b2"
    + "ob                        ob2o$2b2o3bo40bo3b2o$6bob3o34b3obo$b2o5bo2bo"
    + "32bo2bo5b2o$bo7b2o34b2o7bo                        $bo2bo46bo2bo$2b2o48"
    + "b2o$10b2o32b2o$10b2o32b2o$2b2o48b2o$bo2bo46bo2bo$b                    "
    + "    o7b2o34b2o7bo$b2o5bo2bo32bo2bo5b2o$6bob3o34b3obo$2b2o3bo40bo3b2o$2"
    + "obob                        2o42b2obob2o$bo3bo44bo3bo$$$2b2obo44bob2o$"
    + "3bob2o42b2obo$3bob2o42b2obo$                        3bobo44bobo$4bo46b"
    + "o$23bo3b2o3bo$22bobo2b2o2bobo$22bobo6bobo$22b2o8b2o$                  "
    + "      21bo12bo$14b2o4bobo10bobo4b2o$13b4o2b2o14b2o2b4o$12bo12bo4bo12bo"
    + "$13b4o                        3b2o4bo2bo4b2o3b4o$16bo4bobo2bo2bo2bobo4"
    + "bo$19b2o2b3o4b3o2b2o$20bo14bo!"

  const FourBoats: string :=
    "3bo4b$2bobo3b$bob2o3b$obo2b2ob$b2o2bobo$3b2obob$3bobo2b$4bo!"

  const Wave: string :=
    "4bo17bo17bo$3bobo15bobo15bobo$3bobo15bobo15bobo$3bobo15bobo15bobo4$3bo"
    + "                        bo15bobo15bobo2$2bo3bo13bo3bo13bo3bo$3b3o15b3o"
    + "15b3o4$b2o3b2o11b2o3b2o                        11b2o3b2o$bo5bo11bo5bo1"
    + "1bo5bo$2b5o13b5o13b5o$2bobobo13bobobo13bobobo$b                       "
    + " o5bo11bo5bo11bo5bo$bob3obo11bob3obo11bob3obo$bo5bo11bo5bo11bo5bo$4bo "
    + "                       17bo17bo$4bo17bo17bo$4bo17bo17bo4$o7bo9bo7bo9bo"
    + "7bo$o7bo9bo7bo9bo7bo!"

  const GliderGun: string :=
    "24bo11b$22bobo11b$12b2o6b2o12b2o$11bo3bo4b2o12b2o$2o8bo5bo3b2o14b$2o8b"
    + "                        o3bob2o4bobo11b$10bo5bo7bo11b$11bo3bo20b$12b2o"
    + "!!"

  const Replicator: string :=
    "2b3o$bo2bo$o3bo$o2bob$3o!"

  /**
   * What a state name asks for: a fixed shape given by its offsets from the
   * centre, the random grid, a block copied cell by cell, an RLE text, or
   * nothing (an unknown name leaves the grid dead).
   */
  datatype Start = Shape(offsets: seq<(int, int)>) | Random | Stamped(block: seq<seq<int>>) | Encoded(text: string) | Blank

  /** The branch of `initialize_grid` that `state` selects. */
  function StartOf(state: string): (start: Start)
    ensures start.Random? <==> state == "random"
    ensures start.Stamped? ==> IsBoard(start.block, |start.block|, |start.block|)
  {
    if state == "glider" then Shape(Glider)
    else if state == "oscillator" then Shape(Oscillator)
    else if state == "random" then Random
    else if state == "static" then Shape(Static)
    else if state == "acorn" then Shape(Acorn)
    else if state == "cap" then Shape(Cap)
    else if state == "snake_pit" then StampedBlocks(); Stamped(SnakePit)
    else if state == "???" then StampedBlocks(); Stamped(Mystery)
    else if state == "squares" then Shape(Squares)
    else EncodedStart(state)
  }

  /** The remaining branches of `initialize_grid`: the patterns given as RLE text. */
  function EncodedStart(state: string): (start: Start)
    ensures start.Encoded? || start.Blank?
  {
    if state == "spaceship" then Encoded(Spaceship)
    else if state == "bigger_oscillator" then Encoded(BiggerOscillator)
    else if state == "4_boats" then Encoded(FourBoats)
    else if state == "wave" then Encoded(Wave)
    else if state == "glider_gun" then Encoded(GliderGun)
    else if state == "replicator" then Encoded(Replicator)
    else Blank
  }

  // ---------------------------------------------------------------------
  // The RLE reader
  // ---------------------------------------------------------------------

  predicate IsDigit(ch: char)
  {
    '0' <= ch <= '9'
  }

  /** `int(count)` for a string of decimal digits. */
  function DigitsValue(s: string): nat
  {
    if |s| == 0 then 0
    else
      var ch := s[|s| - 1];
      DigitsValue(s[..|s| - 1]) * 10 + (if IsDigit(ch) then ch as int - '0' as int else 0)
  }

  /** `int(count) if count else 1`: the pending run length. */
  function RunLength(count: string): nat
  {
    if count == "" then 1 else DigitsValue(count)
  }

  /** The reader's variables: the cursor (x, y), the pending count, and whether `!` was met. */
  datatype Reader = Reader(x: int, y: int, count: string, stopped: bool)

  /** The reader after one more character. */
  function Feed(r: Reader, ch: char, startX: int): Reader
  {
    if r.stopped then r
    else if IsDigit(ch) then r.(count := r.count + [ch])
    else if ch == 'b' || ch == 'o' then r.(x := r.x + RunLength(r.count), count := "")
    else if ch == '$' then r.(x := startX, y := r.y + 1, count := "")
    else if ch == '!' then r.(stopped := true)
    else r
  }

  /** The cells one more character sets alive: the run of an `o`, left to right. */
  function Marks(r: Reader, ch: char): (cells: seq<(int, int)>)
    ensures forall p :: p in cells ==> p.0 == r.y && r.x <= p.1
  {
    if !r.stopped && ch == 'o' then seq(RunLength(r.count), t requires 0 <= t => (r.y, r.x + t)) else []
  }

  /** The reader after the whole text. */
  function ReadState(s: string, startX: int, startY: int): Reader
  {
    if |s| == 0 then Reader(startX, startY, "", false)
    else Feed(ReadState(s[..|s| - 1], startX, startY), s[|s| - 1], startX)
  }

  /** The cells the text sets alive, in order. */
  function Live(s: string, startX: int, startY: int): seq<(int, int)>
  {
    if |s| == 0 then []
    else
      var n := |s| - 1;
      Live(s[..n], startX, startY) + Marks(ReadState(s[..n], startX, startY), s[n])
  }

  /** The text up to its first `!`. */
  function BeforeStop(s: string): string
  {
    if |s| == 0 then ""
    else
      var n := |s| - 1;
      if '!' in s[..n] then BeforeStop(s[..n]) else if s[n] == '!' then s[..n] else s
  }

  /** The number of `$` in a text. */
  function Newlines(s: string): nat
  {
    if |s| == 0 then 0 else Newlines(s[..|s| - 1]) + (if s[|s| - 1] == '$' then 1 else 0)
  }

  /**
   * The reader stops exactly when it has met a `!`; it never moves left of
   * startX or above startY; and it has advanced one row per `$` before the
   * first `!`, whatever count precedes it.
   */
  lemma {:induction false} ReaderCursor(s: string, startX: int, startY: int)
    ensures var r := ReadState(s, startX, startY);
      (r.stopped <==> '!' in s) && r.x >= startX && r.y == startY + Newlines(BeforeStop(s))
  {
    if |s| > 0 {
      var n := |s| - 1;
      ReaderCursor(s[..n], startX, startY);
      assert s == s[..n] + [s[n]];
      if '!' !in s[..n] && s[n] != '!' {
        assert BeforeStop(s) == s;
        assert s[..n] == BeforeStop(s)[..n];
      } else if '!' !in s[..n] {
        assert BeforeStop(s[..n]) == s[..n] by { BeforeStopWithoutStop(s[..n]); }
      }
    }
  }

  /** A text without `!` is read to its end. */
  lemma {:induction false} BeforeStopWithoutStop(s: string)
    requires '!' !in s
    ensures BeforeStop(s) == s
  {
    if |s| > 0 {
      BeforeStopWithoutStop(s[..|s| - 1]);
    }
  }

  /** Every cell the reader sets alive is right of startX and below startY. */
  lemma {:induction false} LiveCellsRightOfStart(s: string, startX: int, startY: int)
    ensures forall p :: p in Live(s, startX, startY) ==> p.0 >= startY && p.1 >= startX
  {
    if |s| > 0 {
      var n := |s| - 1;
      LiveCellsRightOfStart(s[..n], startX, startY);
      ReaderCursor(s[..n], startX, startY);
      ReaderRowsFromStart(s[..n], startX, startY);
    }
  }

  /** The row of the reader never goes above startY. */
  lemma {:induction false} ReaderRowsFromStart(s: string, startX: int, startY: int)
    ensures ReadState(s, startX, startY).y >= startY
  {
    if |s| > 0 {
      ReaderRowsFromStart(s[..|s| - 1], startX, startY);
    }
  }

  /** After a `!` the reader is stopped and nothing further is set alive. */
  lemma {:induction false} StoppedReadsNothing(s: string, k: nat, startX: int, startY: int)
    requires k <= |s| && ReadState(s[..k], startX, startY).stopped
    ensures ReadState(s, startX, startY) == ReadState(s[..k], startX, startY)
    ensures Live(s, startX, startY) == Live(s[..k], startX, startY)
  {
    if |s| > k {
      var n := |s| - 1;
      assert s[..n][..k] == s[..k];
      StoppedReadsNothing(s[..n], k, startX, startY);
    } else {
      assert s[..k] == s;
    }
  }

  /**
   * The reading loop of `initialize_grid`: the characters one by one, with
   * the cursor (x, y) and the pending count, until `!` or the end of the
   * text; `o` sets its run of cells alive one after the other.
   */
  method ReadPattern(grid: Board, h: nat, w: nat, pattern: string, startX: int, startY: int) returns (g: Board)
    requires IsPlane(grid, h, w) && InGrid(Live(pattern, startX, startY), h, w)
    ensures g == Place(grid, h, w, Live(pattern, startX, startY))
  {
    g := grid;
    var x, y := startX, startY;
    var count := "";
    for n := 0 to |pattern|
      invariant ReadState(pattern[..n], startX, startY) == Reader(x, y, count, false)
      invariant g == Place(grid, h, w, Live(pattern[..n], startX, startY))
    {
      var ch := pattern[n];
      ReadStep(pattern, n, startX, startY);
      if ch != 'o' {
        NothingMarked(pattern, n, startX, startY);
      }
      if IsDigit(ch) {
        count := count + [ch];
      } else if ch == 'b' {
        x := x + RunLength(count);
        count := "";
      } else if ch == 'o' {
        LivePrefix(pattern, n + 1, startX, startY, h, w);
        g, x := MarkRun(grid, h, w, g, x, y, count, Live(pattern[..n], startX, startY));
        count := "";
      } else if ch == '$' {
        y := y + 1;
        x := startX;
        count := "";
      } else if ch == '!' {
        StoppedReadsNothing(pattern, n + 1, startX, startY);
        return;
      }
    }
    assert pattern[..|pattern|] == pattern;
  }

  /**
   * The inner loop of an `o`: `grid[y, x] = 1` then one step right, as many
   * times as the count says.
   */
  method MarkRun(grid: Board, h: nat, w: nat, g: Board, x: int, y: int, count: string, ghost before: seq<(int, int)>)
    returns (g': Board, x': int)
    requires IsPlane(grid, h, w) && g == Place(grid, h, w, before)
    requires InGrid(before + Marks(Reader(x, y, count, false), 'o'), h, w)
    ensures g' == Place(grid, h, w, before + Marks(Reader(x, y, count, false), 'o'))
    ensures x' == x + RunLength(count)
  {
    ghost var run := Marks(Reader(x, y, count, false), 'o');
    g', x' := g, x;
    var length := RunLength(count);
    assert before + run[..0] == before;
    for t := 0 to length
      invariant x' == x + t && |run| == length
      invariant g' == Place(grid, h, w, before + run[..t])
    {
      MarkStep(grid, h, w, before, x, y, count, run, t, g');
      g' := g'[y := g'[y][x' := 1]];
      x' := x' + 1;
    }
    assert run[..length] == run;
  }

  /** Marking cell t of a run is placing one more cell. */
  lemma MarkStep(grid: Board, h: nat, w: nat, before: seq<(int, int)>, x: int, y: int, count: string, run: seq<(int, int)>, t: nat, g: Board)
    requires IsPlane(grid, h, w) && run == Marks(Reader(x, y, count, false), 'o') && t < RunLength(count)
    requires InGrid(before + run, h, w)
    requires g == Place(grid, h, w, before + run[..t])
    ensures 0 <= y < h && 0 <= x + t < w
    ensures g[y := g[y][x + t := 1]] == Place(grid, h, w, before + run[..t + 1])
  {
    RunCell(Reader(x, y, count, false), t);
    assert run[t] == (y, x + t);
    InGridAt(before + run, |before| + t, h, w);
    assert (before + run)[|before| + t] == run[t];
    ConcatStep(before, run, t);
    PlaceSnoc(grid, h, w, before + run[..t], (y, x + t));
  }

  /** One more character: the reader takes one step and the run it marks is appended. */
  lemma ReadStep(s: string, n: nat, startX: int, startY: int)
    requires n < |s|
    ensures ReadState(s[..n + 1], startX, startY) == Feed(ReadState(s[..n], startX, startY), s[n], startX)
    ensures Live(s[..n + 1], startX, startY) == Live(s[..n], startX, startY) + Marks(ReadState(s[..n], startX, startY), s[n])
  {
    assert s[..n + 1][..n] == s[..n];
  }

  /** A character other than `o` sets nothing alive. */
  lemma NothingMarked(s: string, n: nat, startX: int, startY: int)
    requires n < |s| && s[n] != 'o'
    ensures Live(s[..n + 1], startX, startY) == Live(s[..n], startX, startY)
  {
    ReadStep(s, n, startX, startY);
    assert Marks(ReadState(s[..n], startX, startY), s[n]) == [];
  }

  /** The t-th cell of an `o` run is t cells right of the cursor. */
  lemma RunCell(r: Reader, t: nat)
    requires !r.stopped && t < RunLength(r.count)
    ensures |Marks(r, 'o')| == RunLength(r.count) && Marks(r, 'o')[t] == (r.y, r.x + t)
  {
  }

  lemma ConcatStep<T>(a: seq<T>, b: seq<T>, t: nat)
    requires t < |b|
    ensures a + b[..t + 1] == (a + b[..t]) + [b[t]]
    ensures (a + b)[..|a| + t + 1] == a + b[..t + 1]
  {
  }

  /** A listed cell of a grid list is on the grid. */
  lemma InGridAt(cells: seq<(int, int)>, i: nat, h: nat, w: nat)
    requires i < |cells| && InGrid(cells, h, w)
    ensures 0 <= cells[i].0 < h && 0 <= cells[i].1 < w
  {
    assert cells[i] in cells;
  }

  /** Placing one more cell of the grid is one more assignment. */
  lemma PlaceSnoc(grid: Board, h: nat, w: nat, cells: seq<(int, int)>, p: (int, int))
    requires IsPlane(grid, h, w) && 0 <= p.0 < h && 0 <= p.1 < w
    ensures var g := Place(grid, h, w, cells);
      Place(grid, h, w, cells + [p]) == g[p.0 := g[p.0][p.1 := 1]]
  {
    assert (cells + [p])[..|cells|] == cells;
  }

  /** The cells a prefix sets alive are among those of the whole text. */
  lemma {:induction false} LivePrefix(s: string, k: nat, startX: int, startY: int, h: nat, w: nat)
    requires k <= |s| && InGrid(Live(s, startX, startY), h, w)
    ensures InGrid(Live(s[..k], startX, startY), h, w)
  {
    if |s| > k {
      var n := |s| - 1;
      assert s[..n][..k] == s[..k];
      LivePrefix(s[..n], k, startX, startY, h, w);
    } else {
      assert s[..k] == s;
    }
  }

  // ---------------------------------------------------------------------
  // initialize_grid
  // ---------------------------------------------------------------------

  /** `np.zeros((height, width), dtype=int)`: every cell dead. */
  function DeadBoard(h: nat, w: nat): (g: Board)
    ensures IsBoard(g, h, w)
    ensures forall r, c :: 0 <= r < h && 0 <= c < w ==> g[r][c] == 0
  {
    seq(h, _ => seq(w, _ => 0))
  }

  /** The n x n `block` copied over `grid` with its top-left cell at (top, left). */
  function Stamp(grid: Board, h: nat, w: nat, block: seq<seq<int>>, n: nat, top: int, left: int): (g: Board)
    requires IsPlane(grid, h, w) && IsPlane(block, n, n)
    ensures IsPlane(g, h, w)
  {
    seq(h, r requires 0 <= r < h => seq(w, c requires 0 <= c < w =>
      if top <= r < top + n && left <= c < left + n then block[r - top][c - left] else grid[r][c]))
  }

  /**
   * Every start needs its cells on the grid (a larger index raises): the
   * offsets of a fixed shape, the whole block, and the cells an RLE text
   * sets alive, all anchored at (height // 2, width // 2).
   */
  predicate Fits(h: nat, w: nat, start: Start)
  {
    match start
    case Shape(offsets) => InGrid(Shift(offsets, h / 2, w / 2), h, w)
    case Stamped(block) => h / 2 + |block| <= h && w / 2 + |block| <= w
    case Encoded(text) => InGrid(Live(text, w / 2, h / 2), h, w)
    case _ => true
  }

  /** A block is a square grid of dead and live cells. */
  ghost predicate WellShaped(start: Start)
  {
    start.Stamped? ==> IsBoard(start.block, |start.block|, |start.block|)
  }

  /**
   * The grid `initialize_grid` returns: a fixed shape or an RLE text set
   * alive around the centre, a block copied there, the random draws over the
   * whole grid, or all dead.
   */
  function Initial(h: nat, w: nat, start: Start, randomArea: Board): (g: Board)
    requires IsBoard(randomArea, h, w) && WellShaped(start)
    ensures IsPlane(g, h, w)
  {
    var startX, startY := w / 2, h / 2;
    match start
    case Shape(offsets) => Place(DeadBoard(h, w), h, w, Shift(offsets, startY, startX))
    case Random => randomArea
    case Stamped(block) => Stamp(DeadBoard(h, w), h, w, block, |block|, startY, startX)
    case Encoded(text) => Place(DeadBoard(h, w), h, w, Live(text, startX, startY))
    case Blank => DeadBoard(h, w)
  }

  /** Whatever the start, the initial grid holds only dead and live cells. */
  lemma InitialIsBoard(h: nat, w: nat, start: Start, randomArea: Board)
    requires IsBoard(randomArea, h, w) && WellShaped(start)
    ensures IsBoard(Initial(h, w, start, randomArea), h, w)
  {
  }

  /** A fixed shape sets alive exactly its offsets from the centre; every other cell is dead. */
  lemma ShapeCells(h: nat, w: nat, offsets: seq<(int, int)>, randomArea: Board, r: nat, c: nat)
    requires IsBoard(randomArea, h, w) && r < h && c < w
    ensures Initial(h, w, Shape(offsets), randomArea)[r][c] == if (r - h / 2, c - w / 2) in offsets then 1 else 0
  {
    var top, left := h / 2, w / 2;
    var cells := Shift(offsets, top, left);
    var g := Place(DeadBoard(h, w), h, w, cells);
    ShiftMembership(offsets, top, left, r, c);
    assert g[r][c] == if (r, c) in cells then 1 else 0;
  }

  /** "oscillator" is a vertical bar of three cells two columns right of the centre. */
  lemma OscillatorIsBar(h: nat, w: nat, randomArea: Board, r: nat, c: nat)
    requires IsBoard(randomArea, h, w) && r < h && c < w
    ensures Initial(h, w, StartOf("oscillator"), randomArea)[r][c] == if c == w / 2 + 2 && h / 2 + 1 <= r <= h / 2 + 3 then 1 else 0
  {
    assert StartOf("oscillator") == Shape(Oscillator);
    BarCells(h, w, randomArea, r, c);
  }

  /** The offsets of `Oscillator` place a vertical bar of three cells two columns right of the centre. */
  lemma BarCells(h: nat, w: nat, randomArea: Board, r: nat, c: nat)
    requires IsBoard(randomArea, h, w) && r < h && c < w
    ensures Initial(h, w, Shape(Oscillator), randomArea)[r][c] == if c == w / 2 + 2 && h / 2 + 1 <= r <= h / 2 + 3 then 1 else 0
  {
    ShapeCells(h, w, Oscillator, randomArea, r, c);
  }

  /** A block is copied cell for cell; the rest of the grid stays dead. */
  lemma BlockCells(h: nat, w: nat, block: seq<seq<int>>, randomArea: Board, r: nat, c: nat)
    requires IsBoard(randomArea, h, w) && IsBoard(block, |block|, |block|) && r < h && c < w
    ensures Initial(h, w, Stamped(block), randomArea)[r][c] ==
      if h / 2 <= r < h / 2 + |block| && w / 2 <= c < w / 2 + |block| then block[r - h / 2][c - w / 2] else 0
  {
  }

  /** The cells an RLE text sets alive lie at or below and right of the centre. */
  lemma TextCellsFromCentre(h: nat, w: nat, text: string, randomArea: Board, r: nat, c: nat)
    requires IsBoard(randomArea, h, w) && r < h && c < w && Initial(h, w, Encoded(text), randomArea)[r][c] == 1
    ensures r >= h / 2 && c >= w / 2
  {
    assert (r, c) in Live(text, w / 2, h / 2);
    LiveCellsRightOfStart(text, w / 2, h / 2);
  }

  /** `grid[y][x] = 1` for each listed cell in turn. */
  method SetCells(grid: Board, h: nat, w: nat, cells: seq<(int, int)>) returns (g: Board)
    requires IsPlane(grid, h, w) && InGrid(cells, h, w)
    ensures g == Place(grid, h, w, cells)
  {
    g := grid;
    for k := 0 to |cells|
      invariant g == Place(grid, h, w, cells[..k])
    {
      assert cells[..k + 1] == cells[..k] + [cells[k]];
      InGridAt(cells, k, h, w);
      PlaceSnoc(grid, h, w, cells[..k], cells[k]);
      g := g[cells[k].0 := g[cells[k].0][cells[k].1 := 1]];
    }
    assert cells[..|cells|] == cells;
  }

  /** `grid[start_y + i][start_x + j] = pattern[i][j]` for i, j in range(n), row by row. */
  method StampBlock(grid: Board, h: nat, w: nat, block: seq<seq<int>>, n: nat, top: nat, left: nat) returns (g: Board)
    requires IsPlane(grid, h, w) && IsPlane(block, n, n) && top + n <= h && left + n <= w
    ensures g == Stamp(grid, h, w, block, n, top, left)
  {
    g := grid;
    for i := 0 to n
      invariant IsPlane(g, h, w)
      invariant forall r, c :: 0 <= r < h && 0 <= c < w ==>
        g[r][c] == if top <= r < top + i && left <= c < left + n then block[r - top][c - left] else grid[r][c]
    {
      for j := 0 to n
        invariant IsPlane(g, h, w)
        invariant forall r, c :: 0 <= r < h && 0 <= c < w ==>
          g[r][c] == if (top <= r < top + i || (r == top + i && c < left + j)) && left <= c < left + n
            then block[r - top][c - left] else grid[r][c]
      {
        g := g[top + i := g[top + i][left + j := block[i][j]]];
      }
    }
    PlaneExtensionality(g, Stamp(grid, h, w, block, n, top, left), h, w);
  }

  /**
   * `initialize_grid`: a dead grid, then the cells of the named state, with
   * `randomArea` standing for the draws of `np.random.choice([0, 1])`.
   */
  method InitializeGrid(h: nat, w: nat, state: string, randomArea: Board) returns (grid: Board)
    requires Fits(h, w, StartOf(state)) && IsBoard(randomArea, h, w)
    ensures grid == Initial(h, w, StartOf(state), randomArea)
    ensures IsBoard(grid, h, w)
  {
    grid := DeadBoard(h, w);
    var startX, startY := w / 2, h / 2;
    match StartOf(state) {
      case Shape(offsets) =>
        grid := SetCells(grid, h, w, Shift(offsets, startY, startX));
      case Random =>
        grid := randomArea;
      case Stamped(block) =>
        grid := StampBlock(grid, h, w, block, |block|, startY, startX);
      case Encoded(text) =>
        grid := ReadPattern(grid, h, w, text, startX, startY);
      case Blank =>
    }
    InitialIsBoard(h, w, StartOf(state), randomArea);
  }
}
