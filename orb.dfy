/**
 * The cursor-following orb of the homepage (scripts.js): the bounded trail of
 * cursor samples, the lagged follow target, the aura sprite-sheet frame
 * counter and the idle flag. Scene construction and all floating-point
 * tweening are outside this module; positions are opaque samples.
 */
module Orb {

  /** A cursor sample in orb coordinates (the mouse-to-world mapping is not modelled). */
  datatype Sample = Sample(x: real, y: real)

  /** `maxTrail`: the trail never holds more samples than this. */
  const MaxTrail: nat := 60
  /** `trailLag`: how many samples behind the newest one the orb aims. */
  const TrailLag: nat := 18
  /** `idleThreshold`, in milliseconds. */
  const IdleThreshold: real := 3000.0

  // ---------------------------------------------------------------------------
  // Cursor trail
  // ---------------------------------------------------------------------------

  /** The trail after one `mousemove`: push the sample, then shift the oldest out if over the bound. */
  function Pushed(trail: seq<Sample>, s: Sample): (r: seq<Sample>)
    ensures |trail| <= MaxTrail ==> |r| <= MaxTrail
    ensures |r| == if |trail| + 1 > MaxTrail then |trail| else |trail| + 1
    ensures r[|r| - 1] == s
    ensures r[..|r| - 1] == if |trail| + 1 > MaxTrail then trail[1..] else trail
  {
    var t := trail + [s];
    if |t| > MaxTrail then
      assert t[1..] == trail[1..] + [s];
      t[1..]
    else
      t
  }

  /** The trail after every sample of `history` has been pushed, oldest first, onto an empty trail. */
  function TrailAfter(history: seq<Sample>): seq<Sample>
  {
    if history == [] then [] else Pushed(TrailAfter(history[..|history| - 1]), history[|history| - 1])
  }

  /** The last `MaxTrail` samples of `history` (all of them when there are fewer). */
  function Recent(history: seq<Sample>): (r: seq<Sample>)
    ensures |r| <= MaxTrail
  {
    if |history| <= MaxTrail then history else history[|history| - MaxTrail..]
  }

  lemma PushedRecent(history: seq<Sample>, s: Sample)
    ensures Pushed(Recent(history), s) == Recent(history + [s])
  {
    if |history| >= MaxTrail {
      var h := history + [s];
      assert Recent(history) + [s] == h[|h| - 1 - MaxTrail..];
    }
  }

  /** The trail is always exactly the most recent (at most 60) cursor samples, in arrival order. */
  lemma {:induction false} TrailIsRecentHistory(history: seq<Sample>)
    ensures TrailAfter(history) == Recent(history)
  {
    if history != [] {
      var n := |history|;
      TrailIsRecentHistory(history[..n - 1]);
      PushedRecent(history[..n - 1], history[n - 1]);
      assert history[..n - 1] + [history[n - 1]] == history;
    }
  }

  /** The follow target of `animateOrb`: the sample `TrailLag` behind the newest, else the oldest, else the orb's own position. */
  function Target(trail: seq<Sample>, orb: Sample): (r: Sample)
    ensures r in trail || (trail == [] && r == orb)
  {
    if |trail| > TrailLag then trail[|trail| - 1 - TrailLag]
    else if |trail| > 0 then trail[0]
    else orb
  }

  /**
   * What the orb aims at, in terms of the whole cursor history: the sample
   * that arrived 18 moves before the newest, or while fewer than 19 moves
   * have happened the very first sample, or with no move at all the orb's
   * own position.
   */
  lemma TargetFollowsHistory(history: seq<Sample>, orb: Sample)
    ensures Target(TrailAfter(history), orb) ==
      if |history| > TrailLag then history[|history| - 1 - TrailLag]
      else if |history| > 0 then history[0]
      else orb
  {
    TrailIsRecentHistory(history);
    TargetOfRecent(history, orb);
  }

  lemma TargetOfRecent(history: seq<Sample>, orb: Sample)
    ensures Target(Recent(history), orb) ==
      if |history| > TrailLag then history[|history| - 1 - TrailLag]
      else if |history| > 0 then history[0]
      else orb
  {
    var n := |history|;
    if n > MaxTrail {
      var t := history[n - MaxTrail..];
      assert |t| == MaxTrail;
      assert t[MaxTrail - 1 - TrailLag] == history[n - 1 - TrailLag];
    }
  }

  // ---------------------------------------------------------------------------
  // Aura sprite sheet
  // ---------------------------------------------------------------------------

  /** `auraSpriteParams` without its path. */
  datatype SpriteSheet = SpriteSheet(columns: nat, rows: nat, totalFrames: nat, frameDuration: real)

  /** The parameters as configured: 5 columns, 60 rows, 200 frames, 20 ms per frame. */
  const AuraSheet: SpriteSheet := SpriteSheet(5, 60, 200, 20.0)

  /** The load-time test that decides whether the sheet is loaded at all. */
  predicate Animates(sheet: SpriteSheet)
  {
    sheet.totalFrames > 1 && sheet.columns > 0 && sheet.rows > 0
  }

  /** Every frame has a cell on the sheet (the configured sheet has 300 cells for 200 frames). */
  predicate Fits(sheet: SpriteSheet)
  {
    sheet.totalFrames <= sheet.columns * sheet.rows
  }

  lemma AuraSheetFits()
    ensures Animates(AuraSheet) && Fits(AuraSheet)
    ensures AuraSheet.totalFrames < AuraSheet.columns * AuraSheet.rows
  {
  }

  /** The frame after `frame`, wrapping to 0 after the last one. */
  function NextFrame(sheet: SpriteSheet, frame: nat): (r: nat)
    requires sheet.totalFrames > 0
    ensures r < sheet.totalFrames
    ensures frame + 1 < sheet.totalFrames ==> r == frame + 1
    ensures frame + 1 == sheet.totalFrames ==> r == 0
  {
    (frame + 1) % sheet.totalFrames
  }

  /** The frame reached from `frame` after `k` advances. */
  function FrameAfter(sheet: SpriteSheet, frame: nat, k: nat): nat
    requires sheet.totalFrames > 0
  {
    if k == 0 then frame else NextFrame(sheet, FrameAfter(sheet, frame, k - 1))
  }

  lemma ZeroMultiple(k: int, n: int)
    requires n > 0 && -n < k * n < n
    ensures k == 0
  {
  }

  /** The remainder is determined by any decomposition `x == q * n + r` with `0 <= r < n`. */
  lemma ModUnique(x: int, n: int, q: int, r: int)
    requires n > 0 && x == q * n + r && 0 <= r < n
    ensures x % n == r
  {
    var d, m := x / n, x % n;
    assert x == d * n + m;
    assert (q - d) * n == q * n - d * n;
    ZeroMultiple(q - d, n);
  }

  lemma ModSucc(a: nat, n: nat)
    requires n > 0
    ensures (a % n + 1) % n == (a + 1) % n
  {
    var q, r := a / n, a % n;
    assert a == q * n + r;
    assert (q + 1) * n == q * n + n;
    if r + 1 == n {
      ModUnique(a + 1, n, q + 1, 0);
      ModUnique(r + 1, n, 1, 0);
    } else {
      ModUnique(a + 1, n, q, r + 1);
      ModUnique(r + 1, n, 0, r + 1);
    }
  }

  /** The frame counter cycles: after `k` advances it is `(frame + k) mod totalFrames`. */
  lemma {:induction false} FrameAfterIsModular(sheet: SpriteSheet, frame: nat, k: nat)
    requires sheet.totalFrames > 0
    requires frame < sheet.totalFrames
    ensures FrameAfter(sheet, frame, k) == (frame + k) % sheet.totalFrames
  {
    if k > 0 {
      FrameAfterIsModular(sheet, frame, k - 1);
      ModSucc(frame + k - 1, sheet.totalFrames);
    }
  }

  /** The column and row of a frame on the sheet, by remainder and integer division. */
  datatype Cell = Cell(column: nat, row: nat)

  function CellOf(sheet: SpriteSheet, frame: nat): (c: Cell)
    requires sheet.columns > 0
    ensures c.column < sheet.columns
    ensures frame == c.row * sheet.columns + c.column
    ensures frame < sheet.totalFrames && Fits(sheet) ==> c.row < sheet.rows
  {
    RowBound(frame, sheet.columns, sheet.rows);
    Cell(frame % sheet.columns, frame / sheet.columns)
  }

  lemma RowBound(frame: nat, columns: nat, rows: nat)
    requires columns > 0
    ensures frame < columns * rows ==> frame / columns < rows
  {
    var q := frame / columns;
    assert frame == q * columns + frame % columns;
    if q >= rows {
      assert q * columns >= rows * columns;
    }
  }

  /** Different frames never share a cell: the frame is recovered from its cell. */
  lemma CellOfInjective(sheet: SpriteSheet, f: nat, g: nat)
    requires sheet.columns > 0
    requires CellOf(sheet, f) == CellOf(sheet, g)
    ensures f == g
  {
  }

  /** The texture offset that shows a cell, rows counted from the top of the sheet. */
  datatype Offset = Offset(x: real, y: real)

  function OffsetOf(sheet: SpriteSheet, c: Cell): (o: Offset)
    requires sheet.columns > 0 && sheet.rows > 0
    requires c.column < sheet.columns && c.row < sheet.rows
    ensures 0.0 <= o.x < 1.0 && 0.0 <= o.y < 1.0
  {
    var cols, rows := sheet.columns as real, sheet.rows as real;
    assert (c.column as real) / cols < 1.0 by {
      assert (c.column as real) < cols;
    }
    assert 0.0 < (c.row as real + 1.0) / rows <= 1.0 by {
      assert c.row as real + 1.0 <= rows;
    }
    Offset(c.column as real / cols, 1.0 - (c.row as real + 1.0) / rows)
  }

  /**
   * The offset shows its cell, with rows counted from the top of the sheet:
   * the tile's left edge is at column/columns and its top edge at
   * 1 - row/rows, so a lower row number sits higher, row 0 reaches the top
   * edge, and different cells are shown at different offsets.
   */
  lemma OffsetShowsCell(sheet: SpriteSheet, c: Cell, d: Cell)
    requires sheet.columns > 0 && sheet.rows > 0
    requires c.column < sheet.columns && c.row < sheet.rows
    requires d.column < sheet.columns && d.row < sheet.rows
    ensures OffsetOf(sheet, c).x * (sheet.columns as real) == c.column as real
    ensures (1.0 - OffsetOf(sheet, c).y) * (sheet.rows as real) == c.row as real + 1.0
    ensures c.row < d.row ==> OffsetOf(sheet, c).y > OffsetOf(sheet, d).y
    ensures c.row == 0 ==> OffsetOf(sheet, c).y + 1.0 / (sheet.rows as real) == 1.0
    ensures c != d ==> OffsetOf(sheet, c) != OffsetOf(sheet, d)
  {
    var rows := sheet.rows as real;
    var yc, yd := (c.row as real + 1.0) / rows, (d.row as real + 1.0) / rows;
    if c.row < d.row {
      assert yc * rows < yd * rows;
      assert yc < yd;
    }
  }

  /** The time test for one aura step: strictly more than one frame duration since the last step. */
  predicate AuraDue(sheet: SpriteSheet, lastFrameTime: real, now: real)
  {
    now - lastFrameTime > sheet.frameDuration
  }

  // ---------------------------------------------------------------------------
  // The orb's per-page state
  // ---------------------------------------------------------------------------

  /**
   * The variables the orb's event handlers and its animation loop share:
   * `trail`, `lastMove`, `idle`, `currentAuraFrame`, `lastAuraFrameTime`
   * and the aura texture's offset.
   */
  class OrbState {
    var trail: seq<Sample>
    var lastMove: real
    var idle: bool
    var currentAuraFrame: nat
    var lastAuraFrameTime: real
    var auraOffset: Offset
    /** The latest `performance.now()` reading seen by a handler. */
    ghost var clock: real

    /** The trail is bounded, the frame is on the sheet, and the idle flag is only up after 3 s without a move. */
    ghost predicate Valid()
      reads this
    {
      && |trail| <= MaxTrail
      && currentAuraFrame < AuraSheet.totalFrames
      && lastMove <= clock
      && (idle ==> clock - lastMove > IdleThreshold)
    }

    /** Set-up at page load; `now` is the `performance.now()` reading taken then. */
    constructor (now: real)
      ensures Valid()
      ensures trail == [] && lastMove == now && !idle && clock == now
      ensures currentAuraFrame == 0 && lastAuraFrameTime == 0.0 && auraOffset == Offset(0.0, 0.0)
    {
      trail := [];
      lastMove := now;
      idle := false;
      currentAuraFrame := 0;
      lastAuraFrameTime := 0.0;
      auraOffset := Offset(0.0, 0.0);
      clock := now;
    }

    /** The `mousemove` handler: record the sample, note the time, clear the idle flag. */
    method MouseMove(s: Sample, now: real)
      requires Valid() && clock <= now
      modifies this
      ensures Valid()
      ensures trail == Pushed(old(trail), s)
      ensures lastMove == now && !idle && clock == now
      ensures currentAuraFrame == old(currentAuraFrame) && lastAuraFrameTime == old(lastAuraFrameTime)
      ensures auraOffset == old(auraOffset)
    {
      trail := trail + [s];
      if |trail| > MaxTrail {
        trail := trail[1..];
      }
      lastMove := now;
      if idle {
        idle := false;
      }
      clock := now;
    }

    /**
     * The aura step at the start of `animateOrb`. `mapLoaded` says whether the
     * sprite-sheet texture and its image are loaded; `ms` is the frame time.
     */
    method AdvanceAura(ms: real, mapLoaded: bool) returns (advanced: bool)
      requires Valid()
      modifies this
      ensures Valid()
      ensures advanced == (mapLoaded && AuraSheet.totalFrames > 1 && AuraDue(AuraSheet, old(lastAuraFrameTime), ms))
      ensures advanced ==> && lastAuraFrameTime == ms
                           && currentAuraFrame == NextFrame(AuraSheet, old(currentAuraFrame))
                           && auraOffset == OffsetOf(AuraSheet, CellOf(AuraSheet, currentAuraFrame))
      ensures !advanced ==> && lastAuraFrameTime == old(lastAuraFrameTime)
                            && currentAuraFrame == old(currentAuraFrame)
                            && auraOffset == old(auraOffset)
      ensures trail == old(trail) && lastMove == old(lastMove) && idle == old(idle) && clock == old(clock)
    {
      advanced := mapLoaded && AuraSheet.totalFrames > 1 && ms - lastAuraFrameTime > AuraSheet.frameDuration;
      if advanced {
        lastAuraFrameTime := ms;
        currentAuraFrame := (currentAuraFrame + 1) % AuraSheet.totalFrames;
        var column := currentAuraFrame % AuraSheet.columns;
        var row := currentAuraFrame / AuraSheet.columns;
        auraOffset := OffsetOf(AuraSheet, Cell(column, row));
      }
    }

    /** The idle test of `animateOrb`: afterwards the flag says exactly whether 3 s have passed since the last move. */
    method CheckIdle(now: real)
      requires Valid() && clock <= now
      modifies this
      ensures Valid()
      ensures idle == (old(idle) || now - lastMove > IdleThreshold)
      ensures idle == (now - lastMove > IdleThreshold)
      ensures !old(idle) && idle ==> now - lastMove > IdleThreshold
      ensures clock == now
      ensures trail == old(trail) && lastMove == old(lastMove)
      ensures currentAuraFrame == old(currentAuraFrame) && lastAuraFrameTime == old(lastAuraFrameTime)
      ensures auraOffset == old(auraOffset)
    {
      if !idle && now - lastMove > IdleThreshold {
        idle := true;
      }
      clock := now;
    }

    /**
     * The state-changing part of one `animateOrb` frame, in the source's
     * order: aura step, idle test, then the follow target. `now` is the
     * `performance.now()` reading used by the idle test; `advanced` says
     * whether the aura moved on a frame.
     */
    method AnimateOrb(ms: real, now: real, mapLoaded: bool, orb: Sample) returns (target: Sample, advanced: bool)
      requires Valid() && clock <= now
      modifies this
      ensures Valid()
      ensures advanced == (mapLoaded && AuraSheet.totalFrames > 1 && AuraDue(AuraSheet, old(lastAuraFrameTime), ms))
      ensures advanced ==> && lastAuraFrameTime == ms
                           && currentAuraFrame == NextFrame(AuraSheet, old(currentAuraFrame))
                           && auraOffset == OffsetOf(AuraSheet, CellOf(AuraSheet, currentAuraFrame))
      ensures !advanced ==> && lastAuraFrameTime == old(lastAuraFrameTime)
                            && currentAuraFrame == old(currentAuraFrame)
                            && auraOffset == old(auraOffset)
      ensures trail == old(trail) && lastMove == old(lastMove) && clock == now
      ensures idle == (now - lastMove > IdleThreshold)
      ensures target == Target(trail, orb)
    {
      advanced := AdvanceAura(ms, mapLoaded);
      CheckIdle(now);
      target := Target(trail, orb);
    }
  }
}
