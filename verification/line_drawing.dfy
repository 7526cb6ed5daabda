/**
  The line loop of App/c1device/text.go: Canvas.DrawLine reaches its end point
  after exactly as many moves as the longer side, through the nearest pixels.
 */
module LineDrawing {
  import opened Division

  const DISPLAY_WIDTH := 296
  const DISPLAY_HEIGHT := 152

  function Abs(x: int): (r: int)
    ensures r >= 0
  {
    if x < 0 then -x else x
  }

  function Direction(from: int, to: int): int {
    if from < to then 1 else -1
  }

  // n steps from one coordinate towards the other.
  function Along(from: int, to: int, n: int): int {
    if from < to then from + n else from - n
  }

  // ---- The ideal line ----

  function Moves(x0: int, y0: int, x1: int, y1: int): nat {
    if Abs(x1 - x0) >= Abs(y1 - y0) then Abs(x1 - x0) else Abs(y1 - y0)
  }

  // k * minor / major to the nearest integer, halves up.
  function Nearest(k: nat, minor: nat, major: nat): nat
    requires minor <= major
  {
    if major == 0 then 0 else (2 * (k * minor) + major) / (2 * major)
  }

  // The pixel of the line after k moves.
  function PointAt(x0: int, y0: int, x1: int, y1: int, k: nat): (int, int) {
    var dx, dy := Abs(x1 - x0), Abs(y1 - y0);
    if dx >= dy then (Along(x0, x1, k), Along(y0, y1, Nearest(k, dy, dx)))
    else (Along(x0, x1, Nearest(k, dx, dy)), Along(y0, y1, k))
  }

  predicate OnLine(x0: int, y0: int, x1: int, y1: int, x: int, y: int) {
    exists k: nat :: k <= Moves(x0, y0, x1, y1) && PointAt(x0, y0, x1, y1, k) == (x, y)
  }

  // Nearest is the only integer within half a step.
  lemma {:induction false} NearestIs(k: nat, minor: nat, major: nat, j: int)
    requires minor <= major && major > 0
    requires 0 <= 2 * (k * minor - j * major) + major < 2 * major
    ensures j == Nearest(k, minor, major)
  {
    var n := 2 * (k * minor) + major;
    assert 0 <= n - 2 * (j * major) < 2 * major;
    QuotientIs(n, 2 * major, j);
  }

  lemma {:induction false} NearestBounds(k: nat, minor: nat, major: nat)
    requires minor <= major && major > 0
    ensures 0 <= 2 * (k * minor - Nearest(k, minor, major) * major) + major < 2 * major
  {
    var n, q := 2 * (k * minor) + major, Nearest(k, minor, major);
    assert n == q * (2 * major) + n % (2 * major);
    assert q * (2 * major) == 2 * (q * major);
  }

  lemma {:induction false} NearestEnds(minor: nat, major: nat)
    requires minor <= major
    ensures Nearest(0, minor, major) == 0 && (major > 0 ==> Nearest(major, minor, major) == minor)
  {
    if major > 0 {
      NearestIs(0, minor, major, 0);
      NearestIs(major, minor, major, minor);
    }
  }

  // One more move takes the minor coordinate on by at most one.
  lemma {:induction false} NearestStep(k: nat, minor: nat, major: nat)
    requires minor <= major && major > 0
    ensures var a, b := Nearest(k, minor, major), Nearest(k + 1, minor, major); a <= b <= a + 1
  {
    NearestBounds(k, minor, major);
    var a := Nearest(k, minor, major);
    var d := k * minor - a * major;
    assert (k + 1) * minor == k * minor + minor;
    if 2 * (d + minor) >= major {
      assert (a + 1) * major == a * major + major;
      NearestIs(k + 1, minor, major, a + 1);
    } else {
      NearestIs(k + 1, minor, major, a);
    }
  }

  lemma {:induction false} NearestGrows(k: nat, n: nat, minor: nat, major: nat)
    requires minor <= major && major > 0 && k <= n
    ensures Nearest(k, minor, major) <= Nearest(n, minor, major)
    decreases n - k
  {
    if k < n {
      NearestStep(k, minor, major);
      NearestGrows(k + 1, n, minor, major);
    }
  }

  // The line starts and ends at its end points.
  lemma {:induction false} LineEnds(x0: int, y0: int, x1: int, y1: int)
    ensures PointAt(x0, y0, x1, y1, 0) == (x0, y0)
    ensures PointAt(x0, y0, x1, y1, Moves(x0, y0, x1, y1)) == (x1, y1)
  {
    var dx, dy := Abs(x1 - x0), Abs(y1 - y0);
    if dx >= dy {
      NearestEnds(dy, dx);
    } else {
      NearestEnds(dx, dy);
    }
  }

  // Every move goes to one of the eight neighbours.
  lemma {:induction false} MovesToNeighbour(x0: int, y0: int, x1: int, y1: int, k: nat)
    requires k < Moves(x0, y0, x1, y1)
    ensures var (a, b) := PointAt(x0, y0, x1, y1, k);
            var (c, d) := PointAt(x0, y0, x1, y1, k + 1);
            Abs(c - a) <= 1 && Abs(d - b) <= 1 && (a, b) != (c, d)
  {
    var dx, dy := Abs(x1 - x0), Abs(y1 - y0);
    if dx >= dy {
      NearestStep(k, dy, dx);
    } else {
      NearestStep(k, dx, dy);
    }
  }

  predicate Between(a: int, v: int, b: int) {
    a <= v <= b || b <= v <= a
  }

  lemma {:induction false} InsideBox(x0: int, y0: int, x1: int, y1: int, k: nat)
    requires k <= Moves(x0, y0, x1, y1)
    ensures var (x, y) := PointAt(x0, y0, x1, y1, k); Between(x0, x, x1) && Between(y0, y, y1)
  {
    var dx, dy := Abs(x1 - x0), Abs(y1 - y0);
    if dx > 0 && dx >= dy {
      NearestEnds(dy, dx);
      NearestGrows(k, dx, dy, dx);
    } else if dy > dx {
      NearestEnds(dx, dy);
      NearestGrows(k, dy, dx, dy);
    }
  }

  // ---- The loop ----

  // After k moves, i of them along x and j along y: the error term and the pixel it stands for.
  predicate Tracing(x0: int, y0: int, x1: int, y1: int, k: nat, x: int, y: int, err: int) {
    var dx, dy := Abs(x1 - x0), Abs(y1 - y0);
    var i := if dx >= dy then k else Nearest(k, dx, dy);
    var j := if dx >= dy then Nearest(k, dy, dx) else k;
    && x == Along(x0, x1, i) && y == Along(y0, y1, j)
    && err == dx - dy - (i * dy - j * dx)
  }

  lemma {:induction false} TracingPoint(x0: int, y0: int, x1: int, y1: int, k: nat, x: int, y: int, err: int)
    requires Tracing(x0, y0, x1, y1, k, x, y, err)
    ensures (x, y) == PointAt(x0, y0, x1, y1, k)
  {
  }

  // The end point is not met before the last move.
  lemma {:induction false} EndIsLast(x0: int, y0: int, x1: int, y1: int, k: nat)
    requires k <= Moves(x0, y0, x1, y1)
    ensures PointAt(x0, y0, x1, y1, k) == (x1, y1) <==> k == Moves(x0, y0, x1, y1)
  {
    LineEnds(x0, y0, x1, y1);
  }

  function StepX(dy: int, err: int): bool {
    2 * err >= -dy
  }

  function StepY(dx: int, err: int): bool {
    2 * err <= dx
  }

  // The two tests of the loop take the line to its next pixel.
  lemma {:induction false} TracingStep(x0: int, y0: int, x1: int, y1: int, k: nat, x: int, y: int, err: int)
    requires Tracing(x0, y0, x1, y1, k, x, y, err) && k < Moves(x0, y0, x1, y1)
    ensures var dx, dy := Abs(x1 - x0), Abs(y1 - y0);
            Tracing(x0, y0, x1, y1, k + 1,
                    if StepX(dy, err) then x + Direction(x0, x1) else x,
                    if StepY(dx, err) then y + Direction(y0, y1) else y,
                    err - (if StepX(dy, err) then dy else 0) + (if StepY(dx, err) then dx else 0))
  {
    var dx, dy := Abs(x1 - x0), Abs(y1 - y0);
    hide Nearest, Abs, Advances, StepX, StepY;
    if dx >= dy {
      MajorTests(k, dy, dx, Nearest(k, dy, dx), err);
      MinorStep(k, dy, dx);
    } else {
      MinorTests(k, dx, dy, Nearest(k, dx, dy), err);
      MinorStep(k, dx, dy);
    }
  }

  // Whether the next move also goes along the shorter side.
  predicate Advances(k: nat, minor: nat, major: nat)
    requires minor <= major
  {
    2 * (k * minor - Nearest(k, minor, major) * major + minor) >= major
  }

  lemma {:induction false} MinorStep(k: nat, minor: nat, major: nat)
    requires minor <= major && major > 0
    ensures Nearest(k + 1, minor, major) == Nearest(k, minor, major) + if Advances(k, minor, major) then 1 else 0
    ensures (k + 1) * minor == k * minor + minor
    ensures (Nearest(k, minor, major) + 1) * major == Nearest(k, minor, major) * major + major
  {
    NearestBounds(k, minor, major);
    var a := Nearest(k, minor, major);
    assert (k + 1) * minor == k * minor + minor;
    assert (a + 1) * major == a * major + major;
    hide Nearest;
    if 2 * (k * minor - a * major + minor) >= major {
      NearestIs(k + 1, minor, major, a + 1);
    } else {
      NearestIs(k + 1, minor, major, a);
    }
  }

  // A flat line always moves along x, and along y when the nearest pixel does.
  lemma {:induction false} MajorTests(k: nat, dy: nat, dx: nat, j: nat, err: int)
    requires dy <= dx && dx > 0 && j == Nearest(k, dy, dx) && err == dx - dy - (k * dy - j * dx)
    ensures StepX(dy, err) && (StepY(dx, err) <==> Advances(k, dy, dx))
  {
    NearestBounds(k, dy, dx);
    hide Nearest;
  }

  lemma {:induction false} MinorTests(k: nat, dx: nat, dy: nat, i: nat, err: int)
    requires dx < dy && i == Nearest(k, dx, dy) && err == dx - dy - (i * dy - k * dx)
    ensures StepY(dx, err) && (StepX(dy, err) <==> Advances(k, dx, dy))
  {
    NearestBounds(k, dx, dy);
    hide Nearest;
  }

  class Canvas {
    var black: array2<bool>

    constructor ()
      ensures black.Length0 == DISPLAY_WIDTH && black.Length1 == DISPLAY_HEIGHT && fresh(black)
      ensures forall x, y :: 0 <= x < DISPLAY_WIDTH && 0 <= y < DISPLAY_HEIGHT ==> !black[x, y]
    {
      black := new bool[DISPLAY_WIDTH, DISPLAY_HEIGHT]((x, y) => false);
    }

    // A pixel of the display; outside it nothing is drawn.
    method SetBlack(x: int, y: int)
      requires black.Length0 == DISPLAY_WIDTH && black.Length1 == DISPLAY_HEIGHT
      modifies black
      ensures forall a, b :: 0 <= a < DISPLAY_WIDTH && 0 <= b < DISPLAY_HEIGHT ==>
                (black[a, b] <==> old(black[a, b]) || (a, b) == (x, y))
    {
      if 0 <= x < DISPLAY_WIDTH && 0 <= y < DISPLAY_HEIGHT {
        black[x, y] := true;
      }
    }

    // Exactly the pixels of the line turn black; the loop makes Moves moves and stops.
    method DrawLine(x0: int, y0: int, x1: int, y1: int) returns (ghost moves: nat)
      requires black.Length0 == DISPLAY_WIDTH && black.Length1 == DISPLAY_HEIGHT
      modifies black
      ensures moves == Moves(x0, y0, x1, y1)
      ensures forall a, b :: 0 <= a < DISPLAY_WIDTH && 0 <= b < DISPLAY_HEIGHT ==>
                (black[a, b] <==> old(black[a, b]) || OnLine(x0, y0, x1, y1, a, b))
    {
      hide *;
      var dx, sx := Abs(x1 - x0), Direction(x0, x1);
      var dy, sy := -Abs(y1 - y0), Direction(y0, y1);
      var x, y, err := x0, y0, dx + dy;
      moves := 0;
      TracingBegins(x0, y0, x1, y1);
      while true
        invariant moves <= Moves(x0, y0, x1, y1) && Tracing(x0, y0, x1, y1, moves, x, y, err)
        invariant forall a, b :: 0 <= a < DISPLAY_WIDTH && 0 <= b < DISPLAY_HEIGHT ==>
                    (black[a, b] <==> old(black[a, b]) || Drawn(x0, y0, x1, y1, moves, a, b))
        decreases Moves(x0, y0, x1, y1) - moves
      {
        SetBlack(x, y);
        TracingPoint(x0, y0, x1, y1, moves, x, y, err);
        EndIsLast(x0, y0, x1, y1, moves);
        DrawnStep(x0, y0, x1, y1, moves);
        if x == x1 && y == y1 {
          DrawnAll(x0, y0, x1, y1);
          return;
        }
        TracingStep(x0, y0, x1, y1, moves, x, y, err);
        StepTests(-dy, dx, err);
        var twice := 2 * err;
        if twice >= dy {
          err := err + dy;
          x := x + sx;
        }
        if twice <= dx {
          err := err + dx;
          y := y + sy;
        }
        moves := moves + 1;
      }
    }
  }

  // Drawn before move k.
  ghost predicate Drawn(x0: int, y0: int, x1: int, y1: int, k: nat, x: int, y: int) {
    exists m: nat :: m < k && PointAt(x0, y0, x1, y1, m) == (x, y)
  }

  lemma {:induction false} DrawnStep(x0: int, y0: int, x1: int, y1: int, k: nat)
    ensures forall a, b :: Drawn(x0, y0, x1, y1, k + 1, a, b) <==>
                           Drawn(x0, y0, x1, y1, k, a, b) || PointAt(x0, y0, x1, y1, k) == (a, b)
  {
    hide PointAt;
    forall a, b | Drawn(x0, y0, x1, y1, k, a, b) ensures Drawn(x0, y0, x1, y1, k + 1, a, b) {
      var m: nat :| m < k && PointAt(x0, y0, x1, y1, m) == (a, b);
      assert m < k + 1;
    }
  }

  lemma {:induction false} DrawnAll(x0: int, y0: int, x1: int, y1: int)
    ensures forall a, b :: Drawn(x0, y0, x1, y1, Moves(x0, y0, x1, y1) + 1, a, b) <==> OnLine(x0, y0, x1, y1, a, b)
  {
    hide PointAt, Moves;
    var n := Moves(x0, y0, x1, y1);
    forall a, b | Drawn(x0, y0, x1, y1, n + 1, a, b) ensures OnLine(x0, y0, x1, y1, a, b) {
      var m: nat :| m < n + 1 && PointAt(x0, y0, x1, y1, m) == (a, b);
    }
  }

  lemma {:induction false} TracingBegins(x0: int, y0: int, x1: int, y1: int)
    ensures Tracing(x0, y0, x1, y1, 0, x0, y0, Abs(x1 - x0) - Abs(y1 - y0))
    ensures forall a, b :: !Drawn(x0, y0, x1, y1, 0, a, b)
  {
    if Abs(x1 - x0) >= Abs(y1 - y0) {
      NearestEnds(Abs(y1 - y0), Abs(x1 - x0));
    } else {
      NearestEnds(Abs(x1 - x0), Abs(y1 - y0));
    }
  }

  lemma {:induction false} StepTests(dy: int, dx: int, err: int)
    ensures StepX(dy, err) <==> 2 * err >= -dy
    ensures StepY(dx, err) <==> 2 * err <= dx
  {
  }
}
