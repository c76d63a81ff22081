/**
 * The integer state of the rotating-cube view: rotation angles in sixteenths
 * of a degree, the colour channels, the running flag that drives the
 * animation timer, and rotation by mouse drag. Emitted signals are appended
 * to a log in emission order.
 */
module CubeView {

  /** One full turn, in sixteenths of a degree. */
  const FullTurn: int := 5760

  /**
   * Where the angle normaliser leaves `angle`: in [0, FullTurn] (both ends
   * included), the same modulo a full turn, and at the upper end exactly for
   * positive whole turns.
   */
  function Normalized(angle: int): (r: int)
    ensures 0 <= r <= FullTurn
    ensures (r - angle) % FullTurn == 0
    ensures r == FullTurn <==> angle > 0 && angle % FullTurn == 0
  {
    if angle < 0 then angle % FullTurn
    else if angle <= FullTurn then angle
    else if angle % FullTurn == 0 then FullTurn
    else angle % FullTurn
  }

  /** Angles already in [0, FullTurn] are left as they are, so normalising twice is normalising once. */
  lemma NormalizedFixesRange(angle: int)
    ensures 0 <= angle <= FullTurn ==> Normalized(angle) == angle
    ensures Normalized(Normalized(angle)) == Normalized(angle)
  {
  }

  /** The normaliser: add whole turns while negative, then take them off while above a full turn. */
  method NormalizeAngle(angle: int) returns (normalized: int)
    ensures normalized == Normalized(angle)
  {
    normalized := angle;
    while normalized < 0
      invariant (normalized - angle) % FullTurn == 0
      invariant angle < 0 ==> normalized < FullTurn
      invariant angle >= 0 ==> normalized == angle
      decreases -normalized
    {
      normalized := normalized + FullTurn;
    }
    while normalized > FullTurn
      invariant 0 <= normalized
      invariant (normalized - angle) % FullTurn == 0
      invariant angle < 0 ==> normalized < FullTurn
      invariant angle > 0 ==> normalized > 0
      decreases normalized
    {
      normalized := normalized - FullTurn;
    }
  }

  datatype Point = Point(x: int, y: int)

  /** The view's signals. */
  datatype Signal =
    | XRotationChanged(angle: int)
    | YRotationChanged(angle: int)
    | ZRotationChanged(angle: int)
    | RChanged(value: int)
    | GChanged(value: int)
    | BChanged(value: int)
    | RotationStarted
    | RotationStopped

  /** The change signal `s`, when a setter moves a value from `before` to `after`. */
  function Announce(before: int, after: int, s: Signal): seq<Signal>
  {
    if after != before then [s] else []
  }

  class GLWidget {
    var xRot: int
    var yRot: int
    var zRot: int
    var red: int
    var green: int
    var blue: int
    var running: bool
    /** Whether the animation timer is started. */
    var timerActive: bool
    var lastPos: Point
    var signals: seq<Signal>

    /** Every stored angle is a normalised one, and the timer runs exactly while the view is running. */
    ghost predicate Valid()
      reads this
    {
      && 0 <= xRot <= FullTurn && 0 <= yRot <= FullTurn && 0 <= zRot <= FullTurn
      && timerActive == running
    }

    /** The colour channels start indeterminate, as the members have no initialiser. */
    constructor ()
      ensures Valid()
      ensures xRot == 0 && yRot == 0 && zRot == 0
      ensures !running && lastPos == Point(0, 0) && signals == []
    {
      xRot, yRot, zRot := 0, 0, 0;
      running, timerActive := false, false;
      lastPos := Point(0, 0);
      signals := [];
    }

    method SetXRotation(angle: int)
      requires Valid()
      modifies this`xRot, this`signals
      ensures Valid()
      ensures xRot == Normalized(angle)
      ensures signals == old(signals) + Announce(old(xRot), xRot, XRotationChanged(xRot))
    {
      var a := NormalizeAngle(angle);
      if a != xRot {
        xRot := a;
        signals := signals + [XRotationChanged(a)];
      }
    }

    method SetYRotation(angle: int)
      requires Valid()
      modifies this`yRot, this`signals
      ensures Valid()
      ensures yRot == Normalized(angle)
      ensures signals == old(signals) + Announce(old(yRot), yRot, YRotationChanged(yRot))
    {
      var a := NormalizeAngle(angle);
      if a != yRot {
        yRot := a;
        signals := signals + [YRotationChanged(a)];
      }
    }

    method SetZRotation(angle: int)
      requires Valid()
      modifies this`zRot, this`signals
      ensures Valid()
      ensures zRot == Normalized(angle)
      ensures signals == old(signals) + Announce(old(zRot), zRot, ZRotationChanged(zRot))
    {
      var a := NormalizeAngle(angle);
      if a != zRot {
        zRot := a;
        signals := signals + [ZRotationChanged(a)];
      }
    }

    /** Stores the channel as given, with no clamping, and always signals it. */
    method SetRed(r: int)
      modifies this`red, this`signals
      ensures red == r && signals == old(signals) + [RChanged(r)]
    {
      red := r;
      signals := signals + [RChanged(red)];
    }

    method SetGreen(g: int)
      modifies this`green, this`signals
      ensures green == g && signals == old(signals) + [GChanged(g)]
    {
      green := g;
      signals := signals + [GChanged(green)];
    }

    method SetBlue(b: int)
      modifies this`blue, this`signals
      ensures blue == b && signals == old(signals) + [BChanged(b)]
    {
      blue := b;
      signals := signals + [BChanged(blue)];
    }

    function IsRunning(): bool
      reads this
    {
      running
    }

    /**
     * A two-state switch: a change starts the timer and signals
     * `rotationStarted`, or stops it and signals `rotationStopped`; asking for
     * the current state does nothing.
     */
    method SetRunning(r: bool)
      requires Valid()
      modifies this`running, this`timerActive, this`signals
      ensures Valid() && IsRunning() == r
      ensures old(running) == r ==> timerActive == old(timerActive) && signals == old(signals)
      ensures old(running) != r ==>
        timerActive == r && signals == old(signals) + [if r then RotationStarted else RotationStopped]
    {
      if running != r {
        running := r;
        if running {
          timerActive := true;
          signals := signals + [RotationStarted];
        } else {
          timerActive := false;
          signals := signals + [RotationStopped];
        }
      }
    }

    method MousePress(pos: Point)
      modifies this`lastPos
      ensures lastPos == pos
    {
      lastPos := pos;
    }

    /**
     * Dragging by (dx, dy) with the left button turns X by 8·dy and Y by 8·dx;
     * with only the right button, X by 8·dy and Z by 8·dx; each result is
     * normalised. The last position is always updated.
     */
    method MouseMove(pos: Point, leftButton: bool, rightButton: bool)
      requires Valid()
      modifies this`xRot, this`yRot, this`zRot, this`signals, this`lastPos
      ensures Valid() && lastPos == pos
      ensures var dx := pos.x - old(lastPos).x;
              var dy := pos.y - old(lastPos).y;
        if leftButton then
          && xRot == Normalized(old(xRot) + 8 * dy) && yRot == Normalized(old(yRot) + 8 * dx) && zRot == old(zRot)
          && signals == old(signals) + Announce(old(xRot), xRot, XRotationChanged(xRot))
                                     + Announce(old(yRot), yRot, YRotationChanged(yRot))
        else if rightButton then
          && xRot == Normalized(old(xRot) + 8 * dy) && zRot == Normalized(old(zRot) + 8 * dx) && yRot == old(yRot)
          && signals == old(signals) + Announce(old(xRot), xRot, XRotationChanged(xRot))
                                     + Announce(old(zRot), zRot, ZRotationChanged(zRot))
        else
          xRot == old(xRot) && yRot == old(yRot) && zRot == old(zRot) && signals == old(signals)
    {
      var dx := pos.x - lastPos.x;
      var dy := pos.y - lastPos.y;
      if leftButton {
        SetXRotation(xRot + 8 * dy);
        SetYRotation(yRot + 8 * dx);
      } else if rightButton {
        SetXRotation(xRot + 8 * dy);
        SetZRotation(zRot + 8 * dx);
      }
      lastPos := pos;
    }
  }
}
