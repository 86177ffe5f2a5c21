/**
 * The deterministic physics of `PongServer.step_physics`, `reset_ball` and
 * the time-step clamp and pause gate of `tick`, as functions over
 * `GameState`. `Step` is the whole of one `step_physics` call, built from
 * one function per stage in the order the source runs them; the class
 * method `Server.PongServer.StepPhysics` is proved to compute it.
 *
 * The two square roots of the paddle-collision speed shaping (`** 0.5`)
 * are taken from a parameter `sqrt`; lemmas that need its meaning assume
 * `IsSqrt(sqrt)`.
 */
module Physics {
  import opened Wrappers
  import opened Config
  import opened Model

  /** Python's two-argument `max`. */
  function Max(a: real, b: real): real {
    if b > a then b else a
  }

  /** Python's two-argument `min`. */
  function Min(a: real, b: real): real {
    if b < a then b else a
  }

  function Abs(x: real): real {
    if x < 0.0 then -x else x
  }

  /** `sqrt` agrees with the non-negative square root on every non-negative number. */
  ghost predicate IsSqrt(sqrt: real -> real) {
    forall x: real :: 0.0 <= x ==> 0.0 <= sqrt(x) && sqrt(x) * sqrt(x) == x
  }

  /** Smallest horizontal speed a paddle hit can leave: the square root of `MinVxSquared`. */
  const MinVx: real := 80.0

  // ---------------------------------------------------------------- paddles

  /** The velocity one player's flags ask for: up only, down only, or nothing (both or neither). */
  function PaddleVelocity(up: bool, down: bool): (v: real)
    ensures v == -PaddleSpeed <==> up && !down
    ensures v == PaddleSpeed <==> down && !up
    ensures v == 0.0 <==> up == down
  {
    if up && !down then -PaddleSpeed
    else if down && !up then PaddleSpeed
    else 0.0
  }

  /**
   * The velocity of the paddle on `side`: that of the connection holding the
   * seat, or 0 when the seat is empty (a disconnected paddle stops).
   */
  ghost function SeatVelocity(players: map<Conn, Player>, side: Side): real {
    if Holds(players, side) then
      var c :| c in players && players[c].side == side;
      PaddleVelocity(players[c].up, players[c].down)
    else 0.0
  }

  /**
   * The loop over `players.values()` at the top of `step_physics`. With at
   * most one holder per seat its result does not depend on the order in
   * which the connections are visited.
   */
  method ControlVelocities(players: map<Conn, Player>) returns (leftVel: real, rightVel: real)
    requires SeatsUnique(players)
    ensures leftVel == SeatVelocity(players, Left)
    ensures rightVel == SeatVelocity(players, Right)
  {
    leftVel, rightVel := 0.0, 0.0;
    var todo := players.Keys;
    while todo != {}
      invariant todo <= players.Keys
      invariant (exists c :: c in players && c !in todo && players[c].side == Left) ==> leftVel == SeatVelocity(players, Left)
      invariant (forall c :: c in players && c !in todo ==> players[c].side != Left) ==> leftVel == 0.0
      invariant (exists c :: c in players && c !in todo && players[c].side == Right) ==> rightVel == SeatVelocity(players, Right)
      invariant (forall c :: c in players && c !in todo ==> players[c].side != Right) ==> rightVel == 0.0
      decreases todo
    {
      var c :| c in todo;
      var pl := players[c];
      if pl.side == Left {
        if pl.up && !pl.down {
          leftVel := -PaddleSpeed;
        } else if pl.down && !pl.up {
          leftVel := PaddleSpeed;
        }
      } else if pl.side == Right {
        if pl.up && !pl.down {
          rightVel := -PaddleSpeed;
        } else if pl.down && !pl.up {
          rightVel := PaddleSpeed;
        }
      }
      todo := todo - {c};
    }
  }

  /** `max(0, min(HEIGHT - PADDLE_H, y))`. */
  function ClampPaddle(y: real): (r: real)
    ensures InBounds(r)
    ensures InBounds(y) ==> r == y
    ensures y < 0.0 ==> r == 0.0
    ensures PaddleMaxY < y ==> r == PaddleMaxY
  {
    Max(0.0, Min(PaddleMaxY, y))
  }

  /** Both paddles integrated over `dt` and clamped to the field; nothing else changes. */
  function MovePaddles(s: GameState, leftVel: real, rightVel: real, dt: real): (r: GameState)
    ensures PaddlesInBounds(r)
    ensures InBounds(s.leftY + leftVel * dt) ==> r.leftY == s.leftY + leftVel * dt
    ensures InBounds(s.rightY + rightVel * dt) ==> r.rightY == s.rightY + rightVel * dt
    ensures r == s.(leftY := r.leftY, rightY := r.rightY)
  {
    s.(leftY := ClampPaddle(s.leftY + leftVel * dt), rightY := ClampPaddle(s.rightY + rightVel * dt))
  }

  // ------------------------------------------------------------------- ball

  /** The ball integrated over `dt` at its current velocity; only its position changes. */
  function MoveBall(s: GameState, dt: real): (r: GameState)
    ensures r == s.(ballX := r.ballX, ballY := r.ballY)
    ensures r.ballX - s.ballX == s.vx * dt && r.ballY - s.ballY == s.vy * dt
  {
    s.(ballX := s.ballX + s.vx * dt, ballY := s.ballY + s.vy * dt)
  }

  /**
   * Top and bottom walls: a ball at or past an edge is put back on it and its
   * vertical velocity is negated; otherwise nothing changes.
   */
  function BounceWalls(s: GameState): (r: GameState)
    ensures 0.0 <= r.ballY <= FieldHeight - BallSize
    ensures s.ballY <= 0.0 ==> r.ballY == 0.0 && r.vy == -s.vy
    ensures 0.0 < s.ballY && FieldHeight <= s.ballY + BallSize ==> r.ballY == FieldHeight - BallSize && r.vy == -s.vy
    ensures 0.0 < s.ballY && s.ballY + BallSize < FieldHeight ==> r == s
    ensures r == s.(ballY := r.ballY, vy := r.vy)
  {
    if s.ballY <= 0.0 then s.(ballY := 0.0, vy := -s.vy)
    else if s.ballY + BallSize >= FieldHeight then s.(ballY := FieldHeight - BallSize, vy := -s.vy)
    else s
  }

  /** The nested `rects_intersect`: open overlap of two axis-aligned rectangles. */
  predicate RectsIntersect(x1: real, y1: real, w1: real, h1: real, x2: real, y2: real, w2: real, h2: real) {
    x1 < x2 + w2 && x1 + w1 > x2 && y1 < y2 + h2 && y1 + h1 > y2
  }

  /** Overlap does not depend on which rectangle is named first. */
  lemma RectsIntersectSymmetric(x1: real, y1: real, w1: real, h1: real, x2: real, y2: real, w2: real, h2: real)
    ensures RectsIntersect(x1, y1, w1, h1, x2, y2, w2, h2) <==> RectsIntersect(x2, y2, w2, h2, x1, y1, w1, h1)
  {
  }

  /** The comparisons are strict: rectangles that only touch along an edge do not intersect. */
  lemma TouchingRectsDoNotIntersect(x1: real, y1: real, w1: real, h1: real, x2: real, y2: real, w2: real, h2: real)
    requires x1 + w1 == x2 || x2 + w2 == x1 || y1 + h1 == y2 || y2 + h2 == y1
    ensures !RectsIntersect(x1, y1, w1, h1, x2, y2, w2, h2)
  {
  }

  /** The ball overlaps the left paddle while moving toward it. */
  predicate LeftHit(s: GameState) {
    RectsIntersect(s.ballX, s.ballY, BallSize, BallSize, EdgePad, s.leftY, PaddleWidth, PaddleHeight) && s.vx < 0.0
  }

  /** The ball overlaps the right paddle while moving toward it. */
  predicate RightHit(s: GameState) {
    RectsIntersect(s.ballX, s.ballY, BallSize, BallSize, FieldWidth - EdgePad - PaddleWidth, s.rightY, PaddleWidth, PaddleHeight) && s.vx > 0.0
  }

  /**
   * The two paddle guards: a hit needs the ball to overlap the paddle's
   * rectangle on both axes and to travel toward it, so the two guards need
   * opposite directions of travel and never hold together.
   */
  lemma HitGuards(s: GameState)
    ensures LeftHit(s) ==>
      && s.vx < 0.0
      && s.ballX < EdgePad + PaddleWidth && EdgePad < s.ballX + BallSize
      && s.ballY < s.leftY + PaddleHeight && s.leftY < s.ballY + BallSize
    ensures RightHit(s) ==>
      && 0.0 < s.vx
      && s.ballX < FieldWidth - EdgePad && FieldWidth - EdgePad - PaddleWidth < s.ballX + BallSize
      && s.ballY < s.rightY + PaddleHeight && s.rightY < s.ballY + BallSize
    ensures !(LeftHit(s) && RightHit(s))
  {
  }

  /** Where a hit lands on a paddle whose top is at `paddleY`: -1 at the top edge, +1 at the bottom. */
  function HitOffset(ballY: real, paddleY: real): real {
    ((ballY + BallSize / 2.0) - (paddleY + PaddleHeight / 2.0)) / (PaddleHeight / 2.0)
  }

  /**
   * Target speed after a hit: the length of the deflected velocity (the
   * reversed `vx` and the steered `vy`) plus `BALL_SPEED_INC`.
   */
  function TargetSpeed(vx: real, vy: real, sqrt: real -> real): real {
    sqrt(vx * vx + vy * vy) + BallSpeedInc
  }

  /** `vy` clamped to `[-max_vy, max_vy]` with `max_vy = spd * MAX_BALL_ANGLE * 2.2`. */
  function LimitVy(spd: real, vy: real): real {
    var maxVy := spd * MaxBallAngle * 2.2;
    Max(-maxVy, Min(maxVy, vy))
  }

  /** The squared horizontal speed that makes up the target speed, floored at `MinVxSquared`. */
  function VxSquared(spd: real, vy: real): real {
    Max(spd * spd - vy * vy, MinVxSquared)
  }

  /**
   * Speed shaping after a hit, on the reversed `vx` and the steered `vy`:
   * returns the new horizontal magnitude and the new `vy`.
   */
  function Shape(vx: real, vy: real, sqrt: real -> real): (real, real) {
    var spd := TargetSpeed(vx, vy, sqrt);
    var vy' := LimitVy(spd, vy);
    (sqrt(VxSquared(spd, vy')), vy')
  }

  /** The steered `vy` of a left-paddle hit: `abs(vx) * MAX_BALL_ANGLE * (offset * 1.1)`. */
  function SteerLeft(s: GameState): real {
    Abs(s.vx) * MaxBallAngle * (HitOffset(s.ballY, s.leftY) * 1.1)
  }

  /** The steered `vy` of a right-paddle hit: the same with the sign flipped. */
  function SteerRight(s: GameState): real {
    -Abs(s.vx) * MaxBallAngle * (HitOffset(s.ballY, s.rightY) * 1.1)
  }

  /**
   * Left paddle: on a hit the ball is put on the paddle's face, and only the
   * ball's x and velocity change; without a hit nothing changes.
   */
  function CollideLeft(s: GameState, sqrt: real -> real): (r: GameState)
    ensures !LeftHit(s) ==> r == s
    ensures LeftHit(s) ==> r.ballX == EdgePad + PaddleWidth
    ensures r == s.(ballX := r.ballX, vx := r.vx, vy := r.vy)
  {
    if LeftHit(s) then
      var shaped := Shape(-s.vx, SteerLeft(s), sqrt);
      s.(ballX := EdgePad + PaddleWidth, vx := shaped.0, vy := shaped.1)
    else s
  }

  /** Right paddle: the mirror image of `CollideLeft`, with the face on the ball's right edge. */
  function CollideRight(s: GameState, sqrt: real -> real): (r: GameState)
    ensures !RightHit(s) ==> r == s
    ensures RightHit(s) ==> r.ballX + BallSize == FieldWidth - EdgePad - PaddleWidth
    ensures r == s.(ballX := r.ballX, vx := r.vx, vy := r.vy)
  {
    if RightHit(s) then
      var shaped := Shape(-s.vx, SteerRight(s), sqrt);
      s.(ballX := FieldWidth - EdgePad - PaddleWidth - BallSize, vx := -shaped.0, vy := shaped.1)
    else s
  }

  /** Squaring is strictly increasing on the non-negative reals. */
  lemma SquareLess(a: real, b: real)
    ensures 0.0 <= a && a < b ==> a * a < b * b
  {
    if 0.0 <= a && a < b {
      assert a * (b - a) >= 0.0;
      assert b * (b - a) > 0.0;
    }
  }

  /** `m` is no larger than the root of any `x >= m * m`. */
  lemma SqrtAtLeast(sqrt: real -> real, x: real, m: real)
    requires IsSqrt(sqrt)
    requires 0.0 <= m && m * m <= x
    ensures m <= sqrt(x)
  {
    var r := sqrt(x);
    assert 0.0 <= r && r * r == x;
    SquareLess(r, m);
  }

  /**
   * What speed shaping guarantees: the target speed is at least
   * `BALL_SPEED_INC`, the new `vy` lies within the angle limit, the
   * horizontal magnitude is at least `MinVx`, and the new speed reaches the
   * target exactly unless the floor on the horizontal term applies (then it
   * exceeds it).
   */
  lemma ShapeSpeed(vx: real, vy: real, sqrt: real -> real)
    requires IsSqrt(sqrt)
    ensures var spd := TargetSpeed(vx, vy, sqrt);
            var shaped := Shape(vx, vy, sqrt);
            && BallSpeedInc <= spd
            && -spd * MaxBallAngle * 2.2 <= shaped.1 <= spd * MaxBallAngle * 2.2
            && MinVx <= shaped.0
            && spd * spd <= shaped.0 * shaped.0 + shaped.1 * shaped.1
            && (MinVxSquared <= spd * spd - shaped.1 * shaped.1 ==> shaped.0 * shaped.0 + shaped.1 * shaped.1 == spd * spd)
            && (spd * spd - shaped.1 * shaped.1 < MinVxSquared ==> spd * spd < shaped.0 * shaped.0 + shaped.1 * shaped.1)
  {
    var sq := vx * vx + vy * vy;
    assert 0.0 <= vx * vx && 0.0 <= vy * vy;
    assert 0.0 <= sqrt(sq);
    var spd := TargetSpeed(vx, vy, sqrt);
    var vy' := LimitVy(spd, vy);
    var vxSq := VxSquared(spd, vy');
    assert Shape(vx, vy, sqrt) == (sqrt(vxSq), vy');
    SqrtAtLeast(sqrt, vxSq, MinVx);
    assert sqrt(vxSq) * sqrt(vxSq) == vxSq;
  }

  /**
   * The paddles steer the ball in opposite senses: a ball that moves and
   * lands below a paddle's centre goes downward (`vy > 0`) off the left
   * paddle but upward off the right one, and above the centre the other way.
   */
  lemma PaddlesSteerOppositely(s: GameState)
    requires s.vx != 0.0
    ensures HitOffset(s.ballY, s.leftY) > 0.0 ==> SteerLeft(s) > 0.0
    ensures HitOffset(s.ballY, s.leftY) < 0.0 ==> SteerLeft(s) < 0.0
    ensures HitOffset(s.ballY, s.rightY) > 0.0 ==> SteerRight(s) < 0.0
    ensures HitOffset(s.ballY, s.rightY) < 0.0 ==> SteerRight(s) > 0.0
  {
    var k := Abs(s.vx) * MaxBallAngle;
    assert k > 0.0;
    var ol, or := HitOffset(s.ballY, s.leftY) * 1.1, HitOffset(s.ballY, s.rightY) * 1.1;
    assert SteerLeft(s) == k * ol;
    assert SteerRight(s) == -(k * or);
    ProductSign(k, ol);
    ProductSign(k, or);
  }

  /**
   * The outgoing `vy` after a hit keeps the sign of the steered one, since
   * the limit `max_vy` is positive: below the left paddle's centre the ball
   * leaves downward, below the right paddle's centre upward.
   */
  lemma HitSendsBallBySteer(s: GameState, sqrt: real -> real)
    requires IsSqrt(sqrt)
    ensures LeftHit(s) && HitOffset(s.ballY, s.leftY) > 0.0 ==> CollideLeft(s, sqrt).vy > 0.0
    ensures LeftHit(s) && HitOffset(s.ballY, s.leftY) < 0.0 ==> CollideLeft(s, sqrt).vy < 0.0
    ensures RightHit(s) && HitOffset(s.ballY, s.rightY) > 0.0 ==> CollideRight(s, sqrt).vy < 0.0
    ensures RightHit(s) && HitOffset(s.ballY, s.rightY) < 0.0 ==> CollideRight(s, sqrt).vy > 0.0
  {
    if s.vx != 0.0 {
      PaddlesSteerOppositely(s);
    }
    ShapeSpeed(-s.vx, SteerLeft(s), sqrt);
    ShapeSpeed(-s.vx, SteerRight(s), sqrt);
    LimitKeepsSign(TargetSpeed(-s.vx, SteerLeft(s), sqrt), SteerLeft(s));
    LimitKeepsSign(TargetSpeed(-s.vx, SteerRight(s), sqrt), SteerRight(s));
  }

  /** Clamping to `[-max_vy, max_vy]` with a positive target speed keeps the sign of `vy`. */
  lemma LimitKeepsSign(spd: real, vy: real)
    requires spd > 0.0
    ensures vy > 0.0 ==> LimitVy(spd, vy) > 0.0
    ensures vy < 0.0 ==> LimitVy(spd, vy) < 0.0
  {
  }

  /** The sign of a product with a positive factor is the sign of the other factor. */
  lemma ProductSign(k: real, x: real)
    requires k > 0.0
    ensures x > 0.0 ==> k * x > 0.0
    ensures x < 0.0 ==> k * x < 0.0
  {
  }

  /** The horizontal magnitude left by speed shaping is never below `MinVx`. */
  lemma ShapeMagnitude(vx: real, vy: real, sqrt: real -> real)
    requires IsSqrt(sqrt)
    ensures MinVx <= Shape(vx, vy, sqrt).0
  {
    var spd := TargetSpeed(vx, vy, sqrt);
    var vxSq := VxSquared(spd, LimitVy(spd, vy));
    SqrtAtLeast(sqrt, vxSq, MinVx);
  }

  /** A left-paddle hit sends the ball rightward, away from the paddle, at least `MinVx` fast. */
  lemma LeftHitReturnsBall(s: GameState, sqrt: real -> real)
    requires IsSqrt(sqrt) && LeftHit(s)
    ensures MinVx <= CollideLeft(s, sqrt).vx
  {
    ShapeMagnitude(-s.vx, SteerLeft(s), sqrt);
  }

  /** The ball cannot strike both paddles in one step: after a left hit it sits far from the right paddle. */
  lemma AtMostOnePaddleHit(s: GameState, sqrt: real -> real)
    requires LeftHit(s)
    ensures !RightHit(CollideLeft(s, sqrt))
  {
  }

  /** A right-paddle hit sends the ball leftward, away from the paddle, at least `MinVx` fast. */
  lemma RightHitReturnsBall(s: GameState, sqrt: real -> real)
    requires IsSqrt(sqrt) && RightHit(s)
    ensures CollideRight(s, sqrt).vx <= -MinVx
  {
    ShapeMagnitude(-s.vx, SteerRight(s), sqrt);
  }

  // ---------------------------------------------------------- scoring, serve

  predicate BallCentred(s: GameState) {
    s.ballX + BallSize / 2.0 == FieldWidth / 2.0 && s.ballY + BallSize / 2.0 == FieldHeight / 2.0
  }

  /**
   * The serve direction of `reset_ball`: toward the named side, or, when no
   * side is named, a coin that stands for the parity of the clock.
   */
  function ServeDirection(toward: Option<Side>, coin: bool): (d: real)
    ensures d == 1.0 || d == -1.0
    ensures toward == Some(Right) ==> d == 1.0
    ensures toward == Some(Left) ==> d == -1.0
  {
    if toward == Some(Right) then 1.0
    else if toward == Some(Left) then -1.0
    else if coin then 1.0 else -1.0
  }

  /**
   * `reset_ball`: the ball goes back to the centre at the starting speed,
   * toward the requested side, with a small downward drift; only the ball
   * changes.
   */
  function ResetBall(s: GameState, toward: Option<Side>, coin: bool): (r: GameState)
    ensures BallCentred(r)
    ensures r.vx == BallSpeedStart || r.vx == -BallSpeedStart
    ensures toward == Some(Left) ==> r.vx < 0.0
    ensures toward == Some(Right) ==> 0.0 < r.vx
    ensures r.vy == BallSpeedStart * 0.1
    ensures r == s.(ballX := r.ballX, ballY := r.ballY, vx := r.vx, vy := r.vy)
  {
    s.(ballX := FieldWidth / 2.0 - BallSize / 2.0,
       ballY := FieldHeight / 2.0 - BallSize / 2.0,
       vx := BallSpeedStart * ServeDirection(toward, coin),
       vy := BallSpeedStart * 0.1)
  }

  /**
   * Goal lines: past the left edge the right player scores and the ball is
   * served toward the left; past the right edge the left player scores and
   * the ball is served toward the right. At most one side scores.
   */
  function ScorePoint(s: GameState): (r: GameState)
    ensures s.ballX <= 0.0 ==>
      r.scoreR == s.scoreR + 1 && r.scoreL == s.scoreL && BallCentred(r) && r.vx == -BallSpeedStart && r.vy == BallSpeedStart * 0.1
    ensures 0.0 < s.ballX && FieldWidth <= s.ballX + BallSize ==>
      r.scoreL == s.scoreL + 1 && r.scoreR == s.scoreR && BallCentred(r) && r.vx == BallSpeedStart && r.vy == BallSpeedStart * 0.1
    ensures 0.0 < s.ballX && s.ballX + BallSize < FieldWidth ==> r == s
    ensures s.scoreL <= r.scoreL && s.scoreR <= r.scoreR && r.scoreL + r.scoreR <= s.scoreL + s.scoreR + 1
    ensures r.leftY == s.leftY && r.rightY == s.rightY && r.paused == s.paused
    ensures r.event == s.event && r.broadcastMsg == s.broadcastMsg
  {
    if s.ballX <= 0.0 then ResetBall(s.(scoreR := s.scoreR + 1), Some(Left), false)
    else if s.ballX + BallSize >= FieldWidth then ResetBall(s.(scoreL := s.scoreL + 1), Some(Right), false)
    else s
  }

  // ------------------------------------------------------------ whole step

  /**
   * One `step_physics(dt)` given the two paddle velocities its loop finds:
   * paddles, ball, walls, left paddle, right paddle, goal lines.
   */
  function Step(s: GameState, leftVel: real, rightVel: real, dt: real, sqrt: real -> real): (r: GameState)
    ensures PaddlesInBounds(r)
    ensures 0.0 <= r.ballY <= FieldHeight - BallSize
    ensures s.scoreL <= r.scoreL && s.scoreR <= r.scoreR && r.scoreL + r.scoreR <= s.scoreL + s.scoreR + 1
    ensures r.paused == s.paused && r.event == s.event && r.broadcastMsg == s.broadcastMsg
  {
    var moved := MoveBall(MovePaddles(s, leftVel, rightVel, dt), dt);
    ScorePoint(CollideRight(CollideLeft(BounceWalls(moved), sqrt), sqrt))
  }

  /**
   * A step in which the integrated ball meets no wall, paddle or goal line
   * just moves it: position advanced by velocity times `dt`, velocity and
   * scores as they were.
   */
  lemma QuietStepMovesBall(s: GameState, leftVel: real, rightVel: real, dt: real, sqrt: real -> real)
    requires var m := MoveBall(MovePaddles(s, leftVel, rightVel, dt), dt);
             0.0 < m.ballY && m.ballY + BallSize < FieldHeight && !LeftHit(m) && !RightHit(m)
             && 0.0 < m.ballX && m.ballX + BallSize < FieldWidth
    ensures var r := Step(s, leftVel, rightVel, dt, sqrt);
            && r.ballX == s.ballX + s.vx * dt && r.ballY == s.ballY + s.vy * dt
            && r.vx == s.vx && r.vy == s.vy
            && r.scoreL == s.scoreL && r.scoreR == s.scoreR
  {
  }

  /** `max(0.0, min(1.0/30.0, elapsed))`: the time step `tick` hands to the physics. */
  function ClampDt(elapsed: real): (dt: real)
    ensures 0.0 <= dt <= MaxDt
    ensures 0.0 <= elapsed <= MaxDt ==> dt == elapsed
    ensures elapsed < 0.0 ==> dt == 0.0
    ensures MaxDt < elapsed ==> dt == MaxDt
  {
    Max(0.0, Min(MaxDt, elapsed))
  }

  /** The state change of one `tick`: frozen while paused, else one step over the clamped time. */
  function TickState(s: GameState, leftVel: real, rightVel: real, elapsed: real, sqrt: real -> real): (r: GameState)
    ensures s.paused ==> r == s
    ensures r.paused == s.paused
    ensures !s.paused ==> PaddlesInBounds(r)
    ensures s.scoreL <= r.scoreL && s.scoreR <= r.scoreR && r.scoreL + r.scoreR <= s.scoreL + s.scoreR + 1
  {
    if s.paused then s else Step(s, leftVel, rightVel, ClampDt(elapsed), sqrt)
  }

  /** Consecutive ticks with no message handled in between; `elapsed[k]` is the clock gap before tick `k`. */
  function Run(s: GameState, leftVel: real, rightVel: real, elapsed: seq<real>, sqrt: real -> real): GameState
    decreases |elapsed|
  {
    if |elapsed| == 0 then s
    else Run(TickState(s, leftVel, rightVel, elapsed[0], sqrt), leftVel, rightVel, elapsed[1..], sqrt)
  }

  /** Total simulated time of a run of unpaused ticks. */
  function TotalDt(elapsed: seq<real>): (t: real)
    ensures 0.0 <= t <= |elapsed| as real * MaxDt
    decreases |elapsed|
  {
    if |elapsed| == 0 then 0.0 else ClampDt(elapsed[0]) + TotalDt(elapsed[1..])
  }

  /** Over any run of ticks scores never go down, and at most one point is scored per tick. */
  lemma {:induction false} RunScoresCountUp(s: GameState, leftVel: real, rightVel: real, elapsed: seq<real>, sqrt: real -> real)
    ensures var r := Run(s, leftVel, rightVel, elapsed, sqrt);
            && s.scoreL <= r.scoreL && s.scoreR <= r.scoreR
            && r.scoreL + r.scoreR <= s.scoreL + s.scoreR + |elapsed|
            && r.paused == s.paused
            && (PaddlesInBounds(s) ==> PaddlesInBounds(r))
    decreases |elapsed|
  {
    if |elapsed| > 0 {
      var next := TickState(s, leftVel, rightVel, elapsed[0], sqrt);
      RunScoresCountUp(next, leftVel, rightVel, elapsed[1..], sqrt);
    }
  }

  /** While paused, any number of ticks leaves the whole state as it was. */
  lemma {:induction false} PausedRunFreezes(s: GameState, leftVel: real, rightVel: real, elapsed: seq<real>, sqrt: real -> real)
    requires s.paused
    ensures Run(s, leftVel, rightVel, elapsed, sqrt) == s
    decreases |elapsed|
  {
    if |elapsed| > 0 {
      PausedRunFreezes(s, leftVel, rightVel, elapsed[1..], sqrt);
    }
  }

  /**
   * A left player holding "up" alone over unpaused ticks moves the paddle up
   * by `PADDLE_SPEED` times the total simulated time, stopping at the top.
   */
  lemma {:induction false} HeldUpRisesSteadily(s: GameState, rightVel: real, elapsed: seq<real>, sqrt: real -> real)
    requires !s.paused && InBounds(s.leftY)
    ensures Run(s, -PaddleSpeed, rightVel, elapsed, sqrt).leftY == Max(0.0, s.leftY - PaddleSpeed * TotalDt(elapsed))
    decreases |elapsed|
  {
    if |elapsed| > 0 {
      var dt := ClampDt(elapsed[0]);
      var next := TickState(s, -PaddleSpeed, rightVel, elapsed[0], sqrt);
      assert next.leftY == ClampPaddle(s.leftY + -PaddleSpeed * dt);
      assert next.leftY == Max(0.0, s.leftY - PaddleSpeed * dt);
      assert Run(s, -PaddleSpeed, rightVel, elapsed, sqrt) == Run(next, -PaddleSpeed, rightVel, elapsed[1..], sqrt);
      HeldUpRisesSteadily(next, rightVel, elapsed[1..], sqrt);
      var rest := TotalDt(elapsed[1..]);
      assert TotalDt(elapsed) == dt + rest;
      assert PaddleSpeed * (dt + rest) == PaddleSpeed * dt + PaddleSpeed * rest;
    }
  }
}
