/**
 * `PongServer`: the connection registry (`clients`, `players`), the game
 * record and the clock reading of the previous tick, updated in place by
 * the server's operations. Each method follows the source statement by
 * statement and is proved to agree with the specification functions of
 * `Model`, `Physics` and `Commands`, whose properties are proved there.
 */
module Server {
  import opened Wrappers
  import opened Config
  import opened PyJson
  import opened Model
  import opened Physics
  import opened Commands

  class PongServer {
    var clients: set<Conn>
    var players: map<Conn, Player>
    var state: GameState
    var lastTime: real

    /**
     * The server's invariant: the client set and the player table name the
     * same connections, each paddle has at most one controller, and both
     * paddles lie on the field.
     */
    ghost predicate Valid()
      reads this
    {
      clients == players.Keys && SeatsUnique(players) && PaddlesInBounds(state)
    }

    /** `PongServer()`: nobody connected, a fresh game, the clock read as `now`. */
    constructor (now: real)
      ensures Valid()
      ensures clients == {} && players == map[] && state == InitialState && lastTime == now
    {
      clients := {};
      players := map[];
      state := InitialState;
      lastTime := now;
    }

    /**
     * `register(ws)`: adds the connection with the first free seat and
     * returns the `role` message the source sends back to it.
     */
    method Register(ws: Conn) returns (reply: Outbound)
      requires Valid()
      modifies this
      ensures Valid()
      ensures clients == old(clients) + {ws}
      ensures players == old(players)[ws := NewPlayer(AssignRole(old(players)))]
      ensures reply == RoleMsg(AssignRole(old(players)))
      ensures state == old(state) && lastTime == old(lastTime)
    {
      clients := clients + {ws};
      var role := AssignRole(players);
      players := players[ws := NewPlayer(role)];
      reply := RoleMsg(role);
      RegisterKeepsSeatsUnique(old(players), ws);
    }

    /** `unregister(ws)`: removes that connection and nothing else. */
    method Unregister(ws: Conn)
      requires Valid()
      modifies this
      ensures Valid()
      ensures clients == old(clients) - {ws}
      ensures players == old(players) - {ws}
      ensures state == old(state) && lastTime == old(lastTime)
    {
      clients := clients - {ws};
      players := players - {ws};
    }

    /** `reset_ball(toward)`: overwrites the four ball fields. */
    method ResetBall(toward: Option<Side>, coin: bool)
      modifies this
      ensures state == Physics.ResetBall(old(state), toward, coin)
      ensures clients == old(clients) && players == old(players) && lastTime == old(lastTime)
    {
      state := state.(ballX := FieldWidth / 2.0 - BallSize / 2.0);
      state := state.(ballY := FieldHeight / 2.0 - BallSize / 2.0);
      var dirX := if toward == Some(Right) then 1.0 else if toward == Some(Left) then -1.0 else if coin then 1.0 else -1.0;
      state := state.(vx := BallSpeedStart * dirX);
      state := state.(vy := BallSpeedStart * 0.1);
    }

    /**
     * `handle_message(ws, data)`: updates the sender's record or the game
     * record in place and returns what the source sends (a reply to the
     * sender or a message to every client), in agreement with `Handle`.
     */
    method HandleMessage(ws: Conn, data: map<string, Json>) returns (sent: Delivery)
      requires Valid()
      modifies this
      ensures Valid()
      ensures Outcome(players, state, sent) == Handle(old(players), old(state), ws, data)
      ensures clients == old(clients) && lastTime == old(lastTime)
    {
      HandleKeepsSeatsUnique(players, state, ws, data);
      sent := Silent;
      if ws !in players {
        return;
      }
      var p := players[ws];
      var t := Get(data, "type");
      if t == JStr("input") {
        players := players[ws := p.(up := Truthy(Get(data, "up")), down := Truthy(Get(data, "down")))];
      } else if t == JStr("pause") {
        if p.side == Left || p.side == Right || p.isAdmin {
          state := state.(paused := !state.paused);
        }
      } else if t == JStr("admin_auth") {
        var code := Str(GetOr(data, "code", JStr("")));
        if code == AdminCode {
          players := players[ws := p.(isAdmin := true)];
          sent := Reply(AdminResult(true));
        } else {
          sent := Reply(AdminResult(false));
        }
      } else if t == JStr("admin") {
        if !p.isAdmin {
          return;
        }
        var action := Get(data, "action");
        if action == JStr("broadcast") {
          var msg := Prefix(Str(GetOr(data, "message", JStr(""))), BroadcastLimit);
          state := state.(broadcastMsg := Some(msg));
          sent := FanOut(BroadcastNotice(msg));
        } else if action == JStr("event") {
          var ev := Get(data, "event");
          if ev == JNull || ev == JStr("") || ev == JStr("clear") {
            state := state.(event := None);
          } else {
            state := state.(event := Some(ev));
          }
          sent := FanOut(EventNotice(state.event));
        } else if action == JStr("reset_scores") {
          state := state.(scoreL := 0);
          state := state.(scoreR := 0);
        } else if action == JStr("pause_toggle") {
          state := state.(paused := !state.paused);
        }
      }
    }

    /**
     * `step_physics(dt)`: finds the paddle velocities from the controlling
     * connections and moves paddles and ball in place, then runs the wall,
     * paddle and goal-line blocks (each a method below), in agreement with
     * `Step`.
     */
    method StepPhysics(dt: real, sqrt: real -> real)
      requires Valid()
      modifies this
      ensures Valid()
      ensures state == Step(old(state), SeatVelocity(players, Left), SeatVelocity(players, Right), dt, sqrt)
      ensures players == old(players) && clients == old(clients) && lastTime == old(lastTime)
    {
      ghost var s0 := state;
      var leftVel, rightVel := ControlVelocities(players);

      state := state.(leftY := state.leftY + leftVel * dt);
      state := state.(rightY := state.rightY + rightVel * dt);
      state := state.(leftY := Max(0.0, Min(PaddleMaxY, state.leftY)));
      state := state.(rightY := Max(0.0, Min(PaddleMaxY, state.rightY)));

      state := state.(ballX := state.ballX + state.vx * dt);
      state := state.(ballY := state.ballY + state.vy * dt);
      ghost var moved := state;
      assert moved == MoveBall(MovePaddles(s0, leftVel, rightVel, dt), dt);

      WallBounce();
      LeftPaddleHit(sqrt);
      RightPaddleHit(sqrt);
      GoalLines();
    }

    /** The wall block of `step_physics`: top and bottom bounces. */
    method WallBounce()
      modifies this
      ensures state == BounceWalls(old(state))
      ensures clients == old(clients) && players == old(players) && lastTime == old(lastTime)
    {
      if state.ballY <= 0.0 {
        state := state.(ballY := 0.0);
        state := state.(vy := -state.vy);
      } else if state.ballY + BallSize >= FieldHeight {
        state := state.(ballY := FieldHeight - BallSize);
        state := state.(vy := -state.vy);
      }
    }

    /**
     * The left-paddle block of `step_physics`: on a hit the ball is put on
     * the paddle's face, `vy` is steered by the hit offset, `vx` reversed,
     * and the speed shaped, each step by the `Physics` function that names
     * that expression. The ball's velocity is worked on in locals and
     * written back once.
     */
    method LeftPaddleHit(sqrt: real -> real)
      modifies this
      ensures state == CollideLeft(old(state), sqrt)
      ensures clients == old(clients) && players == old(players) && lastTime == old(lastTime)
    {
      if RectsIntersect(state.ballX, state.ballY, BallSize, BallSize, EdgePad, state.leftY, PaddleWidth, PaddleHeight) && state.vx < 0.0 {
        var vy := SteerLeft(state);
        var vx := -state.vx;
        var spd := TargetSpeed(vx, vy, sqrt);
        vy := LimitVy(spd, vy);
        var vxSq := VxSquared(spd, vy);
        vx := sqrt(vxSq);
        state := state.(ballX := EdgePad + PaddleWidth, vx := vx, vy := vy);
      }
    }

    /** The right-paddle block of `step_physics`, the mirror image of `LeftPaddleHit`. */
    method RightPaddleHit(sqrt: real -> real)
      modifies this
      ensures state == CollideRight(old(state), sqrt)
      ensures clients == old(clients) && players == old(players) && lastTime == old(lastTime)
    {
      if RectsIntersect(state.ballX, state.ballY, BallSize, BallSize, FieldWidth - EdgePad - PaddleWidth, state.rightY, PaddleWidth, PaddleHeight) && state.vx > 0.0 {
        var vy := SteerRight(state);
        var vx := -state.vx;
        var spd := TargetSpeed(vx, vy, sqrt);
        vy := LimitVy(spd, vy);
        var vxSq := VxSquared(spd, vy);
        vx := -sqrt(vxSq);
        state := state.(ballX := FieldWidth - EdgePad - PaddleWidth - BallSize, vx := vx, vy := vy);
      }
    }

    /** The scoring block of `step_physics`: a point and a re-serve at either goal line. */
    method GoalLines()
      modifies this
      ensures state == ScorePoint(old(state))
      ensures clients == old(clients) && players == old(players) && lastTime == old(lastTime)
    {
      if state.ballX <= 0.0 {
        state := state.(scoreR := state.scoreR + 1);
        ResetBall(Some(Left), false);
      } else if state.ballX + BallSize >= FieldWidth {
        state := state.(scoreL := state.scoreL + 1);
        ResetBall(Some(Right), false);
      }
    }

    /**
     * `tick(now)`: clamps the time since the previous tick, records `now`,
     * runs one physics step unless paused, and returns the `state` message
     * for every client.
     */
    method Tick(now: real, sqrt: real -> real) returns (sent: Delivery)
      requires Valid()
      modifies this
      ensures Valid()
      ensures state == TickState(old(state), SeatVelocity(players, Left), SeatVelocity(players, Right), now - old(lastTime), sqrt)
      ensures lastTime == now && players == old(players) && clients == old(clients)
      ensures sent == FanOut(StatePayload(state))
    {
      var dt := Max(0.0, Min(MaxDt, now - lastTime));
      lastTime := now;
      if !state.paused {
        StepPhysics(dt, sqrt);
      }
      sent := FanOut(StatePayload(state));
    }
  }
}
