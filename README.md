# Multiplayer Pong server — game core in Dafny

This project models the authoritative game logic of the Multiplayer Pong
server (`server.py`, class `PongServer`). The server keeps three things:

- a registry of connected clients;
- a player record per connection (seat, up/down flags, admin flag);
- one `GameState` record: the paddles, the ball, the scores, the pause flag,
  the event label and the last broadcast text.

Clients are seated first come, first served. The server handles JSON commands
(`input`, `pause`, `admin_auth`, `admin`) and advances the simulation on
every tick.

The model is split into modules:

- `Wrappers`: an `Option` type.
- `Config`: the field geometry and speed constants, plus the admin code.
- `PyJson`: what the handler observes of a decoded JSON payload. That is
  Python truthiness, `str()`, `dict.get` with and without a default, and
  slicing.
- `Model`: the `Player` and `GameState` records and the seat rule
  `assign_role`, with lemmas about registration.
- `Physics`: each stage of `step_physics` as a function on `GameState`, plus
  `reset_ball`, the `dt` clamp and pause gate of `tick`, and runs of many
  ticks. It also holds the loop that picks the paddle velocities.
- `Commands`: `handle_message` as the function `Handle`, with one lemma per
  kind of message.
- `Server`: the class `PongServer` with fields `clients`, `players`, `state`
  and `lastTime`. Its methods update these in place, statement by statement
  as the source does. Each method is proved to agree with the function that
  specifies it, and the invariant `Valid()` is kept throughout:
  - the client set equals the player table's keys;
  - each paddle has at most one holder;
  - both paddles lie on the field.

The wall clock is an input, and so is the square root used after a paddle
hit:

- `Tick` takes the current time `now`.
- `ResetBall` takes a `coin` that stands for the clock parity the source
  uses when no serve direction is named.
- The collision code takes a function `sqrt`. Lemmas about it assume
  `IsSqrt(sqrt)`, i.e. `r >= 0 && r * r == x`.

Several behaviours of the code are easy to misread, and the model follows
the code in each:

- A seat freed by a disconnect is handed to the next registrant, because
  `assign_role` looks only at the current players.
- After a paddle hit, the target speed is the length of the deflected
  velocity plus `BALL_SPEED_INC`, not the speed before the hit plus the
  increment.
- A hit in the paddle's exact centre leaves `vy == 0`.
- The right paddle steers the opposite way from the left one. A hit below
  the left paddle's centre sends the ball downward, but a hit below the
  right paddle's centre sends it upward (`Physics.HitSendsBallBySteer`).
- A payload that is valid JSON but not an object (`[]`, `42`) is not
  dropped. `data.get` raises, the error ends the connection's receive loop,
  and its `finally` unregisters the sender, so a paddle holder loses the
  connection and the seat. This model covers object payloads only (see
  "Left out").

## Model

| member | source | states |
|---|---|---|
| Model.NewPlayer | server.py:39-45 | A new player record has the given side, and its up, down and admin flags are false. |
| Model.AssignRole | server.py:68-76 | Left is returned only if no current player holds left. Right is returned only if left is held and right is not. Spectator is returned if and only if both seats are held. |
| Model.RegisterKeepsSeatsUnique | server.py:78-81 | Registering never gives a paddle a second holder. |
| Model.RegisterFillsSeatsInOrder | server.py:68-81 | After a registration, left is held. Right is held too if left already was. When both were held, the next registrant becomes a spectator. |
| Model.FirstComeRoles | server.py:68-81 | Starting from no connections, the first three registrants get left, right and spectator, in that order. |
| Model.VacatedLeftSeatReused | server.py:68-89 | Once the left player unregisters, `assign_role` answers left again. |
| Model.VacatedRightSeatReused | server.py:68-89 | Once the right player unregisters while left is still held, `assign_role` answers right. |
| PyJson.FalsyValues | server.py:123-124 | `bool(v)` is false exactly for `None`, `False`, `0`, `""` and falsy floats, arrays or objects. |
| PyJson.IntegerTextNotOpaque | server.py:132 | No text made of digits and minus signs, which includes every `str()` of an integer, is the `str()` of a float, array or object. |
| PyJson.Get | server.py:120 | `data.get(key)` returns the stored value, or `None` when the key is missing. |
| PyJson.GetOr | server.py:132 | `data.get(key, default)` returns the stored value, or the default when the key is missing. |
| PyJson.Natural | server.py:132 | The rendering of a natural number is a non-empty string of decimal digits, at least two digits long from 10 upward. |
| PyJson.Decimal | server.py:132 | `str(i)` is non-empty and starts with `-` exactly when `i` is negative. |
| PyJson.NaturalInjective | server.py:132 | Different natural numbers render as different digit strings (proved by induction). |
| PyJson.DecimalInjective | server.py:132 | `str` on integers is injective. |
| PyJson.Prefix | server.py:144 | `s[:n]` is a prefix of `s` whose length is `min(len(s), n)`. |
| Physics.PaddleVelocity | server.py:169-177 | The velocity is `-PADDLE_SPEED` iff up and not down, `+PADDLE_SPEED` iff down and not up, and 0 iff both or neither flag is set. |
| Physics.ControlVelocities | server.py:163-177 | The loop over all players yields, for each seat, the velocity its holder's flags ask for, or 0 for an empty seat. With unique seats, visiting order does not matter. |
| Physics.ClampPaddle | server.py:181-182 | The result lies in `[0, HEIGHT-PADDLE_H]`. An in-range value is kept, and values past either end go to that end. |
| Physics.MovePaddles | server.py:179-182 | Both paddles end up on the field. An in-range integrated position is taken exactly. Nothing but the two paddle positions changes. |
| Physics.MoveBall | server.py:185-186 | The ball advances by `vx*dt` horizontally and `vy*dt` vertically. Nothing else changes. |
| Physics.BounceWalls | server.py:188-194 | `ball_y` ends up in `[0, HEIGHT-BALL_SIZE]`. At or past the top, `ball_y` becomes 0 and `vy` is negated. At or past the bottom, `ball_y` becomes `HEIGHT-BALL_SIZE` and `vy` is negated. Otherwise nothing changes. Only `ball_y` and `vy` are written. |
| Physics.RectsIntersectSymmetric | server.py:201-202 | `rects_intersect` gives the same answer with the two rectangles swapped. |
| Physics.TouchingRectsDoNotIntersect | server.py:201-202 | Rectangles that only touch along an edge do not intersect, because the comparisons are strict. |
| Physics.HitGuards | server.py:204-220 | A left hit needs the ball to overlap the left paddle on both axes while moving left. A right hit needs overlap with the right paddle while moving right. The two guards never hold together. |
| Physics.PaddlesSteerOppositely | server.py:207-224 | For a moving ball, landing below the left paddle's centre gives `vy > 0` and above it gives `vy < 0`. For the right paddle the signs are reversed. |
| Physics.LimitKeepsSign | server.py:214-215 | With a positive target speed, clamping `vy` to `±max_vy` keeps its sign. |
| Physics.HitSendsBallBySteer | server.py:204-230 | After a left hit below the paddle's centre, the ball leaves with `vy > 0`, and above the centre with `vy < 0`. After a right hit the signs are reversed. |
| Physics.CollideLeft | server.py:204-217 | Without a hit, nothing changes. On a hit, the ball is placed on the left paddle's face. Only `ball_x`, `vx` and `vy` change. |
| Physics.CollideRight | server.py:219-230 | Without a hit, nothing changes. On a hit, the ball's right edge is placed on the right paddle's face. Only `ball_x`, `vx` and `vy` change. |
| Physics.ShapeSpeed | server.py:212-217 | The target speed is at least `BALL_SPEED_INC`. The new `vy` lies within `±spd*MAX_BALL_ANGLE*2.2`. The horizontal magnitude is at least 80, the root of the 6400 floor. The new speed reaches the target exactly unless the floor applies, and then it strictly exceeds it. |
| Physics.ShapeMagnitude | server.py:216-217 | The horizontal speed after shaping is at least 80. |
| Physics.LeftHitReturnsBall | server.py:204-217 | A left-paddle hit sends the ball rightward, at least 80 fast. |
| Physics.RightHitReturnsBall | server.py:219-230 | A right-paddle hit sends the ball leftward, at least 80 fast. |
| Physics.AtMostOnePaddleHit | server.py:204-230 | After a left-paddle hit, the right-paddle guard is false in the same step. |
| Physics.ServeDirection | server.py:111 | The direction is ±1: +1 toward right, -1 toward left, and a coin otherwise. |
| Physics.ResetBall | server.py:108-113 | The ball is centred. `vx` is `±BALL_SPEED_START`, negative toward left and positive toward right. `vy == 0.1*BALL_SPEED_START`. Nothing but the four ball fields changes. |
| Physics.ScorePoint | server.py:232-238 | At or past the left goal line, `score_r` gains exactly 1, `score_l` is unchanged, and the ball is re-served leftward. At or past the right line, `score_l` gains 1 and the ball is re-served rightward. Otherwise nothing changes. Scores never decrease and rise by at most one point in total. Paddles, pause flag, event and broadcast are untouched. |
| Physics.Step | server.py:160-238 | After a step, both paddles are on the field and the ball lies between the walls. Scores never decrease, and at most one point is scored. The pause flag, event and broadcast text are unchanged. |
| Physics.QuietStepMovesBall | server.py:160-238 | In a step where the integrated ball meets no wall, paddle or goal line, the ball's position advances by velocity times `dt`. Its velocity and both scores are unchanged. |
| Physics.ClampDt | server.py:242 | `dt` lies in `[0, 1/30]`. It equals the elapsed time when that is in range, and the nearer bound otherwise. |
| Physics.TickState | server.py:240-246 | A paused game is left exactly as it was. Otherwise, after the tick, the paddles are on the field and at most one point has been scored. The pause flag never changes. |
| Physics.TotalDt | server.py:242 | The simulated time of `n` ticks lies in `[0, n/30]`. |
| Physics.RunScoresCountUp | server.py:232-246 | Over any number of ticks, scores never go down and grow by at most one point per tick. Paddles stay on the field and the pause flag stays as it was (proved by induction). |
| Physics.PausedRunFreezes | server.py:245-246 | While paused, any number of ticks leaves the whole state unchanged (proved by induction). |
| Physics.HeldUpRisesSteadily | server.py:179-181 | With "up" held alone on the left, unpaused ticks move the left paddle up by `PADDLE_SPEED` times the total clamped time, and it stops at the top edge (proved by induction). |
| Commands.BroadcastText | server.py:144 | The stored broadcast text is the prefix of `str(message)` of length `min(len, 200)`. |
| Commands.DecodeAdmin | server.py:142-158 | Each of `broadcast`, `event`, `reset_scores` and `pause_toggle` selects exactly its own action. Any other `action`, a missing one included, selects none. A broadcast carries `BroadcastText(data)`, at most 200 characters, and `event` carries the supplied value. |
| Commands.Decode | server.py:120-142 | Each of `input`, `pause`, `admin_auth` and `admin` selects exactly its own command. Any other `type` is unrecognised. `input` reads the truthiness of `up` and `down`, `admin_auth` reads `str(data.get("code", ""))`, and `admin` carries `DecodeAdmin(data)`. |
| Commands.Handle | server.py:115-158 | A message never changes who is connected or who holds which seat, and touches no other connection's record. It never revokes admin rights. Of the game record, it changes only pause, scores, event and broadcast text. It never increases a score. Only an admin's message goes to every client. |
| Commands.UnknownSenderIgnored | server.py:116-118 | A message from an unregistered connection changes nothing and sends nothing. |
| Commands.UnrecognisedTypeIgnored | server.py:120-158 | A message whose `type` is not one of the four known kinds changes nothing and sends nothing. |
| Commands.InputSetsOnlyFlags | server.py:122-124 | `input` sets exactly the sender's `up` and `down` to the truthiness of those fields. Nothing else changes. |
| Commands.PauseIsGated | server.py:126-129 | `pause` toggles `paused` iff the sender holds a paddle or is an admin. Nothing else changes and nothing is sent. |
| Commands.AdminAuthOutcome | server.py:131-137 | `admin_auth` replies with whether `str(code)` equals `"100"`. On a match, the sender becomes admin. On a mismatch, nothing changes, so an admin stays admin. |
| Commands.AdminAuthIdempotent | server.py:131-135 | Authenticating again with the right code yields the same outcome as the first time, and admin stays on. |
| Commands.AdminCodeDecimal | server.py:37 | `str(100)` is the admin code `"100"`. |
| Commands.CodeAccepted | server.py:132-133 | Because the code is compared as `str(code)`, exactly two JSON values authenticate: the string `"100"` and the integer `100`. |
| Commands.NonAdminIgnored | server.py:139-141 | An `admin` message from a non-admin changes nothing and sends nothing. |
| Commands.BroadcastStoresPrefix | server.py:143-146 | An admin `broadcast` stores the truncated text and sends it to every client. Nothing else changes. |
| Commands.EventSetOrCleared | server.py:147-153 | An admin `event` sets the label to `None` for `None`, `""` or `"clear"`, and otherwise stores the supplied value. The resulting label goes to every client, and only the event changes. |
| Commands.ResetScoresZeroes | server.py:154-156 | `reset_scores` zeroes both scores. Nothing else changes and nothing is sent. |
| Commands.AdminPauseToggles | server.py:157-158 | An admin's `pause_toggle` always toggles `paused`, whatever the admin's seat. |
| Commands.HandleKeepsSeatsUnique | server.py:115-158 | Handling any message keeps each paddle with at most one holder. |
| Server.PongServer.constructor | server.py:62-66 | A new server has no clients, no players, the default game record, and `lastTime` set to the given clock reading. |
| Server.PongServer.Register | server.py:78-85 | The connection is added to `clients`, and to `players` with the seat `AssignRole` gives and all flags false. The `role` reply carries that seat. The game record is unchanged and `Valid()` is kept. |
| Server.PongServer.Unregister | server.py:87-89 | Only that connection is removed from `clients` and `players`, and `Valid()` is kept. |
| Server.PongServer.ResetBall | server.py:108-113 | The new game record is `Physics.ResetBall` of the old one. |
| Server.PongServer.HandleMessage | server.py:115-158 | The players, game record and message sent agree with `Commands.Handle`. The client set and clock are unchanged, and `Valid()` is kept. |
| Server.PongServer.StepPhysics | server.py:160-238 | The new game record is `Physics.Step` of the old one, with the velocities of the seat holders. Players, clients and clock are unchanged, and `Valid()` is kept. |
| Server.PongServer.WallBounce | server.py:188-194 | The new game record is `Physics.BounceWalls` of the old one. |
| Server.PongServer.LeftPaddleHit | server.py:204-217 | The new game record is `Physics.CollideLeft` of the old one. |
| Server.PongServer.RightPaddleHit | server.py:219-230 | The new game record is `Physics.CollideRight` of the old one. |
| Server.PongServer.GoalLines | server.py:232-238 | The new game record is `Physics.ScorePoint` of the old one, with the re-serve done by `ResetBall`. |
| Server.PongServer.Tick | server.py:240-261 | The new game record is `Physics.TickState` of the old one, over `now - last_time`. `last_time` becomes `now`. The `state` snapshot goes to every client, and `Valid()` is kept. |

## Left out

- The websocket transport, `send`, `broadcast`, `handle_client` and `run` are not modelled. These are I/O and asyncio scheduling over a library outside this model. Outbound messages are returned as a `Delivery` value instead: nothing, a reply to the sender, or a message for every client.
- The bytes of `json.loads` and `json.dumps` are not modelled. Floats, arrays and objects are kept only as their truthiness and their `str()` text (`JOpaque`). That text is only constrained to hold some character other than a digit or a minus sign.
- A payload that is valid JSON but not an object is not modelled. In the source, `data.get` raises on it (server.py:116-120). The error escapes `handle_message` and ends `handle_client`'s loop, and its `finally` unregisters the sender (server.py:263-273). So the sender loses its connection and its seat, instead of the payload being dropped.
- `time.time()` is not modelled. `Tick` receives `now`, and the clock-parity serve direction is a boolean parameter `coin`.
- Floating-point arithmetic is not modelled. Positions and velocities are `real`, and `** 0.5` is a function parameter `sqrt`.
- Physics.ControlVelocities: requires unique seats. That is the server's invariant, under which dictionary iteration order cannot matter. Iteration order itself is not modelled.
- Physics.HeldUpRisesSteadily: covers only the left paddle moving up. The other three cases are mirror images.
- Commands.StatePayload: the `state` message is modelled only as a snapshot of the game record's fields. The field size `w`, `h` is an integer in the source and a whole-valued `real` here.
- Server.PongServer.LeftPaddleHit and Server.PongServer.RightPaddleHit: the steered `vy`, the target speed, the `vy` limit and the squared horizontal speed are each computed by the `Physics` function named for that expression (`SteerLeft`, `TargetSpeed`, `LimitVy`, `VxSquared`), not by spelling out the arithmetic inline. The velocity is written back to the record once, at the end of the block.
