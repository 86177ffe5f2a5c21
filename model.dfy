/**
 * The records the server keeps (`Player`, `GameState`) and the seat
 * assignment rule of `PongServer.assign_role`.
 */
module Model {
  import opened Wrappers
  import opened Config
  import opened PyJson

  /** Opaque identity of a client connection (the websocket object used as a dict key). */
  type Conn = nat

  datatype Side = Left | Right | Spectator

  /** A connected client. The websocket itself is the key under which the record is stored. */
  datatype Player = Player(side: Side, up: bool, down: bool, isAdmin: bool)

  /** The record `register` creates: control flags and admin flag start out false. */
  function NewPlayer(side: Side): (p: Player)
    ensures p.side == side && !p.up && !p.down && !p.isAdmin
  {
    Player(side, false, false, false)
  }

  /**
   * The simulation record. Scores are Python ints that only ever count up
   * from 0 or are reset to 0, so they are `nat`. `event` holds whatever JSON
   * value an admin supplied, exactly as the handler stores it.
   */
  datatype GameState = GameState(
    leftY: real,
    rightY: real,
    ballX: real,
    ballY: real,
    vx: real,
    vy: real,
    scoreL: nat,
    scoreR: nat,
    paused: bool,
    event: Option<Json>,
    broadcastMsg: Option<string>)

  /** `GameState()` with its field defaults: everything centred, ball heading right. */
  const InitialState: GameState := GameState(
    FieldHeight / 2.0 - PaddleHeight / 2.0,
    FieldHeight / 2.0 - PaddleHeight / 2.0,
    FieldWidth / 2.0 - BallSize / 2.0,
    FieldHeight / 2.0 - BallSize / 2.0,
    BallSpeedStart,
    BallSpeedStart * 0.1,
    0, 0, false, None, None)

  predicate InBounds(y: real) {
    0.0 <= y <= PaddleMaxY
  }

  predicate PaddlesInBounds(s: GameState) {
    InBounds(s.leftY) && InBounds(s.rightY)
  }

  /** Some current player holds `side`. */
  predicate Holds(players: map<Conn, Player>, side: Side) {
    exists c :: c in players && players[c].side == side
  }

  /** At most one connection holds each paddle. */
  ghost predicate SeatsUnique(players: map<Conn, Player>) {
    forall a, b :: a in players && b in players && players[a].side == players[b].side && players[a].side != Spectator ==> a == b
  }

  /**
   * `assign_role`: the first of left, right that no CURRENT player holds,
   * else spectator. A paddle vacated by a disconnect is therefore handed to
   * the next connection.
   */
  function AssignRole(players: map<Conn, Player>): (r: Side)
    ensures r != Spectator ==> !Holds(players, r)
    ensures r == Right ==> Holds(players, Left)
    ensures r == Spectator <==> Holds(players, Left) && Holds(players, Right)
  {
    if !Holds(players, Left) then Left
    else if !Holds(players, Right) then Right
    else Spectator
  }

  /** The record `register` stores for `ws`. */
  function Registered(players: map<Conn, Player>, ws: Conn): map<Conn, Player> {
    players[ws := NewPlayer(AssignRole(players))]
  }

  /** Registering keeps each paddle held by at most one connection. */
  lemma RegisterKeepsSeatsUnique(players: map<Conn, Player>, ws: Conn)
    requires SeatsUnique(players)
    ensures SeatsUnique(Registered(players, ws))
  {
    var role := AssignRole(players);
    var after := Registered(players, ws);
    forall a, b | a in after && b in after && after[a].side == after[b].side && after[a].side != Spectator
      ensures a == b
    {
      if a != ws && b != ws {
        assert players[a].side == players[b].side;
      } else if a == ws && b != ws {
        assert players[b].side == role;
        assert Holds(players, role);
      } else if a != ws && b == ws {
        assert players[a].side == role;
        assert Holds(players, role);
      }
    }
  }

  /** Registering fills the seats in order: after it, left is held, and right is held if left already was. */
  lemma RegisterFillsSeatsInOrder(players: map<Conn, Player>, ws: Conn)
    requires ws !in players
    ensures Holds(Registered(players, ws), Left)
    ensures Holds(players, Left) ==> Holds(Registered(players, ws), Right)
    ensures Holds(players, Left) && Holds(players, Right) ==> AssignRole(Registered(players, ws)) == Spectator
  {
    var after := Registered(players, ws);
    if !Holds(players, Left) {
      assert after[ws].side == Left;
    } else {
      var l :| l in players && players[l].side == Left;
      assert after[l].side == Left;
      if !Holds(players, Right) {
        assert after[ws].side == Right;
      } else {
        var r :| r in players && players[r].side == Right;
        assert after[r].side == Right;
      }
    }
  }

  /** From an empty registry, three new connections get left, right and spectator in that order. */
  lemma FirstComeRoles(a: Conn, b: Conn, c: Conn)
    requires a != b && b != c && a != c
    ensures AssignRole(map[]) == Left
    ensures AssignRole(Registered(map[], a)) == Right
    ensures AssignRole(Registered(Registered(map[], a), b)) == Spectator
  {
    var one := Registered(map[], a);
    RegisterFillsSeatsInOrder(map[], a);
    RegisterFillsSeatsInOrder(one, b);
  }

  /**
   * A paddle freed by `unregister` is given to the next registrant: once the
   * left player leaves, `assign_role` answers left again.
   */
  lemma VacatedLeftSeatReused(players: map<Conn, Player>, ws: Conn)
    requires SeatsUnique(players)
    requires ws in players && players[ws].side == Left
    ensures AssignRole(players - {ws}) == Left
  {
    var rest := players - {ws};
    forall c | c in rest
      ensures rest[c].side != Left
    {
      assert c != ws;
    }
  }

  /** Likewise for the right paddle, provided the left one is still held. */
  lemma VacatedRightSeatReused(players: map<Conn, Player>, ws: Conn)
    requires SeatsUnique(players)
    requires ws in players && players[ws].side == Right
    requires Holds(players, Left)
    ensures AssignRole(players - {ws}) == Right
  {
    var rest := players - {ws};
    var l :| l in players && players[l].side == Left;
    assert l in rest && rest[l].side == Left;
    forall c | c in rest
      ensures rest[c].side != Right
    {
      assert c != ws;
    }
  }
}
