/**
 * The command handler of `PongServer.handle_message` as a function of the
 * registry, the game state, the sender and the decoded payload. The class
 * method `Server.PongServer.HandleMessage` updates its fields in place and
 * is proved to agree with `Handle`; the lemmas below state what each kind
 * of message does.
 */
module Commands {
  import opened Wrappers
  import opened Config
  import opened PyJson
  import opened Model

  /** The privileged sub-actions of an `admin` message. */
  datatype AdminAction =
    | Broadcast(message: string)
    | SetEvent(event: Json)
    | ResetScores
    | PauseToggle
    | OtherAction

  /** An inbound payload classified by its `type` field, with the fields each branch reads. */
  datatype Command =
    | Input(up: bool, down: bool)
    | Pause
    | AdminAuth(code: string)
    | Admin(action: AdminAction)
    | Unrecognised

  /** Outbound messages, one variant per `type`. */
  datatype Outbound =
    | RoleMsg(side: Side)
    | AdminResult(ok: bool)
    | BroadcastNotice(message: string)
    | EventNotice(event: Option<Json>)
    | StateMsg(leftY: real, rightY: real, ballX: real, ballY: real, scoreL: nat, scoreR: nat,
               paused: bool, event: Option<Json>, w: real, h: real)

  /** Who a handler's message goes to: nobody, the sender alone, or every client. */
  datatype Delivery = Silent | Reply(msg: Outbound) | FanOut(msg: Outbound)

  /** What handling one message leaves behind. */
  datatype Outcome = Outcome(players: map<Conn, Player>, state: GameState, sent: Delivery)

  /** The labels that clear the active event: `None`, `""` and `"clear"`. */
  predicate ClearsEvent(ev: Json) {
    ev == JNull || ev == JStr("") || ev == JStr("clear")
  }

  /** The text an admin `broadcast` stores: `str(data.get("message", ""))[:200]`. */
  function BroadcastText(data: map<string, Json>): (m: string)
    ensures var text := Str(GetOr(data, "message", JStr("")));
            |m| == (if |text| < BroadcastLimit then |text| else BroadcastLimit) && m <= text
  {
    Prefix(Str(GetOr(data, "message", JStr(""))), BroadcastLimit)
  }

  /**
   * Dispatch on `data.get("action")`: each of the four action names selects
   * its action, any other value (missing included) selects none, and a
   * broadcast carries at most 200 characters.
   */
  function DecodeAdmin(data: map<string, Json>): (a: AdminAction)
    ensures a.OtherAction? <==> !(Get(data, "action") in [JStr("broadcast"), JStr("event"), JStr("reset_scores"), JStr("pause_toggle")])
    ensures a.Broadcast? <==> Get(data, "action") == JStr("broadcast")
    ensures a.SetEvent? <==> Get(data, "action") == JStr("event")
    ensures a.ResetScores? <==> Get(data, "action") == JStr("reset_scores")
    ensures a.PauseToggle? <==> Get(data, "action") == JStr("pause_toggle")
    ensures a.Broadcast? ==> a.message == BroadcastText(data) && |a.message| <= BroadcastLimit
    ensures a.SetEvent? ==> a.event == Get(data, "event")
  {
    var action := Get(data, "action");
    if action == JStr("broadcast") then Broadcast(BroadcastText(data))
    else if action == JStr("event") then SetEvent(Get(data, "event"))
    else if action == JStr("reset_scores") then ResetScores
    else if action == JStr("pause_toggle") then PauseToggle
    else OtherAction
  }

  /** Dispatch on `data.get("type")`, reading each field the way the handler does. */
  function Decode(data: map<string, Json>): (c: Command)
    ensures c.Unrecognised? <==> !KnownType(Get(data, "type"))
    ensures c.Input? <==> Get(data, "type") == JStr("input")
    ensures c.Input? ==> c.up == Truthy(Get(data, "up")) && c.down == Truthy(Get(data, "down"))
    ensures c.Pause? <==> Get(data, "type") == JStr("pause")
    ensures c.AdminAuth? <==> Get(data, "type") == JStr("admin_auth")
    ensures c.AdminAuth? ==> c.code == Str(GetOr(data, "code", JStr("")))
    ensures c.Admin? <==> Get(data, "type") == JStr("admin")
    ensures c.Admin? ==> c.action == DecodeAdmin(data)
  {
    var t := Get(data, "type");
    if t == JStr("input") then Input(Truthy(Get(data, "up")), Truthy(Get(data, "down")))
    else if t == JStr("pause") then Pause
    else if t == JStr("admin_auth") then AdminAuth(Str(GetOr(data, "code", JStr(""))))
    else if t == JStr("admin") then Admin(DecodeAdmin(data))
    else Unrecognised
  }

  /** An authenticated admin's action: only the game record changes. */
  function ApplyAdmin(players: map<Conn, Player>, s: GameState, action: AdminAction): Outcome {
    match action
    case Broadcast(m) =>
      Outcome(players, s.(broadcastMsg := Some(m)), FanOut(BroadcastNotice(m)))
    case SetEvent(ev) =>
      var event := if ClearsEvent(ev) then None else Some(ev);
      Outcome(players, s.(event := event), FanOut(EventNotice(event)))
    case ResetScores =>
      Outcome(players, s.(scoreL := 0, scoreR := 0), Silent)
    case PauseToggle =>
      Outcome(players, s.(paused := !s.paused), Silent)
    case OtherAction =>
      Outcome(players, s, Silent)
  }

  /**
   * `handle_message(ws, data)`. A message never changes who is connected or
   * which seat anyone holds, touches no other connection's record, never
   * revokes admin rights, never moves a paddle or the ball, never awards a
   * point, and only an admin's message reaches every client.
   */
  function Handle(players: map<Conn, Player>, s: GameState, ws: Conn, data: map<string, Json>): (o: Outcome)
    ensures o.players.Keys == players.Keys
    ensures forall c :: c in players ==> o.players[c].side == players[c].side
    ensures forall c :: c in players && c != ws ==> o.players[c] == players[c]
    ensures ws in players && players[ws].isAdmin ==> o.players[ws].isAdmin
    ensures o.state == s.(paused := o.state.paused, scoreL := o.state.scoreL, scoreR := o.state.scoreR,
                          event := o.state.event, broadcastMsg := o.state.broadcastMsg)
    ensures o.state.scoreL <= s.scoreL && o.state.scoreR <= s.scoreR
    ensures o.sent.FanOut? ==> ws in players && players[ws].isAdmin
  {
    if ws !in players then Outcome(players, s, Silent)
    else
      var p := players[ws];
      match Decode(data)
      case Input(up, down) =>
        Outcome(players[ws := p.(up := up, down := down)], s, Silent)
      case Pause =>
        if p.side == Left || p.side == Right || p.isAdmin
        then Outcome(players, s.(paused := !s.paused), Silent)
        else Outcome(players, s, Silent)
      case AdminAuth(code) =>
        if code == AdminCode
        then Outcome(players[ws := p.(isAdmin := true)], s, Reply(AdminResult(true)))
        else Outcome(players, s, Reply(AdminResult(false)))
      case Admin(action) =>
        if !p.isAdmin then Outcome(players, s, Silent) else ApplyAdmin(players, s, action)
      case Unrecognised =>
        Outcome(players, s, Silent)
  }

  /** The four message kinds the handler recognises. */
  predicate KnownType(t: Json) {
    t == JStr("input") || t == JStr("pause") || t == JStr("admin_auth") || t == JStr("admin")
  }

  /** A message from a connection that is not registered changes nothing. */
  lemma UnknownSenderIgnored(players: map<Conn, Player>, s: GameState, ws: Conn, data: map<string, Json>)
    requires ws !in players
    ensures Handle(players, s, ws, data) == Outcome(players, s, Silent)
  {
  }

  /** A message of a kind the handler does not recognise changes nothing. */
  lemma UnrecognisedTypeIgnored(players: map<Conn, Player>, s: GameState, ws: Conn, data: map<string, Json>)
    requires !KnownType(Get(data, "type"))
    ensures Handle(players, s, ws, data) == Outcome(players, s, Silent)
  {
  }

  /** `input` sets exactly the sender's two flags to the truthiness of `up` and `down`. */
  lemma InputSetsOnlyFlags(players: map<Conn, Player>, s: GameState, ws: Conn, data: map<string, Json>)
    requires ws in players && Get(data, "type") == JStr("input")
    ensures Handle(players, s, ws, data) ==
      Outcome(players[ws := players[ws].(up := Truthy(Get(data, "up")), down := Truthy(Get(data, "down")))], s, Silent)
  {
  }

  /** `pause` toggles `paused` exactly when the sender holds a paddle or is an admin, and does nothing else. */
  lemma PauseIsGated(players: map<Conn, Player>, s: GameState, ws: Conn, data: map<string, Json>)
    requires ws in players && Get(data, "type") == JStr("pause")
    ensures var o := Handle(players, s, ws, data);
            && o.players == players && o.sent == Silent
            && o.state == s.(paused := o.state.paused)
            && (o.state.paused != s.paused <==> players[ws].side != Spectator || players[ws].isAdmin)
  {
  }

  /**
   * `admin_auth` replies with whether `str(code)` matched; on a match the
   * sender becomes admin, on a mismatch nothing changes (an admin stays admin).
   */
  lemma AdminAuthOutcome(players: map<Conn, Player>, s: GameState, ws: Conn, data: map<string, Json>)
    requires ws in players && Get(data, "type") == JStr("admin_auth")
    ensures var o := Handle(players, s, ws, data);
            var ok := Str(GetOr(data, "code", JStr(""))) == AdminCode;
            && o.state == s
            && o.sent == Reply(AdminResult(ok))
            && (ok ==> o.players == players[ws := players[ws].(isAdmin := true)])
            && (!ok ==> o.players == players)
  {
  }

  /** Authenticating twice with the right code is the same as once: admin stays on. */
  lemma AdminAuthIdempotent(players: map<Conn, Player>, s: GameState, ws: Conn, data: map<string, Json>)
    requires ws in players && Get(data, "type") == JStr("admin_auth")
    requires Str(GetOr(data, "code", JStr(""))) == AdminCode
    ensures var once := Handle(players, s, ws, data);
            var twice := Handle(once.players, once.state, ws, data);
            && once.players[ws].isAdmin
            && twice == once
  {
    var once := Handle(players, s, ws, data);
    assert once.players[ws] == players[ws].(isAdmin := true);
    assert once.players[ws := once.players[ws].(isAdmin := true)] == once.players;
  }

  /** `100` as `str` renders it. */
  lemma AdminCodeDecimal()
    ensures Decimal(100) == AdminCode
  {
    assert Natural(1) == "1";
    assert Natural(10) == Natural(1) + [Digit(0)] == "10";
    assert Natural(100) == Natural(10) + [Digit(0)] == "100";
  }

  /**
   * Which `code` values authenticate: the string "100" and, because the
   * handler compares `str(code)`, also the JSON integer 100 — and no other
   * JSON value.
   */
  lemma CodeAccepted(v: Json)
    ensures Str(v) == AdminCode <==> v == JStr(AdminCode) || v == JInt(100)
  {
    AdminCodeDecimal();
    if v.JInt? && Str(v) == AdminCode {
      DecimalInjective(v.i, 100);
    } else if v.JOpaque? {
      IntegerTextNotOpaque(AdminCode);
    }
  }

  /** An `admin` message from a connection that is not admin changes nothing and is not answered. */
  lemma NonAdminIgnored(players: map<Conn, Player>, s: GameState, ws: Conn, data: map<string, Json>)
    requires ws in players && !players[ws].isAdmin && Get(data, "type") == JStr("admin")
    ensures Handle(players, s, ws, data) == Outcome(players, s, Silent)
  {
  }

  /** The sender is a registered admin and the message is of type `admin`. */
  predicate IsAdminMessage(players: map<Conn, Player>, ws: Conn, data: map<string, Json>) {
    ws in players && players[ws].isAdmin && Get(data, "type") == JStr("admin")
  }

  /**
   * `broadcast` stores the first `min(len, 200)` characters of the message
   * text (see `BroadcastText`) and sends them to every client; nothing else
   * changes.
   */
  lemma BroadcastStoresPrefix(players: map<Conn, Player>, s: GameState, ws: Conn, data: map<string, Json>)
    requires IsAdminMessage(players, ws, data) && Get(data, "action") == JStr("broadcast")
    ensures var m := BroadcastText(data);
            Handle(players, s, ws, data) == Outcome(players, s.(broadcastMsg := Some(m)), FanOut(BroadcastNotice(m)))
  {
  }

  /**
   * `event` clears the label for `None`, `""` or `"clear"` and otherwise
   * stores the supplied value; the resulting label goes to every client.
   */
  lemma EventSetOrCleared(players: map<Conn, Player>, s: GameState, ws: Conn, data: map<string, Json>)
    requires IsAdminMessage(players, ws, data) && Get(data, "action") == JStr("event")
    ensures var o := Handle(players, s, ws, data);
            var ev := Get(data, "event");
            && o.players == players
            && o.state == s.(event := o.state.event)
            && (ClearsEvent(ev) ==> o.state.event == None)
            && (!ClearsEvent(ev) ==> o.state.event == Some(ev))
            && o.sent == FanOut(EventNotice(o.state.event))
  {
  }

  /** `reset_scores` zeroes both scores and changes nothing else. */
  lemma ResetScoresZeroes(players: map<Conn, Player>, s: GameState, ws: Conn, data: map<string, Json>)
    requires IsAdminMessage(players, ws, data) && Get(data, "action") == JStr("reset_scores")
    ensures Handle(players, s, ws, data) == Outcome(players, s.(scoreL := 0, scoreR := 0), Silent)
  {
  }

  /** `pause_toggle` always toggles `paused`, whatever the admin's seat. */
  lemma AdminPauseToggles(players: map<Conn, Player>, s: GameState, ws: Conn, data: map<string, Json>)
    requires IsAdminMessage(players, ws, data) && Get(data, "action") == JStr("pause_toggle")
    ensures Handle(players, s, ws, data) == Outcome(players, s.(paused := !s.paused), Silent)
  {
  }

  /** Handling a message keeps each paddle held by at most one connection. */
  lemma HandleKeepsSeatsUnique(players: map<Conn, Player>, s: GameState, ws: Conn, data: map<string, Json>)
    requires SeatsUnique(players)
    ensures SeatsUnique(Handle(players, s, ws, data).players)
  {
    var after := Handle(players, s, ws, data).players;
    forall a, b | a in after && b in after && after[a].side == after[b].side && after[a].side != Spectator
      ensures a == b
    {
      assert players[a].side == players[b].side;
    }
  }

  /** The `state` message `tick` sends to every client: a copy of the observable fields. */
  function StatePayload(s: GameState): Outbound {
    StateMsg(s.leftY, s.rightY, s.ballX, s.ballY, s.scoreL, s.scoreR, s.paused, s.event, FieldWidth, FieldHeight)
  }
}
