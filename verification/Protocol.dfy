/**
 * The wire protocol: message types, their JSON conversions, the envelope, and
 * the validation every client message goes through.
 */
module Protocol {
  import opened Wrappers
  import opened JsonValues

  const PROTOCOL_VERSION := "v1.0"
  const MAX_AMOUNT: int64 := 1_000_000_000_000_000
  const MAX_SESSION_ID_LENGTH := 128
  const MAX_MESSAGE_TYPE_LENGTH := 32
  const MAX_CLIENT_NAME_LENGTH := 128
  const MAX_DISCONNECT_REASON_LENGTH := 256

  const ACTION_TYPES := {"FOLD", "CHECK", "CALL", "RAISE", "ALL_IN"}
  const AMOUNT_REQUIRED := {"RAISE", "ALL_IN"}
  const AMOUNT_FORBIDDEN := {"FOLD", "CHECK", "CALL"}

  // ----- messages

  datatype PlayerStack = PlayerStack(seat: int32, stack: int64)
  datatype HandshakeMessage = HandshakeMessage(protocolVersion: string, clientName: Option<string>)
  datatype HandshakeResponse = HandshakeResponse(sessionId: string, seatNumber: int32, startingStack: int64)
  datatype ActionMessage =
    ActionMessage(sessionId: string, actionType: string, amount: Option<int64>, sequenceNumber: int64)
  datatype StateUpdate = StateUpdate(gamePhase: string, potSize: int64, currentBet: int64,
                                     playerStacks: seq<PlayerStack>, communityCards: Option<seq<string>>,
                                     holeCards: Option<seq<string>>, validActions: seq<string>,
                                     actingSeat: Option<int32>)
  datatype ErrorMessage = ErrorMessage(errorCode: string, message: string, sessionId: Option<string>)
  datatype ReloadRequest = ReloadRequest(sessionId: string, requestedAmount: int64)
  datatype ReloadResponse = ReloadResponse(granted: bool, newStack: int64)
  datatype DisconnectMessage = DisconnectMessage(sessionId: string, reason: Option<string>)
  datatype Envelope = Envelope(messageType: string, protocolVersion: string, payload: Json)

  // ----- to_json

  function StringsToJson(xs: seq<string>): Json {
    Array(seq(|xs|, k requires 0 <= k < |xs| => String(xs[k])))
  }

  function PlayerStackToJson(p: PlayerStack): Json {
    Object(map["seat" := Integer(p.seat), "stack" := Integer(p.stack)])
  }

  function PlayerStacksToJson(ps: seq<PlayerStack>): Json {
    Array(seq(|ps|, k requires 0 <= k < |ps| => PlayerStackToJson(ps[k])))
  }

  function HandshakeToJson(m: HandshakeMessage): Json {
    var o := map["protocol_version" := String(m.protocolVersion)];
    Object(if m.clientName.Some? then o["client_name" := String(m.clientName.value)] else o)
  }

  function HandshakeResponseToJson(m: HandshakeResponse): Json {
    Object(map["session_id" := String(m.sessionId), "seat_number" := Integer(m.seatNumber),
               "starting_stack" := Integer(m.startingStack)])
  }

  function ActionToJson(m: ActionMessage): Json {
    var o := map["session_id" := String(m.sessionId), "action_type" := String(m.actionType),
                 "sequence_number" := Integer(m.sequenceNumber)];
    Object(if m.amount.Some? then o["amount" := Integer(m.amount.value)] else o)
  }

  function StateUpdateToJson(m: StateUpdate): Json {
    var o := map["game_phase" := String(m.gamePhase), "pot_size" := Integer(m.potSize),
                 "current_bet" := Integer(m.currentBet),
                 "player_stacks" := PlayerStacksToJson(m.playerStacks),
                 "valid_actions" := StringsToJson(m.validActions)];
    var o := if m.communityCards.Some? then o["community_cards" := StringsToJson(m.communityCards.value)] else o;
    var o := if m.holeCards.Some? then o["hole_cards" := StringsToJson(m.holeCards.value)] else o;
    Object(if m.actingSeat.Some? then o["acting_seat" := Integer(m.actingSeat.value)] else o)
  }

  function ErrorToJson(m: ErrorMessage): Json {
    var o := map["error_code" := String(m.errorCode), "message" := String(m.message)];
    Object(if m.sessionId.Some? then o["session_id" := String(m.sessionId.value)] else o)
  }

  function ReloadRequestToJson(m: ReloadRequest): Json {
    Object(map["session_id" := String(m.sessionId), "requested_amount" := Integer(m.requestedAmount)])
  }

  function ReloadResponseToJson(m: ReloadResponse): Json {
    Object(map["granted" := Boolean(m.granted), "new_stack" := Integer(m.newStack)])
  }

  function DisconnectToJson(m: DisconnectMessage): Json {
    var o := map["session_id" := String(m.sessionId)];
    Object(if m.reason.Some? then o["reason" := String(m.reason.value)] else o)
  }

  function EnvelopeToJson(e: Envelope): Json {
    Object(map["message_type" := String(e.messageType), "protocol_version" := String(e.protocolVersion),
               "payload" := e.payload])
  }

  /** `serialize_message` up to the final `dump()`. */
  function Seal(messageType: string, payload: Json): Json {
    EnvelopeToJson(Envelope(messageType, PROTOCOL_VERSION, payload))
  }

  function SerializeError(m: ErrorMessage): Json {
    Seal("ERROR", ErrorToJson(m))
  }

  function SerializeHandshakeResponse(m: HandshakeResponse): Json {
    Seal("HANDSHAKE_RESPONSE", HandshakeResponseToJson(m))
  }

  function SerializeReloadResponse(m: ReloadResponse): Json {
    Seal("RELOAD_RESPONSE", ReloadResponseToJson(m))
  }

  function SerializeStateUpdate(m: StateUpdate): Json {
    Seal("STATE_UPDATE", StateUpdateToJson(m))
  }

  // ----- from_json

  function OptionalField<T>(j: Json, key: string, get: Json -> Parsed<T>): Parsed<Option<T>> {
    if j.Present(key) then
      var v :- get(j.o[key]);
      Ok(Some(v))
    else Ok(None)
  }

  function Field<T>(j: Json, key: string, get: Json -> Parsed<T>): Parsed<T> {
    var v :- j.At(key);
    get(v)
  }

  /** The dollars-to-cents path, in exact arithmetic; 2^63 passes the guard but not the cast. */
  function CentsFromDollars(j: Json): Parsed<int64> {
    if j.Real? then
      var cents := Round(j.r * 100.0);
      if cents > TWO_TO_THE_63 || cents < -TWO_TO_THE_63 then Rejected
      else if cents == TWO_TO_THE_63 then Undefined
      else Ok(cents)
    else Rejected
  }

  function GetAmount(j: Json): Parsed<int64> {
    if j.IsInteger() then GetInt64(j) else CentsFromDollars(j)
  }

  function PlayerStackFromJson(j: Json): Parsed<PlayerStack> {
    var seat :- Field(j, "seat", GetInt32);
    var stack :- Field(j, "stack", GetInt64);
    Ok(PlayerStack(seat, stack))
  }

  function HandshakeFromJson(j: Json): Parsed<HandshakeMessage> {
    var version :- Field(j, "protocol_version", GetString);
    var name :- OptionalField(j, "client_name", GetString);
    Ok(HandshakeMessage(version, name))
  }

  function HandshakeResponseFromJson(j: Json): Parsed<HandshakeResponse> {
    var sid :- Field(j, "session_id", GetString);
    var seat :- Field(j, "seat_number", GetInt32);
    var stack :- Field(j, "starting_stack", GetInt64);
    Ok(HandshakeResponse(sid, seat, stack))
  }

  function ActionFromJson(j: Json): Parsed<ActionMessage> {
    var sid :- Field(j, "session_id", GetString);
    var action :- Field(j, "action_type", GetString);
    var seqNumber :- Field(j, "sequence_number", GetInt64);
    var amount :- OptionalField(j, "amount", GetAmount);
    Ok(ActionMessage(sid, action, amount, seqNumber))
  }

  function GetStrings(j: Json): Parsed<seq<string>> {
    GetSeq(GetString, j)
  }

  function GetPlayerStacks(j: Json): Parsed<seq<PlayerStack>> {
    GetSeq(PlayerStackFromJson, j)
  }

  function StateUpdateFromJson(j: Json): Parsed<StateUpdate> {
    var phase :- Field(j, "game_phase", GetString);
    var pot :- Field(j, "pot_size", GetInt64);
    var bet :- Field(j, "current_bet", GetInt64);
    var stacks :- Field(j, "player_stacks", GetPlayerStacks);
    var actions :- Field(j, "valid_actions", GetStrings);
    var community :- OptionalField(j, "community_cards", GetStrings);
    var hole :- OptionalField(j, "hole_cards", GetStrings);
    var seat :- OptionalField(j, "acting_seat", GetInt32);
    Ok(StateUpdate(phase, pot, bet, stacks, community, hole, actions, seat))
  }

  function ErrorFromJson(j: Json): Parsed<ErrorMessage> {
    var code :- Field(j, "error_code", GetString);
    var message :- Field(j, "message", GetString);
    var sid :- OptionalField(j, "session_id", GetString);
    Ok(ErrorMessage(code, message, sid))
  }

  function ReloadRequestFromJson(j: Json): Parsed<ReloadRequest> {
    var sid :- Field(j, "session_id", GetString);
    var amount :- Field(j, "requested_amount", GetAmount);
    Ok(ReloadRequest(sid, amount))
  }

  function ReloadResponseFromJson(j: Json): Parsed<ReloadResponse> {
    var granted :- Field(j, "granted", GetBool);
    var stack :- Field(j, "new_stack", GetInt64);
    Ok(ReloadResponse(granted, stack))
  }

  function DisconnectFromJson(j: Json): Parsed<DisconnectMessage> {
    var sid :- Field(j, "session_id", GetString);
    var reason :- OptionalField(j, "reason", GetString);
    Ok(DisconnectMessage(sid, reason))
  }

  function EnvelopeFromJson(j: Json): Parsed<Envelope> {
    var messageType :- Field(j, "message_type", GetString);
    var version :- Field(j, "protocol_version", GetString);
    var payload :- j.At("payload");
    Ok(Envelope(messageType, version, payload))
  }

  // ----- validation

  predicate PrintableAscii(c: char) {
    0x20 <= c as int < 0x7f
  }

  predicate SessionIdChar(c: char) {
    'a' <= c <= 'z' || '0' <= c <= '9' || c == '_'
  }

  predicate ValidSessionId(sid: string) {
    && 6 <= |sid| <= MAX_SESSION_ID_LENGTH
    && sid[..5] == "sess_"
    && forall k :: 5 <= k < |sid| ==> SessionIdChar(sid[k])
  }

  predicate AllPrintable(s: string) {
    forall k :: 0 <= k < |s| ==> PrintableAscii(s[k])
  }

  predicate Blank(s: string) {
    forall k :: 0 <= k < |s| ==> s[k] == ' '
  }

  predicate ValidClientName(name: string) {
    |name| <= MAX_CLIENT_NAME_LENGTH && AllPrintable(name) && !Blank(name)
  }

  predicate ValidReason(reason: string) {
    |reason| <= MAX_DISCONNECT_REASON_LENGTH && AllPrintable(reason)
  }

  predicate ValidAmount(n: int) {
    1 <= n <= MAX_AMOUNT
  }

  predicate ValidAction(m: ActionMessage) {
    && ValidSessionId(m.sessionId)
    && m.sequenceNumber >= 0
    && m.actionType in ACTION_TYPES
    && (m.amount.Some? ==> ValidAmount(m.amount.value))
    && (m.actionType in AMOUNT_REQUIRED ==> m.amount.Some?)
    && (m.actionType in AMOUNT_FORBIDDEN ==> m.amount.None?)
  }

  predicate ValidReload(m: ReloadRequest) {
    ValidSessionId(m.sessionId) && ValidAmount(m.requestedAmount)
  }

  predicate ValidDisconnect(m: DisconnectMessage) {
    ValidSessionId(m.sessionId) && (m.reason.Some? ==> ValidReason(m.reason.value))
  }

  /** The version is left to the caller, who answers a mismatch with its own error. */
  predicate ValidHandshake(m: HandshakeMessage, e: Envelope) {
    && m.protocolVersion != ""
    && (m.clientName.Some? ==> ValidClientName(m.clientName.value))
    && m.protocolVersion == e.protocolVersion
  }

  // ----- parsing a client message from its envelope

  /** The payload of an envelope of the expected type and version. */
  function OpenEnvelope(j: Json, expectedType: string): Parsed<Json> {
    var e :- EnvelopeFromJson(j);
    if e.messageType == expectedType && e.protocolVersion == PROTOCOL_VERSION then Ok(e.payload) else Rejected
  }

  function Check<T>(m: T, valid: bool): Parsed<T> {
    if valid then Ok(m) else Rejected
  }

  function ParseAction(j: Json): Parsed<ActionMessage> {
    var payload :- OpenEnvelope(j, "ACTION");
    var m :- ActionFromJson(payload);
    Check(m, ValidAction(m))
  }

  function ParseReload(j: Json): Parsed<ReloadRequest> {
    var payload :- OpenEnvelope(j, "RELOAD_REQUEST");
    var m :- ReloadRequestFromJson(payload);
    Check(m, ValidReload(m))
  }

  function ParseDisconnect(j: Json): Parsed<DisconnectMessage> {
    var payload :- OpenEnvelope(j, "DISCONNECT");
    var m :- DisconnectFromJson(payload);
    Check(m, ValidDisconnect(m))
  }

  function ParseHandshake(j: Json): Parsed<HandshakeMessage> {
    var e :- EnvelopeFromJson(j);
    if e.messageType != "HANDSHAKE" then Rejected else
      var m :- HandshakeFromJson(e.payload);
      Check(m, ValidHandshake(m, e))
  }

  /** `extract_message_type_and_json`; the argument is `None` when the text is not JSON. */
  function ExtractMessageType(input: Option<Json>): Option<string> {
    if && input.Some? && input.value.Contains("message_type")
       && input.value.o["message_type"].String?
       && |input.value.o["message_type"].s| <= MAX_MESSAGE_TYPE_LENGTH
    then Some(input.value.o["message_type"].s)
    else None
  }

  // ----- the validations the source writes as loops

  method ValidateSessionIdFormat(sid: string) returns (ok: bool)
    ensures ok <==> ValidSessionId(sid)
  {
    if |sid| < 6 || |sid| > MAX_SESSION_ID_LENGTH { return false; }
    if sid[0] != 's' || sid[1] != 'e' || sid[2] != 's' || sid[3] != 's' || sid[4] != '_' {
      assert sid[..5] != "sess_" by {
        if sid[..5] == "sess_" { forall k | 0 <= k < 5 ensures sid[k] == "sess_"[k] { assert sid[..5][k] == sid[k]; } }
      }
      return false;
    }
    var i := 5;
    while i < |sid|
      invariant 5 <= i <= |sid|
      invariant forall k :: 5 <= k < i ==> SessionIdChar(sid[k])
    {
      if !SessionIdChar(sid[i]) { return false; }
      i := i + 1;
    }
    return true;
  }

  method ValidateHandshake(m: HandshakeMessage, e: Envelope) returns (r: Option<HandshakeMessage>)
    ensures r == if ValidHandshake(m, e) then Some(m) else None
  {
    if m.protocolVersion == "" { return None; }
    if m.clientName.Some? {
      var name := m.clientName.value;
      if |name| > MAX_CLIENT_NAME_LENGTH { return None; }
      var allBlank := true;
      for i := 0 to |name|
        invariant forall k :: 0 <= k < i ==> PrintableAscii(name[k])
        invariant allBlank <==> forall k :: 0 <= k < i ==> name[k] == ' '
      {
        if !PrintableAscii(name[i]) { return None; }
        if name[i] != ' ' { allBlank := false; }
      }
      if allBlank { return None; }
    }
    if m.protocolVersion != e.protocolVersion { return None; }
    return Some(m);
  }

  method ValidateDisconnect(m: DisconnectMessage) returns (r: Option<DisconnectMessage>)
    ensures r == if ValidDisconnect(m) then Some(m) else None
  {
    var ok := ValidateSessionIdFormat(m.sessionId);
    if !ok { return None; }
    if m.reason.Some? {
      var reason := m.reason.value;
      if |reason| > MAX_DISCONNECT_REASON_LENGTH { return None; }
      for i := 0 to |reason|
        invariant forall k :: 0 <= k < i ==> PrintableAscii(reason[k])
      {
        if !PrintableAscii(reason[i]) { return None; }
      }
    }
    return Some(m);
  }
}
