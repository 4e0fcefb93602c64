/**
 * What the conversions of `Protocol` guarantee together: round trips, exact
 * acceptance of client messages, and normalisation.
 */
module ProtocolProofs {
  import opened Wrappers
  import opened JsonValues
  import opened Protocol

  // ----- round trips, directly and through text

  lemma {:induction false} StringsRoundTrip(xs: seq<string>)
    ensures GetStrings(StringsToJson(xs)) == Ok(xs)
    ensures Reparse(StringsToJson(xs)) == StringsToJson(xs)
  {
    if xs == [] {
    } else {
      StringsRoundTrip(xs[1..]);
      assert StringsToJson(xs).a[1..] == StringsToJson(xs[1..]).a;
      assert [xs[0]] + xs[1..] == xs;
    }
    assert Reparse(StringsToJson(xs)).a == StringsToJson(xs).a;
  }

  lemma PlayerStackRoundTrip(p: PlayerStack)
    ensures PlayerStackFromJson(PlayerStackToJson(p)) == Ok(p)
    ensures PlayerStackFromJson(Reparse(PlayerStackToJson(p))) == Ok(p)
  {
    WrapIsIdentity(p.stack);
  }

  lemma {:induction false} PlayerStacksRoundTrip(ps: seq<PlayerStack>)
    ensures GetPlayerStacks(PlayerStacksToJson(ps)) == Ok(ps)
    ensures GetPlayerStacks(Reparse(PlayerStacksToJson(ps))) == Ok(ps)
  {
    if ps == [] {
    } else {
      PlayerStacksRoundTrip(ps[1..]);
      PlayerStackRoundTrip(ps[0]);
      assert PlayerStacksToJson(ps).a[1..] == PlayerStacksToJson(ps[1..]).a;
      assert Reparse(PlayerStacksToJson(ps)).a[1..] == Reparse(PlayerStacksToJson(ps[1..])).a;
      assert [ps[0]] + ps[1..] == ps;
    }
  }

  lemma HandshakeRoundTrip(m: HandshakeMessage)
    ensures HandshakeFromJson(HandshakeToJson(m)) == Ok(m)
    ensures HandshakeFromJson(Reparse(HandshakeToJson(m))) == Ok(m)
  {
    assert Reparse(HandshakeToJson(m)).o.Keys == HandshakeToJson(m).o.Keys;
  }

  lemma HandshakeResponseRoundTrip(m: HandshakeResponse)
    ensures HandshakeResponseFromJson(HandshakeResponseToJson(m)) == Ok(m)
    ensures HandshakeResponseFromJson(Reparse(HandshakeResponseToJson(m))) == Ok(m)
  {
    WrapIsIdentity(m.startingStack);
  }

  /** What `j` holds under `key`, if it holds anything but null there. */
  function Lookup(j: Json, key: string): Option<Json> {
    if j.Present(key) then Some(j.o[key]) else None
  }

  function Mapped<T>(x: Option<T>, toJson: T -> Json): Option<Json> {
    if x.Some? then Some(toJson(x.value)) else None
  }

  function IntegerToJson(n: int32): Json {
    Integer(n)
  }

  lemma StateUpdateRequired(m: StateUpdate)
    ensures var j := StateUpdateToJson(m);
            && Lookup(j, "game_phase") == Some(String(m.gamePhase))
            && Lookup(j, "pot_size") == Some(Integer(m.potSize))
            && Lookup(j, "current_bet") == Some(Integer(m.currentBet))
            && Lookup(j, "player_stacks") == Some(PlayerStacksToJson(m.playerStacks))
            && Lookup(j, "valid_actions") == Some(StringsToJson(m.validActions))
  {
  }

  lemma StateUpdateOptional(m: StateUpdate)
    ensures var j := StateUpdateToJson(m);
            && Lookup(j, "community_cards") == Mapped(m.communityCards, StringsToJson)
            && Lookup(j, "hole_cards") == Mapped(m.holeCards, StringsToJson)
            && Lookup(j, "acting_seat") == Mapped(m.actingSeat, IntegerToJson)
  {
  }

  lemma ReparseLookup(j: Json, key: string)
    requires j.Object? && !(j.Contains(key) && j.o[key].NotFinite?)
    ensures Lookup(Reparse(j), key) == Mapped(Lookup(j, key), Reparse)
  {
  }

  lemma StateUpdateReparsed(m: StateUpdate)
    ensures var j := Reparse(StateUpdateToJson(m));
            && Lookup(j, "game_phase") == Some(String(m.gamePhase))
            && Lookup(j, "pot_size") == Some(Reparse(Integer(m.potSize)))
            && Lookup(j, "current_bet") == Some(Reparse(Integer(m.currentBet)))
            && Lookup(j, "player_stacks") == Some(Reparse(PlayerStacksToJson(m.playerStacks)))
            && Lookup(j, "valid_actions") == Some(Reparse(StringsToJson(m.validActions)))
  {
    StateUpdateRequired(m);
    var j := StateUpdateToJson(m);
    ReparseLookup(j, "game_phase");
    ReparseLookup(j, "pot_size");
    ReparseLookup(j, "current_bet");
    ReparseLookup(j, "player_stacks");
    ReparseLookup(j, "valid_actions");
  }

  lemma StateUpdateOptionalReparsed(m: StateUpdate)
    ensures var j := Reparse(StateUpdateToJson(m));
            && Lookup(j, "community_cards") == Mapped(m.communityCards, StringsToJson)
            && Lookup(j, "hole_cards") == Mapped(m.holeCards, StringsToJson)
            && Lookup(j, "acting_seat") == Mapped(Mapped(m.actingSeat, IntegerToJson), Reparse)
  {
    StateUpdateOptional(m);
    var j := StateUpdateToJson(m);
    ReparseLookup(j, "community_cards");
    ReparseLookup(j, "hole_cards");
    ReparseLookup(j, "acting_seat");
    if m.communityCards.Some? { StringsRoundTrip(m.communityCards.value); }
    if m.holeCards.Some? { StringsRoundTrip(m.holeCards.value); }
  }

  ghost predicate Found<T>(j: Json, key: string, get: Json -> Parsed<T>, v: T) {
    Lookup(j, key).Some? && get(Lookup(j, key).value) == Ok(v)
  }

  ghost predicate FoundOptional<T>(j: Json, key: string, get: Json -> Parsed<T>, v: Option<T>) {
    if v.Some? then Found(j, key, get, v.value) else Lookup(j, key).None?
  }

  lemma FoundIsRead<T>(j: Json, key: string, get: Json -> Parsed<T>, v: T)
    requires Found(j, key, get, v)
    ensures Field(j, key, get) == Ok(v)
  {
  }

  lemma FoundOptionalIsRead<T>(j: Json, key: string, get: Json -> Parsed<T>, v: Option<T>)
    requires FoundOptional(j, key, get, v)
    ensures OptionalField(j, key, get) == Ok(v)
  {
  }

  lemma ActionRead(j: Json, m: ActionMessage)
    requires Found(j, "session_id", GetString, m.sessionId) && Found(j, "action_type", GetString, m.actionType)
    requires Found(j, "sequence_number", GetInt64, m.sequenceNumber)
    requires FoundOptional(j, "amount", GetAmount, m.amount)
    ensures ActionFromJson(j) == Ok(m)
  {
    FoundIsRead(j, "session_id", GetString, m.sessionId);
    FoundIsRead(j, "action_type", GetString, m.actionType);
    FoundIsRead(j, "sequence_number", GetInt64, m.sequenceNumber);
    FoundOptionalIsRead(j, "amount", GetAmount, m.amount);
  }

  lemma ActionReparsed(m: ActionMessage)
    ensures var j := Reparse(ActionToJson(m));
            && Lookup(j, "session_id") == Some(String(m.sessionId))
            && Lookup(j, "action_type") == Some(String(m.actionType))
            && Lookup(j, "sequence_number") == Some(Reparse(Integer(m.sequenceNumber)))
            && Lookup(j, "amount") == if m.amount.Some? then Some(Reparse(Integer(m.amount.value))) else None
  {
    var j := ActionToJson(m);
    ReparseLookup(j, "session_id");
    ReparseLookup(j, "action_type");
    ReparseLookup(j, "sequence_number");
    ReparseLookup(j, "amount");
  }

  lemma AmountFound(j: Json, n: int64)
    requires Lookup(j, "amount") == Some(Reparse(Integer(n)))
    ensures Found(j, "amount", GetAmount, n)
  {
    WrapIsIdentity(n);
  }

  lemma ActionRoundTrip(m: ActionMessage)
    ensures ActionFromJson(ActionToJson(m)) == Ok(m)
    ensures ActionFromJson(Reparse(ActionToJson(m))) == Ok(m)
  {
    ActionReparsed(m);
    var j := Reparse(ActionToJson(m));
    IntegerFound(j, "sequence_number", m.sequenceNumber);
    if m.amount.Some? { AmountFound(j, m.amount.value); }
    ActionRead(j, m);
  }

  ghost predicate HoldsStateUpdate(j: Json, m: StateUpdate) {
    && Found(j, "game_phase", GetString, m.gamePhase)
    && Found(j, "pot_size", GetInt64, m.potSize)
    && Found(j, "current_bet", GetInt64, m.currentBet)
    && Found(j, "player_stacks", GetPlayerStacks, m.playerStacks)
    && Found(j, "valid_actions", GetStrings, m.validActions)
    && FoundOptional(j, "community_cards", GetStrings, m.communityCards)
    && FoundOptional(j, "hole_cards", GetStrings, m.holeCards)
    && FoundOptional(j, "acting_seat", GetInt32, m.actingSeat)
  }

  lemma StateUpdateRead(j: Json, m: StateUpdate)
    requires HoldsStateUpdate(j, m)
    ensures StateUpdateFromJson(j) == Ok(m)
  {
    FoundIsRead(j, "game_phase", GetString, m.gamePhase);
    FoundIsRead(j, "pot_size", GetInt64, m.potSize);
    FoundIsRead(j, "current_bet", GetInt64, m.currentBet);
    FoundIsRead(j, "player_stacks", GetPlayerStacks, m.playerStacks);
    FoundIsRead(j, "valid_actions", GetStrings, m.validActions);
    FoundOptionalIsRead(j, "community_cards", GetStrings, m.communityCards);
    FoundOptionalIsRead(j, "hole_cards", GetStrings, m.holeCards);
    FoundOptionalIsRead(j, "acting_seat", GetInt32, m.actingSeat);
  }

  lemma IntegerFound(j: Json, key: string, n: int64)
    requires Lookup(j, key) == Some(Integer(n)) || Lookup(j, key) == Some(Reparse(Integer(n)))
    ensures Found(j, key, GetInt64, n)
  {
    WrapIsIdentity(n);
  }

  lemma SeatFound(j: Json, key: string, n: Option<int32>)
    requires || Lookup(j, key) == Mapped(n, IntegerToJson)
             || Lookup(j, key) == Mapped(Mapped(n, IntegerToJson), Reparse)
    ensures FoundOptional(j, key, GetInt32, n)
  {
  }

  lemma StringsFound(j: Json, key: string, xs: Option<seq<string>>)
    requires Lookup(j, key) == Mapped(xs, StringsToJson)
    ensures FoundOptional(j, key, GetStrings, xs)
  {
    if xs.Some? { StringsRoundTrip(xs.value); }
  }

  lemma StateUpdateWritten(m: StateUpdate)
    ensures HoldsStateUpdate(StateUpdateToJson(m), m)
  {
    var j := StateUpdateToJson(m);
    StateUpdateRequired(m);
    StateUpdateOptional(m);
    IntegerFound(j, "pot_size", m.potSize);
    IntegerFound(j, "current_bet", m.currentBet);
    PlayerStacksRoundTrip(m.playerStacks);
    StringsRoundTrip(m.validActions);
    StringsFound(j, "community_cards", m.communityCards);
    StringsFound(j, "hole_cards", m.holeCards);
    SeatFound(j, "acting_seat", m.actingSeat);
  }

  lemma StateUpdateRewritten(m: StateUpdate)
    ensures HoldsStateUpdate(Reparse(StateUpdateToJson(m)), m)
  {
    var j := Reparse(StateUpdateToJson(m));
    StateUpdateReparsed(m);
    StateUpdateOptionalReparsed(m);
    IntegerFound(j, "pot_size", m.potSize);
    IntegerFound(j, "current_bet", m.currentBet);
    PlayerStacksRoundTrip(m.playerStacks);
    StringsRoundTrip(m.validActions);
    StringsFound(j, "community_cards", m.communityCards);
    StringsFound(j, "hole_cards", m.holeCards);
    SeatFound(j, "acting_seat", m.actingSeat);
  }

  lemma StateUpdateRoundTrip(m: StateUpdate)
    ensures StateUpdateFromJson(StateUpdateToJson(m)) == Ok(m)
    ensures StateUpdateFromJson(Reparse(StateUpdateToJson(m))) == Ok(m)
  {
    StateUpdateWritten(m);
    StateUpdateRewritten(m);
    StateUpdateRead(StateUpdateToJson(m), m);
    StateUpdateRead(Reparse(StateUpdateToJson(m)), m);
  }

  lemma ErrorRoundTrip(m: ErrorMessage)
    ensures ErrorFromJson(ErrorToJson(m)) == Ok(m)
    ensures ErrorFromJson(Reparse(ErrorToJson(m))) == Ok(m)
  {
    assert Reparse(ErrorToJson(m)).o.Keys == ErrorToJson(m).o.Keys;
  }

  lemma ReloadRequestRoundTrip(m: ReloadRequest)
    ensures ReloadRequestFromJson(ReloadRequestToJson(m)) == Ok(m)
    ensures ReloadRequestFromJson(Reparse(ReloadRequestToJson(m))) == Ok(m)
  {
    WrapIsIdentity(m.requestedAmount);
  }

  lemma ReloadResponseRoundTrip(m: ReloadResponse)
    ensures ReloadResponseFromJson(ReloadResponseToJson(m)) == Ok(m)
    ensures ReloadResponseFromJson(Reparse(ReloadResponseToJson(m))) == Ok(m)
  {
    WrapIsIdentity(m.newStack);
  }

  lemma DisconnectRoundTrip(m: DisconnectMessage)
    ensures DisconnectFromJson(DisconnectToJson(m)) == Ok(m)
    ensures DisconnectFromJson(Reparse(DisconnectToJson(m))) == Ok(m)
  {
    assert Reparse(DisconnectToJson(m)).o.Keys == DisconnectToJson(m).o.Keys;
  }

  lemma EnvelopeRoundTrip(e: Envelope)
    ensures EnvelopeFromJson(EnvelopeToJson(e)) == Ok(e)
    ensures EnvelopeFromJson(Reparse(EnvelopeToJson(e))) == Ok(e.(payload := Reparse(e.payload)))
  {
    assert Reparse(EnvelopeToJson(e)).o.Keys == EnvelopeToJson(e).o.Keys;
  }

  // ----- amounts

  /** A JSON integer as the protocol documents it: a whole number of cents in bounds. */
  predicate GoodCents(j: Json) {
    j.IsInteger() && 1 <= j.IntegerValue() <= 1_000_000_000_000_000
  }

  /** A JSON fraction as the protocol documents it: dollars that round to cents in bounds. */
  predicate GoodDollars(j: Json) {
    j.Real? && 0.005 <= j.r && j.r * 100.0 < 1_000_000_000_000_000.5
  }

  predicate GoodAmount(j: Json) {
    GoodCents(j) || GoodDollars(j)
  }

  /** The cents an amount stands for. */
  function Cents(j: Json): int
    requires GoodAmount(j)
  {
    if j.IsInteger() then j.IntegerValue() else Round(j.r * 100.0)
  }

  lemma RoundBounds(r: real, lo: int, hi: int)
    requires 0 < lo
    ensures Round(r) >= lo <==> r >= lo as real - 0.5
    ensures Round(r) <= hi && r >= 0.0 <==> r >= 0.0 && r < hi as real + 0.5
  {
    if r < 0.0 {
      assert Round(r) <= 0;
      assert lo as real >= 1.0;
    }
  }

  /** The wrapping cast lets no integer in that the bounds check would have refused unwrapped. */
  lemma AmountAcceptance(j: Json)
    ensures GetAmount(j).Ok? && ValidAmount(GetAmount(j).value) <==> GoodAmount(j)
    ensures GoodAmount(j) ==> GetAmount(j) == Ok(Cents(j)) && 1 <= Cents(j) <= 1_000_000_000_000_000
  {
    if j.IsInteger() {
      WrapIsIdentity(j.IntegerValue());
    } else if j.Real? {
      RoundBounds(j.r * 100.0, 1, MAX_AMOUNT);
    }
  }

  // ----- acceptance of client messages, in terms of the raw JSON

  predicate IsText(j: Json, key: string, text: string) {
    j.Contains(key) && j.o[key] == String(text)
  }

  predicate Addressed(j: Json, messageType: string) {
    && IsText(j, "message_type", messageType)
    && IsText(j, "protocol_version", "v1.0")
    && j.Contains("payload")
  }

  const ID_ALPHABET := "abcdefghijklmnopqrstuvwxyz0123456789_"

  /** "sess_" and up to 123 more characters, at least one of them, from the alphabet. */
  predicate WellFormedId(sid: string) {
    6 <= |sid| <= 128 && sid[..5] == "sess_" && forall k :: 5 <= k < |sid| ==> sid[k] in ID_ALPHABET
  }

  predicate Printable(text: string) {
    forall k :: 0 <= k < |text| ==> ' ' <= text[k] <= '~'
  }

  lemma AlphabetHas(c: char)
    requires SessionIdChar(c)
    ensures c in ID_ALPHABET
  {
    if 'a' <= c <= 'z' {
      assert ID_ALPHABET[c as int - 'a' as int] == c;
    } else if '0' <= c <= '9' {
      assert ID_ALPHABET[26 + (c as int - '0' as int)] == c;
    } else {
      assert ID_ALPHABET[36] == c;
    }
  }

  lemma AlphabetIsValid(k: nat)
    requires k < |ID_ALPHABET|
    ensures SessionIdChar(ID_ALPHABET[k])
  {
  }

  /** The format check accepts exactly the ids of that form. */
  lemma SessionIdFormat(sid: string)
    ensures ValidSessionId(sid) <==> WellFormedId(sid)
  {
    forall k | 5 <= k < |sid| ensures SessionIdChar(sid[k]) <==> sid[k] in ID_ALPHABET {
      if SessionIdChar(sid[k]) { AlphabetHas(sid[k]); }
      if sid[k] in ID_ALPHABET {
        var i :| 0 <= i < |ID_ALPHABET| && ID_ALPHABET[i] == sid[k];
        AlphabetIsValid(i);
      }
    }
  }

  predicate CarriesSessionId(p: Json) {
    p.Contains("session_id") && p.o["session_id"].String? && WellFormedId(p.o["session_id"].s)
  }

  /** A number whose whole part is a natural number below 2^63. */
  predicate GoodSequenceNumber(j: Json) {
    || (j.IsInteger() && 0 <= j.IntegerValue() < TWO_TO_THE_63)
    || (j.Real? && -1.0 < j.r < TWO_TO_THE_63 as real)
  }

  predicate AcceptableAction(j: Json) {
    && Addressed(j, "ACTION")
    && var p := j.o["payload"];
       && CarriesSessionId(p)
       && p.Contains("action_type") && p.o["action_type"].String?
       && p.o["action_type"].s in {"FOLD", "CHECK", "CALL", "RAISE", "ALL_IN"}
       && p.Contains("sequence_number") && GoodSequenceNumber(p.o["sequence_number"])
       && (p.o["action_type"].s in {"RAISE", "ALL_IN"} <==> p.Present("amount"))
       && (p.Present("amount") ==> GoodAmount(p.o["amount"]))
  }

  predicate AcceptableReload(j: Json) {
    && Addressed(j, "RELOAD_REQUEST")
    && var p := j.o["payload"];
       CarriesSessionId(p) && p.Contains("requested_amount") && GoodAmount(p.o["requested_amount"])
  }

  predicate AcceptableDisconnect(j: Json) {
    && Addressed(j, "DISCONNECT")
    && var p := j.o["payload"];
       && CarriesSessionId(p)
       && (p.Present("reason") ==>
             p.o["reason"].String? && |p.o["reason"].s| <= 256 && Printable(p.o["reason"].s))
  }

  /** Printable, not too long, and not only blanks. */
  predicate GoodName(j: Json) {
    j.String? && |j.s| <= 128 && Printable(j.s) && exists k :: 0 <= k < |j.s| && j.s[k] != ' '
  }

  /** Any version will do here, as long as payload and envelope name the same one. */
  predicate AcceptableHandshake(j: Json) {
    && IsText(j, "message_type", "HANDSHAKE")
    && j.Contains("protocol_version") && j.o["protocol_version"].String? && j.o["protocol_version"].s != ""
    && j.Contains("payload")
    && var p := j.o["payload"];
       && IsText(p, "protocol_version", j.o["protocol_version"].s)
       && (p.Present("client_name") ==> GoodName(p.o["client_name"]))
  }

  lemma TruncateBounds(r: real)
    ensures 0 <= Truncate(r) < TWO_TO_THE_63 <==> -1.0 < r < TWO_TO_THE_63 as real
    ensures r >= 0.0 ==> Truncate(r) as real <= r < Truncate(r) as real + 1.0
    ensures r < 0.0 ==> Truncate(r) as real - 1.0 < r <= Truncate(r) as real
  {
    if r < 0.0 { assert Truncate(r) == -(-r).Floor; }
  }

  lemma SequenceNumberAcceptance(j: Json)
    ensures GetInt64(j).Ok? && GetInt64(j).value >= 0 <==> GoodSequenceNumber(j)
    ensures GoodSequenceNumber(j) ==> GetInt64(j) == Ok(WholeValue(j)) && WholeValue(j) >= 0
  {
    if j.IsInteger() {
      WrapIsIdentity(j.IntegerValue());
    } else if j.Real? {
      TruncateBounds(j.r);
    }
  }

  lemma EnvelopeAcceptance(j: Json, messageType: string)
    ensures OpenEnvelope(j, messageType).Ok? <==> Addressed(j, messageType)
    ensures Addressed(j, messageType) ==> OpenEnvelope(j, messageType) == Ok(j.o["payload"])
    ensures !OpenEnvelope(j, messageType).Undefined?
  {
  }

  /** The action an acceptable message asks for. */
  function ActionAsked(j: Json): ActionMessage
    requires AcceptableAction(j)
  {
    var p := j.o["payload"];
    SequenceNumberAcceptance(p.o["sequence_number"]);
    if p.Present("amount") then
      AmountAcceptance(p.o["amount"]);
      ActionMessage(p.o["session_id"].s, p.o["action_type"].s, Some(Cents(p.o["amount"])),
                    WholeValue(p.o["sequence_number"]))
    else ActionMessage(p.o["session_id"].s, p.o["action_type"].s, None, WholeValue(p.o["sequence_number"]))
  }

  /** An ACTION envelope parses exactly when every documented rule holds of its JSON, and to what that asks for. */
  lemma ActionAcceptance(j: Json)
    ensures ParseAction(j).Ok? <==> AcceptableAction(j)
    ensures AcceptableAction(j) ==> ParseAction(j) == Ok(ActionAsked(j))
  {
    EnvelopeAcceptance(j, "ACTION");
    if Addressed(j, "ACTION") {
      var p := j.o["payload"];
      if p.Contains("session_id") && p.o["session_id"].String? { SessionIdFormat(p.o["session_id"].s); }
      if p.Contains("sequence_number") { SequenceNumberAcceptance(p.o["sequence_number"]); }
      if p.Present("amount") { AmountAcceptance(p.o["amount"]); }
    }
  }

  lemma ReloadAcceptance(j: Json)
    ensures ParseReload(j).Ok? <==> AcceptableReload(j)
    ensures AcceptableReload(j) ==>
              var p := j.o["payload"];
              && ParseReload(j).value.sessionId == p.o["session_id"].s
              && ParseReload(j).value.requestedAmount == Cents(p.o["requested_amount"])
  {
    EnvelopeAcceptance(j, "RELOAD_REQUEST");
    if Addressed(j, "RELOAD_REQUEST") {
      var p := j.o["payload"];
      if p.Contains("session_id") && p.o["session_id"].String? { SessionIdFormat(p.o["session_id"].s); }
      if p.Contains("requested_amount") { AmountAcceptance(p.o["requested_amount"]); }
    }
  }

  lemma DisconnectAcceptance(j: Json)
    ensures ParseDisconnect(j).Ok? <==> AcceptableDisconnect(j)
    ensures AcceptableDisconnect(j) ==> ParseDisconnect(j).value.sessionId == j.o["payload"].o["session_id"].s
    ensures !ParseDisconnect(j).Undefined?
  {
    EnvelopeAcceptance(j, "DISCONNECT");
    if Addressed(j, "DISCONNECT") {
      var p := j.o["payload"];
      if p.Contains("session_id") && p.o["session_id"].String? { SessionIdFormat(p.o["session_id"].s); }
    }
  }

  lemma HandshakeAcceptance(j: Json)
    ensures ParseHandshake(j).Ok? <==> AcceptableHandshake(j)
    ensures AcceptableHandshake(j) ==> ParseHandshake(j).value.protocolVersion == j.o["protocol_version"].s
    ensures !ParseHandshake(j).Undefined?
  {
    assert !EnvelopeFromJson(j).Undefined?;
  }

  /** The routing field: text of at most 32 characters. */
  lemma MessageTypeExactly(input: Option<Json>, messageType: string)
    ensures ExtractMessageType(input) == Some(messageType)
            <==> input.Some? && IsText(input.value, "message_type", messageType) && |messageType| <= 32
  {
  }

  /** A handshake the session goes on to register agrees with the server on the version twice over. */
  lemma HandshakeVersions(j: Json)
    ensures ParseHandshake(j).Ok? && ParseHandshake(j).value.protocolVersion == PROTOCOL_VERSION ==>
              && Addressed(j, "HANDSHAKE")
              && IsText(j.o["payload"], "protocol_version", PROTOCOL_VERSION)
  {
  }

  /** The only input whose handling C++ leaves undefined: a fraction no int64 can hold. */
  predicate Uncastable(j: Json) {
    j.NotFinite? || (j.Real? && !(-TWO_TO_THE_63 <= Truncate(j.r) < TWO_TO_THE_63))
  }

  lemma ActionUndefined(j: Json)
    ensures ParseAction(j).Undefined? <==>
              && Addressed(j, "ACTION")
              && var p := j.o["payload"];
                 && p.Contains("session_id") && p.o["session_id"].String?
                 && p.Contains("action_type") && p.o["action_type"].String?
                 && p.Contains("sequence_number")
                 && (|| Uncastable(p.o["sequence_number"])
                     || (&& p.o["sequence_number"].IsNumber() && p.Present("amount")
                         && p.o["amount"].Real? && Round(p.o["amount"].r * 100.0) == TWO_TO_THE_63))
  {
    EnvelopeAcceptance(j, "ACTION");
  }

  // ----- normalisation

  /** A valid action is understood as it was meant. */
  lemma ActionUnderstoodAsSent(m: ActionMessage)
    requires ValidAction(m)
    ensures ParseAction(Seal("ACTION", ActionToJson(m))) == Ok(m)
    ensures ParseAction(Reparse(Seal("ACTION", ActionToJson(m)))) == Ok(m)
  {
    ActionRoundTrip(m);
    EnvelopeRoundTrip(Envelope("ACTION", PROTOCOL_VERSION, ActionToJson(m)));
  }

  /**
   * Whatever form a message arrived in (cents or dollars, signed or unsigned
   * numbers, extra fields), sending what was understood and parsing it again
   * understands the same message.
   */
  lemma ActionNormalisation(j: Json, m: ActionMessage)
    requires ParseAction(j) == Ok(m)
    ensures ParseAction(Seal("ACTION", ActionToJson(m))) == Ok(m)
    ensures ParseAction(Reparse(Seal("ACTION", ActionToJson(m)))) == Ok(m)
  {
    ActionUnderstoodAsSent(m);
  }

  lemma ReloadNormalisation(j: Json, m: ReloadRequest)
    requires ParseReload(j) == Ok(m)
    ensures ParseReload(Seal("RELOAD_REQUEST", ReloadRequestToJson(m))) == Ok(m)
    ensures ParseReload(Reparse(Seal("RELOAD_REQUEST", ReloadRequestToJson(m)))) == Ok(m)
  {
    ReloadRequestRoundTrip(m);
    EnvelopeRoundTrip(Envelope("RELOAD_REQUEST", PROTOCOL_VERSION, ReloadRequestToJson(m)));
  }

  lemma DisconnectNormalisation(j: Json, m: DisconnectMessage)
    requires ParseDisconnect(j) == Ok(m)
    ensures ParseDisconnect(Seal("DISCONNECT", DisconnectToJson(m))) == Ok(m)
    ensures ParseDisconnect(Reparse(Seal("DISCONNECT", DisconnectToJson(m)))) == Ok(m)
  {
    DisconnectRoundTrip(m);
    EnvelopeRoundTrip(Envelope("DISCONNECT", PROTOCOL_VERSION, DisconnectToJson(m)));
  }

  // ----- what a client reads

  predicate IsWhole(j: Json, key: string, n: int) {
    j.Contains(key) && j.o[key].IsInteger() && j.o[key].IntegerValue() == n
  }

  /** What a client gets when the server seals this payload and sends it as text. */
  lemma SealedText(messageType: string, payload: Json)
    ensures var j := Reparse(Seal(messageType, payload));
            Addressed(j, messageType) && j.o["payload"] == Reparse(payload)
  {
    assert Seal(messageType, payload).o.Keys == {"message_type", "protocol_version", "payload"};
  }

  lemma TextKept(j: Json, key: string, text: string)
    requires Lookup(j, key) == Some(String(text))
    ensures IsText(j, key, text) && IsText(Reparse(j), key, text)
  {
  }

  lemma WholeKept(j: Json, key: string, n: int64)
    requires Lookup(j, key) == Some(Integer(n))
    ensures IsWhole(j, key, n) && IsWhole(Reparse(j), key, n)
  {
  }

  lemma ErrorOnTheWire(m: ErrorMessage)
    ensures var j := Reparse(SerializeError(m));
            && Addressed(j, "ERROR")
            && IsText(j.o["payload"], "error_code", m.errorCode)
            && IsText(j.o["payload"], "message", m.message)
            && (if m.sessionId.Some? then IsText(j.o["payload"], "session_id", m.sessionId.value)
                else !j.o["payload"].Contains("session_id"))
  {
    var p := ErrorToJson(m);
    SealedText("ERROR", p);
    TextKept(p, "error_code", m.errorCode);
    TextKept(p, "message", m.message);
    if m.sessionId.Some? { TextKept(p, "session_id", m.sessionId.value); }
  }

  lemma HandshakeResponseOnTheWire(m: HandshakeResponse)
    ensures var j := Reparse(SerializeHandshakeResponse(m));
            && Addressed(j, "HANDSHAKE_RESPONSE")
            && IsText(j.o["payload"], "session_id", m.sessionId)
            && IsWhole(j.o["payload"], "seat_number", m.seatNumber)
            && IsWhole(j.o["payload"], "starting_stack", m.startingStack)
  {
    var p := HandshakeResponseToJson(m);
    SealedText("HANDSHAKE_RESPONSE", p);
    TextKept(p, "session_id", m.sessionId);
    WholeKept(p, "seat_number", m.seatNumber);
    WholeKept(p, "starting_stack", m.startingStack);
  }

  lemma ReloadResponseOnTheWire(m: ReloadResponse)
    ensures var j := Reparse(SerializeReloadResponse(m));
            && Addressed(j, "RELOAD_RESPONSE")
            && j.o["payload"].Contains("granted") && j.o["payload"].o["granted"] == Boolean(m.granted)
            && IsWhole(j.o["payload"], "new_stack", m.newStack)
  {
    var p := ReloadResponseToJson(m);
    SealedText("RELOAD_RESPONSE", p);
    WholeKept(p, "new_stack", m.newStack);
    ReparseLookup(p, "granted");
    assert Lookup(p, "granted") == Some(Boolean(m.granted));
  }

  /** The stacks of a list, entry by entry. */
  predicate IsStacks(j: Json, stacks: seq<PlayerStack>) {
    && j.Array? && |j.a| == |stacks|
    && forall k :: 0 <= k < |stacks| ==>
         IsWhole(j.a[k], "seat", stacks[k].seat) && IsWhole(j.a[k], "stack", stacks[k].stack)
  }

  lemma StacksKept(stacks: seq<PlayerStack>)
    ensures IsStacks(Reparse(PlayerStacksToJson(stacks)), stacks)
  {
    forall k | 0 <= k < |stacks|
      ensures var p := Reparse(PlayerStackToJson(stacks[k]));
              IsWhole(p, "seat", stacks[k].seat) && IsWhole(p, "stack", stacks[k].stack)
    {
      WholeKept(PlayerStackToJson(stacks[k]), "seat", stacks[k].seat);
      WholeKept(PlayerStackToJson(stacks[k]), "stack", stacks[k].stack);
    }
  }

  predicate IsTexts(j: Json, texts: seq<string>) {
    j.Array? && |j.a| == |texts| && forall k :: 0 <= k < |texts| ==> j.a[k] == String(texts[k])
  }

  lemma TextsKept(j: Json, key: string, texts: seq<string>)
    requires Lookup(j, key) == Some(StringsToJson(texts))
    ensures j.Contains(key) && IsTexts(j.o[key], texts)
  {
  }

  predicate StateOnTheWire(p: Json, m: StateUpdate) {
    && IsText(p, "game_phase", m.gamePhase)
    && IsWhole(p, "pot_size", m.potSize) && IsWhole(p, "current_bet", m.currentBet)
    && p.Contains("player_stacks") && IsStacks(p.o["player_stacks"], m.playerStacks)
    && p.Contains("valid_actions") && IsTexts(p.o["valid_actions"], m.validActions)
  }

  /** What a state update may leave out is there exactly when the message has it. */
  predicate ExtrasOnTheWire(p: Json, m: StateUpdate) {
    && (m.communityCards.Some? <==> p.Present("community_cards"))
    && (m.communityCards.Some? ==> IsTexts(p.o["community_cards"], m.communityCards.value))
    && (m.holeCards.Some? <==> p.Present("hole_cards"))
    && (m.holeCards.Some? ==> IsTexts(p.o["hole_cards"], m.holeCards.value))
    && (m.actingSeat.Some? <==> p.Present("acting_seat"))
    && (m.actingSeat.Some? ==> IsWhole(p, "acting_seat", m.actingSeat.value))
  }

  lemma StateKept(m: StateUpdate)
    ensures StateOnTheWire(Reparse(StateUpdateToJson(m)), m)
  {
    var p := StateUpdateToJson(m);
    StateUpdateRequired(m);
    StateUpdateReparsed(m);
    WholeKept(p, "pot_size", m.potSize);
    WholeKept(p, "current_bet", m.currentBet);
    StacksKept(m.playerStacks);
    StringsRoundTrip(m.validActions);
    TextsKept(Reparse(p), "valid_actions", m.validActions);
  }

  lemma ExtrasKept(m: StateUpdate)
    ensures ExtrasOnTheWire(Reparse(StateUpdateToJson(m)), m)
  {
    var p := Reparse(StateUpdateToJson(m));
    StateUpdateOptionalReparsed(m);
    if m.communityCards.Some? { TextsKept(p, "community_cards", m.communityCards.value); }
    if m.holeCards.Some? { TextsKept(p, "hole_cards", m.holeCards.value); }
  }

  lemma StateUpdateOnTheWire(m: StateUpdate)
    ensures var j := Reparse(SerializeStateUpdate(m));
            && Addressed(j, "STATE_UPDATE")
            && StateOnTheWire(j.o["payload"], m) && ExtrasOnTheWire(j.o["payload"], m)
  {
    SealedText("STATE_UPDATE", StateUpdateToJson(m));
    StateKept(m);
    ExtrasKept(m);
  }
}
