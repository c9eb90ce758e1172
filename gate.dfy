/**
 * The ticket gate (block/GateBlockEntity.java): the decision whether a held
 * ticket lets its holder through, the ticket's status change on a pass, the
 * one-player-at-a-time passage with its cooldown and timeout, and what the
 * gate saves and loads.
 *
 * The world comes in as parameters: the game time, the wall-clock time, the
 * player and whether that player is online. Ticket ids are checked by a
 * UUID parser that is not part of this model (`parsesAsUuid`).
 */
module Gate {
  import opened Wrappers
  import opened Text
  import opened Nbt

  /** The ticket statuses. */
  const Unused := "UNUSED"
  const InUse := "IN_USE"
  const Completed := "COMPLETED"

  /** The translation keys of the refusals. */
  const NoTicket := "ticketsystem.gate.no_ticket"
  const InvalidTicket := "ticketsystem.gate.invalid_ticket"
  const Expired := "ticketsystem.gate.expired"
  const AlreadyUsed := "ticketsystem.gate.already_used"
  const InUseKey := "ticketsystem.gate.in_use"
  const NotUsed := "ticketsystem.gate.not_used"
  const WrongStart := "ticketsystem.gate.wrong_start"
  const WrongEnd := "ticketsystem.gate.wrong_end"
  const SameGate := "ticketsystem.gate.same_gate"
  const InvalidStatus := "ticketsystem.gate.invalid_status"

  /** How long a passing player holds the gate, in ticks (one minute). */
  const PassTimeout: int := 1200

  datatype GateType = In | Out | Bidirectional

  /** GateType.name(). */
  function TypeName(t: GateType): string
  {
    match t
    case In => "IN"
    case Out => "OUT"
    case Bidirectional => "BIDIRECTIONAL"
  }

  /** GateType.valueOf: None where it throws. */
  function TypeOf(name: string): (r: Option<GateType>)
    ensures r.Some? ==> TypeName(r.value) == name
    ensures r.None? ==> forall t :: TypeName(t) != name
  {
    if name == "IN" then Some(In)
    else if name == "OUT" then Some(Out)
    else if name == "BIDIRECTIONAL" then Some(Bidirectional)
    else None
  }

  /** The held item stack: whether it is a ticket, how many, and its tag if any. */
  datatype Stack = Stack(isTicket: bool, count: nat, tag: Option<Tag>)

  /** What checkTicket decides; Throws where the ticket id fails to parse. */
  datatype Verdict = Pass | Deny(reason: string) | Throws

  /** The gate's configuration as it is saved. */
  datatype GateConfig = GateConfig(gateId: string, stationId: string, gateType: GateType, allowReentry: bool,
                                   maxTravelMinutes: int, destroyTicket: bool, enabled: bool)

  /** A same-gate mark under `key` naming this gate. */
  predicate MarkedBy(tag: Tag, key: string, gateId: string)
  {
    key in tag && GetString(tag, key) == gateId
  }

  /** checkInTicket. */
  function CheckIn(c: GateConfig, status: string, start: string, tag: Tag): (v: Verdict)
    ensures v == Pass <==> status != Completed && status != InUse && start == c.stationId && !MarkedBy(tag, "gate_id", c.gateId)
    ensures status == Completed ==> v == Deny(AlreadyUsed)
    ensures status == InUse ==> v == Deny(InUseKey)
  {
    if status == Completed then Deny(AlreadyUsed)
    else if status == InUse then Deny(InUseKey)
    else if start != c.stationId then Deny(WrongStart)
    else if MarkedBy(tag, "gate_id", c.gateId) then Deny(SameGate)
    else Pass
  }

  /** checkOutTicket. */
  function CheckOut(c: GateConfig, status: string, end: string, tag: Tag): (v: Verdict)
    ensures v == Pass <==> status != Unused && status != Completed && end == c.stationId && !MarkedBy(tag, "exit_gate_id", c.gateId)
    ensures status == Unused ==> v == Deny(NotUsed)
    ensures status == Completed ==> v == Deny(AlreadyUsed)
  {
    if status == Unused then Deny(NotUsed)
    else if status == Completed then Deny(AlreadyUsed)
    else if end != c.stationId then Deny(WrongEnd)
    else if MarkedBy(tag, "exit_gate_id", c.gateId) then Deny(SameGate)
    else Pass
  }

  /** checkBidirectionalTicket. */
  function CheckBidirectional(c: GateConfig, status: string, start: string, end: string): (v: Verdict)
    ensures v == Pass <==> (status == InUse && end == c.stationId) || (status == Unused && start == c.stationId)
    ensures status != InUse && status != Unused ==> v == Deny(InvalidStatus)
  {
    if status == InUse then (if end != c.stationId then Deny(WrongEnd) else Pass)
    else if status == Unused then (if start != c.stationId then Deny(WrongStart) else Pass)
    else Deny(InvalidStatus)
  }

  /** Whole minutes since the ticket was issued: Java's truncating long division. */
  function TravelMinutes(tag: Tag, now: int): int
  {
    JavaDiv(now - GetNumber(tag, "IssueTime"), 60000)
  }

  /** checkTicket. */
  function CheckTicket(c: GateConfig, stack: Stack, now: int, parsesAsUuid: string -> bool): (v: Verdict)
    ensures stack.count == 0 || !stack.isTicket ==> v == Deny(NoTicket)
    ensures v == Pass ==> stack.count > 0 && stack.isTicket && stack.tag.Some? && "TicketId" in stack.tag.value
                          && TravelMinutes(stack.tag.value, now) <= c.maxTravelMinutes
    ensures v.Throws? <==> stack.count > 0 && stack.isTicket && stack.tag.Some? && "TicketId" in stack.tag.value
                           && !parsesAsUuid(GetString(stack.tag.value, "TicketId"))
  {
    if stack.count == 0 || !stack.isTicket then Deny(NoTicket)
    else if stack.tag.None? then Deny(InvalidTicket)
    else
      var tag := stack.tag.value;
      if "TicketId" !in tag then Deny(InvalidTicket)
      else if !parsesAsUuid(GetString(tag, "TicketId")) then Throws
      else
        var status := GetString(tag, "Status");
        if TravelMinutes(tag, now) > c.maxTravelMinutes then Deny(Expired)
        else
          match c.gateType
          case In => CheckIn(c, status, GetString(tag, "StartStation"), tag)
          case Out => CheckOut(c, status, GetString(tag, "Destination"), tag)
          case Bidirectional => CheckBidirectional(c, status, GetString(tag, "StartStation"), GetString(tag, "Destination"))
  }

  /** Whether a pass through this gate is an entry. */
  predicate IsEntry(c: GateConfig, tag: Tag)
  {
    c.gateType == In || (c.gateType == Bidirectional && GetString(tag, "Status") == Unused)
  }

  /**
   * handleSuccess on the ticket: an entry marks it IN_USE with EntryGate, an
   * exit marks it COMPLETED with ExitGate and ExitTime and takes one ticket
   * from the stack when the gate destroys tickets.
   */
  function Passed(c: GateConfig, stack: Stack, now: int): (r: Stack)
    ensures r.isTicket == stack.isTicket && r.tag.Some?
    ensures var tag := if stack.tag.Some? then stack.tag.value else map[];
            GetString(r.tag.value, "Status") == (if IsEntry(c, tag) then InUse else Completed)
            && GetString(r.tag.value, if IsEntry(c, tag) then "EntryGate" else "ExitGate") == c.gateId
            && (forall k :: k in tag && k != "Status" && k != "EntryGate" && k != "ExitGate" && k != "ExitTime" ==>
                  k in r.tag.value && r.tag.value[k] == tag[k])
            && r.count == (if !IsEntry(c, tag) && c.destroyTicket && stack.count > 0 then stack.count - 1 else stack.count)
  {
    var tag := if stack.tag.Some? then stack.tag.value else map[];
    if IsEntry(c, tag) then
      Stack(stack.isTicket, stack.count, Some(tag["Status" := StrV(InUse)]["EntryGate" := StrV(c.gateId)]))
    else
      var count := if c.destroyTicket && stack.count > 0 then stack.count - 1 else stack.count;
      Stack(stack.isTicket, count, Some(tag["Status" := StrV(Completed)]["ExitGate" := StrV(c.gateId)]["ExitTime" := LongV(now)]))
  }

  /** The passage state: the player going through, the timeout, and the gate's OPEN block property. */
  datatype Passage = Passage(player: Option<string>, timeout: int, open: bool)

  /** A player holds the gate only while the timeout runs. */
  predicate Bounded(p: Passage)
  {
    p.player.Some? ==> p.timeout > 0
  }

  /**
   * One enabled tick: a running timeout counts down, and at zero the gate is
   * reset and closed; a player who is no longer online resets the gate.
   */
  function Ticked(p: Passage, online: bool): Passage
  {
    var p1 := if p.timeout > 0 then (if p.timeout - 1 <= 0 then Passage(None, 0, false) else p.(timeout := p.timeout - 1)) else p;
    if p1.player.Some? && !online then p1.(player := None, timeout := 0) else p1
  }

  /** Several enabled ticks, with whether the player is online at each. */
  function TickRun(p: Passage, online: seq<bool>): Passage
    decreases |online|
  {
    if online == [] then p else TickRun(Ticked(p, online[0]), online[1..])
  }

  /** What saveAdditional writes and load reads back. */
  datatype GateRecord = GateRecord(config: GateConfig, player: Option<string>, timeout: int)

  /** saveAdditional. */
  function Encode(r: GateRecord): Tag
  {
    var t := map["GateId" := StrV(r.config.gateId), "StationId" := StrV(r.config.stationId),
                 "GateType" := StrV(TypeName(r.config.gateType)), "AllowReentry" := BoolV(r.config.allowReentry),
                 "MaxTravelMinutes" := IntV(r.config.maxTravelMinutes), "DestroyTicket" := BoolV(r.config.destroyTicket),
                 "Enabled" := BoolV(r.config.enabled), "TimeoutTicks" := IntV(r.timeout)];
    if r.player.Some? then t["CurrentPlayer" := UuidV(r.player.value)] else t
  }

  /**
   * load over the previous record: the ids are read first, so an unknown
   * gate type (valueOf throws) leaves them changed and the rest as it was;
   * a missing CurrentPlayer keeps the previous player.
   */
  function Decode(t: Tag, prev: GateRecord): GateRecord
  {
    var ids := prev.config.(gateId := GetString(t, "GateId"), stationId := GetString(t, "StationId"));
    match TypeOf(GetString(t, "GateType"))
    case None => prev.(config := ids)
    case Some(ty) =>
      GateRecord(GateConfig(ids.gateId, ids.stationId, ty, GetBool(t, "AllowReentry"), GetNumber(t, "MaxTravelMinutes"),
                            GetBool(t, "DestroyTicket"), GetBool(t, "Enabled")),
                 if HasUuid(t, "CurrentPlayer") then Some(t["CurrentPlayer"].u) else prev.player,
                 GetNumber(t, "TimeoutTicks"))
  }

  class GateEntity {
    var gateId: string
    var stationId: string
    var gateType: GateType
    var allowReentry: bool
    var maxTravelMinutes: int
    var destroyTicket: bool
    var enabled: bool
    var lastPassTime: int
    var cooldownTicks: int
    var currentPlayer: Option<string>
    var timeoutTicks: int
    /** The OPEN property of the gate's block state. */
    var open: bool

    function Config(): GateConfig
      reads this
    {
      GateConfig(gateId, stationId, gateType, allowReentry, maxTravelMinutes, destroyTicket, enabled)
    }

    function State(): Passage
      reads this
    {
      Passage(currentPlayer, timeoutTicks, open)
    }

    function Record(): GateRecord
      reads this
    {
      GateRecord(Config(), currentPlayer, timeoutTicks)
    }

    /** A new gate: id "G-" and eight characters of a random UUID, bidirectional, enabled, a day's travel limit. */
    constructor (idSuffix: string, blockOpen: bool)
      requires |idSuffix| == 8
      ensures Config() == GateConfig("G-" + idSuffix, "", Bidirectional, false, 1440, true, true)
      ensures lastPassTime == 0 && cooldownTicks == 20
      ensures State() == Passage(None, 0, blockOpen)
    {
      gateId := "G-" + idSuffix;
      stationId := "";
      gateType := Bidirectional;
      allowReentry := false;
      maxTravelMinutes := 1440;
      destroyTicket := true;
      enabled := true;
      lastPassTime := 0;
      cooldownTicks := 20;
      currentPlayer := None;
      timeoutTicks := 0;
      open := blockOpen;
    }

    /**
     * tryPassThrough: ignored while disabled, while a player is passing or
     * within the cooldown; otherwise the held ticket is checked, a pass
     * records the player with a one-minute timeout, opens the gate and
     * updates the ticket, and the pass time is taken whatever the verdict,
     * unless the check threw.
     */
    method TryPassThrough(player: string, stack: Stack, gameTime: int, now: int, parsesAsUuid: string -> bool)
      returns (after: Stack)
      modifies this
      ensures Config() == old(Config()) && cooldownTicks == old(cooldownTicks)
      ensures var ignored := !old(enabled) || old(currentPlayer).Some? || gameTime - old(lastPassTime) < old(cooldownTicks);
              var v := CheckTicket(old(Config()), stack, now, parsesAsUuid);
              if ignored || v.Throws? then State() == old(State()) && lastPassTime == old(lastPassTime) && after == stack
              else lastPassTime == gameTime
                   && if v == Pass then State() == Passage(Some(player), PassTimeout, true) && after == Passed(old(Config()), stack, now)
                      else State() == old(State()) && after == stack
    {
      after := stack;
      if !enabled || currentPlayer.Some? || gameTime - lastPassTime < cooldownTicks {
        return;
      }
      var verdict := CheckTicket(Config(), stack, now, parsesAsUuid);
      if verdict.Throws? {
        return;
      }
      if verdict == Pass {
        currentPlayer := Some(player);
        timeoutTicks := PassTimeout;
        open := true;
        after := Passed(Config(), stack, now);
      }
      lastPassTime := gameTime;
    }

    /** resetGate. */
    method ResetGate()
      modifies this
      ensures currentPlayer == None && timeoutTicks == 0
      ensures Config() == old(Config()) && open == old(open) && lastPassTime == old(lastPassTime) && cooldownTicks == old(cooldownTicks)
    {
      currentPlayer := None;
      timeoutTicks := 0;
    }

    /** tick on the server, given whether the passing player is online. */
    method Tick(online: bool)
      modifies this
      ensures Config() == old(Config()) && lastPassTime == old(lastPassTime) && cooldownTicks == old(cooldownTicks)
      ensures State() == if old(enabled) then Ticked(old(State()), online) else old(State())
    {
      if !enabled {
        return;
      }
      if timeoutTicks > 0 {
        timeoutTicks := timeoutTicks - 1;
        if timeoutTicks <= 0 {
          ResetGate();
          open := false;
        }
      }
      if currentPlayer.Some? && !online {
        ResetGate();
      }
    }

    /** saveAdditional. */
    function Save(): Tag
      reads this
    {
      Encode(Record())
    }

    /** load: false where the saved gate type is unknown and valueOf throws. */
    method Load(t: Tag) returns (loaded: bool)
      modifies this
      ensures loaded <==> TypeOf(GetString(t, "GateType")).Some?
      ensures Record() == Decode(t, old(Record()))
      ensures lastPassTime == old(lastPassTime) && cooldownTicks == old(cooldownTicks) && open == old(open)
    {
      gateId, stationId := GetString(t, "GateId"), GetString(t, "StationId");
      var ty := TypeOf(GetString(t, "GateType"));
      if ty.None? {
        return false;
      }
      LoadTyped(t, ty.value);
      loaded := true;
    }

    /** The rest of load, once the gate type is known. */
    method LoadTyped(t: Tag, ty: GateType)
      modifies this
      ensures Record() == GateRecord(GateConfig(old(gateId), old(stationId), ty, GetBool(t, "AllowReentry"), GetNumber(t, "MaxTravelMinutes"),
                                                GetBool(t, "DestroyTicket"), GetBool(t, "Enabled")),
                                     if HasUuid(t, "CurrentPlayer") then Some(t["CurrentPlayer"].u) else old(currentPlayer),
                                     GetNumber(t, "TimeoutTicks"))
      ensures lastPassTime == old(lastPassTime) && cooldownTicks == old(cooldownTicks) && open == old(open)
    {
      gateType, allowReentry, maxTravelMinutes := ty, GetBool(t, "AllowReentry"), GetNumber(t, "MaxTravelMinutes");
      destroyTicket, enabled := GetBool(t, "DestroyTicket"), GetBool(t, "Enabled");
      if HasUuid(t, "CurrentPlayer") {
        currentPlayer := Some(t["CurrentPlayer"].u);
      }
      timeoutTicks := GetNumber(t, "TimeoutTicks");
    }
  }

  // ---------------- properties ----------------

  /** No gate lets a COMPLETED ticket through. */
  lemma CompletedNeverPasses(c: GateConfig, stack: Stack, now: int, parsesAsUuid: string -> bool)
    requires stack.tag.Some? && GetString(stack.tag.value, "Status") == Completed
    ensures CheckTicket(c, stack, now, parsesAsUuid) != Pass
  {
  }

  /**
   * A pass moves the ticket forward: an entry leaves it IN_USE, an exit
   * COMPLETED, and on a bidirectional gate an UNUSED ticket enters and an
   * IN_USE ticket exits.
   */
  lemma PassAdvances(c: GateConfig, stack: Stack, now: int, parsesAsUuid: string -> bool)
    requires CheckTicket(c, stack, now, parsesAsUuid) == Pass
    ensures var before := GetString(stack.tag.value, "Status");
            var after := GetString(Passed(c, stack, now).tag.value, "Status");
            before != Completed
            && (c.gateType == In ==> after == InUse && before != InUse)
            && (c.gateType == Out ==> after == Completed && before != Unused)
            && (c.gateType == Bidirectional ==> (before == Unused && after == InUse) || (before == InUse && after == Completed))
  {
  }

  /** Neither pass-time mark the checks read. */
  predicate Unmarked(tag: Tag)
  {
    "gate_id" !in tag && "exit_gate_id" !in tag
  }

  /**
   * The same-gate refusals read gate_id and exit_gate_id, but a pass writes
   * EntryGate and ExitGate: a ticket without the former keeps lacking them
   * after any pass, so no gate ever refuses it as same_gate.
   */
  lemma SameGateNeverFires(c: GateConfig, stack: Stack, now: int, parsesAsUuid: string -> bool)
    requires stack.tag.Some? && Unmarked(stack.tag.value)
    ensures CheckTicket(c, stack, now, parsesAsUuid) != Deny(SameGate)
    ensures Unmarked(Passed(c, stack, now).tag.value)
  {
  }

  /** A gate recorded as passing by tryPassThrough, and every tick, keep the player only while the timeout runs. */
  lemma TickedBounded(p: Passage, online: bool)
    requires Bounded(p)
    ensures Bounded(Ticked(p, online))
    ensures Ticked(p, online).timeout <= p.timeout || p.timeout <= 0
  {
  }

  /** A gate held by a player is free again after at most as many enabled ticks as its timeout. */
  lemma {:induction false} FreedByTimeout(p: Passage, online: seq<bool>)
    requires Bounded(p) && |online| >= p.timeout
    ensures TickRun(p, online).player.None?
    decreases |online|
  {
    if online != [] {
      var p1 := Ticked(p, online[0]);
      assert p1.timeout <= 0 || p1.timeout == p.timeout - 1;
      FreedByTimeout(p1, online[1..]);
    }
  }

  /**
   * Saving then loading restores the record. Where no player was passing
   * the save has no CurrentPlayer, so loading keeps whatever player the
   * loading gate had.
   */
  lemma SaveLoad(r: GateRecord, prev: GateRecord)
    ensures Decode(Encode(r), prev) == if r.player.Some? then r else r.(player := prev.player)
  {
    var t := Encode(r);
    assert t["GateId"] == StrV(r.config.gateId);
    assert t["StationId"] == StrV(r.config.stationId);
    assert t["GateType"] == StrV(TypeName(r.config.gateType));
    assert t["AllowReentry"] == BoolV(r.config.allowReentry);
    assert t["MaxTravelMinutes"] == IntV(r.config.maxTravelMinutes);
    assert t["DestroyTicket"] == BoolV(r.config.destroyTicket);
    assert t["Enabled"] == BoolV(r.config.enabled);
    assert t["TimeoutTicks"] == IntV(r.timeout);
    assert HasUuid(t, "CurrentPlayer") <==> r.player.Some?;
  }
}
