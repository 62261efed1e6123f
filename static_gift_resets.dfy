/**
 * The static gift reset mode: find the gift the player is facing in a fixed
 * table, check the saved game before soft resetting, then reset until a
 * gift creature is worth keeping. Eggs (Wynaut, Togepi) are hatched and
 * judged through the hatch callback instead.
 */
module StaticGiftResets {
  import opened Common
  import opened Encounter

  datatype Rom = FireRedLeafGreen | RubySapphire | Emerald

  /** The maps of the gift table; any other map is `OtherMap`. */
  datatype MapName =
    | SilphCo7F | SaffronCityDojo | CinnabarLabExperimentRoom | CeladonCondominiumsRoofRoom
    | Route4PokemonCenter1F | FiveIslandWaterLabyrinth
    | Route119WeatherInstitute2F | RustboroDevonCorp2F | MossdeepStevensHouse | LavaridgeTown
    | OtherMap(group: nat, number: nat)

  datatype Gift = Lapras | Hitmonlee | Hitmonchan | KantoFossils | Eevee | Magikarp | Togepi
                | Castform | HoennFossils | Beldum | Wynaut
  {
    predicate IsFossils() { this == KantoFossils || this == HoennFossils }
  }

  /** A map tile: the map and the local coordinates on it. */
  datatype Tile = Tile(mapName: MapName, position: (int, int))

  datatype GiftEntry = GiftEntry(mapName: MapName, position: (int, int), gift: Gift)

  const FrlgGifts: seq<GiftEntry> := [
    GiftEntry(SilphCo7F, (0, 7), Lapras),
    GiftEntry(SaffronCityDojo, (5, 3), Hitmonlee),
    GiftEntry(SaffronCityDojo, (7, 3), Hitmonchan),
    GiftEntry(CinnabarLabExperimentRoom, (11, 2), KantoFossils),
    GiftEntry(CinnabarLabExperimentRoom, (13, 4), KantoFossils),
    GiftEntry(CeladonCondominiumsRoofRoom, (7, 3), Eevee),
    GiftEntry(Route4PokemonCenter1F, (1, 3), Magikarp),
    GiftEntry(FiveIslandWaterLabyrinth, (14, 11), Togepi)
  ]

  const RseGifts: seq<GiftEntry> := [
    GiftEntry(Route119WeatherInstitute2F, (2, 2), Castform),
    GiftEntry(Route119WeatherInstitute2F, (18, 6), Castform),
    GiftEntry(Route119WeatherInstitute2F, (4, 6), Castform),
    GiftEntry(RustboroDevonCorp2F, (14, 8), HoennFossils),
    GiftEntry(MossdeepStevensHouse, (4, 3), Beldum),
    GiftEntry(LavaridgeTown, (4, 7), Wynaut)
  ]

  function GiftTable(rom: Rom): seq<GiftEntry> {
    if rom == FireRedLeafGreen then FrlgGifts else RseGifts
  }

  predicate Matches(e: GiftEntry, t: Tile) {
    e.mapName == t.mapName && e.position == t.position
  }

  /** The first entry of the table on the given tile. */
  function FirstMatch(table: seq<GiftEntry>, t: Tile): (r: Option<nat>)
    ensures r.None? <==> forall i :: 0 <= i < |table| ==> !Matches(table[i], t)
    ensures r.Some? ==> r.value < |table| && Matches(table[r.value], t)
    ensures r.Some? ==> forall i :: 0 <= i < r.value ==> !Matches(table[i], t)
  {
    if table == [] then None
    else if Matches(table[0], t) then Some(0)
    else match FirstMatch(table[1..], t)
      case None => None
      case Some(i) => Some(i + 1)
  }

  /**
   * `_get_targeted_encounter`: nothing when no tile is in front of the
   * player, else the first table entry on that tile.
   */
  function TargetedEncounter(rom: Rom, inFront: Option<Tile>): (r: Option<GiftEntry>)
    ensures inFront.None? ==> r.None?
    ensures inFront.Some? ==> (r.None? <==> forall e :: e in GiftTable(rom) ==> !Matches(e, inFront.value))
    ensures r.Some? ==> r.value in GiftTable(rom) && Matches(r.value, inFront.value)
  {
    if inFront.None? then None
    else match FirstMatch(GiftTable(rom), inFront.value)
      case None => None
      case Some(i) => Some(GiftTable(rom)[i])
  }

  /** The mode can be selected exactly when the player faces a tile of the table. */
  function IsSelectable(rom: Rom, inFront: Option<Tile>): (r: bool)
    ensures r <==> inFront.Some? && exists e :: e in GiftTable(rom) && Matches(e, inFront.value)
  {
    TargetedEncounter(rom, inFront).Some?
  }

  /** No two entries of a table share a tile, so facing an entry's tile always yields that entry. */
  lemma TablesUnambiguous(rom: Rom, i: nat)
    requires i < |GiftTable(rom)|
    ensures var e := GiftTable(rom)[i];
            TargetedEncounter(rom, Some(Tile(e.mapName, e.position))) == Some(e)
  {
    var table := GiftTable(rom);
    var e := table[i];
    var k := FirstMatch(table, Tile(e.mapName, e.position)).value;
    assert k == i;
  }

  // ---------------------------------------------------------------------------
  // Preconditions of `run`

  datatype GiftError =
    | NotFacingGift | NoSavedGame | NotInSavedMap
    | MachBikeNotRegistered | WynautEggAlreadyReceived
    | TogepiEggAlreadyReceived | BicycleNotRegistered | NoLeadInSavedParty | LeadFriendshipNotMax
    | FossilNotGiven | FossilGivenNotSaved | ScientistNotReady | RevivalNotSaved
    | PartyFull
    | UnknownEncounterType

  datatype SavedMember = SavedMember(friendship: nat, ability: string)

  /**
   * What `run` reads from the saved game. The registered-item and empty-slot
   * assertions are helpers whose bodies are not part of this model; their
   * outcome is given.
   */
  datatype SavedGame = SavedGame(
    mapName: MapName,
    machBikeRegistered: bool,
    bicycleRegistered: bool,
    receivedLavaridgeEgg: bool,
    gotTogepiEgg: bool,
    party: seq<SavedMember>,
    fossilState: int,
    hasEmptyPartySlot: bool)

  /**
   * The fossil check as written: when either value is 0 the live value
   * picks the message; otherwise a saved value of 1 fails too, and again
   * the live value picks the message.
   */
  function FossilCheck(saved: int, live: int): (r: Option<GiftError>)
    ensures r.None? <==> saved != 0 && saved != 1 && live != 0
    ensures r == Some(FossilNotGiven) <==> live == 0
    ensures r == Some(FossilGivenNotSaved) <==> saved == 0 && live != 0
    ensures r == Some(ScientistNotReady) <==> saved == 1 && live == 1
    ensures r == Some(RevivalNotSaved) <==> saved == 1 && live != 0 && live != 1
  {
    if saved == 0 || live == 0 then
      if live == 0 then Some(FossilNotGiven) else Some(FossilGivenNotSaved)
    else if saved == 1 then
      if live == 1 then Some(ScientistNotReady) else Some(RevivalNotSaved)
    else None
  }

  /** The first check wins: a fossil given in the saved game but not live is reported as never given. */
  lemma FossilSavedButNotLive()
    ensures FossilCheck(1, 0) == Some(FossilNotGiven)
  {
  }

  predicate HasHatchSpeedAbility(party: seq<SavedMember>) {
    exists i :: 0 <= i < |party| && (party[i].ability == "Flame Body" || party[i].ability == "Magma Armor")
  }

  /** The outcome of the precondition section: whether the ability warning was printed, and the gift or the error. */
  datatype CheckOutcome = CheckOutcome(warned: bool, result: Result<GiftEntry, GiftError>)

  /** The egg branch walks the hatching route; it exists only for the two egg gifts. */
  predicate IsEggGift(g: Gift) {
    g == Wynaut || g == Togepi
  }

  datatype EggOutcome = EggOutcome(warned: bool, error: Option<GiftError>)

  /**
   * What the saved game must hold for an egg gift: for Wynaut the Mach
   * Bike registered and the egg not yet received; for Togepi the egg not
   * yet received, the Bicycle registered and a lead with friendship 255.
   */
  predicate EggRequirementsMet(g: Gift, save: SavedGame) {
    && (g == Wynaut ==> save.machBikeRegistered && !save.receivedLavaridgeEgg)
    && (g == Togepi ==> !save.gotTogepiEgg && save.bicycleRegistered && |save.party| > 0 && save.party[0].friendship >= 255)
  }

  /**
   * Everything `run` demands of the saved game for the gift faced: the
   * player saved on the gift's map, the egg requirements, a revived fossil
   * waiting in both the saved and the live game, and a free party slot.
   */
  predicate GiftRequirementsMet(target: GiftEntry, save: SavedGame, liveFossilState: int) {
    && save.mapName == target.mapName
    && EggRequirementsMet(target.gift, save)
    && (target.gift.IsFossils() ==> save.fossilState != 0 && save.fossilState != 1 && liveFossilState != 0)
    && save.hasEmptyPartySlot
  }

  /**
   * The checks of `run` for the Wynaut and Togepi eggs that come after the
   * saved-map check: whether the ability warning is printed, and the first
   * failing check.
   */
  function EggChecks(rom: Rom, g: Gift, save: SavedGame): (r: EggOutcome)
    ensures !IsEggGift(g) ==> r == EggOutcome(false, None)
    ensures r.error.None? <==> EggRequirementsMet(g, save)
    ensures r.error == Some(MachBikeNotRegistered) <==> g == Wynaut && !save.machBikeRegistered
    ensures r.error == Some(WynautEggAlreadyReceived) <==> g == Wynaut && save.machBikeRegistered && save.receivedLavaridgeEgg
    ensures r.error == Some(TogepiEggAlreadyReceived) <==> g == Togepi && save.gotTogepiEgg
    ensures r.error == Some(BicycleNotRegistered) <==> g == Togepi && !save.gotTogepiEgg && !save.bicycleRegistered
    ensures r.error == Some(NoLeadInSavedParty) <==>
              g == Togepi && !save.gotTogepiEgg && save.bicycleRegistered && |save.party| == 0
    ensures r.error == Some(LeadFriendshipNotMax) <==>
              g == Togepi && !save.gotTogepiEgg && save.bicycleRegistered && |save.party| > 0 && save.party[0].friendship < 255
    ensures r.warned <==> rom == Emerald && IsEggGift(g) && !HasHatchSpeedAbility(save.party)
                          && r.error != Some(MachBikeNotRegistered) && r.error != Some(WynautEggAlreadyReceived)
  {
    if g == Wynaut && !save.machBikeRegistered then EggOutcome(false, Some(MachBikeNotRegistered))
    else if g == Wynaut && save.receivedLavaridgeEgg then EggOutcome(false, Some(WynautEggAlreadyReceived))
    else
      var warned := rom == Emerald && (g == Wynaut || g == Togepi) && !HasHatchSpeedAbility(save.party);
      if g == Togepi && save.gotTogepiEgg then EggOutcome(warned, Some(TogepiEggAlreadyReceived))
      else if g == Togepi && !save.bicycleRegistered then EggOutcome(warned, Some(BicycleNotRegistered))
      else if g == Togepi && |save.party| == 0 then EggOutcome(warned, Some(NoLeadInSavedParty))
      else if g == Togepi && save.party[0].friendship < 255 then EggOutcome(warned, Some(LeadFriendshipNotMax))
      else EggOutcome(warned, None)
  }

  /** Which egg check fails does not depend on the party's abilities. */
  lemma EggChecksIgnoreAbilities(rom: Rom, g: Gift, save: SavedGame, party': seq<SavedMember>)
    requires |party'| == |save.party|
    requires forall i :: 0 <= i < |party'| ==> party'[i].friendship == save.party[i].friendship
    ensures EggChecks(rom, g, save).error == EggChecks(rom, g, save.(party := party')).error
  {
  }

  /**
   * The checks of `run` once the gift and the saved game are known: the
   * saved map, the egg checks (with the ability warning between Wynaut's
   * and Togepi's), the fossil check, and a free party slot.
   */
  function GiftChecks(rom: Rom, target: GiftEntry, save: SavedGame, liveFossilState: int): (r: CheckOutcome)
    ensures r.result.Ok? <==> GiftRequirementsMet(target, save, liveFossilState)
    ensures r.result.Ok? ==> r.result.value == target
    ensures r.result == Err(NotInSavedMap) <==> save.mapName != target.mapName
    ensures save.mapName == target.mapName && EggChecks(rom, target.gift, save).error.Some? ==>
              r.result == Err(EggChecks(rom, target.gift, save).error.value)
    ensures save.mapName == target.mapName && EggRequirementsMet(target.gift, save)
            && target.gift.IsFossils() && FossilCheck(save.fossilState, liveFossilState).Some? ==>
              r.result == Err(FossilCheck(save.fossilState, liveFossilState).value)
    ensures r.result == Err(PartyFull) <==>
              && save.mapName == target.mapName && EggRequirementsMet(target.gift, save)
              && (target.gift.IsFossils() ==> FossilCheck(save.fossilState, liveFossilState).None?)
              && !save.hasEmptyPartySlot
    ensures r.result != Err(NotFacingGift) && r.result != Err(NoSavedGame) && r.result != Err(UnknownEncounterType)
    ensures r.warned ==> rom == Emerald && r.result != Err(MachBikeNotRegistered) && r.result != Err(WynautEggAlreadyReceived)
  {
    if target.mapName != save.mapName then CheckOutcome(false, Err(NotInSavedMap))
    else
      var g := target.gift;
      var egg := EggChecks(rom, g, save);
      if egg.error.Some? then CheckOutcome(egg.warned, Err(egg.error.value))
      else if g.IsFossils() && FossilCheck(save.fossilState, liveFossilState).Some? then
        CheckOutcome(egg.warned, Err(FossilCheck(save.fossilState, liveFossilState).value))
      else if !save.hasEmptyPartySlot then CheckOutcome(egg.warned, Err(PartyFull))
      else CheckOutcome(egg.warned, Ok(target))
  }

  /**
   * The precondition section of `run`, in the source's order: the facing
   * tile, the saved game, then the gift's own checks.
   */
  function RunChecks(rom: Rom, inFront: Option<Tile>, save: Option<SavedGame>, liveFossilState: int): (r: CheckOutcome)
    ensures r.result.Ok? ==> TargetedEncounter(rom, inFront) == Some(r.result.value)
    ensures r.result == Err(NotFacingGift) <==> TargetedEncounter(rom, inFront).None?
    ensures r.result == Err(NoSavedGame) <==> TargetedEncounter(rom, inFront).Some? && save.None?
    ensures r.result.Ok? <==>
              TargetedEncounter(rom, inFront).Some? && save.Some?
              && GiftRequirementsMet(TargetedEncounter(rom, inFront).value, save.value, liveFossilState)
    ensures TargetedEncounter(rom, inFront).Some? && save.Some? ==>
              r == GiftChecks(rom, TargetedEncounter(rom, inFront).value, save.value, liveFossilState)
    ensures r.warned ==> rom == Emerald && r.result != Err(MachBikeNotRegistered) && r.result != Err(WynautEggAlreadyReceived)
  {
    var target := TargetedEncounter(rom, inFront);
    if target.None? then CheckOutcome(false, Err(NotFacingGift))
    else if save.None? then CheckOutcome(false, Err(NoSavedGame))
    else GiftChecks(rom, target.value, save.value, liveFossilState)
  }

  /** Passing every check means the saved game meets each requirement of the gift faced. */
  lemma RunChecksOkMeans(rom: Rom, inFront: Option<Tile>, save: SavedGame, live: int)
    requires RunChecks(rom, inFront, Some(save), live).result.Ok?
    ensures var g := RunChecks(rom, inFront, Some(save), live).result.value.gift;
            && (g == Togepi ==> !save.gotTogepiEgg && save.bicycleRegistered && |save.party| > 0 && save.party[0].friendship >= 255)
            && (g == Wynaut ==> save.machBikeRegistered && !save.receivedLavaridgeEgg)
            && (g.IsFossils() ==> save.fossilState != 0 && save.fossilState != 1 && live != 0)
  {
    var target := TargetedEncounter(rom, inFront);
    var egg := EggChecks(rom, target.value.gift, save);
    assert egg.error.None?;
  }

  /** The missing-ability warning is only printed: it never changes which check fails or whether all pass. */
  lemma AbilityWarningNeverRaises(rom: Rom, inFront: Option<Tile>, save: SavedGame, party': seq<SavedMember>, live: int)
    requires |party'| == |save.party|
    requires forall i :: 0 <= i < |party'| ==> party'[i].friendship == save.party[i].friendship
    ensures RunChecks(rom, inFront, Some(save), live).result == RunChecks(rom, inFront, Some(save.(party := party')), live).result
  {
    var target := TargetedEncounter(rom, inFront);
    if target.Some? {
      GiftChecksIgnoreAbilities(rom, target.value, save, party', live);
    }
  }

  lemma GiftChecksIgnoreAbilities(rom: Rom, target: GiftEntry, save: SavedGame, party': seq<SavedMember>, live: int)
    requires |party'| == |save.party|
    requires forall i :: 0 <= i < |party'| ==> party'[i].friendship == save.party[i].friendship
    ensures GiftChecks(rom, target, save, live).result == GiftChecks(rom, target, save.(party := party'), live).result
  {
    EggChecksIgnoreAbilities(rom, target.gift, save, party');
  }

  /** Fossil values only matter for the fossil gifts. */
  lemma FossilStateOnlyForFossils(rom: Rom, inFront: Option<Tile>, save: SavedGame, live: int, saved': int, live': int)
    requires TargetedEncounter(rom, inFront).Some? && !TargetedEncounter(rom, inFront).value.gift.IsFossils()
    ensures RunChecks(rom, inFront, Some(save), live) == RunChecks(rom, inFront, Some(save.(fossilState := saved')), live')
  {
  }

  // ---------------------------------------------------------------------------
  // The mode object and the hatch callback

  /** `hatch_egg`'s two route endpoints for the egg gifts, and its error for any other gift. */
  function HatchEndpoints(g: Gift): (r: Result<(Tile, Tile), GiftError>)
    ensures r.Ok? <==> IsEggGift(g)
    ensures r.Err? ==> r.error == UnknownEncounterType
  {
    if g == Wynaut then Ok((Tile(LavaridgeTown, (4, 9)), Tile(LavaridgeTown, (19, 10))))
    else if g == Togepi then Ok((Tile(FiveIslandWaterLabyrinth, (11, 9)), Tile(FiveIslandWaterLabyrinth, (17, 13))))
    else Err(UnknownEncounterType)
  }

  /** The hatching route runs on the map where the egg is given, and between two different tiles. */
  lemma HatchRouteOnGiftMap(rom: Rom, i: nat)
    requires i < |GiftTable(rom)| && IsEggGift(GiftTable(rom)[i].gift)
    ensures var e := GiftTable(rom)[i];
            var route := HatchEndpoints(e.gift).value;
            route.0.mapName == e.mapName && route.1.mapName == e.mapName && route.0 != route.1
  {
  }

  class StaticGiftResetsMode {
    var eggHasHatched: bool
    /** The bot's controller stack; the top is the last element. */
    var controllerStack: seq<string>

    constructor (controllerStack: seq<string>)
      ensures !eggHasHatched && this.controllerStack == controllerStack
    {
      eggHasHatched := false;
      this.controllerStack := controllerStack;
    }

    /**
     * `on_egg_hatched`: the flag is set when the hatched creature sits in
     * the last party slot (the egg picked up by this mode); the controller
     * stack is popped unless the creature is of interest. `ok` is false when
     * that pop meets an empty stack (an error in the source).
     */
    method OnEggHatched(v: EncounterValue, partyIndex: int, partySize: int) returns (ok: bool)
      modifies this
      ensures eggHasHatched == (old(eggHasHatched) || partyIndex == partySize - 1)
      ensures ok <==> IsOfInterest(v) || |old(controllerStack)| > 0
      ensures ok && IsOfInterest(v) ==> controllerStack == old(controllerStack)
      ensures ok && !IsOfInterest(v) ==> controllerStack == old(controllerStack)[..|old(controllerStack)| - 1]
    {
      if partyIndex == partySize - 1 {
        eggHasHatched := true;
      }
      if !IsOfInterest(v) {
        if |controllerStack| == 0 {
          return false;
        }
        controllerStack := controllerStack[..|controllerStack| - 1];
      }
      return true;
    }
  }

  // ---------------------------------------------------------------------------
  // The reset loop

  function Judge(env: Environment, p: Pokemon): EncounterValue {
    JudgeEncounter(p, env.blockList, env.custom, env.plugin, env.roamer)
  }

  /**
   * One iteration's judgement: the newest party member is handled with
   * auto-catch disabled (and auto-battle and logging left at their
   * defaults), so the decision is never Catch and manual mode is switched
   * on exactly for a creature handled as of interest.
   */
  method JudgeGift(st: EncounterState, p: Pokemon, env: Environment) returns (decision: BattleAction, st': EncounterState)
    ensures decision == Decide(Judge(env, p), env.config.autoCatch, true, false, env.state)
    ensures decision != Catch
    ensures st'.manualMode <==> st.manualMode || HandledAsInterest(Judge(env, p))
  {
    DisabledAutoCatchNeverCatches(Judge(env, p), env.config.autoCatch, false, env.state);
    var out := HandleEncounter(st, p, env, true, false, false);
    decision, st' := out.0, out.1;
  }

  /**
   * What the reset loop does over the creatures `gifts` the successive
   * resets hand out: one decision per creature judged, each the decision
   * table with auto-catch disabled (so never Catch); it stops right after
   * the first creature handled as of interest, which switches manual mode
   * on, and otherwise judges every creature. In manual mode it does not
   * start.
   */
  predicate ResetsJudged(st: EncounterState, gifts: seq<Pokemon>, env: Environment, st': EncounterState, decisions: seq<BattleAction>) {
    && |decisions| <= |gifts|
    && (forall i :: 0 <= i < |decisions| ==> decisions[i] == Decide(Judge(env, gifts[i]), env.config.autoCatch, true, false, env.state))
    && (forall i :: 0 <= i < |decisions| ==> decisions[i] != Catch)
    && (st.manualMode ==> decisions == [] && st' == st)
    && (forall i :: 0 <= i < |decisions| - 1 ==> !HandledAsInterest(Judge(env, gifts[i])))
    && (!st.manualMode ==> (st'.manualMode <==> exists i :: 0 <= i < |decisions| && HandledAsInterest(Judge(env, gifts[i]))))
    && (!st'.manualMode ==> |decisions| == |gifts|)
  }

  /**
   * The reset loop for a gift that is not an egg, over the creatures the
   * successive resets hand out: while the bot is not in manual mode, judge
   * the new party member with auto-catch disabled.
   */
  method ResetLoop(st: EncounterState, gifts: seq<Pokemon>, env: Environment) returns (st': EncounterState, decisions: seq<BattleAction>)
    ensures ResetsJudged(st, gifts, env, st', decisions)
  {
    st' := st;
    decisions := [];
    var i := 0;
    while !st'.manualMode && i < |gifts|
      invariant 0 <= i <= |gifts| && |decisions| == i
      invariant st.manualMode ==> i == 0 && st' == st
      invariant forall k :: 0 <= k < i ==> decisions[k] == Decide(Judge(env, gifts[k]), env.config.autoCatch, true, false, env.state)
      invariant forall k :: 0 <= k < i ==> decisions[k] != Catch
      invariant forall k :: 0 <= k < i - 1 ==> !HandledAsInterest(Judge(env, gifts[k]))
      invariant !st.manualMode ==> (st'.manualMode <==> exists k :: 0 <= k < i && HandledAsInterest(Judge(env, gifts[k])))
    {
      var decision;
      decision, st' := JudgeGift(st', gifts[i], env);
      decisions := decisions + [decision];
      i := i + 1;
    }
  }

  /**
   * `run`: the preconditions, then (for a gift that is not an egg) the
   * reset loop. A failed precondition stops the mode before any reset.
   */
  method Run(rom: Rom, inFront: Option<Tile>, save: Option<SavedGame>, liveFossilState: int,
             st: EncounterState, gifts: seq<Pokemon>, env: Environment)
    returns (outcome: CheckOutcome, st': EncounterState, decisions: seq<BattleAction>)
    ensures outcome == RunChecks(rom, inFront, save, liveFossilState)
    ensures outcome.result.Err? ==> st' == st && decisions == []
    ensures outcome.result.Ok? && IsEggGift(outcome.result.value.gift) ==> st' == st && decisions == []
    ensures outcome.result.Ok? && !IsEggGift(outcome.result.value.gift) ==> ResetsJudged(st, gifts, env, st', decisions)
    ensures forall i :: 0 <= i < |decisions| ==> decisions[i] != Catch
  {
    outcome := RunChecks(rom, inFront, save, liveFossilState);
    st' := st;
    decisions := [];
    if outcome.result.Err? || IsEggGift(outcome.result.value.gift) {
      return;
    }
    st', decisions := ResetLoop(st, gifts, env);
  }
}
