/**
 * Encounter classification and reaction: the custom catch-filter result,
 * the precedence-ordered classifier, the decision table that picks a
 * battle action, and the de-duplicating encounter log.
 *
 * The collaborators the bot reaches through its global context (the block
 * list as just reloaded from the config, the custom catch filter, the
 * plugin hook, the active roamer, the config toggles, the Pokédex and the
 * game state) are parameters. The context fields that the handler writes
 * (last encounter, status message, manual-mode switch) form a state
 * record, and the side-effect sinks it calls are recorded in order.
 */
module Encounter {
  import opened Common

  datatype Species = Species(index: nat, name: string)

  datatype Gender = Male | Female

  /** The read-only snapshot of an encountered creature. */
  datatype Pokemon = Pokemon(
    personalityValue: nat,
    species: Species,
    speciesNameForStats: string,
    isShiny: bool,
    gender: Option<Gender>,
    unownLetter: char)

  /** The active roamer, identified by personality value and species. */
  datatype ActiveRoamer = ActiveRoamer(personalityValue: nat, species: Species)

  // ---------------------------------------------------------------------------
  // Custom catch filters

  /** A catch filter answers `str | bool`. */
  datatype FilterValue = Flag(b: bool) | Text(s: string)

  /** Python truthiness: `True` and non-empty strings. */
  predicate Truthy(v: FilterValue) {
    match v
    case Flag(b) => b
    case Text(s) => |s| > 0
  }

  const MatchedMessage: string := "Matched a custom catch filter"

  /**
   * `run_custom_catch_filters`: the custom filter's answer, or the plugin's
   * when the custom one is falsy (`a or b`); a bare `True` becomes the
   * generic message.
   */
  function RunCustomCatchFilters(custom: Pokemon -> FilterValue, plugin: Pokemon -> FilterValue, p: Pokemon): (r: FilterValue)
    ensures r != Flag(true)
    ensures Truthy(custom(p)) ==> r == (if custom(p) == Flag(true) then Text(MatchedMessage) else custom(p))
    ensures !Truthy(custom(p)) ==> r == (if plugin(p) == Flag(true) then Text(MatchedMessage) else plugin(p))
    ensures r == Flag(false) <==> !Truthy(custom(p)) && plugin(p) == Flag(false)
  {
    var result := if Truthy(custom(p)) then custom(p) else plugin(p);
    if result == Flag(true) then Text(MatchedMessage) else result
  }

  /** Only a literal `False` is "no match": an empty string from the plugin still counts as a match. */
  lemma EmptyPluginTextIsAMatch(custom: Pokemon -> FilterValue, plugin: Pokemon -> FilterValue, p: Pokemon)
    requires custom(p) == Flag(false) && plugin(p) == Text("")
    ensures RunCustomCatchFilters(custom, plugin, p) == Text("")
    ensures RunCustomCatchFilters(custom, plugin, p) != Flag(false)
  {
  }

  // ---------------------------------------------------------------------------
  // Classification

  datatype EncounterValue = Shiny | ShinyOnBlockList | Roamer | RoamerOnBlockList | CustomFilterMatch | Trash

  /** `EncounterValue.is_of_interest`: only Shiny and CustomFilterMatch. */
  predicate IsOfInterest(v: EncounterValue) {
    v == Shiny || v == CustomFilterMatch
  }

  /** The classifications that `handle_encounter` itself treats as of interest: Roamer as well. */
  predicate HandledAsInterest(v: EncounterValue) {
    v == Shiny || v == CustomFilterMatch || v == Roamer
  }

  /** The two notions disagree on exactly one classification, Roamer. */
  lemma InterestMismatchIsRoamer(v: EncounterValue)
    ensures IsOfInterest(v) != HandledAsInterest(v) <==> v == Roamer
  {
  }

  /** The block list matches either the species name used for stats or the species name. */
  predicate OnBlockList(p: Pokemon, blockList: set<string>) {
    p.speciesNameForStats in blockList || p.species.name in blockList
  }

  predicate IsActiveRoamer(p: Pokemon, roamer: Option<ActiveRoamer>) {
    roamer.Some? && roamer.value.personalityValue == p.personalityValue && roamer.value.species == p.species
  }

  /**
   * `judge_encounter`: shininess first, then the catch filters, then the
   * active roamer, else trash; `blockList` is the block list as reloaded
   * at the moment it is consulted.
   */
  function JudgeEncounter(
    p: Pokemon, blockList: set<string>,
    custom: Pokemon -> FilterValue, plugin: Pokemon -> FilterValue,
    roamer: Option<ActiveRoamer>): (r: EncounterValue)
    ensures (r == Shiny || r == ShinyOnBlockList) <==> p.isShiny
    ensures p.isShiny ==> (r == ShinyOnBlockList <==> OnBlockList(p, blockList))
    ensures !p.isShiny && RunCustomCatchFilters(custom, plugin, p) != Flag(false) ==> r == CustomFilterMatch
    ensures r == CustomFilterMatch <==> !p.isShiny && RunCustomCatchFilters(custom, plugin, p) != Flag(false)
    ensures (r == Roamer || r == RoamerOnBlockList) <==>
              !p.isShiny && RunCustomCatchFilters(custom, plugin, p) == Flag(false) && IsActiveRoamer(p, roamer)
    ensures (r == Roamer || r == RoamerOnBlockList) ==> (r == RoamerOnBlockList <==> OnBlockList(p, blockList))
    ensures r == Trash <==>
              !p.isShiny && RunCustomCatchFilters(custom, plugin, p) == Flag(false) && !IsActiveRoamer(p, roamer)
  {
    if p.isShiny then
      if OnBlockList(p, blockList) then ShinyOnBlockList else Shiny
    else if RunCustomCatchFilters(custom, plugin, p) != Flag(false) then
      CustomFilterMatch
    else if IsActiveRoamer(p, roamer) then
      if OnBlockList(p, blockList) then RoamerOnBlockList else Roamer
    else
      Trash
  }

  /** For a shiny creature neither the filters nor the roamer are consulted. */
  lemma ShinyIgnoresFiltersAndRoamer(
    p: Pokemon, blockList: set<string>,
    custom1: Pokemon -> FilterValue, plugin1: Pokemon -> FilterValue, roamer1: Option<ActiveRoamer>,
    custom2: Pokemon -> FilterValue, plugin2: Pokemon -> FilterValue, roamer2: Option<ActiveRoamer>)
    requires p.isShiny
    ensures JudgeEncounter(p, blockList, custom1, plugin1, roamer1) == JudgeEncounter(p, blockList, custom2, plugin2, roamer2)
  {
  }

  /** A filter match outranks the roamer check, even when the creature is the active roamer. */
  lemma FilterOutranksRoamer(
    p: Pokemon, blockList: set<string>,
    custom: Pokemon -> FilterValue, plugin: Pokemon -> FilterValue, roamer: ActiveRoamer)
    requires !p.isShiny && roamer == ActiveRoamer(p.personalityValue, p.species)
    requires Truthy(custom(p))
    ensures JudgeEncounter(p, blockList, custom, plugin, Some(roamer)) == CustomFilterMatch
  {
  }

  /** Blocking a shiny species flips Shiny to ShinyOnBlockList, unblocking it flips it back. */
  lemma BlockListFlipsShiny(
    p: Pokemon, blockList: set<string>,
    custom: Pokemon -> FilterValue, plugin: Pokemon -> FilterValue, roamer: Option<ActiveRoamer>)
    requires p.isShiny
    ensures JudgeEncounter(p, blockList + {p.species.name}, custom, plugin, roamer) == ShinyOnBlockList
    ensures JudgeEncounter(p, blockList - {p.species.name, p.speciesNameForStats}, custom, plugin, roamer) == Shiny
  {
  }

  /** A creature with the roamer's species but another personality value is trash unless shiny or filtered. */
  lemma RoamerNeedsBothKeys(
    p: Pokemon, blockList: set<string>,
    custom: Pokemon -> FilterValue, plugin: Pokemon -> FilterValue, roamer: ActiveRoamer)
    requires !p.isShiny && RunCustomCatchFilters(custom, plugin, p) == Flag(false)
    requires roamer.personalityValue != p.personalityValue || roamer.species != p.species
    ensures JudgeEncounter(p, blockList, custom, plugin, Some(roamer)) == Trash
  {
  }

  // ---------------------------------------------------------------------------
  // Decision table

  datatype BattleAction = Catch | Fight | CustomAction | RunAway

  /** `battle_is_active`: the game is starting, in, or ending a battle. */
  predicate BattleIsActive(state: GameState) {
    state == Battle || state == BattleStarting || state == BattleEnding
  }

  /**
   * The battle action `handle_encounter` picks. An encounter it treats as
   * of interest is caught only with auto-catch on, not disabled by the
   * caller, and a battle active; otherwise it is left to the operator. Any
   * other encounter is fought or fled depending on auto-battle.
   */
  function Decide(v: EncounterValue, autoCatch: bool, disableAutoCatch: bool, enableAutoBattle: bool, state: GameState): (r: BattleAction)
    ensures HandledAsInterest(v) ==> (r == Catch || r == CustomAction)
    ensures HandledAsInterest(v) ==> (r == Catch <==> autoCatch && !disableAutoCatch && BattleIsActive(state))
    ensures !HandledAsInterest(v) ==> (r == Fight || r == RunAway)
    ensures !HandledAsInterest(v) ==> (r == Fight <==> enableAutoBattle)
  {
    if HandledAsInterest(v) then
      if autoCatch && !disableAutoCatch && BattleIsActive(state) then Catch else CustomAction
    else if enableAutoBattle then
      Fight
    else
      RunAway
  }

  /** With auto-catch disabled by the caller (gift encounters), the handler never catches. */
  lemma DisabledAutoCatchNeverCatches(v: EncounterValue, autoCatch: bool, enableAutoBattle: bool, state: GameState)
    ensures Decide(v, autoCatch, true, enableAutoBattle, state) != Catch
  {
  }

  /** The action passed to the log: none when suppressed by the caller or outside battle. */
  function LoggedAction(decision: BattleAction, doNotLogBattleAction: bool, state: GameState): (r: Option<BattleAction>)
    ensures r.None? <==> doNotLogBattleAction || !BattleIsActive(state)
    ensures r.Some? ==> r.value == decision
  {
    if doNotLogBattleAction || !BattleIsActive(state) then None else Some(decision)
  }

  // ---------------------------------------------------------------------------
  // Encounter log and handler state

  /** The config toggles the handler reads. */
  datatype Config = Config(autoCatch: bool, savePk3All: bool, savePk3Shiny: bool, savePk3Custom: bool, savePk3Roamer: bool)

  /** Calls into side-effect sinks, recorded in the order they are made. */
  datatype Effect =
    | SavePk3(pokemon: Pokemon)
    | Notify(title: string)
    | CreateSaveState(value: EncounterValue, speciesNameForStats: string)
    | StatsLogEncounter(pokemon: Pokemon, filterResult: FilterValue)

  /** The context fields the handler reads and writes. */
  datatype EncounterState = EncounterState(
    lastEncounter: Option<Pokemon>, message: string, manualMode: bool, effects: seq<Effect>)

  /** An encounter is logged unless the last logged one has the same personality value. */
  predicate ShouldLog(last: Option<Pokemon>, p: Pokemon) {
    !(last.Some? && last.value.personalityValue == p.personalityValue)
  }

  function ActionSuffix(action: Option<BattleAction>): string {
    match action
    case Some(Catch) => ", catching..."
    case Some(CustomAction) => ", switched to manual mode so you can catch it."
    case Some(Fight) => ", FIGHT!"
    case Some(RunAway) => ", running away..."
    case None => "."
  }

  /** The message suffix tells the logged actions apart. */
  lemma ActionSuffixInjective(a: Option<BattleAction>, b: Option<BattleAction>)
    ensures ActionSuffix(a) == ActionSuffix(b) ==> a == b
  {
    if ActionSuffix(a) == ActionSuffix(b) {
      assert ActionSuffix(a)[|ActionSuffix(a)| - 1] == ActionSuffix(b)[|ActionSuffix(b)| - 1];
      assert |ActionSuffix(a)| == |ActionSuffix(b)|;
    }
  }

  /** The name the label starts with: the species name, after "Shiny " for a shiny. */
  function ShownName(p: Pokemon): string {
    if p.isShiny then "Shiny " + p.species.name else p.species.name
  }

  /**
   * The species name decorated with shininess, gender sign and Unown
   * letter: the shown name, then " ♂" or " ♀" when the creature has a
   * gender, then the Unown letter in parentheses for an Unown.
   */
  function SpeciesLabel(p: Pokemon): (r: string)
    ensures ShownName(p) <= r
    ensures |r| == |ShownName(p)| + (if p.gender.Some? then 2 else 0) + (if p.species.name == "Unown" then 4 else 0)
    ensures p.gender == Some(Male) ==> r[|ShownName(p)|..|ShownName(p)| + 2] == " ♂"
    ensures p.gender == Some(Female) ==> r[|ShownName(p)|..|ShownName(p)| + 2] == " ♀"
    ensures p.species.name == "Unown" ==> r[|r| - 4..] == " (" + [p.unownLetter] + ")"
  {
    var sign := match p.gender case Some(Male) => " ♂" case Some(Female) => " ♀" case None => "";
    var tag := if p.species.name == "Unown" then " (" + [p.unownLetter] + ")" else "";
    var r := ShownName(p) + sign + tag;
    assert r[..|ShownName(p)|] == ShownName(p);
    assert r[|ShownName(p)|..|ShownName(p)| + |sign|] == sign;
    assert r[|r| - |tag|..] == tag;
    r
  }

  /** The label tells the genders apart: two creatures shown under the same name with the same label have the same gender. */
  lemma SpeciesLabelShowsGender(p: Pokemon, q: Pokemon)
    requires ShownName(p) == ShownName(q) && p.species.name == q.species.name
    requires SpeciesLabel(p) == SpeciesLabel(q)
    ensures p.gender == q.gender
  {
  }

  /**
   * The status message; `funFacts` is the joined line of nature, ability,
   * item, IV sum and shiny value, which this model does not build.
   */
  function EncounterMessage(p: Pokemon, action: Option<BattleAction>, funFacts: string): (r: string)
    ensures |r| == 12 + |SpeciesLabel(p)| + |ActionSuffix(action)| + 2 + |funFacts|
    ensures r[..12 + |SpeciesLabel(p)|] == "Encountered " + SpeciesLabel(p)
    ensures r[12 + |SpeciesLabel(p)|..12 + |SpeciesLabel(p)| + |ActionSuffix(action)|] == ActionSuffix(action)
    ensures r[12 + |SpeciesLabel(p)| + |ActionSuffix(action)|..] == "\n\n" + funFacts
  {
    var head, tail := "Encountered " + SpeciesLabel(p), "\n\n" + funFacts;
    ThreeParts(head, ActionSuffix(action), tail);
    head + ActionSuffix(action) + tail
  }

  lemma ThreeParts(a: string, b: string, c: string)
    ensures (a + b + c)[..|a|] == a && (a + b + c)[|a|..|a| + |b|] == b && (a + b + c)[|a| + |b|..] == c
  {
  }

  /** The message reports the action: for the same creature and fun facts, different logged actions give different messages. */
  lemma EncounterMessageShowsAction(p: Pokemon, a: Option<BattleAction>, b: Option<BattleAction>, funFacts: string)
    requires EncounterMessage(p, a, funFacts) == EncounterMessage(p, b, funFacts)
    ensures a == b
  {
    var k := 12 + |SpeciesLabel(p)|;
    var m := EncounterMessage(p, a, funFacts);
    assert |ActionSuffix(a)| == |ActionSuffix(b)|;
    assert ActionSuffix(a) == m[k..k + |ActionSuffix(a)|] == ActionSuffix(b);
    ActionSuffixInjective(a, b);
  }

  /**
   * `log_encounter`: nothing happens for a repeat of the last encounter;
   * otherwise the stats log records the encounter with the filter result
   * (which makes it the last encounter), the creature is exported when
   * "save all" is on, and the status message is set.
   */
  function LogEncounter(
    st: EncounterState, p: Pokemon, action: Option<BattleAction>,
    filterResult: FilterValue, config: Config, funFacts: string): (st': EncounterState)
    ensures !ShouldLog(st.lastEncounter, p) ==> st' == st
    ensures st.effects <= st'.effects && forall e :: e in st'.effects[|st.effects|..] ==> !e.CreateSaveState?
    ensures ShouldLog(st.lastEncounter, p) ==>
              && st'.lastEncounter == Some(p)
              && st'.message == EncounterMessage(p, action, funFacts)
              && st'.manualMode == st.manualMode
              && st'.effects == st.effects + [StatsLogEncounter(p, filterResult)] + (if config.savePk3All then [SavePk3(p)] else [])
  {
    if !ShouldLog(st.lastEncounter, p) then
      st
    else
      var logged := st.effects + [StatsLogEncounter(p, filterResult)];
      EncounterState(
        Some(p),
        EncounterMessage(p, action, funFacts),
        st.manualMode,
        if config.savePk3All then logged + [SavePk3(p)] else logged)
  }

  /** Logging the same creature twice in a row logs it once. */
  lemma LogEncounterTwiceLogsOnce(
    st: EncounterState, p: Pokemon, a1: Option<BattleAction>, a2: Option<BattleAction>,
    f: FilterValue, config: Config, facts: string)
    ensures var once := LogEncounter(st, p, a1, f, config, facts);
            LogEncounter(once, p, a2, f, config, facts) == once
  {
  }

  /** A creature with a new personality value is always logged. */
  lemma LogEncounterNewCreatureLogs(
    st: EncounterState, p: Pokemon, a: Option<BattleAction>, f: FilterValue, config: Config, facts: string)
    requires st.lastEncounter.Some? && st.lastEncounter.value.personalityValue != p.personalityValue
    ensures LogEncounter(st, p, a, f, config, facts).lastEncounter == Some(p)
    ensures |LogEncounter(st, p, a, f, config, facts).effects| > |st.effects|
  {
  }

  /** Everything `handle_encounter` reads besides the creature and its three flags. */
  datatype Environment = Environment(
    blockList: set<string>,
    custom: Pokemon -> FilterValue,
    plugin: Pokemon -> FilterValue,
    roamer: Option<ActiveRoamer>,
    config: Config,
    seenSpecies: set<Species>,
    state: GameState,
    funFacts: string)

  /** The exports and notification of each classification, before the decision is taken. */
  function ReportEffects(v: EncounterValue, p: Pokemon, env: Environment): (r: seq<Effect>)
    ensures (exists t :: Notify(t) in r) <==> HandledAsInterest(v)
    ensures SavePk3(p) in r <==>
              && !env.config.savePk3All
              && (|| ((v == Shiny || v == ShinyOnBlockList) && env.config.savePk3Shiny)
                  || (v == CustomFilterMatch && env.config.savePk3Custom)
                  || (v == Roamer && p.species !in env.seenSpecies && env.config.savePk3Roamer))
    ensures forall e :: e in r ==> !e.CreateSaveState?
  {
    var c := env.config;
    match v
    case Shiny =>
      (if !c.savePk3All && c.savePk3Shiny then [SavePk3(p)] else []) + [Notify("Shiny found!")]
    case CustomFilterMatch =>
      (if !c.savePk3All && c.savePk3Custom then [SavePk3(p)] else []) + [Notify("Custom filter triggered!")]
    case Roamer =>
      (if p.species !in env.seenSpecies && !c.savePk3All && c.savePk3Roamer then [SavePk3(p)] else [])
      + [Notify("Roaming Pokémon found!")]
    case ShinyOnBlockList =>
      if !c.savePk3All && c.savePk3Shiny then [SavePk3(p)] else []
    case RoamerOnBlockList => []
    case Trash => []
  }

  /**
   * The part of `handle_encounter` before logging: the exports and
   * notification, then, for an encounter treated as of interest, a save
   * state and the manual-mode switch unless the decision is to catch.
   */
  function React(st: EncounterState, v: EncounterValue, p: Pokemon, env: Environment, decision: BattleAction): (st': EncounterState)
    ensures st'.effects == st.effects + ReportEffects(v, p, env)
                           + (if HandledAsInterest(v) then [CreateSaveState(v, p.speciesNameForStats)] else [])
    ensures st'.manualMode <==> st.manualMode || (HandledAsInterest(v) && decision != Catch)
    ensures st'.lastEncounter == st.lastEncounter && st'.message == st.message
  {
    var reported := st.effects + ReportEffects(v, p, env);
    if HandledAsInterest(v) then
      st.(effects := reported + [CreateSaveState(v, p.speciesNameForStats)],
          manualMode := st.manualMode || decision != Catch)
    else
      st.(effects := reported)
  }

  /** Among the effects appended by a reaction and a log entry, the save state appears exactly for encounters of interest. */
  lemma SaveStateOnlyWhenOfInterest(st: EncounterState, mid: EncounterState, last: EncounterState, report: seq<Effect>, v: EncounterValue, p: Pokemon)
    requires forall e :: e in report ==> !e.CreateSaveState?
    requires mid.effects == st.effects + report
                            + (if HandledAsInterest(v) then [CreateSaveState(v, p.speciesNameForStats)] else [])
    requires mid.effects <= last.effects && forall e :: e in last.effects[|mid.effects|..] ==> !e.CreateSaveState?
    ensures st.effects <= last.effects
    ensures CreateSaveState(v, p.speciesNameForStats) in last.effects[|st.effects|..] <==> HandledAsInterest(v)
  {
    var extra := if HandledAsInterest(v) then [CreateSaveState(v, p.speciesNameForStats)] else [];
    var logged := last.effects[|mid.effects|..];
    assert mid.effects[|st.effects|..] == report + extra;
    assert last.effects == mid.effects + logged;
    assert last.effects[|st.effects|..] == report + extra + logged;
    assert CreateSaveState(v, p.speciesNameForStats) !in report;
    assert CreateSaveState(v, p.speciesNameForStats) !in logged;
  }

  /**
   * `handle_encounter`: classify, react, then log the encounter with the
   * action when one is logged.
   */
  function HandleEncounter(
    st: EncounterState, p: Pokemon, env: Environment,
    disableAutoCatch: bool, enableAutoBattle: bool, doNotLogBattleAction: bool): (out: (BattleAction, EncounterState))
    ensures var v := JudgeEncounter(p, env.blockList, env.custom, env.plugin, env.roamer);
            out.0 == Decide(v, env.config.autoCatch, disableAutoCatch, enableAutoBattle, env.state)
    ensures out.1.manualMode <==> st.manualMode || out.0 == CustomAction
    ensures ShouldLog(st.lastEncounter, p) ==>
              out.1.lastEncounter == Some(p)
              && out.1.message == EncounterMessage(p, LoggedAction(out.0, doNotLogBattleAction, env.state), env.funFacts)
    ensures !ShouldLog(st.lastEncounter, p) ==> out.1.lastEncounter == st.lastEncounter && out.1.message == st.message
    ensures st.effects <= out.1.effects
    ensures var v := JudgeEncounter(p, env.blockList, env.custom, env.plugin, env.roamer);
            CreateSaveState(v, p.speciesNameForStats) in out.1.effects[|st.effects|..] <==> HandledAsInterest(v)
  {
    var v := JudgeEncounter(p, env.blockList, env.custom, env.plugin, env.roamer);
    var decision := Decide(v, env.config.autoCatch, disableAutoCatch, enableAutoBattle, env.state);
    var reacted := React(st, v, p, env, decision);
    var filterResult := RunCustomCatchFilters(env.custom, env.plugin, p);
    var logged := LogEncounter(reacted, p, LoggedAction(decision, doNotLogBattleAction, env.state), filterResult, env.config, env.funFacts);
    SaveStateOnlyWhenOfInterest(st, reacted, logged, ReportEffects(v, p, env), v, p);
    (decision, logged)
  }

  /** Manual mode is only ever switched on, never off. */
  lemma HandleEncounterKeepsManualMode(
    st: EncounterState, p: Pokemon, env: Environment, d: bool, b: bool, n: bool)
    requires st.manualMode
    ensures HandleEncounter(st, p, env, d, b, n).1.manualMode
  {
  }
}
