/**
 * The non-GUI logic of the debug menu: the per-frame listeners that can be
 * switched on and off, the force-shiny listener's battle tracking, the
 * match-call state rewrite, the test-party splice, and the file name shown
 * after choosing a path.
 */
module DebugMenu {
  import opened Common
  import Player

  // ---------------------------------------------------------------------------
  // Listener bookkeeping

  /** The listener classes the debug menu can toggle, and any other listener of the bot. */
  datatype ListenerKind = InfiniteRepel | InfiniteSafariZone | ForceShinyEncounter | ForcePokenavCall | OtherListener(name: string)

  /** A listener instance; only its class matters here. */
  class Listener {
    const kind: ListenerKind

    constructor (kind: ListenerKind)
      ensures this.kind == kind
    {
      this.kind := kind;
    }
  }

  /** The listeners that are not of the given class, in their original order. */
  function Without(listeners: seq<Listener>, kind: ListenerKind): (r: seq<Listener>)
    ensures forall l :: l in r ==> l in listeners && l.kind != kind
    ensures forall l :: l in listeners && l.kind != kind ==> l in r
  {
    if listeners == [] then []
    else if listeners[0].kind == kind then Without(listeners[1..], kind)
    else [listeners[0]] + Without(listeners[1..], kind)
  }

  /** How many listeners of the given class the list holds. */
  function CountOf(listeners: seq<Listener>, kind: ListenerKind): nat {
    if listeners == [] then 0
    else (if listeners[0].kind == kind then 1 else 0) + CountOf(listeners[1..], kind)
  }

  /** Filtering distributes over concatenation: the kept listeners stay in their original order. */
  lemma {:induction false} WithoutAppend(x: seq<Listener>, y: seq<Listener>, kind: ListenerKind)
    ensures Without(x + y, kind) == Without(x, kind) + Without(y, kind)
  {
    if x == [] {
      assert x + y == y;
    } else {
      assert (x + y)[1..] == x[1..] + y;
      WithoutAppend(x[1..], y, kind);
    }
  }

  /** After filtering, no listener of the class is left and every other class keeps its count. */
  lemma {:induction false} CountOfWithout(listeners: seq<Listener>, kind: ListenerKind, other: ListenerKind)
    ensures CountOf(Without(listeners, kind), other) == if other == kind then 0 else CountOf(listeners, other)
  {
    if listeners != [] {
      CountOfWithout(listeners[1..], kind, other);
      if listeners[0].kind != kind {
        assert ([listeners[0]] + Without(listeners[1..], kind))[1..] == Without(listeners[1..], kind);
      }
    }
  }

  /** Filtering twice by the same class changes nothing the second time. */
  lemma {:induction false} WithoutIdempotent(listeners: seq<Listener>, kind: ListenerKind)
    ensures Without(Without(listeners, kind), kind) == Without(listeners, kind)
  {
    if listeners != [] {
      WithoutIdempotent(listeners[1..], kind);
      if listeners[0].kind != kind {
        assert ([listeners[0]] + Without(listeners[1..], kind))[1..] == Without(listeners[1..], kind);
      }
    }
  }

  /** The bot context's list of listeners that run every frame. */
  class BotContext {
    var botListeners: seq<Listener>

    constructor (listeners: seq<Listener>)
      ensures botListeners == listeners
    {
      botListeners := listeners;
    }

    /** `_enable_listener`: a new instance of the class goes in front of the others. */
    method EnableListener(kind: ListenerKind)
      modifies this
      ensures |botListeners| == |old(botListeners)| + 1
      ensures fresh(botListeners[0]) && botListeners[0].kind == kind
      ensures botListeners[1..] == old(botListeners)
    {
      var listener := new Listener(kind);
      botListeners := [listener] + botListeners;
    }

    /** `_disable_listener`: every instance of the class is dropped, the rest keep their order. */
    method DisableListener(kind: ListenerKind)
      modifies this
      ensures botListeners == Without(old(botListeners), kind)
    {
      botListeners := Without(botListeners, kind);
    }

    /**
     * The toggle's update handler: disable the class, then enable it again
     * when the menu's variable is set. Afterwards exactly one instance runs
     * when the variable is set and none otherwise; other listeners are kept
     * in order.
     */
    method Toggle(kind: ListenerKind, enabled: bool)
      modifies this
      ensures CountOf(botListeners, kind) == if enabled then 1 else 0
      ensures forall other :: other != kind ==> CountOf(botListeners, other) == CountOf(old(botListeners), other)
      ensures Without(botListeners, kind) == Without(old(botListeners), kind)
    {
      DisableListener(kind);
      CountOfWithout(old(botListeners), kind, kind);
      forall other | other != kind
        ensures CountOf(botListeners, other) == CountOf(old(botListeners), other)
      {
        CountOfWithout(old(botListeners), kind, other);
      }
      WithoutIdempotent(old(botListeners), kind);
      if enabled {
        var before := botListeners;
        EnableListener(kind);
        assert botListeners == [botListeners[0]] + before;
        assert ([botListeners[0]] + before)[1..] == before;
      }
    }
  }

  // ---------------------------------------------------------------------------
  // ForceShinyEncounterListener

  /** The opponent fields the listener reads, and the two it changes when it rewrites the opponent. */
  datatype Opponent = Opponent(otId: bv16, otSecretId: bv16, isShiny: bool, nickname: string)

  /** What the listener sees of one frame. */
  datatype Frame = FrameInfo(battleStartTaskActive: bool, gameState: GameState)

  /** The listener's position in the battle cycle, read off its two flags. */
  datatype Phase = Idle | Armed | InBattle

  /** The phase that follows, given one frame. */
  function NextPhase(p: Phase, f: Frame): (q: Phase)
    ensures p == Idle ==> q == (if f.battleStartTaskActive then Armed else Idle)
    ensures p == Armed ==> q == (if f.gameState == Battle then InBattle else Armed)
    ensures p == InBattle ==> q == (if f.gameState != Battle then Idle else InBattle)
  {
    match p
    case Idle => if f.battleStartTaskActive then Armed else Idle
    case Armed => if f.gameState == Battle then InBattle else Armed
    case InBattle => if f.gameState != Battle then Idle else InBattle
  }

  /** The cycle only moves forward: idle, armed, in battle, idle again. */
  lemma PhaseCycle(p: Phase, f: Frame)
    ensures NextPhase(p, f) == p || NextPhase(p, f) == (match p case Idle => Armed case Armed => InBattle case InBattle => Idle)
  {
  }

  /** The opponent as the listener writes it back: shiny, nicknamed CHEAT, otherwise the same. */
  function ShinyCopy(o: Opponent): (r: Opponent)
    ensures r.isShiny && r.nickname == "CHEAT"
    ensures r.otId == o.otId && r.otSecretId == o.otSecretId
  {
    o.(isShiny := true, nickname := "CHEAT")
  }

  class ForceShinyEncounterListener {
    var battleWasActive: bool
    var gameStateWasBattle: bool

    /** The flags never claim a battle state without a battle start. */
    predicate Valid()
      reads this
    {
      gameStateWasBattle ==> battleWasActive
    }

    function PhaseOf(): Phase
      reads this
      requires Valid()
    {
      if !battleWasActive then Idle else if !gameStateWasBattle then Armed else InBattle
    }

    constructor ()
      ensures Valid() && PhaseOf() == Idle
    {
      battleWasActive := false;
      gameStateWasBattle := false;
    }

    /**
     * `handle_frame`: advance the cycle. On the idle-to-armed step, the
     * opponent is replaced by a shiny copy when its original trainer is the
     * player (both ids) and it is not shiny already.
     */
    method HandleFrame(f: Frame, player: Player.Player, opponent: Opponent) returns (rewritten: Option<Opponent>)
      requires Valid() && player.WellFormed()
      modifies this
      ensures Valid()
      ensures PhaseOf() == NextPhase(old(PhaseOf()), f)
      ensures rewritten.Some? <==>
                old(PhaseOf()) == Idle && f.battleStartTaskActive
                && opponent.otId == Player.TrainerId(player) && opponent.otSecretId == Player.SecretId(player)
                && !opponent.isShiny
      ensures rewritten.Some? ==> rewritten.value == ShinyCopy(opponent)
    {
      rewritten := None;
      if !battleWasActive && f.battleStartTaskActive {
        battleWasActive := true;
        if opponent.otId == Player.TrainerId(player) && opponent.otSecretId == Player.SecretId(player) && !opponent.isShiny {
          rewritten := Some(ShinyCopy(opponent));
        }
      } else if battleWasActive && !gameStateWasBattle && f.gameState == Battle {
        gameStateWasBattle := true;
      } else if battleWasActive && gameStateWasBattle && f.gameState != Battle {
        battleWasActive := false;
        gameStateWasBattle := false;
      }
    }
  }

  /**
   * The number of frames over a run on which the listener takes the
   * idle-to-armed step, the only step on which it may rewrite the opponent.
   */
  function RewritesOver(p: Phase, frames: seq<Frame>): (n: nat)
    ensures n <= |frames|
    decreases |frames|
  {
    if frames == [] then 0
    else (if p == Idle && frames[0].battleStartTaskActive then 1 else 0) + RewritesOver(NextPhase(p, frames[0]), frames[1..])
  }

  /** The number of frames of a run whose game state is a battle. */
  function BattleFrames(frames: seq<Frame>): nat {
    if frames == [] then 0 else (if frames[0].gameState == Battle then 1 else 0) + BattleFrames(frames[1..])
  }

  /**
   * Between two rewrites a battle must be seen: over any run, the rewrites
   * number at most the battle frames, plus one when the listener is not
   * already armed.
   */
  lemma {:induction false} RewritesBoundedByBattles(p: Phase, frames: seq<Frame>)
    ensures RewritesOver(p, frames) <= BattleFrames(frames) + (if p == Armed then 0 else 1)
    decreases |frames|
  {
    if frames != [] {
      RewritesBoundedByBattles(NextPhase(p, frames[0]), frames[1..]);
    }
  }

  /** Without a battle frame the opponent is rewritten at most once, and never once armed. */
  lemma AtMostOneRewriteWithoutBattle(p: Phase, frames: seq<Frame>)
    requires forall i :: 0 <= i < |frames| ==> frames[i].gameState != Battle
    ensures RewritesOver(p, frames) <= (if p == Armed then 0 else 1)
  {
    RewritesBoundedByBattles(p, frames);
    NoBattleFrames(frames);
  }

  lemma {:induction false} NoBattleFrames(frames: seq<Frame>)
    requires forall i :: 0 <= i < |frames| ==> frames[i].gameState != Battle
    ensures BattleFrames(frames) == 0
  {
    if frames != [] {
      NoBattleFrames(frames[1..]);
    }
  }

  // ---------------------------------------------------------------------------
  // ForcePokenavCallListener

  /**
   * The rewritten match-call state: the clock's total minutes less 30 as a
   * little-endian uint32, then the old bytes 4 and 5, the byte 0x70, and
   * the old byte 7 (Python slices clamp on a short state). `None` when the
   * value does not fit an unsigned 32-bit field, where packing fails.
   */
  function MatchCallRewrite(state: seq<byte>, totalMinutes: int): (r: Option<seq<byte>>)
    ensures r.None? <==> totalMinutes < 30 || totalMinutes - 30 >= 0x1_0000_0000
    ensures r.Some? ==> |r.value| >= 4 && Unpack32(r.value[..4]) == (totalMinutes - 30) as bv32
    ensures r.Some? && |state| >= 8 ==>
              |r.value| == 8 && r.value[4] == state[4] && r.value[5] == state[5] && r.value[6] == 0x70 && r.value[7] == state[7]
  {
    if totalMinutes < 30 || totalMinutes - 30 >= 0x1_0000_0000 then None
    else Some(Pack32((totalMinutes - 30) as bv32) + Slice(state, 4, 6) + [0x70] + Slice(state, 7, 8))
  }

  /** Rewriting the state twice at the same clock gives the same bytes as rewriting it once. */
  lemma MatchCallRewriteIdempotent(state: seq<byte>, totalMinutes: int)
    requires |state| >= 8 && MatchCallRewrite(state, totalMinutes).Some?
    ensures MatchCallRewrite(MatchCallRewrite(state, totalMinutes).value, totalMinutes) == MatchCallRewrite(state, totalMinutes)
  {
    var once := MatchCallRewrite(state, totalMinutes).value;
    var twice := MatchCallRewrite(once, totalMinutes).value;
    assert once[..4] == twice[..4] == Pack32((totalMinutes - 30) as bv32);
    assert twice == once;
  }

  // ---------------------------------------------------------------------------
  // _give_test_party

  /** Whether the player is asked to confirm: only when the test members would overwrite party slots. */
  function AsksConfirmation(partySize: nat, testSize: nat): bool {
    partySize > 6 - testSize
  }

  /**
   * `_give_test_party`: keep the first `6 - n` members (a Python slice) and
   * append the `n` test members; `None` when the player declines the
   * overwrite.
   */
  function GiveTestParty<T>(party: seq<T>, test: seq<T>, confirmed: bool): (r: Option<seq<T>>)
    ensures r.None? <==> AsksConfirmation(|party|, |test|) && !confirmed
    ensures r.Some? ==> r.value == SliceTo(party, 6 - |test|) + test
  {
    if AsksConfirmation(|party|, |test|) && !confirmed then None
    else Some(SliceTo(party, 6 - |test|) + test)
  }

  /**
   * With at most six test members, the new party never exceeds six, starts
   * with the first old members in order, ends with the test members, and
   * loses old members only when confirmation was asked for.
   */
  lemma GiveTestPartyShape<T>(party: seq<T>, test: seq<T>, confirmed: bool)
    requires |test| <= 6 && GiveTestParty(party, test, confirmed).Some?
    ensures var r := GiveTestParty(party, test, confirmed).value;
            && |r| <= (if |party| > 6 - |test| then 6 else |party| + |test|)
            && r[..|r| - |test|] <= party
            && r[|r| - |test|..] == test
            && (!AsksConfirmation(|party|, |test|) ==> r == party + test)
  {
    var r := GiveTestParty(party, test, confirmed).value;
    var kept := SliceTo(party, 6 - |test|);
    assert r == kept + test;
    assert r[..|r| - |test|] == kept;
    assert r[|r| - |test|..] == test;
  }

  // ---------------------------------------------------------------------------
  // File names

  /** `replace("\\", "/")`. */
  function NormalizeSeparators(path: string): (r: string)
    ensures |r| == |path|
    ensures forall i :: 0 <= i < |path| ==> r[i] == if path[i] == '\\' then '/' else path[i]
  {
    if path == [] then []
    else [if path[0] == '\\' then '/' else path[0]] + NormalizeSeparators(path[1..])
  }

  /** `split("/")[-1]`: the text after the last '/', or all of it when there is none. */
  function LastComponent(s: string): (r: string)
    ensures |r| <= |s| && r == s[|s| - |r|..]
    ensures '/' !in r
    ensures |r| < |s| ==> s[|s| - |r| - 1] == '/'
  {
    if s == [] then []
    else if s[|s| - 1] == '/' then []
    else LastComponent(s[..|s| - 1]) + [s[|s| - 1]]
  }

  /** A stretch of the path with no '/' after normalising is the same stretch of the original path. */
  lemma {:induction false} UnchangedWithoutSeparators(path: string, k: nat)
    requires k <= |path|
    requires forall i :: k <= i < |path| ==> NormalizeSeparators(path)[i] != '/'
    ensures NormalizeSeparators(path)[k..] == path[k..]
  {
    var n := NormalizeSeparators(path);
    assert forall j :: 0 <= j < |path| - k ==> n[k..][j] == n[k + j] == path[k + j] == path[k..][j];
  }

  /**
   * The file name reported after choosing a path: the last component under
   * either separator. It holds no separator, is a suffix of the path, and is
   * preceded by a separator unless it is the whole path.
   */
  function FileName(path: string): (r: string)
    ensures '/' !in r && '\\' !in r
    ensures |r| <= |path| && r == path[|path| - |r|..]
    ensures |r| < |path| ==> path[|path| - |r| - 1] in {'/', '\\'}
  {
    var n := NormalizeSeparators(path);
    var r := LastComponent(n);
    assert forall i :: |path| - |r| <= i < |path| ==> n[i] == r[i - (|path| - |r|)];
    UnchangedWithoutSeparators(path, |path| - |r|);
    r
  }
}
