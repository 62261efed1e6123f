/**
 * Scripted multi-frame routines: flying to a destination, fishing, choosing
 * a party slot, saving the game, and buying and selling in a mart.
 *
 * Each routine first validates its preconditions without pressing anything,
 * then drives the game through a loop that presses or holds a button and
 * waits a frame. What the game shows in response (the region-map cursor,
 * a menu's scroll position, the quantity dialogue, the bag after a sale)
 * is either a field of `Game` that moves one step per input, or a given
 * sequence of observed values, one per loop iteration.
 */
module HigherLevelActions {
  import opened Common

  // ---------------------------------------------------------------------------
  // Emulator and game state

  /** The emulator's input log and held buttons, and the game state the routines poll. */
  class Game {
    var inputs: seq<Input>
    var held: set<Button>
    /** Cursor of the region map shown by Fly. */
    var mapCursor: (int, int)
    /** Scroll position of the mart's Buy/Sell/Leave menu. */
    var menuPosition: nat

    constructor (mapCursor: (int, int), menuPosition: nat)
      ensures this.inputs == [] && this.held == {}
      ensures this.mapCursor == mapCursor && this.menuPosition == menuPosition
    {
      this.inputs := [];
      this.held := {};
      this.mapCursor := mapCursor;
      this.menuPosition := menuPosition;
    }

    /**
     * The region-map loop of `fly_to`: release everything, hold the one
     * direction `CursorStep` picks, wait a frame (in which the cursor moves
     * one tile that way), until the cursor is on the target; then release.
     */
    method MoveMapCursor(target: (int, int))
      modifies this
      ensures mapCursor == target && held == {}
      ensures inputs == old(inputs) + HoldInputs(CursorPath(old(mapCursor), target)) + [ReleaseAll]
      ensures menuPosition == old(menuPosition)
    {
      while mapCursor != target
        invariant inputs + HoldInputs(CursorPath(mapCursor, target)) == old(inputs) + HoldInputs(CursorPath(old(mapCursor), target))
        invariant menuPosition == old(menuPosition)
        decreases Distance(mapCursor, target)
      {
        var step := CursorStep(mapCursor, target);
        held := {};
        held := held + {step.value};
        inputs := inputs + [ReleaseAll, Hold(step.value), Frame];
        mapCursor := Move(mapCursor, step.value);
      }
      held := {};
      inputs := inputs + [ReleaseAll];
    }

    /**
     * The scroll loops of the mart's main menu: press Up while above the
     * target and Down while below, one press per frame (the menu moves one
     * entry per press). `buy_in_shop` scrolls to 0 (Buy), where only Up is
     * ever needed, `sell_in_shop` to 1 (Sell).
     */
    method ScrollMenu(target: nat)
      modifies this
      ensures menuPosition == target
      ensures inputs == old(inputs) + PressInputs(ScrollPath(old(menuPosition), target))
      ensures mapCursor == old(mapCursor) && held == old(held)
    {
      while menuPosition != target
        invariant inputs + PressInputs(ScrollPath(menuPosition, target)) == old(inputs) + PressInputs(ScrollPath(old(menuPosition), target))
        invariant mapCursor == old(mapCursor) && held == old(held)
        decreases if menuPosition < target then target - menuPosition else menuPosition - target
      {
        var button := if menuPosition > target then Up else Down;
        inputs := inputs + [Press(button), Frame];
        menuPosition := if button == Up then menuPosition - 1 else menuPosition + 1;
      }
    }

    /**
     * `fly_to`: the three checks run before any input; then (after the
     * menu navigation, which this model does not log) the region check and
     * the cursor loop.
     */
    method FlyTo(hasBadge: bool, destinationUnlocked: bool, party: seq<PartyMember>, inRegion: bool, destination: (int, int))
      returns (r: Result<nat, FlyError>)
      modifies this
      ensures !hasBadge ==> r == Err(MissingBadge) && unchanged(this)
      ensures hasBadge && !destinationUnlocked ==> r == Err(DestinationLocked) && unchanged(this)
      ensures hasBadge && destinationUnlocked && (forall k :: 0 <= k < |party| ==> !KnowsFly(party[k])) ==>
                r == Err(NoFlyUser) && unchanged(this)
      ensures r.Err? <==> !(hasBadge && destinationUnlocked && exists k :: 0 <= k < |party| && KnowsFly(party[k])) || !inRegion
      ensures r.Ok? ==> r.value < |party| && KnowsFly(party[r.value]) && forall k :: 0 <= k < r.value ==> !KnowsFly(party[k])
      ensures r.Ok? ==> mapCursor == destination && held == {}
      ensures r.Ok? ==> inputs == old(inputs) + HoldInputs(CursorPath(old(mapCursor), destination)) + [ReleaseAll]
    {
      r := FlyChecks(hasBadge, destinationUnlocked, party);
      if r.Err? {
        return;
      }
      if !inRegion {
        r := Err(WrongRegion);
        return;
      }
      MoveMapCursor(destination);
    }
  }

  // ---------------------------------------------------------------------------
  // fly_to

  datatype FlyError = MissingBadge | DestinationLocked | NoFlyUser | WrongRegion

  /** A party member's four move slots; an empty slot is `None`. */
  datatype PartyMember = PartyMember(moves: seq<Option<string>>)

  predicate KnowsFly(m: PartyMember) {
    exists j :: 0 <= j < |m.moves| && m.moves[j] == Some("Fly")
  }

  /** The search for the Fly user: the first party member with a move named Fly, or -1. */
  method FindFlyUser(party: seq<PartyMember>) returns (index: int)
    ensures index == -1 <==> forall k :: 0 <= k < |party| ==> !KnowsFly(party[k])
    ensures index != -1 ==> 0 <= index < |party| && KnowsFly(party[index])
    ensures index != -1 ==> forall k :: 0 <= k < index ==> !KnowsFly(party[k])
  {
    index := -1;
    var i := 0;
    while i < |party|
      invariant 0 <= i <= |party|
      invariant index == -1
      invariant forall k :: 0 <= k < i ==> !KnowsFly(party[k])
    {
      var moves := party[i].moves;
      var j := 0;
      while j < |moves| && !(moves[j].Some? && moves[j].value == "Fly")
        invariant 0 <= j <= |moves|
        invariant forall l :: 0 <= l < j ==> moves[l] != Some("Fly")
      {
        j := j + 1;
      }
      if j < |moves| {
        return i;
      }
      i := i + 1;
    }
  }

  /**
   * The checks `fly_to` makes before pressing anything, in order: the
   * badge, the destination's flag, a party member that knows Fly. On
   * success, the index of the Fly user.
   */
  method FlyChecks(hasBadge: bool, destinationUnlocked: bool, party: seq<PartyMember>) returns (r: Result<nat, FlyError>)
    ensures !hasBadge ==> r == Err(MissingBadge)
    ensures hasBadge && !destinationUnlocked ==> r == Err(DestinationLocked)
    ensures hasBadge && destinationUnlocked ==>
              (r == Err(NoFlyUser) <==> forall k :: 0 <= k < |party| ==> !KnowsFly(party[k]))
    ensures r.Ok? <==> hasBadge && destinationUnlocked && exists k :: 0 <= k < |party| && KnowsFly(party[k])
    ensures r.Ok? ==> r.value < |party| && KnowsFly(party[r.value]) && forall k :: 0 <= k < r.value ==> !KnowsFly(party[k])
    ensures r.Err? ==> r.error != WrongRegion
  {
    if !hasBadge {
      return Err(MissingBadge);
    }
    if !destinationUnlocked {
      return Err(DestinationLocked);
    }
    var index := FindFlyUser(party);
    if index == -1 {
      return Err(NoFlyUser);
    }
    return Ok(index);
  }

  /** Manhattan distance between two map-cursor positions. */
  function Distance(c: (int, int), t: (int, int)): nat {
    (if c.0 < t.0 then t.0 - c.0 else c.0 - t.0) + (if c.1 < t.1 then t.1 - c.1 else c.1 - t.1)
  }

  /** The direction held in one iteration of the cursor loop: fix x first, then y. */
  function CursorStep(c: (int, int), t: (int, int)): (r: Option<Button>)
    ensures r.None? <==> c == t
    ensures r == Some(Right) <==> c.0 < t.0
    ensures r == Some(Left) <==> c.0 > t.0
    ensures r == Some(Down) <==> c.0 == t.0 && c.1 < t.1
    ensures r == Some(Up) <==> c.0 == t.0 && c.1 > t.1
  {
    if c.0 < t.0 then Some(Right)
    else if c.0 > t.0 then Some(Left)
    else if c.1 < t.1 then Some(Down)
    else if c.1 > t.1 then Some(Up)
    else None
  }

  /** How the region-map cursor responds to a held direction over one frame. */
  function Move(c: (int, int), b: Button): (int, int) {
    match b
    case Right => (c.0 + 1, c.1)
    case Left => (c.0 - 1, c.1)
    case Down => (c.0, c.1 + 1)
    case Up => (c.0, c.1 - 1)
    case _ => c
  }

  /** Every step of the cursor loop brings the cursor one tile closer to the target. */
  lemma CursorStepApproaches(c: (int, int), t: (int, int))
    requires c != t
    ensures Distance(Move(c, CursorStep(c, t).value), t) == Distance(c, t) - 1
  {
  }

  /** The directions held, frame by frame, on the way from `c` to `t`. */
  function CursorPath(c: (int, int), t: (int, int)): seq<Button>
    decreases Distance(c, t)
  {
    if c == t then [] else
      var b := CursorStep(c, t).value;
      [b] + CursorPath(Move(c, b), t)
  }

  /** Each iteration releases everything, holds one direction and waits a frame. */
  function HoldInputs(path: seq<Button>): seq<Input> {
    if path == [] then [] else [ReleaseAll, Hold(path[0]), Frame] + HoldInputs(path[1..])
  }

  function Repeat(b: Button, n: nat): (r: seq<Button>)
    ensures |r| == n && forall i :: 0 <= i < n ==> r[i] == b
  {
    if n == 0 then [] else [b] + Repeat(b, n - 1)
  }

  /** The horizontal presses toward the target: one per column of difference. */
  function HorizontalRun(c: (int, int), t: (int, int)): seq<Button> {
    if c.0 < t.0 then Repeat(Right, t.0 - c.0) else Repeat(Left, c.0 - t.0)
  }

  /** The vertical presses toward the target: one per row of difference. */
  function VerticalRun(c: (int, int), t: (int, int)): seq<Button> {
    if c.1 < t.1 then Repeat(Down, t.1 - c.1) else Repeat(Up, c.1 - t.1)
  }

  /** One step of the path peels one press off the run of its axis and leaves the other run alone. */
  lemma CursorStepRuns(c: (int, int), t: (int, int))
    requires c != t
    ensures var b := CursorStep(c, t).value;
            HorizontalRun(c, t) + VerticalRun(c, t) == [b] + (HorizontalRun(Move(c, b), t) + VerticalRun(Move(c, b), t))
  {
    if c.0 < t.0 {
      RunPeels(Right, t.0 - c.0, VerticalRun(c, t));
    } else if c.0 > t.0 {
      RunPeels(Left, c.0 - t.0, VerticalRun(c, t));
    } else if c.1 < t.1 {
      RunPeels(Down, t.1 - c.1, []);
    } else {
      RunPeels(Up, c.1 - t.1, []);
    }
  }

  lemma RunPeels(b: Button, n: nat, tail: seq<Button>)
    requires n > 0
    ensures Repeat(b, n) + tail == [b] + (Repeat(b, n - 1) + tail)
  {
  }

  /**
   * The cursor loop holds the horizontal direction toward the target once per
   * column of difference, and only then the vertical direction once per row.
   */
  lemma {:induction false} CursorPathShape(c: (int, int), t: (int, int))
    ensures CursorPath(c, t) == HorizontalRun(c, t) + VerticalRun(c, t)
    decreases Distance(c, t)
  {
    if c == t {
      assert HorizontalRun(c, t) == [] && VerticalRun(c, t) == [];
    } else {
      var b := CursorStep(c, t).value;
      CursorPathShape(Move(c, b), t);
      CursorStepRuns(c, t);
    }
  }

  // ---------------------------------------------------------------------------
  // fish

  /** The states of the game's fishing task, with the numbers the task stores. */
  datatype FishingState =
    | Init | GetRodOut | WaitBeforeDots | InitDots | ShowDots | CheckForBite | GotBite | WaitForA
    | CheckMoreDots | MonOnHook | StartEncounter | NotEvenNibble | GotAway | NoMon | PutRodAway | EndNoMon

  function FishingValue(s: FishingState): nat {
    match s
    case Init => 0 case GetRodOut => 1 case WaitBeforeDots => 2 case InitDots => 3
    case ShowDots => 4 case CheckForBite => 5 case GotBite => 6 case WaitForA => 7
    case CheckMoreDots => 8 case MonOnHook => 9 case StartEncounter => 10 case NotEvenNibble => 11
    case GotAway => 12 case NoMon => 13 case PutRodAway => 14 case EndNoMon => 15
  }

  /**
   * One frame of `fish`: the button pressed for the fishing task's state
   * (`None` when no fishing task runs: Select uses the registered rod).
   */
  function FishButton(task: Option<int>): (r: Option<Button>)
    ensures r == Some(Select) <==> task.None?
    ensures r == Some(A) <==> task.Some? && (task.value == 7 || task.value == 10 || task.value == 15)
    ensures r == Some(B) <==> task == Some(11)
    ensures r.Some? ==> r.value == Select || r.value == A || r.value == B
  {
    match task
    case None => Some(Select)
    case Some(state) =>
      if state == FishingValue(WaitForA) || state == FishingValue(EndNoMon) then Some(A)
      else if state == FishingValue(NotEvenNibble) then Some(B)
      else if state == FishingValue(StartEncounter) then Some(A)
      else None
  }

  /** By named state: A to reel in, confirm or start the battle, B after no nibble, nothing while waiting. */
  lemma FishButtonByState(s: FishingState)
    ensures FishButton(Some(FishingValue(s))) ==
              if s == WaitForA || s == EndNoMon || s == StartEncounter then Some(A)
              else if s == NotEvenNibble then Some(B)
              else None
  {
  }

  // ---------------------------------------------------------------------------
  // change_lead_party_pokemon

  /**
   * The buttons that pick the party slot to swap with the lead once the
   * party menu waits for a choice: Right, then `slot - 1` Downs (none for a
   * slot below 2), then A.
   */
  method ChooseSlotButtons(slot: int) returns (buttons: seq<Button>)
    ensures |buttons| == (if slot > 1 then slot + 1 else 2)
    ensures buttons[0] == Right && buttons[|buttons| - 1] == A
    ensures forall i :: 0 < i < |buttons| - 1 ==> buttons[i] == Down
  {
    buttons := [Right];
    if slot != 1 {
      var n := 0;
      while n < slot - 1
        invariant 0 <= n && (slot > 1 ==> n <= slot - 1) && (slot <= 1 ==> n == 0)
        invariant |buttons| == n + 1 && buttons[0] == Right
        invariant forall i :: 0 < i < |buttons| ==> buttons[i] == Down
      {
        buttons := buttons + [Down];
        n := n + 1;
      }
    }
    buttons := buttons + [A];
  }

  /**
   * Where the party-menu cursor lands: it starts on the lead (slot 0), Right
   * moves to slot 1, each Down moves one slot further; the first A
   * confirms the slot, and the buttons after it are ignored.
   */
  function PartyCursor(start: nat, buttons: seq<Button>): nat
    decreases |buttons|
  {
    if buttons == [] || buttons[0] == A then start
    else if buttons[0] == Right then PartyCursor(if start == 0 then 1 else start, buttons[1..])
    else if buttons[0] == Down then PartyCursor(start + 1, buttons[1..])
    else PartyCursor(start, buttons[1..])
  }

  /** Right followed by only Downs and an A ends the cursor on slot `1 + downs`. */
  lemma {:induction false} PartyCursorAfterDowns(start: nat, buttons: seq<Button>)
    requires |buttons| >= 1 && buttons[|buttons| - 1] == A
    requires forall i :: 0 <= i < |buttons| - 1 ==> buttons[i] == Down
    ensures PartyCursor(start, buttons) == start + |buttons| - 1
    decreases |buttons|
  {
    if buttons[0] != A {
      PartyCursorAfterDowns(start + 1, buttons[1..]);
    }
  }

  /** The slot chosen is the requested one for slots 1 to 5, and slot 1 for anything lower. */
  lemma ChooseSlotReachesSlot(slot: int, buttons: seq<Button>)
    requires |buttons| == (if slot > 1 then slot + 1 else 2)
    requires buttons[0] == Right && buttons[|buttons| - 1] == A
    requires forall i :: 0 < i < |buttons| - 1 ==> buttons[i] == Down
    ensures PartyCursor(0, buttons) == if slot > 1 then slot else 1
  {
    PartyCursorAfterDowns(1, buttons[1..]);
  }

  // ---------------------------------------------------------------------------
  // save_the_game

  /** What one iteration of the save loop reads: whether the start-menu task runs, and the save dialogue's callback. */
  datatype SaveObservation = SaveObservation(startMenuActive: bool, callback: string)

  /** The inputs of one iteration: A to confirm, or Up then A to answer the overwrite question. */
  function SaveStep(o: SaveObservation, overwriteCallback: string): seq<Input>
    requires o.startMenuActive
  {
    if o.callback != overwriteCallback then [Press(A), Frame]
    else [Press(Up), Frame, Frame, Press(A), Frame, Frame]
  }

  /** Inputs of the save loop over the observed iterations, up to the first one without the start menu. */
  function SaveInputs(obs: seq<SaveObservation>, overwriteCallback: string): seq<Input>
  {
    if obs == [] then []
    else if !obs[0].startMenuActive then [Frame]
    else SaveStep(obs[0], overwriteCallback) + SaveInputs(obs[1..], overwriteCallback)
  }

  /** Index of the first observation without the start menu (the iteration that ends the loop), or |obs|. */
  function FirstClosed(obs: seq<SaveObservation>): (k: nat)
    ensures k <= |obs|
    ensures forall i :: 0 <= i < k ==> obs[i].startMenuActive
    ensures k < |obs| ==> !obs[k].startMenuActive
  {
    if obs == [] || !obs[0].startMenuActive then 0 else 1 + FirstClosed(obs[1..])
  }

  /** Every iteration with the start menu open confirms exactly once with A. */
  lemma {:induction false} SaveConfirmsOncePerIteration(obs: seq<SaveObservation>, overwriteCallback: string)
    ensures multiset(SaveInputs(obs, overwriteCallback))[Press(A)] == FirstClosed(obs)
  {
    if obs != [] && obs[0].startMenuActive {
      SaveConfirmsOncePerIteration(obs[1..], overwriteCallback);
    }
  }

  /**
   * `save_the_game`'s loop over the observed iterations; `finished` when the
   * start menu closed within them (the routine would keep polling otherwise).
   */
  method SaveTheGame(obs: seq<SaveObservation>, overwriteCallback: string) returns (inputs: seq<Input>, finished: bool)
    ensures inputs == SaveInputs(obs, overwriteCallback)
    ensures finished <==> exists i :: 0 <= i < |obs| && !obs[i].startMenuActive
  {
    inputs := [];
    var i := 0;
    while i < |obs|
      invariant 0 <= i <= |obs|
      invariant forall k :: 0 <= k < i ==> obs[k].startMenuActive
      invariant inputs + SaveInputs(obs[i..], overwriteCallback) == SaveInputs(obs, overwriteCallback)
    {
      if !obs[i].startMenuActive {
        inputs := inputs + [Frame];
        assert SaveInputs(obs[i..], overwriteCallback) == [Frame];
        return inputs, true;
      }
      assert obs[i..][1..] == obs[i + 1..];
      inputs := inputs + SaveStep(obs[i], overwriteCallback);
      i := i + 1;
    }
    return inputs, false;
  }

  // ---------------------------------------------------------------------------
  // Items and the mart

  datatype Pocket = Items | KeyItems | PokeBalls | TmsAndHms | Berries

  datatype Item = Item(index: nat, name: string, price: nat, pocket: Pocket)

  /** One entry of a shopping or selling list. */
  datatype Entry = Entry(item: Item, quantity: int)

  datatype BuyError = BuyMenuNotActive | NotBuyable(item: Item) | InvalidQuantity(quantity: int) | NotEnoughMoney(total: int, money: int)

  predicate Buyable(e: Entry, buyable: seq<Item>) {
    e.item in buyable && 0 <= e.quantity <= 99
  }

  function Cost(e: Entry): int {
    e.quantity * e.item.price
  }

  /** Σ quantity·price over the entries from index i on. */
  function TotalCostFrom(list: seq<Entry>, i: nat): int
    decreases |list| - i
  {
    if i >= |list| then 0 else Cost(list[i]) + TotalCostFrom(list, i + 1)
  }

  /** The validation pass of `buy_in_shop` from entry i on, with `total` accumulated so far. */
  function ShoppingListCheck(list: seq<Entry>, buyable: seq<Item>, i: nat, total: int): Result<int, BuyError>
    decreases |list| - i
  {
    if i >= |list| then Ok(total)
    else if list[i].item !in buyable then Err(NotBuyable(list[i].item))
    else if list[i].quantity < 0 || list[i].quantity > 99 then Err(InvalidQuantity(list[i].quantity))
    else ShoppingListCheck(list, buyable, i + 1, total + Cost(list[i]))
  }

  /** `buy_in_shop`'s checks: the shop menu, every entry, then the money against the total. */
  function BuyCheck(shopMenuActive: bool, list: seq<Entry>, buyable: seq<Item>, money: int): Result<int, BuyError>
  {
    if !shopMenuActive then Err(BuyMenuNotActive)
    else match ShoppingListCheck(list, buyable, 0, 0)
      case Err(e) => Err(e)
      case Ok(total) => if money < total then Err(NotEnoughMoney(total, money)) else Ok(total)
  }

  /**
   * The list check accepts exactly the lists whose entries are all buyable
   * with a quantity in 0..99, and then yields the full cost.
   */
  lemma {:induction false} ShoppingListCheckOk(list: seq<Entry>, buyable: seq<Item>, i: nat, total: int)
    ensures ShoppingListCheck(list, buyable, i, total).Ok? <==> forall k :: i <= k < |list| ==> Buyable(list[k], buyable)
    ensures ShoppingListCheck(list, buyable, i, total).Ok? ==> ShoppingListCheck(list, buyable, i, total).value == total + TotalCostFrom(list, i)
    decreases |list| - i
  {
    if i < |list| && Buyable(list[i], buyable) {
      ShoppingListCheckOk(list, buyable, i + 1, total + Cost(list[i]));
    }
  }

  /** A rejected list is reported by its first failing entry, the item checked before the quantity. */
  lemma {:induction false} ShoppingListCheckErr(list: seq<Entry>, buyable: seq<Item>, i: nat, total: int) returns (k: nat)
    requires ShoppingListCheck(list, buyable, i, total).Err?
    ensures i <= k < |list| && !Buyable(list[k], buyable)
    ensures forall l :: i <= l < k ==> Buyable(list[l], buyable)
    ensures ShoppingListCheck(list, buyable, i, total).error ==
              (if list[k].item !in buyable then NotBuyable(list[k].item) else InvalidQuantity(list[k].quantity))
    decreases |list| - i
  {
    if Buyable(list[i], buyable) {
      k := ShoppingListCheckErr(list, buyable, i + 1, total + Cost(list[i]));
    } else {
      k := i;
    }
  }

  /** A successful check guarantees that the player can pay for the whole list. */
  lemma BuyCheckOk(shopMenuActive: bool, list: seq<Entry>, buyable: seq<Item>, money: int)
    ensures BuyCheck(shopMenuActive, list, buyable, money).Ok? <==>
              shopMenuActive && (forall k :: 0 <= k < |list| ==> Buyable(list[k], buyable)) && TotalCostFrom(list, 0) <= money
    ensures BuyCheck(shopMenuActive, list, buyable, money).Ok? ==> BuyCheck(shopMenuActive, list, buyable, money).value == TotalCostFrom(list, 0)
  {
    ShoppingListCheckOk(list, buyable, 0, 0);
  }

  /** The validation loop of `buy_in_shop`, accumulating `total_cost` and raising at the first bad entry. */
  method ValidateShoppingList(shopMenuActive: bool, list: seq<Entry>, buyable: seq<Item>, money: int) returns (r: Result<int, BuyError>)
    ensures r == BuyCheck(shopMenuActive, list, buyable, money)
  {
    if !shopMenuActive {
      return Err(BuyMenuNotActive);
    }
    var total := 0;
    var i := 0;
    while i < |list|
      invariant 0 <= i <= |list|
      invariant ShoppingListCheck(list, buyable, i, total) == ShoppingListCheck(list, buyable, 0, 0)
    {
      var e := list[i];
      if e.item !in buyable {
        return Err(NotBuyable(e.item));
      }
      if e.quantity < 0 || e.quantity > 99 {
        return Err(InvalidQuantity(e.quantity));
      }
      total := total + e.quantity * e.item.price;
      i := i + 1;
    }
    if money < total {
      return Err(NotEnoughMoney(total, money));
    }
    return Ok(total);
  }

  /** The scroll presses from one menu position to another, one per frame. */
  function ScrollPath(from: int, to: int): seq<Button>
    decreases if from < to then to - from else from - to
  {
    if from == to then [] else if from > to then [Up] + ScrollPath(from - 1, to) else [Down] + ScrollPath(from + 1, to)
  }

  function PressInputs(path: seq<Button>): seq<Input> {
    if path == [] then [] else [Press(path[0]), Frame] + PressInputs(path[1..])
  }

  /** The scroll presses all go one way and there is one per entry of distance. */
  lemma {:induction false} ScrollPathShape(from: int, to: int)
    ensures ScrollPath(from, to) == if from > to then Repeat(Up, from - to) else Repeat(Down, to - from)
    decreases if from < to then to - from else from - to
  {
    if from > to {
      ScrollPathShape(from - 1, to);
      assert Repeat(Up, from - to) == [Up] + Repeat(Up, from - to - 1);
    } else if from < to {
      ScrollPathShape(from + 1, to);
      assert Repeat(Down, to - from) == [Down] + Repeat(Down, to - from - 1);
    }
  }

  /**
   * One press of the quantity dialogue: the coarse buttons (Left/Right)
   * when more than 7 away from the target, the fine ones (Up/Down)
   * otherwise; in reverse the decreasing button of each pair.
   */
  function QuantityButton(current: int, target: int, reverse: bool): (b: Button)
    ensures (b == Left || b == Right) <==> (current - target > 7 || target - current > 7)
    ensures (b == Left || b == Down) <==> reverse
  {
    var coarse := if current < target then target - current > 7 else current - target > 7;
    if coarse then (if reverse then Left else Right) else (if reverse then Down else Up)
  }

  /**
   * `buy_in_shop` scrolls the quantity in reverse for more than 50 items:
   * exactly when the target is closer to 99, the largest quantity a
   * shopping list may ask for, than to 1, where the dialogue starts.
   */
  function BuyReverseScroll(quantity: int): (r: bool)
    ensures r <==> 99 - quantity < quantity - 1
  {
    quantity > 50
  }

  /** `sell_in_shop` scrolls in reverse when selling more than half the stack (true division). */
  function SellReverseScroll(toSell: int, slotQuantity: int): (r: bool)
    ensures r <==> 2 * toSell > slotQuantity
  {
    toSell as real > slotQuantity as real / 2.0
  }

  /**
   * The quantity loop over the observed dialogue values: while the value
   * is not the target, press `QuantityButton` and wait a frame. `reached`
   * when the target shows up among the observations.
   */
  method AdjustQuantity(target: int, reverse: bool, observed: seq<int>) returns (inputs: seq<Input>, reached: bool)
    ensures reached <==> target in observed
    ensures exists k :: 0 <= k <= |observed| && |inputs| == 2 * k
              && (forall i :: 0 <= i < k ==>
                    (observed[i] != target && inputs[2 * i] == Press(QuantityButton(observed[i], target, reverse)) && inputs[2 * i + 1] == Frame))
              && (reached ==> k < |observed| && observed[k] == target)
              && (!reached ==> k == |observed|)
  {
    inputs := [];
    var i := 0;
    while i < |observed| && observed[i] != target
      invariant 0 <= i <= |observed| && |inputs| == 2 * i
      invariant forall l :: 0 <= l < i ==>
                  (observed[l] != target && inputs[2 * l] == Press(QuantityButton(observed[l], target, reverse)) && inputs[2 * l + 1] == Frame)
    {
      inputs := inputs + [Press(QuantityButton(observed[i], target, reverse)), Frame];
      i := i + 1;
    }
    reached := i < |observed|;
  }

  // ---------------------------------------------------------------------------
  // sell_in_shop

  /** A bag slot: an item and how many of it the stack holds. */
  datatype Slot = Slot(item: Item, quantity: nat)

  /** Every stack in the bag holds at least one item. */
  predicate BagValid(bag: seq<Slot>) {
    forall i :: 0 <= i < |bag| ==> bag[i].quantity > 0
  }

  /** `quantity_of`: the total over all stacks of the item. */
  function QuantityOf(bag: seq<Slot>, item: Item): nat {
    if bag == [] then 0 else (if bag[0].item == item then bag[0].quantity else 0) + QuantityOf(bag[1..], item)
  }

  lemma {:induction false} QuantityOfAppend(x: seq<Slot>, y: seq<Slot>, item: Item)
    ensures QuantityOf(x + y, item) == QuantityOf(x, item) + QuantityOf(y, item)
  {
    if x == [] {
      assert x + y == y;
    } else {
      assert (x + y)[1..] == x[1..] + y;
      QuantityOfAppend(x[1..], y, item);
    }
  }

  /** An item the bag holds some of has a stack. */
  lemma {:induction false} QuantityOfPositive(bag: seq<Slot>, item: Item)
    requires QuantityOf(bag, item) > 0
    ensures exists i :: 0 <= i < |bag| && bag[i].item == item
  {
    if bag[0].item != item {
      QuantityOfPositive(bag[1..], item);
      var i :| 0 <= i < |bag[1..]| && bag[1..][i].item == item;
      assert bag[i + 1].item == item;
    }
  }

  /** `first_slot_index_for`: the first stack of the item. */
  function FirstSlot(bag: seq<Slot>, item: Item): (i: nat)
    requires exists k :: 0 <= k < |bag| && bag[k].item == item
    ensures i < |bag| && bag[i].item == item
    ensures forall k :: 0 <= k < i ==> bag[k].item != item
  {
    if bag[0].item == item then 0 else
      var k :| 0 <= k < |bag| && bag[k].item == item;
      assert bag[1..][k - 1].item == item;
      1 + FirstSlot(bag[1..], item)
  }

  /** How the bag changes when `n` items of stack `i` are sold: the stack shrinks, or goes away when emptied. */
  function Take(bag: seq<Slot>, i: nat, n: nat): (r: seq<Slot>)
    requires i < |bag| && 0 < n <= bag[i].quantity
  {
    if n == bag[i].quantity then bag[..i] + bag[i + 1..] else bag[i := Slot(bag[i].item, bag[i].quantity - n)]
  }

  lemma TakeQuantity(bag: seq<Slot>, i: nat, n: nat, item: Item)
    requires i < |bag| && 0 < n <= bag[i].quantity
    requires BagValid(bag)
    ensures BagValid(Take(bag, i, n))
    ensures QuantityOf(Take(bag, i, n), item) == QuantityOf(bag, item) - (if bag[i].item == item then n else 0)
  {
    assert bag == bag[..i] + [bag[i]] + bag[i + 1..];
    QuantityOfAppend(bag[..i] + [bag[i]], bag[i + 1..], item);
    QuantityOfAppend(bag[..i], [bag[i]], item);
    var r := Take(bag, i, n);
    if n == bag[i].quantity {
      QuantityOfAppend(bag[..i], bag[i + 1..], item);
    } else {
      assert r == bag[..i] + [r[i]] + bag[i + 1..];
      QuantityOfAppend(bag[..i] + [r[i]], bag[i + 1..], item);
      QuantityOfAppend(bag[..i], [r[i]], item);
    }
  }

  /** Selling from a stack keeps the bag valid and lowers the stock of that stack's item only. */
  lemma TakeOnlyThatItem(bag: seq<Slot>, i: nat, n: nat)
    requires i < |bag| && 0 < n <= bag[i].quantity
    requires BagValid(bag)
    ensures BagValid(Take(bag, i, n))
    ensures QuantityOf(Take(bag, i, n), bag[i].item) == QuantityOf(bag, bag[i].item) - n
    ensures forall other :: other != bag[i].item ==> QuantityOf(Take(bag, i, n), other) == QuantityOf(bag, other)
  {
    TakeQuantity(bag, i, n, bag[i].item);
    forall other | other != bag[i].item
      ensures QuantityOf(Take(bag, i, n), other) == QuantityOf(bag, other)
    {
      TakeQuantity(bag, i, n, other);
    }
  }

  /** The sizes of the item's stacks, in bag order. */
  function Stacks(bag: seq<Slot>, item: Item): seq<nat> {
    if bag == [] then [] else (if bag[0].item == item then [bag[0].quantity] else []) + Stacks(bag[1..], item)
  }

  /** The stock of an item is the sum of its stacks. */
  lemma {:induction false} QuantityIsSumOfStacks(bag: seq<Slot>, item: Item)
    ensures QuantityOf(bag, item) == Sum(Stacks(bag, item))
  {
    if bag != [] {
      QuantityIsSumOfStacks(bag[1..], item);
      if bag[0].item == item {
        assert ([bag[0].quantity] + Stacks(bag[1..], item))[1..] == Stacks(bag[1..], item);
      } else {
        assert [] + Stacks(bag[1..], item) == Stacks(bag[1..], item);
      }
    }
  }

  lemma {:induction false} StacksAppend(x: seq<Slot>, y: seq<Slot>, item: Item)
    ensures Stacks(x + y, item) == Stacks(x, item) + Stacks(y, item)
  {
    if x == [] {
      assert x + y == y;
    } else {
      assert (x + y)[1..] == x[1..] + y;
      StacksAppend(x[1..], y, item);
    }
  }

  lemma {:induction false} StacksNone(bag: seq<Slot>, item: Item)
    requires forall k :: 0 <= k < |bag| ==> bag[k].item != item
    ensures Stacks(bag, item) == []
  {
    if bag != [] {
      StacksNone(bag[1..], item);
    }
  }

  /**
   * Selling `n` from the item's first stack: the first stack size shrinks
   * by `n`, and is dropped when it reaches zero.
   */
  lemma StacksOfTake(bag: seq<Slot>, item: Item, n: nat)
    requires exists k :: 0 <= k < |bag| && bag[k].item == item
    requires 0 < n <= bag[FirstSlot(bag, item)].quantity
    ensures var slot := FirstSlot(bag, item);
            && Stacks(bag, item) != [] && Stacks(bag, item)[0] == bag[slot].quantity
            && Stacks(Take(bag, slot, n), item)
               == (if n == bag[slot].quantity then [] else [bag[slot].quantity - n]) + Stacks(bag, item)[1..]
  {
    var slot := FirstSlot(bag, item);
    assert Stacks(bag, item)[1..] == Stacks(bag[slot + 1..], item) by {
      StacksNone(bag[..slot], item);
      StacksAround(bag, slot, item);
    }
    var before, after := bag[..slot], bag[slot + 1..];
    StacksNone(before, item);
    StacksAround(bag, slot, item);
    if n == bag[slot].quantity {
      StacksAppend(before, after, item);
    } else {
      StacksOfShrunk(bag, slot, bag[slot].quantity - n, item);
    }
  }

  /** Shrinking the stack at `i` changes only its entry among the item's stacks. */
  lemma StacksOfShrunk(bag: seq<Slot>, i: nat, q: nat, item: Item)
    requires i < |bag| && bag[i].item == item
    ensures Stacks(bag[i := Slot(item, q)], item) == Stacks(bag[..i], item) + [q] + Stacks(bag[i + 1..], item)
  {
    var r := bag[i := Slot(item, q)];
    assert r[..i] == bag[..i];
    assert r[i + 1..] == bag[i + 1..];
    StacksAround(r, i, item);
  }

  /** The stacks around position `i`, which holds the item. */
  lemma StacksAround(bag: seq<Slot>, i: nat, item: Item)
    requires i < |bag| && bag[i].item == item
    ensures Stacks(bag, item) == Stacks(bag[..i], item) + [bag[i].quantity] + Stacks(bag[i + 1..], item)
  {
    assert bag == bag[..i] + ([bag[i]] + bag[i + 1..]);
    StacksAppend(bag[..i], [bag[i]] + bag[i + 1..], item);
    StacksAppend([bag[i]], bag[i + 1..], item);
    assert Stacks([bag[i]], item) == [bag[i].quantity];
  }

  /**
   * The sales `sell_in_shop` makes for one entry, given the sizes of the
   * item's stacks in bag order: each round sells the smaller of the first
   * stack and what is left to sell, so whole stacks go first and the last
   * round sells the remainder.
   */
  function SellPlan(stacks: seq<nat>, remaining: int): seq<nat>
  {
    if remaining <= 0 || stacks == [] then []
    else if stacks[0] >= remaining then [remaining]
    else [stacks[0]] + SellPlan(stacks[1..], remaining - stacks[0])
  }

  /**
   * With enough stock the plan sells exactly what was asked: every round
   * but the last empties the stack it sells from, and the last sells at
   * most its stack.
   */
  lemma {:induction false} SellPlanSellsWholeStacksFirst(stacks: seq<nat>, remaining: int)
    requires remaining <= Sum(stacks)
    ensures var plan := SellPlan(stacks, remaining);
            && Sum(plan) == (if remaining > 0 then remaining else 0)
            && |plan| <= |stacks|
            && (forall k :: 0 <= k < |plan| - 1 ==> plan[k] == stacks[k])
            && (|plan| > 0 ==> plan[|plan| - 1] <= stacks[|plan| - 1])
  {
    if remaining > 0 && stacks != [] && stacks[0] < remaining {
      SellPlanSellsWholeStacksFirst(stacks[1..], remaining - stacks[0]);
      var rest := SellPlan(stacks[1..], remaining - stacks[0]);
      assert ([stacks[0]] + rest)[1..] == rest;
    }
  }

  /**
   * The stack-splitting loop of `sell_in_shop` for one entry: sell from
   * the item's first stack the smaller of the stack and what is left to
   * sell, until exactly `quantity` items are sold. `sales` lists the
   * amount sold per round; the bag is as the game leaves it.
   */
  method SellStacks(bag: seq<Slot>, item: Item, quantity: int) returns (sales: seq<nat>, bag': seq<Slot>)
    requires BagValid(bag) && quantity <= QuantityOf(bag, item)
    ensures sales == SellPlan(Stacks(bag, item), quantity)
    ensures BagValid(bag')
    ensures Sum(sales) == (if quantity > 0 then quantity else 0)
    ensures forall k :: 0 <= k < |sales| ==> sales[k] > 0
    ensures QuantityOf(bag', item) == QuantityOf(bag, item) - Sum(sales)
    ensures forall other :: other != item ==> QuantityOf(bag', other) == QuantityOf(bag, other)
  {
    sales := [];
    bag' := bag;
    var alreadySold := 0;
    while alreadySold < quantity
      invariant BagValid(bag') && 0 <= alreadySold
      invariant alreadySold <= (if quantity > 0 then quantity else 0)
      invariant Sum(sales) == alreadySold
      invariant forall k :: 0 <= k < |sales| ==> sales[k] > 0
      invariant QuantityOf(bag', item) == QuantityOf(bag, item) - alreadySold
      invariant forall other :: other != item ==> QuantityOf(bag', other) == QuantityOf(bag, other)
      invariant SellPlan(Stacks(bag, item), quantity) == sales + SellPlan(Stacks(bag', item), quantity - alreadySold)
      decreases quantity - alreadySold
    {
      var stacksBefore := Stacks(bag', item);
      var toSell;
      toSell, bag' := SellRound(bag', item, quantity - alreadySold);
      SellPlanStep(stacksBefore, Stacks(bag', item), quantity - alreadySold, toSell, sales);
      SumAppend(sales, toSell);
      sales := sales + [toSell];
      alreadySold := alreadySold + toSell;
    }
    assert sales + [] == sales;
  }

  /**
   * One round of the stack-splitting loop: find the item's first stack,
   * sell the smaller of that stack and what is left to sell, and leave the
   * bag with that stack shrunk or gone.
   */
  method SellRound(bag: seq<Slot>, item: Item, remaining: int) returns (toSell: nat, bag': seq<Slot>)
    requires BagValid(bag) && 0 < remaining <= QuantityOf(bag, item)
    ensures Stacks(bag, item) != []
    ensures toSell == (if Stacks(bag, item)[0] > remaining then remaining else Stacks(bag, item)[0])
    ensures Stacks(bag', item) == (if toSell == Stacks(bag, item)[0] then [] else [Stacks(bag, item)[0] - toSell]) + Stacks(bag, item)[1..]
    ensures BagValid(bag') && 0 < toSell
    ensures QuantityOf(bag', item) == QuantityOf(bag, item) - toSell
    ensures forall other :: other != item ==> QuantityOf(bag', other) == QuantityOf(bag, other)
  {
    QuantityOfPositive(bag, item);
    var slot := FirstSlot(bag, item);
    var slotQuantity := bag[slot].quantity;
    toSell := if slotQuantity > remaining then remaining else slotQuantity;
    StacksOfTake(bag, item, toSell);
    TakeOnlyThatItem(bag, slot, toSell);
    bag' := Take(bag, slot, toSell);
  }

  /** One round of the plan: its sale comes first, then the plan for the stacks left. */
  lemma SellPlanStep(stacks: seq<nat>, left: seq<nat>, remaining: int, n: nat, sold: seq<nat>)
    requires stacks != [] && 0 < remaining && n == (if stacks[0] > remaining then remaining else stacks[0])
    requires left == (if n == stacks[0] then [] else [stacks[0] - n]) + stacks[1..]
    ensures sold + SellPlan(stacks, remaining) == (sold + [n]) + SellPlan(left, remaining - n)
  {
    if stacks[0] >= remaining {
      assert SellPlan(left, remaining - n) == [];
    } else {
      assert left == stacks[1..];
    }
  }

  function Sum(s: seq<nat>): nat {
    if s == [] then 0 else s[0] + Sum(s[1..])
  }

  lemma {:induction false} SumAppend(s: seq<nat>, x: nat)
    ensures Sum(s + [x]) == Sum(s) + x
  {
    if s != [] {
      assert (s + [x])[1..] == s[1..] + [x];
      SumAppend(s[1..], x);
    }
  }

  datatype SellError = SellMenuNotActive | NotEnoughOwned(item: Item, owned: nat) | IsKeyItem(item: Item) | IsHm(item: Item)

  /** The error for one entry, checked in order: stock, key item, HM. */
  function EntrySellError(bag: seq<Slot>, e: Entry): Option<SellError> {
    if QuantityOf(bag, e.item) < e.quantity then Some(NotEnoughOwned(e.item, QuantityOf(bag, e.item)))
    else if e.item.pocket == KeyItems then Some(IsKeyItem(e.item))
    else if e.item.pocket == TmsAndHms && "HM" <= e.item.name then Some(IsHm(e.item))
    else None
  }

  /** The validation pass of `sell_in_shop` as written: each entry against the unchanged bag. */
  function SellListError(bag: seq<Slot>, list: seq<Entry>): (r: Option<SellError>)
    ensures r.None? <==> forall k :: 0 <= k < |list| ==> EntrySellError(bag, list[k]).None?
  {
    if list == [] then None
    else if EntrySellError(bag, list[0]).Some? then EntrySellError(bag, list[0])
    else SellListError(bag, list[1..])
  }

  /** The validation loop of `sell_in_shop`: raises at the first entry that fails. */
  method ValidateSellList(shopMenuActive: bool, bag: seq<Slot>, list: seq<Entry>) returns (r: Option<SellError>)
    ensures r == if shopMenuActive then SellListError(bag, list) else Some(SellMenuNotActive)
  {
    if !shopMenuActive {
      return Some(SellMenuNotActive);
    }
    var i := 0;
    while i < |list|
      invariant 0 <= i <= |list|
      invariant SellListError(bag, list[i..]) == SellListError(bag, list)
    {
      var e := EntrySellError(bag, list[i]);
      if e.Some? {
        return e;
      }
      assert list[i..][1..] == list[i + 1..];
      i := i + 1;
    }
    return None;
  }

  /** Items requested so far in the list (negative requests sell nothing). */
  function Requested(list: seq<Entry>, item: Item): nat {
    if list == [] then 0
    else (if list[0].item == item && list[0].quantity > 0 then list[0].quantity else 0) + Requested(list[1..], item)
  }

  /**
   * Validation accepts a list that sells more of an item than the bag
   * holds, when that item is split over several entries: five Nuggets,
   * sold as three and three.
   */
  lemma DuplicateEntriesPassValidation(nugget: Item)
    requires nugget.pocket == Items
    ensures var bag := [Slot(nugget, 5)];
            var list := [Entry(nugget, 3), Entry(nugget, 3)];
            SellListError(bag, list).None? && Requested(list, nugget) > QuantityOf(bag, nugget)
  {
    var bag := [Slot(nugget, 5)];
    assert QuantityOf(bag[1..], nugget) == 0;
    var list := [Entry(nugget, 3), Entry(nugget, 3)];
    assert list[1..][1..] == [];
    assert EntrySellError(bag, list[0]).None?;
    assert SellListError(bag, list[1..]) == SellListError(bag, list[1..][1..]);
  }

  /**
   * The validation pass with stock counted across entries: an entry fails
   * when the items requested up to and including it exceed the bag.
   */
  function SellListErrorCumulative(bag: seq<Slot>, list: seq<Entry>, sold: seq<Entry>): Option<SellError>
    decreases |list|
  {
    if list == [] then None
    else
      var e := list[0];
      if QuantityOf(bag, e.item) < Requested(sold + [e], e.item) then Some(NotEnoughOwned(e.item, QuantityOf(bag, e.item)))
      else if EntrySellError(bag, e).Some? then EntrySellError(bag, e)
      else SellListErrorCumulative(bag, list[1..], sold + [e])
  }

  lemma {:induction false} RequestedAppend(x: seq<Entry>, y: seq<Entry>, item: Item)
    ensures Requested(x + y, item) == Requested(x, item) + Requested(y, item)
  {
    if x == [] {
      assert x + y == y;
    } else {
      assert (x + y)[1..] == x[1..] + y;
      RequestedAppend(x[1..], y, item);
    }
  }

  /** The corrected validation guarantees that, per item, the whole list asks for no more than the bag holds. */
  lemma {:induction false} CumulativeValidationCoversStock(bag: seq<Slot>, list: seq<Entry>, sold: seq<Entry>, item: Item)
    requires SellListErrorCumulative(bag, list, sold).None?
    requires Requested(sold, item) <= QuantityOf(bag, item)
    ensures Requested(sold + list, item) <= QuantityOf(bag, item)
    decreases |list|
  {
    if list != [] {
      var e := list[0];
      RequestedAppend(sold, [e], item);
      assert Requested([e], item) == (if e.item == item && e.quantity > 0 then e.quantity else 0);
      assert sold + list == (sold + [e]) + list[1..];
      CumulativeValidationCoversStock(bag, list[1..], sold + [e], item);
    } else {
      assert sold + list == sold;
    }
  }

  /** One entry of `SellAll`: the validation of the rest still holds, and the stock covers what is requested so far. */
  lemma SellAllStep(bag: seq<Slot>, list: seq<Entry>, i: nat)
    requires i < |list| && SellListErrorCumulative(bag, list[i..], list[..i]).None?
    requires forall item :: Requested(list[..i], item) <= QuantityOf(bag, item)
    ensures SellListErrorCumulative(bag, list[i + 1..], list[..i + 1]).None?
    ensures forall item :: Requested(list[..i + 1], item) <= QuantityOf(bag, item)
    ensures forall item :: Requested(list[..i + 1], item)
                           == Requested(list[..i], item) + (if list[i].item == item && list[i].quantity > 0 then list[i].quantity else 0)
  {
    var e := list[i];
    assert list[..i + 1] == list[..i] + [e];
    assert list[i..] == [e] + list[i + 1..];
    forall item
      ensures Requested(list[..i + 1], item) <= QuantityOf(bag, item)
    {
      CumulativeValidationCoversStock(bag, [e], list[..i], item);
      assert [e][1..] == [];
    }
    forall item
      ensures Requested(list[..i + 1], item) == Requested(list[..i], item) + (if e.item == item && e.quantity > 0 then e.quantity else 0)
    {
      RequestedAppend(list[..i], [e], item);
    }
  }

  /**
   * Selling every entry of a list that passed the corrected validation:
   * each entry's stack-splitting loop always finds enough stock, and the
   * bag loses exactly what was requested.
   */
  method SellAll(bag: seq<Slot>, list: seq<Entry>) returns (bag': seq<Slot>)
    requires BagValid(bag) && SellListErrorCumulative(bag, list, []).None?
    ensures BagValid(bag')
    ensures forall item :: QuantityOf(bag', item) == QuantityOf(bag, item) - Requested(list, item)
  {
    bag' := bag;
    var i := 0;
    while i < |list|
      invariant 0 <= i <= |list| && BagValid(bag')
      invariant forall item :: Requested(list[..i], item) <= QuantityOf(bag, item)
      invariant forall item :: QuantityOf(bag', item) == QuantityOf(bag, item) - Requested(list[..i], item)
      invariant SellListErrorCumulative(bag, list[i..], list[..i]).None?
    {
      var e := list[i];
      SellAllStep(bag, list, i);
      var sales;
      sales, bag' := SellStacks(bag', e.item, e.quantity);
      i := i + 1;
    }
    assert list[..i] == list;
  }
}
