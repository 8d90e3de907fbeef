/** The interact key: picking up the sword, or starting a battle next to the knight. */
module Interaction {
  import opened Wrappers
  import opened Grid
  import opened EventLog
  import opened World

  const PickupLine: string := "You picked up the Sword of Dawn (+6 dmg)!"
  const PickupMessage: string := "You feel power surging through the blade."
  const NothingHere: string := "Nothing to interact with here."
  const BattleStartMessage: string := "Battle started! Attack or Run."
  const FaceKnightLine: string := "You face the Knight!"

  /** The sword is still in the world and the player stands on it. */
  predicate OnSword(s: State) {
    s.sword.Some? && s.player.pos == s.sword.value.pos
  }

  /** Enters battle mode and narrates the encounter; nothing else changes. */
  function StartBattle(s: State): (r: State)
    ensures r.mode == Battle
    ensures r.player == s.player && r.knight == s.knight && r.sword == s.sword
    ensures r.message == BattleStartMessage
    ensures r.log == AddLog(s.log, FaceKnightLine)
  {
    s.(mode := Battle, message := BattleStartMessage, log := AddLog(s.log, FaceKnightLine))
  }

  function Interact(s: State): (r: State)
    // pickup: the name goes into the bag, the bonus is set (not added), the sword leaves the world
    ensures OnSword(s) ==>
      && r.player == s.player.(bag := s.player.bag + [s.sword.value.name], attackBonus := SwordBonus)
      && r.sword == None && r.knight == s.knight && r.mode == s.mode
      && r.message == PickupMessage && r.log == AddLog(s.log, PickupLine)
    // otherwise bag, bonus and sword are untouched
    ensures !OnSword(s) ==> r.player == s.player && r.sword == s.sword && r.knight == s.knight
    // battle starts exactly when the player is off the sword and next to the knight
    ensures !OnSword(s) && Adjacent(s.player.pos, s.knight.pos) ==> r.mode == Battle
    ensures !OnSword(s) && Adjacent(s.player.pos, s.knight.pos) ==>
      r.message == BattleStartMessage && r.log == AddLog(s.log, FaceKnightLine)
    ensures OnSword(s) || !Adjacent(s.player.pos, s.knight.pos) ==> r.mode == s.mode
    ensures !OnSword(s) && !Adjacent(s.player.pos, s.knight.pos) ==> r == s.(message := NothingHere)
  {
    if OnSword(s) then
      s.(player := s.player.(bag := s.player.bag + [s.sword.value.name], attackBonus := SwordBonus),
         log := AddLog(s.log, PickupLine),
         message := PickupMessage,
         sword := None)
    else if Adjacent(s.player.pos, s.knight.pos) then StartBattle(s)
    else s.(message := NothingHere)
  }

  /** Interact preserves the state invariant. */
  lemma InteractPreservesValid(s: State)
    requires Valid(s)
    ensures Valid(Interact(s))
  {
  }

  /** Once the sword is gone, interacting never adds to the bag nor touches the bonus. */
  lemma PickupAtMostOnce(s: State)
    requires s.sword.None?
    ensures Interact(s).player.bag == s.player.bag
    ensures Interact(s).player.attackBonus == s.player.attackBonus
    ensures Interact(s).sword.None?
  {
  }

  /** The items joined with ", ", as Python's str.join does. */
  function Join(items: seq<string>): (r: string)
    ensures |items| == 1 ==> r == items[0]
    ensures |items| == 0 ==> r == ""
  {
    if |items| == 0 then ""
    else if |items| == 1 then items[0]
    else items[0] + ", " + Join(items[1..])
  }

  /** Joining one more item appends a separator and that item. */
  lemma {:induction false} JoinSnoc(items: seq<string>, x: string)
    requires |items| > 0
    ensures Join(items + [x]) == Join(items) + ", " + x
    decreases |items|
  {
    if |items| == 1 {
      assert items + [x] == [items[0], x];
      assert [items[0], x][1..] == [x];
    } else {
      JoinSnoc(items[1..], x);
      assert (items + [x])[1..] == items[1..] + [x];
    }
  }

  /** Joined length: every item plus two characters per separator. */
  function SumLengths(items: seq<string>): nat {
    if |items| == 0 then 0 else |items[0]| + SumLengths(items[1..])
  }

  lemma {:induction false} JoinLength(items: seq<string>)
    requires |items| > 0
    ensures |Join(items)| == SumLengths(items) + 2 * (|items| - 1)
    decreases |items|
  {
    if |items| > 1 {
      JoinLength(items[1..]);
    }
  }

  function InventoryText(bag: seq<string>): (r: string)
    ensures |r| >= 5 && r[..5] == "Inv: "
    ensures bag == [] ==> r == "Inv: (empty)"
    ensures bag != [] ==> r[5..] == Join(bag)
  {
    "Inv: " + (if bag != [] then Join(bag) else "(empty)")
  }
}
