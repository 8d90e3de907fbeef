/** The entities of the duel and the whole game state. */
module World {
  import opened Wrappers
  import opened Grid
  import opened EventLog

  datatype Mode = Explore | Battle

  datatype Player = Player(pos: Pos, hp: int, hpMax: int, bag: seq<string>, gold: int, attackBonus: int)

  /** The knight's hit chance (0.80) is not a field: hits arrive as explicit outcomes. */
  datatype Knight = Knight(pos: Pos, hp: int, hpMax: int, minDmg: int, maxDmg: int)

  datatype Sword = Sword(pos: Pos, name: string)

  datatype State = State(
    player: Player,
    knight: Knight,
    sword: Option<Sword>,
    mode: Mode,
    message: string,
    log: seq<string>)

  const SwordName: string := "Sword of Dawn"
  const SwordBonus: int := 6
  const StartMessage: string := "Find the sword (*) and press E near the Knight (K) to battle."

  /** The knight's damage range is drawn once at start-up: min from 6..7, max from 8..9. */
  predicate FairKnightStats(minDmg: int, maxDmg: int) {
    6 <= minDmg <= 7 && 8 <= maxDmg <= 9
  }

  /** The sword lies in the world with nothing in the bag, or it is the bag's only item and
      its bonus is applied: never both, never neither. */
  predicate SwordXor(s: State) {
    || (s.sword.Some? && s.sword.value.name == SwordName && s.player.bag == [] && s.player.attackBonus == 0)
    || (s.sword.None? && s.player.bag == [SwordName] && s.player.attackBonus == SwordBonus)
  }

  /** What every state reached from the start satisfies. */
  predicate Valid(s: State) {
    && 0 <= s.player.hp <= s.player.hpMax
    && 0 <= s.knight.hp <= s.knight.hpMax
    && FairKnightStats(s.knight.minDmg, s.knight.maxDmg)
    && 0 <= s.player.gold
    && |s.log| <= Capacity
    && SwordXor(s)
  }

  /** The start of a session, with the sword at the given tile. */
  function StartWithSwordAt(swordPos: Pos, minDmg: int, maxDmg: int): (s: State)
    requires FairKnightStats(minDmg, maxDmg)
    ensures Valid(s) && s.mode == Explore && s.log == []
    ensures s.player.pos == Pos(2, 2) && s.knight.pos == Pos(7, 3)
    ensures s.sword == Some(Sword(swordPos, SwordName))
  {
    State(
      Player(Pos(2, 2), 40, 40, [], 0, 0),
      Knight(Pos(7, 3), 60, 60, minDmg, maxDmg),
      Some(Sword(swordPos, SwordName)),
      Explore,
      StartMessage,
      [])
  }

  /** The sword position as written in the source; that tile is water. */
  const AsWrittenSwordPos: Pos := Pos(4, 1)

  /** The sword position this model uses: the nearest grass tile in the same row. */
  const SwordPos: Pos := Pos(5, 1)

  function InitialState(minDmg: int, maxDmg: int): (s: State)
    requires FairKnightStats(minDmg, maxDmg)
    ensures Valid(s) && s.mode == Explore
    ensures s.sword.Some? && Passable(s.sword.value.pos.x, s.sword.value.pos.y)
  {
    StartWithSwordAt(SwordPos, minDmg, maxDmg)
  }

  function InitialStateAsWritten(minDmg: int, maxDmg: int): (s: State)
    requires FairKnightStats(minDmg, maxDmg)
    ensures Valid(s) && s.mode == Explore
    ensures s.sword.Some? && !Passable(s.sword.value.pos.x, s.sword.value.pos.y)
  {
    StartWithSwordAt(AsWrittenSwordPos, minDmg, maxDmg)
  }

  /** None of the three start tiles of the source layout is grass. */
  lemma StartTilesAsWritten(minDmg: int, maxDmg: int)
    requires FairKnightStats(minDmg, maxDmg)
    ensures var s := InitialStateAsWritten(minDmg, maxDmg);
      && Terrain(s.player.pos.x, s.player.pos.y) == '~'
      && Terrain(s.knight.pos.x, s.knight.pos.y) == '#'
      && Terrain(s.sword.value.pos.x, s.sword.value.pos.y) == '~'
  {
  }
}
