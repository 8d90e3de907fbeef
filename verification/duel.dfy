/** How long a duel lasts: with the sword, every landed blow costs the knight at least 10 health,
    so a run of hits ends the battle within a bounded number of rounds, in victory or in defeat. */
module Duel {
  import opened World
  import opened Combat
  import opened Session

  /** The least damage a landed blow does once the sword's bonus is applied. */
  const ArmedMinDamage: int := PlayerBaseMin + SwordBonus

  /** n presses of the attack button. */
  function Attacks(n: nat): (r: seq<Action>)
    ensures |r| == n
    ensures forall i :: 0 <= i < n ==> r[i] == Atk
  {
    if n == 0 then [] else [Atk] + Attacks(n - 1)
  }

  /** Every player strike in the series lands. */
  predicate AllHit(dice: seq<Dice>) {
    forall i :: 0 <= i < |dice| ==> dice[i].playerHit
  }

  /** The battle is over: either the knight fell and paid 20 gold, or the player fell and gained nothing. */
  predicate Ended(s: State, t: State) {
    && t.mode == Explore
    && t.player.bag == s.player.bag && t.player.attackBonus == s.player.attackBonus
    && ((t.knight.hp == 0 && t.player.gold == s.player.gold + VictoryGold)
        || (t.player.hp == 0 && 0 < t.knight.hp && t.player.gold == s.player.gold))
  }

  /** Outside a battle the attack button does nothing, however often it is pressed. */
  lemma {:induction false} AttacksIdleWhileExploring(s: State, dice: seq<Dice>)
    requires FairKnightStats(s.knight.minDmg, s.knight.maxDmg) && s.mode == Explore
    requires forall i :: 0 <= i < |dice| ==> DiceFit(s.knight.minDmg, s.knight.maxDmg, dice[i])
    ensures Play(s, Attacks(|dice|), dice) == Continue(s)
    decreases |dice|
  {
    if |dice| > 0 {
      assert Attacks(|dice|)[1..] == Attacks(|dice| - 1);
      AttacksIdleWhileExploring(s, dice[1..]);
    }
  }

  /** A run of attack rounds, one per dice roll, until the battle is over. */
  function Fight(s: State, dice: seq<Dice>): (r: State)
    requires FairKnightStats(s.knight.minDmg, s.knight.maxDmg)
    requires forall i :: 0 <= i < |dice| ==> DiceFit(s.knight.minDmg, s.knight.maxDmg, dice[i])
    ensures r.knight.minDmg == s.knight.minDmg && r.knight.maxDmg == s.knight.maxDmg
    decreases |dice|
  {
    if |dice| == 0 || s.mode == Explore then s
    else
      var d := dice[0];
      assert DiceFit(s.knight.minDmg, s.knight.maxDmg, d);
      Fight(BattleTurn(s, d.playerDraw, d.playerHit, d.knightHit, d.knightDraw), dice[1..])
  }

  /** Pressing the attack button once per roll, through the dispatcher, is exactly a fight. */
  lemma {:induction false} AttacksAreFight(s: State, dice: seq<Dice>)
    requires FairKnightStats(s.knight.minDmg, s.knight.maxDmg)
    requires forall i :: 0 <= i < |dice| ==> DiceFit(s.knight.minDmg, s.knight.maxDmg, dice[i])
    ensures Play(s, Attacks(|dice|), dice) == Continue(Fight(s, dice))
    decreases |dice|
  {
    if |dice| > 0 {
      if s.mode == Explore {
        AttacksIdleWhileExploring(s, dice);
      } else {
        var d := dice[0];
        var t := BattleTurn(s, d.playerDraw, d.playerHit, d.knightHit, d.knightDraw);
        assert Dispatch(s, Atk, d) == Continue(t);
        assert Attacks(|dice|)[1..] == Attacks(|dice| - 1);
        AttacksAreFight(t, dice[1..]);
      }
    }
  }

  /** One armed round with a landed blow either ends the battle or leaves the knight standing,
      battered by at least 10, with the player's gold, bag and bonus as they were. */
  lemma ArmedRound(s: State, d: Dice) returns (t: State)
    requires Valid(s) && s.mode == Battle && s.player.attackBonus == SwordBonus
    requires DiceFit(s.knight.minDmg, s.knight.maxDmg, d) && d.playerHit
    ensures t == BattleTurn(s, d.playerDraw, d.playerHit, d.knightHit, d.knightDraw)
    ensures Valid(t) && t.knight.minDmg == s.knight.minDmg && t.knight.maxDmg == s.knight.maxDmg
    ensures t.mode == Explore ==> Ended(s, t)
    ensures t.mode == Battle ==>
      && 0 < t.knight.hp <= s.knight.hp - ArmedMinDamage
      && t.player.gold == s.player.gold && t.player.bag == s.player.bag
      && t.player.attackBonus == s.player.attackBonus
  {
    t := BattleTurn(s, d.playerDraw, d.playerHit, d.knightHit, d.knightDraw);
    BattleTurnPreservesValid(s, d.playerDraw, d.playerHit, d.knightHit, d.knightDraw);
    var a := PlayerAttack(s, d.playerDraw, d.playerHit);
    assert a.knight.hp == 0 || s.knight.hp - a.knight.hp >= ArmedMinDamage;
  }

  /** A fight of n landed armed blows against a knight with at most 10 * n health is over at the
      end, whatever the knight rolls. */
  lemma {:induction false} ArmedFightEnds(s: State, dice: seq<Dice>)
    requires Valid(s) && s.mode == Battle && s.player.attackBonus == SwordBonus
    requires 0 < |dice| && s.knight.hp <= ArmedMinDamage * |dice|
    requires forall i :: 0 <= i < |dice| ==> DiceFit(s.knight.minDmg, s.knight.maxDmg, dice[i])
    requires AllHit(dice)
    ensures Ended(s, Fight(s, dice))
    decreases |dice|
  {
    assert DiceFit(s.knight.minDmg, s.knight.maxDmg, dice[0]) && dice[0].playerHit;
    var t := ArmedRound(s, dice[0]);
    var rest := dice[1..];
    assert forall i :: 0 <= i < |rest| ==> rest[i] == dice[i + 1];
    assert Fight(s, dice) == Fight(t, rest);
    if t.mode == Explore {
      assert Fight(t, rest) == t;
    } else {
      assert ArmedMinDamage * |rest| == 10 * |dice| - 10;
      assert 0 < |rest| && t.knight.hp <= ArmedMinDamage * |rest|;
      ArmedFightEnds(t, rest);
      EndedFromEarlier(s, t, Fight(t, rest));
    }
  }

  /** From a battle against a knight with at most 10 * n health, n rounds in which the armed
      player always hits end the battle, whatever the knight rolls. */
  lemma ArmedDuelEnds(s: State, dice: seq<Dice>)
    requires Valid(s) && s.mode == Battle && s.player.attackBonus == SwordBonus
    requires 0 < |dice| && s.knight.hp <= ArmedMinDamage * |dice|
    requires forall i :: 0 <= i < |dice| ==> DiceFit(s.knight.minDmg, s.knight.maxDmg, dice[i])
    requires AllHit(dice)
    ensures Play(s, Attacks(|dice|), dice).Continue?
    ensures Ended(s, Play(s, Attacks(|dice|), dice).state)
  {
    AttacksAreFight(s, dice);
    ArmedFightEnds(s, dice);
  }

  /** A battle that ended from a later state, reached without gold, bag or bonus changing, ended
      from the earlier state too. */
  lemma EndedFromEarlier(s: State, t: State, u: State)
    requires Ended(t, u)
    requires t.player.gold == s.player.gold && t.player.bag == s.player.bag
    requires t.player.attackBonus == s.player.attackBonus
    ensures Ended(s, u)
  {
  }

  /** A knight at full health (60) falls or fells the armed player within six rounds of hits:
      60 / (4 + 6) rounded up. */
  lemma ArmedDuelEndsWithinSix(s: State, dice: seq<Dice>)
    requires Valid(s) && s.mode == Battle && s.player.attackBonus == SwordBonus && s.knight.hp <= 60
    requires |dice| == 6
    requires forall i :: 0 <= i < |dice| ==> DiceFit(s.knight.minDmg, s.knight.maxDmg, dice[i])
    requires AllHit(dice)
    ensures Play(s, Attacks(6), dice).Continue?
    ensures Ended(s, Play(s, Attacks(6), dice).state)
  {
    ArmedDuelEnds(s, dice);
  }
}
