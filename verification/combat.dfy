/** One battle round (player strike, victory check, knight strike, defeat check) and fleeing.
    Every random outcome is an argument: a hit is a boolean, a damage draw an integer in its range. */
module Combat {
  import opened Decimal
  import opened EventLog
  import opened World

  const PlayerBaseMin: int := 4
  const PlayerBaseMax: int := 7
  const VictoryGold: int := 20

  const PlayerMissLine: string := "You missed!"
  const KnightMissLine: string := "Knight missed!"
  const VictoryMessage: string := "You defeated the Knight!"
  const VictoryLine: string := "Victory! +20 gold."
  const DefeatMessage: string := "You were defeated..."
  const DefeatLine: string := "You fall. Game over (reload to try again)."
  const FledMessage: string := "You fled from the battle."
  const RetreatLine: string := "You retreat to safety."

  /** The log line of a landed player blow: the damage dealt, written out in decimal. */
  function PlayerHitLine(dmg: int): (r: string)
    ensures |r| > 13 && r[..12] == "You hit for " && r[|r| - 1] == '!'
    ensures dmg >= 0 ==> Numeral(r[12..|r| - 1], dmg)
  {
    var line := "You hit for " + IntToString(dmg) + "!";
    assert line[12..|line| - 1] == IntToString(dmg);
    line
  }

  /** The log line of a landed knight blow: the damage taken, written out in decimal. */
  function KnightHitLine(dmg: int): (r: string)
    ensures |r| > 21 && r[..20] == "Knight hits you for " && r[|r| - 1] == '!'
    ensures dmg >= 0 ==> Numeral(r[20..|r| - 1], dmg)
  {
    var line := "Knight hits you for " + IntToString(dmg) + "!";
    assert line[20..|line| - 1] == IntToString(dmg);
    line
  }

  function Max(a: int, b: int): int {
    if a >= b then a else b
  }

  /** The player strikes: damage is the base draw plus the attack bonus, applied only on a hit. */
  function PlayerAttack(s: State, draw: int, hit: bool): (r: State)
    requires PlayerBaseMin <= draw <= PlayerBaseMax
    ensures r == s.(knight := s.knight.(hp := r.knight.hp), log := r.log)
    ensures hit ==> r.knight.hp >= 0
    ensures !hit ==> r.knight.hp == s.knight.hp && r.log == AddLog(s.log, PlayerMissLine)
    ensures hit ==> r.log == AddLog(s.log, PlayerHitLine(draw + s.player.attackBonus))
    // on a hit the knight loses between 4+bonus and 7+bonus, or drops to 0 if it had less left
    ensures hit && s.knight.hp >= 0 && s.player.attackBonus >= 0 ==>
      && s.knight.hp - r.knight.hp <= PlayerBaseMax + s.player.attackBonus
      && (r.knight.hp == 0 || s.knight.hp - r.knight.hp >= PlayerBaseMin + s.player.attackBonus)
    // the knight loses exactly the damage the log line reports, unless that would take it below 0
    ensures hit ==> (r.knight.hp == 0 <==> s.knight.hp <= draw + s.player.attackBonus)
    ensures hit && s.knight.hp > draw + s.player.attackBonus ==>
      r.knight.hp == s.knight.hp - (draw + s.player.attackBonus)
  {
    var dmg := draw + s.player.attackBonus;
    if hit then
      s.(knight := s.knight.(hp := Max(0, s.knight.hp - dmg)), log := AddLog(s.log, PlayerHitLine(dmg)))
    else
      s.(log := AddLog(s.log, PlayerMissLine))
  }

  /** The knight strikes back, unless it has already fallen. */
  function KnightAttack(s: State, hit: bool, draw: int): (r: State)
    requires FairKnightStats(s.knight.minDmg, s.knight.maxDmg)
    requires s.knight.minDmg <= draw <= s.knight.maxDmg
    ensures r == s.(player := s.player.(hp := r.player.hp), log := r.log)
    ensures s.knight.hp <= 0 ==> r == s
    ensures !hit ==> r.player.hp == s.player.hp
    ensures s.knight.hp > 0 && !hit ==> r.log == AddLog(s.log, KnightMissLine)
    ensures s.knight.hp > 0 && hit ==> r.log == AddLog(s.log, KnightHitLine(draw))
    ensures s.knight.hp > 0 && hit ==> r.player.hp >= 0
    // a landed blow costs between min_dmg and max_dmg, or whatever health was left
    ensures s.knight.hp > 0 && hit && s.player.hp >= 0 ==>
      && s.player.hp - r.player.hp <= s.knight.maxDmg
      && (r.player.hp == 0 || s.player.hp - r.player.hp >= s.knight.minDmg)
    // the player loses exactly the drawn damage, unless that would take them below 0
    ensures s.knight.hp > 0 && hit ==> (r.player.hp == 0 <==> s.player.hp <= draw)
    ensures s.knight.hp > 0 && hit && s.player.hp > draw ==> r.player.hp == s.player.hp - draw
  {
    if s.knight.hp <= 0 then s
    else if hit then
      s.(player := s.player.(hp := Max(0, s.player.hp - draw)), log := AddLog(s.log, KnightHitLine(draw)))
    else
      s.(log := AddLog(s.log, KnightMissLine))
  }

  /** One full round after the player chooses to attack. */
  function BattleTurn(s: State, playerDraw: int, playerHit: bool, knightHit: bool, knightDraw: int): (r: State)
    requires PlayerBaseMin <= playerDraw <= PlayerBaseMax
    requires FairKnightStats(s.knight.minDmg, s.knight.maxDmg)
    requires s.knight.minDmg <= knightDraw <= s.knight.maxDmg
    ensures r.sword == s.sword
    ensures r.knight == s.knight.(hp := r.knight.hp)
    ensures r.player == s.player.(hp := r.player.hp, gold := r.player.gold)
    // health stays in range and never grows
    ensures 0 <= s.knight.hp && 0 <= s.player.attackBonus ==> 0 <= r.knight.hp <= s.knight.hp
    ensures 0 <= s.player.hp ==> 0 <= r.player.hp <= s.player.hp
    ensures !playerHit ==> r.knight.hp == s.knight.hp
    // victory: the knight gets no counter-attack, the player gains exactly 20 gold
    ensures r.knight.hp <= 0 ==>
      && r.player == s.player.(gold := s.player.gold + VictoryGold)
      && r.mode == Explore && r.message == VictoryMessage
    // no victory: no gold; the battle ends exactly when the player has fallen
    ensures r.knight.hp > 0 ==> r.player.gold == s.player.gold
    ensures r.knight.hp > 0 && r.player.hp <= 0 ==> r.mode == Explore && r.message == DefeatMessage
    ensures r.knight.hp > 0 && r.player.hp > 0 ==> r.mode == s.mode && r.message == s.message
    ensures r.knight.hp > 0 && !knightHit ==> r.player.hp == s.player.hp
    ensures r.knight.hp > 0 && knightHit && 0 <= s.player.hp ==>
      r.player.hp == 0 || s.knight.minDmg <= s.player.hp - r.player.hp <= s.knight.maxDmg
    // the player's blow: the knight falls exactly when it was down already or the landed damage
    // covers what it had left; a blow it survives costs it exactly the damage dealt
    ensures 0 <= s.player.attackBonus ==>
      (r.knight.hp <= 0 <==> s.knight.hp <= 0 || (playerHit && s.knight.hp <= playerDraw + s.player.attackBonus))
    ensures r.knight.hp > 0 && playerHit ==> r.knight.hp == s.knight.hp - (playerDraw + s.player.attackBonus)
    // the knight's blow, struck only when it survived: the player falls exactly when the drawn
    // damage covers what they had left, and otherwise loses exactly that damage
    ensures r.knight.hp > 0 && knightHit ==> (r.player.hp == 0 <==> s.player.hp <= knightDraw)
    ensures r.knight.hp > 0 && knightHit && s.player.hp > knightDraw ==>
      r.player.hp == s.player.hp - knightDraw
    // the log: the strike line, then the victory line, or the counter-attack line and, on a
    // defeat, the defeat line
    ensures r.knight.hp <= 0 ==>
      r.log == AddLog(PlayerAttack(s, playerDraw, playerHit).log, VictoryLine)
    ensures r.knight.hp > 0 && r.player.hp <= 0 ==>
      r.log == AddLog(KnightAttack(PlayerAttack(s, playerDraw, playerHit), knightHit, knightDraw).log, DefeatLine)
    ensures r.knight.hp > 0 && r.player.hp > 0 ==>
      r.log == KnightAttack(PlayerAttack(s, playerDraw, playerHit), knightHit, knightDraw).log
  {
    var afterStrike := PlayerAttack(s, playerDraw, playerHit);
    if afterStrike.knight.hp <= 0 then
      afterStrike.(
        message := VictoryMessage,
        log := AddLog(afterStrike.log, VictoryLine),
        player := afterStrike.player.(gold := afterStrike.player.gold + VictoryGold),
        mode := Explore)
    else
      var afterCounter := KnightAttack(afterStrike, knightHit, knightDraw);
      if afterCounter.player.hp <= 0 then
        afterCounter.(
          message := DefeatMessage,
          log := AddLog(afterCounter.log, DefeatLine),
          mode := Explore)
      else afterCounter
  }

  /** Fleeing always succeeds and costs nothing. */
  function RunFromBattle(s: State): (r: State)
    ensures r.mode == Explore
    ensures r.player == s.player && r.knight == s.knight && r.sword == s.sword
    ensures r.message == FledMessage && r.log == AddLog(s.log, RetreatLine)
  {
    s.(message := FledMessage, log := AddLog(s.log, RetreatLine), mode := Explore)
  }

  /** A round keeps every state invariant. */
  lemma BattleTurnPreservesValid(s: State, playerDraw: int, playerHit: bool, knightHit: bool, knightDraw: int)
    requires Valid(s)
    requires PlayerBaseMin <= playerDraw <= PlayerBaseMax
    requires s.knight.minDmg <= knightDraw <= s.knight.maxDmg
    ensures Valid(BattleTurn(s, playerDraw, playerHit, knightHit, knightDraw))
  {
  }

  /** A knight already at 0 health loses again, hit or miss: each further round pays 20 gold. */
  lemma FallenKnightPaysAgain(s: State, playerDraw: int, playerHit: bool, knightHit: bool, knightDraw: int)
    requires Valid(s) && s.knight.hp == 0
    requires PlayerBaseMin <= playerDraw <= PlayerBaseMax
    requires s.knight.minDmg <= knightDraw <= s.knight.maxDmg
    ensures var r := BattleTurn(s, playerDraw, playerHit, knightHit, knightDraw);
      r.player.gold == s.player.gold + VictoryGold && r.player.hp == s.player.hp && r.mode == Explore
  {
  }
}
