/** Consequences of where the session starts: with the source's sword tile the sword can never be
    taken; with the sword on grass a short walk picks it up. */
module Layout {
  import opened Wrappers
  import opened Grid
  import opened World
  import opened Movement
  import opened Interaction
  import opened Session

  /** The source's sword still lies on its water tile, untaken, and the player stands on grass
      or on the start tile. */
  predicate SwordStuck(s: State) {
    && s.sword == Some(Sword(AsWrittenSwordPos, SwordName))
    && s.player.bag == [] && s.player.attackBonus == 0
    && (Passable(s.player.pos.x, s.player.pos.y) || s.player.pos == Pos(2, 2))
  }

  lemma DispatchKeepsSwordStuck(s: State, a: Action, d: Dice)
    requires SwordStuck(s)
    requires FairKnightStats(s.knight.minDmg, s.knight.maxDmg)
    requires DiceFit(s.knight.minDmg, s.knight.maxDmg, d)
    ensures Dispatch(s, a, d).Continue? ==> SwordStuck(Dispatch(s, a, d).state)
  {
    assert !Passable(AsWrittenSwordPos.x, AsWrittenSwordPos.y);
    assert !OnSword(s);
  }

  /** Whatever the player does and however the dice fall, the source's sword is never picked up. */
  lemma {:induction false} SwordNeverTaken(s: State, acts: seq<Action>, dice: seq<Dice>)
    requires SwordStuck(s)
    requires FairKnightStats(s.knight.minDmg, s.knight.maxDmg)
    requires |dice| == |acts|
    requires forall i :: 0 <= i < |dice| ==> DiceFit(s.knight.minDmg, s.knight.maxDmg, dice[i])
    ensures Play(s, acts, dice).Continue? ==>
      var t := Play(s, acts, dice).state;
      t.sword.Some? && t.player.bag == [] && t.player.attackBonus == 0
    decreases |acts|
  {
    if |acts| > 0 {
      DispatchKeepsSwordStuck(s, acts[0], dice[0]);
      match Dispatch(s, acts[0], dice[0])
      case Exit =>
      case Continue(t) =>
        SwordNeverTaken(t, acts[1..], dice[1..]);
    }
  }

  /** From the source's start the sword stays out of reach for every play. */
  lemma SwordUnobtainableAsWritten(minDmg: int, maxDmg: int, acts: seq<Action>, dice: seq<Dice>)
    requires FairKnightStats(minDmg, maxDmg)
    requires |dice| == |acts|
    requires forall i :: 0 <= i < |dice| ==> DiceFit(minDmg, maxDmg, dice[i])
    ensures Play(InitialStateAsWritten(minDmg, maxDmg), acts, dice).Continue? ==>
      Play(InitialStateAsWritten(minDmg, maxDmg), acts, dice).state.player.attackBonus == 0
  {
    SwordNeverTaken(InitialStateAsWritten(minDmg, maxDmg), acts, dice);
  }

  /** From the source's start the sword stays out of reach whatever keys are pressed. */
  lemma SwordUnobtainableByKeys(minDmg: int, maxDmg: int, evs: seq<Event>, dice: seq<Dice>)
    requires FairKnightStats(minDmg, maxDmg)
    requires |dice| == |evs|
    requires forall i :: 0 <= i < |dice| ==> DiceFit(minDmg, maxDmg, dice[i])
    ensures Loop(InitialStateAsWritten(minDmg, maxDmg), evs, dice).Continue? ==>
      Loop(InitialStateAsWritten(minDmg, maxDmg), evs, dice).state.player.attackBonus == 0
  {
    var acts := LoopIsPlay(InitialStateAsWritten(minDmg, maxDmg), evs, dice);
    SwordUnobtainableAsWritten(minDmg, maxDmg, acts, dice);
  }

  /** Playing a series whose first action continues is playing the rest from the next state. */
  lemma PlayHead(s: State, acts: seq<Action>, dice: seq<Dice>, t: State)
    requires FairKnightStats(s.knight.minDmg, s.knight.maxDmg)
    requires |dice| == |acts| > 0
    requires forall i :: 0 <= i < |dice| ==> DiceFit(s.knight.minDmg, s.knight.maxDmg, dice[i])
    requires Dispatch(s, acts[0], dice[0]) == Continue(t)
    ensures t.knight.minDmg == s.knight.minDmg && t.knight.maxDmg == s.knight.maxDmg
    ensures Play(s, acts, dice) == Play(t, acts[1..], dice[1..])
  {
  }

  /** One action's dice: a fixed wander order; the combat draws never matter outside battle. */
  function Roll(): Dice {
    Dice([East, South, West, North], 4, true, true, 8)
  }

  /** n copies of Roll. */
  function Rolls(n: nat): (r: seq<Dice>)
    ensures |r| == n
  {
    if n == 0 then [] else [Roll()] + Rolls(n - 1)
  }

  lemma RollFits(minDmg: int, maxDmg: int)
    requires FairKnightStats(minDmg, maxDmg)
    ensures DiceFit(minDmg, maxDmg, Roll())
  {
    assert North == Roll().order[3];
    assert South == Roll().order[1];
  }

  lemma {:induction false} RollsFit(minDmg: int, maxDmg: int, n: nat)
    requires FairKnightStats(minDmg, maxDmg)
    ensures forall i :: 0 <= i < n ==> DiceFit(minDmg, maxDmg, Rolls(n)[i])
  {
    RollFits(minDmg, maxDmg);
    if n > 0 {
      RollsFit(minDmg, maxDmg, n - 1);
      forall i | 0 <= i < n
        ensures DiceFit(minDmg, maxDmg, Rolls(n)[i])
      {
        if i > 0 {
          assert Rolls(n)[i] == Rolls(n - 1)[i - 1];
        }
      }
    }
  }

  /** Where the knight ends up when it wanders in Roll's order: the first of east, south, west
      and north it may step to, or where it is. */
  function WanderTarget(knight: Pos, player: Pos): Pos {
    if Admissible(knight, player, East) then Step(knight, East)
    else if Admissible(knight, player, South) then Step(knight, South)
    else if Admissible(knight, player, West) then Step(knight, West)
    else if Admissible(knight, player, North) then Step(knight, North)
    else knight
  }

  /** The search for the first admissible direction of Roll's order lands on WanderTarget. */
  lemma WanderTargetIsFirstAdmissible(knight: Pos, player: Pos)
    ensures match FirstAdmissible(knight, player, Roll().order)
      case None => WanderTarget(knight, player) == knight
      case Some(i) => i < 4 && WanderTarget(knight, player) == Step(knight, Roll().order[i])
  {
    var o := Roll().order;
    var o1, o2, o3 := o[1..], o[1..][1..], o[1..][1..][1..];
    assert o1 == [South, West, North] && o2 == [West, North] && o3 == [North] && o3[1..] == [];
    if Admissible(knight, player, East) {
    } else if Admissible(knight, player, South) {
      assert FirstAdmissible(knight, player, o1) == Some(0);
    } else if Admissible(knight, player, West) {
      assert FirstAdmissible(knight, player, o2) == Some(0);
      assert FirstAdmissible(knight, player, o1) == Some(1);
    } else if Admissible(knight, player, North) {
      assert FirstAdmissible(knight, player, o3) == Some(0);
      assert FirstAdmissible(knight, player, o2) == Some(1);
      assert FirstAdmissible(knight, player, o1) == Some(2);
    } else {
      assert FirstAdmissible(knight, player, o3[1..]) == None;
      assert FirstAdmissible(knight, player, o3) == None;
      assert FirstAdmissible(knight, player, o2) == None;
      assert FirstAdmissible(knight, player, o1) == None;
    }
  }

  /** One successful step of the player while exploring, with the knight's wander resolved. */
  lemma Walk(s: State, a: Action, p: Pos, k: Pos) returns (t: State)
    requires FairKnightStats(s.knight.minDmg, s.knight.maxDmg)
    requires s.mode == Explore && IsMove(a)
    requires p == Step(s.player.pos, DirOf(a)) && Passable(p.x, p.y) && p != s.knight.pos
    requires k == WanderTarget(s.knight.pos, p)
    ensures DiceFit(s.knight.minDmg, s.knight.maxDmg, Roll())
    ensures Dispatch(s, a, Roll()) == Continue(t)
    ensures t.player == s.player.(pos := p) && t.knight == s.knight.(pos := k)
    ensures t.sword == s.sword && t.mode == Explore
  {
    RollFits(s.knight.minDmg, s.knight.maxDmg);
    WanderTargetIsFirstAdmissible(s.knight.pos, p);
    t := Dispatch(s, a, Roll()).state;
  }

  /** The walk: left, up twice, right four times, down, then E. */
  const WalkToSword: seq<Action> := [Left, Up, Up, Right, Right, Right, Right, Down, E]

  /** Pressing E on the sword while exploring takes it, whatever the wander order. */
  lemma PickUp(s: State, d: Dice) returns (t: State)
    requires FairKnightStats(s.knight.minDmg, s.knight.maxDmg) && DiceFit(s.knight.minDmg, s.knight.maxDmg, d)
    requires s.mode == Explore && OnSword(s)
    ensures Dispatch(s, E, d) == Continue(t)
    ensures t.player.bag == s.player.bag + [s.sword.value.name] && t.player.attackBonus == SwordBonus
    ensures t.sword == None && t.mode == Explore
  {
    t := Dispatch(s, E, d).state;
  }

  /** Step i of a walk: the player moves from tiles[i] onto the free grass tile tiles[i + 1], after
      which the knight, wandering in Roll's order, goes from knights[i] to knights[i + 1]. */
  predicate StepOK(tiles: seq<Pos>, knights: seq<Pos>, acts: seq<Action>, i: nat)
    requires i + 1 < |tiles| && i + 1 < |knights| && i < |acts|
  {
    && IsMove(acts[i])
    && tiles[i + 1] == Step(tiles[i], DirOf(acts[i]))
    && Passable(tiles[i + 1].x, tiles[i + 1].y) && tiles[i + 1] != knights[i]
    && knights[i + 1] == WanderTarget(knights[i], tiles[i + 1])
  }

  /** A walk through the given tiles made of steps and a final E on goal. */
  predicate RouteTo(tiles: seq<Pos>, knights: seq<Pos>, acts: seq<Action>, goal: Pos) {
    && |tiles| == |knights| == |acts| > 0
    && acts[|acts| - 1] == E && tiles[|acts| - 1] == goal
    && forall i :: 0 <= i < |acts| - 1 ==> StepOK(tiles, knights, acts, i)
  }

  /** A route of several actions is a first step followed by a route. */
  lemma RouteTail(tiles: seq<Pos>, knights: seq<Pos>, acts: seq<Action>, goal: Pos)
    requires RouteTo(tiles, knights, acts, goal) && |acts| > 1
    ensures StepOK(tiles, knights, acts, 0)
    ensures RouteTo(tiles[1..], knights[1..], acts[1..], goal)
  {
    forall i | 0 <= i < |acts| - 2
      ensures StepOK(tiles[1..], knights[1..], acts[1..], i)
    {
      assert StepOK(tiles, knights, acts, i + 1);
    }
  }

  /** Following a route to the sword, with Roll every time, picks the sword up. */
  lemma {:induction false} WalkRoute(s: State, tiles: seq<Pos>, knights: seq<Pos>, acts: seq<Action>)
    returns (last: State)
    requires FairKnightStats(s.knight.minDmg, s.knight.maxDmg) && s.mode == Explore && s.sword.Some?
    requires RouteTo(tiles, knights, acts, s.sword.value.pos)
    requires s.player.pos == tiles[0] && s.knight.pos == knights[0]
    ensures forall j :: 0 <= j < |acts| ==> DiceFit(s.knight.minDmg, s.knight.maxDmg, Rolls(|acts|)[j])
    ensures Play(s, acts, Rolls(|acts|)) == Continue(last)
    ensures last.player.bag == s.player.bag + [s.sword.value.name] && last.player.attackBonus == SwordBonus
    ensures last.sword == None
    decreases |acts|
  {
    RollsFit(s.knight.minDmg, s.knight.maxDmg, |acts|);
    RollFits(s.knight.minDmg, s.knight.maxDmg);
    assert Rolls(|acts|)[0] == Roll() && Rolls(|acts|)[1..] == Rolls(|acts| - 1);
    var t;
    if |acts| == 1 {
      t := PickUp(s, Roll());
      last := t;
      PlayHead(s, acts, Rolls(|acts|), t);
    } else {
      RouteTail(tiles, knights, acts, s.sword.value.pos);
      t := Walk(s, acts[0], tiles[1], knights[1]);
      last := WalkRoute(t, tiles[1..], knights[1..], acts[1..]);
      PlayHead(s, acts, Rolls(|acts|), t);
    }
  }

  /** The player's tiles along the walk: round the lake's west and north shore to the sword. */
  const WalkTiles: seq<Pos> :=
    [Pos(2, 2), Pos(1, 2), Pos(1, 1), Pos(1, 0), Pos(2, 0), Pos(3, 0), Pos(4, 0), Pos(5, 0), Pos(5, 1)]

  /** The knight's tiles meanwhile: from (7,3) it paces between (6,3) and (5,3). */
  const KnightTiles: seq<Pos> :=
    [Pos(7, 3), Pos(6, 3), Pos(5, 3), Pos(6, 3), Pos(5, 3), Pos(6, 3), Pos(5, 3), Pos(6, 3), Pos(5, 3)]

  /** The first four steps: west, then north twice, then east along the top row. */
  lemma FirstSteps(i: nat)
    requires i < 4
    ensures StepOK(WalkTiles, KnightTiles, WalkToSword, i)
  {
    if i == 0 {} else if i == 1 {} else if i == 2 {} else {}
  }

  /** The last four steps: east along the top row, then south onto the sword. */
  lemma LastSteps(i: nat)
    requires 4 <= i < 8
    ensures StepOK(WalkTiles, KnightTiles, WalkToSword, i)
  {
    if i == 4 {} else if i == 5 {} else if i == 6 {} else {}
  }

  /** The walk is a route from the start tiles to the sword's grass tile. */
  lemma WalkIsRoute()
    ensures RouteTo(WalkTiles, KnightTiles, WalkToSword, SwordPos)
  {
    forall i | 0 <= i < 8
      ensures StepOK(WalkTiles, KnightTiles, WalkToSword, i)
    {
      if i < 4 { FirstSteps(i); } else { LastSteps(i); }
    }
  }

  /** With the sword on grass, the walk picks it up: the bag holds the sword and the bonus is 6. */
  lemma SwordObtainable(minDmg: int, maxDmg: int) returns (last: State)
    requires FairKnightStats(minDmg, maxDmg)
    ensures forall j :: 0 <= j < |WalkToSword| ==> DiceFit(minDmg, maxDmg, Rolls(|WalkToSword|)[j])
    ensures Play(InitialState(minDmg, maxDmg), WalkToSword, Rolls(|WalkToSword|)) == Continue(last)
    ensures last.player.bag == [SwordName] && last.player.attackBonus == SwordBonus
  {
    WalkIsRoute();
    last := WalkRoute(InitialState(minDmg, maxDmg), WalkTiles, KnightTiles, WalkToSword);
  }
}
