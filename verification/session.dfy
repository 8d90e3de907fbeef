/** The mode dispatcher: abstract actions routed to movement, interaction or combat. */
module Session {
  import opened Wrappers
  import opened Grid
  import opened World
  import opened Movement
  import opened Interaction
  import opened Combat

  datatype Action = Up | Down | Left | Right | E | I | Q | Atk | Run

  /** The random outcomes one action may consume. */
  datatype Dice = Dice(order: seq<Dir>, playerDraw: int, playerHit: bool, knightHit: bool, knightDraw: int)

  predicate DiceFit(minDmg: int, maxDmg: int, d: Dice) {
    && IsPermutation(d.order)
    && PlayerBaseMin <= d.playerDraw <= PlayerBaseMax
    && minDmg <= d.knightDraw <= maxDmg
  }

  /** Either the session goes on in a new state, or the player quit. */
  datatype Outcome = Continue(state: State) | Exit

  const SwordHereMessage: string := "A sword lies here. Press E to pick it up."

  predicate IsMove(a: Action) {
    a == Up || a == Down || a == Left || a == Right
  }

  function DirOf(a: Action): Dir
    requires IsMove(a)
  {
    match a
    case Up => North
    case Down => South
    case Left => West
    case Right => East
  }

  /** A step attempt while exploring: a blocked step changes nothing, a successful one sets the
      context message and lets the knight wander. */
  function ExploreMove(s: State, d: Dir, order: seq<Dir>): (r: State)
    requires IsPermutation(order)
    // a blocked step changes nothing at all, and the knight does not wander
    ensures !MayEnter(s, ThePlayer, Step(s.player.pos, d)) ==> r == s
    // a successful step moves only the player's position, then the knight may wander
    ensures MayEnter(s, ThePlayer, Step(s.player.pos, d)) ==>
      && r.player == s.player.(pos := Step(s.player.pos, d))
      && r.knight == s.knight.(pos := r.knight.pos)
      && r.sword == s.sword && r.mode == s.mode && r.log == s.log
      && r.message == (if OnSword(r) then SwordHereMessage else "")
      && (r.knight.pos != s.knight.pos ==>
            Adjacent(s.knight.pos, r.knight.pos) && r.knight.pos != r.player.pos)
      // the knight wanders by the order, around the player's new tile
      && WanderedTo(s.knight.pos, r.player.pos, order, r.knight.pos)
  {
    var (moved, s') := MoveEntity(s, ThePlayer, DeltaX(d), DeltaY(d));
    if moved then NpcWander(s'.(message := if OnSword(s') then SwordHereMessage else ""), order)
    else s
  }

  /** The interact key while exploring: pickup or battle start, followed by a wander. */
  function ExploreInteract(s: State, order: seq<Dir>): (r: State)
    requires IsPermutation(order)
    ensures r.player == Interact(s).player && r.sword == Interact(s).sword
    ensures r.knight == s.knight.(pos := r.knight.pos)
    ensures r.mode == Battle <==> s.mode == Battle || (!OnSword(s) && Adjacent(s.player.pos, s.knight.pos))
    // message and log are those of the interaction; the wander adds nothing to them
    ensures r.mode == Interact(s).mode && r.message == Interact(s).message && r.log == Interact(s).log
    // the knight then wanders by the order, around the player's (unmoved) tile
    ensures r.player.pos == s.player.pos
    ensures WanderedTo(s.knight.pos, s.player.pos, order, r.knight.pos)
  {
    NpcWander(Interact(s), order)
  }

  function HandleExplore(s: State, a: Action, order: seq<Dir>): (r: Outcome)
    requires IsPermutation(order)
    ensures r.Exit? <==> a == Q
    ensures IsMove(a) ==> r == Continue(ExploreMove(s, DirOf(a), order))
    ensures a == E ==> r == Continue(ExploreInteract(s, order))
    // the inventory key only rewrites the message
    ensures a == I ==> r == Continue(s.(message := InventoryText(s.player.bag)))
    ensures a == Atk || a == Run ==> r == Continue(s)
  {
    match a
    case Q => Exit
    case E => Continue(ExploreInteract(s, order))
    case I => Continue(s.(message := InventoryText(s.player.bag)))
    case Atk => Continue(s)
    case Run => Continue(s)
    case _ => Continue(ExploreMove(s, DirOf(a), order))
  }

  function HandleBattle(s: State, a: Action, d: Dice): (r: State)
    requires FairKnightStats(s.knight.minDmg, s.knight.maxDmg)
    requires DiceFit(s.knight.minDmg, s.knight.maxDmg, d)
    ensures a != Atk && a != Run ==> r == s
    ensures a == Run ==> r.mode == Explore && r.player == s.player && r.knight == s.knight
    // ATK plays one full round with this action's dice; RUN flees
    ensures a == Atk ==> r == BattleTurn(s, d.playerDraw, d.playerHit, d.knightHit, d.knightDraw)
    ensures a == Run ==> r == RunFromBattle(s)
    ensures r.player.pos == s.player.pos && r.knight.pos == s.knight.pos && r.sword == s.sword
  {
    match a
    case Atk => BattleTurn(s, d.playerDraw, d.playerHit, d.knightHit, d.knightDraw)
    case Run => RunFromBattle(s)
    case _ => s
  }

  /** Routes an action by the current mode. */
  function Dispatch(s: State, a: Action, d: Dice): (r: Outcome)
    requires FairKnightStats(s.knight.minDmg, s.knight.maxDmg)
    requires DiceFit(s.knight.minDmg, s.knight.maxDmg, d)
    ensures r.Exit? <==> s.mode == Explore && a == Q
    // routing: while exploring the action goes to the explore handler, in battle to the battle one
    ensures s.mode == Explore ==> r == HandleExplore(s, a, d.order)
    ensures s.mode == Battle ==> r == Continue(HandleBattle(s, a, d))
    ensures r.Continue? ==> r.state.knight.minDmg == s.knight.minDmg && r.state.knight.maxDmg == s.knight.maxDmg
    // in battle only ATK and RUN do anything, and nobody moves
    ensures s.mode == Battle && a != Atk && a != Run ==> r == Continue(s)
    ensures s.mode == Battle ==> r.state.player.pos == s.player.pos && r.state.knight.pos == s.knight.pos
    // a battle is entered only by interacting next to the knight, off the sword
    ensures s.mode == Explore && r.Continue? && r.state.mode == Battle ==>
      a == E && !OnSword(s) && Adjacent(s.player.pos, s.knight.pos)
    // exploring never touches health or gold
    ensures s.mode == Explore && r.Continue? ==>
      r.state.player.hp == s.player.hp && r.state.knight.hp == s.knight.hp && r.state.player.gold == s.player.gold
  {
    if s.mode == Explore then HandleExplore(s, a, d.order)
    else Continue(HandleBattle(s, a, d))
  }

  /** Every action keeps the state invariant. */
  lemma DispatchPreservesValid(s: State, a: Action, d: Dice)
    requires Valid(s)
    requires DiceFit(s.knight.minDmg, s.knight.maxDmg, d)
    ensures Dispatch(s, a, d).Continue? ==> Valid(Dispatch(s, a, d).state)
  {
    if s.mode == Battle && a == Atk {
      BattleTurnPreservesValid(s, d.playerDraw, d.playerHit, d.knightHit, d.knightDraw);
    } else if s.mode == Explore && a == E {
      InteractPreservesValid(s);
    }
  }

  /** Once the sword is taken it never comes back, and bag and bonus stay as they are. */
  lemma DispatchAfterPickup(s: State, a: Action, d: Dice)
    requires Valid(s) && s.sword.None?
    requires DiceFit(s.knight.minDmg, s.knight.maxDmg, d)
    ensures Dispatch(s, a, d).Continue? ==>
      var t := Dispatch(s, a, d).state;
      t.sword.None? && t.player.bag == s.player.bag && t.player.attackBonus == s.player.attackBonus
  {
  }

  /** Plays a series of handler calls (`handle_explore_action` or `handle_battle_action`, chosen by
      the mode), one dice roll each, stopping on quit. `Loop` below is the main loop over key
      presses, and `LoopIsPlay` shows that every run of it is such a series. */
  function Play(s: State, acts: seq<Action>, dice: seq<Dice>): (r: Outcome)
    requires FairKnightStats(s.knight.minDmg, s.knight.maxDmg)
    requires |dice| == |acts|
    requires forall i :: 0 <= i < |dice| ==> DiceFit(s.knight.minDmg, s.knight.maxDmg, dice[i])
    // the session ends only on a quit
    ensures r.Exit? ==> Q in acts
    // the knight's damage range, drawn once at start-up, stays fixed for the whole session
    ensures r.Continue? ==> r.state.knight.minDmg == s.knight.minDmg && r.state.knight.maxDmg == s.knight.maxDmg
    decreases |acts|
  {
    if |acts| == 0 then Continue(s)
    else match Dispatch(s, acts[0], dice[0])
      case Exit => Exit
      case Continue(t) => Play(t, acts[1..], dice[1..])
  }

  /** Play handles one call after another: no calls leave the state as it is, and one more call
      is one more dispatch from wherever the earlier ones led, unless they already quit. */
  lemma {:induction false} PlaySnoc(s: State, acts: seq<Action>, dice: seq<Dice>, a: Action, d: Dice)
    requires FairKnightStats(s.knight.minDmg, s.knight.maxDmg)
    requires |dice| == |acts|
    requires forall i :: 0 <= i < |dice| ==> DiceFit(s.knight.minDmg, s.knight.maxDmg, dice[i])
    requires DiceFit(s.knight.minDmg, s.knight.maxDmg, d)
    ensures Play(s, [], []) == Continue(s)
    ensures Play(s, acts + [a], dice + [d]) ==
      match Play(s, acts, dice)
      case Exit => Exit
      case Continue(t) => Dispatch(t, a, d)
    decreases |acts|
  {
    var acts', dice' := acts + [a], dice + [d];
    if |acts| == 0 {
      assert acts'[1..] == [] && dice'[1..] == [];
      assert acts'[0] == a && dice'[0] == d;
    } else {
      assert acts'[0] == acts[0] && dice'[0] == dice[0];
      assert acts'[1..] == acts[1..] + [a] && dice'[1..] == dice[1..] + [d];
      match Dispatch(s, acts[0], dice[0])
      case Exit =>
      case Continue(t) =>
        PlaySnoc(t, acts[1..], dice[1..], a, d);
    }
  }

  /** Every state reached by play is valid. */
  lemma {:induction false} PlayPreservesValid(s: State, acts: seq<Action>, dice: seq<Dice>)
    requires Valid(s)
    requires |dice| == |acts|
    requires forall i :: 0 <= i < |dice| ==> DiceFit(s.knight.minDmg, s.knight.maxDmg, dice[i])
    ensures Play(s, acts, dice).Continue? ==> Valid(Play(s, acts, dice).state)
    decreases |acts|
  {
    if |acts| > 0 {
      DispatchPreservesValid(s, acts[0], dice[0]);
      match Dispatch(s, acts[0], dice[0])
      case Exit =>
      case Continue(t) =>
        PlayPreservesValid(t, acts[1..], dice[1..]);
    }
  }

  /** After the pickup, no later action adds to the bag, changes the bonus or restores the sword. */
  lemma {:induction false} PickupIsFinal(s: State, acts: seq<Action>, dice: seq<Dice>)
    requires Valid(s) && s.sword.None?
    requires |dice| == |acts|
    requires forall i :: 0 <= i < |dice| ==> DiceFit(s.knight.minDmg, s.knight.maxDmg, dice[i])
    ensures Play(s, acts, dice).Continue? ==>
      var t := Play(s, acts, dice).state;
      t.sword.None? && t.player.bag == s.player.bag && t.player.attackBonus == s.player.attackBonus
    decreases |acts|
  {
    if |acts| > 0 {
      DispatchPreservesValid(s, acts[0], dice[0]);
      DispatchAfterPickup(s, acts[0], dice[0]);
      match Dispatch(s, acts[0], dice[0])
      case Exit =>
      case Continue(t) =>
        PickupIsFinal(t, acts[1..], dice[1..]);
    }
  }

  // ---------- keyboard mapping ----------

  datatype Key =
    | KeyQ | KeyEscape
    | KeyA | KeyLeft | KeyD | KeyRight | KeyW | KeyUp | KeyS | KeyDown
    | KeyE | KeyI | KeyReturn | KeyR | KeyBackspace
    | OtherKey

  datatype Event = WindowClose | KeyPress(key: Key)

  /** The action a key means while exploring, if any (Q and Escape are handled first). */
  function ExploreKey(k: Key): Option<Action> {
    match k
    case KeyA => Some(Left)
    case KeyLeft => Some(Left)
    case KeyD => Some(Right)
    case KeyRight => Some(Right)
    case KeyW => Some(Up)
    case KeyUp => Some(Up)
    case KeyS => Some(Down)
    case KeyDown => Some(Down)
    case KeyE => Some(E)
    case KeyI => Some(I)
    case _ => None
  }

  /** The action a key means in battle, if any (Q and Escape are handled first). */
  function BattleKey(k: Key): Option<Action> {
    match k
    case KeyE => Some(Atk)
    case KeyReturn => Some(Atk)
    case KeyR => Some(Run)
    case KeyBackspace => Some(Run)
    case _ => None
  }

  /** The handler action a key press stands for in a mode, or None for a key the loop ignores:
      Q and Escape quit while exploring and flee in battle; other keys go through the mode's map. */
  function KeyAction(m: Mode, k: Key): Option<Action> {
    if k == KeyQ || k == KeyEscape then Some(if m == Explore then Q else Run)
    else if m == Explore then ExploreKey(k)
    else BattleKey(k)
  }

  /** A handler action with the same effect as the key press: the key's action, or for an ignored
      key one that the mode's handler ignores as well. */
  function PressAction(m: Mode, k: Key): Action {
    match KeyAction(m, k)
    case Some(a) => a
    case None => if m == Explore then Atk else I
  }

  function HandleEvent(s: State, ev: Event, d: Dice): (r: Outcome)
    requires FairKnightStats(s.knight.minDmg, s.knight.maxDmg)
    requires DiceFit(s.knight.minDmg, s.knight.maxDmg, d)
    ensures ev == WindowClose ==> r == Exit
    // every key press is one handler call, routed by the mode; an ignored key changes nothing
    ensures ev.KeyPress? ==> r == Dispatch(s, PressAction(s.mode, ev.key), d)
    ensures ev.KeyPress? && KeyAction(s.mode, ev.key).None? ==> r == Continue(s)
    // the session ends only on closing the window or on Q / Escape while exploring
    ensures r.Exit? ==> ev == WindowClose || (s.mode == Explore && ev.key in {KeyQ, KeyEscape})
    // Q / Escape while exploring quits
    ensures s.mode == Explore && ev.KeyPress? && ev.key in {KeyQ, KeyEscape} ==> r == Exit
    // Q / Escape in battle means flee
    ensures s.mode == Battle && ev.KeyPress? && ev.key in {KeyQ, KeyEscape} ==> r == Continue(RunFromBattle(s))
    ensures s.mode == Battle && ev.KeyPress? && ev.key in {KeyQ, KeyEscape} ==>
      && r.Continue? && r.state.mode == Explore
      && r.state.player == s.player && r.state.knight == s.knight
    // no key moves anyone during a battle
    ensures s.mode == Battle && r.Continue? ==>
      r.state.player.pos == s.player.pos && r.state.knight.pos == s.knight.pos
    ensures r.Continue? ==> r.state.knight.minDmg == s.knight.minDmg && r.state.knight.maxDmg == s.knight.maxDmg
  {
    match ev
    case WindowClose => Exit
    case KeyPress(k) =>
      if k == KeyQ || k == KeyEscape then
        if s.mode == Explore then HandleExplore(s, Q, d.order) else Continue(RunFromBattle(s))
      else if s.mode == Explore then
        match ExploreKey(k)
        case Some(a) => HandleExplore(s, a, d.order)
        case None => Continue(s)
      else
        match BattleKey(k)
        case Some(a) => Continue(HandleBattle(s, a, d))
        case None => Continue(s)
  }

  /** The main loop: handles one event after another, one dice roll each, until the session ends. */
  function Loop(s: State, evs: seq<Event>, dice: seq<Dice>): (r: Outcome)
    requires FairKnightStats(s.knight.minDmg, s.knight.maxDmg)
    requires |dice| == |evs|
    requires forall i :: 0 <= i < |dice| ==> DiceFit(s.knight.minDmg, s.knight.maxDmg, dice[i])
    // the session ends only when the window is closed or Q / Escape is pressed
    ensures r.Exit? ==> WindowClose in evs || KeyPress(KeyQ) in evs || KeyPress(KeyEscape) in evs
    ensures r.Continue? ==> r.state.knight.minDmg == s.knight.minDmg && r.state.knight.maxDmg == s.knight.maxDmg
    decreases |evs|
  {
    if |evs| == 0 then Continue(s)
    else match HandleEvent(s, evs[0], dice[0])
      case Exit => Exit
      case Continue(t) => Loop(t, evs[1..], dice[1..])
  }

  /** Every run of the main loop that has not ended is a series of handler calls: there are
      actions, one per event, whose play reaches the same state. */
  lemma {:induction false} LoopIsPlay(s: State, evs: seq<Event>, dice: seq<Dice>) returns (acts: seq<Action>)
    requires FairKnightStats(s.knight.minDmg, s.knight.maxDmg)
    requires |dice| == |evs|
    requires forall i :: 0 <= i < |dice| ==> DiceFit(s.knight.minDmg, s.knight.maxDmg, dice[i])
    ensures |acts| == |evs|
    ensures Loop(s, evs, dice).Continue? ==> Play(s, acts, dice) == Loop(s, evs, dice)
    decreases |evs|
  {
    if |evs| == 0 {
      acts := [];
    } else {
      match HandleEvent(s, evs[0], dice[0])
      case Exit =>
        acts := seq(|evs|, i => Q);
      case Continue(t) =>
        assert evs[0].KeyPress?;
        var a := PressAction(s.mode, evs[0].key);
        assert Dispatch(s, a, dice[0]) == Continue(t);
        var rest := LoopIsPlay(t, evs[1..], dice[1..]);
        acts := [a] + rest;
        assert acts[0] == a && acts[1..] == rest;
    }
  }

  /** Every state the main loop reaches is valid. */
  lemma LoopPreservesValid(s: State, evs: seq<Event>, dice: seq<Dice>)
    requires Valid(s)
    requires |dice| == |evs|
    requires forall i :: 0 <= i < |dice| ==> DiceFit(s.knight.minDmg, s.knight.maxDmg, dice[i])
    ensures Loop(s, evs, dice).Continue? ==> Valid(Loop(s, evs, dice).state)
  {
    var acts := LoopIsPlay(s, evs, dice);
    PlayPreservesValid(s, acts, dice);
  }

  /** After the pickup, no key presses restore the sword or change the bag or the bonus. */
  lemma LoopPickupIsFinal(s: State, evs: seq<Event>, dice: seq<Dice>)
    requires Valid(s) && s.sword.None?
    requires |dice| == |evs|
    requires forall i :: 0 <= i < |dice| ==> DiceFit(s.knight.minDmg, s.knight.maxDmg, dice[i])
    ensures Loop(s, evs, dice).Continue? ==>
      var t := Loop(s, evs, dice).state;
      t.sword.None? && t.player.bag == s.player.bag && t.player.attackBonus == s.player.attackBonus
  {
    var acts := LoopIsPlay(s, evs, dice);
    PickupIsFinal(s, acts, dice);
  }
}
