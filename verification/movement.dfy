/** One-step moves and the knight's random walk. */
module Movement {
  import opened Grid
  import opened Wrappers
  import opened World

  datatype Mover = ThePlayer | TheKnight

  function PosOf(s: State, who: Mover): Pos {
    if who == ThePlayer then s.player.pos else s.knight.pos
  }

  /** A tile the mover may enter: passable, and for anyone but the knight, not the knight's tile. */
  predicate MayEnter(s: State, who: Mover, t: Pos) {
    Passable(t.x, t.y) && (who == TheKnight || t != s.knight.pos)
  }

  /** Tries to displace the mover by (dx, dy); reports whether it moved. */
  function MoveEntity(s: State, who: Mover, dx: int, dy: int): (r: (bool, State))
    ensures var target := Pos(PosOf(s, who).x + dx, PosOf(s, who).y + dy);
      r.0 <==> MayEnter(s, who, target)
    ensures r.0 ==> PosOf(r.1, who) == Pos(PosOf(s, who).x + dx, PosOf(s, who).y + dy)
    ensures who == ThePlayer ==> r.1 == s.(player := s.player.(pos := r.1.player.pos))
    ensures who == TheKnight ==> r.1 == s.(knight := s.knight.(pos := r.1.knight.pos))
    ensures !r.0 ==> r.1 == s
  {
    var target := Pos(PosOf(s, who).x + dx, PosOf(s, who).y + dy);
    if MayEnter(s, who, target) then
      if who == ThePlayer then (true, s.(player := s.player.(pos := target)))
      else (true, s.(knight := s.knight.(pos := target)))
    else (false, s)
  }

  /** The knight may step in direction d: onto a passable tile that is not the player's. */
  predicate Admissible(knight: Pos, player: Pos, d: Dir) {
    var t := Step(knight, d);
    Passable(t.x, t.y) && t != player
  }

  /** The wander order is a shuffle of the four directions. */
  predicate IsPermutation(order: seq<Dir>) {
    |order| == 4 && North in order && South in order && West in order && East in order
  }

  /** When no entry of a shuffled order is admissible, no direction at all is. */
  lemma NoneAdmissible(knight: Pos, player: Pos, order: seq<Dir>)
    requires IsPermutation(order)
    requires forall j :: 0 <= j < |order| ==> !Admissible(knight, player, order[j])
    ensures forall d: Dir :: !Admissible(knight, player, d)
  {
    forall d: Dir
      ensures !Admissible(knight, player, d)
    {
      assert d in order by {
        match d
        case North =>
        case South =>
        case West =>
        case East =>
      }
      var j :| 0 <= j < |order| && order[j] == d;
    }
  }

  /** Index of the first admissible direction in order, if any. */
  function FirstAdmissible(knight: Pos, player: Pos, order: seq<Dir>): (r: Option<nat>)
    ensures r.Some? ==> r.value < |order| && Admissible(knight, player, order[r.value])
    ensures r.Some? ==> forall j :: 0 <= j < r.value ==> !Admissible(knight, player, order[j])
    ensures r.None? ==> forall j :: 0 <= j < |order| ==> !Admissible(knight, player, order[j])
  {
    if |order| == 0 then None
    else if Admissible(knight, player, order[0]) then Some(0)
    else match FirstAdmissible(knight, player, order[1..])
      case None => None
      case Some(i) => Some(i + 1)
  }

  /** Where a knight at k, with the player at p, may end up after wandering in the given order:
      it stays put when no direction at all is admissible, and otherwise takes the first
      admissible direction of the order. */
  predicate WanderedTo(k: Pos, p: Pos, order: seq<Dir>, k': Pos) {
    || (k' == k && forall d: Dir :: !Admissible(k, p, d))
    || (exists i :: 0 <= i < |order| && Admissible(k, p, order[i]) && k' == Step(k, order[i])
         && forall j :: 0 <= j < i ==> !Admissible(k, p, order[j]))
  }

  /** The wander rule leaves the knight no choice: one order, one destination. */
  lemma WanderedToUnique(k: Pos, p: Pos, order: seq<Dir>, a: Pos, b: Pos)
    requires WanderedTo(k, p, order, a) && WanderedTo(k, p, order, b)
    ensures a == b
  {
    if a != k || b != k {
      var ia :| 0 <= ia < |order| && Admissible(k, p, order[ia]) && a == Step(k, order[ia])
        && forall j :: 0 <= j < ia ==> !Admissible(k, p, order[j]);
      var ib :| 0 <= ib < |order| && Admissible(k, p, order[ib]) && b == Step(k, order[ib])
        && forall j :: 0 <= j < ib ==> !Admissible(k, p, order[j]);
      assert ia == ib;
    }
  }

  /** The knight takes the first admissible step of the shuffled order, or stays put. */
  function NpcWander(s: State, order: seq<Dir>): (r: State)
    requires IsPermutation(order)
    ensures r == s.(knight := s.knight.(pos := r.knight.pos))
    ensures r.knight.pos == s.knight.pos <==> forall d: Dir :: !Admissible(s.knight.pos, s.player.pos, d)
    ensures r.knight.pos != s.knight.pos ==>
      && Adjacent(s.knight.pos, r.knight.pos)
      && Passable(r.knight.pos.x, r.knight.pos.y)
      && r.knight.pos != s.player.pos
    ensures r.knight.pos != s.knight.pos ==>
      exists i :: 0 <= i < |order| && r.knight.pos == Step(s.knight.pos, order[i])
        && forall j :: 0 <= j < i ==> !Admissible(s.knight.pos, s.player.pos, order[j])
    ensures WanderedTo(s.knight.pos, s.player.pos, order, r.knight.pos)
  {
    match FirstAdmissible(s.knight.pos, s.player.pos, order)
    case None =>
      NoneAdmissible(s.knight.pos, s.player.pos, order);
      s
    case Some(i) =>
      StepIsAdjacent(s.knight.pos, order[i]);
      var t := Step(s.knight.pos, order[i]);
      assert WanderedTo(s.knight.pos, s.player.pos, order, t);
      s.(knight := s.knight.(pos := t))
  }
}
