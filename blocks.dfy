/** A block of track: where it sits, which sides are open, its links to the
    blocks before and after it, and the decision that picks its piece type
    and rotation. Blocks live in the grid's block store and are addressed by
    id; a reference in the source is an id here. */
module Blocks {
  import opened Geometry
  import opened Pieces

  type BlockId = nat

  /** The placement part of a block. Its resolved look (type and rotation,
      present exactly when the source holds a mesh) is kept beside it in the
      store. */
  datatype Block = Block(
    position: Vec,
    fromSide: Option<Vec>,
    toSide: Option<Vec>,
    prev: Option<BlockId>,
    next: Option<BlockId>)

  /** A resolved type with the rotation chosen together with it. */
  datatype Look = Look(piece: Piece, turn: Turn)

  /** A block as the constructor leaves it once its position is copied in. */
  function NewBlock(p: Vec): (b: Block)
    ensures b.position == p && b.fromSide.None? && b.toSide.None?
    ensures b.prev.None? && b.next.None?
  {
    Block(p, None, None, None, None)
  }

  /** isOpenSides dereferences fromSide once toSide is present. */
  predicate SidesDefined(b: Block)
  {
    b.toSide.Some? ==> b.fromSide.Some?
  }

  /** The block is open towards s1 and s2, in either order. */
  predicate IsOpenSides(b: Block, s1: Vec, s2: Vec)
    requires SidesDefined(b)
  {
    b.toSide.Some? &&
    ((b.fromSide.value == s1 && b.toSide.value == s2) ||
     (b.fromSide.value == s2 && b.toSide.value == s1))
  }

  /** The open sides, as a set, are exactly {s1, s2}. */
  lemma OpenSidesAsSet(b: Block, s1: Vec, s2: Vec)
    requires b.fromSide.Some? && b.toSide.Some?
    ensures IsOpenSides(b, s1, s2) <==> {b.fromSide.value, b.toSide.value} == {s1, s2}
  {
    var f, t := b.fromSide.value, b.toSide.value;
    if {f, t} == {s1, s2} {
      assert s1 in {f, t} && s2 in {f, t} && f in {s1, s2} && t in {s1, s2};
    }
  }

  /** isHole: an unresolved block counts as a hole. */
  predicate IsHole(look: Option<Look>)
  {
    look.None? || IsHolePiece(look.value.piece)
  }

  /** convertToHole on a resolved block: swap to the hole type when the table
      has one, keeping the rotation. */
  function ConvertToHole(look: Look): (r: Look)
    ensures r.turn == look.turn
  {
    match ToHole(look.piece)
    case Some(h) => Look(h, look.turn)
    case None => look
  }

  /** Converting twice is converting once. */
  lemma ConvertToHoleIdempotent(look: Look)
    ensures ConvertToHole(ConvertToHole(look)) == ConvertToHole(look)
  {
  }

  /** A look that is already a hole is left as it is. */
  lemma ConvertToHoleKeepsHoles(look: Look)
    ensures IsHole(Some(look)) ==> ConvertToHole(look) == look
  {
  }

  /** After conversion every type except the cap is a hole type. */
  lemma ConvertToHoleMakesHole(look: Look)
    ensures look.piece != Cap <==> IsHole(Some(ConvertToHole(look)))
  {
  }

  /** removeNext: forget the forward link and the exit side; the look is
      dropped together with the mesh. */
  function RemoveNext(b: Block): (r: Block)
    ensures r.next.None? && r.toSide.None?
    ensures r.position == b.position && r.fromSide == b.fromSide && r.prev == b.prev
  {
    b.(next := None, toSide := None)
  }

  // ---------------------------------------------------------------------------
  // The type/rotation decision of getMesh

  function EndTurn(open: Vec): Turn
  {
    if open == FRONT then Half
    else if open == LEFT then Quarter
    else if open == RIGHT then MinusQuarter
    else Zero
  }

  function CornerTurn(b: Block): Turn
    requires SidesDefined(b)
  {
    if IsOpenSides(b, BACK, LEFT) then MinusQuarter
    else if IsOpenSides(b, BACK, RIGHT) then Half
    else if IsOpenSides(b, FRONT, RIGHT) then Quarter
    else Zero
  }

  /** The table used by the vertical curves and the ramp, keyed by one side. */
  function CurveTurn(side: Vec): Turn
  {
    if side == BACK then Half
    else if side == LEFT then MinusQuarter
    else if side == RIGHT then Quarter
    else Zero
  }

  /** The table used by the two ramp corners, keyed by the previous block's
      entry side. */
  function RampCornerTurn(side: Vec): Turn
  {
    if side == BACK then MinusQuarter
    else if side == FRONT then Quarter
    else if side == RIGHT then Half
    else Zero
  }

  function Choose(hole: bool, holePiece: Piece, solidPiece: Piece): Piece
  {
    if hole then holePiece else solidPiece
  }

  predicate IsRampPair(pf: Vec, t: Vec)
  {
    (pf == FRONT && t == BACK) || (pf == BACK && t == FRONT) ||
    (pf == RIGHT && t == LEFT) || (pf == LEFT && t == RIGHT)
  }

  predicate IsRampCorner1Pair(pf: Vec, t: Vec)
  {
    (pf == BACK && t == LEFT) || (pf == FRONT && t == RIGHT) ||
    (pf == LEFT && t == FRONT) || (pf == RIGHT && t == BACK)
  }

  predicate IsRampCorner2Pair(pf: Vec, t: Vec)
  {
    (pf == BACK && t == RIGHT) || (pf == FRONT && t == LEFT) ||
    (pf == LEFT && t == BACK) || (pf == RIGHT && t == FRONT)
  }

  /** Entered from above and leaving other than downwards: the branch of the
      decision that reads the previous block. */
  predicate LeavesShaft(b: Block)
  {
    b.fromSide.Some? && b.toSide.Some? && b.fromSide.value == TOP && b.toSide.value != BOTTOM
  }

  /** The references the decision follows are there: the previous block and
      its entry side when the block leaves a shaft, and the next block's entry
      side whenever that block has an exit side. */
  predicate AppearanceDefined(b: Block, prev: Option<Block>, next: Option<Block>)
  {
    (LeavesShaft(b) ==> prev.Some? && prev.value.fromSide.Some?) &&
    (next.Some? ==> SidesDefined(next.value))
  }

  /** The decision for a block entered from above and left sideways, from
      the entry side pf of the previous block and the exit side t. */
  function ShaftExitLook(pf: Vec, t: Vec, prevCeil: bool): Option<Look>
  {
    if pf == TOP then
      Some(Look(VerticalCurveEndHole, CurveTurn(t)))
    else if IsRampPair(pf, t) then
      Some(Look(Choose(prevCeil, RampHole, Ramp), CurveTurn(t)))
    else if IsRampCorner1Pair(pf, t) then
      Some(Look(Choose(prevCeil, RampCorner1Hole, RampCorner1), RampCornerTurn(pf)))
    else if IsRampCorner2Pair(pf, t) then
      Some(Look(Choose(prevCeil, RampCorner2Hole, RampCorner2), RampCornerTurn(pf)))
    else
      None
  }

  /** The ordered first-match decision of getMesh: from this block's sides,
      its neighbours' sides, whether the block has a ceiling (ceil) and
      whether the previous block has one (prevCeil). None: no rule applies
      and the block stays unresolved. */
  function Appearance(b: Block, prev: Option<Block>, next: Option<Block>, ceil: bool, prevCeil: bool): Option<Look>
    requires AppearanceDefined(b, prev, next)
  {
    if b.fromSide.None? && b.toSide.None? then
      Some(Look(Cap, Zero))
    else if b.fromSide.None? || b.toSide.None? then
      var open := if b.fromSide.Some? then b.fromSide.value else b.toSide.value;
      Some(Look(End, EndTurn(open)))
    else if IsOpenSides(b, LEFT, RIGHT) then
      Some(Look(Choose(ceil, StraightHole, Straight), Quarter))
    else if IsOpenSides(b, FRONT, BACK) then
      Some(Look(Choose(ceil, StraightHole, Straight), Zero))
    else if Minus(b.fromSide.value, b.toSide.value).y == 0 then
      Some(Look(Choose(ceil, CornerHole, Corner), CornerTurn(b)))
    else if b.fromSide.value != TOP && b.toSide.value == BOTTOM then
      if next.Some? && next.value.toSide.Some? && next.value.toSide.value == BOTTOM then
        Some(Look(Choose(ceil, VerticalCurveStartHole, VerticalCurveStart), CurveTurn(b.fromSide.value)))
      else
        None
    else if b.fromSide.value == TOP && b.toSide.value != BOTTOM then
      ShaftExitLook(prev.value.fromSide.value, b.toSide.value, prevCeil)
    else if IsOpenSides(b, TOP, BOTTOM) && next.Some? && IsOpenSides(next.value, TOP, BOTTOM) then
      Some(Look(VerticalHole, Zero))
    else
      None
  }

  // ---------------------------------------------------------------------------
  // What the decision means

  /** The sides a block can carry on a track: unit directions, and two
      different ones when both are present (the neighbours sit in different
      cells). */
  predicate TrackSides(b: Block)
  {
    (b.fromSide.Some? ==> IsDirection(b.fromSide.value)) &&
    (b.toSide.Some? ==> IsDirection(b.toSide.value)) &&
    (b.fromSide.Some? && b.toSide.Some? ==> b.fromSide.value != b.toSide.value)
  }

  predicate Geometric(b: Block, prev: Option<Block>, next: Option<Block>)
  {
    TrackSides(b) &&
    (prev.Some? ==> TrackSides(prev.value)) &&
    (next.Some? ==> TrackSides(next.value))
  }

  /** {a, b} and {c, d} are the same unordered pair. */
  predicate SamePair(a: Vec, b: Vec, c: Vec, d: Vec)
  {
    (a == c && b == d) || (a == d && b == c)
  }

  /** Each piece is drawn in a canonical orientation (rotation Zero) and the
      chosen turn carries the canonical open sides onto the block's own:
      an end opens to BACK, a straight to FRONT and BACK, a corner to FRONT
      and LEFT, a vertical curve start is entered from FRONT, a vertical curve
      end and a ramp leave to FRONT (a ramp's previous block being entered
      from BACK), and the two ramp corners follow an entry from LEFT into the
      previous block with an exit to FRONT or to BACK respectively. */
  predicate Oriented(look: Look, b: Block, prev: Option<Block>)
  {
    var t := look.turn;
    match look.piece
    case Cap => true
    case End =>
      (b.fromSide.Some? || b.toSide.Some?) &&
      var open := if b.fromSide.Some? then b.fromSide.value else b.toSide.value;
      IsHorizontal(open) ==> Rotate(t, BACK) == open
    case Straight | StraightHole =>
      b.fromSide.Some? && b.toSide.Some? &&
      SamePair(Rotate(t, FRONT), Rotate(t, BACK), b.fromSide.value, b.toSide.value)
    case Corner | CornerHole =>
      b.fromSide.Some? && b.toSide.Some? &&
      SamePair(Rotate(t, FRONT), Rotate(t, LEFT), b.fromSide.value, b.toSide.value)
    case VerticalCurveStart | VerticalCurveStartHole =>
      b.fromSide == Some(Rotate(t, FRONT)) && b.toSide == Some(BOTTOM)
    case VerticalCurveEndHole =>
      b.fromSide == Some(TOP) && b.toSide == Some(Rotate(t, FRONT))
    case Ramp | RampHole =>
      b.fromSide == Some(TOP) && b.toSide == Some(Rotate(t, FRONT)) &&
      prev.Some? && prev.value.fromSide == Some(Rotate(t, BACK))
    case RampCorner1 | RampCorner1Hole =>
      b.fromSide == Some(TOP) && b.toSide == Some(Rotate(t, FRONT)) &&
      prev.Some? && prev.value.fromSide == Some(Rotate(t, LEFT))
    case RampCorner2 | RampCorner2Hole =>
      b.fromSide == Some(TOP) && b.toSide == Some(Rotate(t, BACK)) &&
      prev.Some? && prev.value.fromSide == Some(Rotate(t, LEFT))
    case VerticalHole =>
      b.fromSide.Some? && b.toSide.Some? && SamePair(TOP, BOTTOM, b.fromSide.value, b.toSide.value) &&
      t == Zero
  }

  /** Every look the decision picks is the canonical piece turned onto the
      block's actual sides. */
  lemma AppearanceOriented(b: Block, prev: Option<Block>, next: Option<Block>, ceil: bool, prevCeil: bool)
    requires AppearanceDefined(b, prev, next) && Geometric(b, prev, next)
    ensures var r := Appearance(b, prev, next, ceil, prevCeil);
      r.Some? ==> Oriented(r.value, b, prev)
  {
    var r := Appearance(b, prev, next, ceil, prevCeil);
    if r.None? || (b.fromSide.None? || b.toSide.None?) {
      return;
    }
    var f, t := b.fromSide.value, b.toSide.value;
    if IsOpenSides(b, LEFT, RIGHT) || IsOpenSides(b, FRONT, BACK) {
      StraightOriented(b);
    } else if Minus(f, t).y == 0 {
      CornerOriented(b);
    } else if f != TOP && t == BOTTOM {
      CurveStartOriented(b, next, ceil);
    } else if f == TOP && t != BOTTOM {
      ShaftExitOriented(b, prev, prevCeil);
    }
  }

  /** The vertical curve start is oriented. */
  lemma CurveStartOriented(b: Block, next: Option<Block>, ceil: bool)
    requires TrackSides(b) && b.fromSide.Some? && b.toSide == Some(BOTTOM) && b.fromSide.value != TOP
    ensures Oriented(Look(Choose(ceil, VerticalCurveStartHole, VerticalCurveStart), CurveTurn(b.fromSide.value)), b, None)
  {
    assert IsHorizontal(b.fromSide.value);
    CurveTurnOriented(b.fromSide.value);
  }

  /** The shaft-exit looks are oriented. */
  lemma ShaftExitOriented(b: Block, prev: Option<Block>, prevCeil: bool)
    requires TrackSides(b) && prev.Some? && TrackSides(prev.value) && LeavesShaft(b)
    requires prev.value.fromSide.Some?
    ensures var r := ShaftExitLook(prev.value.fromSide.value, b.toSide.value, prevCeil);
      r.Some? ==> Oriented(r.value, b, prev)
  {
    var t := b.toSide.value;
    var pf := prev.value.fromSide.value;
    var r := ShaftExitLook(pf, t, prevCeil);
    assert IsHorizontal(t);
    if pf == TOP {
      assert Oriented(r.value, b, prev) by {
        CurveTurnOriented(t);
        assert r == Some(Look(VerticalCurveEndHole, CurveTurn(t)));
      }
    } else if IsRampPair(pf, t) {
      assert Oriented(r.value, b, prev) by {
        CurveTurnOriented(t);
        RampTurnOriented(pf, t);
        assert r == Some(Look(Choose(prevCeil, RampHole, Ramp), CurveTurn(t)));
      }
    } else if IsRampCorner1Pair(pf, t) {
      assert Oriented(r.value, b, prev) by {
        RampTurnOriented(pf, t);
        assert r == Some(Look(Choose(prevCeil, RampCorner1Hole, RampCorner1), RampCornerTurn(pf)));
      }
    } else if IsRampCorner2Pair(pf, t) {
      assert Oriented(r.value, b, prev) by {
        RampTurnOriented(pf, t);
        assert r == Some(Look(Choose(prevCeil, RampCorner2Hole, RampCorner2), RampCornerTurn(pf)));
      }
    }
  }

  /** A shaft exit stays unresolved exactly when the previous block rose
      into the shaft or was entered from the side the block leaves by. */
  lemma ShaftExitMissing(pf: Vec, t: Vec, prevCeil: bool)
    requires IsDirection(pf) && IsHorizontal(t)
    ensures ShaftExitLook(pf, t, prevCeil).None? <==> pf == BOTTOM || pf == t
  {
    if pf != TOP && pf != BOTTOM && pf != t && !IsRampPair(pf, t) {
      HorizontalPairs(pf, t);
    }
  }

  /** Two horizontal sides are equal, opposite, or one of the two corner
      pairs. */
  lemma HorizontalPairs(pf: Vec, t: Vec)
    requires IsHorizontal(pf) && IsHorizontal(t)
    ensures pf == t || pf == Negate(t) || IsRampCorner1Pair(pf, t) || IsRampCorner2Pair(pf, t)
  {
    if t == LEFT {
      assert pf == LEFT || pf == RIGHT || pf == BACK || pf == FRONT;
    } else if t == RIGHT {
      assert pf == LEFT || pf == RIGHT || pf == BACK || pf == FRONT;
    } else if t == BACK {
      assert pf == LEFT || pf == RIGHT || pf == BACK || pf == FRONT;
    } else {
      assert pf == LEFT || pf == RIGHT || pf == BACK || pf == FRONT;
    }
  }

  lemma StraightOriented(b: Block)
    requires b.fromSide.Some? && b.toSide.Some?
    requires IsOpenSides(b, LEFT, RIGHT) || IsOpenSides(b, FRONT, BACK)
    ensures var turn := if IsOpenSides(b, LEFT, RIGHT) then Quarter else Zero;
      SamePair(Rotate(turn, FRONT), Rotate(turn, BACK), b.fromSide.value, b.toSide.value)
  {
  }

  lemma CornerOriented(b: Block)
    requires TrackSides(b) && b.fromSide.Some? && b.toSide.Some?
    requires !IsOpenSides(b, LEFT, RIGHT) && !IsOpenSides(b, FRONT, BACK)
    requires Minus(b.fromSide.value, b.toSide.value).y == 0
    ensures SamePair(Rotate(CornerTurn(b), FRONT), Rotate(CornerTurn(b), LEFT), b.fromSide.value, b.toSide.value)
  {
    var f, t := b.fromSide.value, b.toSide.value;
    assert IsHorizontal(f) && IsHorizontal(t);
    if f == LEFT || f == BACK {
      assert t == FRONT || t == BACK || t == LEFT || t == RIGHT;
    } else {
      assert t == FRONT || t == BACK || t == LEFT || t == RIGHT;
    }
  }

  lemma CurveTurnOriented(side: Vec)
    requires IsHorizontal(side)
    ensures Rotate(CurveTurn(side), FRONT) == side
    ensures Rotate(CurveTurn(side), BACK) == Negate(side)
  {
  }

  lemma RampTurnOriented(pf: Vec, t: Vec)
    ensures IsRampPair(pf, t) ==> pf == Rotate(CurveTurn(t), BACK)
    ensures IsRampCorner1Pair(pf, t) ==>
      pf == Rotate(RampCornerTurn(pf), LEFT) && t == Rotate(RampCornerTurn(pf), FRONT)
    ensures IsRampCorner2Pair(pf, t) ==>
      pf == Rotate(RampCornerTurn(pf), LEFT) && t == Rotate(RampCornerTurn(pf), BACK)
  {
    if pf == BACK {
      assert RampCornerTurn(pf) == MinusQuarter;
    } else if pf == FRONT {
      assert RampCornerTurn(pf) == Quarter;
    } else if pf == RIGHT {
      assert RampCornerTurn(pf) == Half;
    } else if pf == LEFT {
      assert RampCornerTurn(pf) == Zero;
    }
  }

  /** The solid piece a hole piece is the variant of. */
  function Solid(p: Piece): Piece
  {
    match p
    case StraightHole => Straight
    case CornerHole => Corner
    case RampHole => Ramp
    case RampCorner1Hole => RampCorner1
    case RampCorner2Hole => RampCorner2
    case VerticalCurveStartHole => VerticalCurveStart
    case _ => p
  }

  predicate IsRampFamily(p: Piece)
  {
    p == Ramp || p == RampCorner1 || p == RampCorner2
  }

  predicate IsCeilingFamily(p: Piece)
  {
    p == Straight || p == Corner || p == VerticalCurveStart
  }

  /** The ceilings only choose between a piece and its hole variant: with or
      without them the same rule fires, with the same rotation and the same
      underlying piece, and the hole variant is taken exactly when this
      block's ceiling is present (the previous block's, for the ramps). The
      vertical shaft and the vertical curve end are holes in any case. */
  lemma CeilingPicksHoleVariant(b: Block, prev: Option<Block>, next: Option<Block>, ceil: bool, prevCeil: bool)
    requires AppearanceDefined(b, prev, next)
    ensures var r := Appearance(b, prev, next, ceil, prevCeil);
      var s := Appearance(b, prev, next, false, false);
      r.Some? == s.Some? &&
      (r.Some? ==>
        r.value.turn == s.value.turn && Solid(r.value.piece) == s.value.piece &&
        (IsHolePiece(r.value.piece) <==>
          if IsRampFamily(s.value.piece) then prevCeil
          else if IsCeilingFamily(s.value.piece) then ceil
          else s.value.piece == VerticalHole || s.value.piece == VerticalCurveEndHole))
  {
  }

  /** The configurations no rule covers, in terms of the geometry: a descent
      whose next block does not carry on down, a climb out of or into a
      horizontal run, a shaft exit whose previous block rose into the shaft
      or was entered from the side the block leaves by, and a shaft cell
      whose next block is not a shaft cell. */
  predicate Unmatched(b: Block, prev: Option<Block>, next: Option<Block>)
    requires b.fromSide.Some? && b.toSide.Some?
  {
    var f, t := b.fromSide.value, b.toSide.value;
    (IsHorizontal(f) && t == BOTTOM && !(next.Some? && next.value.toSide == Some(BOTTOM))) ||
    (IsHorizontal(f) && t == TOP) ||
    (f == BOTTOM && IsHorizontal(t)) ||
    (f == TOP && IsHorizontal(t) && prev.Some? && prev.value.fromSide.Some? &&
     (prev.value.fromSide.value == BOTTOM || prev.value.fromSide.value == t)) ||
    (SamePair(TOP, BOTTOM, f, t) &&
     !(next.Some? && next.value.fromSide.Some? && next.value.toSide.Some? &&
       SamePair(TOP, BOTTOM, next.value.fromSide.value, next.value.toSide.value)))
  }

  /** On track geometry the decision leaves a block unresolved exactly in the
      unmatched configurations; isolated blocks and blocks with one open side
      always resolve. */
  lemma UnresolvedExactlyWhenUnmatched(b: Block, prev: Option<Block>, next: Option<Block>, ceil: bool, prevCeil: bool)
    requires AppearanceDefined(b, prev, next) && Geometric(b, prev, next)
    ensures Appearance(b, prev, next, ceil, prevCeil).None? <==>
      b.fromSide.Some? && b.toSide.Some? && Unmatched(b, prev, next)
  {
    if b.fromSide.Some? && b.toSide.Some? {
      var f, t := b.fromSide.value, b.toSide.value;
      var r := Appearance(b, prev, next, ceil, prevCeil);
      if LeavesShaft(b) && !IsOpenSides(b, LEFT, RIGHT) && !IsOpenSides(b, FRONT, BACK) && Minus(f, t).y != 0 {
        assert r == ShaftExitLook(prev.value.fromSide.value, t, prevCeil);
        ShaftExitMissing(prev.value.fromSide.value, t, prevCeil);
      }
    }
  }
}
