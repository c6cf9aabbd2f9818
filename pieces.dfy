/** The closed set of piece types a block can take, their model file names,
    the solid-to-hole table and the hole test. */
module Pieces {

  datatype Option<T> = None | Some(value: T)

  /** The piece types a block can be resolved to. The ground plate
      "duplo-5x5x0.5_low.stl" is scenery, not a block type, and is left out. */
  datatype Piece =
    | Cap                     // duplo-2x2x2_low.stl: a closed single unit
    | End
    | Straight | StraightHole
    | Corner | CornerHole
    | Ramp | RampHole
    | RampCorner1 | RampCorner1Hole
    | RampCorner2 | RampCorner2Hole
    | VerticalHole
    | VerticalCurveStart | VerticalCurveStartHole
    | VerticalCurveEndHole

  /** The name under which the source stores and compares a block's type. */
  function ModelName(p: Piece): string
  {
    match p
    case Cap => "duplo-2x2x2_low.stl"
    case End => "end_low.stl"
    case Straight => "straight_low.stl"
    case StraightHole => "straight_hole_low.stl"
    case Corner => "corner_low.stl"
    case CornerHole => "corner_hole_low.stl"
    case Ramp => "ramp_low.stl"
    case RampHole => "ramp_hole_low.stl"
    case RampCorner1 => "rampCorner1_low.stl"
    case RampCorner1Hole => "rampCorner1_hole_low.stl"
    case RampCorner2 => "rampCorner2_low.stl"
    case RampCorner2Hole => "rampCorner2_hole_low.stl"
    case VerticalHole => "verticalHole_low.stl"
    case VerticalCurveStart => "verticalCurveStart_low.stl"
    case VerticalCurveStartHole => "verticalCurveStart_hole_low.stl"
    case VerticalCurveEndHole => "verticalCurveEnd_hole_low.stl"
  }

  /** Distinct piece types have distinct model names. */
  lemma {:induction false} ModelNameInjective(p: Piece, q: Piece)
    requires ModelName(p) == ModelName(q)
    ensures p == q
  {
  }

  /** The type names the undo clean-up looks for in the block two steps back.
      The first entry is not the name of any piece type. */
  const UNDO_CLEANUP: seq<string> := ["verticalCurveStart.stl", "verticalHole_low.stl"]

  /** Only a vertical shaft block triggers the undo clean-up. */
  lemma {:induction false} UndoCleanupOnlyVerticalHole(p: Piece)
    ensures ModelName(p) in UNDO_CLEANUP <==> p == VerticalHole
  {
    if ModelName(p) == UNDO_CLEANUP[1] {
      assert ModelName(p) == ModelName(VerticalHole);
      ModelNameInjective(p, VerticalHole);
    }
    assert ModelName(p) != UNDO_CLEANUP[0] by {
      assert |UNDO_CLEANUP[0]| == 22;
    }
  }

  /** The solid-to-hole table. Names with no entry, or an entry of null,
      give None. */
  function ToHole(p: Piece): Option<Piece>
  {
    match p
    case Corner => Some(CornerHole)
    case Straight => Some(StraightHole)
    case Ramp => Some(RampHole)
    case RampCorner1 => Some(RampCorner1Hole)
    case RampCorner2 => Some(RampCorner2Hole)
    case End => Some(StraightHole)
    case VerticalCurveStart => Some(VerticalCurveStartHole)
    case _ => None
  }

  /** A type whose name contains "Hole" or "_hole". */
  predicate IsHolePiece(p: Piece)
  {
    p.StraightHole? || p.CornerHole? || p.RampHole? || p.RampCorner1Hole? ||
    p.RampCorner2Hole? || p.VerticalHole? || p.VerticalCurveStartHole? ||
    p.VerticalCurveEndHole?
  }

  /** sub occurs in s at position k. */
  predicate OccursAt(s: string, sub: string, k: nat)
  {
    k + |sub| <= |s| && s[k..k + |sub|] == sub
  }

  /** s contains sub at position i or later, as a regular-expression match
      on a plain word does when started at i. */
  predicate HasInfixFrom(s: string, sub: string, i: nat)
    decreases |s| - i
  {
    i + |sub| <= |s| && (OccursAt(s, sub, i) || HasInfixFrom(s, sub, i + 1))
  }

  /** An occurrence at j or later is found by a match from i. */
  lemma {:induction false} InfixFound(s: string, sub: string, i: nat, j: nat)
    requires i <= j && OccursAt(s, sub, j)
    ensures HasInfixFrom(s, sub, i)
    decreases j - i
  {
    if i < j {
      InfixFound(s, sub, i + 1, j);
    }
  }

  /** A match from i fails when no position from i starts an occurrence. */
  lemma {:induction false} InfixAbsent(s: string, sub: string, i: nat)
    requires forall k: nat :: i <= k ==> !OccursAt(s, sub, k)
    ensures !HasInfixFrom(s, sub, i)
    decreases |s| - i
  {
    if i + |sub| <= |s| {
      InfixAbsent(s, sub, i + 1);
    }
  }

  /** sub never occurs in a string that lacks its first character. */
  lemma FirstCharAbsent(s: string, sub: string)
    requires |sub| > 0 && sub[0] !in s
    ensures forall k: nat :: !OccursAt(s, sub, k)
  {
    forall k: nat ensures !OccursAt(s, sub, k) {
      if k + |sub| <= |s| {
        assert s[k..k + |sub|][0] == s[k];
      }
    }
  }

  /** "_hole" never occurs in a name made of a stem without '_' followed by
      "_low.stl": its only '_' is followed by 'l'. */
  lemma LowSuffixNoUnderHole(stem: string)
    requires '_' !in stem
    ensures forall k: nat :: !OccursAt(stem + "_low.stl", "_hole", k)
  {
    var suffix := "_low.stl";
    var s := stem + suffix;
    assert 'h' !in suffix[1..5];
    forall k: nat ensures !OccursAt(s, "_hole", k) {
      if k + 5 <= |s| && k < |stem| {
        assert s[k..k + 5][0] == stem[k];
      } else if k + 5 <= |s| {
        var j := k - |stem|;
        assert s[k..k + 5][1] == suffix[j + 1] == suffix[1..5][j];
      }
    }
  }

  /** A solid type's name, a stem with no '_' and no 'H' followed by
      "_low.stl", contains neither "Hole" nor "_hole". */
  lemma SolidNameNoHole(stem: string)
    requires '_' !in stem && 'H' !in stem
    ensures !HasInfixFrom(stem + "_low.stl", "Hole", 0) && !HasInfixFrom(stem + "_low.stl", "_hole", 0)
  {
    assert 'H' !in stem + "_low.stl";
    FirstCharAbsent(stem + "_low.stl", "Hole");
    LowSuffixNoUnderHole(stem);
    InfixAbsent(stem + "_low.stl", "Hole", 0);
    InfixAbsent(stem + "_low.stl", "_hole", 0);
  }

  /** A name made of a prefix, sub and a suffix contains sub. */
  lemma InfixAt(prefix: string, sub: string, suffix: string)
    ensures HasInfixFrom(prefix + sub + suffix, sub, 0)
  {
    var s := prefix + sub + suffix;
    assert s[|prefix|..|prefix| + |sub|] == sub;
    InfixFound(s, sub, 0, |prefix|);
  }

  /** The cap's and the level track types' names contain neither "Hole" nor "_hole". */
  lemma {:induction false} LevelSolidNames(p: Piece)
    requires p == Cap || p == End || p == Straight || p == Corner
    ensures !HasInfixFrom(ModelName(p), "Hole", 0) && !HasInfixFrom(ModelName(p), "_hole", 0)
  {
    match p
    case Cap =>
      assert ModelName(p) == "duplo-2x2x2" + "_low.stl";
      SolidNameNoHole("duplo-2x2x2");
    case End =>
      assert ModelName(p) == "end" + "_low.stl";
      SolidNameNoHole("end");
    case Straight =>
      assert ModelName(p) == "straight" + "_low.stl";
      SolidNameNoHole("straight");
    case Corner =>
      assert ModelName(p) == "corner" + "_low.stl";
      SolidNameNoHole("corner");
  }

  /** The ramp and vertical-curve types' names contain neither "Hole" nor "_hole". */
  lemma {:induction false} SlopeSolidNames(p: Piece)
    requires p == Ramp || p == RampCorner1 || p == RampCorner2 || p == VerticalCurveStart
    ensures !HasInfixFrom(ModelName(p), "Hole", 0) && !HasInfixFrom(ModelName(p), "_hole", 0)
  {
    match p
    case Ramp =>
      assert ModelName(p) == "ramp" + "_low.stl";
      SolidNameNoHole("ramp");
    case RampCorner1 =>
      assert ModelName(p) == "rampCorner1" + "_low.stl";
      SolidNameNoHole("rampCorner1");
    case RampCorner2 =>
      assert ModelName(p) == "rampCorner2" + "_low.stl";
      SolidNameNoHole("rampCorner2");
    case VerticalCurveStart =>
      assert ModelName(p) == "verticalCurveStart" + "_low.stl";
      SolidNameNoHole("verticalCurveStart");
  }

  /** The level hole types' names contain "_hole". */
  lemma {:induction false} LevelHoleNames(p: Piece)
    requires p == StraightHole || p == CornerHole
    ensures HasInfixFrom(ModelName(p), "Hole", 0) || HasInfixFrom(ModelName(p), "_hole", 0)
  {
    match p
    case StraightHole =>
      assert ModelName(p) == "straight" + "_hole" + "_low.stl";
      InfixAt("straight", "_hole", "_low.stl");
    case CornerHole =>
      assert ModelName(p) == "corner" + "_hole" + "_low.stl";
      InfixAt("corner", "_hole", "_low.stl");
  }

  /** The vertical hole types' names contain "Hole" or "_hole". */
  lemma {:induction false} VerticalHoleNames(p: Piece)
    requires p == VerticalHole || p == VerticalCurveStartHole || p == VerticalCurveEndHole
    ensures HasInfixFrom(ModelName(p), "Hole", 0) || HasInfixFrom(ModelName(p), "_hole", 0)
  {
    match p
    case VerticalHole =>
      assert ModelName(p) == "vertical" + "Hole" + "_low.stl";
      InfixAt("vertical", "Hole", "_low.stl");
    case VerticalCurveStartHole =>
      assert ModelName(p) == "verticalCurveStart" + "_hole" + "_low.stl";
      InfixAt("verticalCurveStart", "_hole", "_low.stl");
    case VerticalCurveEndHole =>
      assert ModelName(p) == "verticalCurveEnd" + "_hole" + "_low.stl";
      InfixAt("verticalCurveEnd", "_hole", "_low.stl");
  }

  /** The ramp hole types' names contain "_hole". */
  lemma {:induction false} RampHoleNames(p: Piece)
    requires p == RampHole || p == RampCorner1Hole || p == RampCorner2Hole
    ensures HasInfixFrom(ModelName(p), "Hole", 0) || HasInfixFrom(ModelName(p), "_hole", 0)
  {
    match p
    case RampHole =>
      assert ModelName(p) == "ramp" + "_hole" + "_low.stl";
      InfixAt("ramp", "_hole", "_low.stl");
    case RampCorner1Hole =>
      assert ModelName(p) == "rampCorner1" + "_hole" + "_low.stl";
      InfixAt("rampCorner1", "_hole", "_low.stl");
    case RampCorner2Hole =>
      assert ModelName(p) == "rampCorner2" + "_hole" + "_low.stl";
      InfixAt("rampCorner2", "_hole", "_low.stl");
  }

  /** The hole test reads the model name: a type is a hole exactly when its
      name contains "Hole" or "_hole". */
  lemma HoleByName(p: Piece)
    ensures IsHolePiece(p) <==> HasInfixFrom(ModelName(p), "Hole", 0) || HasInfixFrom(ModelName(p), "_hole", 0)
  {
    match p
    case Cap | End | Straight | Corner => LevelSolidNames(p);
    case Ramp | RampCorner1 | RampCorner2 | VerticalCurveStart => SlopeSolidNames(p);
    case RampHole | RampCorner1Hole | RampCorner2Hole => RampHoleNames(p);
    case StraightHole | CornerHole => LevelHoleNames(p);
    case VerticalHole | VerticalCurveStartHole | VerticalCurveEndHole => VerticalHoleNames(p);
  }

  /** The table only maps solid types, and only to hole types; every solid
      type except the cap has an entry. */
  lemma ToHoleSolidToHole(p: Piece)
    ensures ToHole(p).Some? ==> !IsHolePiece(p) && IsHolePiece(ToHole(p).value)
    ensures !IsHolePiece(p) && p != Cap ==> ToHole(p).Some?
  {
  }
}
