/// When two candidate states may be paired
/// (src/mech_int_vla/causal.py: symmetry_aware_orientation_difference,
/// pair_eligibility).  Angles are in degrees, floats are reals, and the Euclidean
/// distance is a parameter; the matching distance is kept squared, which orders the
/// same way.

module PairEligibility {
  import opened Numbers

  type Id = nat

  datatype Point = Point(x: real, y: real, z: real)

  datatype Candidate = Candidate(
    id: Id, phase: nat, contact: bool, predicates: seq<(nat, bool)>, symmetry: int,
    gripper: real, eef: Point, primary: Point, time: real, orientation: real)

  // The wrapped angle is divided by the symmetry order, so it has to be positive.
  predicate WellFormed(c: Candidate) {
    c.symmetry >= 1
  }

  type Norm = (Point, Point) -> real

  ghost predicate IsDistance(norm: Norm) {
    forall p, q :: norm(p, q) == norm(q, p) && norm(p, q) >= 0.0
  }

  datatype Mode = Confirmatory | MatchedControl

  datatype Reason = SameCandidate | Symmetry | Phase | Contact | Gripper | Eef | Object | Time | Predicates | Angle

  datatype Verdict = Excluded(reasons: seq<Reason>) | Eligible(distance: real, orientation: real)

  type Judge = (Candidate, Candidate) -> Verdict

  // ---------------------------------------------------------------- angles

  // The distance of `x` degrees to the nearest whole turn.
  function Folded(x: real): real {
    var m := x - 360.0 * (x / 360.0).Floor as real;
    if m <= 180.0 then m else 360.0 - m
  }

  function Shared(angle: real, order: int): real
    requires order >= 1
  {
    angle / order as real
  }

  function Times(x: real, y: real): real {
    x * y
  }

  function OrientationDifference(left: real, right: real, order: int): real
    requires order >= 1
  {
    Shared(Folded(Times(order as real, left - right)), order)
  }

  lemma FoldedEven(x: real)
    ensures Folded(-x) == Folded(x)
  {
    var y := x / 360.0;
    assert (-x) / 360.0 == -y;
    assert (-y).Floor == -(y.Floor) || (-y).Floor == -(y.Floor) - 1;
  }

  lemma DifferenceSymmetric(left: real, right: real, order: int)
    requires order >= 1
    ensures OrientationDifference(left, right, order) == OrientationDifference(right, left, order)
  {
    hide Folded, Shared;
    var s, x := order as real, left - right;
    FoldedEven(Times(s, x));
    assert Times(s, -x) == -Times(s, x);
    assert right - left == -x;
  }

  // ---------------------------------------------------------------- the rules

  function When(condition: bool, reason: Reason): seq<Reason> {
    if condition then [reason] else []
  }

  predicate AngleExcluded(angle: real, mode: Mode) {
    match mode
    case Confirmatory => !((angle > 30.0 || Close(angle, 30.0)) && !StrictlyGreater(angle, 90.0))
    case MatchedControl => angle > 5.0 || Close(angle, 5.0)
  }

  function Reasons(norm: Norm, mode: Mode, a: Candidate, b: Candidate): seq<Reason>
    requires WellFormed(a)
  {
    When(a.symmetry != b.symmetry, Symmetry)
    + When(a.phase != b.phase, Phase)
    + When(a.contact != b.contact, Contact)
    + When(StrictlyGreater(Abs(a.gripper - b.gripper), 0.01), Gripper)
    + When(StrictlyGreater(norm(a.eef, b.eef), 0.02), Eef)
    + When(StrictlyGreater(norm(a.primary, b.primary), 0.02), Object)
    + When(StrictlyGreater(Abs(a.time - b.time), 0.1), Time)
    + When(a.predicates != b.predicates, Predicates)
    + When(a.symmetry == b.symmetry
           && AngleExcluded(OrientationDifference(a.orientation, b.orientation, a.symmetry), mode), Angle)
  }

  function Square(x: real): real {
    x * x
  }

  function MatchingDistance(norm: Norm, a: Candidate, b: Candidate): real {
    Square(Abs(a.gripper - b.gripper) / 0.01) + Square(norm(a.eef, b.eef) / 0.02)
    + Square(norm(a.primary, b.primary) / 0.02) + Square(Abs(a.time - b.time) / 0.1)
  }

  function Judged(norm: Norm, mode: Mode, a: Candidate, b: Candidate): Verdict
    requires WellFormed(a)
  {
    if a.id == b.id then Excluded([SameCandidate])
    else
      var reasons := Reasons(norm, mode, a, b);
      if reasons == []
      then Eligible(MatchingDistance(norm, a, b), OrientationDifference(a.orientation, b.orientation, a.symmetry))
      else Excluded(reasons)
  }

  // ---------------------------------------------------------------- what follows

  /// Which of the two is asked about first does not matter.
  lemma JudgedSymmetric(norm: Norm, mode: Mode, a: Candidate, b: Candidate)
    requires IsDistance(norm) && WellFormed(a) && WellFormed(b)
    ensures Judged(norm, mode, a, b) == Judged(norm, mode, b, a)
  {
    hide OrientationDifference, Close, AngleExcluded, Square;
    assert norm(a.eef, b.eef) == norm(b.eef, a.eef);
    assert norm(a.primary, b.primary) == norm(b.primary, a.primary);
    if a.symmetry == b.symmetry {
      DifferenceSymmetric(a.orientation, b.orientation, a.symmetry);
    }
  }

  predicate SameBucket(a: Candidate, b: Candidate) {
    a.phase == b.phase && a.contact == b.contact && a.predicates == b.predicates && a.symmetry == b.symmetry
  }

  lemma EligibleMeans(norm: Norm, mode: Mode, a: Candidate, b: Candidate)
    requires WellFormed(a)
    ensures Judged(norm, mode, a, b).Eligible? <==>
            && a.id != b.id && SameBucket(a, b)
            && !StrictlyGreater(Abs(a.gripper - b.gripper), 0.01)
            && !StrictlyGreater(norm(a.eef, b.eef), 0.02)
            && !StrictlyGreater(norm(a.primary, b.primary), 0.02)
            && !StrictlyGreater(Abs(a.time - b.time), 0.1)
            && !AngleExcluded(OrientationDifference(a.orientation, b.orientation, a.symmetry), mode)
  {
    hide OrientationDifference, StrictlyGreater, AngleExcluded;
  }
}
