/** Proposed shapes are clamped into the box of their part
    (backend/agents/mech_primitive_pool.py). Numbers are reals, the two infinities and NaN, with
    Python's comparisons; rounding to hundredths is any function that is monotone, moves a
    number by half a hundredth at most and gives hundredths. */
module Primitives {
  import opened Basics

  const MIN_SIZE: real := 0.5
  const MAX_PRIMITIVES: nat := 4

  // ----- numbers as a model's answer may hold them -----

  datatype Number = Fin(value: real) | Inf(positive: bool) | NaN

  /** Something that is no numeral, a number, or an integer too large for a float. */
  datatype Coordinate = Unreadable | Readable(number: Number) | TooLarge

  /** a < b; nothing is less than NaN, nor greater. */
  predicate Less(a: Number, b: Number) {
    match (a, b)
    case (Fin(x), Fin(y)) => x < y
    case (Fin(_), Inf(p)) => p
    case (Inf(p), Fin(_)) => !p
    case (Inf(p), Inf(q)) => !p && q
    case _ => false
  }

  /** max(a, b) and min(a, b), which keep a unless b is better. */
  function Max(a: Number, b: Number): Number { if Less(a, b) then b else a }

  function Min(a: Number, b: Number): Number { if Less(b, a) then b else a }

  function Minus(x: real, n: Number): Number {
    match n case Fin(y) => Fin(x - y) case Inf(p) => Inf(!p) case NaN => NaN
  }

  /** _as_float: 0 for what cannot be read; None stands for the OverflowError, which is not caught. */
  function AsFloat(c: Coordinate): Option<Number> {
    match c case Unreadable => Some(Fin(0.0)) case Readable(n) => Some(n) case TooLarge => None
  }

  // ----- one axis -----

  datatype Extent = Extent(offset: Number, size: Number)

  /** A part is at least as long as the least size. */
  function Length(bound: real): real {
    if bound >= MIN_SIZE then bound else MIN_SIZE
  }

  /** One axis of _clamp_primitive, before rounding. */
  function Clamped(offset: Number, size: Number, bound: real): Extent {
    var b := Length(bound);
    var o := Min(Max(offset, Fin(0.0)), Fin(b - MIN_SIZE));
    Extent(o, Min(Max(size, Fin(MIN_SIZE)), Max(Minus(b, o), Fin(MIN_SIZE))))
  }

  predicate Within(e: Extent, length: real) {
    && e.offset.Fin? && e.size.Fin?
    && e.offset.value >= 0.0 && e.size.value >= MIN_SIZE && e.offset.value + e.size.value <= length
  }

  predicate Fits(e: Extent, bound: real) {
    Within(e, Length(bound))
  }

  /** The clamp gives an extent that fits exactly if it is given no NaN, and then it leaves an
      extent alone exactly if that fits already. */
  lemma ClampFits(offset: Number, size: Number, bound: real)
    ensures Fits(Clamped(offset, size, bound), bound) <==> !offset.NaN? && !size.NaN?
    ensures !offset.NaN? && !size.NaN? ==>
      (Clamped(offset, size, bound) == Extent(offset, size) <==> Fits(Extent(offset, size), bound))
  {
  }

  /** An offset that is NaN stays so, and takes the limit off the size. */
  lemma NaNLiftsTheLimit(size: real, bound: real)
    requires size >= MIN_SIZE
    ensures Clamped(NaN, Fin(size), bound) == Extent(NaN, Fin(size))
  {
  }

  // ----- rounding -----

  function Hundredths(n: int): real {
    n as real / 100.0
  }

  ghost predicate IsHundredth(x: real) {
    exists n: int :: x == Hundredths(n)
  }

  /** round(x, 2): monotone, at most half a hundredth off, a hundredth, and exact on hundredths. */
  ghost predicate IsRounding(round: real -> real) {
    && (forall x, y :: x <= y ==> round(x) <= round(y))
    && (forall x :: -0.005 <= round(x) - x <= 0.005 && IsHundredth(round(x)))
    && (forall n: int :: round(Hundredths(n)) == Hundredths(n))
  }

  /** NaN and the infinities stay. */
  function RoundedNumber(n: Number, round: real -> real): Number {
    if n.Fin? then Fin(round(n.value)) else n
  }

  function Rounded(e: Extent, round: real -> real): Extent {
    Extent(RoundedNumber(e.offset, round), RoundedNumber(e.size, round))
  }

  /** Both ends are moved up by half a hundredth, and the extent filled its box. */
  predicate TiesUp(e: Extent, bound: real, round: real -> real)
    requires e.offset.Fin? && e.size.Fin?
  {
    var o, s := e.offset.value, e.size.value;
    o + s == Length(bound) && round(o) == o + 0.005 && round(s) == s + 0.005
  }

  /** The whole hundredths of a length. */
  function Whole(x: real): real {
    Hundredths((100.0 * x).Floor)
  }

  /** The size is less than half a hundredth more than the whole hundredths the rounded offset
      leaves of the box, or just as much and a tie rounded down. */
  predicate LeavesRoom(e: Extent, bound: real, round: real -> real)
    requires e.offset.Fin? && e.size.Fin?
  {
    var left, s := Whole(Length(bound)) - round(e.offset.value), e.size.value;
    s < left + 0.005 || (s == left + 0.005 && round(s) == left)
  }

  lemma RoundedNearly(e: Extent, bound: real, round: real -> real)
    requires IsRounding(round) && Fits(e, bound)
    ensures Within(Rounded(e, round), Length(bound) + 0.01)
  {
    var o, s := e.offset.value, e.size.value;
    assert round(Hundredths(0)) == 0.0;
    assert round(Hundredths(50)) == 0.5;
    assert round(0.0) <= round(o) && round(0.5) <= round(s);
  }

  /** Rounding can push an extent out of its box by a hundredth at most, and nowhere else. It does
      so exactly if there is no room for the size; in a box that is a number of hundredths long,
      exactly if both numbers are ties. */
  lemma RoundedFits(e: Extent, bound: real, round: real -> real)
    requires IsRounding(round) && Fits(e, bound)
    ensures Within(Rounded(e, round), Length(bound) + 0.01)
    ensures Fits(Rounded(e, round), bound) <==> LeavesRoom(e, bound, round)
    ensures IsHundredth(Length(bound)) ==> (Fits(Rounded(e, round), bound) <==> !TiesUp(e, bound, round))
  {
    var o, s := e.offset.value, e.size.value;
    RoundedNearly(e, bound, round);
    SumsOfHundredths(o, s, Length(bound), round);
    if IsHundredth(Length(bound)) { WholeOfHundredth(Length(bound)); }
  }

  lemma WholeOfHundredth(x: real)
    requires IsHundredth(x)
    ensures Whole(x) == x
  {
    var n :| x == Hundredths(n);
    assert (100.0 * x).Floor == n;
  }

  lemma SumsOfHundredths(o: real, s: real, length: real, round: real -> real)
    requires IsRounding(round)
    ensures Whole(length) <= length < Whole(length) + 0.01
    ensures round(o) + round(s) <= length <==> round(o) + round(s) <= Whole(length)
    ensures round(o) + round(s) > Whole(length) ==> round(o) + round(s) >= Whole(length) + 0.01
    ensures var left := Whole(length) - round(o);
      round(s) <= left <==> s < left + 0.005 || (s == left + 0.005 && round(s) == left)
  {
    var i :| round(o) == Hundredths(i);
    var j :| round(s) == Hundredths(j);
    var n := (100.0 * length).Floor;
    assert i + j > n ==> i + j >= n + 1;
    assert round(o) + round(s) == Hundredths(i + j);
    assert Whole(length) - round(o) == Hundredths(n - i);
  }

  /** Every box that is no number of hundredths long, but for the very shortest ones, holds an
      extent that rounding pushes out of it. */
  lemma RoundingOvershoots(bound: real, round: real -> real) returns (e: Extent)
    requires IsRounding(round) && !IsHundredth(Length(bound)) && Length(bound) > 0.505
    ensures Fits(e, bound) && !Fits(Rounded(e, round), bound)
  {
    var n := (100.0 * Length(bound)).Floor;
    var over := Length(bound) - Hundredths(n);
    assert Length(bound) != Hundredths(n);
    if n == 50 {
      e := Extent(Fin(over), Fin(0.5));
      RoundsTo(over, 1, round);
      RoundsTo(0.5, 50, round);
    } else {
      e := Extent(Fin(0.005 + over / 4.0), Fin(Hundredths(n) - 0.005 + over / 4.0));
      RoundsTo(0.005 + over / 4.0, 1, round);
      RoundsTo(Hundredths(n) - 0.005 + over / 4.0, n, round);
    }
  }

  lemma RoundsTo(x: real, n: int, round: real -> real)
    requires IsRounding(round) && -0.005 < x - Hundredths(n) < 0.005
    ensures round(x) == Hundredths(n)
  {
    var i :| round(x) == Hundredths(i);
    assert -0.01 < Hundredths(i - n) < 0.01;
  }

  /** The very shortest boxes hold none. */
  lemma ShortBoxesKeep(e: Extent, bound: real, round: real -> real)
    requires IsRounding(round) && Length(bound) < 0.505 && Fits(e, bound)
    ensures Fits(Rounded(e, round), bound)
  {
    RoundsTo(e.offset.value, 0, round);
    RoundsTo(e.size.value, 50, round);
  }

  // ----- whole primitives -----

  datatype Vec = Vec(x: real, y: real, z: real)

  datatype Loose = Loose(x: Coordinate, y: Coordinate, z: Coordinate)

  datatype Turn = Turn(x: Number, y: Number, z: Number)

  const VALID_SHAPES: set<string> := {"box", "cylinder", "cone"}
  const VALID_COLOR_ROLES: set<string> := {"primary", "accent"}

  /** A name as proposed: text, nothing or a number, or a list or an object. Python can look the
      first two up in a set, and raises a TypeError for the third, which has no hash. */
  datatype Label = Text(text: string) | Scalar | Collection

  /** As proposed: each of the first three may be missing altogether. */
  datatype Raw = Raw(offset: Option<Loose>, size: Option<Loose>, rotation: Option<Loose>,
                     shape: Label, colorRole: Label)

  datatype Primitive = Primitive(x: Extent, y: Extent, z: Extent, rotation: Turn, shape: string, colorRole: string)

  function Chosen(l: Label, valid: set<string>, default: string): (name: string)
    requires !l.Collection? && default in valid
    ensures name in valid && (l.Text? && l.text in valid ==> name == l.text)
  {
    if l.Text? && l.text in valid then l.text else default
  }

  predicate Overflows(v: Loose) {
    v.x.TooLarge? || v.y.TooLarge? || v.z.TooLarge?
  }

  /** A proposal with offset and size, and with a number that is too large, or a list or an object
      for its shape or its colour role. */
  predicate Raises(raw: Raw) {
    && raw.offset.Some? && raw.size.Some?
    && (Overflows(raw.offset.value) || Overflows(raw.size.value)
        || (raw.rotation.Some? && Overflows(raw.rotation.value))
        || raw.shape.Collection? || raw.colorRole.Collection?)
  }

  predicate HasNaN(v: Loose) {
    v.x == Readable(NaN) || v.y == Readable(NaN) || v.z == Readable(NaN)
  }

  predicate Numeric(raw: Raw) {
    raw.offset.Some? && raw.size.Some? ==> !HasNaN(raw.offset.value) && !HasNaN(raw.size.value)
  }

  function Axis(offset: Coordinate, size: Coordinate, bound: real, round: real -> real): Extent
    requires !offset.TooLarge? && !size.TooLarge?
  {
    Rounded(Clamped(AsFloat(offset).value, AsFloat(size).value, bound), round)
  }

  /** _clamp_primitive; None for a proposal without offset or size. */
  function ClampPrimitive(raw: Raw, box: Vec, round: real -> real): Option<Primitive>
    requires !Raises(raw)
  {
    if raw.offset.None? || raw.size.None? then None
    else
      var o, s := raw.offset.value, raw.size.value;
      var turn := if raw.rotation.None? then Turn(Fin(0.0), Fin(0.0), Fin(0.0))
                  else var t := raw.rotation.value; Turn(AsFloat(t.x).value, AsFloat(t.y).value, AsFloat(t.z).value);
      Some(Primitive(Axis(o.x, s.x, box.x, round), Axis(o.y, s.y, box.y, round), Axis(o.z, s.z, box.z, round), turn,
                     Chosen(raw.shape, VALID_SHAPES, "box"), Chosen(raw.colorRole, VALID_COLOR_ROLES, "primary")))
  }

  /** Inside the box but for a hundredth of rounding. */
  predicate InBox(p: Primitive, box: Vec) {
    && Within(p.x, Length(box.x) + 0.01) && Within(p.y, Length(box.y) + 0.01) && Within(p.z, Length(box.z) + 0.01)
  }

  lemma AxisInBox(offset: Coordinate, size: Coordinate, bound: real, round: real -> real)
    requires IsRounding(round) && !offset.TooLarge? && !size.TooLarge?
    ensures Within(Axis(offset, size, bound, round), Length(bound) + 0.01)
       <==> offset != Readable(NaN) && size != Readable(NaN)
  {
    var o, s := AsFloat(offset).value, AsFloat(size).value;
    ClampFits(o, s, bound);
    if !o.NaN? && !s.NaN? { RoundedNearly(Clamped(o, s, bound), bound, round); }
  }

  /** What becomes of a proposal is in the box exactly if none of its six numbers is NaN. */
  lemma ClampedInBox(raw: Raw, box: Vec, round: real -> real)
    requires IsRounding(round) && !Raises(raw) && ClampPrimitive(raw, box, round).Some?
    ensures InBox(ClampPrimitive(raw, box, round).value, box) <==> Numeric(raw)
  {
    var o, s := raw.offset.value, raw.size.value;
    AxisInBox(o.x, s.x, box.x, round);
    AxisInBox(o.y, s.y, box.y, round);
    AxisInBox(o.z, s.z, box.z, round);
  }

  predicate NoneRaises(raws: seq<Raw>) {
    forall k :: 0 <= k < |raws| ==> !Raises(raws[k])
  }

  /** The usable ones among some proposals, in order. */
  function Usable(raws: seq<Raw>, box: Vec, round: real -> real): (ps: seq<Primitive>)
    requires NoneRaises(raws)
    ensures forall k :: 0 <= k < |ps| ==> ps[k].shape in VALID_SHAPES && ps[k].colorRole in VALID_COLOR_ROLES
  {
    if raws == [] then []
    else
      var before := Usable(raws[..|raws| - 1], box, round);
      match ClampPrimitive(raws[|raws| - 1], box, round) case None => before case Some(p) => before + [p]
  }

  lemma UsableMore(raws: seq<Raw>, r: Raw, box: Vec, round: real -> real)
    requires NoneRaises(raws) && !Raises(r)
    ensures NoneRaises(raws + [r])
    ensures Usable(raws + [r], box, round)
         == match ClampPrimitive(r, box, round)
            case None => Usable(raws, box, round)
            case Some(p) => Usable(raws, box, round) + [p]
  {
    assert (raws + [r])[..|raws|] == raws;
  }

  predicate AllInBox(ps: seq<Primitive>, box: Vec) {
    forall k :: 0 <= k < |ps| ==> InBox(ps[k], box)
  }

  predicate AllNumeric(raws: seq<Raw>) {
    forall k :: 0 <= k < |raws| ==> Numeric(raws[k])
  }

  lemma AllMore(ps: seq<Primitive>, p: Primitive, raws: seq<Raw>, r: Raw, box: Vec)
    ensures AllInBox(ps + [p], box) <==> AllInBox(ps, box) && InBox(p, box)
    ensures AllNumeric(raws + [r]) <==> AllNumeric(raws) && Numeric(r)
  {
    assert forall k :: 0 <= k < |ps| ==> (ps + [p])[k] == ps[k];
    assert (ps + [p])[|ps|] == p;
    assert forall k :: 0 <= k < |raws| ==> (raws + [r])[k] == raws[k];
    assert (raws + [r])[|raws|] == r;
  }

  lemma {:induction false} UsableInBox(raws: seq<Raw>, box: Vec, round: real -> real)
    requires IsRounding(round) && NoneRaises(raws)
    ensures |Usable(raws, box, round)| <= |raws|
    ensures AllInBox(Usable(raws, box, round), box) <==> AllNumeric(raws)
  {
    if raws != [] {
      var before, last := raws[..|raws| - 1], raws[|raws| - 1];
      InitLast(raws);
      UsableInBox(before, box, round);
      UsableMore(before, last, box, round);
      var p := ClampPrimitive(last, box, round);
      if p.Some? { ClampedInBox(last, box, round); }
      var any := Primitive(Extent(NaN, NaN), Extent(NaN, NaN), Extent(NaN, NaN), Turn(NaN, NaN, NaN), "", "");
      AllMore(Usable(before, box, round), if p.Some? then p.value else any, before, last, box);
    }
  }

  function FirstFew(raws: seq<Raw>): (r: seq<Raw>)
    ensures |r| <= MAX_PRIMITIVES
  {
    raws[..if |raws| < MAX_PRIMITIVES then |raws| else MAX_PRIMITIVES]
  }

  /** _parse_primitives, from the decoded answer on (None when it holds no list); template is what
      the box template gives, and None stands for the exception it lets through. */
  method ParsePrimitives(raws: Option<seq<Raw>>, template: Primitive, box: Vec, round: real -> real)
    returns (ps: Option<seq<Primitive>>)
    requires IsRounding(round)
    ensures ps == None <==> raws.Some? && !NoneRaises(FirstFew(raws.value))
    ensures raws == None ==> ps == Some([template])
    ensures raws.Some? && ps.Some? ==>
      var usable := Usable(FirstFew(raws.value), box, round);
      ps.value == if usable == [] then [template] else usable
    ensures ps.Some? ==> 1 <= |ps.value| <= MAX_PRIMITIVES
    ensures raws.Some? && ps.Some? ==>
      ps.value == [template] || (AllInBox(ps.value, box) <==> AllNumeric(FirstFew(raws.value)))
  {
    if raws == None || raws.value == [] { return Some([template]); }
    var clamped := ClampAll(FirstFew(raws.value), box, round);
    if clamped == None { return None; }
    UsableInBox(FirstFew(raws.value), box, round);
    ps := Some(if clamped.value == [] then [template] else clamped.value);
  }

  /** Its loop. */
  method ClampAll(raws: seq<Raw>, box: Vec, round: real -> real) returns (ps: Option<seq<Primitive>>)
    ensures ps == if NoneRaises(raws) then Some(Usable(raws, box, round)) else None
  {
    var clamped: seq<Primitive> := [];
    for i := 0 to |raws|
      invariant NoneRaises(raws[..i]) && clamped == Usable(raws[..i], box, round)
    {
      if Raises(raws[i]) { return None; }
      assert raws[..i + 1] == raws[..i] + [raws[i]];
      UsableMore(raws[..i], raws[i], box, round);
      var p := ClampPrimitive(raws[i], box, round);
      if p.Some? { clamped := clamped + [p.value]; }
    }
    assert raws[..|raws|] == raws;
    ps := Some(clamped);
  }

  /** `{"offset": {}, "size": {}, "shape": ["box"]}` holds no number at all, and raises. */
  lemma ListedShapeRaises(rest: seq<Raw>)
    ensures var nothing := Loose(Unreadable, Unreadable, Unreadable);
      var raw := Raw(Some(nothing), Some(nothing), None, Collection, Scalar);
      Raises(raw) && !NoneRaises(FirstFew([raw] + rest))
  {
    var nothing := Loose(Unreadable, Unreadable, Unreadable);
    var raw := Raw(Some(nothing), Some(nothing), None, Collection, Scalar);
    assert FirstFew([raw] + rest)[0] == raw;
  }
}
