/**
 * Lines of a track: their value semantics (equality ignores the extension ratio,
 * ordering looks only at the id), the two-flag `LineBuilder` state machine and the
 * per-end hitbox extensions.
 */
module Lines {
  import opened Wrappers
  import opened Geometry

  /** The engine's `i64` line ids and `u64` acceleration amounts. */
  type I64 = x: int | -0x8000_0000_0000_0000 <= x < 0x8000_0000_0000_0000
  type U64 = x: int | 0 <= x < 0x1_0000_0000_0000_0000

  /** The kind of a line; `Normal` is the default kind. */
  datatype LineType = Normal | Accelerate(amount: U64) | Scenery

  /** One end of a line; `extended` switches on the hitbox extension past that end. */
  datatype LinePoint = LinePoint(location: Vec2, extended: bool)

  const DefaultLinePoint := LinePoint(Zero, false)

  /** The extension ratio every fresh line starts with. */
  const DefaultExtensionRatio: real := 0.25

  datatype Line = Line(
    id: I64,
    ends: (LinePoint, LinePoint),
    lineType: LineType,
    flipped: bool,
    extensionRatio: real)

  /** `Line::default()`: id 0, both ends unextended at the origin, a normal line, not flipped. */
  function DefaultLine(): (l: Line)
    ensures l.id == 0 && l.lineType == Normal && !l.flipped
    ensures l.ends.0 == l.ends.1 && l.ends.0.location == Zero && !l.ends.0.extended
    ensures l.extensionRatio == DefaultExtensionRatio
  {
    Line(0, (DefaultLinePoint, DefaultLinePoint), Normal, false, DefaultExtensionRatio)
  }

  // ---------------------------------------------------------------------------
  // Equality and ordering
  // ---------------------------------------------------------------------------

  /**
   * The engine's `==` on lines: every field except the extension ratio. Two lines are
   * equal exactly when they become identical once their extension ratios agree.
   */
  predicate LineEq(a: Line, b: Line): (r: bool)
    ensures r <==> a.(extensionRatio := b.extensionRatio) == b
  {
    a.id == b.id && a.ends == b.ends && a.lineType == b.lineType && a.flipped == b.flipped
  }

  /** `LineEq` is an equivalence relation, as the engine's `Eq` implementation claims. */
  lemma LineEqIsEquivalence(a: Line, b: Line, c: Line)
    ensures LineEq(a, a)
    ensures LineEq(a, b) ==> LineEq(b, a)
    ensures LineEq(a, b) && LineEq(b, c) ==> LineEq(a, c)
  {
  }

  datatype Ordering = Less | Equal | Greater

  /** `Ord::cmp` on lines: only the ids are compared. */
  function Cmp(a: Line, b: Line): (o: Ordering)
    ensures o == Less <==> a.id < b.id
    ensures o == Equal <==> a.id == b.id
    ensures o == Greater <==> a.id > b.id
  {
    if a.id < b.id then Less else if a.id == b.id then Equal else Greater
  }

  /** `PartialOrd::partial_cmp` on lines never fails and agrees with `Cmp`. */
  function PartialCmp(a: Line, b: Line): (o: Option<Ordering>)
    ensures o.Some? && o.value == Cmp(a, b)
  {
    Some(if a.id < b.id then Less else if a.id == b.id then Equal else Greater)
  }

  /** The ordering is a total order on ids: reversing the arguments reverses the answer, and it is transitive. */
  lemma CmpIsTotalOrder(a: Line, b: Line, c: Line)
    ensures Cmp(a, b) == Less <==> Cmp(b, a) == Greater
    ensures Cmp(a, b) == Equal <==> Cmp(b, a) == Equal
    ensures Cmp(a, b) == Less && Cmp(b, c) == Less ==> Cmp(a, c) == Less
  {
  }

  /** Equal lines always compare `Equal`. */
  lemma EqualLinesCompareEqual(a: Line, b: Line)
    requires LineEq(a, b)
    ensures Cmp(a, b) == Equal
  {
  }

  /** The converse fails: two lines sharing an id compare `Equal` but need not be equal. */
  lemma CompareEqualDoesNotMeanEqual()
    ensures exists a: Line, b: Line :: Cmp(a, b) == Equal && !LineEq(a, b)
  {
    var a := DefaultLine();
    var b := DefaultLine().(flipped := true);
    assert Cmp(a, b) == Equal && !LineEq(a, b);
  }

  // ---------------------------------------------------------------------------
  // The builder
  // ---------------------------------------------------------------------------

  /** Every field of a line except its two ends. */
  predicate SameAttributes(a: Line, b: Line) {
    a.id == b.id && a.lineType == b.lineType && a.flipped == b.flipped
    && a.extensionRatio == b.extensionRatio
  }

  /**
   * `LineBuilder`: a line under construction and two flags recording whether the
   * first and the second end have been located.
   */
  datatype LineBuilder = LineBuilder(firstLocationInit: bool, secondLocationInit: bool, line: Line) {

    /** The reachable flag states: the second end is never located before the first. */
    predicate Valid() {
      secondLocationInit ==> firstLocationInit
    }

    function SetId(id: I64): (b: LineBuilder)
      ensures b.line.id == id
      ensures b.line.ends == line.ends && b.line.lineType == line.lineType
      ensures b.line.flipped == line.flipped && b.line.extensionRatio == line.extensionRatio
      ensures b.firstLocationInit == firstLocationInit && b.secondLocationInit == secondLocationInit
    {
      this.(line := line.(id := id))
    }

    function SetExtensionRatio(extensionRatio: real): (b: LineBuilder)
      ensures b.line.extensionRatio == extensionRatio
      ensures b.line.id == line.id && b.line.ends == line.ends
      ensures b.line.lineType == line.lineType && b.line.flipped == line.flipped
      ensures b.firstLocationInit == firstLocationInit && b.secondLocationInit == secondLocationInit
    {
      this.(line := line.(extensionRatio := extensionRatio))
    }

    function SetLineType(lineType: LineType): (b: LineBuilder)
      ensures b.line.lineType == lineType
      ensures b.line.id == line.id && b.line.ends == line.ends
      ensures b.line.flipped == line.flipped && b.line.extensionRatio == line.extensionRatio
      ensures b.firstLocationInit == firstLocationInit && b.secondLocationInit == secondLocationInit
    {
      this.(line := line.(lineType := lineType))
    }

    function SetFlipped(flipped: bool): (b: LineBuilder)
      ensures b.line.flipped == flipped
      ensures b.line.id == line.id && b.line.ends == line.ends
      ensures b.line.lineType == line.lineType && b.line.extensionRatio == line.extensionRatio
      ensures b.firstLocationInit == firstLocationInit && b.secondLocationInit == secondLocationInit
    {
      this.(line := line.(flipped := flipped))
    }

    /**
     * `point_vec`: the first call locates the first end, every later call (re)locates
     * the second end. Extended flags and every other field stay as they were.
     */
    function PointVec(p: Vec2): (b: LineBuilder)
      ensures b.firstLocationInit && b.Valid()
      ensures !firstLocationInit ==>
        b.line.ends.0 == line.ends.0.(location := p) && b.line.ends.1 == line.ends.1
        && b.secondLocationInit == secondLocationInit
      ensures firstLocationInit ==>
        b.line.ends.1 == line.ends.1.(location := p) && b.line.ends.0 == line.ends.0
        && b.secondLocationInit
      ensures SameAttributes(b.line, line)
    {
      if !firstLocationInit then
        this.(line := line.(ends := (line.ends.0.(location := p), line.ends.1)), firstLocationInit := true)
      else
        this.(line := line.(ends := (line.ends.0, line.ends.1.(location := p))), secondLocationInit := true)
    }

    /** `point`: the same as `point_vec` on the vector `(x, y)`. */
    function Point(x: real, y: real): (b: LineBuilder)
      ensures b == PointVec(Vec2(x, y))
    {
      PointVec(Vec2(x, y))
    }

    /**
     * `extended`: sets the extended flag of the end located last. Calling it before any
     * end is located is fatal in the engine; here it is a precondition.
     */
    function Extended(extended: bool): (b: LineBuilder)
      requires firstLocationInit
      ensures !secondLocationInit ==>
        b.line.ends.0 == line.ends.0.(extended := extended) && b.line.ends.1 == line.ends.1
      ensures secondLocationInit ==>
        b.line.ends.1 == line.ends.1.(extended := extended) && b.line.ends.0 == line.ends.0
      ensures b.firstLocationInit == firstLocationInit && b.secondLocationInit == secondLocationInit
      ensures SameAttributes(b.line, line)
    {
      if !secondLocationInit then
        this.(line := line.(ends := (line.ends.0.(extended := extended), line.ends.1)))
      else
        this.(line := line.(ends := (line.ends.0, line.ends.1.(extended := extended))))
    }

    /** `build`: the line as it stands, whether or not either end was located. */
    function Build(): (l: Line)
      ensures l == line
    {
      line
    }
  }

  /** `Line::builder()`: a default line with neither end located. */
  function Builder(): (b: LineBuilder)
    ensures b.Valid() && !b.firstLocationInit && !b.secondLocationInit
    ensures b.line.id == 0 && b.line.lineType == Normal && !b.line.flipped
    ensures b.line.ends == (LinePoint(Zero, false), LinePoint(Zero, false))
    ensures b.line.extensionRatio == 0.25
  {
    LineBuilder(false, false, DefaultLine())
  }

  /** Building without calling any setter yields the default line. */
  lemma BuildWithoutSetters()
    ensures Builder().Build() == DefaultLine()
  {
  }

  /** The builder after `point_vec` has been called once for each vector of `ps`, in order. */
  function PlacePoints(b: LineBuilder, ps: seq<Vec2>): (r: LineBuilder)
    ensures |ps| >= 1 ==> r.firstLocationInit
    ensures b.Valid() ==> r.Valid()
    ensures SameAttributes(r.line, b.line)
    decreases |ps|
  {
    if ps == [] then b else PlacePoints(b.PointVec(ps[0]), ps[1..])
  }

  /**
   * Once the first end is located, any further run of points only moves the second
   * end, and the last point of the run wins.
   */
  lemma {:induction false} LaterPointsMoveSecondEnd(b: LineBuilder, ps: seq<Vec2>)
    requires b.firstLocationInit && |ps| >= 1
    ensures var r := PlacePoints(b, ps);
      r.firstLocationInit && r.secondLocationInit
      && r.line.ends.0 == b.line.ends.0
      && r.line.ends.1 == b.line.ends.1.(location := ps[|ps| - 1])
      && SameAttributes(r.line, b.line)
    decreases |ps|
  {
    if |ps| > 1 {
      LaterPointsMoveSecondEnd(b.PointVec(ps[0]), ps[1..]);
    }
  }

  /**
   * Starting from a fresh builder, the first point locates the first end and the
   * last of any later points locates the second end.
   */
  lemma PointsFillEnds(ps: seq<Vec2>)
    requires |ps| >= 1
    ensures var r := PlacePoints(Builder(), ps);
      r.Valid() && r.firstLocationInit
      && r.line.ends.0 == LinePoint(ps[0], false)
      && (r.secondLocationInit <==> |ps| >= 2)
      && r.line.ends.1 == (if |ps| >= 2 then LinePoint(ps[|ps| - 1], false) else DefaultLinePoint)
      && SameAttributes(r.line, DefaultLine())
  {
    var b1 := Builder().PointVec(ps[0]);
    assert PlacePoints(Builder(), ps) == PlacePoints(b1, ps[1..]);
    if |ps| >= 2 {
      LaterPointsMoveSecondEnd(b1, ps[1..]);
    }
  }

  /**
   * `extended` after exactly one point marks the first end; after two or more it
   * marks the second. Locations are untouched.
   */
  lemma ExtendedMarksLastLocatedEnd(ps: seq<Vec2>, ext: bool)
    requires |ps| >= 1
    ensures var l := PlacePoints(Builder(), ps).Extended(ext).Build();
      l.ends.0.location == ps[0]
      && (|ps| == 1 ==> l.ends.0.extended == ext && !l.ends.1.extended)
      && (|ps| >= 2 ==> !l.ends.0.extended && l.ends.1.extended == ext && l.ends.1.location == ps[|ps| - 1])
  {
    PointsFillEnds(ps);
  }

  // ---------------------------------------------------------------------------
  // Hitbox extensions
  // ---------------------------------------------------------------------------

  /** `f64::clamp(x, 0.0, 10.0)`. */
  function ClampExtension(x: real): (c: real)
    ensures 0.0 <= c <= 10.0
    ensures 0.0 <= x <= 10.0 ==> c == x
    ensures x < 0.0 ==> c == 0.0
    ensures x > 10.0 ==> c == 10.0
  {
    if x < 0.0 then 0.0 else if x > 10.0 then 10.0 else x
  }

  /**
   * `hitbox_extensions`: how far the collision span reaches past each end. `length`
   * stands for the line's length, whose floating-point computation is not modelled.
   */
  function HitboxExtensions(line: Line, length: real): (r: (real, real))
    ensures !line.ends.0.extended ==> r.0 == 0.0
    ensures !line.ends.1.extended ==> r.1 == 0.0
    ensures line.ends.0.extended ==> r.0 == ClampExtension(length * line.extensionRatio)
    ensures line.ends.1.extended ==> r.1 == ClampExtension(length * line.extensionRatio)
    ensures 0.0 <= r.0 <= 10.0 && 0.0 <= r.1 <= 10.0
    ensures line.ends.0.extended && line.ends.1.extended ==> r.0 == r.1
  {
    var clampedLen := ClampExtension(length * line.extensionRatio);
    var left := if line.ends.0.extended then clampedLen else 0.0;
    var right := if line.ends.1.extended then clampedLen else 0.0;
    (left, right)
  }

}
