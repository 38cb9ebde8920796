/** `GeometricFractal` in src/FractalDemo.java: the turtle interpretation of
    an expanded pattern (`execute`) and the constructor's auto-fit search,
    which measures levels 1, 2, ... until a drawing no longer fits the canvas
    and then draws the last one that did, centred. */
module Geometric {
  import opened Failures
  import opened JavaLang
  import opened Rules
  import opened Expansion
  import opened Turtles
  import opened Bounds

  /** Levels are tried while `level < 100`. */
  const LevelLimit: nat := 100

  /** The constructor's `new Turtle(4)`. */
  const TurtleScale: int := 4

  /** The pattern of a level: the root rule's value, expanded that many levels. */
  function Pattern(params: GeometricFractalInfo, level: nat): (r: Result<string>)
    ensures r.Ok? ==> AllCommands(r.value)
  {
    var root :- Root(params);
    Expand(params.rules, root.value, level)
  }

  /** A measured level: its pattern, and the box `TurtleInfo` keeps while the
      pattern is executed from a cleared turtle. */
  datatype Fit = Fit(level: nat, pattern: string, box: Box)

  /** A box as a measuring pass leaves it: `int` bounds around the origin. */
  predicate IsMeasured(b: Box)
  {
    Ordered(b) && Contains(b, 0, 0) && IsInt(b.minX) && IsInt(b.maxX) && IsInt(b.minY) && IsInt(b.maxY)
  }

  /** One iteration of the constructor's loop, up to the fit test. */
  function MeasureLevel(params: GeometricFractalInfo, step: Step, level: nat): (r: Result<Fit>)
    ensures r.Ok? ==> r.value.level == level && IsMeasured(r.value.box)
    ensures r.Ok? ==> Pattern(params, level) == Ok(r.value.pattern)
  {
    var pattern :- Pattern(params, level);
    var (_, segments) :- Run(Initial(), params.angle, TurtleScale, step, pattern);
    assert IsMeasured(BoxOf(Empty, segments)) by {
      RunDrawsIntSegments(Initial(), params.angle, TurtleScale, step, pattern);
      BoxOfIsHull(segments);
    }
    Ok(Fit(level, pattern, BoxOf(Empty, segments)))
  }

  /** The measuring of every level, as the loop performs it. */
  function Measure(params: GeometricFractalInfo, step: Step): (measure: nat -> Result<Fit>)
    ensures forall l :: measure(l) == MeasureLevel(params, step, l)
  {
    (l: nat) => MeasureLevel(params, step, l)
  }

  /** What the search relies on about measuring: the fit of a level is
      labelled with that level and has a measured box. */
  ghost predicate Measures(measure: nat -> Result<Fit>)
  {
    forall l :: measure(l).Ok? ==> measure(l).value.level == l && IsMeasured(measure(l).value.box)
  }

  /** Level `level` is measured and its drawing fits the canvas. */
  predicate FitsAt(measure: nat -> Result<Fit>, w: int, h: int, level: nat)
  {
    measure(level).Ok? && IsMeasured(measure(level).value.box) && FitsAsWritten(measure(level).value.box, w, h)
  }

  /** Level `level` is measured and its drawing does not fit: the loop stops. */
  predicate OverflowsAt(measure: nat -> Result<Fit>, w: int, h: int, level: nat)
  {
    measure(level).Ok? && IsMeasured(measure(level).value.box) && !FitsAsWritten(measure(level).value.box, w, h)
  }

  /** The loop from `level` on, with `last` the last level that fitted: it
      yields the level the drawing pass uses, if any. */
  function Search(measure: nat -> Result<Fit>, w: int, h: int, level: nat, last: Option<Fit>)
    : (r: Result<Option<Fit>>)
    requires Measures(measure)
    requires last.Some? ==> IsMeasured(last.value.box) && FitsAsWritten(last.value.box, w, h)
    ensures r.Ok? && r.value.Some? ==> IsMeasured(r.value.value.box) && FitsAsWritten(r.value.value.box, w, h)
    decreases LevelLimit - level
  {
    if level >= LevelLimit then Ok(last)
    else
      var fit :- measure(level);
      if !FitsAsWritten(fit.box, w, h) then Ok(last)
      else Search(measure, w, h, level + 1, Some(fit))
  }

  /** Where the drawing pass puts the turtle: `setX(lastInfo.getX())` and
      `setY(lastInfo.getY())` on a cleared turtle. */
  function Start(fit: Fit, w: int, h: int): (m: Machine)
    requires IsMeasured(fit.box) && IsInt(w) && IsInt(h)
    ensures WellFormed(m) && m.top == 0
    ensures m.slots[0] == TurtleState(Offset(fit.box.minX, fit.box.maxX, w) as real,
                                      Offset(fit.box.minY, fit.box.maxY, h) as real, 0.0)
  {
    Placed(Initial(), Offset(fit.box.minX, fit.box.maxX, w) as real, Offset(fit.box.minY, fit.box.maxY, h) as real).value
  }

  /** The constructor `GeometricFractal(w, h, params)`: the segments drawn on
      the image, or the exception that escapes it. After the search,
      `new TurtlePainter(w, h)` rejects a canvas side that is not positive;
      then, when no level fits, `lastInfo` is still `null` and `getX()` fails
      on it. */
  function Render(params: GeometricFractalInfo, step: Step, w: int, h: int): (r: Result<seq<Segment>>)
    requires IsInt(w) && IsInt(h)
  {
    var chosen :- Search(Measure(params, step), w, h, 1, None);
    if w <= 0 || h <= 0 then Err(IllegalArgument)
    else if chosen.None? then Err(NullReference)
    else
      var (_, segments) :- Run(Start(chosen.value, w, h), params.angle, TurtleScale, step, chosen.value.pattern);
      Ok(segments)
  }

  /** The loop from `level` on, given that every level before it fitted:
      it yields the last level that fits before the first that does not (or
      level 99), fails with the failure of the first level that fails, and
      yields nothing only when the very first level tried does not fit. */
  lemma {:induction false} SearchFindsLastFit(measure: nat -> Result<Fit>, w: int, h: int,
                                              level: nat, last: Option<Fit>)
    requires Measures(measure)
    requires 1 <= level <= LevelLimit
    requires last.None? <==> level == 1
    requires last.Some? ==> measure(level - 1) == Ok(last.value) && IsMeasured(last.value.box) && FitsAsWritten(last.value.box, w, h)
    requires forall l :: 1 <= l < level ==> FitsAt(measure, w, h, l)
    ensures var r := Search(measure, w, h, level, last);
      && (r == Ok(None) <==> level == 1 && OverflowsAt(measure, w, h, 1))
      && (r.Ok? && r.value.Some? ==>
            var fit := r.value.value;
            && 1 <= fit.level < LevelLimit
            && measure(fit.level) == Ok(fit)
            && (forall l :: 1 <= l <= fit.level ==> FitsAt(measure, w, h, l))
            && (fit.level == LevelLimit - 1 || OverflowsAt(measure, w, h, fit.level + 1)))
      && (r.Err? ==> exists l :: level <= l < LevelLimit && measure(l) == Err(r.failure)
                                 && forall j :: 1 <= j < l ==> FitsAt(measure, w, h, j))
    decreases LevelLimit - level
  {
    if level < LevelLimit {
      var m := measure(level);
      if m.Ok? && FitsAsWritten(m.value.box, w, h) {
        SearchFindsLastFit(measure, w, h, level + 1, Some(m.value));
      }
    }
  }

  /** Measuring a level fails only on an array index (the root lookup or
      the turtle) or on an unknown symbol (expansion). */
  lemma MeasureFailure(params: GeometricFractalInfo, step: Step, level: nat)
    ensures MeasureLevel(params, step, level).Err? ==>
              MeasureLevel(params, step, level).failure.ArrayIndexOutOfBounds?
              || MeasureLevel(params, step, level).failure.UnknownSymbol?
  {
    if params.rules != [] {
      UnknownSymbolFails(params.rules, params.rules[0].value, level);
      var pattern := Pattern(params, level);
      if pattern.Ok? {
        RunFailsOnIndex(Initial(), params.angle, TurtleScale, step, pattern.value);
      }
    }
  }

  /** How the constructor fails: in the painter exactly when the search
      completes on a canvas with a side that is not positive, on the `null`
      `lastInfo` exactly when the canvas is proper and level 1 already
      overflows, and otherwise only on an array index or an unknown symbol. */
  lemma RenderFailure(params: GeometricFractalInfo, step: Step, w: int, h: int)
    requires IsInt(w) && IsInt(h)
    ensures Render(params, step, w, h) == Err(IllegalArgument) <==>
              (w <= 0 || h <= 0) && Search(Measure(params, step), w, h, 1, None).Ok?
    ensures Render(params, step, w, h) == Err(NullReference) <==>
              0 < w && 0 < h && OverflowsAt(Measure(params, step), w, h, 1)
    ensures Render(params, step, w, h).Err? ==>
              || Render(params, step, w, h).failure.ArrayIndexOutOfBounds?
              || Render(params, step, w, h).failure.UnknownSymbol?
              || Render(params, step, w, h).failure.NullReference?
              || Render(params, step, w, h).failure.IllegalArgument?
  {
    var measure := Measure(params, step);
    SearchFindsLastFit(measure, w, h, 1, None);
    var r := Search(measure, w, h, 1, None);
    if r.Ok? && r.value.Some? {
      var fit := r.value.value;
      RunFailsOnIndex(Start(fit, w, h), params.angle, TurtleScale, step, fit.pattern);
    } else if r.Err? {
      var l :| 1 <= l < LevelLimit && measure(l) == Err(r.failure);
      MeasureFailure(params, step, l);
    }
  }

  /** The turtle fails only on an array index. */
  lemma {:induction false} RunFailsOnIndex(m: Machine, angle: real, scale: int, step: Step, p: string)
    requires WellFormed(m)
    ensures Run(m, angle, scale, step, p).Err? ==> Run(m, angle, scale, step, p).failure.ArrayIndexOutOfBounds?
  {
    if p != [] {
      RunFailsOnIndex(m, angle, scale, step, p[..|p| - 1]);
    }
  }

  /** The level that is drawn is drawn inside the canvas: its measured box,
      moved to the start position, lies within `[0, w) x [0, h)`, provided
      its extents are `int`s, so that `getWidth()`/`getHeight()` did not
      wrap. */
  lemma ChosenLevelInsideCanvas(params: GeometricFractalInfo, step: Step, w: int, h: int)
    requires IsInt(w) && IsInt(h) && w <= 0x4000_0000 && h <= 0x4000_0000
    requires Search(Measure(params, step), w, h, 1, None).Ok? && Search(Measure(params, step), w, h, 1, None).value.Some?
    requires var fit := Search(Measure(params, step), w, h, 1, None).value.value;
      Width(fit.box) <= IntMax && Height(fit.box) <= IntMax
    ensures var fit := Search(Measure(params, step), w, h, 1, None).value.value;
            var start := Start(fit, w, h).slots[0];
      && 0.0 <= fit.box.minX as real + start.x && fit.box.maxX as real + start.x < w as real
      && 0.0 <= fit.box.minY as real + start.y && fit.box.maxY as real + start.y < h as real
  {
    var fit := Search(Measure(params, step), w, h, 1, None).value.value;
    FitsAgree(fit.box, w, h);
    FittingBoxCentered(fit.box, w, h);
  }

  /** One case of `execute`'s `switch`: the turtle method the character
      calls, and the segment `forward` hands to the sink, if any. */
  method ExecuteCommand(turtle: Turtle, angle: real, step: Step, c: char) returns (r: Result<Option<Segment>>)
    requires turtle.Valid()
    modifies turtle, turtle.state
    ensures turtle.Valid()
    ensures match Command(old(turtle.Model()), angle, turtle.scale, step, c)
      case Ok((m, drawn)) => r == Ok(drawn) && turtle.Model() == m
      case Err(e) => r == Err(e)
  {
    match c {
      case '+' =>
        var o := turtle.Rotate(angle);
        r := if o.Fail? then Err(o.failure) else Ok(None);
      case '-' =>
        var o := turtle.Rotate(-angle);
        r := if o.Fail? then Err(o.failure) else Ok(None);
      case '[' =>
        var o := turtle.PushState();
        r := if o.Fail? then Err(o.failure) else Ok(None);
      case ']' =>
        turtle.PopState();
        r := Ok(None);
      case 'F' =>
        r := turtle.Forward(step, true);
      case 'f' =>
        r := turtle.Forward(step, false);
      case _ =>
        r := Ok(None);
    }
  }

  /** `execute(params, pattern, line)` on the shared turtle. The sink is
      `info` when it is a `TurtleInfo`, and the painter when `info` is
      `null`; either way the `draw` calls are returned, in order. */
  method Execute(turtle: Turtle, angle: real, step: Step, pattern: string, info: TurtleInfo?)
    returns (r: Result<seq<Segment>>)
    requires turtle.Valid() && (info != null ==> info.Valid())
    modifies turtle, turtle.state, info
    ensures turtle.Valid() && (info != null ==> info.Valid())
    ensures match Run(old(turtle.Model()), angle, turtle.scale, step, pattern)
      case Ok((m, segments)) =>
        && r == Ok(segments) && turtle.Model() == m
        && (info != null ==> info.Bounds() == BoxOf(old(info.Bounds()), segments))
      case Err(e) => r == Err(e)
  {
    ghost var start := turtle.Model();
    var segments := [];
    for i := 0 to |pattern|
      invariant turtle.Valid() && (info != null ==> info.Valid())
      invariant Run(start, angle, turtle.scale, step, pattern[..i]) == Ok((turtle.Model(), segments))
      invariant info != null ==> info.Bounds() == BoxOf(old(info.Bounds()), segments)
    {
      assert pattern[..i + 1][..i] == pattern[..i];
      var drawn := ExecuteCommand(turtle, angle, step, pattern[i]);
      if drawn.Err? {
        r := Err(drawn.failure);
        RunFailsOnPrefix(start, angle, turtle.scale, step, pattern, i + 1);
        return;
      }
      if drawn.value.Some? {
        var s := drawn.value.value;
        if info != null {
          info.Draw(s.x1, s.y1, s.x2, s.y2);
        }
        segments := segments + [s];
      }
    }
    assert pattern[..|pattern|] == pattern;
    r := Ok(segments);
  }

  /** One iteration of the constructor's loop up to the fit test: the root
      expanded to `level`, then executed on the cleared turtle into a fresh
      `TurtleInfo`. */
  method MeasureOnce(turtle: Turtle, params: GeometricFractalInfo, step: Step, w: int, h: int, level: nat)
    returns (r: Result<(string, TurtleInfo)>)
    requires turtle.Valid() && turtle.scale == TurtleScale && IsInt(w) && IsInt(h)
    modifies turtle, turtle.state
    ensures turtle.Valid()
    ensures match MeasureLevel(params, step, level)
      case Ok(fit) =>
        && r.Ok? && r.value.0 == fit.pattern && fresh(r.value.1)
        && r.value.1.Valid() && r.value.1.Bounds() == fit.box
        && r.value.1.width == w && r.value.1.height == h
      case Err(e) => r == Err(e)
  {
    var root := Root(params);
    if root.Err? {
      return Err(root.failure);
    }
    var pattern := ExpandPattern(params, root.value.value, level);
    if pattern.Err? {
      return Err(pattern.failure);
    }
    var info := new TurtleInfo(w, h);
    turtle.ClearState();
    ghost var cleared := turtle.Model();
    RunIgnoresStaleSlots(cleared, Initial(), params.angle, TurtleScale, step, pattern.value);
    var drawn := Execute(turtle, params.angle, step, pattern.value, info);
    if drawn.Err? {
      return Err(drawn.failure);
    }
    r := Ok((pattern.value, info));
  }

  /** The constructor: the measuring loop over levels 1 to 99 with a fresh
      `TurtleInfo` per level, the painter, which needs a proper canvas, then
      the drawing pass of the last level that fitted, whose `draw` calls are
      returned. */
  method NewGeometricFractal(w: int, h: int, params: GeometricFractalInfo, step: Step)
    returns (r: Result<seq<Segment>>)
    requires IsInt(w) && IsInt(h)
    ensures r == Render(params, step, w, h)
  {
    ghost var measure := Measure(params, step);
    var turtle := new Turtle(TurtleScale);
    var lastPattern: Option<string> := None;
    var lastInfo: TurtleInfo? := null;
    ghost var last: Option<Fit> := None;
    for level := 1 to LevelLimit
      invariant turtle.Valid() && turtle.scale == TurtleScale
      invariant last.Some? ==> IsMeasured(last.value.box) && FitsAsWritten(last.value.box, w, h)
      invariant Search(measure, w, h, 1, None) == Search(measure, w, h, level, last)
      invariant last.None? <==> lastInfo == null
      invariant last.Some? ==> && lastPattern == Some(last.value.pattern) && lastInfo.Valid()
                               && lastInfo.Bounds() == last.value.box
                               && lastInfo.width == w && lastInfo.height == h
    {
      var measured := MeasureOnce(turtle, params, step, w, h, level);
      if measured.Err? {
        return Err(measured.failure);
      }
      var (pattern, info) := measured.value;
      if info.GetWidth() >= w || info.GetHeight() >= h {
        assert Search(measure, w, h, 1, None) == Ok(last);
        break;
      }
      lastPattern := Some(pattern);
      lastInfo := info;
      last := Some(Fit(level, pattern, info.Bounds()));
    }
    assert Search(measure, w, h, 1, None) == Ok(last);
    if w <= 0 || h <= 0 {
      return Err(IllegalArgument);
    }
    turtle.ClearState();
    if lastInfo == null {
      return Err(NullReference);
    }
    r := Paint(turtle, params, step, w, h, lastPattern.value, lastInfo, last.value);
  }

  /** The drawing pass on the cleared turtle: `setX(lastInfo.getX())`,
      `setY(lastInfo.getY())`, then `execute` with the painter as the sink. */
  method Paint(turtle: Turtle, params: GeometricFractalInfo, step: Step, w: int, h: int,
               pattern: string, info: TurtleInfo, ghost fit: Fit)
    returns (r: Result<seq<Segment>>)
    requires turtle.Valid() && turtle.scale == TurtleScale && turtle.top == 0 && turtle.state[0] == Origin
    requires IsInt(w) && IsInt(h) && IsMeasured(fit.box) && fit.pattern == pattern
    requires info.Valid() && info.Bounds() == fit.box && info.width == w && info.height == h
    modifies turtle, turtle.state
    ensures match Run(Start(fit, w, h), params.angle, TurtleScale, step, pattern)
      case Ok((_, segments)) => r == Ok(segments)
      case Err(e) => r == Err(e)
  {
    var x := info.GetX();
    var y := info.GetY();
    var placed := turtle.SetPosition(x as real, y as real);
    ghost var start := turtle.Model();
    assert start.top == 0 && start.slots[0] == Start(fit, w, h).slots[0];
    RunIgnoresStaleSlots(start, Start(fit, w, h), params.angle, TurtleScale, step, pattern);
    r := Execute(turtle, params.angle, step, pattern, null);
  }
}
