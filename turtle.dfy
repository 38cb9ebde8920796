/** The turtle of the geometric fractals (`Turtle` in src/FractalDemo.java):
    a stack of 50 `(x, y, angle)` slots and a `top` index, with no bounds
    checks of its own, so an overflow or underflow surfaces as the array
    access that fails.

    The state is stated twice: `Machine` is its value, on which the
    commands are functions and the lemmas are proved; `Turtle` is the object
    whose methods change the slots in place, each proved to do what the
    function on `Machine` says. */
module Turtles {
  import opened Failures
  import opened JavaLang

  /** `MAXIMUM_STATE`: the number of slots. */
  const MaximumState: int := 50

  /** One slot: position and heading in degrees (`float` in the source). */
  datatype TurtleState = TurtleState(x: real, y: real, angle: real)

  const Origin: TurtleState := TurtleState(0.0, 0.0, 0.0)

  /** The turtle's state as a value: all the slots, and `top`, which may have
      left the array after an unchecked push or pop. */
  datatype Machine = Machine(slots: seq<TurtleState>, top: int)

  /** The arguments of one `line.draw(x1, y1, x2, y2)` call. */
  datatype Segment = Segment(x1: int, y1: int, x2: int, y2: int)

  /** A segment whose coordinates are all Java `int`s, as the casts make them. */
  predicate IsIntSegment(s: Segment) { IsInt(s.x1) && IsInt(s.y1) && IsInt(s.x2) && IsInt(s.y2) }

  /** The position after one step: given `x`, `y`, the heading in degrees and
      the scale, `(x + cos(a)*scale, y + sin(a)*scale)` with `a` the heading
      in radians, as `forward` computes it in `float`. */
  type Step = (real, real, real, int) -> (real, real)

  predicate WellFormed(m: Machine) { |m.slots| == MaximumState }

  predicate InRange(i: int) { 0 <= i < MaximumState }

  /** A freshly allocated turtle: `new float[3][MAXIMUM_STATE]` is all zero. */
  function Initial(): (m: Machine)
    ensures WellFormed(m)
  {
    Machine(seq(MaximumState, _ => Origin), 0)
  }

  /** `clearState()`: `top = 0` and slot 0 back at the origin, heading 0. */
  function Cleared(m: Machine): (r: Machine)
    requires WellFormed(m)
    ensures WellFormed(r)
  {
    Machine(m.slots[0 := Origin], 0)
  }

  /** `pushState()` (`[`): `top` moves up and the slot below is copied into
      the new top slot. The copy reads slot `top - 1` before it writes slot
      `top`, so a turtle at `top == -1` fails on index -1 and one at
      `top == 49` on index 50. */
  function Pushed(m: Machine): (r: Result<Machine>)
    requires WellFormed(m)
    ensures r.Ok? ==> WellFormed(r.value)
  {
    var t := m.top + 1;
    if !InRange(t - 1) then Err(ArrayIndexOutOfBounds(t - 1))
    else if !InRange(t) then Err(ArrayIndexOutOfBounds(t))
    else Ok(Machine(m.slots[t := m.slots[t - 1]], t))
  }

  /** `popState()` (`]`): only `top` moves down; nothing is checked. */
  function Popped(m: Machine): (r: Machine)
    requires WellFormed(m)
    ensures WellFormed(r)
  {
    Machine(m.slots, m.top - 1)
  }

  /** `rotate(delta)` (`+`, `-`): the top heading turns by `delta`. */
  function Turned(m: Machine, delta: real): (r: Result<Machine>)
    requires WellFormed(m)
    ensures r.Ok? ==> WellFormed(r.value)
  {
    if !InRange(m.top) then Err(ArrayIndexOutOfBounds(m.top))
    else
      var s := m.slots[m.top];
      Ok(Machine(m.slots[m.top := s.(angle := s.angle + delta)], m.top))
  }

  /** `setX(x)` and `setY(y)`. */
  function Placed(m: Machine, x: real, y: real): (r: Result<Machine>)
    requires WellFormed(m)
    ensures r.Ok? ==> WellFormed(r.value)
  {
    if !InRange(m.top) then Err(ArrayIndexOutOfBounds(m.top))
    else
      var s := m.slots[m.top];
      Ok(Machine(m.slots[m.top := s.(x := x, y := y)], m.top))
  }

  /** `forward(line)` (`F` with the sink, `f` without): one step from the top
      slot. The sink, if any, receives the old and new positions cast to
      `int`. */
  function Stepped(m: Machine, scale: int, step: Step, draw: bool): (r: Result<(Machine, Option<Segment>)>)
    requires WellFormed(m)
    ensures r.Ok? ==> WellFormed(r.value.0)
    ensures r.Ok? && r.value.1.Some? ==> IsIntSegment(r.value.1.value)
  {
    if !InRange(m.top) then Err(ArrayIndexOutOfBounds(m.top))
    else
      var s := m.slots[m.top];
      var (nx, ny) := step(s.x, s.y, s.angle, scale);
      var segment := Segment(FloatToInt(s.x), FloatToInt(s.y), FloatToInt(nx), FloatToInt(ny));
      Ok((Machine(m.slots[m.top := TurtleState(nx, ny, s.angle)], m.top),
          if draw then Some(segment) else None))
  }

  /** One character of a pattern, as `execute`'s `switch` treats it; any
      other character does nothing. */
  function Command(m: Machine, angle: real, scale: int, step: Step, c: char)
    : (r: Result<(Machine, Option<Segment>)>)
    requires WellFormed(m)
    ensures r.Ok? ==> WellFormed(r.value.0)
    ensures r.Ok? && r.value.1.Some? ==> IsIntSegment(r.value.1.value)
  {
    match c
    case '+' => (var n :- Turned(m, angle); Ok((n, None)))
    case '-' => (var n :- Turned(m, -angle); Ok((n, None)))
    case '[' => (var n :- Pushed(m); Ok((n, None)))
    case ']' => Ok((Popped(m), None))
    case 'F' => Stepped(m, scale, step, true)
    case 'f' => Stepped(m, scale, step, false)
    case _ => Ok((m, None))
  }

  /** `execute(params, pattern, line)`: the commands in order; the segments
      are the `draw` calls the sink receives, in order. */
  function Run(m: Machine, angle: real, scale: int, step: Step, pattern: string)
    : (r: Result<(Machine, seq<Segment>)>)
    requires WellFormed(m)
    ensures r.Ok? ==> WellFormed(r.value.0)
  {
    if pattern == [] then Ok((m, []))
    else
      var (n, segments) :- Run(m, angle, scale, step, pattern[..|pattern| - 1]);
      var (n', drawn) :- Command(n, angle, scale, step, pattern[|pattern| - 1]);
      Ok((n', if drawn.Some? then segments + [drawn.value] else segments))
  }

  /** Every segment the sink receives has `int` coordinates. */
  lemma {:induction false} RunDrawsIntSegments(m: Machine, angle: real, scale: int, step: Step, p: string)
    requires WellFormed(m) && Run(m, angle, scale, step, p).Ok?
    ensures forall k :: 0 <= k < |Run(m, angle, scale, step, p).value.1| ==>
              IsIntSegment(Run(m, angle, scale, step, p).value.1[k])
  {
    if p != [] {
      RunDrawsIntSegments(m, angle, scale, step, p[..|p| - 1]);
    }
  }

  /** Every command other than `[` and `]` touches slot `top` only: `+` and
      `-` turn its heading by the angle and keep its position, `F` and `f`
      move its position and keep its heading; `top` stays where it is. */
  lemma CommandTouchesTopOnly(m: Machine, angle: real, scale: int, step: Step, c: char)
    requires WellFormed(m) && c != '[' && c != ']'
    requires Command(m, angle, scale, step, c).Ok?
    ensures var n := Command(m, angle, scale, step, c).value.0;
      && n.top == m.top
      && (forall i :: 0 <= i < MaximumState && i != m.top ==> n.slots[i] == m.slots[i])
      && (c == '+' ==> n.slots[m.top] == m.slots[m.top].(angle := m.slots[m.top].angle + angle))
      && (c == '-' ==> n.slots[m.top] == m.slots[m.top].(angle := m.slots[m.top].angle - angle))
      && (c == 'F' || c == 'f' ==> n.slots[m.top].angle == m.slots[m.top].angle)
  {
  }

  /** The bracket depth of a pattern: `[` minus `]`. */
  function Depth(p: string): int
  {
    if p == [] then 0
    else Depth(p[..|p| - 1]) + (if p[|p| - 1] == '[' then 1 else if p[|p| - 1] == ']' then -1 else 0)
  }

  /** No prefix of `p` closes more brackets than it opens. */
  predicate NeverBelow(p: string)
  {
    forall n :: 0 <= n <= |p| ==> Depth(p[..n]) >= 0
  }

  /** While a pattern never goes below its starting depth, `top` follows the
      bracket depth and every slot below the starting `top` is left alone. */
  lemma {:induction false} RunKeepsLowerSlots(m: Machine, angle: real, scale: int, step: Step, p: string)
    requires WellFormed(m) && NeverBelow(p)
    requires Run(m, angle, scale, step, p).Ok?
    ensures Run(m, angle, scale, step, p).value.0.top == m.top + Depth(p)
    ensures forall i :: 0 <= i < m.top && i < MaximumState ==>
              Run(m, angle, scale, step, p).value.0.slots[i] == m.slots[i]
  {
    if p != [] {
      var init := p[..|p| - 1];
      var c := p[|p| - 1];
      assert NeverBelow(init) by {
        forall n | 0 <= n <= |init| ensures Depth(init[..n]) >= 0 {
          assert init[..n] == p[..n];
        }
      }
      assert p[..|p|] == p;
      RunKeepsLowerSlots(m, angle, scale, step, init);
      var n := Run(m, angle, scale, step, init).value.0;
      if c != '[' && c != ']' {
        CommandTouchesTopOnly(n, angle, scale, step, c);
      }
    }
  }

  /** `[`, then any commands whose brackets balance, then `]` restores the
      turtle: `top` and every slot up to it (so `x`, `y` and the heading on
      top) are exactly as before. */
  lemma BracketRestores(m: Machine, angle: real, scale: int, step: Step, p: string)
    requires WellFormed(m) && NeverBelow(p) && Depth(p) == 0
    requires Run(m, angle, scale, step, "[" + p + "]").Ok?
    ensures var n := Run(m, angle, scale, step, "[" + p + "]").value.0;
      && n.top == m.top
      && forall i :: 0 <= i <= m.top && i < MaximumState ==> n.slots[i] == m.slots[i]
  {
    var q := "[" + p;
    var whole := q + "]";
    assert "[" + p + "]" == whole;
    assert whole[..|whole| - 1] == q;
    assert Run(m, angle, scale, step, q).Ok?;
    RunOkOnPrefix(m, angle, scale, step, q, 1);
    assert q[..1] == "[";
    assert "["[..0] == [];
    var pushed := Pushed(m).value;
    RunAppend(m, angle, scale, step, "[", p);
    RunKeepsLowerSlots(pushed, angle, scale, step, p);
  }

  /** A failure on a prefix of the pattern is the failure of the run. */
  lemma {:induction false} RunFailsOnPrefix(m: Machine, angle: real, scale: int, step: Step, p: string, n: nat)
    requires WellFormed(m) && n <= |p| && Run(m, angle, scale, step, p[..n]).Err?
    ensures Run(m, angle, scale, step, p) == Run(m, angle, scale, step, p[..n])
    decreases |p| - n
  {
    if n < |p| {
      assert p[..n + 1][..n] == p[..n];
      RunFailsOnPrefix(m, angle, scale, step, p, n + 1);
    } else {
      assert p[..n] == p;
    }
  }

  /** A run that succeeds succeeds on every prefix of its pattern. */
  lemma {:induction false} RunOkOnPrefix(m: Machine, angle: real, scale: int, step: Step, p: string, n: nat)
    requires WellFormed(m) && n <= |p| && Run(m, angle, scale, step, p).Ok?
    ensures Run(m, angle, scale, step, p[..n]).Ok?
    decreases |p|
  {
    if n < |p| {
      assert p[..|p| - 1][..n] == p[..n];
      RunOkOnPrefix(m, angle, scale, step, p[..|p| - 1], n);
    } else {
      assert p[..n] == p;
    }
  }

  /** Running `p + q` runs `p`, then `q` from where `p` left the turtle. */
  lemma {:induction false} RunAppend(m: Machine, angle: real, scale: int, step: Step, p: string, q: string)
    requires WellFormed(m) && Run(m, angle, scale, step, p).Ok?
    ensures var (n, s) := Run(m, angle, scale, step, p).value;
      match Run(n, angle, scale, step, q)
      case Ok((n', s')) => Run(m, angle, scale, step, p + q) == Ok((n', s + s'))
      case Err(e) => Run(m, angle, scale, step, p + q) == Err(e)
    decreases |q|
  {
    var (n, s) := Run(m, angle, scale, step, p).value;
    if q == [] {
      assert p + q == p;
      assert s + [] == s;
    } else {
      var q' := q[..|q| - 1];
      assert (p + q)[..|p + q| - 1] == p + q';
      assert (p + q)[|p + q| - 1] == q[|q| - 1];
      RunAppend(m, angle, scale, step, p, q');
      if Run(n, angle, scale, step, q').Ok? {
        var s' := Run(n, angle, scale, step, q').value.1;
        assert forall x :: s + s' + [x] == s + (s' + [x]);
      }
    }
  }

  /** `k` copies of `c`. */
  function Repeat(c: char, k: nat): (r: string)
    ensures |r| == k && forall i :: 0 <= i < k ==> r[i] == c
  {
    if k == 0 then [] else Repeat(c, k - 1) + [c]
  }

  /** The capacity: from a turtle whose `top` is `t`, `k` nested `[` succeed
      exactly when `t + k` stays below `MAXIMUM_STATE`; the first one too
      many fails on index 50. */
  lemma NestingCapacity(m: Machine, angle: real, scale: int, step: Step, k: nat)
    requires WellFormed(m) && InRange(m.top)
    ensures Run(m, angle, scale, step, Repeat('[', k)).Ok? <==> m.top + k < MaximumState
    ensures Run(m, angle, scale, step, Repeat('[', k)).Ok? ==>
              Run(m, angle, scale, step, Repeat('[', k)).value.0.top == m.top + k
    ensures Run(m, angle, scale, step, Repeat('[', k)).Err? ==>
              Run(m, angle, scale, step, Repeat('[', k)).failure == ArrayIndexOutOfBounds(MaximumState)
  {
    if m.top + k < MaximumState {
      NestingFits(m, angle, scale, step, k);
    } else {
      NestingOverflows(m, angle, scale, step, k);
    }
  }

  /** Below the capacity every `[` succeeds and moves `top` up by one. */
  lemma {:induction false} NestingFits(m: Machine, angle: real, scale: int, step: Step, k: nat)
    requires WellFormed(m) && 0 <= m.top && m.top + k < MaximumState
    ensures Run(m, angle, scale, step, Repeat('[', k)).Ok?
    ensures Run(m, angle, scale, step, Repeat('[', k)).value.0.top == m.top + k
  {
    if k > 0 {
      var init := Repeat('[', k - 1);
      assert Repeat('[', k) == init + ['['];
      NestingFits(m, angle, scale, step, k - 1);
      RunPushStep(m, angle, scale, step, init);
    }
  }

  /** The first `[` past the capacity fails on index 50, and so does the
      whole run. */
  lemma {:induction false} NestingOverflows(m: Machine, angle: real, scale: int, step: Step, k: nat)
    requires WellFormed(m) && InRange(m.top) && m.top + k >= MaximumState
    ensures Run(m, angle, scale, step, Repeat('[', k)) == Err(ArrayIndexOutOfBounds(MaximumState))
  {
    var init := Repeat('[', k - 1);
    assert Repeat('[', k) == init + ['['];
    RunPushStep(m, angle, scale, step, init);
    if m.top + k - 1 < MaximumState {
      NestingFits(m, angle, scale, step, k - 1);
    } else {
      NestingOverflows(m, angle, scale, step, k - 1);
    }
  }

  /** One more `[` after `p`: `p`'s failure, or the push's. */
  lemma RunPushStep(m: Machine, angle: real, scale: int, step: Step, p: string)
    requires WellFormed(m)
    ensures var before := Run(m, angle, scale, step, p);
      Run(m, angle, scale, step, p + ['[']) ==
        if before.Err? then Err(before.failure)
        else if Pushed(before.value.0).Err? then Err(Pushed(before.value.0).failure)
        else Ok((Pushed(before.value.0).value, before.value.1))
  {
    assert (p + ['['])[..|p|] == p;
  }

  /** Underflow: a `]` on the base slot leaves `top == -1` without failing,
      and the next command that touches the state fails on index -1. */
  lemma PopBelowBaseFails(m: Machine, angle: real, scale: int, step: Step, c: char)
    requires WellFormed(m) && m.top == 0
    requires c in "+-Ff["
    ensures Run(m, angle, scale, step, "]").Ok? && Run(m, angle, scale, step, "]").value.0.top == -1
    ensures Run(m, angle, scale, step, "]" + [c]) == Err(ArrayIndexOutOfBounds(-1))
  {
    assert ("]" + [c])[..1] == "]";
    assert "]"[..0] == [];
  }

  /** Two turtles that agree on `top` and on every slot up to it. */
  predicate Agree(m: Machine, n: Machine)
    requires WellFormed(m) && WellFormed(n)
  {
    m.top == n.top && forall i :: 0 <= i <= m.top && i < MaximumState ==> m.slots[i] == n.slots[i]
  }

  /** Slots above `top` are never read before they are written: two turtles
      that agree up to `top` fail alike or draw the same segments and still
      agree afterwards. So a turtle reused after `clearState()` behaves like
      a new one. */
  lemma {:induction false} RunIgnoresStaleSlots(m: Machine, n: Machine, angle: real, scale: int, step: Step, p: string)
    requires WellFormed(m) && WellFormed(n) && Agree(m, n)
    ensures Run(m, angle, scale, step, p).Ok? <==> Run(n, angle, scale, step, p).Ok?
    ensures Run(m, angle, scale, step, p).Err? ==>
              Run(m, angle, scale, step, p).failure == Run(n, angle, scale, step, p).failure
    ensures Run(m, angle, scale, step, p).Ok? ==>
              && Run(m, angle, scale, step, p).value.1 == Run(n, angle, scale, step, p).value.1
              && Agree(Run(m, angle, scale, step, p).value.0, Run(n, angle, scale, step, p).value.0)
  {
    if p != [] {
      var init := p[..|p| - 1];
      RunIgnoresStaleSlots(m, n, angle, scale, step, init);
      var rm := Run(m, angle, scale, step, init);
      if rm.Ok? {
        CommandIgnoresStaleSlots(rm.value.0, Run(n, angle, scale, step, init).value.0, angle, scale, step, p[|p| - 1]);
      }
    }
  }

  /** One command on two turtles that agree up to `top`. */
  lemma CommandIgnoresStaleSlots(m: Machine, n: Machine, angle: real, scale: int, step: Step, c: char)
    requires WellFormed(m) && WellFormed(n) && Agree(m, n)
    ensures Command(m, angle, scale, step, c).Ok? <==> Command(n, angle, scale, step, c).Ok?
    ensures Command(m, angle, scale, step, c).Err? ==>
              Command(m, angle, scale, step, c).failure == Command(n, angle, scale, step, c).failure
    ensures Command(m, angle, scale, step, c).Ok? ==>
              && Command(m, angle, scale, step, c).value.1 == Command(n, angle, scale, step, c).value.1
              && Agree(Command(m, angle, scale, step, c).value.0, Command(n, angle, scale, step, c).value.0)
  {
  }

  /** The turtle object: `state[][]` as an array of 50 slots, and `top`. */
  class Turtle {
    const scale: int
    const state: array<TurtleState>
    var top: int

    ghost predicate Valid()
      reads this
    {
      state.Length == MaximumState
    }

    /** The value of this turtle's state. */
    ghost function Model(): (m: Machine)
      reads this, state
      requires Valid()
      ensures WellFormed(m)
    {
      Machine(state[..], top)
    }

    /** `Turtle(scale)`: a zero-filled array, then `clearState()`. */
    constructor (scale: int)
      ensures Valid() && fresh(state)
      ensures this.scale == scale && Model() == Initial()
    {
      this.scale := scale;
      state := new TurtleState[MaximumState](_ => Origin);
      top := 0;
      new;
      assert state[..] == seq(MaximumState, _ => Origin);
    }

    method ClearState()
      requires Valid()
      modifies this, state
      ensures Valid() && Model() == Cleared(old(Model()))
    {
      top := 0;
      state[0] := Origin;
    }

    /** `setX(x); setY(y)`, as the constructor of `GeometricFractal` places
        the turtle before the drawing pass. */
    method SetPosition(x: real, y: real) returns (o: Outcome)
      requires Valid()
      modifies state
      ensures Valid()
      ensures match Placed(old(Model()), x, y)
        case Ok(m) => o == Pass && Model() == m
        case Err(e) => o == Fail(e) && Model() == old(Model())
    {
      if !(0 <= top < state.Length) {
        return Fail(ArrayIndexOutOfBounds(top));
      }
      state[top] := state[top].(x := x, y := y);
      o := Pass;
    }

    /** `getX()`, `getY()` and `getAngle()` together. */
    function Current(): (r: Result<TurtleState>)
      reads this, state
      requires Valid()
      ensures r.Ok? <==> InRange(top)
      ensures r.Ok? ==> r.value == Model().slots[top]
    {
      if 0 <= top < state.Length then Ok(state[top]) else Err(ArrayIndexOutOfBounds(top))
    }

    method PushState() returns (o: Outcome)
      requires Valid()
      modifies this, state
      ensures Valid()
      ensures match Pushed(old(Model()))
        case Ok(m) => o == Pass && Model() == m
        case Err(e) => o == Fail(e) && state[..] == old(state[..]) && top == old(top) + 1
    {
      top := top + 1;
      if !(0 <= top - 1 < state.Length) {
        return Fail(ArrayIndexOutOfBounds(top - 1));
      }
      if !(0 <= top < state.Length) {
        return Fail(ArrayIndexOutOfBounds(top));
      }
      state[top] := state[top - 1];
      o := Pass;
    }

    method PopState()
      requires Valid()
      modifies this
      ensures Valid() && Model() == Popped(old(Model()))
    {
      top := top - 1;
    }

    method Rotate(delta: real) returns (o: Outcome)
      requires Valid()
      modifies state
      ensures Valid()
      ensures match Turned(old(Model()), delta)
        case Ok(m) => o == Pass && Model() == m
        case Err(e) => o == Fail(e) && Model() == old(Model())
    {
      if !(0 <= top < state.Length) {
        return Fail(ArrayIndexOutOfBounds(top));
      }
      state[top] := state[top].(angle := state[top].angle + delta);
      o := Pass;
    }

    /** `forward(line)`; `draw` says whether a sink was given, and the
        segment it would receive is returned. */
    method Forward(step: Step, draw: bool) returns (r: Result<Option<Segment>>)
      requires Valid()
      modifies state
      ensures Valid()
      ensures match Stepped(old(Model()), scale, step, draw)
        case Ok((m, drawn)) => r == Ok(drawn) && Model() == m
        case Err(e) => r == Err(e) && Model() == old(Model())
    {
      if !(0 <= top < state.Length) {
        return Err(ArrayIndexOutOfBounds(top));
      }
      var s := state[top];
      var (x, y) := step(s.x, s.y, s.angle, scale);
      if draw {
        r := Ok(Some(Segment(FloatToInt(s.x), FloatToInt(s.y), FloatToInt(x), FloatToInt(y))));
      } else {
        r := Ok(None);
      }
      state[top] := TurtleState(x, y, s.angle);
    }
  }
}
