/** `FractalInfo` and `Fractals` in src/FractalDemo.java: the catalog of
    fractals, the names it lists and the dispatch from an entry to the
    fractal it builds. */
module Catalog {
  import opened Failures
  import opened Rules
  import opened Turtles
  import opened Geometric

  /** The type codes of `FractalInfo`. */
  const NoneType: int := 0
  const GeometricType: int := 1
  const MandelbrotType: int := 2
  const NewtonType: int := 3

  /** The side of every fractal `getFractal` builds. */
  const CanvasSize: int := 400

  /** A catalog entry: a plain `FractalInfo(name, type)`, or a
      `GeometricFractalInfo`, whose type is `GEOMETRIC`. */
  datatype FractalInfo =
    | Plain(name: string, fractalType: int)
    | GeometricEntry(params: GeometricFractalInfo)

  /** `getName()`. */
  function Name(info: FractalInfo): string
  {
    match info
    case Plain(name, _) => name
    case GeometricEntry(params) => params.name
  }

  /** `getType()`. */
  function TypeOf(info: FractalInfo): int
  {
    match info
    case Plain(_, t) => t
    case GeometricEntry(_) => GeometricType
  }

  /** What `getFractal` returns: a geometric fractal with the segments drawn
      on its image, one of the two escape-time fractals, or the
      `DummyFractal` without an image. */
  datatype Fractal =
    | GeometricImage(segments: seq<Segment>)
    | MandelbrotImage
    | NewtonImage
    | DummyImage

  /** `getFractal(id)`: the entry at `id` (an `ArrayList.get` that fails
      outside the list), then a dispatch on its type code; a type code other
      than the three known ones gives the dummy. */
  function FractalOf(fractals: seq<FractalInfo>, id: int, step: Step): (r: Result<Fractal>)
    ensures !(0 <= id < |fractals|) <==> r == Err(IndexOutOfBounds(id))
    ensures 0 <= id < |fractals| && TypeOf(fractals[id]) == MandelbrotType ==> r == Ok(MandelbrotImage)
    ensures 0 <= id < |fractals| && TypeOf(fractals[id]) == NewtonType ==> r == Ok(NewtonImage)
    ensures 0 <= id < |fractals| && TypeOf(fractals[id]) !in {GeometricType, MandelbrotType, NewtonType} ==>
              r == Ok(DummyImage)
    ensures 0 <= id < |fractals| && fractals[id].GeometricEntry? ==>
              match Render(fractals[id].params, step, CanvasSize, CanvasSize)
              case Ok(segments) => r == Ok(GeometricImage(segments))
              case Err(e) => r == Err(e)
    ensures 0 <= id < |fractals| && fractals[id] == Plain(Name(fractals[id]), GeometricType) ==> r == Err(ClassCast)
  {
    if !(0 <= id < |fractals|) then Err(IndexOutOfBounds(id))
    else
      var info := fractals[id];
      if TypeOf(info) == GeometricType then
        match info
        case Plain(_, _) => Err(ClassCast)
        case GeometricEntry(params) =>
          match Render(params, step, CanvasSize, CanvasSize)
          case Ok(segments) => Ok(GeometricImage(segments))
          case Err(e) => assert !e.IndexOutOfBounds? by { RenderFailure(params, step, CanvasSize, CanvasSize); } Err(e)
      else if TypeOf(info) == MandelbrotType then Ok(MandelbrotImage)
      else if TypeOf(info) == NewtonType then Ok(NewtonImage)
      else Ok(DummyImage)
  }

  /** The menu: the name of every entry, in catalog order. */
  function Names(fractals: seq<FractalInfo>): (r: seq<string>)
    ensures |r| == |fractals|
  {
    if fractals == [] then []
    else Names(fractals[..|fractals| - 1]) + [Name(fractals[|fractals| - 1])]
  }

  /** Position `i` of the menu names entry `i`. */
  lemma {:induction false} NameAt(fractals: seq<FractalInfo>, i: int)
    requires 0 <= i < |fractals|
    ensures Names(fractals)[i] == Name(fractals[i])
  {
    var init := fractals[..|fractals| - 1];
    if i < |init| {
      NameAt(init, i);
    }
  }

  /** `getNames()`: a fresh array filled by a loop over the catalog. */
  method GetNames(fractals: seq<FractalInfo>) returns (names: array<string>)
    ensures fresh(names)
    ensures names[..] == Names(fractals)
  {
    names := new string[|fractals|];
    for i := 0 to |fractals|
      invariant names[..i] == Names(fractals[..i])
    {
      names[i] := Name(fractals[i]);
      assert fractals[..i + 1][..i] == fractals[..i];
    }
    assert fractals[..|fractals|] == fractals;
  }

  /** The menu and `getFractal` agree: an index picks a menu line exactly when
      `getFractal` finds an entry there, and the line shows that entry's
      name. */
  lemma MenuSelectsEntry(fractals: seq<FractalInfo>, id: int, step: Step)
    ensures 0 <= id < |Names(fractals)| <==> FractalOf(fractals, id, step) != Err(IndexOutOfBounds(id))
    ensures 0 <= id < |Names(fractals)| ==> Names(fractals)[id] == Name(fractals[id])
  {
    if 0 <= id < |fractals| {
      NameAt(fractals, id);
    }
  }
}
