# L-system fractal engine

A model in Dafny of the engine behind the geometric fractals in
`src/FractalDemo.java`. It covers these parts of the engine:

- **The rule table** (`Rule`, `GeometricFractalInfo`). A `"name:value;name:value"`
  text is split on `;` and each part on `:`. The trimmed name and value become a
  rule. The first rule is the root, and `getRule` is a first-match search by name.
- **The rewriter** (`GeometricFractal.expand`). It is level-bounded and works
  character by character:
  - `+ - [ ]` are copied;
  - a symbol with a rule is replaced by the expansion of the rule's value one
    level down while the level is positive;
  - `F` and `f` are otherwise copied;
  - a symbol without a rule throws;
  - at level 0, a symbol that has a rule but is not `F` or `f` is dropped.
- **The turtle** (`Turtle`). It is a stack of 50 `(x, y, angle)` slots and a
  `top` index, with no bounds checks of its own. It is driven by `execute`, which
  sends the segments it draws to a sink.
- **The auto-fit search** (the `GeometricFractal` constructor and `TurtleInfo`).
  Levels 1 to 99 are each expanded and measured into a bounding box. The loop
  stops at the first level whose box is at least as wide or as high as the
  canvas. The last level that fitted is then drawn, centred by `getX()`/`getY()`.
  When level 1 already overflows, `lastInfo` is `null` and the constructor fails.
- **The catalog dispatch** (`Fractals.getNames`, `Fractals.getFractal`).

Java exceptions are values of `Failures.Failure`, and an operation that can
throw returns a `Result` or an `Outcome`. The error paths are therefore part of
each contract; no precondition excludes them. The kinds are:
- `UnknownSymbol`, from the `NoSuchElementException` in `expand`;
- `ArrayIndexOutOfBounds(i)`, for `tokens[0]` (a rule part made only of colons),
  `tokens[1]`, `rules[0]` and the turtle's `state` array;
- `NullReference`, for `lastInfo.getX()`;
- `IllegalArgument`, from the `BufferedImage` that `new TurtlePainter(w, h)`
  creates when a side of the canvas is not positive;
- `IndexOutOfBounds(i)`, from `ArrayList.get`;
- `ClassCast`, from the cast in `getFractal`.

Each stateful part is modelled twice:
- **As values**, where the lemmas are proved: `Turtles.Machine` with the
  functions `Pushed`, `Popped`, `Turned`, `Stepped`, `Command` and `Run`, and
  `Bounds.Box` with `Widen` and `BoxOf`.
- **As objects** that change in place: `Turtles.Turtle` over an
  `array<TurtleState>`, and `Bounds.TurtleInfo`. Every method of these classes,
  and the loops of `execute`, `expand` and the constructor, is proved to do what
  the value-level function says.

The `java.lang` behaviour the engine relies on is written out in `JavaLang`:
- `String.split` with a one-character separator, including the dropping of
  trailing empty strings;
- `String.trim()`, which strips every character up to U+0020;
- 32-bit `int` wrap-around;
- `int` division, which truncates toward zero;
- the saturating `(int)` cast of a `float`.

Three behaviours of the constructor are easy to miss:
- When level 1 already overflows, it fails on `lastInfo.getX()`.
- Only levels 1 to 99 are tried.
- Besides an unknown symbol, it can fail on an array index (an empty rule
  table, or a turtle stack that overflows or underflows) and, for a canvas
  side that is not positive, in the painter's constructor. A malformed rule
  part fails earlier, in the `GeometricFractalInfo` constructor, and a bad
  index into the catalog fails in `getFractal`.

## Model

| member | source | states |
|---|---|---|
| Failures.MapResults | src/FractalDemo.java:144-148 | A loop over the parts that stops at the first exception. It succeeds exactly when every part parses, and then yields one result per part in order. Otherwise it fails with the failure of the first part that fails. |
| Failures.MapResultsFailsOnPrefix | src/FractalDemo.java:144-148 | A failure on a prefix of the parts is the failure of the whole loop. |
| JavaLang.Wrap | src/FractalDemo.java:302-306 | The value of a Java `int` expression is the exact result reduced modulo 2^32 into the `int` range. It equals the exact result when that result is an `int`. |
| JavaLang.Half | src/FractalDemo.java:305-306 | Java's `a / 2` truncates toward zero: the doubled quotient is within 1 of `a`, on `a`'s side of zero. |
| JavaLang.FloatToInt | src/FractalDemo.java:402 | The `(int)` cast of a `float` truncates toward zero and saturates at `Integer.MIN_VALUE` and `Integer.MAX_VALUE`. |
| JavaLang.TrimIsSlice | src/FractalDemo.java:147 | `trim()` returns a slice of its input, and everything cut off on either side is blank (at most U+0020). |
| JavaLang.TrimEndsNonBlank | src/FractalDemo.java:147 | A non-empty result of `trim()` neither starts nor ends with a blank. |
| JavaLang.JoinFields | src/FractalDemo.java:143-146 | Joining the fields of a text with the separator gives back the text. |
| JavaLang.FieldsJoin | src/FractalDemo.java:143-146 | Taking the fields of the join of separator-free strings gives back the same strings, so the two are inverses. |
| JavaLang.SplitFields | src/FractalDemo.java:143-146 | No string returned by `split` contains the separator. When the separator occurs, the result is the list of fields without its trailing empty ones. |
| JavaLang.SplitIsEmpty | src/FractalDemo.java:143-146 | `split` returns no strings exactly when the text is a non-empty run of separators. |
| JavaLang.FieldsAllEmpty | src/FractalDemo.java:143-146 | All fields are empty exactly when the text is separators only. |
| JavaLang.SplitHasSecond | src/FractalDemo.java:146-147 | `split` yields two strings or more exactly when some character other than the separator follows the first separator. |
| JavaLang.SplitFirstTwo | src/FractalDemo.java:146-147 | With two strings or more, the first is the text before the first separator and the second runs from there up to the next separator. |
| JavaLang.IndexOf | src/FractalDemo.java:146 | The position of the first separator, or the length of the text when there is none. |
| Rules.ParsedRule | src/FractalDemo.java:146-147 | A part becomes a rule exactly when a character other than `:` follows its first `:`. The name is then the trimmed text before that colon and the value the trimmed text up to the next colon. Otherwise `tokens[n]` fails, where `n` is 0 for a run of colons and 1 otherwise. |
| Rules.NewGeometricFractalInfo | src/FractalDemo.java:136-150 | The constructor's loop yields the descriptor whose rules are the parsed parts in order, or the failure of the first malformed part. |
| Rules.Root | src/FractalDemo.java:157-160 | `getRoot()` is `rules[0]` whatever its name. An empty table fails on index 0. |
| Rules.RootIsFirstPart | src/FractalDemo.java:142-160 | The root's name is the trimmed text before the first colon of the rules text. |
| Rules.EmptyTable | src/FractalDemo.java:142-160 | The rule table is empty, so that `getRoot()` fails, exactly when the rules text is a non-empty run of `;`. |
| Rules.FindRuleFirstMatch | src/FractalDemo.java:162-168 | The lookup yields no rule exactly when no rule has the name. Otherwise it yields a rule with that name and no earlier rule has it. |
| Rules.GetRule | src/FractalDemo.java:162-168 | The loop of `getRule` returns the first-match lookup, with `None` for `null`. |
| Expansion.ExpandChar | src/FractalDemo.java:242-255 | Whatever one character expands to is made of `+ - [ ] F f` only. |
| Expansion.Expand | src/FractalDemo.java:236-258 | Whatever `expand` returns is made of `+ - [ ] F f` only. |
| Expansion.ExpandAppend | src/FractalDemo.java:239-257 | Expanding a concatenation expands each part, and the leftmost failure wins. |
| Expansion.ExpandLevelZero | src/FractalDemo.java:248-254 | At level 0 the leftmost symbol that is neither a command nor a rule name fails. Otherwise the result is exactly the commands of the pattern: symbols with rules are dropped, and `F`/`f` are kept even when they have rules. |
| Expansion.ExpandStep | src/FractalDemo.java:248-249 | At a positive level, `expand` is one parallel rewriting step followed by expansion one level down, failures included. Every symbol with a rule is replaced, `F` included when an `F` rule exists. |
| Expansion.ExpandIsDerivation | src/FractalDemo.java:236-258 | `expand` at level `n` is `n` parallel L-system rewriting steps, then the level-0 projection. |
| Expansion.RewriteKeepsUnknown | src/FractalDemo.java:247-254 | A rewriting step keeps every symbol that has no rule. |
| Expansion.DeriveKeepsUnknown | src/FractalDemo.java:247-254 | Any number of rewriting steps keep every symbol that has no rule. |
| Expansion.UnknownSymbolFails | src/FractalDemo.java:247-254 | A pattern holding a symbol that is neither `+-[]Ff` nor a rule name fails at every level. Every failure names such a symbol. |
| Expansion.ExpandPattern | src/FractalDemo.java:236-258 | The `StringBuilder` loop with its recursive calls returns exactly `Expand`. |
| Expansion.ExpandFailsOnPrefix | src/FractalDemo.java:240-256 | A failure on a prefix of the pattern is the failure of the whole expansion. |
| Turtles.Pushed | src/FractalDemo.java:380-386 | A successful push leaves 50 slots. |
| Turtles.Stepped | src/FractalDemo.java:395-406 | A step leaves 50 slots, and the segment it hands the sink has `int` coordinates. |
| Turtles.Command | src/FractalDemo.java:263-274 | One case of the `switch` leaves 50 slots, and any segment drawn has `int` coordinates. |
| Turtles.RunDrawsIntSegments | src/FractalDemo.java:402 | Every segment `execute` hands the sink has `int` coordinates. |
| Turtles.CommandTouchesTopOnly | src/FractalDemo.java:369-406 | `+`, `-`, `F` and `f` change slot `top` only. `+`/`-` turn its heading by the angle and keep its position, `F`/`f` keep its heading, and `top` does not move. |
| Turtles.RunKeepsLowerSlots | src/FractalDemo.java:380-392 | While a pattern never closes more brackets than it opens, `top` follows the bracket depth and every slot below the starting `top` is untouched. |
| Turtles.BracketRestores | src/FractalDemo.java:380-392 | `[`, then commands with balanced brackets, then `]` restores `top` and every slot up to it, so `x`, `y` and the heading come back exactly. |
| Turtles.RunFailsOnPrefix | src/FractalDemo.java:263-274 | A failure on a prefix of the pattern is the failure of `execute`. |
| Turtles.RunOkOnPrefix | src/FractalDemo.java:263-274 | An `execute` that succeeds succeeds on every prefix of its pattern. |
| Turtles.RunAppend | src/FractalDemo.java:263-274 | Executing `p + q` executes `p`, then `q` from where `p` left the turtle, and concatenates the segments. |
| Turtles.NestingCapacity | src/FractalDemo.java:338-386 | From `top == t`, `k` nested `[` succeed exactly when `t + k < 50`, and then `top` is `t + k`. Otherwise they fail on index 50. |
| Turtles.NestingFits | src/FractalDemo.java:380-386 | Below the capacity every `[` succeeds and raises `top` by one. |
| Turtles.NestingOverflows | src/FractalDemo.java:380-386 | The first `[` past the capacity fails on index 50. |
| Turtles.RunPushStep | src/FractalDemo.java:380-386 | A trailing `[` fails with the earlier failure, or else with the push's own failure, or else adds the pushed state. |
| Turtles.PopBelowBaseFails | src/FractalDemo.java:389-392 | `]` on the base slot leaves `top == -1` without failing. The next `+`, `-`, `F`, `f` or `[` then fails on index -1. |
| Turtles.RunIgnoresStaleSlots | src/FractalDemo.java:359-365 | Slots above `top` are never read before they are written. A turtle reused after `clearState()` therefore fails, draws and ends up like a new one. |
| Turtles.CommandIgnoresStaleSlots | src/FractalDemo.java:369-406 | One command on two turtles that agree up to `top` fails alike, or draws the same segment and leaves them agreeing. |
| Turtles.Turtle.constructor | src/FractalDemo.java:347-352 | A new turtle has the given scale, 50 slots at the origin and `top == 0`. |
| Turtles.Turtle.ClearState | src/FractalDemo.java:359-365 | `top` becomes 0 and slot 0 the origin with heading 0. The other slots are kept. |
| Turtles.Turtle.SetPosition | src/FractalDemo.java:369-370 | `setX`/`setY` write the top slot's position, or fail on index `top`, leaving the state as it was. |
| Turtles.Turtle.Current | src/FractalDemo.java:373-375 | `getX`/`getY`/`getAngle` read the top slot, and succeed exactly when `top` is in `0..49`. |
| Turtles.Turtle.PushState | src/FractalDemo.java:380-386 | `top` goes up and the slot below is copied into it. The read of `top - 1` comes before the write of `top`, so a push from `top == -1` fails on index -1 and one from `top == 49` on index 50. A failed push has still moved `top`. |
| Turtles.Turtle.PopState | src/FractalDemo.java:389 | Only `top` goes down. |
| Turtles.Turtle.Rotate | src/FractalDemo.java:392 | Only the top heading turns by `delta`, or it fails on index `top`. |
| Turtles.Turtle.Forward | src/FractalDemo.java:395-406 | The top position moves one step and the heading is kept. The sink, if any, gets the old and new positions cast to `int`. |
| Bounds.Widen | src/FractalDemo.java:296-300 | On a box that holds its own minimum below its maximum, the `else if` update is the hull of the box and the end point. |
| Bounds.BoxOfIsHull | src/FractalDemo.java:287-300 | The measured box is the smallest one holding the origin and every end point. It keeps `minX <= 0 <= maxX` and `minY <= 0 <= maxY`, and each bound is 0 or an end point's coordinate. |
| Bounds.Offset | src/FractalDemo.java:305-306 | The centring offset of `getX()`/`getY()` is an `int`. |
| Bounds.CenteredInside | src/FractalDemo.java:305-306 | A drawing that holds the origin and is narrower than the canvas, shifted by the offset, lies inside the canvas. Its midpoint is within half a pixel of the canvas midpoint. |
| Bounds.ExtentAsWritten | src/FractalDemo.java:302-303 | `getWidth()`/`getHeight()` as written: an `int` that differs from the exact difference by 0 or 2^32. |
| Bounds.ExtentIsWrap | src/FractalDemo.java:302-303 | That `int` is the exact difference wrapped to 32 bits. |
| Bounds.WrappedWidthFits | src/FractalDemo.java:302-303 | As written, a box `2^31` wide has a negative `getWidth()` and passes the constructor's fit test. |
| Bounds.FitsAgree | src/FractalDemo.java:216 | The as-written fit test and the unbounded one agree whenever the width and height are `int`s. |
| Bounds.FittingBoxCentered | src/FractalDemo.java:216 | A box that passes the unbounded fit test, shifted by `getX()`/`getY()`, lies inside the canvas. |
| Bounds.TurtleInfo.constructor | src/FractalDemo.java:287-293 | A new `TurtleInfo` has all four bounds 0 and the given canvas size. |
| Bounds.TurtleInfo.Draw | src/FractalDemo.java:296-300 | `draw` widens the box by the end point `(x2, y2)` only, and keeps the origin inside it. |
| Bounds.TurtleInfo.GetWidth | src/FractalDemo.java:302 | `maxX - minX` in `int`: the true width, never negative, when that width is an `int`, and otherwise the width less 2^32, which is negative. |
| Bounds.TurtleInfo.GetHeight | src/FractalDemo.java:303 | `maxY - minY` in `int`: the true height, never negative, when that height is an `int`, and otherwise the height less 2^32, which is negative. |
| Bounds.TurtleInfo.GetX | src/FractalDemo.java:305 | `(width - (minX + maxX)) / 2` in `int`, truncated toward zero. |
| Bounds.TurtleInfo.GetY | src/FractalDemo.java:306 | `(height - (minY + maxY)) / 2` in `int`, truncated toward zero. |
| Geometric.Pattern | src/FractalDemo.java:211-212 | The pattern of a level is made of `+ - [ ] F f` only. |
| Geometric.MeasureLevel | src/FractalDemo.java:211-215 | A measured level carries its own level number and pattern. Its box holds the origin and has `int` bounds. |
| Geometric.Search | src/FractalDemo.java:209-220 | A level the loop keeps has a measured box that passes the test of line 216 as written: its `int` width and height, subtracted in `int`, are below the canvas size. |
| Geometric.SearchFindsLastFit | src/FractalDemo.java:209-220 | The loop yields the last level that fits before the first one that does not, or level 99. Every level from 1 up to the chosen one fits, and the chosen level's measuring is the one kept. The loop yields no level exactly when level 1 overflows. A failure is the failure of the first level that fails, after levels that all fitted. |
| Geometric.Start | src/FractalDemo.java:223-225 | The drawing pass starts at `top == 0`, at `(getX(), getY())` with heading 0. |
| Geometric.MeasureFailure | src/FractalDemo.java:211-215 | Measuring a level fails only on an array index or an unknown symbol. |
| Geometric.RenderFailure | src/FractalDemo.java:202-227 | The painter's constructor fails exactly when the measuring loop completes and a canvas side is not positive. On a proper canvas the constructor fails on the `null` `lastInfo` exactly when level 1 overflows. Otherwise it fails only on an array index or an unknown symbol. |
| Geometric.RunFailsOnIndex | src/FractalDemo.java:380-406 | The turtle fails only on an array index. |
| Geometric.ChosenLevelInsideCanvas | src/FractalDemo.java:216-226 | When its width and height are `int`s, the box of the level that is drawn, moved to the start position, lies within the canvas. |
| Geometric.ExecuteCommand | src/FractalDemo.java:265-273 | Each case of the `switch` calls the turtle method that does what `Command` says on the turtle's state. |
| Geometric.Execute | src/FractalDemo.java:260-275 | The loop of `execute` leaves the turtle as `Run` says and returns its segments. With a `TurtleInfo` sink, the sink's box is the old box widened by those segments. Otherwise it returns `Run`'s failure. |
| Geometric.MeasureOnce | src/FractalDemo.java:211-215 | One iteration up to the fit test: the level's pattern and a fresh `TurtleInfo` whose box is the level's measured box, or the level's failure. |
| Geometric.NewGeometricFractal | src/FractalDemo.java:202-228 | The constructor returns the segments drawn on the image, or the exception that escapes it (from a level, the painter or the `null` `lastInfo`), exactly as `Render` describes. |
| Geometric.Paint | src/FractalDemo.java:222-227 | The drawing pass from the cleared turtle placed at `(getX(), getY())` draws what `Run` draws from `Start`. |
| Catalog.FractalOf | src/FractalDemo.java:480-491 | `getFractal(id)` fails with an `IndexOutOfBoundsException` exactly when `id` is outside the list. The type code `MANDELBROT` gives the Mandelbrot fractal and `NEWTON` the Newton fractal. Any other code but `GEOMETRIC` gives the dummy. A geometric entry renders as the constructor does, and a plain entry with type `GEOMETRIC` fails on the cast. |
| Catalog.Names | src/FractalDemo.java:472-478 | The menu has one name per entry. |
| Catalog.NameAt | src/FractalDemo.java:472-478 | Menu line `i` is the name of entry `i`. |
| Catalog.GetNames | src/FractalDemo.java:472-478 | `getNames()` returns a fresh array holding the entries' names in catalog order. |
| Catalog.MenuSelectsEntry | src/FractalDemo.java:472-491 | A menu index is a valid line exactly when `getFractal` finds an entry there, and that line shows the entry's name. |

Some functions define source lines, and what they promise is stated by the
lemmas and methods above. Each of them computes what the Java code at the
cited lines computes:
- `Rules.ParseRule`, `Rules.ParseRules`, `JavaLang.Split`, `JavaLang.Trim`:
  src/FractalDemo.java:143-147;
- `Rules.FindRule`: src/FractalDemo.java:162-168;
- `Turtles.Run` (`execute`): src/FractalDemo.java:260-275;
- `Turtles.Initial` (`new Turtle(scale)`): src/FractalDemo.java:347-352;
- `Turtles.Cleared` (`clearState`): src/FractalDemo.java:359-365;
- `Turtles.Placed` (`setX`/`setY`): src/FractalDemo.java:369-370;
- `Turtles.Popped` (`popState`): src/FractalDemo.java:389;
- `Turtles.Turned` (`rotate`): src/FractalDemo.java:392;
- `Bounds.BoxOf` (a run of `draw` calls): src/FractalDemo.java:296-300;
- `Catalog.Name`, `Catalog.TypeOf` (`getName`, `getType`): src/FractalDemo.java:120-128;
- `Geometric.Render` (the constructor): src/FractalDemo.java:202-227.

## Left out

- The Swing user interface (`FractalDemo`, `FractalPanel`, the combo-box listener) is presentation code.
- `TurtlePainter` and `BufferedImage` are a foreign graphics library. The drawing pass returns the sequence of `draw(x1, y1, x2, y2)` calls the painter would receive. Of the painter's failures only the rejection of a side that is not positive is modelled; a canvas too large to allocate is not.
- `float` arithmetic is modelled as exact `real` arithmetic: coordinates, headings and the angle. Rounding is therefore not modelled. This includes the `int` to `float` conversion in `setX(lastInfo.getX())`, which is exact only up to 2^24.
- `Float.parseFloat` of the angle text is not modelled. The descriptor holds the parsed angle as a `real`, and a malformed angle text (a `NumberFormatException`) is not represented.
- The trigonometry of `forward` is not modelled (`Math.cos`, `Math.sin`, the degree-to-radian factor and the multiplication by the scale). It is the parameter `Step`, which gives the next position from the current one, the heading and the scale.
- `Complex`, `MandelbrotFractal` and `NewtonFractal` use `double` iteration whose result depends on IEEE rounding. `getFractal` returns them as the opaque values `MandelbrotImage` and `NewtonImage`. The escape-time colour `8 * (511 - i)`, which lies in `0..4088`, is not modelled.
- `DummyFractal.getImage()` returns `null`, modelled as the value `DummyImage`.
- The catalog's literal entries in the static initialiser are data, not logic. The catalog is a parameter.
- The turtle's no-argument constructor (scale 5) and `setAngle`/`getAngle` used on their own are not called by the engine. `clearState` and `Current` cover them.
- `TurtleInfo.toString` is debug output.
- `String.format("%c", x)` is modelled as the one-character string `[x]`. Characters outside the Basic Multilingual Plane are not modelled.
- `String.split` is modelled for a one-character separator that is not a regular-expression metacharacter, which covers `:` and `;`. General regular expressions are not modelled.
- The state of the turtle and the sink after an exception has escaped is not stated. `Geometric.Execute` and `Geometric.MeasureOnce` state only the failure on that path. The Java object holding that state is discarded with the exception.
- Bounds.CenteredInside: states centring only for canvases of at most 2^30 pixels a side, because beyond that `size - (lo + hi)` can itself wrap.
- Bounds.FittingBoxCentered: states centring only for canvases of at most 2^30 pixels a side, for the same reason.
- Geometric.ChosenLevelInsideCanvas: states centring only for canvases of at most 2^30 pixels a side, for the same reason. The catalog's canvas is 400. It also assumes the drawn box's width and height are `int`s. Beyond that, `getWidth()`/`getHeight()` wrap and the test of line 216 can pass a box far wider than the canvas (`Bounds.WrappedWidthFits`). The engine never gets there: every end point starts at the origin and moves by `float` steps of length at most 4 (the scale of `new Turtle(4)`), and `float` addition stops advancing near 2^26. Real arithmetic in the model does not capture that bound.
- Geometric.Paint: states the segments drawn and the failure, but not the turtle's state after the drawing pass, which the constructor never reads again.
