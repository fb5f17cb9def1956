# FoodBox dashboard layout, in Dafny

FoodBox is an Arduino sketch for a GIGA display. Every two seconds it reads a
temperature/humidity sensor and an ambient-light sensor, clears the screen and
redraws everything. The whole screen height is cut into three equal horizontal bands, top to
bottom, for temperature, humidity and light. Each band prints a label a
quarter of the way down and the reading halfway down, in a fixed left column.
The header sits at the right of the top band: a "FoodBox" title anchored at
the top right, with a seedling icon centred under it.

This project models the part of `loop()` that has logic of its own: the
integer arithmetic that derives every drawing coordinate from four numbers.
Those numbers are the display's `width()` and `height()` after rotation, and
the width `w` and height `h` measured for the title. The project also models
the fixed shape of the seedling that `drawSeedling` draws.

The C++ integer rules are written out:

- `width()` and `height()` are `int16_t`, and the measured `w` and `h` are `uint16_t`.
- The arithmetic happens in `int` after promotion.
- Storing a result in an `int16_t` or `uint16_t` keeps it modulo 2^16. This covers local variables and the `int16_t` parameters of `setCursor`, `drawLine` and `fillCircle`. The language defines this wrap-around from C++20 on; before that it was implementation-defined, and GCC already wrapped.
- `height() / 3` truncates toward zero.

`Layout` is therefore total over all 16-bit inputs. The exact geometric
equalities are proved under explicit "does not wrap" conditions, and the
title alignment is also proved modulo 2^16 for every input.

Modules:

- `CInts` (cints.dfy): the `int16_t`/`uint16_t` value ranges, narrowing conversions and truncating division.
- `Gfx` (gfx.dfy): points, line segments and circles, the argument shapes of the drawing calls.
- `SeedlingIcon` (seedling.dfy): `drawSeedling`.
- `DashboardLayout` (layout.dfy): the coordinates computed in `loop()`, collected in one `Geometry` record.

## Model

| member | source | states |
|---|---|---|
| CInts.ToInt16 | src/main.cpp:61-68 | Storing an `int` in an `int16_t` gives an in-range value congruent to it modulo 2^16. That value is the input itself when the input already fits. |
| CInts.ToInt16Unique | src/main.cpp:61-68 | Any `int16_t` value congruent to `x` modulo 2^16 is the one the narrowing returns, so the conversion is fully determined. |
| CInts.ToUint16 | src/main.cpp:72 | Storing an `int` in a `uint16_t` gives an in-range value congruent to it modulo 2^16. That value is the input itself when the input already fits. |
| CInts.ToUint16Unique | src/main.cpp:72 | Any `uint16_t` value congruent to `x` modulo 2^16 is the one the narrowing returns. |
| CInts.Quot | src/main.cpp:72 | C++ division truncates toward zero. The remainder has the sign of the dividend and is smaller than the divisor. |
| CInts.QuotUnique | src/main.cpp:72 | Any quotient meeting that remainder condition equals `Quot`, and it equals floor division when the dividend is non-negative. |
| SeedlingIcon.Seedling | src/main.cpp:25-31 | The stem is vertical at the anchor column. Both leaves have radius `5 * ICON_SCALE` and are level with each other. |
| SeedlingIcon.SeedlingGeometry | src/main.cpp:18-30 | When nothing wraps, the stem starts one leaf radius below the anchor and is `20 * ICON_SCALE` = 80 long. The leaves have radius 20, mirror each other about the stem and each touch it. Their centres are level with the stem's midpoint. |
| SeedlingIcon.SeedlingBounds | src/main.cpp:28-30 | When nothing wraps, both leaves lie within two leaf radii of the stem horizontally and between the stem's top and bottom vertically. |
| SeedlingIcon.SeedlingMirrorModular | src/main.cpp:29-30 | For every anchor, the two leaf centres mirror each other about the stem modulo 2^16, even when a coordinate wraps. |
| DashboardLayout.Layout | src/main.cpp:57-100 | The title's top row is 5, and the seedling is drawn at the icon anchor. There are exactly three bands. Every label and value cursor uses column x = 10 whatever the inputs. |
| DashboardLayout.TitleRightAligned | src/main.cpp:61-62 | The title's right edge `textX + w` lies 10 px from the screen's right edge if and only if `width - w - 10` fits in `int16_t`. It always does so modulo 2^16, and `textY` is 5. |
| DashboardLayout.IconCentredUnderTitle | src/main.cpp:67-68 | If the header does not wrap, the icon anchor is `textX + w/2`, the title's horizontal centre rounded left. Its row is `textY + h + 5`, 5 px below the title. |
| DashboardLayout.SeedlingUnderTitle | src/main.cpp:66-69 | When neither the header nor the icon wraps, the drawn stem stands on the title's centre column. It starts `5 + rad` px below the title's bottom, and the icon spans at most two leaf radii either side. |
| DashboardLayout.BandsTileScreen | src/main.cpp:72 | For a non-negative height, `band == height / 3`. The three bands never pass the bottom and leave fewer than 3 rows unused: `3*band <= height < 3*band + 3`. |
| DashboardLayout.RowsWithinBands | src/main.cpp:77-100 | For band k in {Temp, Hum, Light}, the label row is `k*band + band/4` and the value row is `k*band + band/2`. The label row is never below the value row. When `band > 0`, both lie in `[k*band, (k+1)*band)`. |
| DashboardLayout.RowsEquallySpaced | src/main.cpp:77-100 | Label rows of bands i <= j differ by `(j-i)*band`, and so do value rows. When `band > 0` they strictly increase: Temp, then Hum, then Light. |
| DashboardLayout.BandsAreShifts | src/main.cpp:77-100 | The three band blocks are one block shifted down by k band heights. Band k's label is at `k*band + band/4` and its value at `k*band + band/2`, each narrowed to `int16_t`, for every height. |
| DashboardLayout.BandRowsFit | src/main.cpp:77-100 | For a non-negative height, the `int16_t` narrowing of each band's label and value rows changes nothing. The rows are exactly `k*band + band/4` and `k*band + band/2`. |
| DashboardLayout.BandRowsExact | src/main.cpp:77-100 | While three bands fit in `int16_t`, band k's label row `k*band + band/4` and value row `k*band + band/2` do not wrap. |
| DashboardLayout.BandCursors | src/main.cpp:77-100 | Walking the bands with a running band top gives the six label and value cursors in program order, all in column 10. When three bands fit in `int16_t`, their rows never go back up the screen. |
| DashboardLayout.FrameCursors | src/main.cpp:63-100 | The frame's seven `setCursor` positions are the title, then each band's label and value. They agree position by position with `Layout`, and all but the title are in column 10. For a non-negative height the six band cursors go down the screen. The title's row is at or above the Temp label's if and only if the height is at least 60. |
| DashboardLayout.LayoutDependsOnlyOnInputs | src/main.cpp:57-72 | No layout state persists between frames. The bands depend only on the height, the title only on width and `w`, and the icon and seedling on width, `w` and `h`. That equal inputs give equal geometry is automatic for a Dafny function, so it is not stated separately. |

## Left out

- Sensor I/O: `sht4.getEvent`, `veml.readLux`, and the `Serial`/`Wire1`/sensor `begin` calls in `setup()` call hardware driver libraries whose source is not part of this model.
- Drawing and measurement: `fillScreen`, `print`, `setTextColor`, `setTextSize`, the colours, and the pixels that `drawLine`/`fillCircle` produce belong to the graphics library. The model keeps only the coordinates passed to them. `getTextBounds` is an input: its `w` and `h` are parameters of `Layout`, and its `x0`/`y0` are never used by the sketch.
- Display size: `width()` and `height()` after `setRotation(1)` are parameters, because the library computes them.
- Floating point: the one-decimal printing of temperature and humidity and the `(int)lux` cast are float formatting and conversion.
- Timing: `delay(2000)` at the end of each frame is a clock call.
- CInts.Quot: defined for positive divisors only. The sketch divides only by the constants 3, 4 and 2.
- Negative display heights: `Layout` computes them with the same truncation and wrap-around as the C++, but the band lemmas assume a non-negative height. The library never reports a negative height.
