# Parker spiral surface and spacecraft position conversion

This project models the two computational pieces of a set of scripts that plot
the Parker Solar Probe (PSP) and the MMS spacecraft against a model of the
heliospheric current sheet.

* `compute_parker_spiral_surface` works on a grid of (azimuth, radius)
  samples. For each cell it computes an undulating polar angle and a spiral
  twist that starts at `r_min`. It then maps the cell to a Cartesian point and
  computes a normalised magnetic field magnitude `B`.
  * Every 2-D numpy array is modelled as a `Grid`: `n_phi` rows of `n_r` cells.
    The 1-D sample vectors `r_vals` and `phi_vals` are `seq<real>`.
  * `np.linspace` and `np.meshgrid` (default "xy" indexing) are modelled in
    `grids.dfy`.
* The conversion of an MMS position from Earth-centred GSE kilometres to
  heliocentric astronomical units divides by a km-per-AU constant, then adds
  Earth's assumed position `(1, 0, 0)`.
  * It is defined once, as `GseKmToHeliocentricAu(p, kmPerAu)`.
  * Each of the four call sites is modelled in its own shape. Its contract
    says it equals the generic conversion at that call site's literal.
  * The Parker-spiral script uses `1.4959787e8`. `psp_plus_mms.py` uses the
    IAU 2012 value `149597870.7`.

All arithmetic is on Dafny `real`. `pi`, `sin`, `cos` and `sqrt` are values
handed to the model (`Transcendentals.Transcendentals`). The proofs use only
these laws about them (`Transcendentals.Lawful`):

* `pi > 0`;
* `sin 0 = 0`;
* `sin² + cos² = 1`;
* `sqrt x > 0` for `x > 0`.

`Transcendentals.LawsAreConsistent` shows that the laws can all hold at once.

Files:

* `transcendentals.dfy`: the transcendental operations and their laws.
* `grids.dfy`: `linspace` and `meshgrid`.
* `parker_spiral.dfy`: the surface model.
* `position_conversion.dfy`: the position conversion and both findings.

The source does no parameter validation. The surface's parameter conditions are
therefore `requires` clauses (`ParkerSpiral.Admissible`): rotation period, wind
speed and both radii positive. Where a property needs more, its lemma asks for
it, for example `r_min < r_max` or `n >= 2`.

## Model

| member | source | states |
|---|---|---|
| Transcendentals.Pythagoras | psp_plus_mms_plus_parker_spiral.py:53-55 | the identity `sin² a + cos² a = 1` in the squared form the point formulas need |
| Transcendentals.SqrtOfAtLeastOnePositive | psp_plus_mms_plus_parker_spiral.py:58-59 | the square root of an argument of at least 1 is positive |
| Transcendentals.Radians | psp_plus_mms_plus_parker_spiral.py:33-34 | `np.radians`, `deg × pi / 180`; used for `tilt` and `amp`, whose properties are stated through `PolarAngleAtZeroAzimuth` and `FieldIsOneAtOneAu` |
| Grids.Linspace | psp_plus_mms_plus_parker_spiral.py:42-43 | `np.linspace` yields exactly `num` samples |
| Grids.LinspaceEndpoints | psp_plus_mms_plus_parker_spiral.py:42-43 | the first sample is `start`; with two or more samples the last is `stop` |
| Grids.LinspaceUniformStep | psp_plus_mms_plus_parker_spiral.py:42-43 | consecutive samples differ by `(stop - start) / (num - 1)` |
| Grids.LinspaceStrictlyIncreasing | psp_plus_mms_plus_parker_spiral.py:42-43 | with `start < stop`, sample `j` is below sample `k` whenever `j < k` |
| Grids.LinspaceWithin | psp_plus_mms_plus_parker_spiral.py:42-43 | every sample lies between the two endpoints, in either order |
| Grids.LinspacePositive | psp_plus_mms_plus_parker_spiral.py:42 | samples between two positive endpoints are positive, so every radius is positive |
| Grids.Meshgrid | psp_plus_mms_plus_parker_spiral.py:44 | both grids have shape `(len(ys), len(xs))`, with `X[i][j] = xs[j]` and `Y[i][j] = ys[i]` |
| ParkerSpiral.WindingFactor | psp_plus_mms_plus_parker_spiral.py:58-59 | `sqrt(1 + a² b²)` is positive |
| ParkerSpiral.SqrtArgumentAtLeastOne | psp_plus_mms_plus_parker_spiral.py:58-59 | the argument `1 + a² b²` of both square roots is at least 1 |
| ParkerSpiral.FieldNormalisation | psp_plus_mms_plus_parker_spiral.py:58 | `B0_norm > 0`; that it normalises `B` to 1 at 1 AU where `sin(theta) = cos(tilt)` is `FieldIsOneAtOneAu` |
| ParkerSpiral.FieldStrength | psp_plus_mms_plus_parker_spiral.py:59 | `B > 0` at every non-zero radius |
| ParkerSpiral.RotationRate | psp_plus_mms_plus_parker_spiral.py:37 | `omega = 2 pi / solar_rot_days`; positive by `WindingRatesPositive` |
| ParkerSpiral.WindSpeedAuPerDay | psp_plus_mms_plus_parker_spiral.py:38 | `v_sw_AU_day = v_sw_km_s × 86400 / 1.4959787e8`; positive by `WindingRatesPositive` |
| ParkerSpiral.WindingRate | psp_plus_mms_plus_parker_spiral.py:39 | `alpha = omega / v_sw_AU_day`; positive, with its closed form, by `WindingRatesPositive` |
| ParkerSpiral.RadialSamples | psp_plus_mms_plus_parker_spiral.py:42 | `r_vals = np.linspace(r_min, r_max, n_r)`; its endpoints and order are `RadialSamplesSpan` |
| ParkerSpiral.AzimuthSamples | psp_plus_mms_plus_parker_spiral.py:43 | `phi_vals = np.linspace(0, 2 pi, n_phi)`; its endpoints and order are `AzimuthSamplesSpan` |
| ParkerSpiral.SurfaceMesh | psp_plus_mms_plus_parker_spiral.py:44 | `R, Phi = np.meshgrid(r_vals, phi_vals)`; its indexing is `MeshIndexing` |
| ParkerSpiral.PolarAngle | psp_plus_mms_plus_parker_spiral.py:47 | the cell formula `(pi/2 - tilt) + amp sin(2 phi)`; at `phi = 0` it is `pi/2 - tilt` (`PolarAngleAtZeroAzimuth`) |
| ParkerSpiral.TwistedAzimuth | psp_plus_mms_plus_parker_spiral.py:50 | the cell formula `phi + alpha (r - r_min)`; zero twist at `r_min` and growth with `r` are `TwistVanishesAtInnerRadius` and `TwistIncreasesWithRadius` |
| ParkerSpiral.PointX | psp_plus_mms_plus_parker_spiral.py:53 | the cell formula `r sin(theta) cos(phi)`; with `PointY` and `PointZ` the point lies on the sphere of radius `r` (`SphericalPointOnSphere`) |
| ParkerSpiral.PointY | psp_plus_mms_plus_parker_spiral.py:54 | the cell formula `r sin(theta) sin(phi)`; `SphericalPointOnSphere` |
| ParkerSpiral.PointZ | psp_plus_mms_plus_parker_spiral.py:55 | the cell formula `r cos(theta)`; `SphericalPointOnSphere` |
| ParkerSpiral.PolarAngles | psp_plus_mms_plus_parker_spiral.py:47 | `theta` elementwise over `Phi`; each cell given by `PolarAngleCell`, the `phi = 0` row by `PolarAngleAtZeroAzimuth` |
| ParkerSpiral.TwistedAzimuths | psp_plus_mms_plus_parker_spiral.py:50 | `Phi_spiral` elementwise; each cell given by `TwistCell`, with `TwistVanishesAtInnerRadius` and `TwistIncreasesWithRadius` |
| ParkerSpiral.CartesianX | psp_plus_mms_plus_parker_spiral.py:53 | `x = R sin(theta) cos(Phi_spiral)` elementwise; cells given by `CellsCoRegistered`, on the sphere of radius `R` by `SurfaceOnSphere` |
| ParkerSpiral.CartesianY | psp_plus_mms_plus_parker_spiral.py:54 | `y = R sin(theta) sin(Phi_spiral)` elementwise; cells given by `CellsCoRegistered`, on the sphere by `SurfaceOnSphere` |
| ParkerSpiral.CartesianZ | psp_plus_mms_plus_parker_spiral.py:55 | `z = R cos(theta)` elementwise; cells given by `CellsCoRegistered`, on the sphere by `SurfaceOnSphere` |
| ParkerSpiral.FieldMagnitudes | psp_plus_mms_plus_parker_spiral.py:59 | `B` elementwise over `R` and `theta`; cells given by `CellsCoRegistered`, positive by `SurfaceFieldPositive` |
| ParkerSpiral.ComputeParkerSpiralSurface | psp_plus_mms_plus_parker_spiral.py:24-61 | `x`, `y`, `z` and `B` all have shape `(n_phi, n_r)` |
| ParkerSpiral.WindingRatesPositive | psp_plus_mms_plus_parker_spiral.py:37-39 | `omega`, `v_sw_AU_day` and `alpha` are strictly positive, and `alpha = 2 pi AU_km / (86400 rot v)` |
| ParkerSpiral.RadialSamplesSpan | psp_plus_mms_plus_parker_spiral.py:42 | for `n_r >= 2` the radii run from `r_min` to `r_max`, strictly increasing when `r_min < r_max` |
| ParkerSpiral.AzimuthSamplesSpan | psp_plus_mms_plus_parker_spiral.py:43 | for `n_phi >= 2` the azimuths run from 0 to `2 pi`, strictly increasing |
| ParkerSpiral.MeshIndexing | psp_plus_mms_plus_parker_spiral.py:44 | `R[i][j] = r_vals[j]` and `Phi[i][j] = phi_vals[i]` |
| ParkerSpiral.PolarAngleCell | psp_plus_mms_plus_parker_spiral.py:47 | `theta[i][j]` is the undulating polar angle of azimuth sample `i`, the same in every column |
| ParkerSpiral.TwistCell | psp_plus_mms_plus_parker_spiral.py:50 | `Phi_spiral[i][j] = phi_vals[i] + alpha (r_vals[j] - r_min)` |
| ParkerSpiral.CellsCoRegistered | psp_plus_mms_plus_parker_spiral.py:44-59 | cell `(i, j)` of `x`, `y`, `z` and `B` is computed from radius `r_vals[j]` (positive), polar angle `theta(phi_vals[i])` and the twisted azimuth of that cell |
| ParkerSpiral.TwistVanishesAtInnerRadius | psp_plus_mms_plus_parker_spiral.py:50 | `Phi_spiral[i][0] = Phi[i][0]` |
| ParkerSpiral.TwistIncreasesWithRadius | psp_plus_mms_plus_parker_spiral.py:50 | with `r_min < r_max`, `Phi_spiral[i][j] < Phi_spiral[i][k]` whenever `j < k` |
| ParkerSpiral.PolarAngleAtZeroAzimuth | psp_plus_mms_plus_parker_spiral.py:47 | on the `phi = 0` row, `theta = pi/2 - tilt` |
| ParkerSpiral.SphericalPointOnSphere | psp_plus_mms_plus_parker_spiral.py:53-55 | the spherical-to-Cartesian map satisfies `x² + y² + z² = r²` |
| ParkerSpiral.SurfaceOnSphere | psp_plus_mms_plus_parker_spiral.py:53-55 | every returned point lies on the sphere of its grid radius: `x² + y² + z² = r_vals[j]²` |
| ParkerSpiral.SurfaceFieldPositive | psp_plus_mms_plus_parker_spiral.py:58-59 | `B[i][j] > 0` in every cell |
| ParkerSpiral.FieldAtOneAu | psp_plus_mms_plus_parker_spiral.py:58-59 | at `R = 1` the inverse-square factor drops out: `B = B0_norm sqrt(1 + alpha² sin² theta)` |
| ParkerSpiral.FieldIsOneAtOneAu | psp_plus_mms_plus_parker_spiral.py:58-59 | the normalisation the colour bar names ("B at 1 AU = 1", lines 312 and 339): at `R = 1`, wherever `sin(theta) = cos(tilt)`, `B = 1` |
| ParkerSpiral.DefaultSurfaceExtent | psp_plus_mms_plus_parker_spiral.py:24-26 | the default parameters are admissible, give 100-by-100 `x`, `y`, `z` and `B` arrays, and radii from 0.1 to 1.5 AU, increasing |
| PositionConversion.KmToAu | psp_plus_mms.py:195-197 | division of each coordinate by the constant; scaling back gives the input (`ConversionScalesBack`), and it is linear (`KmToAuLinear`) |
| PositionConversion.GseKmToHeliocentricAu | psp_plus_mms.py:95-105 | the single conversion, units first and then Earth's offset; inverted by `HeliocentricAuToGseKm` (`RoundTripFromKm`, `RoundTripFromAu`), with the order fixed by `OffsetAfterDivision`; every call site is proved equal to it |
| PositionConversion.HeliocentricAuToGseKm | psp_plus_mms.py:95-105 | `km = (helio - (1, 0, 0)) AU_km`, the inverse; `RoundTripFromKm` and `RoundTripFromAu` |
| PositionConversion.ConversionScalesBack | psp_plus_mms.py:95-105 | multiplying the AU result by the constant gives back the km input; for the heliocentric result, after Earth's offset is removed |
| PositionConversion.RoundTripFromKm | psp_plus_mms.py:95-105 | `km = (helio - (1,0,0)) AU_km` undoes the conversion |
| PositionConversion.RoundTripFromAu | psp_plus_mms.py:95-105 | the conversion undoes `km = (helio - (1,0,0)) AU_km` |
| PositionConversion.OffsetAfterDivision | psp_plus_mms.py:95-105 | adding the offset before dividing gives a different point for every constant other than 1 |
| PositionConversion.KmToAuLinear | psp_plus_mms.py:195-197 | the unit-only conversion is linear (it adds no offset) |
| PositionConversion.AnalyzeMmsHeliocentric | psp_plus_mms_plus_parker_spiral.py:165-169 | equals the generic conversion at `1.4959787e8` |
| PositionConversion.MainMmsHeliocentric | psp_plus_mms_plus_parker_spiral.py:284-290 | equals the generic conversion at `1.4959787e8` |
| PositionConversion.PlotSpacecraftMmsHeliocentric | psp_plus_mms.py:92-105 | equals the generic conversion at `149597870.7` |
| PositionConversion.PlotBothPositionsAu | psp_plus_mms.py:195-197 | both points are their inputs divided by `149597870.7`, with no offset |
| PositionConversion.ParkerCallSitesAgree | psp_plus_mms_plus_parker_spiral.py:165-169 | the two conversions of the Parker-spiral script agree and give `(1 + x/1.4959787e8, y/1.4959787e8, z/1.4959787e8)` |
| PositionConversion.IauOriginToEarth | psp_plus_mms.py:98-105 | the GSE origin maps to Earth's plotted point `(1, 0, 0)` |
| PositionConversion.IauOneAuAlongX | psp_plus_mms.py:95-105 | `(149597870.7, 0, 0)` km maps to `(2, 0, 0)` AU |
| PositionConversion.IauOneAuAlongXAndY | psp_plus_mms.py:95-105 | `(149597870.7, 149597870.7, 0)` km maps to `(2, 1, 0)` AU |
| PositionConversion.KmPerAuLiteralsDisagree | psp_plus_mms.py:92 | for the same input, the two literals' results differ along each axis by exactly the coordinate times `0.7 / (149597870.0 × 149597870.7)`, so they agree only at the origin |
| PositionConversion.PlotBothKeepsGseFrame | psp_plus_mms.py:195-216 | Earth's GSE origin stays at `(0, 0, 0)`, and the Sun's GSE position lands on the drawn Sun `(1, 0, 0)` |
| PositionConversion.SunSentTwoAuOut | psp_plus_mms.py:95-105 | as written, the Sun's GSE position converts to `(2, 0, 0)`, and a point half-way to the Sun converts to a point 1.5 AU from the Sun |
| PositionConversion.TurnedConversionIsFaithful | psp_plus_mms.py:95-105 | the turned conversion sends the Sun to the origin and Earth to `(1, 0, 0)`, and preserves distances up to the unit change |
| PositionConversion.TurnedConversionKeepsSunDistance | psp_plus_mms.py:95-105 | under the turned conversion, a point's distance from the Sun is its GSE distance from the Sun's position |
| PositionConversion.PspDrawnOnEarth | psp_plus_mms.py:196 | as written, a PSP position with every coordinate within ±2 AU is drawn with every coordinate within ±`2/149597870.7` AU of Earth's drawn point, and PSP at the Sun is drawn exactly on Earth |
| PositionConversion.PspDrawnNearEarth | psp_plus_mms.py:196 | as written, PSP's drawn distance from Earth's marker is its heliocentric distance divided by `149597870.7`, so PSP within 2 AU of the Sun is drawn within `2/149597870.7` AU of Earth |
| PositionConversion.GseKmToHeliocentricAuTurned | psp_plus_mms.py:95-105 | the corrected conversion `(1 - x/c, -y/c, z/c)`; `TurnedConversionIsFaithful` and `TurnedConversionKeepsSunDistance` |
| PositionConversion.HeliocentricAuToGseAu | psp_plus_mms.py:196 | the corrected PSP map into GSE AU, `(1 - x, -y, z)`; `PlotBothCorrectedPlacesPsp` and `PlotBothCorrectedSharesFrame` |
| PositionConversion.PlotBothPositionsCorrected | psp_plus_mms.py:196-197 | PSP is taken from heliocentric AU into GSE AU; MMS is divided as before |
| PositionConversion.PlotBothCorrectedPlacesPsp | psp_plus_mms.py:196 | corrected, PSP at the Sun is drawn on the drawn Sun, PSP at Earth on the origin, and PSP's distance from the drawn Sun is its heliocentric distance |
| PositionConversion.PlotBothCorrectedSharesFrame | psp_plus_mms.py:196-197 | corrected, a GSE position taken heliocentric by the turned conversion and drawn as PSP lands where that position is drawn as MMS |

## Left out

- Fetching ephemerides from JPL Horizons and CDAWeb. This is network I/O; positions enter the model as parameters.
- All matplotlib plotting, colour normalisation and saving images. These are output only.
- The `Sun` and `Earth` markers. They appear only as constants: `PositionConversion.EarthHeliocentric` and the drawn Sun `(1, 0, 0)`.
- Interactive prompts and menus (`get_input`, `main.py`). These are console input.
- `calculate_parker_spiral`. Nothing calls it.
- `jpl_approach_psp.py` and `mms.py`. They are fetch and plot code only. The km-to-AU division in `mms.py` is the same as `PositionConversion.KmToAu`.
- Floating-point rounding. Every quantity is an exact `real`, and `pi`, `sin`, `cos` and `sqrt` keep only the laws listed above.
- Integer-to-float behaviour of `1 / R` and `(...)**2` is taken as real division and squaring.
- The source checks none of its parameters, and the model states the parameter conditions as preconditions (`ParkerSpiral.Admissible`) rather than as error results. What happens outside them is not modelled. Both callers pass the period and the speed as Python floats, so a zero rotation period raises `ZeroDivisionError` at psp_plus_mms_plus_parker_spiral.py:37, and a zero wind speed makes `v_sw_AU_day` zero and raises `ZeroDivisionError` at line 39. A negative period or speed gives a negative `alpha`, so the spiral winds the other way. A zero radius gives an infinite `B` through numpy's `1 / R` at line 59. `n_r` and `n_phi` are `nat`, so numpy's `ValueError` for a negative sample count cannot arise.
- A reconciler driven by (frame, unit) tags, with unsupported-tag errors and a configurable Earth offset, is not part of this model. The scripts have no such function: each call site hard-codes its own constant and offset, and those call sites are what the model contains.
- The same applies to an idempotence property for positions already in heliocentric AU. There is no tagged input in the code to apply it to.
- `ParkerSpiral.FieldStrength`: only its positivity is stated as a contract. Its value is fixed by its definition; `ParkerSpiral.FieldAtOneAu` states it at 1 AU and `ParkerSpiral.FieldIsOneAtOneAu` the normalisation to 1 there.

## Findings

| source | as written | input that shows it | evidently intended | confidence | as-written member | corrected member |
|---|---|---|---|---|---|---|
| psp_plus_mms.py:95-105 | the GSE position in AU is added to Earth's heliocentric position `(1, 0, 0)`, with the GSE axes used as heliocentric axes | the Sun's own GSE position `(149597870.7, 0, 0)` km lands at `(2, 0, 0)`, 2 AU from the Sun (GSE `+x` points from Earth to the Sun, and `plot_both_positions` draws the Sun there) | GSE `x` and `y` reversed before the offset, giving `(1 - x/AU_km, -y/AU_km, z/AU_km)`: the Sun lands at the origin and distances are kept | medium; not executed | PositionConversion.SunSentTwoAuOut | PositionConversion.TurnedConversionIsFaithful |
| psp_plus_mms_plus_parker_spiral.py:166-169 | the same axis-preserving shift, at `1.4959787e8` (and again at lines 284-290) | the Sun's GSE position `(149597870, 0, 0)` km lands at `(2, 0, 0)` | the turned conversion at the same constant | medium; not executed | PositionConversion.SunSentTwoAuOut | PositionConversion.TurnedConversionKeepsSunDistance |
| psp_plus_mms.py:196 | PSP's position is divided by `149597870.7`, but `fetch_psp_position_horizons` (lines 12-35) returns it in AU relative to the Sun | PSP at heliocentric `(0.1, 0, 0)` AU is drawn about `7e-10` AU from Earth's marker instead of near the Sun's marker | PSP taken from heliocentric AU into GSE AU, `(1 - x, -y, z)` | medium; not executed | PositionConversion.PspDrawnOnEarth | PositionConversion.PlotBothCorrectedPlacesPsp |

The call-site members (`AnalyzeMmsHeliocentric`, `MainMmsHeliocentric`,
`PlotSpacecraftMmsHeliocentric`, `PlotBothPositionsAu`) model the code as
written. The corrected definitions are `GseKmToHeliocentricAuTurned`,
`HeliocentricAuToGseAu` and `PlotBothPositionsCorrected`.

The two km-per-AU literals differ by 0.7 km. That difference is not listed as
a finding: at Earth-orbit distances its effect is below one part in 10⁸.
`KmPerAuLiteralsDisagree` gives its exact size.
