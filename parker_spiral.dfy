/**
 The warped, spiral-twisted heliospheric current sheet of
 `compute_parker_spiral_surface`: a grid of Cartesian points over
 (azimuth, radius) samples, and a co-registered grid of normalised magnetic
 field magnitudes. Every 2-D numpy array of the source is a `Grid` here, with
 `n_phi` rows (one per azimuth) of `n_r` cells (one per radius).
 */
module ParkerSpiral {
  import opened Transcendentals
  import opened Grids

  /** Kilometres per astronomical unit as this function writes it, `1.4959787e8`;
      the script's position conversions use the same literal
      (`PositionConversion.ShortKmPerAu`). */
  const SurfaceKmPerAu: real := 149597870.0
  const SecondsPerDay: real := 86400.0

  /** The keyword arguments of `compute_parker_spiral_surface`. */
  datatype SpiralParameters = SpiralParameters(
    rMin: real,          // AU
    rMax: real,          // AU
    nR: nat,             // radial samples
    nPhi: nat,           // azimuthal samples
    tiltDeg: real,       // degrees
    ampDeg: real,        // degrees
    solarRotDays: real,  // days
    vSwKmS: real)        // km/s

  /** The defaults of the Python signature. */
  const Defaults: SpiralParameters := SpiralParameters(0.1, 1.5, 100, 100, 10.0, 15.0, 25.4, 400.0)

  /** Parameters for which every division and square root of the model is
      defined: positive rotation period, wind speed and radii. */
  predicate Admissible(p: SpiralParameters) {
    p.solarRotDays > 0.0 && p.vSwKmS > 0.0 && p.rMin > 0.0 && p.rMax > 0.0
  }

  // ---------------------------------------------------------------------
  // Derived physical rates (the three scalar lines of the function)
  // ---------------------------------------------------------------------

  /** `omega = 2 * pi / solar_rot_days`, in rad/day. */
  function RotationRate(t: Transcendentals, p: SpiralParameters): real
    requires Admissible(p)
  {
    2.0 * t.pi / p.solarRotDays
  }

  /** `v_sw_AU_day = (v_sw_km_s * 86400) / AU_km`. */
  function WindSpeedAuPerDay(p: SpiralParameters): real {
    (p.vSwKmS * SecondsPerDay) / SurfaceKmPerAu
  }

  /** `alpha = omega / v_sw_AU_day`, in rad/AU. */
  function WindingRate(t: Transcendentals, p: SpiralParameters): real
    requires Admissible(p)
  {
    RotationRate(t, p) / WindSpeedAuPerDay(p)
  }

  // ---------------------------------------------------------------------
  // The parameter grid
  // ---------------------------------------------------------------------

  /** `r_vals = np.linspace(r_min, r_max, n_r)`. */
  function RadialSamples(p: SpiralParameters): seq<real> {
    Linspace(p.rMin, p.rMax, p.nR)
  }

  /** `phi_vals = np.linspace(0, 2 * np.pi, n_phi)`. */
  function AzimuthSamples(t: Transcendentals, p: SpiralParameters): seq<real> {
    Linspace(0.0, 2.0 * t.pi, p.nPhi)
  }

  /** `R, Phi = np.meshgrid(r_vals, phi_vals)`: `R` is `.xs`, `Phi` is `.ys`. */
  function SurfaceMesh(t: Transcendentals, p: SpiralParameters): Mesh {
    Meshgrid(RadialSamples(p), AzimuthSamples(t, p))
  }

  // ---------------------------------------------------------------------
  // Per-cell formulas
  // ---------------------------------------------------------------------

  /** `theta = (pi / 2 - tilt) + amp * sin(2 * phi)`. */
  function PolarAngle(t: Transcendentals, tilt: real, amp: real, phi: real): real {
    (t.pi / 2.0 - tilt) + amp * Sin(t, 2.0 * phi)
  }

  /** `phi + alpha * (r - r_min)`: the azimuth at radius `r` after the spiral twist. */
  function TwistedAzimuth(alpha: real, rMin: real, r: real, phi: real): real {
    phi + alpha * (r - rMin)
  }

  /** The spherical-to-Cartesian map of the three coordinate lines. */
  function PointX(t: Transcendentals, r: real, theta: real, phi: real): real {
    r * Sin(t, theta) * Cos(t, phi)
  }

  function PointY(t: Transcendentals, r: real, theta: real, phi: real): real {
    r * Sin(t, theta) * Sin(t, phi)
  }

  function PointZ(t: Transcendentals, r: real, theta: real): real {
    r * Cos(t, theta)
  }

  /** `sqrt(1 + a**2 * b**2)`, the winding correction under both square
      roots of the field model; its argument is at least 1, so it is positive. */
  function WindingFactor(t: Transcendentals, a: real, b: real): (f: real)
    requires Lawful(t)
    ensures f > 0.0
  {
    SqrtArgumentAtLeastOne(a, b);
    SqrtOfAtLeastOnePositive(t, 1.0 + Sq(a) * Sq(b));
    Sqrt(t, 1.0 + Sq(a) * Sq(b))
  }

  /** `B0_norm = 1 / sqrt(1 + (omega / v_sw_AU_day)**2 * cos(tilt)**2)` is positive. */
  function FieldNormalisation(t: Transcendentals, p: SpiralParameters): (b0: real)
    requires Lawful(t) && Admissible(p)
    ensures b0 > 0.0
  {
    1.0 / WindingFactor(t, RotationRate(t, p) / WindSpeedAuPerDay(p), Cos(t, Radians(t, p.tiltDeg)))
  }

  /** `B = B0_norm * (1 / R)**2 * sqrt(1 + (omega * R / v_sw_AU_day)**2 * sin(theta)**2)`
      at one cell of radius `r` and polar angle `theta`: positive at every
      non-zero radius. */
  function FieldStrength(t: Transcendentals, p: SpiralParameters, r: real, theta: real): (b: real)
    requires Lawful(t) && Admissible(p)
    requires r != 0.0
    ensures b > 0.0
  {
    var b0 := FieldNormalisation(t, p);
    var w := WindingFactor(t, RotationRate(t, p) * r / WindSpeedAuPerDay(p), Sin(t, theta));
    assert Sq(1.0 / r) > 0.0 by {
      if r > 0.0 { MulPos(1.0 / r, 1.0 / r); } else { MulPos(-1.0 / r, -1.0 / r); }
    }
    MulPos(b0, Sq(1.0 / r));
    MulPos(b0 * Sq(1.0 / r), w);
    b0 * Sq(1.0 / r) * w
  }

  /** `1 + a**2 * b**2`, the argument of both square roots, is at least 1. */
  lemma SqrtArgumentAtLeastOne(a: real, b: real)
    ensures 1.0 + Sq(a) * Sq(b) >= 1.0
  {
    MulNonneg(Sq(a), Sq(b));
  }

  // ---------------------------------------------------------------------
  // The elementwise grids
  // ---------------------------------------------------------------------

  /** `theta`, elementwise over `Phi`. */
  function PolarAngles(t: Transcendentals, p: SpiralParameters): Grid {
    var phi := SurfaceMesh(t, p).ys;
    seq(p.nPhi, i requires 0 <= i < p.nPhi =>
      seq(p.nR, j requires 0 <= j < p.nR =>
        PolarAngle(t, Radians(t, p.tiltDeg), Radians(t, p.ampDeg), phi[i][j])))
  }

  /** `Phi_spiral = Phi + alpha * (R - r_min)`, elementwise. */
  function TwistedAzimuths(t: Transcendentals, p: SpiralParameters): Grid
    requires Admissible(p)
  {
    var m := SurfaceMesh(t, p);
    var alpha := WindingRate(t, p);
    seq(p.nPhi, i requires 0 <= i < p.nPhi =>
      seq(p.nR, j requires 0 <= j < p.nR =>
        TwistedAzimuth(alpha, p.rMin, m.xs[i][j], m.ys[i][j])))
  }

  /** `x = R * sin(theta) * cos(Phi_spiral)`. */
  function CartesianX(t: Transcendentals, p: SpiralParameters): Grid
    requires Admissible(p)
  {
    var r, theta, phiSpiral := SurfaceMesh(t, p).xs, PolarAngles(t, p), TwistedAzimuths(t, p);
    seq(p.nPhi, i requires 0 <= i < p.nPhi => seq(p.nR, j requires 0 <= j < p.nR =>
      PointX(t, r[i][j], theta[i][j], phiSpiral[i][j])))
  }

  /** `y = R * sin(theta) * sin(Phi_spiral)`. */
  function CartesianY(t: Transcendentals, p: SpiralParameters): Grid
    requires Admissible(p)
  {
    var r, theta, phiSpiral := SurfaceMesh(t, p).xs, PolarAngles(t, p), TwistedAzimuths(t, p);
    seq(p.nPhi, i requires 0 <= i < p.nPhi => seq(p.nR, j requires 0 <= j < p.nR =>
      PointY(t, r[i][j], theta[i][j], phiSpiral[i][j])))
  }

  /** `z = R * cos(theta)`. */
  function CartesianZ(t: Transcendentals, p: SpiralParameters): Grid {
    var r, theta := SurfaceMesh(t, p).xs, PolarAngles(t, p);
    seq(p.nPhi, i requires 0 <= i < p.nPhi => seq(p.nR, j requires 0 <= j < p.nR =>
      PointZ(t, r[i][j], theta[i][j])))
  }

  /** `B`, elementwise over `R` and `theta`. */
  function FieldMagnitudes(t: Transcendentals, p: SpiralParameters): Grid
    requires Lawful(t) && Admissible(p)
  {
    var r, theta := SurfaceMesh(t, p).xs, PolarAngles(t, p);
    LinspacePositive(p.rMin, p.rMax, p.nR);
    seq(p.nPhi, i requires 0 <= i < p.nPhi => seq(p.nR, j requires 0 <= j < p.nR =>
      FieldStrength(t, p, r[i][j], theta[i][j])))
  }

  /** The four arrays the function returns. */
  datatype Surface = Surface(x: Grid, y: Grid, z: Grid, b: Grid)

  /** `compute_parker_spiral_surface`: all four returned arrays have the
      shape `(n_phi, n_r)` of the parameter grid. */
  function ComputeParkerSpiralSurface(t: Transcendentals, p: SpiralParameters): (s: Surface)
    requires Lawful(t) && Admissible(p)
    ensures HasShape(s.x, p.nPhi, p.nR) && HasShape(s.y, p.nPhi, p.nR)
    ensures HasShape(s.z, p.nPhi, p.nR) && HasShape(s.b, p.nPhi, p.nR)
  {
    Surface(CartesianX(t, p), CartesianY(t, p), CartesianZ(t, p), FieldMagnitudes(t, p))
  }

  // ---------------------------------------------------------------------
  // Properties
  // ---------------------------------------------------------------------

  /** The three derived rates are strictly positive, and the winding rate in
      closed form is `2 pi AU_km / (86400 rot v)`. */
  lemma WindingRatesPositive(t: Transcendentals, p: SpiralParameters)
    requires Lawful(t) && Admissible(p)
    ensures RotationRate(t, p) > 0.0
    ensures WindSpeedAuPerDay(p) > 0.0
    ensures WindingRate(t, p) > 0.0
    ensures WindingRate(t, p)
            == 2.0 * t.pi * SurfaceKmPerAu / (SecondsPerDay * p.solarRotDays * p.vSwKmS)
  {
    var w := 2.0 * t.pi;
    var v := p.vSwKmS * SecondsPerDay;
    assert v > 0.0;
    assert w / p.solarRotDays > 0.0;
    assert WindSpeedAuPerDay(p) == v / SurfaceKmPerAu;
    assert (w / p.solarRotDays) / (v / SurfaceKmPerAu) == w * SurfaceKmPerAu / (p.solarRotDays * v);
    MulPos(w / p.solarRotDays, SurfaceKmPerAu / v);
  }

  /** For two or more radial samples the radii run from `r_min` to `r_max`,
      strictly increasing when `r_min < r_max`. */
  lemma RadialSamplesSpan(p: SpiralParameters)
    requires p.nR >= 2
    ensures RadialSamples(p)[0] == p.rMin && RadialSamples(p)[p.nR - 1] == p.rMax
    ensures p.rMin < p.rMax ==>
      forall j, k :: 0 <= j < k < p.nR ==> RadialSamples(p)[j] < RadialSamples(p)[k]
  {
    LinspaceEndpoints(p.rMin, p.rMax, p.nR);
    if p.rMin < p.rMax {
      forall j, k | 0 <= j < k < p.nR
        ensures RadialSamples(p)[j] < RadialSamples(p)[k]
      {
        LinspaceStrictlyIncreasing(p.rMin, p.rMax, p.nR, j, k);
      }
    }
  }

  /** For two or more azimuthal samples the azimuths run from 0 to `2 pi`,
      strictly increasing. */
  lemma AzimuthSamplesSpan(t: Transcendentals, p: SpiralParameters)
    requires Lawful(t) && p.nPhi >= 2
    ensures AzimuthSamples(t, p)[0] == 0.0 && AzimuthSamples(t, p)[p.nPhi - 1] == 2.0 * t.pi
    ensures forall i, k :: 0 <= i < k < p.nPhi ==> AzimuthSamples(t, p)[i] < AzimuthSamples(t, p)[k]
  {
    LinspaceEndpoints(0.0, 2.0 * t.pi, p.nPhi);
    forall i, k | 0 <= i < k < p.nPhi
      ensures AzimuthSamples(t, p)[i] < AzimuthSamples(t, p)[k]
    {
      LinspaceStrictlyIncreasing(0.0, 2.0 * t.pi, p.nPhi, i, k);
    }
  }

  /** The polar angle of azimuth sample `i`. */
  function CellPolarAngle(t: Transcendentals, p: SpiralParameters, i: nat): real
    requires i < p.nPhi
  {
    PolarAngle(t, Radians(t, p.tiltDeg), Radians(t, p.ampDeg), AzimuthSamples(t, p)[i])
  }

  /** The twisted azimuth of sample `(i, j)`. */
  function CellTwistedAzimuth(t: Transcendentals, p: SpiralParameters, i: nat, j: nat): real
    requires Admissible(p) && i < p.nPhi && j < p.nR
  {
    TwistedAzimuth(WindingRate(t, p), p.rMin, RadialSamples(p)[j], AzimuthSamples(t, p)[i])
  }

  /** `R[i][j] == r_vals[j]` and `Phi[i][j] == phi_vals[i]`: the returned grids
      are indexed (azimuth, radius). */
  lemma MeshIndexing(t: Transcendentals, p: SpiralParameters, i: nat, j: nat)
    requires i < p.nPhi && j < p.nR
    ensures SurfaceMesh(t, p).xs[i][j] == RadialSamples(p)[j]
    ensures SurfaceMesh(t, p).ys[i][j] == AzimuthSamples(t, p)[i]
  {
  }

  lemma PolarAngleCell(t: Transcendentals, p: SpiralParameters, i: nat, j: nat)
    requires i < p.nPhi && j < p.nR
    ensures PolarAngles(t, p)[i][j] == CellPolarAngle(t, p, i)
  {
    MeshIndexing(t, p, i, j);
  }

  lemma TwistCell(t: Transcendentals, p: SpiralParameters, i: nat, j: nat)
    requires Admissible(p) && i < p.nPhi && j < p.nR
    ensures TwistedAzimuths(t, p)[i][j] == CellTwistedAzimuth(t, p, i, j)
  {
    MeshIndexing(t, p, i, j);
  }

  /** Cell `(i, j)` of every returned array is computed from radius
      `r_vals[j]` and azimuth `phi_vals[i]`: the point and the field value of a
      cell belong to the same grid sample. */
  lemma CellsCoRegistered(t: Transcendentals, p: SpiralParameters, i: nat, j: nat)
    requires Lawful(t) && Admissible(p)
    requires i < p.nPhi && j < p.nR
    ensures RadialSamples(p)[j] > 0.0
    ensures var s, r := ComputeParkerSpiralSurface(t, p), RadialSamples(p)[j];
            && s.x[i][j] == PointX(t, r, CellPolarAngle(t, p, i), CellTwistedAzimuth(t, p, i, j))
            && s.y[i][j] == PointY(t, r, CellPolarAngle(t, p, i), CellTwistedAzimuth(t, p, i, j))
            && s.z[i][j] == PointZ(t, r, CellPolarAngle(t, p, i))
            && s.b[i][j] == FieldStrength(t, p, r, CellPolarAngle(t, p, i))
  {
    LinspacePositive(p.rMin, p.rMax, p.nR);
    MeshIndexing(t, p, i, j);
    PolarAngleCell(t, p, i, j);
    TwistCell(t, p, i, j);
  }

  /** The twist vanishes on the innermost radius: `Phi_spiral[i][0] == Phi[i][0]`. */
  lemma TwistVanishesAtInnerRadius(t: Transcendentals, p: SpiralParameters, i: nat)
    requires Admissible(p)
    requires i < p.nPhi && p.nR >= 1
    ensures TwistedAzimuths(t, p)[i][0] == SurfaceMesh(t, p).ys[i][0]
  {
    LinspaceEndpoints(p.rMin, p.rMax, p.nR);
    TwistCell(t, p, i, 0);
    MeshIndexing(t, p, i, 0);
  }

  /** Along one azimuth row the twisted azimuth strictly grows with radius. */
  lemma TwistIncreasesWithRadius(t: Transcendentals, p: SpiralParameters, i: nat, j: nat, k: nat)
    requires Lawful(t) && Admissible(p) && p.rMin < p.rMax
    requires i < p.nPhi && j < k < p.nR
    ensures TwistedAzimuths(t, p)[i][j] < TwistedAzimuths(t, p)[i][k]
  {
    var alpha := WindingRate(t, p);
    var rs := RadialSamples(p);
    TwistCell(t, p, i, j);
    TwistCell(t, p, i, k);
    WindingRatesPositive(t, p);
    LinspaceStrictlyIncreasing(p.rMin, p.rMax, p.nR, j, k);
    assert alpha * (rs[k] - p.rMin) - alpha * (rs[j] - p.rMin) == alpha * (rs[k] - rs[j]);
    MulPos(alpha, rs[k] - rs[j]);
  }

  /** On the first azimuth row (`phi = 0`) the undulation vanishes and the
      polar angle is `pi / 2 - tilt`. */
  lemma PolarAngleAtZeroAzimuth(t: Transcendentals, p: SpiralParameters, j: nat)
    requires Lawful(t)
    requires p.nPhi >= 1 && j < p.nR
    ensures PolarAngles(t, p)[0][j] == t.pi / 2.0 - Radians(t, p.tiltDeg)
  {
    LinspaceEndpoints(0.0, 2.0 * t.pi, p.nPhi);
    PolarAngleCell(t, p, 0, j);
    assert 2.0 * AzimuthSamples(t, p)[0] == 0.0;
  }

  /** `x^2 + y^2 + z^2 == r^2` for the spherical-to-Cartesian map of the source. */
  lemma SphericalPointOnSphere(t: Transcendentals, r: real, theta: real, phi: real)
    requires Lawful(t)
    ensures Sq(PointX(t, r, theta, phi)) + Sq(PointY(t, r, theta, phi)) + Sq(PointZ(t, r, theta)) == Sq(r)
  {
    var st, ct, sp, cp := Sin(t, theta), Cos(t, theta), Sin(t, phi), Cos(t, phi);
    var rs := r * st;
    assert Sq(rs * cp) + Sq(rs * sp) == Sq(rs) * (Sq(cp) + Sq(sp));
    Pythagoras(t, phi);
    assert Sq(rs) == Sq(r) * Sq(st);
    assert Sq(r * ct) == Sq(r) * Sq(ct);
    assert Sq(r) * Sq(st) + Sq(r) * Sq(ct) == Sq(r) * (Sq(st) + Sq(ct));
    Pythagoras(t, theta);
  }

  /** Every surface point lies on the sphere whose radius is its grid radius. */
  lemma SurfaceOnSphere(t: Transcendentals, p: SpiralParameters, i: nat, j: nat)
    requires Lawful(t) && Admissible(p)
    requires i < p.nPhi && j < p.nR
    ensures var s := ComputeParkerSpiralSurface(t, p);
            Sq(s.x[i][j]) + Sq(s.y[i][j]) + Sq(s.z[i][j]) == Sq(RadialSamples(p)[j])
  {
    CellsCoRegistered(t, p, i, j);
    SphericalPointOnSphere(t, RadialSamples(p)[j], CellPolarAngle(t, p, i), CellTwistedAzimuth(t, p, i, j));
  }

  /** `B > 0` in every cell of the returned field grid. */
  lemma SurfaceFieldPositive(t: Transcendentals, p: SpiralParameters, i: nat, j: nat)
    requires Lawful(t) && Admissible(p)
    requires i < p.nPhi && j < p.nR
    ensures ComputeParkerSpiralSurface(t, p).b[i][j] > 0.0
  {
    CellsCoRegistered(t, p, i, j);
  }

  /** At 1 AU the inverse-square factor is 1 and the field is the
      normalisation times the winding correction `sqrt(1 + alpha^2 sin^2 theta)`. */
  lemma FieldAtOneAu(t: Transcendentals, p: SpiralParameters, theta: real)
    requires Lawful(t) && Admissible(p)
    ensures FieldStrength(t, p, 1.0, theta)
            == FieldNormalisation(t, p) * WindingFactor(t, WindingRate(t, p), Sin(t, theta))
  {
    assert RotationRate(t, p) * 1.0 / WindSpeedAuPerDay(p) == WindingRate(t, p);
    assert Sq(1.0 / 1.0) == 1.0;
  }

  /** The normalisation the plot's colour bar names ("B at 1 AU = 1"): at
      1 AU, wherever `sin(theta) == cos(tilt)` (on the `phi = 0` row, say),
      the field is exactly 1. */
  lemma FieldIsOneAtOneAu(t: Transcendentals, p: SpiralParameters, theta: real)
    requires Lawful(t) && Admissible(p)
    requires Sin(t, theta) == Cos(t, Radians(t, p.tiltDeg))
    ensures FieldStrength(t, p, 1.0, theta) == 1.0
  {
    FieldAtOneAu(t, p, theta);
    var w := WindingFactor(t, WindingRate(t, p), Sin(t, theta));
    assert FieldNormalisation(t, p) == 1.0 / w;
    assert (1.0 / w) * w == 1.0;
  }


  /** The defaults are admissible; their surface is 100 by 100 and its radii
      span exactly `[0.1, 1.5]` AU, increasing. */
  lemma DefaultSurfaceExtent(t: Transcendentals)
    requires Lawful(t)
    ensures Admissible(Defaults)
    ensures var s := ComputeParkerSpiralSurface(t, Defaults);
            && HasShape(s.x, 100, 100) && HasShape(s.y, 100, 100)
            && HasShape(s.z, 100, 100) && HasShape(s.b, 100, 100)
    ensures RadialSamples(Defaults)[0] == 0.1 && RadialSamples(Defaults)[99] == 1.5
    ensures forall j, k :: 0 <= j < k < 100 ==> RadialSamples(Defaults)[j] < RadialSamples(Defaults)[k]
  {
    RadialSamplesSpan(Defaults);
  }
}
