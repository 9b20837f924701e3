/**
 The conversion of a spacecraft position from kilometres to astronomical
 units, with or without the shift from the Earth-centred GSE frame to the
 Sun-centred frame in which Earth sits at `(1, 0, 0)` AU. The conversion is
 defined once, parameterised by the number of kilometres per AU, and each
 call site of the scripts is an instance of it at its own literal.
 */
module PositionConversion {

  datatype Vec3 = Vec3(x: real, y: real, z: real)

  /** `149597870.7`, the IAU 2012 value of the astronomical unit in km. */
  const IauKmPerAu: real := 149597870.7
  /** `1.4959787e8`, the shortened value of the Parker-spiral script; its
      surface model uses the same literal (`ParkerSpiral.SurfaceKmPerAu`). */
  const ShortKmPerAu: real := 149597870.0
  /** Earth's assumed heliocentric position, in AU. */
  const EarthHeliocentric: Vec3 := Vec3(1.0, 0.0, 0.0)
  const Origin: Vec3 := Vec3(0.0, 0.0, 0.0)

  function Add(a: Vec3, b: Vec3): Vec3 {
    Vec3(a.x + b.x, a.y + b.y, a.z + b.z)
  }

  function Sub(a: Vec3, b: Vec3): Vec3 {
    Vec3(a.x - b.x, a.y - b.y, a.z - b.z)
  }

  function Scale(a: Vec3, k: real): Vec3 {
    Vec3(k * a.x, k * a.y, k * a.z)
  }

  /** The squared Euclidean length. */
  function Norm2(a: Vec3): real {
    a.x * a.x + a.y * a.y + a.z * a.z
  }

  /** The squared Euclidean distance. */
  function Dist2(a: Vec3, b: Vec3): real {
    Norm2(Sub(a, b))
  }

  // ---------------------------------------------------------------------
  // The conversion, once
  // ---------------------------------------------------------------------

  /** Kilometres to AU, component by component. */
  function KmToAu(p: Vec3, kmPerAu: real): Vec3
    requires kmPerAu > 0.0
  {
    Vec3(p.x / kmPerAu, p.y / kmPerAu, p.z / kmPerAu)
  }

  /** The scripts' GSE-km to heliocentric-AU conversion: units first, then
      Earth's offset. */
  function GseKmToHeliocentricAu(p: Vec3, kmPerAu: real): Vec3
    requires kmPerAu > 0.0
  {
    Add(EarthHeliocentric, KmToAu(p, kmPerAu))
  }

  /** Scaling a converted point back by `kmPerAu` gives the input back, and
      after the offset is removed so does the heliocentric point. */
  lemma ConversionScalesBack(p: Vec3, kmPerAu: real)
    requires kmPerAu > 0.0
    ensures var q := KmToAu(p, kmPerAu);
            q.x * kmPerAu == p.x && q.y * kmPerAu == p.y && q.z * kmPerAu == p.z
    ensures var h := GseKmToHeliocentricAu(p, kmPerAu);
            (h.x - 1.0) * kmPerAu == p.x && h.y * kmPerAu == p.y && h.z * kmPerAu == p.z
  {
  }

  /** `km = (helio - (1, 0, 0)) * AU_km`, the inverse map. */
  function HeliocentricAuToGseKm(h: Vec3, kmPerAu: real): Vec3 {
    Scale(Sub(h, EarthHeliocentric), kmPerAu)
  }

  lemma RoundTripFromKm(p: Vec3, kmPerAu: real)
    requires kmPerAu > 0.0
    ensures HeliocentricAuToGseKm(GseKmToHeliocentricAu(p, kmPerAu), kmPerAu) == p
  {
    ConversionScalesBack(p, kmPerAu);
  }

  lemma RoundTripFromAu(h: Vec3, kmPerAu: real)
    requires kmPerAu > 0.0
    ensures GseKmToHeliocentricAu(HeliocentricAuToGseKm(h, kmPerAu), kmPerAu) == h
  {
    DivideScaled(h.x - 1.0, kmPerAu);
    DivideScaled(h.y, kmPerAu);
    DivideScaled(h.z, kmPerAu);
  }

  lemma DivideScaled(a: real, c: real)
    requires c > 0.0
    ensures (c * a) / c == a
  {
  }

  /** Units are converted before Earth's offset is added; the other order
      gives a different point for every constant other than 1. */
  lemma OffsetAfterDivision(p: Vec3, kmPerAu: real)
    requires kmPerAu > 0.0 && kmPerAu != 1.0
    ensures KmToAu(Add(p, EarthHeliocentric), kmPerAu) != GseKmToHeliocentricAu(p, kmPerAu)
  {
    ConversionScalesBack(p, kmPerAu);
    ConversionScalesBack(Add(p, EarthHeliocentric), kmPerAu);
  }

  /** Dividing by the constant adds no offset: it is linear. */
  lemma KmToAuLinear(p: Vec3, q: Vec3, k: real, kmPerAu: real)
    requires kmPerAu > 0.0
    ensures KmToAu(Add(p, q), kmPerAu) == Add(KmToAu(p, kmPerAu), KmToAu(q, kmPerAu))
    ensures KmToAu(Scale(p, k), kmPerAu) == Scale(KmToAu(p, kmPerAu), k)
  {
    assert (k * p.x) / kmPerAu == k * (p.x / kmPerAu);
    assert (k * p.y) / kmPerAu == k * (p.y / kmPerAu);
    assert (k * p.z) / kmPerAu == k * (p.z / kmPerAu);
  }

  // ---------------------------------------------------------------------
  // The call sites, each in its own shape
  // ---------------------------------------------------------------------

  /** `analyze_psp_mms_parker`: a comprehension dividing each coordinate by
      `1.4959787e8`, then `(1.0 + au[0], au[1], au[2])`. */
  function AnalyzeMmsHeliocentric(mms: Vec3): (h: Vec3)
    ensures h == GseKmToHeliocentricAu(mms, ShortKmPerAu)
  {
    var au := Vec3(mms.x / ShortKmPerAu, mms.y / ShortKmPerAu, mms.z / ShortKmPerAu);
    Vec3(1.0 + au.x, au.y, au.z)
  }

  /** `main` of the Parker-spiral script: three divisions by `1.4959787e8`,
      then Earth's offset added component by component. */
  function MainMmsHeliocentric(mms: Vec3): (h: Vec3)
    ensures h == GseKmToHeliocentricAu(mms, ShortKmPerAu)
  {
    var rel := Vec3(mms.x / 1.4959787e8, mms.y / 1.4959787e8, mms.z / 1.4959787e8);
    var earth := (1.0, 0.0, 0.0);
    Vec3(earth.0 + rel.x, earth.1 + rel.y, earth.2 + rel.z)
  }

  /** `plot_spacecraft_positions`: the same conversion with `AU_km = 149597870.7`. */
  function PlotSpacecraftMmsHeliocentric(mms: Vec3): (h: Vec3)
    ensures h == GseKmToHeliocentricAu(mms, IauKmPerAu)
  {
    var rel := Vec3(mms.x / IauKmPerAu, mms.y / IauKmPerAu, mms.z / IauKmPerAu);
    var earth := EarthHeliocentric;
    Vec3(earth.x + rel.x, earth.y + rel.y, earth.z + rel.z)
  }

  /** The two points `plot_both_positions` draws. */
  datatype PlottedPositions = PlottedPositions(psp: Vec3, mms: Vec3)

  /** `plot_both_positions`: both inputs divided by `149597870.7`, no offset. */
  function PlotBothPositionsAu(psp: Vec3, mms: Vec3): (d: PlottedPositions)
    ensures d.psp == KmToAu(psp, IauKmPerAu) && d.mms == KmToAu(mms, IauKmPerAu)
  {
    var au := 149597870.7;
    PlottedPositions(Vec3(psp.x / au, psp.y / au, psp.z / au), Vec3(mms.x / au, mms.y / au, mms.z / au))
  }

  // ---------------------------------------------------------------------
  // Properties of the call sites
  // ---------------------------------------------------------------------

  /** Both conversions of the Parker-spiral script agree, and give
      `(1 + x / 1.4959787e8, y / 1.4959787e8, z / 1.4959787e8)`. */
  lemma ParkerCallSitesAgree(mms: Vec3)
    ensures AnalyzeMmsHeliocentric(mms) == MainMmsHeliocentric(mms)
    ensures MainMmsHeliocentric(mms)
            == Vec3(1.0 + mms.x / ShortKmPerAu, mms.y / ShortKmPerAu, mms.z / ShortKmPerAu)
  {
  }

  /** With the IAU constant the GSE origin is Earth's plotted point `(1, 0, 0)`. */
  lemma IauOriginToEarth()
    ensures PlotSpacecraftMmsHeliocentric(Origin) == EarthHeliocentric
  {
  }

  /** One AU along GSE `x`, in km, lands at `(2, 0, 0)`. */
  lemma IauOneAuAlongX()
    ensures PlotSpacecraftMmsHeliocentric(Vec3(IauKmPerAu, 0.0, 0.0)) == Vec3(2.0, 0.0, 0.0)
  {
  }

  /** One AU along GSE `x` and one along `y`, in km, land at `(2, 1, 0)`. */
  lemma IauOneAuAlongXAndY()
    ensures PlotSpacecraftMmsHeliocentric(Vec3(IauKmPerAu, IauKmPerAu, 0.0)) == Vec3(2.0, 1.0, 0.0)
  {
  }

  /** The two literals give different points for every position but the GSE
      origin; along each axis the gap is the coordinate times
      `0.7 / (149597870.0 * 149597870.7)`. */
  lemma KmPerAuLiteralsDisagree(mms: Vec3)
    ensures var a, b := AnalyzeMmsHeliocentric(mms), PlotSpacecraftMmsHeliocentric(mms);
            && a.x - b.x == mms.x * (0.7 / (ShortKmPerAu * IauKmPerAu))
            && a.y - b.y == mms.y * (0.7 / (ShortKmPerAu * IauKmPerAu))
            && a.z - b.z == mms.z * (0.7 / (ShortKmPerAu * IauKmPerAu))
            && (a == b <==> mms == Origin)
  {
    var g := 0.7 / (ShortKmPerAu * IauKmPerAu);
    assert 1.0 / ShortKmPerAu - 1.0 / IauKmPerAu == g;
    assert mms.x / ShortKmPerAu - mms.x / IauKmPerAu == mms.x * g;
    assert mms.y / ShortKmPerAu - mms.y / IauKmPerAu == mms.y * g;
    assert mms.z / ShortKmPerAu - mms.z / IauKmPerAu == mms.z * g;
  }

  /** The Sun's GSE position: `kmPerAu` km along the Earth-Sun `+x` axis. */
  function GseSunKm(kmPerAu: real): Vec3 {
    Vec3(kmPerAu, 0.0, 0.0)
  }

  /** `plot_both_positions` keeps the GSE frame: Earth's origin stays at
      `(0, 0, 0)` and the Sun's GSE position lands on the drawn Sun `(1, 0, 0)`. */
  lemma PlotBothKeepsGseFrame(p: Vec3)
    ensures PlotBothPositionsAu(Origin, Origin) == PlottedPositions(Origin, Origin)
    ensures PlotBothPositionsAu(GseSunKm(IauKmPerAu), p).psp == Vec3(1.0, 0.0, 0.0)
    ensures PlotBothPositionsAu(p, GseSunKm(IauKmPerAu)).mms == Vec3(1.0, 0.0, 0.0)
  {
  }

  // ---------------------------------------------------------------------
  // Finding: the GSE axes are not turned into heliocentric ones
  // ---------------------------------------------------------------------

  /** GSE `+x` points from Earth to the Sun and `+y` against Earth's orbital
      motion, so with Earth at `(1, 0, 0)` (moving along `+y`) the Sun-centred
      axes are GSE's turned half a revolution about `z`. */
  function GseKmToHeliocentricAuTurned(p: Vec3, kmPerAu: real): Vec3
    requires kmPerAu > 0.0
  {
    Vec3(1.0 - p.x / kmPerAu, -(p.y / kmPerAu), p.z / kmPerAu)
  }

  /** As written, the Sun's own GSE position is sent 2 AU from the Sun, and a
      spacecraft half-way from Earth to the Sun is sent 1.5 AU out. */
  lemma SunSentTwoAuOut(kmPerAu: real)
    requires kmPerAu > 0.0
    ensures GseKmToHeliocentricAu(GseSunKm(kmPerAu), kmPerAu) == Vec3(2.0, 0.0, 0.0)
    ensures Norm2(GseKmToHeliocentricAu(Scale(GseSunKm(kmPerAu), 0.5), kmPerAu)) == 2.25
  {
    assert (0.5 * kmPerAu) / kmPerAu == 0.5;
  }

  /** The turned conversion sends the Sun to the heliocentric origin, keeps
      Earth at `(1, 0, 0)`, and is an isometry up to the unit change: every
      distance in km is `kmPerAu` times the distance in AU. */
  lemma TurnedConversionIsFaithful(p: Vec3, q: Vec3, kmPerAu: real)
    requires kmPerAu > 0.0
    ensures GseKmToHeliocentricAuTurned(GseSunKm(kmPerAu), kmPerAu) == Origin
    ensures GseKmToHeliocentricAuTurned(Origin, kmPerAu) == EarthHeliocentric
    ensures Dist2(GseKmToHeliocentricAuTurned(p, kmPerAu), GseKmToHeliocentricAuTurned(q, kmPerAu))
              * (kmPerAu * kmPerAu)
            == Dist2(p, q)
  {
    var hp, hq := GseKmToHeliocentricAuTurned(p, kmPerAu), GseKmToHeliocentricAuTurned(q, kmPerAu);
    assert (hq.x - hp.x) * kmPerAu == p.x - q.x;
    assert (hp.y - hq.y) * kmPerAu == q.y - p.y;
    assert (hp.z - hq.z) * kmPerAu == p.z - q.z;
    ScaledSquare(hq.x - hp.x, p.x - q.x, kmPerAu);
    ScaledSquare(hp.y - hq.y, q.y - p.y, kmPerAu);
    ScaledSquare(hp.z - hq.z, p.z - q.z, kmPerAu);
  }

  /** The turned conversion puts a spacecraft as far from the Sun as it is
      from the Sun's GSE position; as written this fails half-way to the Sun. */
  lemma TurnedConversionKeepsSunDistance(p: Vec3, kmPerAu: real)
    requires kmPerAu > 0.0
    ensures Norm2(GseKmToHeliocentricAuTurned(p, kmPerAu)) * (kmPerAu * kmPerAu)
            == Dist2(p, GseSunKm(kmPerAu))
  {
    TurnedConversionIsFaithful(p, GseSunKm(kmPerAu), kmPerAu);
    assert Sub(GseKmToHeliocentricAuTurned(p, kmPerAu), Origin) == GseKmToHeliocentricAuTurned(p, kmPerAu);
  }

  /** `d * c == e` gives `(d * d) * (c * c) == e * e`. */
  lemma ScaledSquare(d: real, e: real, c: real)
    requires d * c == e
    ensures d * d * (c * c) == e * e
  {
    assert d * d * (c * c) == (d * c) * (d * c);
  }

  // ---------------------------------------------------------------------
  // Finding: PSP's heliocentric AU position is divided again
  // ---------------------------------------------------------------------

  /** As written, any PSP position inside 2 AU of the Sun is drawn within
      `2 / 149597870.7` AU of the GSE origin, where Earth is drawn; PSP at the
      Sun itself is drawn exactly on Earth. */
  lemma PspDrawnOnEarth(psp: Vec3, mms: Vec3)
    requires -2.0 <= psp.x <= 2.0 && -2.0 <= psp.y <= 2.0 && -2.0 <= psp.z <= 2.0
    ensures var d := PlotBothPositionsAu(psp, mms).psp;
            && -2.0 / IauKmPerAu <= d.x <= 2.0 / IauKmPerAu
            && -2.0 / IauKmPerAu <= d.y <= 2.0 / IauKmPerAu
            && -2.0 / IauKmPerAu <= d.z <= 2.0 / IauKmPerAu
    ensures PlotBothPositionsAu(Origin, mms).psp == Origin
  {
  }

  /** As written, PSP's drawn distance from Earth's marker is its distance
      from the Sun divided by `149597870.7`: within 2 AU of the Sun it is drawn
      within `2 / 149597870.7` AU of Earth. */
  lemma PspDrawnNearEarth(psp: Vec3, mms: Vec3)
    ensures var d := PlotBothPositionsAu(psp, mms).psp;
            Norm2(d) * (IauKmPerAu * IauKmPerAu) == Norm2(psp)
    ensures Norm2(psp) <= 4.0 ==>
            Norm2(PlotBothPositionsAu(psp, mms).psp) * (IauKmPerAu * IauKmPerAu) <= 4.0
  {
    var d := PlotBothPositionsAu(psp, mms).psp;
    ScaledSquare(d.x, psp.x, IauKmPerAu);
    ScaledSquare(d.y, psp.y, IauKmPerAu);
    ScaledSquare(d.z, psp.z, IauKmPerAu);
  }

  /** Heliocentric AU into the GSE frame in AU: the inverse turn, about Earth. */
  function HeliocentricAuToGseAu(h: Vec3): Vec3 {
    Vec3(1.0 - h.x, -h.y, h.z)
  }

  /** `plot_both_positions` with PSP taken in heliocentric AU, as fetched. */
  function PlotBothPositionsCorrected(psp: Vec3, mms: Vec3): (d: PlottedPositions)
    ensures d.psp == HeliocentricAuToGseAu(psp) && d.mms == KmToAu(mms, IauKmPerAu)
  {
    PlottedPositions(Vec3(1.0 - psp.x, -psp.y, psp.z), Vec3(mms.x / IauKmPerAu, mms.y / IauKmPerAu, mms.z / IauKmPerAu))
  }

  /** Corrected, PSP at the Sun is drawn on the drawn Sun `(1, 0, 0)`, PSP at
      Earth on the origin, and PSP's distance from the drawn Sun is its
      distance from the Sun. */
  lemma PlotBothCorrectedPlacesPsp(psp: Vec3, mms: Vec3)
    ensures PlotBothPositionsCorrected(Origin, mms).psp == Vec3(1.0, 0.0, 0.0)
    ensures PlotBothPositionsCorrected(EarthHeliocentric, mms).psp == Origin
    ensures Dist2(PlotBothPositionsCorrected(psp, mms).psp, Vec3(1.0, 0.0, 0.0)) == Norm2(psp)
  {
    var d := Sub(PlotBothPositionsCorrected(psp, mms).psp, Vec3(1.0, 0.0, 0.0));
    assert d == Vec3(-psp.x, -psp.y, psp.z);
    assert Norm2(d) == (-psp.x) * (-psp.x) + (-psp.y) * (-psp.y) + psp.z * psp.z;
  }

  /** Corrected, both spacecraft are drawn in one frame: a GSE position taken
      to the Sun-centred frame by the turned conversion and drawn as PSP lands
      where the same position is drawn as MMS. */
  lemma PlotBothCorrectedSharesFrame(psp: Vec3, mms: Vec3)
    ensures PlotBothPositionsCorrected(GseKmToHeliocentricAuTurned(mms, IauKmPerAu), mms).psp
            == PlotBothPositionsCorrected(psp, mms).mms
  {
  }
}
