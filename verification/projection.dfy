/**
 The spherical-Mercator conversions of utils.js between longitude/latitude in
 degrees, meters on the projection plane, and the scene's THREE.Vector3 frame
 (x east, y up, z = -northing).

 Math.log, Math.tan, Math.atan and Math.exp are not computed: they are a
 parameter of type `Transcendentals`, a record of total functions constrained
 only by the identities the projection relies on.
 */
module Projection {

  import opened Geometry

  /** `EARTH_RADIUS` in meters. */
  const EarthRadius: real := 6371010.0

  /**
   Math.PI. The laws below treat this constant as pi itself, although the
   decimal literal is about 2.4e-16 below pi: the model identifies Math.PI
   with pi.
   */
  const Pi: real := 3.141592653589793

  /** A quarter turn. */
  const HalfPi: real := Pi / 2.0

  /** Interpretations of Math.log, Math.tan, Math.atan and Math.exp. */
  datatype MathFns = MathFns(log: real -> real, tan: real -> real, atan: real -> real, exp: real -> real)

  /** tan is positive on (0, pi/2). */
  ghost predicate TanPositive(f: MathFns)
  {
    forall t :: 0.0 < t < HalfPi ==> f.tan(t) > 0.0
  }

  /** tan(pi/2 - t) = 1 / tan(t) on (0, pi/2). */
  ghost predicate TanComplement(f: MathFns)
  {
    forall t :: 0.0 < t < HalfPi ==> f.tan(HalfPi - t) * f.tan(t) == 1.0
  }

  /** atan undoes tan on (0, pi/2). */
  ghost predicate AtanInvertsTan(f: MathFns)
  {
    forall t :: 0.0 < t < HalfPi ==> f.atan(f.tan(t)) == t
  }

  /** atan maps the positive reals into (0, pi/2), and tan undoes it there. */
  ghost predicate TanInvertsAtan(f: MathFns)
  {
    forall s :: s > 0.0 ==> 0.0 < f.atan(s) < HalfPi && f.tan(f.atan(s)) == s
  }

  /** exp is positive, and exp(w) = 1 / exp(u) when w = -u. */
  ghost predicate ExpReciprocal(f: MathFns)
  {
    && (forall u :: f.exp(u) > 0.0)
    && (forall u, w :: u + w == 0.0 ==> f.exp(w) * f.exp(u) == 1.0)
  }

  /** log undoes exp. */
  ghost predicate LogInvertsExp(f: MathFns)
  {
    forall u :: f.log(f.exp(u)) == u
  }

  /** exp undoes log on the positive reals. */
  ghost predicate ExpInvertsLog(f: MathFns)
  {
    forall t :: t > 0.0 ==> f.exp(f.log(t)) == t
  }

  /**
   The identities of log, tan, atan and exp that the Mercator round trip
   needs, each restricted to where the real functions satisfy it once
   `HalfPi` is read as pi/2. At the literal's own value they are slightly
   off: the real tan(Pi/4) is not exactly 1, and the real atan exceeds
   Pi/2 for arguments above about 8.4e15.
   */
  ghost predicate MercatorLaws(f: MathFns)
  {
    && TanPositive(f)
    && TanComplement(f)
    && AtanInvertsTan(f)
    && TanInvertsAtan(f)
    && ExpReciprocal(f)
    && LogInvertsExp(f)
    && ExpInvertsLog(f)
  }

  /*
   A rational model of the laws, used only as the witness that they are
   consistent: tan(t) = t / (pi/2 - t) on (0, pi/2), its inverse
   atan(s) = s (pi/2) / (1 + s), and exp/log glued from 1 + u and 1 / (1 - u).
   */

  function ModelTan(t: real): (r: real)
    ensures 0.0 < t < HalfPi ==> r > 0.0 && r * (HalfPi - t) == t
  {
    if 0.0 < t < HalfPi then
      var d := HalfPi - t;
      var r := t / d;
      assert r * d == t;
      r
    else 0.0
  }

  /** ModelTan, together with the complementary-angle identity. */
  function ModelTanC(t: real): (r: real)
    ensures r == ModelTan(t)
    ensures 0.0 < t < HalfPi ==> ModelTan(HalfPi - t) * r == 1.0
  {
    if 0.0 < t < HalfPi then
      var a := ModelTan(t);
      var b := ModelTan(HalfPi - t);
      assert a == t / (HalfPi - t);
      assert b == (HalfPi - t) / t;
      assert b * a == ((HalfPi - t) / t) * (t / (HalfPi - t));
      a
    else ModelTan(t)
  }

  function ModelAtan(s: real): (r: real)
    ensures s > 0.0 ==> 0.0 < r < HalfPi && ModelTan(r) == s
    ensures s > 0.0 ==> forall t :: 0.0 < t < HalfPi && ModelTan(t) == s ==> r == t
  {
    if s > 0.0 then
      var r := s * HalfPi / (1.0 + s);
      assert 0.0 < r < HalfPi;
      assert HalfPi - r == HalfPi / (1.0 + s);
      assert ModelTan(r) == r / (HalfPi - r);
      assert r / (HalfPi - r) == s;
      assert forall t :: 0.0 < t < HalfPi && ModelTan(t) == s ==> r == t by {
        forall t | 0.0 < t < HalfPi && ModelTan(t) == s
          ensures r == t
        {
          assert s * (HalfPi - t) == t;
          assert s * HalfPi == t * (1.0 + s);
        }
      }
      r
    else 0.0
  }

  function ModelExp(u: real): (r: real)
    ensures r > 0.0
    ensures u >= 0.0 ==> r == 1.0 + u
    ensures u < 0.0 ==> r * (1.0 - u) == 1.0
  {
    if u >= 0.0 then 1.0 + u else 1.0 / (1.0 - u)
  }

  function ModelLog(t: real): (r: real)
    ensures t > 0.0 ==> ModelExp(r) == t
  {
    if t >= 1.0 then t - 1.0
    else if t > 0.0 then
      var r := 1.0 - 1.0 / t;
      assert r < 0.0;
      assert 1.0 - r == 1.0 / t;
      r
    else 0.0
  }

  /** ModelExp, together with exp(-u) exp(u) = 1 and log(exp(u)) = u. */
  function ModelExpW(u: real): (r: real)
    ensures r == ModelExp(u)
    ensures r > 0.0 && ModelExp(-u) * r == 1.0
    ensures ModelLog(r) == u
  {
    var r := ModelExp(u);
    if u >= 0.0 then r
    else
      assert r < 1.0;
      assert 1.0 / r == 1.0 - u;
      r
  }

  /* The rational model satisfies each Mercator law. */

  lemma ModelAtanLaws()
    ensures forall t :: 0.0 < t < HalfPi ==> ModelAtan(ModelTanC(t)) == t
    ensures forall s :: s > 0.0 ==> 0.0 < ModelAtan(s) < HalfPi && ModelTanC(ModelAtan(s)) == s
  {
    forall t | 0.0 < t < HalfPi
      ensures ModelAtan(ModelTanC(t)) == t
    {
      assert ModelTanC(t) == ModelTan(t) && ModelTan(t) > 0.0;
    }
  }

  lemma ModelExpLaws()
    ensures forall u :: ModelLog(ModelExpW(u)) == u
    ensures forall t :: t > 0.0 ==> ModelExpW(ModelLog(t)) == t
  {
    forall t | t > 0.0
      ensures ModelExpW(ModelLog(t)) == t
    {
      assert ModelExpW(ModelLog(t)) == ModelExp(ModelLog(t));
    }
  }

  /** The rational model as a record. */
  function ModelFns(): MathFns
  {
    MathFns(ModelLog, ModelTanC, ModelAtan, ModelExpW)
  }

  lemma ModelFnsTanPositive()
    ensures TanPositive(ModelFns())
  {
    forall t | 0.0 < t < HalfPi
      ensures ModelFns().tan(t) > 0.0
    {
      assert ModelTanC(t) > 0.0;
    }
  }

  lemma ModelFnsTanComplement()
    ensures TanComplement(ModelFns())
  {
    forall t | 0.0 < t < HalfPi
      ensures ModelFns().tan(HalfPi - t) * ModelFns().tan(t) == 1.0
    {
      var a := ModelTanC(t);
      var b := ModelTanC(HalfPi - t);
      assert b * a == 1.0;
    }
  }

  lemma ModelFnsAtanLaws()
    ensures AtanInvertsTan(ModelFns()) && TanInvertsAtan(ModelFns())
  {
    ModelAtanLaws();
  }

  lemma ModelExpPair(u: real, w: real)
    requires u + w == 0.0
    ensures ModelExpW(w) * ModelExpW(u) == 1.0
  {
    assert w == -u;
    assert ModelExpW(w) == ModelExp(-u);
  }

  lemma ModelFnsExpReciprocal()
    ensures ExpReciprocal(ModelFns())
  {
    forall u
      ensures ModelFns().exp(u) > 0.0
    {
      assert ModelFns().exp(u) == ModelExpW(u);
    }
    forall u, w | u + w == 0.0
      ensures ModelFns().exp(w) * ModelFns().exp(u) == 1.0
    {
      ModelExpPair(u, w);
    }
  }

  lemma ModelFnsLogLaws()
    ensures LogInvertsExp(ModelFns()) && ExpInvertsLog(ModelFns())
  {
    ModelExpLaws();
  }

  /** The rational model, as a value of the constrained type. */
  function LawfulModel(): (f: MathFns)
    ensures MercatorLaws(f)
  {
    ModelFnsTanPositive();
    ModelFnsTanComplement();
    ModelFnsAtanLaws();
    ModelFnsExpReciprocal();
    ModelFnsLogLaws();
    ModelFns()
  }

  /** Any interpretation of the Math functions satisfying the Mercator laws. */
  type Transcendentals = f: MathFns | MercatorLaws(f)
    witness LawfulModel()

  /** A geographic position in degrees. */
  datatype LatLng = LatLng(lat: real, lng: real)

  /** A position on the Mercator plane, in meters; y grows northwards. */
  datatype Meters = Meters(x: real, y: real)

  /** MathUtils.degToRad. */
  function DegToRad(d: real): real
  {
    d * (Pi / 180.0)
  }

  /** MathUtils.radToDeg. */
  function RadToDeg(r: real): real
  {
    r * (180.0 / Pi)
  }

  /** A latitude strictly between the poles, where the Mercator northing is finite. */
  predicate OffPole(lat: real)
  {
    -90.0 < lat < 90.0
  }

  /** `latLngToMeters`: x from the longitude, y = -R log(tan((pi/2 - lat) / 2)). */
  function LatLngToMeters(f: Transcendentals, p: LatLng): Meters
  {
    Meters(EarthRadius * DegToRad(p.lng),
           0.0 - EarthRadius * f.log(f.tan(0.5 * (Pi * 0.5 - DegToRad(p.lat)))))
  }

  /** `latLngToVector3`: the projected point on the ground plane, with z = -y. */
  function LatLngToVector3(f: Transcendentals, p: LatLng): (v: Vec3)
    ensures v.y == 0.0
  {
    var m := LatLngToMeters(f, p);
    Vec3(m.x, 0.0, -m.y)
  }

  /** `metersToLatLng`: the inverse Mercator formula lat = 2 atan(exp(y / R)) - pi/2. */
  function MetersToLatLng(f: Transcendentals, m: Meters): LatLng
  {
    var latRadians := 2.0 * f.atan(f.exp(m.y / EarthRadius)) - Pi / 2.0;
    LatLng(RadToDeg(latRadians), RadToDeg(m.x / EarthRadius))
  }

  /** `vector3ToLatLng`: undoes the sign flip (y = -z), then unprojects; the vector's y is ignored. */
  function Vector3ToLatLng(f: Transcendentals, v: Vec3): LatLng
  {
    MetersToLatLng(f, Meters(v.x, -v.z))
  }

  /** `latLngNumToVector3(lat, lng)`: the same projection written out a second time. */
  function LatLngNumToVector3(f: Transcendentals, lat: real, lng: real): (v: Vec3)
    ensures v.y == 0.0
  {
    var x := EarthRadius * DegToRad(lng);
    var y := 0.0 - EarthRadius * f.log(f.tan(0.5 * (Pi * 0.5 - DegToRad(lat))));
    Vec3(x, 0.0, -y)
  }

  /** The two copies of the formula agree on every input. */
  lemma LatLngNumAgrees(f: Transcendentals, lat: real, lng: real)
    ensures LatLngNumToVector3(f, lat, lng) == LatLngToVector3(f, LatLng(lat, lng))
  {
  }

  /** Longitude round-trips exactly: radToDeg((R degToRad(lng)) / R) = lng. */
  lemma LongitudeRoundTrip(lng: real)
    ensures RadToDeg((EarthRadius * DegToRad(lng)) / EarthRadius) == lng
  {
  }

  /** Two reciprocals of the same non-zero number are equal. */
  lemma ReciprocalUnique(a: real, b: real, t: real)
    requires t != 0.0 && a * t == 1.0 && b * t == 1.0
    ensures a == b
  {
    assert (a - b) * t == 0.0;
  }

  /** The only positive square root of 1 is 1. */
  lemma PositiveRootOfOne(t: real)
    requires t > 0.0 && t * t == 1.0
    ensures t == 1.0
  {
  }

  /** exp(-log t) = tan(pi/2 - theta) when t = tan(theta): both are 1 / t. */
  lemma ExpNegLogTan(f: Transcendentals, theta: real)
    requires 0.0 < theta < HalfPi
    ensures f.tan(theta) > 0.0
    ensures f.exp(-f.log(f.tan(theta))) == f.tan(HalfPi - theta)
  {
    var t := f.tan(theta);
    var l := f.log(t);
    assert f.exp(l) == t;
    assert f.exp(-l) * f.exp(l) == 1.0;
    assert f.tan(HalfPi - theta) * t == 1.0;
    ReciprocalUnique(f.exp(-l), f.tan(HalfPi - theta), t);
  }

  /** Latitude round-trips through the forward and the inverse Mercator formula, away from the poles. */
  lemma LatitudeRoundTrip(f: Transcendentals, lat: real)
    requires OffPole(lat)
    ensures var y := 0.0 - EarthRadius * f.log(f.tan(0.5 * (Pi * 0.5 - DegToRad(lat))));
            RadToDeg(2.0 * f.atan(f.exp(y / EarthRadius)) - Pi / 2.0) == lat
  {
    var phi := DegToRad(lat);
    var theta := 0.5 * (Pi * 0.5 - phi);
    assert 0.0 < theta < HalfPi;
    var l := f.log(f.tan(theta));
    var y := 0.0 - EarthRadius * l;
    assert y / EarthRadius == -l;
    ExpNegLogTan(f, theta);
    assert f.atan(f.tan(HalfPi - theta)) == HalfPi - theta;
    assert 2.0 * f.atan(f.exp(-l)) - Pi / 2.0 == phi;
  }

  /** Unprojecting a projected point gives it back, away from the poles. */
  lemma MetersRoundTrip(f: Transcendentals, p: LatLng)
    requires OffPole(p.lat)
    ensures MetersToLatLng(f, LatLngToMeters(f, p)) == p
  {
    LatitudeRoundTrip(f, p.lat);
    LongitudeRoundTrip(p.lng);
  }

  /** The z = -y sign convention round-trips: vector3ToLatLng undoes latLngToVector3. */
  lemma Vector3RoundTrip(f: Transcendentals, p: LatLng)
    requires OffPole(p.lat)
    ensures Vector3ToLatLng(f, LatLngToVector3(f, p)) == p
  {
    var m := LatLngToMeters(f, p);
    assert Meters(LatLngToVector3(f, p).x, -LatLngToVector3(f, p).z) == m;
    MetersRoundTrip(f, p);
  }

  /**
   The other direction: every ground-plane vector is the projection of the
   position vector3ToLatLng gives for it (its y is dropped to 0).
   */
  lemma Vector3InverseRoundTrip(f: Transcendentals, v: Vec3)
    ensures LatLngToVector3(f, Vector3ToLatLng(f, v)) == Vec3(v.x, 0.0, v.z)
  {
    var u := -v.z / EarthRadius;
    var s := f.exp(u);
    assert s > 0.0;
    var a := f.atan(s);
    assert 0.0 < a < HalfPi && f.tan(a) == s;
    var p := Vector3ToLatLng(f, v);
    assert DegToRad(p.lat) == 2.0 * a - Pi / 2.0;
    var theta := 0.5 * (Pi * 0.5 - DegToRad(p.lat));
    assert theta == HalfPi - a;
    // tan(pi/2 - a) and exp(-u) are both the reciprocal of s
    var c := f.tan(HalfPi - a);
    var e := f.exp(-u);
    assert c * s == 1.0;
    assert e * s == 1.0;
    ReciprocalUnique(c, e, s);
    assert f.log(e) == -u;
    assert LatLngToMeters(f, p).y == -v.z;
    assert DegToRad(p.lng) == v.x / EarthRadius;
  }

  /**
   The reference origin: latitude 0, longitude 0 projects to the origin of
   the plane. This rests on tan(pi/4) = 1, so it holds with Math.PI read as pi.
   */
  lemma OriginProjectsToOrigin(f: Transcendentals)
    ensures LatLngToVector3(f, LatLng(0.0, 0.0)) == Vec3(0.0, 0.0, 0.0)
  {
    var q := HalfPi / 2.0;
    assert 0.5 * (Pi * 0.5 - DegToRad(0.0)) == q;
    var t := f.tan(q);
    assert t > 0.0;
    assert t * t == 1.0 by {
      assert HalfPi - q == q;
    }
    PositiveRootOfOne(t);
    var e := f.exp(0.0);
    assert e * e == 1.0 by {
      assert -0.0 == 0.0;
    }
    PositiveRootOfOne(e);
    assert f.log(1.0) == 0.0 by {
      assert f.log(f.exp(0.0)) == 0.0;
    }
  }
}
