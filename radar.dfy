/**
 * RidGuardRadarView: the range clamp applied on every update and, on every
 * draw, the filter and normalisation that place each aircraft on the radar.
 * A dot is kept in polar form (compass bearing, radial offset from the
 * centre); the turn into screen coordinates by cosine and sine, and the
 * bearing computation itself, are outside the model.
 */
module Radar {
  import opened Text
  import opened Telemetry
  import opened Settings

  /** The smallest range the radar shows. */
  const MinRangeMeters: int := 50

  /** A dot on the radar: compass bearing in degrees and distance from the centre in pixels. */
  datatype Dot = Dot(bearing: real, offset: real)

  /** Location.bearingTo, from the receiver to the drone. */
  type BearingTo = (ReceiverLocation, LocationData) -> real

  /** An aircraft is drawn when it has a location at a positive distance. */
  predicate Visible(a: Aircraft): (r: bool)
    ensures a.location.None? ==> !r
    ensures a.location.Some? && a.location.value.distance <= 0.0 ==> !r
  {
    a.location.Some? && a.location.value.distance > 0.0
  }

  /** The share of the outer ring a distance takes: d / range, capped at 1. */
  function Normalized(distance: real, maxRange: int): (n: real)
    requires distance > 0.0 && maxRange >= MinRangeMeters
    ensures 0.0 < n <= 1.0
    ensures distance >= maxRange as real ==> n == 1.0
    ensures distance < maxRange as real ==> n * maxRange as real == distance
  {
    var q := distance / maxRange as real;
    if q < 1.0 then q else 1.0
  }

  /** Any two aircraft at or beyond the range sit on the outer ring together. */
  lemma BeyondRangeCoincide(d1: real, d2: real, maxRange: int)
    requires maxRange >= MinRangeMeters && d1 >= maxRange as real && d2 >= maxRange as real
    ensures Normalized(d1, maxRange) == Normalized(d2, maxRange) == 1.0
  {
  }

  /** Nearer aircraft are drawn no farther out. */
  lemma NormalizedMonotone(d1: real, d2: real, maxRange: int)
    requires maxRange >= MinRangeMeters && 0.0 < d1 <= d2
    ensures Normalized(d1, maxRange) <= Normalized(d2, maxRange)
  {
    var m := maxRange as real;
    if d2 < m {
      assert Normalized(d1, maxRange) == d1 / m;
      assert Normalized(d2, maxRange) == d2 / m;
      assert d2 / m - d1 / m == (d2 - d1) / m;
    }
  }

  /** The outer ring radius: 90% of half the shorter side of the view. */
  function Radius(width: nat, height: nat): (r: real)
    ensures 0.0 <= r && r <= width as real / 2.0 && r <= height as real / 2.0
  {
    var cx := width as real / 2.0;
    var cy := height as real / 2.0;
    (if cx < cy then cx else cy) * 0.9
  }

  /** The dot for a visible aircraft; the bearing is 0 without a receiver location. */
  function DotFor(a: Aircraft, receiver: Option<ReceiverLocation>, maxRange: int, radius: real,
                  bearingTo: BearingTo): (d: Dot)
    requires Visible(a) && maxRange >= MinRangeMeters && radius >= 0.0
    ensures 0.0 <= d.offset <= radius
    ensures radius > 0.0 ==> 0.0 < d.offset
    ensures receiver.None? ==> d.bearing == 0.0
    ensures receiver.Some? ==> d.bearing == bearingTo(receiver.value, a.location.value)
  {
    var location := a.location.value;
    var bearing := if receiver.Some? then bearingTo(receiver.value, location) else 0.0;
    var n := Normalized(location.distance, maxRange);
    assert radius * n <= radius * 1.0;
    Dot(bearing, radius * n)
  }

  /** The dots of one draw, in list order, one per visible aircraft. */
  function Project(aircraft: seq<Aircraft>, receiver: Option<ReceiverLocation>, maxRange: int, radius: real,
                   bearingTo: BearingTo): (dots: seq<Dot>)
    requires maxRange >= MinRangeMeters && radius >= 0.0
    ensures |dots| <= |aircraft|
  {
    if aircraft == [] then []
    else
      var last := aircraft[|aircraft| - 1];
      Project(aircraft[..|aircraft| - 1], receiver, maxRange, radius, bearingTo) +
      (if Visible(last) then [DotFor(last, receiver, maxRange, radius, bearingTo)] else [])
  }

  /** How many aircraft in the list are visible. */
  function VisibleCount(aircraft: seq<Aircraft>): nat {
    if aircraft == [] then 0
    else VisibleCount(aircraft[1..]) + (if Visible(aircraft[0]) then 1 else 0)
  }

  /** No more dots than aircraft, and as many only when every aircraft is visible. */
  lemma {:induction false} VisibleCountAtMost(aircraft: seq<Aircraft>)
    ensures VisibleCount(aircraft) <= |aircraft|
    ensures VisibleCount(aircraft) == |aircraft| <==> forall i :: 0 <= i < |aircraft| ==> Visible(aircraft[i])
  {
    if aircraft != [] {
      VisibleCountAtMost(aircraft[1..]);
      if forall i :: 0 <= i < |aircraft| ==> Visible(aircraft[i]) {
        assert forall i :: 0 <= i < |aircraft| - 1 ==> Visible(aircraft[1..][i]);
      }
      if VisibleCount(aircraft) == |aircraft| {
        forall i | 0 <= i < |aircraft|
          ensures Visible(aircraft[i])
        {
          if i > 0 {
            assert aircraft[i] == aircraft[1..][i - 1];
          }
        }
      }
    }
  }

  lemma VisibleCountSplit(s: seq<Aircraft>, t: seq<Aircraft>)
    ensures VisibleCount(s + t) == VisibleCount(s) + VisibleCount(t)
  {
    if s == [] {
      assert s + t == t;
    } else {
      assert (s + t)[1..] == s[1..] + t;
      VisibleCountSplit(s[1..], t);
    }
  }

  /**
   * One dot per visible aircraft and none for the others; every dot lies
   * inside the outer ring, and without a receiver location every bearing is 0.
   */
  lemma {:induction false} ProjectBounds(aircraft: seq<Aircraft>, receiver: Option<ReceiverLocation>, maxRange: int,
                                         radius: real, bearingTo: BearingTo)
    requires maxRange >= MinRangeMeters && radius >= 0.0
    ensures var dots := Project(aircraft, receiver, maxRange, radius, bearingTo);
      |dots| == VisibleCount(aircraft) &&
      (forall d :: d in dots ==> 0.0 <= d.offset <= radius) &&
      (receiver.None? ==> forall d :: d in dots ==> d.bearing == 0.0)
  {
    if aircraft != [] {
      var prefix := aircraft[..|aircraft| - 1];
      var last := aircraft[|aircraft| - 1];
      ProjectBounds(prefix, receiver, maxRange, radius, bearingTo);
      VisibleCountSplit(prefix, [last]);
      assert prefix + [last] == aircraft;
    }
  }

  class RadarView {
    var aircraft: seq<Aircraft>
    var receiverLocation: Option<ReceiverLocation>
    var maxRangeMeters: int

    ghost predicate Valid()
      reads this
    {
      maxRangeMeters >= MinRangeMeters
    }

    constructor ()
      ensures Valid()
      ensures aircraft == [] && receiverLocation.None? && maxRangeMeters == DefaultRadiusMeters
    {
      aircraft := [];
      receiverLocation := None;
      maxRangeMeters := DefaultRadiusMeters;
    }

    /** Stores the list (null as empty), the receiver location, and the range raised to at least 50 m. */
    method UpdateData(aircraft: Option<seq<Aircraft>>, receiverLocation: Option<ReceiverLocation>, maxRangeMeters: int)
      modifies this
      ensures Valid()
      ensures this.aircraft == (if aircraft.Some? then aircraft.value else [])
      ensures this.receiverLocation == receiverLocation
      ensures maxRangeMeters >= MinRangeMeters ==> this.maxRangeMeters == maxRangeMeters
      ensures maxRangeMeters < MinRangeMeters ==> this.maxRangeMeters == MinRangeMeters
    {
      this.aircraft := if aircraft.Some? then aircraft.value else [];
      this.receiverLocation := receiverLocation;
      this.maxRangeMeters := if MinRangeMeters < maxRangeMeters then maxRangeMeters else MinRangeMeters;
    }

    /**
     * One draw: the three rings (full, 0.66 and 0.33 of the radius) and the
     * dots, one per visible aircraft, all within the outer ring.
     */
    method OnDraw(width: nat, height: nat, bearingTo: BearingTo) returns (rings: seq<real>, dots: seq<Dot>)
      requires Valid()
      ensures rings == [Radius(width, height), Radius(width, height) * 0.66, Radius(width, height) * 0.33]
      ensures dots == Project(aircraft, receiverLocation, maxRangeMeters, Radius(width, height), bearingTo)
      ensures |dots| == VisibleCount(aircraft)
      ensures forall d :: d in dots ==> 0.0 <= d.offset <= rings[0]
    {
      var radius := Radius(width, height);
      rings := [radius, radius * 0.66, radius * 0.33];
      dots := [];
      var i := 0;
      while i < |aircraft|
        invariant 0 <= i <= |aircraft|
        invariant dots == Project(aircraft[..i], receiverLocation, maxRangeMeters, radius, bearingTo)
      {
        var a := aircraft[i];
        assert aircraft[..i + 1][..i] == aircraft[..i];
        assert Project(aircraft[..i + 1], receiverLocation, maxRangeMeters, radius, bearingTo) ==
          dots + (if Visible(a) then [DotFor(a, receiverLocation, maxRangeMeters, radius, bearingTo)] else []);
        if a.location.None? || a.location.value.distance <= 0.0 {
          i := i + 1;
          continue;
        }
        var location := a.location.value;
        var normalized := Normalized(location.distance, maxRangeMeters);
        var bearing := 0.0;
        if receiverLocation.Some? {
          bearing := bearingTo(receiverLocation.value, location);
        }
        assert Dot(bearing, radius * normalized) == DotFor(a, receiverLocation, maxRangeMeters, radius, bearingTo);
        dots := dots + [Dot(bearing, radius * normalized)];
        i := i + 1;
      }
      assert aircraft[..|aircraft|] == aircraft;
      ProjectBounds(aircraft, receiverLocation, maxRangeMeters, radius, bearingTo);
    }
  }
}
