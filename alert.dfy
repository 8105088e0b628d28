/**
 * RidGuardAlertManager.maybeAlert: a fixed chain of suppression checks, first
 * match wins, and a per-identity cooldown table that only the firing path
 * writes. Firing (the vibration and tone of triggerAlert) is reported as a
 * returned boolean.
 */
module Alert {
  import opened Text
  import opened Telemetry
  import opened Settings

  /** Which early return of maybeAlert was taken. */
  datatype Reason = NoAircraft | NoId | Silenced | Ignored | OutOfRange | OutsideAltitudeWindow | CoolingDown

  datatype Verdict = Fire | Suppress(reason: Reason)

  /** One call of maybeAlert, with the wall-clock time it reads. */
  datatype Call = Call(aircraft: Option<Aircraft>, id: Option<string>, altitudeDiff: Option<real>, distance: real, now: int)

  /** The cooldown table: identity to the time (ms) of its last alert. */
  type Cooldowns = map<string, int>

  function CooldownMillis(p: Prefs): int {
    CooldownSeconds(p) * 1000
  }

  /** The decision maybeAlert takes, given the settings and the cooldown table. */
  function Decide(p: Prefs, sha256: Digest, last: Cooldowns, c: Call): (v: Verdict)
    ensures v.Fire? ==> c.aircraft.Some? && c.id.Some?
  {
    if c.aircraft.None? then Suppress(NoAircraft)
    else if c.id.None? then Suppress(NoId)
    else if c.now < SilenceUntil(p) then Suppress(Silenced)
    else if ManuallyIgnored(p, c.id) || TemporarilyIgnored(p, sha256, c.id, c.now) then Suppress(Ignored)
    else if c.distance <= 0.0 || c.distance > RadiusMeters(p) as real then Suppress(OutOfRange)
    else if AltitudeWindowEnabled(p) && c.altitudeDiff.Some? &&
            (c.altitudeDiff.value < AltitudeMinMeters(p) as real ||
             c.altitudeDiff.value > AltitudeMaxMeters(p) as real) then Suppress(OutsideAltitudeWindow)
    else if c.id.value in last && c.now - last[c.id.value] < CooldownMillis(p) then Suppress(CoolingDown)
    else Fire
  }

  /** The cooldown table after a decision: only a firing writes, and it writes id := now. */
  function Record(last: Cooldowns, c: Call, v: Verdict): (r: Cooldowns)
    requires v.Fire? ==> c.id.Some?
    ensures v.Fire? ==> c.id.value in r && r[c.id.value] == c.now
    ensures r.Keys == last.Keys + (if v.Fire? then {c.id.value} else {})
    ensures forall k :: k in last && (v.Fire? ==> k != c.id.value) ==> r[k] == last[k]
  {
    if v.Fire? then last[c.id.value := c.now] else last
  }

  // ---------------------------------------------------------------------------
  // The suppression rules, one by one

  /** A null aircraft or null id never fires and leaves the table alone. */
  lemma NullNeverFires(p: Prefs, sha256: Digest, last: Cooldowns, c: Call)
    requires c.aircraft.None? || c.id.None?
    ensures Decide(p, sha256, last, c).Suppress?
    ensures Record(last, c, Decide(p, sha256, last, c)) == last
  {
  }

  /** Silence suppresses strictly before silence-until and never at or after it. */
  lemma SilenceBoundary(p: Prefs, sha256: Digest, last: Cooldowns, c: Call)
    requires c.aircraft.Some? && c.id.Some?
    ensures c.now < SilenceUntil(p) ==> Decide(p, sha256, last, c) == Suppress(Silenced)
    ensures c.now >= SilenceUntil(p) ==> Decide(p, sha256, last, c) != Suppress(Silenced)
  {
  }

  /** A manually or temporarily ignored identity never fires. */
  lemma IgnoredNeverFires(p: Prefs, sha256: Digest, last: Cooldowns, c: Call)
    requires ManuallyIgnored(p, c.id) || TemporarilyIgnored(p, sha256, c.id, c.now)
    ensures Decide(p, sha256, last, c).Suppress?
  {
  }

  /** Distance must lie in (0, radius]; exactly the (positive) radius passes. */
  lemma RadiusBoundary(p: Prefs, sha256: Digest, last: Cooldowns, c: Call)
    ensures c.distance <= 0.0 || c.distance > RadiusMeters(p) as real ==> Decide(p, sha256, last, c).Suppress?
    ensures 0.0 < c.distance == RadiusMeters(p) as real ==> Decide(p, sha256, last, c) != Suppress(OutOfRange)
  {
  }

  /**
   * With the window enabled and the difference known, only min <= diff <= max
   * passes (both ends included); otherwise the altitude never suppresses.
   */
  lemma AltitudeWindow(p: Prefs, sha256: Digest, last: Cooldowns, c: Call)
    ensures AltitudeWindowEnabled(p) && c.altitudeDiff.Some? &&
            !(AltitudeMinMeters(p) as real <= c.altitudeDiff.value <= AltitudeMaxMeters(p) as real)
            ==> Decide(p, sha256, last, c).Suppress?
    ensures (!AltitudeWindowEnabled(p) || c.altitudeDiff.None? ||
             AltitudeMinMeters(p) as real <= c.altitudeDiff.value <= AltitudeMaxMeters(p) as real)
            ==> Decide(p, sha256, last, c) != Suppress(OutsideAltitudeWindow)
  {
  }

  /**
   * The table only ever adds suppression. A call that would fire on a fresh
   * table fires after an alert at time t for the same identity exactly when
   * at least the cooldown has passed since t.
   */
  lemma CooldownBoundary(p: Prefs, sha256: Digest, last: Cooldowns, c: Call, t: int)
    ensures Decide(p, sha256, last, c).Fire? ==> Decide(p, sha256, map[], c).Fire?
    ensures Decide(p, sha256, map[], c).Fire? ==>
      (Decide(p, sha256, last[c.id.value := t], c).Fire? <==> c.now - t >= CooldownSeconds(p) * 1000)
  {
  }

  /**
   * The alert fires exactly when every check passes: an aircraft and an id,
   * not silenced, not ignored, 0 < distance <= radius, inside the altitude
   * window (or the window off or the difference unknown), and no alert for
   * this id within the cooldown.
   */
  lemma FiresExactlyWhenAllPass(p: Prefs, sha256: Digest, last: Cooldowns, c: Call)
    ensures Decide(p, sha256, last, c).Fire? <==>
      c.aircraft.Some? && c.id.Some? &&
      c.now >= SilenceUntil(p) &&
      !ManuallyIgnored(p, c.id) && !TemporarilyIgnored(p, sha256, c.id, c.now) &&
      0.0 < c.distance <= RadiusMeters(p) as real &&
      (!AltitudeWindowEnabled(p) || c.altitudeDiff.None? ||
       AltitudeMinMeters(p) as real <= c.altitudeDiff.value <= AltitudeMaxMeters(p) as real) &&
      (c.id.value !in last || c.now - last[c.id.value] >= CooldownSeconds(p) * 1000)
  {
  }

  /** The first matching rule is reported: silence wins over an out-of-range distance. */
  lemma SilenceBeforeRadius(p: Prefs, sha256: Digest, last: Cooldowns, c: Call)
    requires c.aircraft.Some? && c.id.Some?
    requires c.now < SilenceUntil(p) && c.distance > RadiusMeters(p) as real
    ensures Decide(p, sha256, last, c) == Suppress(Silenced)
  {
  }

  // ---------------------------------------------------------------------------
  // A run of calls

  /** The cooldown table after a run of calls with fixed settings. */
  function After(p: Prefs, sha256: Digest, last: Cooldowns, calls: seq<Call>): Cooldowns
  {
    if calls == [] then last
    else
      var prev := After(p, sha256, last, calls[..|calls| - 1]);
      var c := calls[|calls| - 1];
      Record(prev, c, Decide(p, sha256, prev, c))
  }

  predicate FiresAt(p: Prefs, sha256: Digest, last: Cooldowns, calls: seq<Call>, j: nat)
    requires j < |calls|
  {
    Decide(p, sha256, After(p, sha256, last, calls[..j]), calls[j]).Fire?
  }

  ghost predicate InTimeOrder(calls: seq<Call>) {
    forall a, b :: 0 <= a <= b < |calls| ==> calls[a].now <= calls[b].now
  }

  /** After call i fires, the table remembers its identity at a time no earlier than call i. */
  lemma {:induction false} RememberedSinceFiring(p: Prefs, sha256: Digest, last: Cooldowns, calls: seq<Call>, i: nat, k: nat)
    requires i < k <= |calls| && InTimeOrder(calls)
    requires FiresAt(p, sha256, last, calls, i)
    ensures calls[i].id.Some?
    ensures calls[i].id.value in After(p, sha256, last, calls[..k])
    ensures After(p, sha256, last, calls[..k])[calls[i].id.value] >= calls[i].now
  {
    var prefix := calls[..k];
    assert prefix[..k - 1] == calls[..k - 1];
    assert prefix[k - 1] == calls[k - 1];
    var prev := After(p, sha256, last, calls[..k - 1]);
    var c := calls[k - 1];
    var v := Decide(p, sha256, prev, c);
    assert After(p, sha256, last, prefix) == Record(prev, c, v);
    if k == i + 1 {
      assert v.Fire?;
    } else {
      RememberedSinceFiring(p, sha256, last, calls, i, k - 1);
      assert c.now >= calls[i].now;
      RecordKeepsLater(prev, c, v, calls[i].id.value, calls[i].now);
    }
  }

  /** Recording a decision made no earlier than t keeps an entry at least t. */
  lemma RecordKeepsLater(last: Cooldowns, c: Call, v: Verdict, x: string, t: int)
    requires v.Fire? ==> c.id.Some?
    requires x in last && last[x] >= t && c.now >= t
    ensures x in Record(last, c, v) && Record(last, c, v)[x] >= t
  {
  }

  /**
   * With fixed settings and calls in time order, two alerts for the same
   * identity are at least the cooldown apart.
   */
  lemma AlertsAreSpaced(p: Prefs, sha256: Digest, last: Cooldowns, calls: seq<Call>, i: nat, j: nat)
    requires i < j < |calls| && InTimeOrder(calls)
    requires FiresAt(p, sha256, last, calls, i) && FiresAt(p, sha256, last, calls, j)
    requires calls[i].id == calls[j].id
    ensures calls[j].now - calls[i].now >= CooldownSeconds(p) * 1000
  {
    RememberedSinceFiring(p, sha256, last, calls, i, j);
  }

  // ---------------------------------------------------------------------------
  // The alert manager object

  class AlertManager {
    const settings: Settings
    var lastAlertById: Cooldowns

    constructor (settings: Settings)
      ensures this.settings == settings && lastAlertById == map[]
    {
      this.settings := settings;
      lastAlertById := map[];
    }

    /**
     * One evaluation: `fired` is the single actuation request, made exactly
     * when every check passes; the table changes only then, to id := now.
     */
    method MaybeAlert(aircraft: Option<Aircraft>, aircraftId: Option<string>, altitudeDiff: Option<real>,
                      distance: real, now: int) returns (fired: bool)
      modifies this
      ensures var c := Call(aircraft, aircraftId, altitudeDiff, distance, now);
        var v := Decide(settings.prefs, settings.sha256, old(lastAlertById), c);
        fired == v.Fire? && lastAlertById == Record(old(lastAlertById), c, v)
    {
      if aircraft.None? {
        return false;
      }
      if aircraftId.None? {
        return false;
      }
      if now < SilenceUntil(settings.prefs) {
        return false;
      }
      var manual := settings.IsManuallyIgnored(aircraftId);
      if manual || TemporarilyIgnored(settings.prefs, settings.sha256, aircraftId, now) {
        return false;
      }
      if distance <= 0.0 || distance > RadiusMeters(settings.prefs) as real {
        return false;
      }
      if AltitudeWindowEnabled(settings.prefs) && altitudeDiff.Some? {
        var min := AltitudeMinMeters(settings.prefs);
        var max := AltitudeMaxMeters(settings.prefs);
        if altitudeDiff.value < min as real || altitudeDiff.value > max as real {
          return false;
        }
      }
      var id := aircraftId.value;
      if id in lastAlertById && now - lastAlertById[id] < CooldownSeconds(settings.prefs) * 1000 {
        return false;
      }
      lastAlertById := lastAlertById[id := now];
      fired := true;
    }
  }
}
