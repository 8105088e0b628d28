/**
 * RidGuardRepository: the Idle/Active scanning lifecycle over three detection
 * sources and the location feed, the per-report dispatch to one alert
 * evaluation and one log entry, the altitude difference, and the status
 * summary. The scanners and the location client are outside the model; what
 * the repository asks of them is recorded as a sequence of ScanActions.
 */
module Repository {
  import opened Text
  import opened Telemetry
  import opened Settings
  import opened DroneUtils
  import opened Alert
  import opened Logger

  /** Build.VERSION_CODES.M and O. */
  const SdkM: int := 23
  const SdkO: int := 26

  /** The altitude value that means "unknown". */
  const AltitudeUnknown: real := -1000.0

  // ---------------------------------------------------------------------------
  // Altitude difference

  /** Geodetic altitude, else pressure altitude, minus the receiver's altitude. */
  function AltitudeDiff(location: Option<LocationData>, receiver: Option<ReceiverLocation>): (r: Option<real>)
    ensures r.Some? ==> (location.Some? && receiver.Some? &&
      var drone := r.value + receiver.value.altitude;
      drone != AltitudeUnknown &&
      (drone == location.value.altitudeGeodetic || drone == location.value.altitudePressure) &&
      (location.value.altitudeGeodetic != AltitudeUnknown ==> drone == location.value.altitudeGeodetic))
  {
    if location.None? || receiver.None? then None
    else
      var geodetic := location.value.altitudeGeodetic;
      var drone := if geodetic == AltitudeUnknown then location.value.altitudePressure else geodetic;
      if drone == AltitudeUnknown then None else Some(drone - receiver.value.altitude)
  }

  /**
   * The difference is unknown without a location, without a receiver, or
   * when both drone altitudes are unknown; otherwise it is taken from the
   * geodetic altitude when that is known and from the pressure altitude if not.
   */
  lemma AltitudeDiffCases(location: Option<LocationData>, receiver: Option<ReceiverLocation>)
    ensures location.None? || receiver.None? ==> AltitudeDiff(location, receiver).None?
    ensures location.Some? && receiver.Some? ==>
      var l := location.value;
      var r := receiver.value;
      (l.altitudeGeodetic != AltitudeUnknown ==> AltitudeDiff(location, receiver) == Some(l.altitudeGeodetic - r.altitude)) &&
      (l.altitudeGeodetic == AltitudeUnknown && l.altitudePressure != AltitudeUnknown ==>
         AltitudeDiff(location, receiver) == Some(l.altitudePressure - r.altitude)) &&
      (l.altitudeGeodetic == AltitudeUnknown && l.altitudePressure == AltitudeUnknown ==>
         AltitudeDiff(location, receiver).None?)
  {
  }

  // ---------------------------------------------------------------------------
  // What one report carries into the alert check and the log

  datatype ReportFields = ReportFields(
    distance: real,
    altitudeDiff: Option<real>,
    id: Option<string>,
    speed: Option<real>,
    heading: Option<real>,
    lastSeen: int)

  function Fields(a: Aircraft, receiver: Option<ReceiverLocation>): (f: ReportFields)
    ensures f.id == PrimaryId(Some(a))
    ensures a.location.None? ==> f.distance == 0.0 && f.altitudeDiff.None? && f.speed.None? && f.heading.None?
    ensures a.location.Some? ==> f.distance == a.location.value.distance && f.speed.Some? && f.heading.Some?
    ensures a.connection.None? ==> f.lastSeen == 0
    ensures f.altitudeDiff == AltitudeDiff(a.location, receiver)
    ensures a.location.Some? ==>
      f.speed == Some(a.location.value.speedHorizontal) && f.heading == Some(a.location.value.direction)
    ensures a.connection.Some? ==> f.lastSeen == a.connection.value.lastSeen
  {
    ReportFields(
      if a.location.Some? then a.location.value.distance else 0.0,
      AltitudeDiff(a.location, receiver),
      PrimaryId(Some(a)),
      if a.location.Some? then Some(a.location.value.speedHorizontal) else None,
      if a.location.Some? then Some(a.location.value.direction) else None,
      if a.connection.Some? then a.connection.value.lastSeen else 0)
  }

  /** The state a report touches: the cooldown table and the log directory. */
  datatype Effect = Effect(fired: bool, cooldowns: Cooldowns, dirExists: bool, files: Directory)

  /**
   * One report: one alert evaluation on the report's fields, then one log
   * entry with the hashed identity (the same fields, whatever the verdict).
   */
  function ReportEffect(p: Prefs, sha256: Digest, last: Cooldowns, dirExists: bool, files: Directory,
                        a: Aircraft, receiver: Option<ReceiverLocation>, now: int, date: string, io: LogIo): (e: Effect)
    ensures e.fired ==> (a.location.Some? && PrimaryId(Some(a)).Some? &&
      e.cooldowns == last[PrimaryId(Some(a)).value := now])
    ensures !e.fired ==> e.cooldowns == last
    ensures e.dirExists == (dirExists || io.mkdirsSucceeds)
    ensures !e.dirExists ==> e.files == files
  {
    var f := Fields(a, receiver);
    var c := Call(Some(a), f.id, f.altitudeDiff, f.distance, now);
    var v := Decide(p, sha256, last, c);
    var row := Row(now, HashedId(sha256, f.id), f.distance, f.altitudeDiff, f.speed, f.heading, f.lastSeen);
    if !dirExists && !io.mkdirsSucceeds then Effect(v.Fire?, Record(last, c, v), false, files)
    else Effect(v.Fire?, Record(last, c, v), true, LogStep(files, p, io, now, date, row))
  }

  /**
   * Every report, with or without a location, is evaluated once and, when the
   * directory is available and the append succeeds, adds exactly one row to
   * the day file; without a location its distance is 0, so it never fires.
   */
  lemma ReportLogsOnce(p: Prefs, sha256: Digest, last: Cooldowns, dirExists: bool, files: Directory,
                       a: Aircraft, receiver: Option<ReceiverLocation>, now: int, date: string, io: LogIo)
    requires (dirExists || io.mkdirsSucceeds) && io.writeSucceeds
    ensures var e := ReportEffect(p, sha256, last, dirExists, files, a, receiver, now, date, io);
      var kept := if io.listSucceeds then Retained(files, now, RetentionMillis(p)) else files;
      var name := FileName(date);
      var f := Fields(a, receiver);
      name in e.files &&
      |e.files[name].lines| == (if name in kept then |kept[name].lines| else 1) + 1 &&
      e.files[name].lines[|e.files[name].lines| - 1] ==
        Row(now, HashedId(sha256, f.id), f.distance, f.altitudeDiff, f.speed, f.heading, f.lastSeen)
    ensures a.location.None? ==> (Fields(a, receiver).distance == 0.0 &&
      !ReportEffect(p, sha256, last, dirExists, files, a, receiver, now, date, io).fired)
  {
  }

  /**
   * The end-to-end case: with default settings and nothing alerted before,
   * an identified aircraft 50 m away fires (at any altitude, the window being
   * off by default), its id is remembered, and its log row reads "50.0" in
   * the distance field.
   */
  lemma FiftyMetresFires(sha256: Digest, files: Directory, a: Aircraft, receiver: Option<ReceiverLocation>,
                         now: int, date: string)
    requires PrimaryId(Some(a)).Some?
    requires a.location.Some? && a.location.value.distance == 50.0
    requires 0 <= now
    ensures var e := ReportEffect(map[], sha256, map[], true, files, a, receiver, now, date, LogIo(true, true, true));
      e.fired && e.cooldowns == map[PrimaryId(Some(a)).value := now] &&
      FileName(date) in e.files &&
      var lines := e.files[FileName(date)].lines;
      |lines| > 0 &&
      var fields := Split(lines[|lines| - 1], {','});
      |fields| == 7 && fields[2] == "50.0"
  {
    var io := LogIo(true, true, true);
    var f := Fields(a, receiver);
    var c := Call(Some(a), f.id, f.altitudeDiff, f.distance, now);
    DefaultsFire(sha256, c);
    var hashed := HashedId(sha256, f.id);
    HashedIdShape(sha256, f.id.value);
    assert ',' !in hashed by {
      assert forall i :: 0 <= i < |hashed| ==> IsLowerHex(hashed[i]);
    }
    var row := Row(now, hashed, f.distance, f.altitudeDiff, f.speed, f.heading, f.lastSeen);
    ReportLogsOnce(map[], sha256, map[], true, files, a, receiver, now, date, io);
    RowHasSevenFields(now, hashed, f.distance, f.altitudeDiff, f.speed, f.heading, f.lastSeen);
    FiftyMetresRendersAsFiftyPointZero();
  }

  /** With default settings and an empty table, an identified aircraft within 200 m fires. */
  lemma DefaultsFire(sha256: Digest, c: Call)
    requires c.aircraft.Some? && c.id.Some? && 0 <= c.now
    requires 0.0 < c.distance <= 200.0
    ensures Decide(map[], sha256, map[], c) == Fire
  {
    DefaultsOfEmptyStore();
    assert !ManuallyIgnored(map[], c.id) by {
      assert IgnoreEntries(IgnoreIdsRaw(map[])) == {};
    }
    assert !TemporarilyIgnored(map[], sha256, c.id, c.now);
  }

  // ---------------------------------------------------------------------------
  // The scanning lifecycle

  /** The requests the repository makes of the platform. */
  datatype ScanAction =
    | RequestLocationUpdates | StartBluetoothScan | StartNanScan | StartBeaconTimer
    | StopBluetoothScan | StopNanScan | StopBeaconScan | RemoveLocationUpdates

  /**
   * The lifecycle state: the scanning flag, which scanner objects and
   * location callback exist (are non-null), and every request made so far.
   */
  datatype Lifecycle = Lifecycle(
    scanning: bool,
    bluetooth: bool,
    nan: bool,
    beacon: bool,
    locationCallback: bool,
    actions: seq<ScanAction>)

  function StartRequests(sdk: int, locationPermitted: bool): seq<ScanAction>
  {
    (if locationPermitted then [RequestLocationUpdates] else []) +
    [StartBluetoothScan] +
    (if sdk >= SdkO then [StartNanScan] else []) +
    (if sdk >= SdkM then [StartBeaconTimer] else [])
  }

  /**
   * A start from Idle always starts the Bluetooth scan; it starts the NAN scan
   * only from API 26, the beacon timer only from API 23, and asks for location
   * updates only with the permission. It requests nothing else.
   */
  lemma StartRequestsGated(sdk: int, locationPermitted: bool)
    ensures var r := StartRequests(sdk, locationPermitted);
      StartBluetoothScan in r &&
      (StartNanScan in r <==> sdk >= SdkO) &&
      (StartBeaconTimer in r <==> sdk >= SdkM) &&
      (RequestLocationUpdates in r <==> locationPermitted) &&
      forall a :: a in r ==> a.RequestLocationUpdates? || a.StartBluetoothScan? || a.StartNanScan? || a.StartBeaconTimer?
  {
  }

  function StopRequests(s: Lifecycle, sdk: int): seq<ScanAction> {
    (if s.bluetooth then [StopBluetoothScan] else []) +
    (if sdk >= SdkO && s.nan then [StopNanScan] else []) +
    (if sdk >= SdkM && s.beacon then [StopBeaconScan] else []) +
    (if s.locationCallback then [RemoveLocationUpdates] else [])
  }

  /** startScanning: a no-op when active; otherwise create and start every source, then go Active. */
  function Start(s: Lifecycle, sdk: int, locationPermitted: bool): (r: Lifecycle)
    ensures r.scanning
    ensures !s.scanning ==> r.bluetooth && r.nan && r.beacon
    ensures |s.actions| <= |r.actions| && r.actions[..|s.actions|] == s.actions
    ensures !s.scanning ==> r.actions[|s.actions|..] == StartRequests(sdk, locationPermitted)
    ensures s.locationCallback ==> r.locationCallback
  {
    if s.scanning then s
    else Lifecycle(true, true, true, true, s.locationCallback || locationPermitted,
                   s.actions + StartRequests(sdk, locationPermitted))
  }

  /** stopScanning: a no-op when idle; otherwise stop each existing source, then go Idle. */
  function Stop(s: Lifecycle, sdk: int): (r: Lifecycle)
    ensures !r.scanning
    ensures |s.actions| <= |r.actions| && r.actions[..|s.actions|] == s.actions
    ensures r.bluetooth == s.bluetooth && r.nan == s.nan && r.beacon == s.beacon
  {
    if !s.scanning then s
    else s.(scanning := false, actions := s.actions + StopRequests(s, sdk))
  }

  /** Starting twice is starting once; stopping twice is stopping once. */
  lemma StartStopIdempotent(s: Lifecycle, sdk: int, p1: bool, p2: bool)
    ensures Start(Start(s, sdk, p1), sdk, p2) == Start(s, sdk, p1)
    ensures Stop(Stop(s, sdk), sdk) == Stop(s, sdk)
    ensures Start(s, sdk, p1).scanning && !Stop(s, sdk).scanning
  {
  }

  /**
   * A start from Idle requests the Bluetooth scan and, on new enough
   * platforms, the NAN scan and the beacon timer before it reports Active;
   * the stop that follows stops exactly the sources that start started and
   * removes the location callback that start registered.
   */
  lemma StopUndoesStart(s: Lifecycle, sdk: int, locationPermitted: bool)
    requires !s.scanning
    ensures var started := Start(s, sdk, locationPermitted);
      var stopped := Stop(started, sdk);
      started.actions == s.actions + StartRequests(sdk, locationPermitted) &&
      (StartNanScan in StartRequests(sdk, locationPermitted) <==> StopNanScan in StopRequests(started, sdk)) &&
      (StartBeaconTimer in StartRequests(sdk, locationPermitted) <==> StopBeaconScan in StopRequests(started, sdk)) &&
      StartBluetoothScan in StartRequests(sdk, locationPermitted) &&
      StopBluetoothScan in StopRequests(started, sdk) &&
      (RequestLocationUpdates in StartRequests(sdk, locationPermitted) ==>
         RemoveLocationUpdates in StopRequests(started, sdk)) &&
      stopped.actions == started.actions + StopRequests(started, sdk) && !stopped.scanning
  {
    var req := StartRequests(sdk, locationPermitted);
    var started := Start(s, sdk, locationPermitted);
    var stops := StopRequests(started, sdk);
    assert StartNanScan in req <==> sdk >= SdkO;
    assert StopNanScan in stops <==> sdk >= SdkO;
    assert StartBeaconTimer in req <==> sdk >= SdkM;
    assert StopBeaconScan in stops <==> sdk >= SdkM;
    assert stops[0] == StopBluetoothScan;
  }

  // ---------------------------------------------------------------------------
  // Status summary

  function OnOff(b: bool): string {
    if b then "on" else "off"
  }

  /** "BLE x · Wi-Fi y · NAN z", each of x, y, z "on" or "off". */
  function StatusSummary(bluetooth: bool, wifi: bool, nan: bool): string {
    "BLE " + OnOff(bluetooth) + " · Wi-Fi " + OnOff(wifi) + " · NAN " + OnOff(nan)
  }

  /** The summary tells the three flags apart: different flags, different text. */
  lemma StatusSummaryInjective(a: bool, b: bool, c: bool, x: bool, y: bool, z: bool)
    ensures StatusSummary(a, b, c) == StatusSummary(x, y, z) ==> a == x && b == y && c == z
  {
    SummaryPositions(a, b, c);
    SummaryPositions(x, y, z);
  }

  /** Where each flag shows: 'n' ends "on", 'f' follows "of". */
  lemma SummaryPositions(a: bool, b: bool, c: bool)
    ensures var s := StatusSummary(a, b, c);
      var k := 4 + |OnOff(a)| + 10;
      5 < k < |s| &&
      s[5] == (if a then 'n' else 'f') &&
      s[k] == (if b then 'n' else 'f') &&
      s[|s| - 1] == (if c then 'n' else 'f')
  {
    var s := StatusSummary(a, b, c);
    var head := "BLE " + OnOff(a);
    var mid := head + " · Wi-Fi " + OnOff(b);
    assert s == mid + " · NAN " + OnOff(c);
    assert s[5] == head[5];
    assert s[4 + |OnOff(a)| + 10] == mid[4 + |OnOff(a)| + 10];
  }

  // ---------------------------------------------------------------------------
  // The repository object

  /** A location callback delivery; its last location may itself be null. */
  datatype LocationResult = LocationResult(lastLocation: Option<ReceiverLocation>)

  class Repository {
    const settings: Settings
    const alertManager: AlertManager
    const logger: Logger
    const sdkInt: int

    var scanning: bool
    var bluetoothScanner: bool
    var nanScanner: bool
    var beaconScanner: bool
    var locationCallback: bool
    var actions: seq<ScanAction>
    var receiverLocation: Option<ReceiverLocation>
    var lastScanTime: int

    ghost predicate Valid()
      reads this, logger
    {
      alertManager.settings == settings && logger.settings == settings && logger.Valid()
    }

    function State(): Lifecycle
      reads this
    {
      Lifecycle(scanning, bluetoothScanner, nanScanner, beaconScanner, locationCallback, actions)
    }

    constructor (sha256: Digest, prefs: Prefs, sdkInt: int, dirExists: bool, files: Directory)
      requires !dirExists ==> files == map[]
      ensures Valid() && fresh(settings) && fresh(alertManager) && fresh(logger)
      ensures settings.sha256 == sha256 && settings.prefs == prefs && this.sdkInt == sdkInt
      ensures alertManager.lastAlertById == map[]
      ensures logger.dirExists == dirExists && logger.files == files
      ensures State() == Lifecycle(false, false, false, false, false, [])
      ensures receiverLocation.None? && lastScanTime == 0
    {
      var s := new Settings(sha256, prefs);
      settings := s;
      alertManager := new AlertManager(s);
      logger := new Logger(s, dirExists, files);
      this.sdkInt := sdkInt;
      scanning, bluetoothScanner, nanScanner, beaconScanner, locationCallback := false, false, false, false, false;
      actions := [];
      receiverLocation := None;
      lastScanTime := 0;
    }

    method StartScanning(locationPermitted: bool)
      modifies this
      ensures State() == Start(old(State()), sdkInt, locationPermitted)
      ensures receiverLocation == old(receiverLocation) && lastScanTime == old(lastScanTime)
    {
      if scanning {
        return;
      }
      ghost var before := State();
      if locationPermitted {
        locationCallback := true;
        actions := actions + [RequestLocationUpdates];
      }
      bluetoothScanner, nanScanner, beaconScanner := true, true, true;
      actions := actions + [StartBluetoothScan];
      if sdkInt >= SdkO {
        actions := actions + [StartNanScan];
      }
      if sdkInt >= SdkM {
        actions := actions + [StartBeaconTimer];
      }
      assert actions == before.actions + StartRequests(sdkInt, locationPermitted);
      scanning := true;
    }

    method StopScanning()
      modifies this
      ensures State() == Stop(old(State()), sdkInt)
      ensures receiverLocation == old(receiverLocation) && lastScanTime == old(lastScanTime)
    {
      if !scanning {
        return;
      }
      ghost var before := State();
      if bluetoothScanner {
        actions := actions + [StopBluetoothScan];
      }
      if sdkInt >= SdkO && nanScanner {
        actions := actions + [StopNanScan];
      }
      if sdkInt >= SdkM && beaconScanner {
        actions := actions + [StopBeaconScan];
      }
      if locationCallback {
        actions := actions + [RemoveLocationUpdates];
      }
      assert actions == before.actions + StopRequests(before, sdkInt);
      scanning := false;
    }

    /** The location callback: a null result is ignored; otherwise its last location is kept. */
    method OnLocationResult(result: Option<LocationResult>)
      modifies this
      ensures receiverLocation == if result.None? then old(receiverLocation) else result.value.lastLocation
      ensures State() == old(State()) && lastScanTime == old(lastScanTime)
    {
      if result.None? {
        return;
      }
      receiverLocation := result.value.lastLocation;
    }

    method OnAircraftUpdated(aircraft: Aircraft, now: int, date: string, io: LogIo) returns (fired: bool)
      requires Valid()
      modifies this, alertManager, logger
      ensures Valid()
      ensures Effect(fired, alertManager.lastAlertById, logger.dirExists, logger.files) ==
        ReportEffect(settings.prefs, settings.sha256, old(alertManager.lastAlertById), old(logger.dirExists),
                     old(logger.files), aircraft, receiverLocation, now, date, io)
      ensures lastScanTime == now
      ensures State() == old(State()) && receiverLocation == old(receiverLocation)
    {
      lastScanTime := now;
      var location := aircraft.location;
      var distance := if location.Some? then location.value.distance else 0.0;
      var altitudeDiff := AltitudeDiff(location, receiverLocation);
      var aircraftId := PrimaryId(Some(aircraft));
      var hashed := HashId(settings.sha256, aircraftId);
      var speed := if location.Some? then Some(location.value.speedHorizontal) else None;
      var heading := if location.Some? then Some(location.value.direction) else None;
      var lastSeen := if aircraft.connection.Some? then aircraft.connection.value.lastSeen else 0;
      fired := alertManager.MaybeAlert(Some(aircraft), aircraftId, altitudeDiff, distance, now);
      logger.LogEntry(hashed, distance, altitudeDiff, speed, heading, lastSeen, now, date, io);
    }

    /** A first sighting is handled exactly as an update. */
    method OnNewAircraft(aircraft: Aircraft, now: int, date: string, io: LogIo) returns (fired: bool)
      requires Valid()
      modifies this, alertManager, logger
      ensures Valid()
      ensures Effect(fired, alertManager.lastAlertById, logger.dirExists, logger.files) ==
        ReportEffect(settings.prefs, settings.sha256, old(alertManager.lastAlertById), old(logger.dirExists),
                     old(logger.files), aircraft, receiverLocation, now, date, io)
      ensures lastScanTime == now
      ensures State() == old(State()) && receiverLocation == old(receiverLocation)
    {
      fired := OnAircraftUpdated(aircraft, now, date, io);
    }

    /**
     * buildStatusSummary: Bluetooth is on when the scanner exists and its
     * adapter exists and is enabled, Wi-Fi when the manager exists and is
     * enabled, NAN when the platform is new enough and has the Wi-Fi Aware
     * feature. A null adapter or manager is None.
     */
    function BuildStatusSummary(adapterEnabled: Option<bool>, wifiEnabled: Option<bool>, hasWifiAware: bool): (s: string)
      reads this
      ensures 5 < |s|
      ensures s[5] == 'n' <==> bluetoothScanner && adapterEnabled == Some(true)
      ensures var k := 4 + |OnOff(bluetoothScanner && adapterEnabled == Some(true))| + 10;
        k < |s| && (s[k] == 'n' <==> wifiEnabled == Some(true))
      ensures s[|s| - 1] == 'n' <==> sdkInt >= SdkO && hasWifiAware
    {
      SummaryPositions(bluetoothScanner && adapterEnabled == Some(true), wifiEnabled == Some(true),
                       sdkInt >= SdkO && hasWifiAware);
      StatusSummary(bluetoothScanner && adapterEnabled == Some(true), wifiEnabled == Some(true),
                    sdkInt >= SdkO && hasWifiAware)
    }
  }
}
