# RID Guard core, modelled in Dafny

RID Guard is a passive Remote ID monitor for Android. It listens for drone
broadcasts over Bluetooth, Wi-Fi NAN and Wi-Fi beacons. For each aircraft
report it decides whether to alert the user, and it writes an anonymised CSV
audit row. The project models the RID Guard core:

- **Settings** (`settings.dfy`): the preference store and its typed getters
  and defaults, and the manual ignore list (comma- or newline-separated,
  matched without regard to case). It also covers the silence and
  temporary-ignore deadlines, and the identity hash: the first 8 bytes of
  SHA-256 over UTF-8, written as 16 lowercase hex digits.
- **Alert** (`alert.dfy`): the ordered suppression chain of `maybeAlert`
  and the per-identity cooldown table. A lemma over whole call traces shows
  that two alerts for one identity are at least the cooldown apart.
- **Logger** (`logger.dfy`): the day-file name and the seven-field CSV row.
  Each entry first deletes the files older than the retention window. It then
  appends one row, with the header only when the day file is new.
- **DroneUtils** (`drone_utils.dfy`): the order in which the primary
  identity is chosen. Identification 1 comes first, then identification 2,
  then the connection's MAC address, then the raw MAC number.
- **Repository** (`repository.dfy`): the Idle/Active scanning lifecycle and
  the requests it makes of the three detection sources and the location
  client. Each report goes to one alert evaluation and one log entry. The
  module also models the altitude difference and the status summary line.
- **Radar** (`radar.dfy`): the range clamp of `updateData`, and the filter
  and normalisation that `onDraw` applies to place each aircraft.
- **Text** (`text.dfy`): the Java library behaviour these files depend on.
  This is `String.trim`, `String.split` on a character class,
  `equalsIgnoreCase`, `Integer.parseInt`, `String.valueOf(long)` and
  `%.Nf` formatting.
- **Telemetry** (`telemetry.dfy`): the parts of the aircraft snapshot that
  the core reads.

Objects whose fields the source updates in place are classes with the same
fields: `Settings` over its preference map, `AlertManager` over
`lastAlertById`, `Logger` over its log directory, `Repository` over its
scanner handles and last receiver location, and `RadarView`. Every method is
proved against a pure function, and the properties are lemmas about those
functions.

Several inputs are parameters:

- The wall clock is a `now` argument in milliseconds, and the day's date
  string is a `date` argument.
- The SHA-256 function is a `Digest` argument.
- The Android API level is `sdkInt`.
- Whether the location permission is granted is an argument.
- Whether `mkdirs`, `listFiles` and the append succeed is a `LogIo`
  argument.
- `Location.bearingTo` is a function argument.

Float and double values are modelled as mathematical reals.

## Model

| member | source | states |
|---|---|---|
| Text.Trim | Android/app/src/main/java/org/opendroneid/android/ridguard/RidGuardSettings.java:94 | The result is empty or starts and ends with a character above U+0020, and all its characters come from the input. |
| Text.TrimIsSliceBetweenBlanks | Android/app/src/main/java/org/opendroneid/android/ridguard/RidGuardSettings.java:94 | The trim is one contiguous slice of the input, and everything cut off on either side is at or below U+0020. So only blanks are removed, and nothing inside is changed. |
| Text.TrimOfTrimmed | Android/app/src/main/java/org/opendroneid/android/ridguard/RidGuardSettings.java:94 | Trimming a string that has no surrounding blanks gives that string back. |
| Text.Split | Android/app/src/main/java/org/opendroneid/android/ridguard/RidGuardSettings.java:91 | Splitting always gives at least one piece, and no piece contains a delimiter. |
| Text.SplitCharsFrom | Android/app/src/main/java/org/opendroneid/android/ridguard/RidGuardSettings.java:91 | Every piece is made of the input's characters. |
| Text.SplitJoin | Android/app/src/main/java/org/opendroneid/android/ridguard/RidGuardSettings.java:91 | Splitting pieces that were joined with a delimiter gives exactly those pieces back, so split and join round-trip. |
| Text.EqualsIgnoreCase | Android/app/src/main/java/org/opendroneid/android/ridguard/RidGuardSettings.java:107 | Equal strings always match. Two strings match exactly when they have the same length and each pair of characters is equal after ASCII lower-casing. A match means each pair is equal or differs only in ASCII case. |
| Text.EqualsIgnoreCaseIffLowered | Android/app/src/main/java/org/opendroneid/android/ridguard/RidGuardSettings.java:107 | Two strings match ignoring case exactly when their lower-cased forms are equal. |
| Text.CaseVariantsMatch | Android/app/src/main/java/org/opendroneid/android/ridguard/RidGuardSettings.java:107 | A string and its lower-cased form match in both argument orders. |
| Text.ParseInt | Android/app/src/main/java/org/opendroneid/android/ridguard/RidGuardSettings.java:136 | A successful parse gives a value in the 32-bit range, from text that starts with a digit or a sign. |
| Text.ParseIntToString | Android/app/src/main/java/org/opendroneid/android/ridguard/RidGuardSettings.java:136 | Every 32-bit int, written in decimal, parses back to itself. |
| Text.Fixed | Android/app/src/main/java/org/opendroneid/android/ridguard/RidGuardLogger.java:43-49 | `%.Nf` output is non-empty and made only of digits, '-' and '.'. It never contains a comma. |
| Settings.IntPref | Android/app/src/main/java/org/opendroneid/android/ridguard/RidGuardSettings.java:132-141 | The corrected int preference agrees with the code as written whenever the code as written returns a value. |
| Settings.IntPrefAsWritten | Android/app/src/main/java/org/opendroneid/android/ridguard/RidGuardSettings.java:132-141 | As written, the read throws ClassCastException exactly when the key is present and does not hold a String that parses as an int. A missing key reads as the default. |
| Settings.IntPrefFallsBack | Android/app/src/main/java/org/opendroneid/android/ridguard/RidGuardSettings.java:132-141 | A stored value that is neither an int nor a decimal String reads as the default in the corrected getter. As written, such a String throws instead. |
| Settings.IntPrefThrowsOnStoredInt | Android/app/src/main/java/org/opendroneid/android/ridguard/RidGuardSettings.java:132-141 | As written, a stored Integer and a stored non-numeric String both throw ClassCastException. The corrected reading gives 300 and the default. |
| Settings.IntPrefReadsDecimalString | Android/app/src/main/java/org/opendroneid/android/ridguard/RidGuardSettings.java:134-136 | A setting stored as the decimal text of an int reads back as that int, both as written and corrected. |
| Settings.IntPrefReadsStoredInt | Android/app/src/main/java/org/opendroneid/android/ridguard/RidGuardSettings.java:140 | In the corrected getter, a stored int reads back as itself and a missing key reads as the default. As written, a stored int throws instead (see Findings). |
| Settings.DefaultsOfEmptyStore | Android/app/src/main/java/org/opendroneid/android/ridguard/RidGuardSettings.java:25-29 | On an empty store every getter returns its documented default. These are radius 200, cooldown 30 s, retention 48 h, altitude window -50..150 and switched off, map off, silence-until 0, and an empty ignore list. |
| Settings.RadiusMeters | Android/app/src/main/java/org/opendroneid/android/ridguard/RidGuardSettings.java:49-51 | A missing key reads as 200 m. A stored int is returned as it is. |
| Settings.AltitudeWindowEnabled | Android/app/src/main/java/org/opendroneid/android/ridguard/RidGuardSettings.java:53-55 | The window is on exactly when the key holds the boolean true. |
| Settings.AltitudeMinMeters | Android/app/src/main/java/org/opendroneid/android/ridguard/RidGuardSettings.java:57-59 | A missing key reads as -50 m. A stored int is returned as it is. |
| Settings.AltitudeMaxMeters | Android/app/src/main/java/org/opendroneid/android/ridguard/RidGuardSettings.java:61-63 | A missing key reads as 150 m. A stored int is returned as it is. |
| Settings.CooldownSeconds | Android/app/src/main/java/org/opendroneid/android/ridguard/RidGuardSettings.java:65-67 | A missing key reads as 30 s. A stored int is returned as it is. |
| Settings.LogRetentionHours | Android/app/src/main/java/org/opendroneid/android/ridguard/RidGuardSettings.java:69-71 | A missing key reads as 48 h. A stored int is returned as it is. |
| Settings.MapEnabled | Android/app/src/main/java/org/opendroneid/android/ridguard/RidGuardSettings.java:73-75 | The map is on exactly when the key holds the boolean true. |
| Settings.SilenceUntil | Android/app/src/main/java/org/opendroneid/android/ridguard/RidGuardSettings.java:77-79 | A missing key reads as 0. A stored long is returned as it is. |
| Settings.IgnoreIdsRaw | Android/app/src/main/java/org/opendroneid/android/ridguard/RidGuardSettings.java:87 | A stored String is returned as it is. A non-empty result is always the stored String. |
| Settings.IgnoreEntries | Android/app/src/main/java/org/opendroneid/android/ridguard/RidGuardSettings.java:86-100 | An empty raw value gives no entries, and no entry is empty. |
| Settings.IgnoreEntriesWellFormed | Android/app/src/main/java/org/opendroneid/android/ridguard/RidGuardSettings.java:86-100 | An empty raw value gives no entries. Every entry is non-empty, has no surrounding blanks and contains no delimiter. |
| Settings.IgnoreEntriesOfJoin | Android/app/src/main/java/org/opendroneid/android/ridguard/RidGuardSettings.java:86-100 | Joining well-formed ids with commas and parsing them back gives exactly the set of those ids. |
| Settings.Hex | Android/app/src/main/java/org/opendroneid/android/ridguard/RidGuardSettings.java:151-153 | `%02x` of n bytes is 2n characters, all lowercase hex digits. |
| Settings.UnhexHex | Android/app/src/main/java/org/opendroneid/android/ridguard/RidGuardSettings.java:151-153 | Hex decoding inverts the `%02x` encoding, so no bytes are lost. |
| Settings.CopyOf8 | Android/app/src/main/java/org/opendroneid/android/ridguard/RidGuardSettings.java:151 | `Arrays.copyOf(h, 8)` has exactly 8 bytes: h's own bytes first, then zero padding. |
| Settings.HashedIdShape | Android/app/src/main/java/org/opendroneid/android/ridguard/RidGuardSettings.java:143-158 | A present id hashes to 16 lowercase hex characters. They decode to the first 8 digest bytes, zero-padded. |
| Settings.HashedId | Android/app/src/main/java/org/opendroneid/android/ridguard/RidGuardSettings.java:143-158 | The hash is "" exactly for a null id, and 16 characters otherwise. |
| Settings.HashId | Android/app/src/main/java/org/opendroneid/android/ridguard/RidGuardSettings.java:143-154 | The builder loop yields the hash function's value. That value is "" for a null id. |
| Settings.SilenceWindow | Android/app/src/main/java/org/opendroneid/android/ridguard/RidGuardSettings.java:81-84 | After silencing for m minutes at time now, an alert at time t is silenced exactly when t < now + m·60000. |
| Settings.TemporaryIgnoreWindow | Android/app/src/main/java/org/opendroneid/android/ridguard/RidGuardSettings.java:114-130 | After ignoring an id for m minutes, it is ignored exactly when t < now + m·60000. An id with a different hash is unaffected. |
| Settings.TemporarilyIgnored | Android/app/src/main/java/org/opendroneid/android/ridguard/RidGuardSettings.java:123-130 | Only a non-null id can be ignored. At a non-negative time it is ignored only when its expiry key holds a long later than now. Conversely, a long stored under the id's key that is later than now always ignores it, in any store. |
| Settings.ManuallyIgnored | Android/app/src/main/java/org/opendroneid/android/ridguard/RidGuardSettings.java:102-112 | A match needs a non-null id and a non-empty ignore list. An id equal to an entry always matches. |
| Settings.ManuallyIgnoredIffCaseVariant | Android/app/src/main/java/org/opendroneid/android/ridguard/RidGuardSettings.java:102-112 | An id is ignored exactly when some entry of the stored list equals it after ASCII lower-casing. So a case variant of an entry matches, and nothing else does. |
| Settings.IgnoreUntilKeyShape | Android/app/src/main/java/org/opendroneid/android/ridguard/RidGuardSettings.java:118 | The expiry key is the fixed prefix followed by the 16 lowercase hex characters of the hash, so it has that fixed length whatever the id. |
| Settings.Settings.constructor | Android/app/src/main/java/org/opendroneid/android/ridguard/RidGuardSettings.java:45-47 | A settings object reads the given store through the given digest. |
| Settings.Settings.SetSilenceForMinutes | Android/app/src/main/java/org/opendroneid/android/ridguard/RidGuardSettings.java:81-84 | Stores silence-until = now + minutes·60000 and changes no other key. |
| Settings.Settings.GetManualIgnoreIds | Android/app/src/main/java/org/opendroneid/android/ridguard/RidGuardSettings.java:86-100 | The loop collects exactly the trimmed, non-empty pieces of the raw list. |
| Settings.Settings.IsManuallyIgnored | Android/app/src/main/java/org/opendroneid/android/ridguard/RidGuardSettings.java:102-112 | The result is true exactly when the id is non-null and matches some entry without regard to case. |
| Settings.Settings.IgnoreTemporarily | Android/app/src/main/java/org/opendroneid/android/ridguard/RidGuardSettings.java:114-121 | A null id changes nothing. Otherwise only the id's expiry key changes, to now + minutes·60000. |
| DroneUtils.UsableId | Android/app/src/main/java/org/opendroneid/android/ridguard/RidGuardDroneUtils.java:20-27 | An identification is usable exactly when it is present and its UAS id is present and non-empty. |
| DroneUtils.PrimaryIdOfNothing | Android/app/src/main/java/org/opendroneid/android/ridguard/RidGuardDroneUtils.java:17-19 | A null aircraft has no primary id. |
| DroneUtils.Id1First | Android/app/src/main/java/org/opendroneid/android/ridguard/RidGuardDroneUtils.java:20-23 | A usable identification 1 wins, whatever the rest of the aircraft holds. |
| DroneUtils.Id2Second | Android/app/src/main/java/org/opendroneid/android/ridguard/RidGuardDroneUtils.java:24-27 | Without a usable identification 1, a usable identification 2 is chosen. |
| DroneUtils.ConnectionThird | Android/app/src/main/java/org/opendroneid/android/ridguard/RidGuardDroneUtils.java:28-31 | Without usable identifications, the connection's MAC address is chosen. That address may be null. |
| DroneUtils.RawMacLast | Android/app/src/main/java/org/opendroneid/android/ridguard/RidGuardDroneUtils.java:32 | With no identifications and no connection, the decimal text of the raw MAC is chosen. It is never empty. |
| DroneUtils.PrimaryIdAbsentOrEmpty | Android/app/src/main/java/org/opendroneid/android/ridguard/RidGuardDroneUtils.java:16-33 | The id is null only for a null aircraft or a null connection MAC. It is empty only when the connection's MAC is empty. |
| DroneUtils.PrimaryId | Android/app/src/main/java/org/opendroneid/android/ridguard/RidGuardDroneUtils.java:16-33 | For an aircraft, the id is one of the four candidates: a usable identification 1 or 2, the connection's MAC address, or the raw MAC in decimal. A null or empty id means no aircraft, or no usable identification and a connection. |
| Alert.Decide | Android/app/src/main/java/org/opendroneid/android/ridguard/RidGuardAlertManager.java:31-62 | A firing decision always has an aircraft and an id. |
| Alert.Record | Android/app/src/main/java/org/opendroneid/android/ridguard/RidGuardAlertManager.java:60 | On a fire, the id is added or moved to now. Otherwise the table is unchanged. Either way, no other id changes and no id is removed. |
| Alert.NullNeverFires | Android/app/src/main/java/org/opendroneid/android/ridguard/RidGuardAlertManager.java:33-38 | A null aircraft or id never fires and leaves the cooldown table unchanged. |
| Alert.SilenceBoundary | Android/app/src/main/java/org/opendroneid/android/ridguard/RidGuardAlertManager.java:39-41 | Silence suppresses exactly when now < silence-until. |
| Alert.IgnoredNeverFires | Android/app/src/main/java/org/opendroneid/android/ridguard/RidGuardAlertManager.java:42-44 | A manually or temporarily ignored id never fires. |
| Alert.RadiusBoundary | Android/app/src/main/java/org/opendroneid/android/ridguard/RidGuardAlertManager.java:45-47 | A distance at or below 0, or beyond the radius, never fires. A positive distance equal to the radius is not out of range. |
| Alert.AltitudeWindow | Android/app/src/main/java/org/opendroneid/android/ridguard/RidGuardAlertManager.java:48-54 | With the window on and the difference known, only min <= diff <= max passes, with both ends included. Otherwise altitude never suppresses. |
| Alert.CooldownBoundary | Android/app/src/main/java/org/opendroneid/android/ridguard/RidGuardAlertManager.java:55-60 | The table only adds suppression. After an alert at t, the same call fires exactly when now − t >= cooldown·1000. |
| Alert.SilenceBeforeRadius | Android/app/src/main/java/org/opendroneid/android/ridguard/RidGuardAlertManager.java:39-47 | The first matching rule is reported: silence wins over an out-of-range distance. |
| Alert.FiresExactlyWhenAllPass | Android/app/src/main/java/org/opendroneid/android/ridguard/RidGuardAlertManager.java:31-62 | The decision fires if and only if every check passes: aircraft and id present, not silenced, not ignored manually or temporarily, distance in (0, radius], altitude inside the window when it applies, and cooldown elapsed. |
| Alert.RememberedSinceFiring | Android/app/src/main/java/org/opendroneid/android/ridguard/RidGuardAlertManager.java:56-60 | In a sequence of calls whose times never decrease, once an id fires, every later table holds it with a time no earlier than that firing. |
| Alert.AlertsAreSpaced | Android/app/src/main/java/org/opendroneid/android/ridguard/RidGuardAlertManager.java:55-60 | In a time-ordered trace, two alerts for the same id are at least cooldown·1000 ms apart. |
| Alert.AlertManager.constructor | Android/app/src/main/java/org/opendroneid/android/ridguard/RidGuardAlertManager.java:24-29 | A new manager has an empty cooldown table. |
| Alert.AlertManager.MaybeAlert | Android/app/src/main/java/org/opendroneid/android/ridguard/RidGuardAlertManager.java:31-62 | Fires exactly when the decision chain says Fire. The table changes only then, to id := now. |
| Logger.FileNameInjective | Android/app/src/main/java/org/opendroneid/android/ridguard/RidGuardLogger.java:55-58 | Different dates get different day files. |
| Logger.FileName | Android/app/src/main/java/org/opendroneid/android/ridguard/RidGuardLogger.java:55-58 | The day file is "ridguard_", then the date, then ".csv". |
| Logger.Row | Android/app/src/main/java/org/opendroneid/android/ridguard/RidGuardLogger.java:43-50 | A row starts with the time, a comma, the hashed id and a comma. |
| Logger.RowHasSevenFields | Android/app/src/main/java/org/opendroneid/android/ridguard/RidGuardLogger.java:43-50 | A row read back on ',' has exactly its seven fields. The altitude, speed and heading fields are empty exactly when the value is null. |
| Logger.FiftyMetresRendersAsFiftyPointZero | Android/app/src/main/java/org/opendroneid/android/ridguard/RidGuardLogger.java:46 | A 50 m distance is logged as "50.0". |
| Logger.RetainedExactly | Android/app/src/main/java/org/opendroneid/android/ridguard/RidGuardLogger.java:60-73 | Cleanup keeps a file exactly when its age is at most the retention window. A kept file is untouched. |
| Logger.Retained | Android/app/src/main/java/org/opendroneid/android/ridguard/RidGuardLogger.java:60-73 | Cleanup only removes files, and leaves every kept file unchanged. |
| Logger.Appended | Android/app/src/main/java/org/opendroneid/android/ridguard/RidGuardLogger.java:36-50 | The day file ends with the new row and is stamped now. A new file holds exactly the header and the row. An existing file keeps its lines and grows by one. No other file changes. |
| Logger.LogStep | Android/app/src/main/java/org/opendroneid/android/ridguard/RidGuardLogger.java:30-53 | A successful write leaves the day file present. Every other file in the result was there before and is unchanged. |
| Logger.OneRowPerEntry | Android/app/src/main/java/org/opendroneid/android/ridguard/RidGuardLogger.java:36-50 | One entry appends exactly one row to the day file, with the header first only when that file is new. Every other file is as cleanup left it. |
| Logger.Logger.constructor | Android/app/src/main/java/org/opendroneid/android/ridguard/RidGuardLogger.java:25-28 | A logger starts over the given directory state. |
| Logger.Logger.CleanupOldLogs | Android/app/src/main/java/org/opendroneid/android/ridguard/RidGuardLogger.java:60-73 | The deletion loop leaves exactly the retained files. A failed listing leaves everything. |
| Logger.Logger.LogEntry | Android/app/src/main/java/org/opendroneid/android/ridguard/RidGuardLogger.java:30-53 | A missing directory that cannot be created changes nothing. Otherwise the call does cleanup, then the append, and keeps "a missing directory holds no files". |
| Repository.AltitudeDiffCases | Android/app/src/main/java/org/opendroneid/android/ridguard/RidGuardRepository.java:156-168 | With no location or no receiver the difference is null. Otherwise it comes from the geodetic altitude, else the pressure altitude, else it is null. |
| Repository.AltitudeDiff | Android/app/src/main/java/org/opendroneid/android/ridguard/RidGuardRepository.java:156-168 | A known difference needs both the aircraft location and the receiver location. Added back to the receiver altitude, it gives the geodetic altitude when that is known, and otherwise the pressure altitude. The altitude it uses is never the unknown marker -1000. |
| Repository.ReportLogsOnce | Android/app/src/main/java/org/opendroneid/android/ridguard/RidGuardRepository.java:137-149 | When the log directory exists or is created, and the append succeeds, a report adds exactly one row to the day file, carrying the report's hashed id and fields. A report without a location has distance 0 and never fires. |
| Repository.ReportEffect | Android/app/src/main/java/org/opendroneid/android/ridguard/RidGuardRepository.java:137-149 | A fired report has a location and a primary id, and the cooldown table records it at now. Otherwise the table is unchanged. The log directory exists afterwards exactly when it did or could be created. |
| Repository.Fields | Android/app/src/main/java/org/opendroneid/android/ridguard/RidGuardRepository.java:139-146 | The id is the primary id. Without a location the distance is 0 and the altitude, speed and heading are null. With one, the distance, horizontal speed and heading are the location's. The altitude difference is always AltitudeDiff of the location and the receiver. Last-seen is the connection's last-seen time, or 0 without a connection. |
| Repository.FiftyMetresFires | Android/app/src/main/java/org/opendroneid/android/ridguard/RidGuardRepository.java:137-149 | With default settings, an identified aircraft 50 m away fires, is remembered, and is logged with distance "50.0". |
| Repository.DefaultsFire | Android/app/src/main/java/org/opendroneid/android/ridguard/RidGuardAlertManager.java:31-62 | With default settings and an empty table, any identified aircraft within 200 m fires. |
| Repository.Start | Android/app/src/main/java/org/opendroneid/android/ridguard/RidGuardRepository.java:96-114 | A start leaves the repository Active. From Idle it creates all three scanner handles and appends exactly the start requests after the earlier ones. A location callback stays registered. |
| Repository.StartRequestsGated | Android/app/src/main/java/org/opendroneid/android/ridguard/RidGuardRepository.java:96-114 | A start always starts the Bluetooth scan. It starts the NAN scan exactly from API 26, the beacon timer exactly from API 23, and location updates exactly with the permission. It requests nothing else. |
| Repository.Stop | Android/app/src/main/java/org/opendroneid/android/ridguard/RidGuardRepository.java:116-134 | A stop leaves the repository Idle, keeps earlier requests, and leaves the source handles as they were. |
| Repository.StartStopIdempotent | Android/app/src/main/java/org/opendroneid/android/ridguard/RidGuardRepository.java:96-134 | Starting twice is starting once. Stopping twice is stopping once. |
| Repository.StopUndoesStart | Android/app/src/main/java/org/opendroneid/android/ridguard/RidGuardRepository.java:96-134 | Start from Idle requests every source, gated by API level, before reporting Active. The following stop stops exactly the sources that start started and removes the location callback. |
| Repository.StatusSummaryInjective | Android/app/src/main/java/org/opendroneid/android/ridguard/RidGuardRepository.java:198-200 | The summary line tells the three on/off flags apart. |
| Repository.Repository.BuildStatusSummary | Android/app/src/main/java/org/opendroneid/android/ridguard/RidGuardRepository.java:191-201 | Each of the three flags reads "on" exactly when its condition holds. BLE needs the scanner and an enabled adapter. Wi-Fi needs Wi-Fi enabled. NAN needs API level 26 or more and a device with Wi-Fi Aware. |
| Repository.Repository.constructor | Android/app/src/main/java/org/opendroneid/android/ridguard/RidGuardRepository.java:56-73 | A new repository is Idle, with no scanners, no receiver location, last-scan time 0, and one shared settings object. |
| Repository.Repository.StartScanning | Android/app/src/main/java/org/opendroneid/android/ridguard/RidGuardRepository.java:96-114 | The new lifecycle state is the start transition of the old one. |
| Repository.Repository.StopScanning | Android/app/src/main/java/org/opendroneid/android/ridguard/RidGuardRepository.java:116-134 | The new lifecycle state is the stop transition of the old one. |
| Repository.Repository.OnLocationResult | Android/app/src/main/java/org/opendroneid/android/ridguard/RidGuardRepository.java:178-187 | A null result is ignored. Otherwise its last location, which may be null, becomes the receiver location. |
| Repository.Repository.OnAircraftUpdated | Android/app/src/main/java/org/opendroneid/android/ridguard/RidGuardRepository.java:137-149 | Records the scan time. Runs one alert evaluation and one log entry on the report's fields, as the report-effect function says. |
| Repository.Repository.OnNewAircraft | Android/app/src/main/java/org/opendroneid/android/ridguard/RidGuardRepository.java:152-154 | A first sighting has exactly the effect of an update. |
| Radar.Visible | Android/app/src/main/java/org/opendroneid/android/ridguard/RidGuardRadarView.java:63-70 | An aircraft without a location, or at a distance of 0 or less, is skipped. |
| Radar.VisibleCountAtMost | Android/app/src/main/java/org/opendroneid/android/ridguard/RidGuardRadarView.java:63-85 | There are never more dots than aircraft, and there are as many only when every aircraft is visible. |
| Radar.Normalized | Android/app/src/main/java/org/opendroneid/android/ridguard/RidGuardRadarView.java:72 | The normalised radius lies in (0, 1]. It is exactly 1 at or beyond the range and proportional to the distance below it. |
| Radar.BeyondRangeCoincide | Android/app/src/main/java/org/opendroneid/android/ridguard/RidGuardRadarView.java:72 | Any two aircraft at or beyond the range, at 3× or at 1.01× say, sit together on the outer ring. |
| Radar.NormalizedMonotone | Android/app/src/main/java/org/opendroneid/android/ridguard/RidGuardRadarView.java:72 | A nearer aircraft is never drawn farther out. |
| Radar.Radius | Android/app/src/main/java/org/opendroneid/android/ridguard/RidGuardRadarView.java:54-56 | The outer ring fits inside the view. |
| Radar.DotFor | Android/app/src/main/java/org/opendroneid/android/ridguard/RidGuardRadarView.java:72-83 | A dot's offset lies within the outer ring. Its bearing is 0 without a receiver location and bearingTo otherwise. |
| Radar.Project | Android/app/src/main/java/org/opendroneid/android/ridguard/RidGuardRadarView.java:63-85 | There is at most one dot per aircraft. |
| Radar.ProjectBounds | Android/app/src/main/java/org/opendroneid/android/ridguard/RidGuardRadarView.java:63-85 | Exactly one dot is drawn per aircraft with a location at a positive distance. All dots lie inside the outer ring. |
| Radar.RadarView.constructor | Android/app/src/main/java/org/opendroneid/android/ridguard/RidGuardRadarView.java:29-31 | The radar starts with no aircraft and the default 200 m range. |
| Radar.RadarView.UpdateData | Android/app/src/main/java/org/opendroneid/android/ridguard/RidGuardRadarView.java:44-49 | A null list is stored as empty. The stored range is max(50, given), so it is always at least 50. |
| Radar.RadarView.OnDraw | Android/app/src/main/java/org/opendroneid/android/ridguard/RidGuardRadarView.java:52-86 | Draws the three rings, then one dot per visible aircraft in list order, all within the outer ring. |

## Findings

| source | as written | input that shows it | evidently intended | confidence | as-written member | corrected member |
|---|---|---|---|---|---|---|
| Android/app/src/main/java/org/opendroneid/android/ridguard/RidGuardSettings.java:132-141 | `getIntPref` catches only NumberFormatException. `getString` on an Integer value throws ClassCastException, and so does `getInt` on a String value that failed to parse. | the key holds Integer 300, or String "abc" | read 300 in the first case and fall back to the default in the second | not executed | Settings.IntPrefThrowsOnStoredInt | Settings.IntPref |

The rest of the model reads every integer setting through the corrected
`Settings.IntPref`. `Settings.IntPrefAsWritten` keeps the code's own
behaviour for comparison.

## Left out

- `triggerAlert` (vibration and tone) is not modelled. A fired alert is the `true` that `MaybeAlert` returns.
- The scanners, the location client, `Build.VERSION`, the Wi-Fi manager and the package manager are platform APIs. They are replaced by parameters and by the recorded `ScanAction` requests.
- `getInstance` (a synchronized singleton), `LiveData.postValue` and `synchronized` on `logEntry` are about concurrency, which is not modelled. A posted value is taken as set at once.
- Settings.HashedId: SHA-256 itself is the `Digest` parameter. The `NoSuchAlgorithmException` fallback to `Integer.toHexString(id.hashCode())` is not modelled, because SHA-256 is always present on Android.
- Settings.GetLong: reading a key that holds a value of the wrong type reads as the default. Android would throw ClassCastException, so the same applies to `GetBool` and `GetString`.
- Text.EqualsIgnoreCase: folds ASCII letters only. Java also folds other Unicode letters.
- Text.ParseInt: accepts ASCII digits only. `Integer.parseInt` also accepts other Unicode decimal digits.
- Text.Fixed: rounds the exact real half up. Java formats the binary float or double value, so results can differ in the last digit for values that are not exact in binary.
- Radar.DotFor: keeps the dot in polar form. The cosine and sine transform to screen coordinates, and `Location.bearingTo`, are floating-point trigonometry and are left out. Ring paint, colours and the centre marker are also left out.
- The several `System.currentTimeMillis()` reads within one call are one `now` value. The date string of `getFileName` is a parameter.
- Logger.Logger.LogEntry: a failed `delete` and a write that fails part-way are not modelled. A write either appends the whole row, plus the header for a new file, or does nothing. The file's modified time is `now` after an append.
- Longs are unbounded integers: 64-bit overflow of `now + minutes·60000` or of the retention product is not modelled.
- Text.Split: keeps trailing empty pieces, which Java's `String.split` drops. The only caller, the ignore-list parser, discards empty pieces, so both give the same entries.
- Repository.Repository.StartScanning: a scanner or location request that throws is not modelled; every request is taken to return. `startScanning` and `stopScanning` (RidGuardRepository.java:96-134) have no try/catch, so a stop call that throws would skip the remaining stops and leave the repository Active.
- Alert.Decide: a NaN distance is not modelled, because reals have no NaN. In Java both `distanceMeters <= 0` and `distanceMeters > radius` are false for NaN, so a NaN distance passes the radius check.
- Radar.Visible, Radar.Normalized: a NaN distance is not modelled either. In `onDraw`, `distance <= 0` is false for NaN, so the aircraft is drawn, and `Math.min(NaN, 1f)` is NaN, so its dot has no defined position.
- `RidGuardService`, the activities and the map overlay are not part of this model.
