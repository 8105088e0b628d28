/**
 * RidGuardLogger: the anonymised, retention-rotated audit log. The log
 * directory is a map from file name to (last-modified time, lines); the
 * clock, the date string and the outcome of each file-system call are
 * parameters.
 */
module Logger {
  import opened Text
  import opened Settings

  const Header: string := "timestamp,hashed_id,distance_m,alt_diff_m,speed_mps,heading_deg,last_seen_ms"
  const MillisPerHour: int := 60 * 60 * 1000

  datatype LogFile = LogFile(lastModified: int, lines: seq<string>)

  type Directory = map<string, LogFile>

  /** Whether mkdirs, listFiles and the append succeed on this call. */
  datatype LogIo = LogIo(mkdirsSucceeds: bool, listSucceeds: bool, writeSucceeds: bool)

  // ---------------------------------------------------------------------------
  // File names and rows

  /** The day file for a "yyyy-MM-dd" date. */
  function FileName(date: string): (r: string)
    ensures |r| == |date| + 13 && r[9..|r| - 4] == date
    ensures r[..9] == "ridguard_" && r[|r| - 4..] == ".csv"
  {
    "ridguard_" + date + ".csv"
  }

  /** Different dates never share a file. */
  lemma FileNameInjective(a: string, b: string)
    ensures FileName(a) == FileName(b) ==> a == b
  {
    if FileName(a) == FileName(b) {
      assert a == FileName(a)[9..|FileName(a)| - 4];
      assert b == FileName(b)[9..|FileName(b)| - 4];
    }
  }

  /** An absent value renders as an empty field. */
  function OptionalField(x: Option<real>, places: nat): string {
    if x.None? then "" else Fixed(x.value, places)
  }

  /** The seven fields of "%d,%s,%.1f,%s,%s,%s,%d". */
  function RowFields(now: int, hashedId: string, distance: real, altitudeDiff: Option<real>,
                     speed: Option<real>, heading: Option<real>, lastSeen: int): seq<string>
  {
    [IntToString(now), hashedId, Fixed(distance, 1), OptionalField(altitudeDiff, 1),
     OptionalField(speed, 1), OptionalField(heading, 0), IntToString(lastSeen)]
  }

  function Row(now: int, hashedId: string, distance: real, altitudeDiff: Option<real>,
               speed: Option<real>, heading: Option<real>, lastSeen: int): (r: string)
    ensures var head := IntToString(now) + [','] + hashedId + [','];
      |head| <= |r| && r[..|head|] == head
  {
    var fields := RowFields(now, hashedId, distance, altitudeDiff, speed, heading, lastSeen);
    assert Join(fields, ',') == fields[0] + [','] + (fields[1] + [','] + Join(fields[2..], ','));
    Join(RowFields(now, hashedId, distance, altitudeDiff, speed, heading, lastSeen), ',')
  }

  lemma NumeralAvoidsComma(s: string)
    requires Numeral(s)
    ensures Avoids(s, {','})
  {
    forall c | c in s
      ensures c != ','
    {
      var i :| 0 <= i < |s| && s[i] == c;
    }
  }

  lemma IntToStringAvoidsComma(n: int)
    ensures Avoids(IntToString(n), {','})
  {
    var s := IntToString(n);
    forall c | c in s
      ensures c != ','
    {
      var i :| 0 <= i < |s| && s[i] == c;
      if n < 0 && i > 0 {
        assert s[i] == NatToString(-n)[i - 1];
      }
    }
  }

  /**
   * A row read back on ',' has exactly seven fields, and the altitude,
   * speed and heading fields are empty exactly when the value is absent.
   */
  lemma RowHasSevenFields(now: int, hashedId: string, distance: real, altitudeDiff: Option<real>,
                          speed: Option<real>, heading: Option<real>, lastSeen: int)
    requires ',' !in hashedId
    ensures var fields := Split(Row(now, hashedId, distance, altitudeDiff, speed, heading, lastSeen), {','});
      |fields| == 7 &&
      fields == RowFields(now, hashedId, distance, altitudeDiff, speed, heading, lastSeen) &&
      (fields[3] == "" <==> altitudeDiff.None?) &&
      (fields[4] == "" <==> speed.None?) &&
      (fields[5] == "" <==> heading.None?)
  {
    var fields := RowFields(now, hashedId, distance, altitudeDiff, speed, heading, lastSeen);
    IntToStringAvoidsComma(now);
    IntToStringAvoidsComma(lastSeen);
    NumeralAvoidsComma(Fixed(distance, 1));
    if altitudeDiff.Some? { NumeralAvoidsComma(Fixed(altitudeDiff.value, 1)); }
    if speed.Some? { NumeralAvoidsComma(Fixed(speed.value, 1)); }
    if heading.Some? { NumeralAvoidsComma(Fixed(heading.value, 0)); }
    SplitJoin(fields, ',', {','});
  }

  /** The end-to-end example: a 50 m distance is logged as "50.0". */
  lemma FiftyMetresRendersAsFiftyPointZero()
    ensures Fixed(50.0, 1) == "50.0"
  {
    assert RoundHalfUp(50.0 * 10 as real) == 500;
    assert NatToString(50) == "50";
  }

  // ---------------------------------------------------------------------------
  // Retention and append, as functions of the directory

  function RetentionMillis(p: Prefs): int {
    LogRetentionHours(p) * MillisPerHour
  }

  predicate Expired(f: LogFile, now: int, retention: int) {
    now - f.lastModified > retention
  }

  /** The directory after cleanup: exactly the files not older than the window. */
  function Retained(files: Directory, now: int, retention: int): (r: Directory)
    ensures r.Keys <= files.Keys
    ensures forall n :: n in r ==> r[n] == files[n]
  {
    map n | n in files && !Expired(files[n], now, retention) :: files[n]
  }

  /** One row appended to the day file; a file that did not exist starts with the header. */
  function Appended(files: Directory, name: string, row: string, now: int): (r: Directory)
    ensures name in r && r[name].lastModified == now
    ensures var lines := r[name].lines;
      |lines| >= 1 && lines[|lines| - 1] == row &&
      (name !in files ==> lines == [Header, row]) &&
      (name in files ==> |lines| == |files[name].lines| + 1 && lines[..|files[name].lines|] == files[name].lines)
    ensures forall n :: n != name ==> (n in r <==> n in files) && (n in files ==> r[n] == files[n])
  {
    files[name := LogFile(now, (if name in files then files[name].lines else [Header]) + [row])]
  }

  /** What one logEntry does to an existing directory: cleanup first, then the append. */
  function LogStep(files: Directory, p: Prefs, io: LogIo, now: int, date: string, row: string): (r: Directory)
    ensures io.writeSucceeds ==> FileName(date) in r
    ensures forall n :: n in r && n != FileName(date) ==> n in files && r[n] == files[n]
  {
    var kept := if io.listSucceeds then Retained(files, now, RetentionMillis(p)) else files;
    if io.writeSucceeds then Appended(kept, FileName(date), row, now) else kept
  }

  /**
   * Cleanup deletes exactly the files older than the window: a file aged
   * exactly the window stays, and a kept file is untouched.
   */
  lemma RetainedExactly(files: Directory, now: int, retention: int, n: string)
    ensures n in Retained(files, now, retention) <==> n in files && now - files[n].lastModified <= retention
    ensures n in Retained(files, now, retention) ==> Retained(files, now, retention)[n] == files[n]
  {
  }

  /**
   * One call appends exactly one row to the day file, preceded by the header
   * exactly when that file did not survive cleanup; every other file is as
   * cleanup left it.
   */
  lemma OneRowPerEntry(files: Directory, p: Prefs, io: LogIo, now: int, date: string, row: string)
    requires io.writeSucceeds
    ensures var kept := if io.listSucceeds then Retained(files, now, RetentionMillis(p)) else files;
      var after := LogStep(files, p, io, now, date, row);
      var name := FileName(date);
      name in after &&
      after[name].lines == (if name in kept then kept[name].lines else [Header]) + [row] &&
      forall n :: n != name ==> (n in after <==> n in kept) && (n in kept ==> after[n] == kept[n])
  {
  }

  // ---------------------------------------------------------------------------
  // The logger object

  class Logger {
    const settings: Settings
    var dirExists: bool
    var files: Directory

    /** A missing directory holds no files. */
    ghost predicate Valid()
      reads this
    {
      !dirExists ==> files == map[]
    }

    constructor (settings: Settings, dirExists: bool, files: Directory)
      requires !dirExists ==> files == map[]
      ensures Valid()
      ensures this.settings == settings && this.dirExists == dirExists && this.files == files
    {
      this.settings := settings;
      this.dirExists := dirExists;
      this.files := files;
    }

    method CleanupOldLogs(now: int, listSucceeds: bool)
      modifies this
      ensures dirExists == old(dirExists)
      ensures files == if listSucceeds then Retained(old(files), now, RetentionMillis(settings.prefs)) else old(files)
    {
      if !listSucceeds {
        return;
      }
      var retention := LogRetentionHours(settings.prefs) * 60 * 60 * 1000;
      assert retention == RetentionMillis(settings.prefs);
      ghost var original := files;
      var pending := files.Keys;
      while pending != {}
        invariant pending <= original.Keys && dirExists == old(dirExists)
        invariant files == map n | n in original && (n in pending || !Expired(original[n], now, retention)) :: original[n]
        decreases pending
      {
        var f :| f in pending;
        if now - files[f].lastModified > retention {
          files := files - {f};
        }
        pending := pending - {f};
      }
    }

    method LogEntry(hashedId: string, distance: real, altitudeDiff: Option<real>, speed: Option<real>,
                    heading: Option<real>, lastSeen: int, now: int, date: string, io: LogIo)
      requires Valid()
      modifies this
      ensures Valid()
      ensures !old(dirExists) && !io.mkdirsSucceeds ==> !dirExists && files == old(files)
      ensures old(dirExists) || io.mkdirsSucceeds ==>
        dirExists &&
        files == LogStep(old(files), settings.prefs, io, now, date,
                         Row(now, hashedId, distance, altitudeDiff, speed, heading, lastSeen))
    {
      if !dirExists {
        if !io.mkdirsSucceeds {
          return;
        }
        dirExists := true;
      }
      CleanupOldLogs(now, io.listSucceeds);
      var name := FileName(date);
      var newFile := name !in files;
      if io.writeSucceeds {
        var row := Row(now, hashedId, distance, altitudeDiff, speed, heading, lastSeen);
        var lines := if newFile then [Header] else files[name].lines;
        files := files[name := LogFile(now, lines + [row])];
      }
    }
  }
}
