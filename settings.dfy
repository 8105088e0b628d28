/**
 * RidGuardSettings: typed reads over the platform preference store, the
 * ignore-list parser, the silence and temporary-ignore expiry arithmetic, and
 * the identity anonymiser (first 8 bytes of SHA-256 over the UTF-8 encoding,
 * as lowercase hex).
 *
 * The store is a map from key to a typed value. The SHA-256 function of FIPS
 * 180-4 is not defined here: it is a parameter of type Digest, about which the
 * model knows only that it is a function. Arrays.copyOf pads a short digest
 * with zero bytes, so the hash has 16 characters whatever the digest returns.
 */
module Settings {
  import opened Text

  newtype byte = b: int | 0 <= b < 256

  /** A message digest such as SHA-256 (whose FIPS 180-4 output is 32 bytes). */
  type Digest = seq<byte> -> seq<byte>

  // ---------------------------------------------------------------------------
  // Keys and defaults

  const DefaultRadiusMeters: int := 200
  const DefaultCooldownSeconds: int := 30
  const DefaultLogRetentionHours: int := 48
  const DefaultAltitudeMin: int := -50
  const DefaultAltitudeMax: int := 150

  const RadiusKey: string := "ridguard_radius_m"
  const AltitudeEnabledKey: string := "ridguard_altitude_enabled"
  const AltitudeMinKey: string := "ridguard_altitude_min"
  const AltitudeMaxKey: string := "ridguard_altitude_max"
  const CooldownKey: string := "ridguard_cooldown_s"
  const SilenceUntilKey: string := "ridguard_silence_until"
  const IgnoreIdsKey: string := "ridguard_ignore_ids"
  const LogRetentionKey: string := "ridguard_log_retention_hours"
  const MapEnabledKey: string := "ridguard_map_enabled"
  const IgnoreUntilPrefix: string := "ridguard_ignore_until_"

  const MillisPerMinute: int := 60 * 1000

  // ---------------------------------------------------------------------------
  // The preference store and its typed reads

  datatype PrefValue = PString(s: string) | PInt(i: int) | PLong(l: int) | PBool(b: bool)

  type Prefs = map<string, PrefValue>

  function GetString(p: Prefs, key: string, default: string): string {
    if key in p && p[key].PString? then p[key].s else default
  }

  function GetLong(p: Prefs, key: string, default: int): int {
    if key in p && p[key].PLong? then p[key].l else default
  }

  function GetBool(p: Prefs, key: string, default: bool): bool {
    if key in p && p[key].PBool? then p[key].b else default
  }

  /** What the integer read delivers as written: a value, or an escaping ClassCastException. */
  datatype IntRead = Read(value: int) | ClassCastThrown

  /**
   * getIntPref as written. SharedPreferences.getString casts the stored value
   * to String and getInt casts it to Integer; only NumberFormatException is
   * caught. So a stored Integer fails in getString, and a stored unparseable
   * String fails in the fallback getInt.
   */
  function IntPrefAsWritten(p: Prefs, key: string, default: int): (r: IntRead)
    ensures r == ClassCastThrown <==> key in p && !(p[key].PString? && ParseInt(p[key].s).Some?)
    ensures key !in p ==> r == Read(default)
  {
    if key !in p then Read(default)
    else match p[key]
      case PString(s) => if ParseInt(s).Some? then Read(ParseInt(s).value) else ClassCastThrown
      case _ => ClassCastThrown
  }

  /**
   * getIntPref as intended: a stored string that parses wins, then a stored
   * int, then the default; no exception reaches the caller. Wherever the code
   * as written delivers a value, this delivers the same one.
   */
  function IntPref(p: Prefs, key: string, default: int): (r: int)
    ensures IntPrefAsWritten(p, key, default).Read? ==> r == IntPrefAsWritten(p, key, default).value
  {
    if key in p && p[key].PString? && ParseInt(p[key].s).Some? then ParseInt(p[key].s).value
    else if key in p && p[key].PInt? then p[key].i
    else default
  }

  /**
   * Whatever else the key holds (nothing, a string that does not parse, a
   * long or a boolean), the corrected read falls back to the default; no
   * parse failure reaches the caller.
   */
  lemma IntPrefFallsBack(p: Prefs, key: string, default: int)
    requires key in p ==> !p[key].PInt? && !(p[key].PString? && ParseInt(p[key].s).Some?)
    ensures IntPref(p, key, default) == default
    ensures key in p && p[key].PString? ==> IntPrefAsWritten(p, key, default) == ClassCastThrown
  {
  }

  /** The two inputs on which the code as written throws where a value was intended. */
  lemma IntPrefThrowsOnStoredInt(key: string)
    ensures IntPrefAsWritten(map[key := PInt(300)], key, 200) == ClassCastThrown
    ensures IntPref(map[key := PInt(300)], key, 200) == 300
    ensures IntPrefAsWritten(map[key := PString("abc")], key, 200) == ClassCastThrown
    ensures IntPref(map[key := PString("abc")], key, 200) == 200
  {
    assert ParseInt("abc") == None by {
      assert !IsDigit("abc"[0]);
    }
  }

  /** A setting written as the decimal string of an int reads back as that int. */
  lemma IntPrefReadsDecimalString(p: Prefs, key: string, default: int, n: int)
    requires MinInt <= n <= MaxInt
    ensures IntPref(p[key := PString(IntToString(n))], key, default) == n
    ensures IntPrefAsWritten(p[key := PString(IntToString(n))], key, default) == Read(n)
  {
    ParseIntToString(n);
  }

  /** A setting stored as an int reads back as that int; a missing one as the default. */
  lemma IntPrefReadsStoredInt(p: Prefs, key: string, default: int, n: int)
    ensures IntPref(p[key := PInt(n)], key, default) == n
    ensures key !in p ==> IntPref(p, key, default) == default
  {
  }

  // The typed getters: a stored value of the right type is returned, and a
  // missing key reads as the default.

  function RadiusMeters(p: Prefs): (r: int)
    ensures RadiusKey !in p ==> r == DefaultRadiusMeters
    ensures RadiusKey in p && p[RadiusKey].PInt? ==> r == p[RadiusKey].i
  {
    IntPref(p, RadiusKey, DefaultRadiusMeters)
  }

  function AltitudeWindowEnabled(p: Prefs): (r: bool)
    ensures r <==> AltitudeEnabledKey in p && p[AltitudeEnabledKey] == PBool(true)
  {
    GetBool(p, AltitudeEnabledKey, false)
  }

  function AltitudeMinMeters(p: Prefs): (r: int)
    ensures AltitudeMinKey !in p ==> r == DefaultAltitudeMin
    ensures AltitudeMinKey in p && p[AltitudeMinKey].PInt? ==> r == p[AltitudeMinKey].i
  {
    IntPref(p, AltitudeMinKey, DefaultAltitudeMin)
  }

  function AltitudeMaxMeters(p: Prefs): (r: int)
    ensures AltitudeMaxKey !in p ==> r == DefaultAltitudeMax
    ensures AltitudeMaxKey in p && p[AltitudeMaxKey].PInt? ==> r == p[AltitudeMaxKey].i
  {
    IntPref(p, AltitudeMaxKey, DefaultAltitudeMax)
  }

  function CooldownSeconds(p: Prefs): (r: int)
    ensures CooldownKey !in p ==> r == DefaultCooldownSeconds
    ensures CooldownKey in p && p[CooldownKey].PInt? ==> r == p[CooldownKey].i
  {
    IntPref(p, CooldownKey, DefaultCooldownSeconds)
  }

  function LogRetentionHours(p: Prefs): (r: int)
    ensures LogRetentionKey !in p ==> r == DefaultLogRetentionHours
    ensures LogRetentionKey in p && p[LogRetentionKey].PInt? ==> r == p[LogRetentionKey].i
  {
    IntPref(p, LogRetentionKey, DefaultLogRetentionHours)
  }

  function MapEnabled(p: Prefs): (r: bool)
    ensures r <==> MapEnabledKey in p && p[MapEnabledKey] == PBool(true)
  {
    GetBool(p, MapEnabledKey, false)
  }

  function SilenceUntil(p: Prefs): (r: int)
    ensures SilenceUntilKey !in p ==> r == 0
    ensures SilenceUntilKey in p && p[SilenceUntilKey].PLong? ==> r == p[SilenceUntilKey].l
  {
    GetLong(p, SilenceUntilKey, 0)
  }

  function IgnoreIdsRaw(p: Prefs): (r: string)
    ensures r != [] ==> IgnoreIdsKey in p && p[IgnoreIdsKey] == PString(r)
    ensures IgnoreIdsKey in p && p[IgnoreIdsKey].PString? ==> r == p[IgnoreIdsKey].s
  {
    GetString(p, IgnoreIdsKey, "")
  }

  /** An empty store reads as the documented defaults. */
  lemma DefaultsOfEmptyStore()
    ensures RadiusMeters(map[]) == 200 && CooldownSeconds(map[]) == 30
    ensures LogRetentionHours(map[]) == 48
    ensures AltitudeMinMeters(map[]) == -50 && AltitudeMaxMeters(map[]) == 150
    ensures !AltitudeWindowEnabled(map[]) && !MapEnabled(map[])
    ensures SilenceUntil(map[]) == 0 && IgnoreIdsRaw(map[]) == ""
  {
  }

  // ---------------------------------------------------------------------------
  // The manual ignore list

  const Delims: set<char> := {',', '\n'}

  /** An ignore-list entry: non-empty, no surrounding blanks, no delimiter inside. */
  ghost predicate WellFormedEntry(x: string) {
    x != [] && !IsTrimmable(x[0]) && !IsTrimmable(x[|x| - 1]) && Avoids(x, Delims)
  }

  /** The non-empty trimmed pieces of the raw string split on ',' or '\n'. */
  function IgnoreEntries(raw: string): (r: set<string>)
    ensures raw == [] ==> r == {}
    ensures forall x :: x in r ==> x != []
  {
    if raw == [] then {} else NonEmpty(Trims(Split(raw, Delims)))
  }

  /** Each piece trimmed, in order. */
  function Trims(pieces: seq<string>): (r: seq<string>)
    ensures |r| == |pieces|
  {
    seq(|pieces|, i requires 0 <= i < |pieces| => Trim(pieces[i]))
  }

  /** The strings of `ts` other than the empty one. */
  function NonEmpty(ts: seq<string>): set<string> {
    set x | x in ts && x != []
  }

  /** Scanning one more string adds it, unless it is empty. */
  lemma NonEmptySnoc(ts: seq<string>, x: string)
    ensures NonEmpty(ts + [x]) == NonEmpty(ts) + (if x != [] then {x} else {})
  {
    assert x in ts + [x];
    forall y | y in ts
      ensures y in ts + [x]
    {
      var i :| 0 <= i < |ts| && ts[i] == y;
      assert (ts + [x])[i] == y;
    }
  }

  lemma IgnoreEntriesWellFormed(raw: string)
    ensures raw == [] ==> IgnoreEntries(raw) == {}
    ensures forall x :: x in IgnoreEntries(raw) ==> WellFormedEntry(x)
  {
    var pieces := Split(raw, Delims);
    var trims := Trims(pieces);
    forall x | x in IgnoreEntries(raw)
      ensures WellFormedEntry(x)
    {
      var i :| 0 <= i < |trims| && trims[i] == x;
      assert Avoids(pieces[i], Delims);
      assert x == Trim(pieces[i]);
    }
  }

  /** A list of well-formed ids joined with ',' parses back to exactly those ids. */
  lemma IgnoreEntriesOfJoin(ids: seq<string>)
    requires |ids| >= 1
    requires forall i :: 0 <= i < |ids| ==> WellFormedEntry(ids[i])
    ensures IgnoreEntries(Join(ids, ',')) == set x | x in ids
  {
    var raw := Join(ids, ',');
    assert raw != [] by {
      JoinStartsWithFirst(ids, ',');
    }
    SplitJoin(ids, ',', Delims);
    TrimsOfTrimmed(ids);
    assert IgnoreEntries(raw) == NonEmpty(ids);
  }

  /** Pieces without surrounding blanks are their own trims. */
  lemma TrimsOfTrimmed(ids: seq<string>)
    requires forall i :: 0 <= i < |ids| ==> WellFormedEntry(ids[i])
    ensures Trims(ids) == ids
  {
    forall i | 0 <= i < |ids|
      ensures Trims(ids)[i] == ids[i]
    {
      TrimOfTrimmed(ids[i]);
    }
  }

  lemma {:induction false} JoinStartsWithFirst(parts: seq<string>, sep: char)
    requires |parts| >= 1
    ensures |Join(parts, sep)| >= |parts[0]|
  {
  }

  /** Membership is case-insensitive exact match against some entry. */
  function ManuallyIgnored(p: Prefs, id: Option<string>): (r: bool)
    ensures r ==> id.Some? && IgnoreIdsRaw(p) != [] && IgnoreEntries(IgnoreIdsRaw(p)) != {}
    ensures id.Some? && id.value in IgnoreEntries(IgnoreIdsRaw(p)) ==> r
  {
    id.Some? && exists x :: x in IgnoreEntries(IgnoreIdsRaw(p)) && EqualsIgnoreCase(x, id.value)
  }

  /**
   * An id is manually ignored exactly when some entry of the stored list
   * has the same lowered form, so "ABC-1" in the list ignores "abc-1" and
   * the reverse, and an id that is no case variant of an entry is never ignored.
   */
  lemma ManuallyIgnoredIffCaseVariant(p: Prefs, id: string)
    ensures ManuallyIgnored(p, Some(id)) <==>
      exists x :: x in IgnoreEntries(IgnoreIdsRaw(p)) && Lowered(x) == Lowered(id)
  {
  }

  // ---------------------------------------------------------------------------
  // The identity anonymiser

  /** UTF-8 encoding of a sequence of Unicode scalar values. */
  function Utf8(s: string): seq<byte> {
    if s == [] then [] else Utf8Char(s[0]) + Utf8(s[1..])
  }

  function Utf8Char(c: char): seq<byte> {
    var n := c as int;
    if n < 0x80 then [n as byte]
    else if n < 0x800 then [(0xC0 + n / 0x40) as byte, (0x80 + n % 0x40) as byte]
    else if n < 0x1_0000 then
      [(0xE0 + n / 0x1000) as byte, (0x80 + n / 0x40 % 0x40) as byte, (0x80 + n % 0x40) as byte]
    else
      [(0xF0 + n / 0x4_0000) as byte, (0x80 + n / 0x1000 % 0x40) as byte,
       (0x80 + n / 0x40 % 0x40) as byte, (0x80 + n % 0x40) as byte]
  }

  predicate IsLowerHex(c: char) {
    '0' <= c <= '9' || 'a' <= c <= 'f'
  }

  function HexDigit(d: int): (c: char)
    requires 0 <= d < 16
    ensures IsLowerHex(c)
  {
    if d < 10 then ('0' as int + d) as char else ('a' as int + d - 10) as char
  }

  function HexValue(c: char): int
    requires IsLowerHex(c)
  {
    if c <= '9' then c as int - '0' as int else c as int - 'a' as int + 10
  }

  /** "%02x" of one byte: two lowercase hex digits, high nibble first. */
  function ByteHex(b: byte): string {
    [HexDigit(b as int / 16), HexDigit(b as int % 16)]
  }

  /** The hex rendering of a byte sequence, two characters per byte. */
  function Hex(bytes: seq<byte>): (r: string)
    ensures |r| == 2 * |bytes|
    ensures forall i :: 0 <= i < |r| ==> IsLowerHex(r[i])
  {
    if bytes == [] then [] else Hex(bytes[..|bytes| - 1]) + ByteHex(bytes[|bytes| - 1])
  }

  /** Reads hex text back into bytes. */
  function Unhex(s: string): seq<byte>
    requires |s| % 2 == 0
    requires forall i :: 0 <= i < |s| ==> IsLowerHex(s[i])
  {
    if s == [] then []
    else Unhex(s[..|s| - 2]) + [(16 * HexValue(s[|s| - 2]) + HexValue(s[|s| - 1])) as byte]
  }

  lemma {:induction false} UnhexHex(bytes: seq<byte>)
    ensures Unhex(Hex(bytes)) == bytes
  {
    if bytes != [] {
      var init := bytes[..|bytes| - 1];
      var s := Hex(bytes);
      assert s[..|s| - 2] == Hex(init);
      UnhexHex(init);
      assert bytes == init + [bytes[|bytes| - 1]];
    }
  }

  /** Arrays.copyOf(h, 8): the first 8 bytes, padded with zeros when h is shorter. */
  function CopyOf8(h: seq<byte>): (r: seq<byte>)
    ensures |r| == 8
    ensures forall i :: 0 <= i < 8 ==> r[i] == if i < |h| then h[i] else 0
  {
    if |h| >= 8 then h[..8] else h + seq(8 - |h|, _ => 0 as byte)
  }

  /** hashId: "" for null, else hex of the first 8 digest bytes of the UTF-8 id. */
  function HashedId(sha256: Digest, id: Option<string>): (r: string)
    ensures id.None? <==> r == []
    ensures id.Some? ==> |r| == 16
  {
    if id.None? then "" else Hex(CopyOf8(sha256(Utf8(id.value))))
  }

  /**
   * The hash is 16 lowercase hex characters, two per byte, that decode to the
   * first 8 digest bytes (all of SHA-256's 32 bytes are more than 8).
   */
  lemma HashedIdShape(sha256: Digest, id: string)
    ensures |HashedId(sha256, Some(id))| == 16
    ensures forall i :: 0 <= i < 16 ==> IsLowerHex(HashedId(sha256, Some(id))[i])
    ensures Unhex(HashedId(sha256, Some(id))) == CopyOf8(sha256(Utf8(id)))
    ensures |sha256(Utf8(id))| >= 8 ==> Unhex(HashedId(sha256, Some(id))) == sha256(Utf8(id))[..8]
  {
    UnhexHex(CopyOf8(sha256(Utf8(id))));
  }

  method HashId(sha256: Digest, id: Option<string>) returns (r: string)
    ensures r == HashedId(sha256, id)
  {
    if id.None? {
      return "";
    }
    var hashed := sha256(Utf8(id.value));
    var first := CopyOf8(hashed);
    var builder := "";
    for i := 0 to 8
      invariant builder == Hex(first[..i])
    {
      assert first[..i + 1][..i] == first[..i];
      builder := builder + ByteHex(first[i]);
    }
    assert first[..8] == first;
    r := builder;
  }

  // ---------------------------------------------------------------------------
  // Silence and temporary ignore

  /** The temporary-ignore key of an identity: the prefix and the hash, never the raw id. */
  function IgnoreUntilKey(sha256: Digest, id: string): string {
    IgnoreUntilPrefix + HashedId(sha256, Some(id))
  }

  /** Ignored only for a present id whose expiry, stored under its hashed key, is still ahead. */
  function TemporarilyIgnored(p: Prefs, sha256: Digest, id: Option<string>, now: int): (r: bool)
    ensures r ==> id.Some?
    ensures r && now >= 0 ==> (id.Some? && IgnoreUntilKey(sha256, id.value) in p &&
      p[IgnoreUntilKey(sha256, id.value)].PLong? && p[IgnoreUntilKey(sha256, id.value)].l > now)
    ensures (id.Some? && IgnoreUntilKey(sha256, id.value) in p &&
      p[IgnoreUntilKey(sha256, id.value)].PLong? && p[IgnoreUntilKey(sha256, id.value)].l > now) ==> r
  {
    id.Some? && GetLong(p, IgnoreUntilKey(sha256, id.value), 0) > now
  }

  /** A silence set at `now` for m minutes holds exactly while less than m minutes have passed. */
  lemma SilenceWindow(p: Prefs, minutes: int, now: int, t: int)
    ensures var q := p[SilenceUntilKey := PLong(now + minutes * MillisPerMinute)];
      SilenceUntil(q) == now + minutes * 60000 &&
      (t < SilenceUntil(q) <==> t - now < minutes * 60000)
  {
  }

  /**
   * After ignoring an identity for m minutes at `now`, it is temporarily
   * ignored exactly until now + m minutes (so at `now` itself when m > 0),
   * and an identity with a different hash is affected in no way.
   */
  lemma TemporaryIgnoreWindow(p: Prefs, sha256: Digest, id: string, other: string, minutes: int, now: int, t: int)
    requires HashedId(sha256, Some(other)) != HashedId(sha256, Some(id))
    ensures var q := p[IgnoreUntilKey(sha256, id) := PLong(now + minutes * MillisPerMinute)];
      (TemporarilyIgnored(q, sha256, Some(id), t) <==> t < now + minutes * 60000) &&
      TemporarilyIgnored(q, sha256, Some(other), t) == TemporarilyIgnored(p, sha256, Some(other), t)
  {
    PrefixCancels(IgnoreUntilPrefix, HashedId(sha256, Some(id)), HashedId(sha256, Some(other)));
    assert IgnoreUntilKey(sha256, other) != IgnoreUntilKey(sha256, id);
  }

  lemma PrefixCancels(pre: string, a: string, b: string)
    ensures pre + a == pre + b ==> a == b
  {
    if pre + a == pre + b {
      assert a == (pre + a)[|pre|..];
      assert b == (pre + b)[|pre|..];
    }
  }

  /** The temporary-ignore key is the prefix followed by 16 lowercase hex characters. */
  lemma IgnoreUntilKeyShape(sha256: Digest, id: string)
    ensures |IgnoreUntilKey(sha256, id)| == |IgnoreUntilPrefix| + 16
    ensures IgnoreUntilKey(sha256, id)[..|IgnoreUntilPrefix|] == IgnoreUntilPrefix
    ensures forall i :: |IgnoreUntilPrefix| <= i < |IgnoreUntilPrefix| + 16 ==>
      IsLowerHex(IgnoreUntilKey(sha256, id)[i])
  {
    HashedIdShape(sha256, id);
  }

  // ---------------------------------------------------------------------------
  // The settings object: its store is updated in place by the two setters.

  class Settings {
    const sha256: Digest
    var prefs: Prefs

    constructor (sha256: Digest, prefs: Prefs)
      ensures this.sha256 == sha256 && this.prefs == prefs
    {
      this.sha256 := sha256;
      this.prefs := prefs;
    }

    method SetSilenceForMinutes(minutes: int, now: int)
      modifies this
      ensures prefs == old(prefs)[SilenceUntilKey := PLong(now + minutes * MillisPerMinute)]
    {
      var until := now + minutes * 60 * 1000;
      prefs := prefs[SilenceUntilKey := PLong(until)];
    }

    method GetManualIgnoreIds() returns (result: set<string>)
      ensures result == IgnoreEntries(IgnoreIdsRaw(prefs))
    {
      var raw := GetString(prefs, IgnoreIdsKey, "");
      if raw == [] {
        return {};
      }
      var entries := Split(raw, Delims);
      ghost var trims := Trims(entries);
      result := {};
      for i := 0 to |entries|
        invariant result == NonEmpty(trims[..i])
      {
        var trimmed := Trim(entries[i]);
        assert trimmed == trims[i];
        assert trims[..i + 1] == trims[..i] + [trimmed];
        NonEmptySnoc(trims[..i], trimmed);
        if trimmed != [] {
          result := result + {trimmed};
        }
      }
      assert trims[..|entries|] == trims;
    }

    method IsManuallyIgnored(id: Option<string>) returns (ignored: bool)
      ensures ignored == ManuallyIgnored(prefs, id)
    {
      if id.None? {
        return false;
      }
      var ids := GetManualIgnoreIds();
      var rest := ids;
      while rest != {}
        invariant rest <= ids
        invariant forall x :: x in ids && x !in rest ==> !EqualsIgnoreCase(x, id.value)
        decreases rest
      {
        var x :| x in rest;
        if EqualsIgnoreCase(x, id.value) {
          return true;
        }
        rest := rest - {x};
      }
      return false;
    }

    method IgnoreTemporarily(id: Option<string>, minutes: int, now: int)
      modifies this
      ensures id.None? ==> prefs == old(prefs)
      ensures id.Some? ==>
        prefs == old(prefs)[IgnoreUntilKey(sha256, id.value) := PLong(now + minutes * MillisPerMinute)]
    {
      if id.None? {
        return;
      }
      var hashed := HashId(sha256, id);
      var key := IgnoreUntilPrefix + hashed;
      assert key == IgnoreUntilKey(sha256, id.value);
      var until := now + minutes * 60 * 1000;
      assert until == now + minutes * MillisPerMinute;
      prefs := prefs[key := PLong(until)];
    }
  }
}
