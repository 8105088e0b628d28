/**
 * Identity resolution for a tracked aircraft: the first non-empty UAS id of
 * identification 1, else of identification 2, else the connection's MAC
 * address, else the decimal rendering of the raw hardware address.
 */
module DroneUtils {
  import opened Text
  import opened Telemetry

  /** The UAS id string of an identification, when the message and its string are present and non-empty. */
  function UsableId(ident: Option<Identification>): (r: Option<string>)
    ensures r.Some? <==> ident.Some? && ident.value.uasId.Some? && ident.value.uasId.value != []
    ensures r.Some? ==> r.value == ident.value.uasId.value
  {
    if ident.Some? && ident.value.uasId.Some? && ident.value.uasId.value != [] then ident.value.uasId
    else None
  }

  /**
   * The chosen identity is one of the aircraft's own candidates, and a null
   * or empty identity can only come from a null aircraft or the connection
   * branch.
   */
  function PrimaryId(aircraft: Option<Aircraft>): (r: Option<string>)
    ensures aircraft.Some? ==>
      var a := aircraft.value;
      r == UsableId(a.identification1) || r == UsableId(a.identification2) ||
      (a.connection.Some? && r == a.connection.value.macAddress) || r == Some(IntToString(a.macAddress))
    ensures (r.None? || r == Some([])) ==>
      aircraft.None? ||
      (UsableId(aircraft.value.identification1).None? && UsableId(aircraft.value.identification2).None? &&
       aircraft.value.connection.Some?)
  {
    if aircraft.None? then None
    else
      var a := aircraft.value;
      if UsableId(a.identification1).Some? then UsableId(a.identification1)
      else if UsableId(a.identification2).Some? then UsableId(a.identification2)
      else if a.connection.Some? then a.connection.value.macAddress
      else Some(IntToString(a.macAddress))
  }

  /** No aircraft, no identity. */
  lemma PrimaryIdOfNothing()
    ensures PrimaryId(None) == None
  {
  }

  /** A non-empty id 1 wins whatever the other fields hold. */
  lemma Id1First(a: Aircraft, b: Aircraft)
    requires UsableId(a.identification1).Some?
    requires b.identification1 == a.identification1
    ensures PrimaryId(Some(a)) == PrimaryId(Some(b)) == a.identification1.value.uasId
  {
  }

  /** Without a usable id 1, a non-empty id 2 is chosen, never a MAC address. */
  lemma Id2Second(a: Aircraft)
    requires UsableId(a.identification1).None? && UsableId(a.identification2).Some?
    ensures PrimaryId(Some(a)) == a.identification2.value.uasId
  {
  }

  /** With neither id, a present connection supplies its (possibly null) MAC address. */
  lemma ConnectionThird(a: Aircraft)
    requires UsableId(a.identification1).None? && UsableId(a.identification2).None?
    requires a.connection.Some?
    ensures PrimaryId(Some(a)) == a.connection.value.macAddress
  {
  }

  /** Otherwise String.valueOf of the raw address: a decimal numeral, never null or empty. */
  lemma RawMacLast(a: Aircraft)
    requires UsableId(a.identification1).None? && UsableId(a.identification2).None?
    requires a.connection.None?
    ensures PrimaryId(Some(a)) == Some(IntToString(a.macAddress))
    ensures PrimaryId(Some(a)).value != []
  {
  }

  /**
   * The identity is null exactly when there is no aircraft or when the
   * connection branch hands back a null MAC address; it is empty only when
   * that branch hands back an empty one.
   */
  lemma PrimaryIdAbsentOrEmpty(aircraft: Option<Aircraft>)
    ensures PrimaryId(aircraft).None? <==>
      aircraft.None? ||
      (UsableId(aircraft.value.identification1).None? && UsableId(aircraft.value.identification2).None? &&
       aircraft.value.connection.Some? && aircraft.value.connection.value.macAddress.None?)
    ensures PrimaryId(aircraft) == Some([]) ==>
      aircraft.Some? && aircraft.value.connection.Some? && aircraft.value.connection.value.macAddress == Some([])
  {
  }
}
