/** The 29-bit CAN extended identifier of the public protocol:
    destination in bits 28..19, source in bits 18..9, service id in bits 8..6
    and flags in bits 5..0, whose lowest bit is the error flag. Python's
    shifts and masks on non-negative integers are written as division and
    remainder by powers of two. */
module Identifier {
  import opened Common

  const MAX_ADDRESS: int := 0x3FF
  const MAX_SERVICE_ID: int := 0x7
  const IDENTIFIER_LIMIT: nat := 0x2000_0000

  const DESTINATION_UNIT: nat := 0x8_0000  // 1 << 19
  const SOURCE_UNIT: nat := 0x200          // 1 << 9
  const SERVICE_UNIT: nat := 0x40          // 1 << 6

  /** What the receive path extracts from an identifier. */
  datatype Parts = Parts(destination: nat, source: nat, serviceId: nat, flags: nat, error: nat)

  predicate ValidAddress(a: int)
  {
    0 <= a <= MAX_ADDRESS
  }

  predicate ValidServiceId(sid: int)
  {
    0 <= sid <= MAX_SERVICE_ID
  }

  /** The identifier the send path builds; `None` is the failed assertion
      raised for a service id or an address outside its bit field (the
      values are rejected, never wrapped). Flags are always zero. */
  function Build(destination: int, source: int, serviceId: int): (r: Option<nat>)
    ensures r.Some? <==> ValidServiceId(serviceId) && ValidAddress(destination) && ValidAddress(source)
    ensures r.Some? ==> r.value < IDENTIFIER_LIMIT && r.value % SERVICE_UNIT == 0
  {
    if ValidServiceId(serviceId) && ValidAddress(destination) && ValidAddress(source) then
      Some(destination * DESTINATION_UNIT + source * SOURCE_UNIT + serviceId * SERVICE_UNIT)
    else
      None
  }

  /** The receive path's view of an identifier: each field masked to its width. */
  function Parse(identifier: nat): (p: Parts)
    ensures ValidAddress(p.destination) && ValidAddress(p.source)
    ensures ValidServiceId(p.serviceId)
    ensures p.flags < SERVICE_UNIT && p.error <= 1
    ensures p.error == identifier % 2 && p.flags % 2 == p.error
  {
    var flags := identifier % 0x40;
    Parts((identifier / DESTINATION_UNIT) % 0x400,
          (identifier / SOURCE_UNIT) % 0x400,
          (identifier / SERVICE_UNIT) % 0x8,
          flags,
          flags % 2)
  }

  /** Parsing a built identifier gives back the three fields, with no flag
      and no error bit. */
  lemma ParseBuild(destination: int, source: int, serviceId: int)
    requires ValidServiceId(serviceId) && ValidAddress(destination) && ValidAddress(source)
    ensures Parse(Build(destination, source, serviceId).value)
         == Parts(destination, source, serviceId, 0, 0)
  {
    ParseBuildFlags(destination, source, serviceId, 0);
  }

  /** A built identifier with flags added parses back to the three fields,
      those flags, and the flags' lowest bit as the error flag. */
  lemma ParseBuildFlags(destination: int, source: int, serviceId: int, flags: nat)
    requires ValidServiceId(serviceId) && ValidAddress(destination) && ValidAddress(source)
    requires flags < SERVICE_UNIT
    ensures Parse(Build(destination, source, serviceId).value + flags)
         == Parts(destination, source, serviceId, flags, flags % 2)
  {
    var y := (destination * 0x400 + source) * 8 + serviceId;
    var id := Build(destination, source, serviceId).value;
    assert id == y * SERVICE_UNIT;
    ShiftedFields(destination, source, serviceId, flags);
  }

  /** The three fields, shifted up to the service id's position, with the
      flags below them. */
  lemma ShiftedFields(destination: int, source: int, serviceId: int, flags: nat)
    requires ValidServiceId(serviceId) && ValidAddress(destination) && ValidAddress(source)
    requires flags < SERVICE_UNIT
    ensures var y := (destination * 0x400 + source) * 8 + serviceId;
            Parse(y * SERVICE_UNIT + flags) == Parts(destination, source, serviceId, flags, flags % 2)
  {
    var x := destination * 0x400 + source;
    var y := x * 8 + serviceId;
    var id := y * SERVICE_UNIT + flags;
    assert id % 0x40 == flags;
    assert id / SERVICE_UNIT == y;
    assert id / SOURCE_UNIT == y / 8 == x;
    assert id / DESTINATION_UNIT == x / 0x400 == destination;
    assert y % 8 == serviceId;
    assert x % 0x400 == source;
  }

  /** Every 29-bit identifier is its parsed fields built again plus its flags:
      parsing loses nothing below bit 29. */
  lemma BuildParse(identifier: nat)
    requires identifier < IDENTIFIER_LIMIT
    ensures var p := Parse(identifier);
            Build(p.destination, p.source, p.serviceId) == Some(identifier - p.flags)
  {
    var p := Parse(identifier);
    var q6 := identifier / SERVICE_UNIT;
    var q9 := q6 / 8;
    assert identifier / SOURCE_UNIT == q9;
    assert identifier / DESTINATION_UNIT == q9 / 0x400;
  }
}
