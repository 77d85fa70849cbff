// Contents of a Galileo HAS message of type 1 (HAS SIS ICD 1.0, sections 5.1 and 5.2) and the
// store of masks that the receiver keeps per mask ID.
module HasMessage {
  import opened Arithmetic
  import opened HasBits

  const MASK_IDS := 32
  const GNSS_IDS := 16
  const HEADER_BITS := 32
  const MAX_TOH := 3599
  const GPS := 0
  const GALILEO := 2
  const WRONG_SYSTEM := 255

  // Field widths.
  const NSYS := 4
  const GNSS_ID := 4
  const SATELLITE_MASK := 40
  const SIGNAL_MASK := 16
  const NAV_MESSAGE := 3
  const MASK_RESERVED := 6
  const VALIDITY := 4
  const IOD_GPS := 8
  const IOD_GALILEO := 10
  const RADIAL := 13
  const IN_TRACK := 12
  const CROSS_TRACK := 12
  const MULTIPLIER := 2
  const CLOCK := 13
  const BIAS := 11
  const DISCONTINUITY := 2

  datatype Header = Header(
    toh: nat, maskFlag: bool, orbitFlag: bool, clockFlag: bool, subsetFlag: bool,
    codeFlag: bool, phaseFlag: bool, reserved: nat, maskId: nat, iodSet: nat)

  // One GNSS of a mask.
  datatype SystemMask = SystemMask(gnssId: nat, satellites: nat, signals: nat, cellFlag: bool, nav: nat)

  // Satellites by signals.
  type CellMask = seq<seq<bool>>

  datatype Orbit = Orbit(iod: nat, radial: int, inTrack: int, crossTrack: int)

  // A code bias, or a phase bias with its discontinuity indicator.
  datatype BiasCell = BiasCell(value: int, discontinuity: nat)

  const NO_BIAS := BiasCell(0, 0)

  // Galileo_HAS_data; a vector that was never filled is [].
  datatype HasData = HasData(
    header: Header,
    nsys: nat, systems: seq<SystemMask>, cells: seq<CellMask>,
    orbitValidity: nat, orbit: seq<Orbit>,
    clockValidity: nat, multipliers: seq<nat>, clock: seq<int>,
    codeValidity: nat, codeBias: seq<seq<BiasCell>>,
    phaseValidity: nat, phaseBias: seq<seq<BiasCell>>)

  function Blank(h: Header): (d: HasData) {
    HasData(h, 0, [], [], 0, [], 0, [], [], 0, [], 0, [])
  }

  // What the receiver remembers under one mask ID. `systems` has room for 16 GNSS.
  datatype MaskSlot = MaskSlot(nsat: nat, nsys: nat, systems: seq<SystemMask>, cells: seq<CellMask>)

  ghost predicate Rectangular(m: CellMask) {
    forall r :: 0 <= r < |m| ==> |m[r]| == |m[0]|
  }

  ghost predicate FitsSystem(s: SystemMask) {
    && s.gnssId < 16 && s.satellites < Pow2(40) && s.signals < Pow2(16) && s.nav < 8
  }

  ghost predicate ValidSlot(slot: MaskSlot) {
    && |slot.systems| == GNSS_IDS && slot.nsys < GNSS_IDS
    && (forall i :: 0 <= i < GNSS_IDS ==> FitsSystem(slot.systems[i]))
    && (forall i :: 0 <= i < |slot.cells| ==> Rectangular(slot.cells[i]))
  }

  function SatellitesOf(s: SystemMask): nat {
    PopCount(s.satellites)
  }

  // Nsat: satellites over all systems of a mask.
  function Satellites(systems: seq<SystemMask>): nat {
    if systems == [] then 0 else SatellitesOf(systems[0]) + Satellites(systems[1..])
  }

  // get_gnss_id: the system that owns the i-th satellite of a mask.
  function GnssIdOf(systems: seq<SystemMask>, i: nat): (id: nat) {
    if systems == [] then WRONG_SYSTEM
    else if i < SatellitesOf(systems[0]) then systems[0].gnssId
    else GnssIdOf(systems[1..], i - SatellitesOf(systems[0]))
  }

  predicate Known(id: nat) {
    id == GPS || id == GALILEO
  }

  // The first n satellites all belong to GPS or Galileo.
  predicate AllKnown(systems: seq<SystemMask>, n: nat) {
    forall i: nat :: i < n ==> Known(GnssIdOf(systems, i))
  }

  // get_gnss_id returns the owner of the i-th set satellite bit, and WRONG_SYSTEM past the last.
  lemma {:induction false} GnssIdOwner(systems: seq<SystemMask>, k: nat, j: nat)
    requires k < |systems| && j < SatellitesOf(systems[k])
    ensures GnssIdOf(systems, Satellites(systems[..k]) + j) == systems[k].gnssId
  {
    if k > 0 {
      assert systems[..k][1..] == systems[1..][..k - 1];
      GnssIdOwner(systems[1..], k - 1, j);
    }
  }

  lemma {:induction false} GnssIdPastEnd(systems: seq<SystemMask>, i: nat)
    ensures i >= Satellites(systems) ==> GnssIdOf(systems, i) == WRONG_SYSTEM
    ensures i < Satellites(systems) ==>
              exists k :: 0 <= k < |systems| && SatellitesOf(systems[k]) > 0
                && GnssIdOf(systems, i) == systems[k].gnssId
  {
    if systems != [] && i >= SatellitesOf(systems[0]) {
      GnssIdPastEnd(systems[1..], i - SatellitesOf(systems[0]));
      if i < Satellites(systems) {
        var k :| 0 <= k < |systems[1..]| && SatellitesOf(systems[1..][k]) > 0
                 && GnssIdOf(systems[1..], i - SatellitesOf(systems[0])) == systems[1..][k].gnssId;
        assert systems[k + 1] == systems[1..][k];
      }
    }
  }

  lemma {:induction false} SatellitesAppend(a: seq<SystemMask>, b: seq<SystemMask>)
    ensures Satellites(a + b) == Satellites(a) + Satellites(b)
  {
    if a == [] {
      assert a + b == b;
    } else {
      assert (a + b)[1..] == a[1..] + b;
      SatellitesAppend(a[1..], b);
    }
  }
}
