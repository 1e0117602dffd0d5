/** The zones of the memory bank: a request goes to a zone, falls back to the next
    ones, and is served by the first section that has room (mm/mm.c). */
module PageBank {
  import opened Bitops
  import opened PageAlloc

  const ZONES := 4
  const ZONE_SECTIONS := 4
  const ZONE_RES := 2
  const ZONE_USER := 3

  /** Section id of zone z is secs[4 * z + id], an unused one has no pages; free
      holds the zones' nr_free_pages. */
  datatype Bank = Bank(secs: seq<Section>, free: seq<int>)

  ghost predicate BankShaped(b: Bank) {
    && |b.secs| == ZONES * ZONE_SECTIONS && |b.free| == ZONES
    && forall j :: 0 <= j < |b.secs| ==> Shaped(b.secs[j])
  }

  // ---- the zone a flag asks for ------------------------------------------------------

  function TopBit(n: nat): nat
    requires n > 0
  {
    if n == 1 then 0 else 1 + TopBit(n / 2)
  }

  /** get_zone_id, where it returns at all: a flag without a zone bit keeps it
      shifting for ever. */
  function ZoneOf(flag: nat): nat
    requires flag % 256 > 0
  {
    TopBit(flag % 256)
  }

  function Pow2(n: nat): nat { if n == 0 then 1 else 2 * Pow2(n - 1) }

  /** The highest bit of the low byte of the flag is bit z. */
  predicate Asks(flag: nat, z: nat) { Pow2(z) <= flag % 256 < Pow2(z + 1) }

  lemma {:induction false} TopBitIs(n: nat)
    requires n > 0
    ensures Pow2(TopBit(n)) <= n < Pow2(TopBit(n) + 1)
  {
    if n > 1 { TopBitIs(n / 2); }
  }

  lemma {:induction false} Pow2Grows(i: nat, j: nat)
    requires i <= j
    ensures Pow2(i) <= Pow2(j)
  {
    if i < j { Pow2Grows(i, j - 1); }
  }

  /** The zone asked for is the highest bit set, and there is one such zone. */
  lemma ZoneIs(flag: nat, z: nat)
    requires flag % 256 > 0
    ensures ZoneOf(flag) == z <==> Asks(flag, z)
  {
    TopBitIs(flag % 256);
    var y := ZoneOf(flag);
    if y < z { Pow2Grows(y + 1, z); }
    if z < y { Pow2Grows(z + 1, y); }
  }

  /** The flags of the four zones: kernel 1, DMA 2, reserved 4, user 8, each with any bits
      below it. */
  lemma ZoneFlags(flag: nat)
    requires flag % 256 > 0
    ensures ZoneOf(flag) == 0 <==> flag % 256 == 1
    ensures ZoneOf(flag) == 1 <==> 2 <= flag % 256 < 4
    ensures ZoneOf(flag) == 2 <==> 4 <= flag % 256 < 8
    ensures ZoneOf(flag) == 3 <==> 8 <= flag % 256 < 16
  {
    ZoneIs(flag, 0);
    ZoneIs(flag, 1);
    ZoneIs(flag, 2);
    ZoneIs(flag, 3);
    assert Pow2(1) == 2 && Pow2(2) == 4 && Pow2(3) == 8 && Pow2(4) == 16;
  }

  /** A flag up to 15 is a user flag exactly if it asks for the user zone. */
  lemma UserZoneFlag(flag: nat)
    requires 0 < flag < 16
    ensures UserFlag(flag) <==> ZoneOf(flag) == ZONE_USER
  {
    ZoneFlags(flag);
  }

  // ---- a request ---------------------------------------------------------------------

  ghost predicate HasRoom(s: Section, count: nat) {
    s.bits != [] && s.free >= count && Place(s, count) >= 0
  }

  /** What the request is told is not 0, which it takes for failure: a request for an address
      (vp) must not be served from the start of a section at address 0, one that is not
      mapped. */
  ghost predicate Reported(s: Section, count: nat, vp: bool) {
    vp ==> s.virt > 0 || Place(s, count) > 0
  }

  /** The first section of zone z, from id on, that serves the request. */
  ghost function PickSection(b: Bank, z: nat, count: nat, id: nat): (r: nat)
    requires BankShaped(b) && z < ZONES && id <= ZONE_SECTIONS
    ensures id <= r <= ZONE_SECTIONS
    ensures r < ZONE_SECTIONS ==> HasRoom(b.secs[4 * z + r], count)
    decreases ZONE_SECTIONS - id
  {
    if id == ZONE_SECTIONS || HasRoom(b.secs[4 * z + id], count) then id else PickSection(b, z, count, id + 1)
  }

  /** No section before it has room. */
  lemma {:induction false} PickIsFirst(b: Bank, z: nat, count: nat, id: nat)
    requires BankShaped(b) && z < ZONES && id <= ZONE_SECTIONS
    ensures forall j :: 4 * z + id <= j < 4 * z + PickSection(b, z, count, id) ==> !HasRoom(b.secs[j], count)
    decreases ZONE_SECTIONS - id
  {
    hide HasRoom;
    if id < ZONE_SECTIONS && !HasRoom(b.secs[4 * z + id], count) { PickIsFirst(b, z, count, id + 1); }
  }

  ghost predicate ZoneServes(b: Bank, z: nat, count: nat)
    requires BankShaped(b) && z < ZONES
  {
    b.free[z] >= count && PickSection(b, z, count, 0) < ZONE_SECTIONS
  }

  /** How many more zones the fallback may try. */
  function Rank(z: nat): nat { if z == ZONE_USER then 3 else if z <= ZONE_RES then ZONE_RES - z else 0 }

  function NextZone(z: nat): nat { if z == ZONE_USER then 0 else z + 1 }

  /** The first zone, from z on, that serves the request. */
  ghost function PickZone(b: Bank, z: nat, count: nat): (r: nat)
    requires BankShaped(b) && z < ZONES
    ensures r <= ZONES && (r < ZONES ==> ZoneServes(b, r, count))
    decreases Rank(z)
  {
    if ZoneServes(b, z, count) then z
    else if z == ZONE_RES then ZONES
    else PickZone(b, NextZone(z), count)
  }

  lemma RoomFits(s: Section, count: nat)
    requires Shaped(s) && HasRoom(s, count)
    ensures Place(s, count) + count <= |s.bits| && count > 0 && RunAt(s.bits, false, Place(s, count), count)
  {
    hide Search;
    PlaceIs(s, count);
  }

  /** The section of zone z that serves the request. */
  ghost function Picked(b: Bank, z: nat, count: nat): (j: nat)
    requires BankShaped(b) && z < ZONES && ZoneServes(b, z, count)
    ensures j < |b.secs| && HasRoom(b.secs[j], count)
  {
    4 * z + PickSection(b, z, count, 0)
  }

  ghost predicate ZoneReports(b: Bank, z: nat, count: nat, vp: bool)
    requires BankShaped(b) && z < ZONES
  {
    ZoneServes(b, z, count) ==> Reported(b.secs[Picked(b, z, count)], count, vp)
  }

  /** __get_free_pages_from_zone, where it succeeds: the section gives the run and the
      zone is charged. */
  ghost function Served(b: Bank, z: nat, count: nat, flag: nat): (c: Bank)
    requires BankShaped(b) && z < ZONES && ZoneServes(b, z, count)
  {
    var j := Picked(b, z, count);
    RoomFits(b.secs[j], count);
    Bank(b.secs[j := Take(b.secs[j], Place(b.secs[j], count), count, flag)], b.free[z := b.free[z] - count])
  }

  /** __get_free_pages. */
  ghost function Obtain(b: Bank, count: nat, flag: nat): (c: Bank)
    requires BankShaped(b) && flag % 256 > 0
  {
    if ZoneOf(flag) >= ZONES || PickZone(b, ZoneOf(flag), count) == ZONES then b
    else Served(b, PickZone(b, ZoneOf(flag), count), count, flag)
  }

  /** _free_pages: the section the page is in, and the zone its flag names. */
  ghost function Restore(b: Bank, j: nat, k: nat): (c: Bank)
    requires BankShaped(b) && j < |b.secs| && k < |b.secs[j].pages|
    requires var p := b.secs[j].pages[k];
      p.header ==> k + p.count <= |b.secs[j].bits| && p.flag % 256 > 0 && ZoneOf(p.flag) < ZONES
  {
    var p := b.secs[j].pages[k];
    if !p.header then b else
    var z := ZoneOf(p.flag);
    Bank(b.secs[j := Give(b.secs[j], k)], b.free[z := b.free[z] + p.count])
  }

  /** A request is served by the zone it asks for whenever that zone can serve it. */
  lemma ServedWhereAsked(b: Bank, count: nat, flag: nat, z: nat)
    requires BankShaped(b) && z < ZONES && Asks(flag, z) && ZoneServes(b, z, count)
    ensures flag % 256 > 0 && ZoneOf(flag) == z && PickZone(b, z, count) == z
    ensures Obtain(b, count, flag) == Served(b, z, count, flag)
  {
    hide Served, ZoneServes;
    Pow2Grows(0, z);
    ZoneIs(flag, z);
  }

  /** A free credits the zone that the flag of the page asks for, and no other. */
  lemma RestoreCredits(b: Bank, j: nat, k: nat, z: nat)
    requires BankShaped(b) && j < |b.secs| && k < |b.secs[j].pages| && z < ZONES
    requires var p := b.secs[j].pages[k];
      p.header && k + p.count <= |b.secs[j].bits| && p.flag % 256 > 0 && ZoneOf(p.flag) < ZONES
    ensures var p, c := b.secs[j].pages[k], Restore(b, j, k);
      |c.free| == ZONES && c.free[z] == if Asks(p.flag, z) then b.free[z] + p.count else b.free[z]
  {
    hide Give;
    ZoneIs(b.secs[j].pages[k].flag, z);
  }

  // ---- the fallback ---------------------------------------------------------------------

  /** z comes in the fallback order that starts at z0. */
  predicate InOrder(z0: nat, z: nat) {
    z < ZONES && (z == z0 || (z <= ZONE_RES && (z0 == ZONE_USER || z0 <= z)))
  }

  /** y is tried before z. */
  predicate Before(z0: nat, y: nat, z: nat) {
    InOrder(z0, y) && InOrder(z0, z) && Rank(y) > Rank(z)
  }

  /** The fallback serves from the first zone in its order that can, and fails only
      if none can; the kernel, DMA and reserved zones never fall back to the user zone. */
  lemma {:induction false} Fallback(b: Bank, z: nat, count: nat)
    requires BankShaped(b) && z < ZONES
    ensures var r := PickZone(b, z, count);
      if r < ZONES then InOrder(z, r) && forall y :: Before(z, y, r) ==> !ZoneServes(b, y, count)
      else forall y :: InOrder(z, y) ==> !ZoneServes(b, y, count)
    ensures z != ZONE_USER ==> PickZone(b, z, count) != ZONE_USER
    decreases Rank(z)
  {
    hide BankShaped, ZoneServes;
    if !ZoneServes(b, z, count) && z != ZONE_RES {
      Fallback(b, NextZone(z), count);
    }
  }
}
