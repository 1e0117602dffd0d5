/** Every run of page requests and frees: who owns which page, and the free-page
    counts (mm/mm.c). */
module PageRuns {
  import opened Bitops
  import opened PageAlloc
  import opened PageBank

  // ---- counting ------------------------------------------------------------------

  ghost function Sum(xs: seq<int>): int {
    if xs == [] then 0 else Sum(xs[..|xs| - 1]) + xs[|xs| - 1]
  }

  lemma {:induction false} SumUpdate(xs: seq<int>, i: nat, v: int)
    requires i < |xs|
    ensures Sum(xs[i := v]) == Sum(xs) - xs[i] + v
  {
    var n := |xs| - 1;
    if i == n {
      assert xs[i := v][..n] == xs[..n];
    } else {
      assert xs[i := v][..n] == xs[..n][i := v];
      SumUpdate(xs[..n], i, v);
    }
  }

  /** The set bits of a bitmap. */
  ghost function Ones(b: seq<bool>): nat {
    if b == [] then 0 else Ones(b[..|b| - 1]) + if b[|b| - 1] then 1 else 0
  }

  lemma {:induction false} OnesFill(b: seq<bool>, i: nat, n: nat, v: bool)
    requires i + n <= |b| && forall k :: i <= k < i + n ==> b[k] != v
    ensures Ones(Fill(b, i, n, v)) == if v then Ones(b) + n else Ones(b) - n
    decreases n
  {
    hide Fill;
    if n == 0 {
      assert Fill(b, i, n, v) == b;
    } else {
      var c := b[i + n - 1 := v];
      OnesSet(b, i + n - 1, v);
      assert Fill(b, i, n, v) == Fill(c, i, n - 1, v);
      OnesFill(c, i, n - 1, v);
    }
  }

  lemma {:induction false} OnesSet(b: seq<bool>, i: nat, v: bool)
    requires i < |b| && b[i] != v
    ensures Ones(b[i := v]) == if v then Ones(b) + 1 else Ones(b) - 1
  {
    var n := |b| - 1;
    if i == n {
      assert b[i := v][..n] == b[..n];
    } else {
      assert b[i := v][..n] == b[..n][i := v];
      OnesSet(b[..n], i, v);
    }
  }

  ghost function Used(secs: seq<Section>): seq<int> {
    seq(|secs|, j requires 0 <= j < |secs| => Ones(secs[j].bits))
  }

  ghost function Unspent(secs: seq<Section>): seq<int> {
    seq(|secs|, j requires 0 <= j < |secs| => secs[j].free)
  }

  /** The zones' free pages and the set bits of all sections together. */
  ghost function Total(b: Bank): int {
    Sum(b.free) + Sum(Used(b.secs))
  }

  // ---- one step ------------------------------------------------------------------------

  /** __get_free_pages and _free_pages, on page k of section j. */
  datatype Op = Request(count: nat, flag: nat, vp: bool) | Release(j: nat, k: nat)

  ghost predicate FlagsOk(s: Section, l: Ledger) {
    forall r :: r in l.live && r < |s.pages| ==> s.pages[r].flag % 256 > 0 && ZoneOf(s.pages[r].flag) < ZONES
  }

  ghost predicate BankInv(b: Bank, ls: seq<Ledger>) {
    && BankShaped(b) && |ls| == |b.secs|
    && forall j :: 0 <= j < |ls| ==> SectionInv(b.secs[j], ls[j]) && FlagsOk(b.secs[j], ls[j]) && b.secs[j].free >= 0
  }

  /** Every search that zone z makes for the request, from section id on, stops. */
  ghost predicate SectionsStop(b: Bank, z: nat, count: nat, id: nat)
    requires BankShaped(b) && z < ZONES && id <= ZONE_SECTIONS
    decreases ZONE_SECTIONS - id
  {
    id < ZONE_SECTIONS ==>
      var s := b.secs[4 * z + id];
      && (s.bits != [] && s.free >= count ==> Stops(s.bits, false, s.cur, count))
      && (!HasRoom(s, count) ==> SectionsStop(b, z, count, id + 1))
  }

  /** Every search the request makes stops, so that it returns. */
  ghost predicate Returns(b: Bank, z: nat, count: nat)
    requires BankShaped(b) && z < ZONES
    decreases Rank(z)
  {
    && (b.free[z] >= count ==> SectionsStop(b, z, count, 0))
    && (!ZoneServes(b, z, count) && z != ZONE_RES ==> Returns(b, NextZone(z), count))
  }

  /** A request must return and be told an address other than 0; only a page that is allocated is released, and the walk
      back of the cursor must find a set bit. */
  ghost predicate Allowed(b: Bank, ls: seq<Ledger>, op: Op)
    requires BankInv(b, ls)
  {
    match op
    case Request(count, flag, vp) =>
      && flag % 256 > 0 && (ZoneOf(flag) < ZONES ==> Returns(b, ZoneOf(flag), count))
      && (ZoneOf(flag) < ZONES && PickZone(b, ZoneOf(flag), count) < ZONES ==>
            ZoneReports(b, PickZone(b, ZoneOf(flag), count), count, vp))
    case Release(j, k) =>
      && j < |ls| && k < |ls[j].own| && ls[j].own[k] != Free && ls[j].own[k] != Lost
      && (k in ls[j].live ==>
            WalkOk(b.secs[j], ls[j], k))
  }

  ghost predicate WalkOk(s: Section, l: Ledger, k: nat)
    requires SectionInv(s, l) && k in l.live
  {
    RunFacts(s, l, k);
    Anchored(Fill(s.bits, k, s.pages[k].count, false), s.cur)
  }

  /** In a section whose boot pages include page 0 the walk always finds one. */
  lemma BootAnchors(s: Section, l: Ledger, k: nat)
    requires SectionInv(s, l) && k in l.live && l.boot > 0 && s.bits != []
    ensures WalkOk(s, l, k)
  {
    hide Fill;
    RunFacts(s, l, k);
    assert l.own[0] == Boot && l.own[k] == Run(k);
    assert Fill(s.bits, k, s.pages[k].count, false)[0];
  }

  /** In a section without boot pages it need not: a first run that is freed again leaves
      no bit to find, unless it was the whole section or too long for its 16-bit count. */
  lemma FirstRunWalksOff(s: Section, count: nat, flag: nat)
    requires Fresh(s) && 0 < count <= |s.bits|
    ensures Place(s, count) == 0
    ensures var t, m := Take(s, 0, count, flag), Took(BootLedger(|s.bits|, 0), 0, count);
      && SectionInv(t, m) && 0 in m.live
      && (WalkOk(t, m, 0) <==> count == |s.bits| || count >= COUNT_LIMIT)
  {
    hide Fill, Recorded, RunsOk, Search;
    assert RunAt(s.bits, false, 0, count);
    assert Place(s, count) == 0 by { FirstPlace(s.bits, count); }
    BootHolds(s, 0);
    TakeKeeps(s, BootLedger(|s.bits|, 0), count, flag);
    var t, m := Take(s, 0, count, flag), Took(BootLedger(|s.bits|, 0), 0, count);
    RunFacts(t, m, 0);
    var b := Fill(t.bits, 0, t.pages[0].count, false);
    if count < |s.bits| && count >= COUNT_LIMIT { assert b[count - 1]; }
  }

  lemma FirstPlace(b: seq<bool>, count: nat)
    requires 0 < count && RunAt(b, false, 0, count)
    ensures Search(b, false, 0, count) == 0
  {
  }

  ghost function Do(b: Bank, ls: seq<Ledger>, op: Op): (r: (Bank, seq<Ledger>))
    requires BankInv(b, ls) && Allowed(b, ls, op)
  {
    match op
    case Request(count, flag, _) =>
      if ZoneOf(flag) >= ZONES || PickZone(b, ZoneOf(flag), count) == ZONES then (b, ls) else
      var j := Picked(b, PickZone(b, ZoneOf(flag), count), count);
      RoomFits(b.secs[j], count);
      (Obtain(b, count, flag), ls[j := Took(ls[j], Place(b.secs[j], count), count)])
    case Release(j, k) =>
      PutFits(b, ls, j, k);
      (Restore(b, j, k), if k in ls[j].live then ls[j := Gave(ls[j], k)] else ls)
  }

  lemma PutFits(b: Bank, ls: seq<Ledger>, j: nat, k: nat)
    requires BankInv(b, ls) && j < |ls| && k < |ls[j].own| && ls[j].own[k] != Free && ls[j].own[k] != Lost
    ensures k < |b.secs[j].pages|
    ensures b.secs[j].pages[k].header <==> k in ls[j].live
    ensures k in ls[j].live ==>
      k + b.secs[j].pages[k].count <= |b.secs[j].bits| && b.secs[j].pages[k].flag % 256 > 0 &&
      ZoneOf(b.secs[j].pages[k].flag) < ZONES
  {
    hide RunsOk, Recorded, ZoneOf;
    var s, l := b.secs[j], ls[j];
    assert SectionInv(s, l) && FlagsOk(s, l);
    SectionShape(s, l);
    if k in l.live { RunFacts(s, l, k); } else { OthersIgnored(s, l, k); }
  }

  lemma SectionShape(s: Section, l: Ledger)
    requires SectionInv(s, l)
    ensures |s.bits| == |s.pages| == |l.own|
  {
  }

  // ---- what a step keeps ----------------------------------------------------------------

  lemma TakeKeepsFlags(s: Section, l: Ledger, r: nat, count: nat, flag: nat)
    requires SectionInv(s, l) && FlagsOk(s, l) && count > 0 && RunAt(s.bits, false, r, count)
    requires flag % 256 > 0 && ZoneOf(flag) < ZONES
    ensures FlagsOk(Take(s, r, count, flag), Took(l, r, count))
  {
    hide Fill, ZoneOf, RunsOk, Recorded;
    SectionShape(s, l);
    var t, m := Take(s, r, count, flag), Took(l, r, count);
    forall q | q in m.live && q < |t.pages| ensures t.pages[q].flag % 256 > 0 && ZoneOf(t.pages[q].flag) < ZONES {
      if q != r { LiveElsewhere(s, l, r, count, q); }
    }
  }

  lemma LiveElsewhere(s: Section, l: Ledger, r: nat, count: nat, q: nat)
    requires SectionInv(s, l) && RunAt(s.bits, false, r, count) && q in l.live
    ensures q < r || q >= r + count
  {
    RunIsSet(s, l, q);
  }

  lemma GiveKeepsFlags(s: Section, l: Ledger, r: nat)
    requires SectionInv(s, l) && FlagsOk(s, l) && r in l.live
    ensures r < |s.pages| && r + s.pages[r].count <= |s.bits| && FlagsOk(Give(s, r), Gave(l, r))
  {
    hide RunsOk, Recorded, ZoneOf, Back, Fill;
    RunFacts(s, l, r);
  }

  lemma UsedUpdate(secs: seq<Section>, j: nat, s: Section)
    requires j < |secs|
    ensures Sum(Used(secs[j := s])) == Sum(Used(secs)) - Ones(secs[j].bits) + Ones(s.bits)
    ensures Sum(Unspent(secs[j := s])) == Sum(Unspent(secs)) - secs[j].free + s.free
  {
    assert Used(secs[j := s]) == Used(secs)[j := Ones(s.bits)];
    SumUpdate(Used(secs), j, Ones(s.bits));
    assert Unspent(secs[j := s]) == Unspent(secs)[j := s.free];
    SumUpdate(Unspent(secs), j, s.free);
  }

  /** Pages handed out by a step. */
  ghost function Granted(b: Bank, op: Op): nat
    requires BankShaped(b) && (op.Request? ==> op.flag % 256 > 0)
  {
    match op
    case Request(count, flag, _) => if ZoneOf(flag) < ZONES && PickZone(b, ZoneOf(flag), count) < ZONES then count else 0
    case Release(_, _) => 0
  }

  lemma RequestKeeps(b: Bank, ls: seq<Ledger>, op: Op)
    requires BankInv(b, ls) && Allowed(b, ls, op) && op.Request?
    ensures var (c, ms) := Do(b, ls, op); BankInv(c, ms)
  {
    hide SectionInv, Take, Took, Returns, ZoneOf, Place;
    if ZoneOf(op.flag) < ZONES && PickZone(b, ZoneOf(op.flag), op.count) < ZONES {
      var j := Picked(b, PickZone(b, ZoneOf(op.flag), op.count), op.count);
      var s, l, r := b.secs[j], ls[j], Place(b.secs[j], op.count);
      RoomFits(s, op.count);
      TakeStep(s, l, op.count, op.flag);
    }
  }

  lemma TakeStep(s: Section, l: Ledger, count: nat, flag: nat)
    requires SectionInv(s, l) && FlagsOk(s, l) && HasRoom(s, count) && flag % 256 > 0 && ZoneOf(flag) < ZONES
    ensures var r := Place(s, count);
      && r + count <= |s.bits| == |l.own|
      && SectionInv(Take(s, r, count, flag), Took(l, r, count)) && FlagsOk(Take(s, r, count, flag), Took(l, r, count))
      && Shaped(Take(s, r, count, flag)) && Take(s, r, count, flag).free == s.free - count >= 0
      && Ones(Take(s, r, count, flag).bits) == Ones(s.bits) + count
  {
    hide RunsOk, Recorded, Place, ZoneOf, Fill, FlagsOk;
    var r := Place(s, count);
    RoomFits(s, count);
    SectionShape(s, l);
    TakeKeeps(s, l, count, flag);
    TakeKeepsFlags(s, l, r, count, flag);
    OnesFill(s.bits, r, count, true);
  }

  lemma GiveStep(s: Section, l: Ledger, k: nat)
    requires SectionInv(s, l) && FlagsOk(s, l) && k in l.live
    ensures k < |s.pages| && k + s.pages[k].count <= |s.bits| && s.pages[k].header
    ensures var t := Give(s, k);
      && SectionInv(t, Gave(l, k)) && FlagsOk(t, Gave(l, k)) && Shaped(t) && t.free == s.free
      && Ones(t.bits) == Ones(s.bits) - s.pages[k].count
  {
    hide RunsOk, Recorded, ZoneOf, Fill, FlagsOk;
    RunFacts(s, l, k);
    GiveKeeps(s, l, k);
    GiveKeepsFlags(s, l, k);
    RunIsSet(s, l, k);
    OnesFill(s.bits, k, s.pages[k].count, false);
  }

  lemma RunIsSet(s: Section, l: Ledger, r: nat)
    requires SectionInv(s, l) && r in l.live
    ensures r + l.live[r] <= |s.bits| && forall k :: r <= k < r + l.live[r] ==> s.bits[k]
  {
    RunFacts(s, l, r);
  }

  lemma ReleaseKeeps(b: Bank, ls: seq<Ledger>, op: Op)
    requires BankInv(b, ls) && Allowed(b, ls, op) && op.Release?
    ensures var (c, ms) := Do(b, ls, op); BankInv(c, ms)
  {
    hide SectionInv, Give, Gave, ZoneOf, Returns, WalkOk;
    PutFits(b, ls, op.j, op.k);
    if op.k in ls[op.j].live { GiveStep(b.secs[op.j], ls[op.j], op.k); }
  }

  lemma ServedCounts(b: Bank, ls: seq<Ledger>, z: nat, count: nat, flag: nat)
    requires BankInv(b, ls) && z < ZONES && ZoneServes(b, z, count) && flag % 256 > 0 && ZoneOf(flag) < ZONES
    ensures var c := Served(b, z, count, flag);
      && Total(c) == Total(b)
      && Sum(Unspent(c.secs)) + count == Sum(Unspent(b.secs))
  {
    hide SectionInv, Take, Took, ZoneOf, Place, Used, Unspent, ZoneServes;
    var j := Picked(b, z, count);
    var s := b.secs[j];
    RoomFits(s, count);
    TakeStep(s, ls[j], count, flag);
    UsedUpdate(b.secs, j, Take(s, Place(s, count), count, flag));
    SumUpdate(b.free, z, b.free[z] - count);
  }

  /** Pages of a run at address 0 are taken from the section, but the zone is not charged: the
      total grows by them. */
  lemma UnreportedCounts(b: Bank, ls: seq<Ledger>, j: nat, count: nat, flag: nat)
    requires BankInv(b, ls) && j < |b.secs| && HasRoom(b.secs[j], count) && !Reported(b.secs[j], count, true)
    requires flag % 256 > 0 && ZoneOf(flag) < ZONES
    ensures Place(b.secs[j], count) == 0 && count <= |b.secs[j].bits|
    ensures Total(b.(secs := b.secs[j := Take(b.secs[j], 0, count, flag)])) == Total(b) + count > Total(b)
  {
    hide SectionInv, Take, Took, ZoneOf, Place, Used, Unspent;
    RoomFits(b.secs[j], count);
    TakeStep(b.secs[j], ls[j], count, flag);
    UsedUpdate(b.secs, j, Take(b.secs[j], 0, count, flag));
  }

  /** What a request takes, a free of its first page gives back: the bits, for runs under 65536
      pages, and the zones' counts, if and only if the zone asked for has served it; after a
      fallback the page is charged to one zone and credited to another. */
  lemma ReturnTrip(b: Bank, ls: seq<Ledger>, count: nat, flag: nat)
    requires BankInv(b, ls) && flag % 256 > 0 && ZoneOf(flag) < ZONES && PickZone(b, ZoneOf(flag), count) < ZONES
    requires count < COUNT_LIMIT
    ensures var y := PickZone(b, ZoneOf(flag), count); var j := Picked(b, y, count);
      var c, r := Obtain(b, count, flag), Place(b.secs[j], count);
      && 0 <= r < |c.secs[j].pages| && c.secs[j].pages[r].header && c.secs[j].pages[r].flag == flag
      && BankShaped(c) && r + c.secs[j].pages[r].count <= |c.secs[j].bits|
      && Restore(c, j, r).secs[j].bits == b.secs[j].bits
      && (Restore(c, j, r).free == b.free <==> y == ZoneOf(flag))
  {
    hide SectionInv, Took, ZoneOf, Place, FlagsOk, Back, PickZone, PickSection, Take, Give, RunAt;
    var y := PickZone(b, ZoneOf(flag), count);
    var j := Picked(b, y, count);
    var s := b.secs[j];
    RoomFits(s, count);
    var r := Place(s, count);
    SectionShape(s, ls[j]);
    TakeStep(s, ls[j], count, flag);
    SectionTrip(s, r, count, flag);
    var c := Obtain(b, count, flag);
    assert c.secs[j] == Take(s, r, count, flag) && c.free == b.free[y := b.free[y] - count];
    CreditIs(b.free, y, ZoneOf(flag), count);
  }

  lemma SectionTrip(s: Section, r: nat, count: nat, flag: nat)
    requires 0 < count < COUNT_LIMIT && RunAt(s.bits, false, r, count) && |s.pages| == |s.bits|
    ensures r + count <= |s.bits|
    ensures var t := Take(s, r, count, flag);
      && r < |t.pages| && t.pages[r].header && t.pages[r].flag == flag && t.pages[r].count == count
      && t.cur <= |t.bits| == |s.bits|
      && r + count <= |t.bits| && Give(t, r).bits == s.bits
  {
    hide Back, Fill;
    FillBack(s.bits, r, count);
  }

  lemma CreditIs(free: seq<int>, y: nat, z: nat, count: nat)
    requires y < |free| && z < |free| && count > 0
    ensures var c := free[y := free[y] - count]; c[z := c[z] + count] == free <==> y == z
  {
    var c := free[y := free[y] - count];
    if y != z { assert c[z := c[z] + count][y] == free[y] - count; }
  }

  lemma FillBack(b: seq<bool>, r: nat, count: nat)
    requires RunAt(b, false, r, count)
    ensures r + count <= |b| && Fill(Fill(b, r, count, true), r, count, false) == b
  {
  }

  lemma RequestCounts(b: Bank, ls: seq<Ledger>, op: Op)
    requires BankInv(b, ls) && Allowed(b, ls, op) && op.Request?
    ensures var (c, ms) := Do(b, ls, op);
      && Total(c) == Total(b)
      && Sum(Unspent(c.secs)) + Granted(b, op) == Sum(Unspent(b.secs))
  {
    hide SectionInv, Take, Took, Returns, ZoneOf, Place, Total, Unspent, Served, PickZone, ZoneServes, Picked;
    if ZoneOf(op.flag) < ZONES && PickZone(b, ZoneOf(op.flag), op.count) < ZONES {
      ServedCounts(b, ls, PickZone(b, ZoneOf(op.flag), op.count), op.count, op.flag);
    }
  }

  lemma ReleaseCounts(b: Bank, ls: seq<Ledger>, op: Op)
    requires BankInv(b, ls) && Allowed(b, ls, op) && op.Release?
    ensures var (c, ms) := Do(b, ls, op);
      Total(c) == Total(b) && Sum(Unspent(c.secs)) == Sum(Unspent(b.secs))
  {
    hide SectionInv, Give, Gave, ZoneOf, Used, Unspent, WalkOk;
    PutFits(b, ls, op.j, op.k);
    if op.k in ls[op.j].live {
      var s := b.secs[op.j];
      GiveStep(s, ls[op.j], op.k);
      UsedUpdate(b.secs, op.j, Give(s, op.k));
      var z := ZoneOf(s.pages[op.k].flag);
      SumUpdate(b.free, z, b.free[z] + s.pages[op.k].count);
    }
  }

  // ---- whole runs ---------------------------------------------------------------------

  datatype World = World(bank: Bank, ledgers: seq<Ledger>)

  ghost predicate Good(w: World) { BankInv(w.bank, w.ledgers) }

  ghost predicate Step(w: World, op: Op, v: World) {
    Good(w) && Allowed(w.bank, w.ledgers, op) && Do(w.bank, w.ledgers, op) == (v.bank, v.ledgers)
  }

  lemma StepKeeps(w: World, op: Op, v: World)
    requires Step(w, op, v)
    ensures Good(v) && Total(v.bank) == Total(w.bank)
    ensures Sum(Unspent(v.bank.secs)) + Grant(w, op) == Sum(Unspent(w.bank.secs))
  {
    hide BankInv, Allowed, Do, Total, Unspent, Granted;
    GrantIs(w, op);
    if op.Request? {
      RequestKeeps(w.bank, w.ledgers, op);
      RequestCounts(w.bank, w.ledgers, op);
    } else {
      ReleaseKeeps(w.bank, w.ledgers, op);
      ReleaseCounts(w.bank, w.ledgers, op);
    }
  }

  /** Pages a step hands out. */
  ghost function Grant(w: World, op: Op): nat {
    if BankShaped(w.bank) && op.Request? && op.flag % 256 > 0 then Granted(w.bank, op) else 0
  }

  lemma GrantIs(w: World, op: Op)
    requires Good(w) && Allowed(w.bank, w.ledgers, op)
    ensures BankShaped(w.bank) && (op.Request? ==> op.flag % 256 > 0) && Grant(w, op) == Granted(w.bank, op)
  {
    hide SectionInv, Returns, WalkOk, ZoneOf, PickZone;
  }

  /** The bank after boot: every section fresh, but for the boot pages of one. */
  lemma BootGood(b: Bank, j: nat, size: nat)
    requires |b.secs| == ZONES * ZONE_SECTIONS && |b.free| == ZONES && j < |b.secs|
    requires forall i :: 0 <= i < |b.secs| ==> Fresh(b.secs[i])
    requires size < |b.secs[j].bits| || size == 0
    ensures var ls := seq(|b.secs|, i requires 0 <= i < |b.secs| => BootLedger(|b.secs[i].bits|, if i == j then size else 0));
      var w := World(b.(secs := b.secs[j := Booted(b.secs[j], size)]), ls); Good(w) && NothingLost(w)
  {
    hide Booted, BootLedger, Fresh;
    var ls := seq(|b.secs|, i requires 0 <= i < |b.secs| => BootLedger(|b.secs[i].bits|, if i == j then size else 0));
    var w := World(b.(secs := b.secs[j := Booted(b.secs[j], size)]), ls);
    forall i | 0 <= i < |b.secs| ensures Started(w.bank.secs[i], ls[i]) {
      if i == j { StartedHolds(b.secs[i], size); } else { StartedHolds(b.secs[i], 0); }
    }
  }

  ghost predicate Started(s: Section, l: Ledger) {
    Shaped(s) && SectionInv(s, l) && FlagsOk(s, l) && s.free >= 0 && Sound(l)
  }

  lemma StartedHolds(s: Section, size: nat)
    requires Fresh(s) && (size < |s.bits| || size == 0)
    ensures Started(Booted(s, size), BootLedger(|s.bits|, size)) && Started(s, BootLedger(|s.bits|, 0))
  {
    BootHolds(s, size);
  }

  ghost predicate IsRun(ws: seq<World>, ops: seq<Op>) {
    |ws| == |ops| + 1 && forall i :: 0 <= i < |ops| ==> Step(ws[i], ops[i], ws[i + 1])
  }

  /** Pages handed out by the first n steps. */
  ghost function Handed(ws: seq<World>, ops: seq<Op>, n: nat): nat
    requires n <= |ops| <= |ws|
  {
    if n == 0 then 0 else Handed(ws, ops, n - 1) + Grant(ws[n - 1], ops[n - 1])
  }

  /** Over every run the bitmaps, descriptors and runs stay in step, and the zones'
      free pages plus the set bits never change, whichever zones are charged and
      credited. The sections' own free counts are never credited: they pay for every
      page ever handed out. */
  lemma {:induction false} RunKeeps(ws: seq<World>, ops: seq<Op>, n: nat)
    requires IsRun(ws, ops) && Good(ws[0]) && n <= |ops|
    ensures Good(ws[n]) && Total(ws[n].bank) == Total(ws[0].bank)
    ensures Sum(Unspent(ws[n].bank.secs)) + Handed(ws, ops, n) == Sum(Unspent(ws[0].bank.secs))
  {
    hide Good, Step, Total, Unspent, Grant;
    if n > 0 {
      RunKeeps(ws, ops, n - 1);
      StepKeeps(ws[n - 1], ops[n - 1], ws[n]);
    }
  }

  /** No zone is charged more pages than it has: its count of free pages never falls below
      zero. */
  lemma {:induction false} NeverOverdrawn(ws: seq<World>, ops: seq<Op>, n: nat)
    requires IsRun(ws, ops) && Good(ws[0]) && n <= |ops|
    requires forall z :: 0 <= z < |ws[0].bank.free| ==> ws[0].bank.free[z] >= 0
    ensures forall z :: 0 <= z < |ws[n].bank.free| ==> ws[n].bank.free[z] >= 0
  {
    hide Good, BankInv, Allowed, Do;
    if n > 0 {
      NeverOverdrawn(ws, ops, n - 1);
      assert Step(ws[n - 1], ops[n - 1], ws[n]);
      StepPays(ws[n - 1], ops[n - 1], ws[n]);
    }
  }

  lemma StepPays(w: World, op: Op, v: World)
    requires Step(w, op, v) && forall z :: 0 <= z < |w.bank.free| ==> w.bank.free[z] >= 0
    ensures forall z :: 0 <= z < |v.bank.free| ==> v.bank.free[z] >= 0
  {
    hide SectionInv, FlagsOk, Returns, WalkOk, Place, ZoneOf, Fill, Take, Took, Give, Gave, PickSection;
    if op.Release? { PutFits(w.bank, w.ledgers, op.j, op.k); }
  }

  lemma {:induction false} SumAtLeast(xs: seq<int>)
    requires forall i :: 0 <= i < |xs| ==> xs[i] >= 0
    ensures Sum(xs) >= 0
  {
    if xs != [] { SumAtLeast(xs[..|xs| - 1]); }
  }

  /** The sections never serve more pages, over the life of the system, than they
      began with, however many are freed meanwhile. */
  lemma LifetimeBudget(ws: seq<World>, ops: seq<Op>)
    requires IsRun(ws, ops) && Good(ws[0])
    ensures Handed(ws, ops, |ops|) <= Sum(Unspent(ws[0].bank.secs))
  {
    hide Step, SectionInv, FlagsOk, Grant;
    RunKeeps(ws, ops, |ops|);
    SumAtLeast(Unspent(ws[|ops|].bank.secs));
  }

  // ---- what the ledger says ------------------------------------------------------------

  /** A set bit belongs to the boot pages, to exactly one live run, or to a part of a
      run that a truncated free left behind. */
  lemma SetBits(s: Section, l: Ledger, k: nat)
    requires SectionInv(s, l) && k < |s.bits|
    ensures s.bits[k] <==> k < l.boot || l.own[k] == Lost || exists r :: r in l.live && r <= k < r + l.live[r]
    ensures forall r :: r in l.live && r <= k < r + l.live[r] ==> k >= l.boot && l.own[k] == Run(r)
  {
    if s.bits[k] && l.own[k].Run? {
      var r := l.own[k].start;
      assert r in l.live && r <= k < r + l.live[r];
    }
  }

  /** Two live runs have no page in common. */
  lemma RunsApart(s: Section, l: Ledger, q: nat, r: nat, k: nat)
    requires SectionInv(s, l) && q in l.live && r in l.live
    requires q <= k < q + l.live[q] && r <= k < r + l.live[r]
    ensures q == r
  {
    RunFacts(s, l, q);
    RunFacts(s, l, r);
    assert l.own[k] == Run(q) && l.own[k] == Run(r);
  }

  /** A free clears exactly its own run if and only if the run fits its 16-bit
      count. */
  lemma FreeIsExact(s: Section, l: Ledger, r: nat)
    requires SectionInv(s, l) && r in l.live
    ensures r + l.live[r] <= |s.bits| == |s.pages| && r + s.pages[r].count <= |s.bits|
    ensures Give(s, r).bits == Fill(s.bits, r, l.live[r], false) <==> l.live[r] < COUNT_LIMIT
  {
    hide RunsOk, Recorded, Back, Fill;
    RunFacts(s, l, r);
    RunIsSet(s, l, r);
    var m := s.pages[r].count;
    if l.live[r] >= COUNT_LIMIT {
      assert Give(s, r).bits[r + m];
      assert !Fill(s.bits, r, l.live[r], false)[r + m];
    }
  }

  /** No page is lost. */
  ghost predicate NothingLost(w: World) {
    forall j :: 0 <= j < |w.ledgers| ==> Sound(w.ledgers[j])
  }

  ghost predicate Sound(l: Ledger) {
    && (forall k :: 0 <= k < |l.own| ==> l.own[k] != Lost)
    && (forall r :: r in l.live ==> l.live[r] < COUNT_LIMIT)
  }

  lemma StepLosesNothing(w: World, op: Op, v: World)
    requires Step(w, op, v) && NothingLost(w) && (op.Request? ==> op.count < COUNT_LIMIT)
    ensures NothingLost(v)
  {
    hide SectionInv, FlagsOk, Returns, WalkOk, Place, ZoneOf, Fill, Obtain, Restore;
    if op.Request? {
      if ZoneOf(op.flag) < ZONES && PickZone(w.bank, ZoneOf(op.flag), op.count) < ZONES {
        var j := Picked(w.bank, PickZone(w.bank, ZoneOf(op.flag), op.count), op.count);
        TakeStep(w.bank.secs[j], w.ledgers[j], op.count, op.flag);
      }
    } else if op.k in w.ledgers[op.j].live {
      RunFacts(w.bank.secs[op.j], w.ledgers[op.j], op.k);
    }
  }

  /** Where no request is for 65536 pages or more, no page is ever lost: the set bits
      are exactly the boot pages and the live runs. */
  lemma {:induction false} NothingLostInRun(ws: seq<World>, ops: seq<Op>, n: nat)
    requires IsRun(ws, ops) && Good(ws[0]) && NothingLost(ws[0]) && n <= |ops|
    requires forall i :: 0 <= i < |ops| && ops[i].Request? ==> ops[i].count < COUNT_LIMIT
    ensures NothingLost(ws[n])
  {
    hide Good, Step, NothingLost;
    if n > 0 {
      NothingLostInRun(ws, ops, n - 1);
      StepLosesNothing(ws[n - 1], ops[n - 1], ws[n]);
    }
  }

  /** A run taken up to the last page but one leaves the cursor on the last page: the
      next request that finds no room never returns. */
  lemma NextRequestHangs(s: Section, r: nat, count: nat, flag: nat, next: nat, result: int)
    requires 0 < r + count == |s.bits| - 1
    requires next > 0 ==> NoRun(Take(s, r, count, flag).bits, false, 1, |s.bits|, next)
    ensures var t := Take(s, r, count, flag); !Ends(t.bits, false, t.cur, next, result)
  {
    hide Ends;
    var t := Take(s, r, count, flag);
    SearchHangs(t.bits, false, t.cur, next, result);
  }
}
