/** Matching the devices seen behind the access point with the inventory, with
    each entry's MAC trusted on first use and remembered from then on. */
module Fleet {
  import opened Text

  datatype Neighbor = Neighbor(ip: string, mac: string)

  datatype Kind = Known | New | Unverified | Unresolved

  datatype Row = Row(mac: Option<string>, ip: Option<string>, entry: Option<string>, kind: Kind)

  /** An inventory entry and the address it resolves to. */
  datatype Item = Item(entry: string, ip: Option<string>)

  type Macs = map<string, string>

  function ByIp(neighbors: seq<Neighbor>, ip: string): (r: Option<Neighbor>)
    ensures r.Some? ==> r.value in neighbors && r.value.ip == ip
    ensures r.None? ==> forall n | n in neighbors :: n.ip != ip
  {
    if neighbors == [] then None
    else
      var last := |neighbors| - 1;
      if neighbors[last].ip == ip then Some(neighbors[last]) else ByIp(neighbors[..last], ip)
  }

  function ByMac(neighbors: seq<Neighbor>, mac: string): (r: Option<Neighbor>)
    ensures r.Some? ==> r.value in neighbors && r.value.mac == mac
    ensures r.None? ==> forall n | n in neighbors :: n.mac != mac
  {
    if neighbors == [] then None
    else
      var last := |neighbors| - 1;
      if neighbors[last].mac == mac then Some(neighbors[last]) else ByMac(neighbors[..last], mac)
  }

  function Candidate(neighbors: seq<Neighbor>, ip: Option<string>): Option<Neighbor> {
    if ip.Some? && ip.value != "" then ByIp(neighbors, ip.value) else None
  }

  /** The device taken for an entry, if any. */
  function Match(neighbors: seq<Neighbor>, item: Item, known: Macs): Option<Neighbor> {
    var candidate := Candidate(neighbors, item.ip);
    if candidate.Some? && (item.entry !in known || candidate.value.mac == known[item.entry]) then candidate
    else if item.entry in known then ByMac(neighbors, known[item.entry])
    else None
  }

  function RowOf(neighbors: seq<Neighbor>, item: Item, known: Macs): Row {
    match Match(neighbors, item, known)
    case Some(n) => Row(Some(n.mac), Some(n.ip), Some(item.entry), Known)
    case None => Row(None, item.ip, Some(item.entry), Unresolved)
  }

  predicate IsClaimed(neighbors: seq<Neighbor>, items: seq<Item>, known: Macs, ip: string) {
    exists k | 0 <= k < |items| ::
      Match(neighbors, items[k], known).Some? && Match(neighbors, items[k], known).value.ip == ip
  }

  predicate AnyUnresolved(neighbors: seq<Neighbor>, items: seq<Item>, known: Macs) {
    exists k | 0 <= k < |items| :: Match(neighbors, items[k], known).None?
  }

  /** The rows for the first `n` devices that no entry claimed. */
  function Leftovers(neighbors: seq<Neighbor>, items: seq<Item>, known: Macs, n: nat): seq<Row>
    requires n <= |neighbors|
  {
    if n == 0 then []
    else
      var rest := Leftovers(neighbors, items, known, n - 1);
      var d := neighbors[n - 1];
      if IsClaimed(neighbors, items, known, d.ip) then rest
      else rest + [Row(Some(d.mac), Some(d.ip), None,
                       if AnyUnresolved(neighbors, items, known) then Unverified else New)]
  }

  function InventoryRows(neighbors: seq<Neighbor>, items: seq<Item>, known: Macs): (r: seq<Row>)
    ensures |r| == |items|
    ensures forall k | 0 <= k < |r| :: r[k] == RowOf(neighbors, items[k], known)
  {
    seq(|items|, k requires 0 <= k < |items| => RowOf(neighbors, items[k], known))
  }

  function Classified(neighbors: seq<Neighbor>, items: seq<Item>, known: Macs): seq<Row> {
    InventoryRows(neighbors, items, known) + Leftovers(neighbors, items, known, |neighbors|)
  }

  /** The first loop of `classify`: the row of each entry, and what the second needs. */
  method MatchItems(neighbors: seq<Neighbor>, items: seq<Item>, known: Macs)
    returns (rows: seq<Row>, claimed: set<string>, hasUnresolved: bool)
    ensures rows == InventoryRows(neighbors, items, known)
    ensures forall ip :: ip in claimed <==> IsClaimed(neighbors, items, known, ip)
    ensures hasUnresolved == AnyUnresolved(neighbors, items, known)
  {
    rows, claimed, hasUnresolved := [], {}, false;
    for k := 0 to |items|
      invariant rows == InventoryRows(neighbors, items, known)[..k]
      invariant forall ip :: ip in claimed <==> IsClaimed(neighbors, items[..k], known, ip)
      invariant hasUnresolved == AnyUnresolved(neighbors, items[..k], known)
    {
      var item := items[k];
      assert items[..k + 1] == items[..k] + [item];
      ClaimedNext(neighbors, items[..k], item, known);
      var candidate := Candidate(neighbors, item.ip);
      if candidate.Some? && (item.entry !in known || candidate.value.mac == known[item.entry]) {
        claimed := claimed + {candidate.value.ip};
        rows := rows + [Row(Some(candidate.value.mac), Some(candidate.value.ip), Some(item.entry), Known)];
        continue;
      }
      if item.entry in known {
        var moved := ByMac(neighbors, known[item.entry]);
        if moved.Some? {
          claimed := claimed + {moved.value.ip};
          rows := rows + [Row(Some(moved.value.mac), Some(moved.value.ip), Some(item.entry), Known)];
          continue;
        }
      }
      hasUnresolved := true;
      rows := rows + [Row(None, item.ip, Some(item.entry), Unresolved)];
    }
    assert items[..|items|] == items;
  }

  method Classify(neighbors: seq<Neighbor>, items: seq<Item>, known: Macs) returns (rows: seq<Row>)
    ensures rows == Classified(neighbors, items, known)
  {
    var matched, claimed, hasUnresolved := MatchItems(neighbors, items, known);
    rows := matched;
    for k := 0 to |neighbors|
      invariant rows == matched + Leftovers(neighbors, items, known, k)
    {
      if neighbors[k].ip !in claimed {
        rows := rows + [Row(Some(neighbors[k].mac), Some(neighbors[k].ip), None,
                            if hasUnresolved then Unverified else New)];
      }
    }
  }

  lemma ClaimedNext(neighbors: seq<Neighbor>, items: seq<Item>, item: Item, known: Macs)
    ensures forall ip :: IsClaimed(neighbors, items + [item], known, ip) <==>
                         IsClaimed(neighbors, items, known, ip)
                         || (Match(neighbors, item, known).Some? && Match(neighbors, item, known).value.ip == ip)
    ensures AnyUnresolved(neighbors, items + [item], known) <==>
            AnyUnresolved(neighbors, items, known) || Match(neighbors, item, known).None?
  {
    var all := items + [item];
    assert all[|items|] == item;
    assert forall k | 0 <= k < |items| :: all[k] == items[k];
    forall ip
      ensures IsClaimed(neighbors, all, known, ip) <==>
              IsClaimed(neighbors, items, known, ip)
              || (Match(neighbors, item, known).Some? && Match(neighbors, item, known).value.ip == ip)
    {
      if IsClaimed(neighbors, items, known, ip) {
        var k :| 0 <= k < |items| && Match(neighbors, items[k], known).Some?
                 && Match(neighbors, items[k], known).value.ip == ip;
        assert all[k] == items[k];
      }
      if Match(neighbors, item, known).Some? && Match(neighbors, item, known).value.ip == ip {
        assert Match(neighbors, all[|items|], known).Some?;
      }
    }
    if AnyUnresolved(neighbors, items, known) {
      var k :| 0 <= k < |items| && Match(neighbors, items[k], known).None?;
      assert Match(neighbors, all[k], known).None?;
    }
    if Match(neighbors, item, known).None? {
      assert Match(neighbors, all[|items|], known).None?;
    }
  }

  /** The bindings a round adds. */
  function Learned(rows: seq<Row>, known: Macs): Macs {
    if rows == [] then map[]
    else
      var rest := Learned(rows[..|rows| - 1], known);
      var r := rows[|rows| - 1];
      if r.kind == Known && r.entry.Some? && r.mac.Some? && r.entry.value !in known
      then rest[r.entry.value := r.mac.value] else rest
  }

  // -------------------------------------------------------------------
  // One round

  /** What an ARP list and a dict of entries are. */
  ghost predicate WellFormed(neighbors: seq<Neighbor>, items: seq<Item>) {
    && (forall i, j | 0 <= i < j < |neighbors| ::
          neighbors[i].ip != neighbors[j].ip && neighbors[i].mac != neighbors[j].mac)
    && (forall i, j | 0 <= i < j < |items| :: items[i].entry != items[j].entry)
  }

  lemma SameDevice(neighbors: seq<Neighbor>, items: seq<Item>, a: Neighbor, b: Neighbor)
    requires WellFormed(neighbors, items) && a in neighbors && b in neighbors
    requires a.ip == b.ip || a.mac == b.mac
    ensures a == b
  {
    var i :| 0 <= i < |neighbors| && neighbors[i] == a;
    var j :| 0 <= j < |neighbors| && neighbors[j] == b;
    assert i == j;
  }

  /** For an entry with a trusted MAC the MAC alone decides: the entry is known as
      that device if it is present at whatever address, and unresolved otherwise. */
  lemma MacDecides(neighbors: seq<Neighbor>, items: seq<Item>, known: Macs, k: nat)
    requires WellFormed(neighbors, items) && k < |items| && items[k].entry in known
    ensures var row := Classified(neighbors, items, known)[k];
            var trusted := known[items[k].entry];
            && row.entry == Some(items[k].entry)
            && forall n | n in neighbors && n.mac == trusted :: row == Row(Some(trusted), Some(n.ip), row.entry, Known)
    ensures var row := Classified(neighbors, items, known)[k];
            (forall n | n in neighbors :: n.mac != known[items[k].entry]) ==>
              row == Row(None, items[k].ip, Some(items[k].entry), Unresolved)
  {
    forall n | n in neighbors && n.mac == known[items[k].entry]
      ensures Match(neighbors, items[k], known) == Some(n)
    {
      var m := Match(neighbors, items[k], known);
      assert m.Some?;
      SameDevice(neighbors, items, m.value, n);
    }
  }

  /** For an entry without a trusted MAC its address decides: it is known as the device
      there, and unresolved if it has no address or nothing is there. */
  lemma AddressDecides(neighbors: seq<Neighbor>, items: seq<Item>, known: Macs, k: nat)
    requires WellFormed(neighbors, items) && k < |items| && items[k].entry !in known
    ensures var row, item := Classified(neighbors, items, known)[k], items[k];
            && (forall n | n in neighbors && item.ip == Some(n.ip) && n.ip != "" ::
                  row == Row(Some(n.mac), Some(n.ip), Some(item.entry), Known))
            && ((forall n | n in neighbors :: item.ip != Some(n.ip) || n.ip == "") ==>
                  row == Row(None, item.ip, Some(item.entry), Unresolved))
  {
    forall n | n in neighbors && items[k].ip == Some(n.ip) && n.ip != ""
      ensures Match(neighbors, items[k], known) == Some(n)
    {
      SameDevice(neighbors, items, ByIp(neighbors, n.ip).value, n);
    }
  }

  /** Where the leftover rows come from. */
  lemma {:induction false} LeftoverOrigin(neighbors: seq<Neighbor>, items: seq<Item>, known: Macs, n: nat, row: Row)
    requires n <= |neighbors|
    ensures row in Leftovers(neighbors, items, known, n) <==>
            exists i | 0 <= i < n ::
              && !IsClaimed(neighbors, items, known, neighbors[i].ip)
              && row == Row(Some(neighbors[i].mac), Some(neighbors[i].ip), None,
                            if AnyUnresolved(neighbors, items, known) then Unverified else New)
  {
    if n > 0 {
      LeftoverOrigin(neighbors, items, known, n - 1, row);
    }
  }

  /** A device whose MAC is trusted for some inventory entry is not offered. */
  lemma TrustedNotOffered(neighbors: seq<Neighbor>, items: seq<Item>, known: Macs, k: nat, row: Row)
    requires WellFormed(neighbors, items) && k < |items| && items[k].entry in known
    requires row in Classified(neighbors, items, known) && (row.kind == New || row.kind == Unverified)
    ensures row.mac != Some(known[items[k].entry])
  {
    OfferedIsLeftover(neighbors, items, known, row);
    LeftoverOrigin(neighbors, items, known, |neighbors|, row);
    var i :| 0 <= i < |neighbors| && !IsClaimed(neighbors, items, known, neighbors[i].ip)
             && row.mac == Some(neighbors[i].mac);
    if neighbors[i].mac == known[items[k].entry] {
      var m := Match(neighbors, items[k], known);
      assert neighbors[i] in neighbors && m.Some?;
      SameDevice(neighbors, items, m.value, neighbors[i]);
    }
  }

  lemma OfferedIsLeftover(neighbors: seq<Neighbor>, items: seq<Item>, known: Macs, row: Row)
    requires row in Classified(neighbors, items, known) && (row.kind == New || row.kind == Unverified)
    ensures row in Leftovers(neighbors, items, known, |neighbors|)
  {
    var rows := Classified(neighbors, items, known);
    var i :| 0 <= i < |rows| && rows[i] == row;
    assert i >= |items|;
  }

  /** The rows without an entry are devices of the list: all new if every entry's row is
      known, and all unverified if some entry's row is unresolved. */
  lemma LeftoverKinds(neighbors: seq<Neighbor>, items: seq<Item>, known: Macs, row: Row)
    requires row in Classified(neighbors, items, known) && row.entry == None
    ensures var rows := Classified(neighbors, items, known);
            && (exists n | n in neighbors :: row.mac == Some(n.mac) && row.ip == Some(n.ip))
            && ((forall r | r in rows && r.entry.Some? :: r.kind == Known) ==> row.kind == New)
            && ((exists r | r in rows && r.entry.Some? :: r.kind == Unresolved) ==> row.kind == Unverified)
  {
    var rows := Classified(neighbors, items, known);
    var i :| 0 <= i < |rows| && rows[i] == row;
    assert i >= |items|;
    assert row in Leftovers(neighbors, items, known, |neighbors|);
    LeftoverOrigin(neighbors, items, known, |neighbors|, row);
    if AnyUnresolved(neighbors, items, known) {
      var k :| 0 <= k < |items| && Match(neighbors, items[k], known).None?;
      assert rows[k] in rows && rows[k].entry.Some? && rows[k].kind == Unresolved;
    }
    if r :| r in rows && r.entry.Some? && r.kind == Unresolved {
      var k :| 0 <= k < |rows| && rows[k] == r;
      if k >= |items| {
        assert r in Leftovers(neighbors, items, known, |neighbors|);
        LeftoverOrigin(neighbors, items, known, |neighbors|, r);
      }
      assert k < |items| && r == RowOf(neighbors, items[k], known);
      assert Match(neighbors, items[k], known).None?;
    }
  }

  /** While an entry is unresolved, nothing is new. */
  lemma NothingNewWhileUnresolved(neighbors: seq<Neighbor>, items: seq<Item>, known: Macs, k: nat, row: Row)
    requires k < |items| && Classified(neighbors, items, known)[k].kind == Unresolved
    requires row in Classified(neighbors, items, known)
    ensures row.kind != New
  {
    assert Match(neighbors, items[k], known).None?;
    if row.kind == New {
      OfferedIsLeftover(neighbors, items, known, row);
      LeftoverOrigin(neighbors, items, known, |neighbors|, row);
    }
  }

  /** How many leftover rows are for this device. */
  function Listed(rows: seq<Row>, d: Neighbor): nat {
    if rows == [] then 0
    else Listed(rows[..|rows| - 1], d) +
         if rows[|rows| - 1].mac == Some(d.mac) && rows[|rows| - 1].ip == Some(d.ip) then 1 else 0
  }

  lemma ListedNext(rows: seq<Row>, last: Row, d: Neighbor)
    ensures Listed(rows + [last], d) ==
            Listed(rows, d) + if last.mac == Some(d.mac) && last.ip == Some(d.ip) then 1 else 0
  {
    assert (rows + [last])[..|rows|] == rows;
  }

  lemma LeftoversNext(neighbors: seq<Neighbor>, items: seq<Item>, known: Macs, n: nat, d: Neighbor)
    requires 0 < n <= |neighbors|
    ensures var last := neighbors[n - 1];
            Listed(Leftovers(neighbors, items, known, n), d) ==
            Listed(Leftovers(neighbors, items, known, n - 1), d) +
            if !IsClaimed(neighbors, items, known, last.ip) && last == d then 1 else 0
  {
    var rest := Leftovers(neighbors, items, known, n - 1);
    var all := Leftovers(neighbors, items, known, n);
    if !IsClaimed(neighbors, items, known, neighbors[n - 1].ip) {
      ListedNext(rest, all[|rest|], d);
    }
  }

  lemma {:induction false} ListedCount(neighbors: seq<Neighbor>, items: seq<Item>, known: Macs, n: nat, i: nat)
    requires n <= |neighbors| && i < |neighbors|
    requires forall j | 0 <= j < |neighbors| && neighbors[j] == neighbors[i] :: j == i
    ensures Listed(Leftovers(neighbors, items, known, n), neighbors[i]) ==
            if i < n && !IsClaimed(neighbors, items, known, neighbors[i].ip) then 1 else 0
  {
    if n > 0 {
      ListedCount(neighbors, items, known, n - 1, i);
      LeftoversNext(neighbors, items, known, n, neighbors[i]);
    }
  }

  /** A device is claimed exactly when an entry's row shows it. */
  lemma ClaimedIffShown(neighbors: seq<Neighbor>, items: seq<Item>, known: Macs, d: Neighbor)
    requires WellFormed(neighbors, items) && d in neighbors
    ensures IsClaimed(neighbors, items, known, d.ip) <==>
            exists k | 0 <= k < |items| ::
              Classified(neighbors, items, known)[k] == Row(Some(d.mac), Some(d.ip), Some(items[k].entry), Known)
  {
    var rows := Classified(neighbors, items, known);
    if IsClaimed(neighbors, items, known, d.ip) {
      var k :| 0 <= k < |items| && Match(neighbors, items[k], known).Some?
               && Match(neighbors, items[k], known).value.ip == d.ip;
      SameDevice(neighbors, items, Match(neighbors, items[k], known).value, d);
      assert rows[k] == Row(Some(d.mac), Some(d.ip), Some(items[k].entry), Known);
    }
  }

  /** Every device is claimed by an entry's row or listed exactly once, not both. */
  lemma ClaimedOrListedOnce(neighbors: seq<Neighbor>, items: seq<Item>, known: Macs, i: nat)
    requires WellFormed(neighbors, items) && i < |neighbors|
    ensures var d := neighbors[i];
            var claimed := exists k | 0 <= k < |items| ::
              Classified(neighbors, items, known)[k] == Row(Some(d.mac), Some(d.ip), Some(items[k].entry), Known);
            Listed(Leftovers(neighbors, items, known, |neighbors|), d) == if claimed then 0 else 1
  {
    ClaimedIffShown(neighbors, items, known, neighbors[i]);
    ListedCount(neighbors, items, known, |neighbors|, i);
  }

  // -------------------------------------------------------------------
  // What a round learns

  lemma {:induction false} LearnedFrom(rows: seq<Row>, known: Macs, e: string)
    ensures e in Learned(rows, known) ==>
              e !in known && exists k | 0 <= k < |rows| ::
                rows[k].kind == Known && rows[k].entry == Some(e) && rows[k].mac == Some(Learned(rows, known)[e])
    ensures e !in known
            && (exists k | 0 <= k < |rows| :: rows[k].kind == Known && rows[k].entry == Some(e) && rows[k].mac.Some?)
            ==> e in Learned(rows, known)
  {
    if rows != [] {
      var n := |rows| - 1;
      LearnedFrom(rows[..n], known, e);
      if e in Learned(rows[..n], known) && rows[n].entry != Some(e) {
        var k :| 0 <= k < n && rows[..n][k].kind == Known && rows[..n][k].entry == Some(e)
                 && rows[..n][k].mac == Some(Learned(rows[..n], known)[e]);
        assert rows[k] == rows[..n][k];
      }
      if k :| 0 <= k < |rows| && rows[k].kind == Known && rows[k].entry == Some(e) && rows[k].mac.Some? {
        if k < n {
          assert rows[..n][k] == rows[k];
        }
      }
    }
  }

  /** An entry without a trusted MAC learns the MAC of the device at its address,
      if there is one, and nothing else. */
  lemma LearnsByAddress(neighbors: seq<Neighbor>, items: seq<Item>, known: Macs, k: nat)
    requires WellFormed(neighbors, items) && k < |items| && items[k].entry !in known
    ensures var learned := Learned(Classified(neighbors, items, known), known);
            && (items[k].entry in learned <==>
                exists n | n in neighbors :: items[k].ip == Some(n.ip) && n.ip != "")
            && (forall n | n in neighbors && items[k].ip == Some(n.ip) && n.ip != "" ::
                  items[k].entry in learned && learned[items[k].entry] == n.mac)
  {
    var rows := Classified(neighbors, items, known);
    var e := items[k].entry;
    LearnedFrom(rows, known, e);
    assert rows[k] == RowOf(neighbors, items[k], known);
    if e in Learned(rows, known) {
      var j :| 0 <= j < |rows| && rows[j].kind == Known && rows[j].entry == Some(e)
               && rows[j].mac == Some(Learned(rows, known)[e]);
      if j >= |items| {
        assert rows[j] in Leftovers(neighbors, items, known, |neighbors|);
        LeftoverOrigin(neighbors, items, known, |neighbors|, rows[j]);
      }
      assert j < |items| && rows[j] == RowOf(neighbors, items[j], known);
      assert j == k;
    }
  }

  /** Two entries learned in one round get the same MAC exactly when their
      addresses are the same: the first use cannot tell two such entries apart. */
  lemma SharedBinding(neighbors: seq<Neighbor>, items: seq<Item>, known: Macs, a: nat, b: nat)
    requires WellFormed(neighbors, items) && a < b < |items|
    requires items[a].entry !in known && items[b].entry !in known
    requires var learned := Learned(Classified(neighbors, items, known), known);
             items[a].entry in learned && items[b].entry in learned
    ensures var learned := Learned(Classified(neighbors, items, known), known);
            learned[items[a].entry] == learned[items[b].entry] <==> items[a].ip == items[b].ip
  {
    LearnsByAddress(neighbors, items, known, a);
    LearnsByAddress(neighbors, items, known, b);
    var da, db := Candidate(neighbors, items[a].ip).value, Candidate(neighbors, items[b].ip).value;
    if da.mac == db.mac {
      SameDevice(neighbors, items, da, db);
    }
  }

  /** Such a round: one device behind the address of two entries binds both. */
  lemma BothLearnOneMac(ip: string, mac: string, e: string, f: string)
    requires ip != "" && e != f
    ensures var neighbors, items := [Neighbor(ip, mac)], [Item(e, Some(ip)), Item(f, Some(ip))];
            && WellFormed(neighbors, items)
            && Learned(Classified(neighbors, items, map[]), map[]) == map[e := mac, f := mac]
  {
    var neighbors, items := [Neighbor(ip, mac)], [Item(e, Some(ip)), Item(f, Some(ip))];
    var learned := Learned(Classified(neighbors, items, map[]), map[]);
    assert Candidate(neighbors, Some(ip)) == Some(neighbors[0]);
    LearnsByAddress(neighbors, items, map[], 0);
    LearnsByAddress(neighbors, items, map[], 1);
    assert items[0].entry in learned && items[1].entry in learned;
    forall other | other in learned
      ensures other in {e, f}
    {
      LearnedFrom(Classified(neighbors, items, map[]), map[], other);
      OnlyEntries(neighbors, items, map[], other);
    }
  }

  lemma OnlyEntries(neighbors: seq<Neighbor>, items: seq<Item>, known: Macs, e: string)
    requires exists k | 0 <= k < |Classified(neighbors, items, known)| ::
               Classified(neighbors, items, known)[k].kind == Known &&
               Classified(neighbors, items, known)[k].entry == Some(e)
    ensures exists k | 0 <= k < |items| :: items[k].entry == e
  {
    var rows := Classified(neighbors, items, known);
    var k :| 0 <= k < |rows| && rows[k].kind == Known && rows[k].entry == Some(e);
    if k >= |items| {
      assert rows[k] in Leftovers(neighbors, items, known, |neighbors|);
      LeftoverOrigin(neighbors, items, known, |neighbors|, rows[k]);
    }
    assert k < |items| && rows[k] == RowOf(neighbors, items[k], known);
  }

  // -------------------------------------------------------------------
  // Many rounds

  datatype Round = Round(neighbors: seq<Neighbor>, items: seq<Item>)

  function LearnedIn(r: Round, known: Macs): Macs {
    Learned(Classified(r.neighbors, r.items, known), known)
  }

  /** The bindings on file before round `i`. */
  function KnownBefore(start: Macs, rounds: seq<Round>, i: nat): Macs
    requires i <= |rounds|
  {
    if i == 0 then start
    else
      var known := KnownBefore(start, rounds, i - 1);
      known + LearnedIn(rounds[i - 1], known)
  }

  lemma KnownStays(r: Round, known: Macs, e: string)
    requires e in known
    ensures e !in LearnedIn(r, known)
  {
    LearnedFrom(Classified(r.neighbors, r.items, known), known, e);
  }

  /** From the round after the one that finds a device at the address of an entry without
      a binding, the entry is bound to that device's MAC. */
  lemma FirstUseBinds(start: Macs, rounds: seq<Round>, i: nat, j: nat, k: nat, n: Neighbor)
    requires i < j <= |rounds| && WellFormed(rounds[i].neighbors, rounds[i].items) && k < |rounds[i].items|
    requires rounds[i].items[k].entry !in KnownBefore(start, rounds, i)
    requires n in rounds[i].neighbors && rounds[i].items[k].ip == Some(n.ip) && n.ip != ""
    ensures var e := rounds[i].items[k].entry;
            e in KnownBefore(start, rounds, j) && KnownBefore(start, rounds, j)[e] == n.mac
  {
    LearnsByAddress(rounds[i].neighbors, rounds[i].items, KnownBefore(start, rounds, i), k);
    BindingsNeverChange(start, rounds, i + 1, j, rounds[i].items[k].entry);
  }

  /** A binding, once on file, never changes. */
  lemma {:induction false} BindingsNeverChange(start: Macs, rounds: seq<Round>, i: nat, j: nat, e: string)
    requires i <= j <= |rounds| && e in KnownBefore(start, rounds, i)
    ensures e in KnownBefore(start, rounds, j)
    ensures KnownBefore(start, rounds, j)[e] == KnownBefore(start, rounds, i)[e]
  {
    if i < j {
      BindingsNeverChange(start, rounds, i, j - 1, e);
      KnownStays(rounds[j - 1], KnownBefore(start, rounds, j - 1), e);
    }
  }

  /** Over any run: from the round after a MAC was learned for an entry, it is never
      offered as new or unverified in a round whose inventory has the entry, and
      no other device is ever shown as that entry. */
  lemma TrustHolds(start: Macs, rounds: seq<Round>, i: nat, j: nat, k: nat, row: Row)
    requires i <= j < |rounds| && WellFormed(rounds[j].neighbors, rounds[j].items)
    requires k < |rounds[j].items| && rounds[j].items[k].entry in KnownBefore(start, rounds, i)
    requires row in Classified(rounds[j].neighbors, rounds[j].items, KnownBefore(start, rounds, j))
    ensures var trusted := KnownBefore(start, rounds, i)[rounds[j].items[k].entry];
            && (row.kind == New || row.kind == Unverified ==> row.mac != Some(trusted))
            && (row.entry == Some(rounds[j].items[k].entry) && row.kind == Known ==> row.mac == Some(trusted))
  {
    var r := rounds[j];
    var known := KnownBefore(start, rounds, j);
    var e := r.items[k].entry;
    BindingsNeverChange(start, rounds, i, j, e);
    if row.kind == New || row.kind == Unverified {
      TrustedNotOffered(r.neighbors, r.items, known, k, row);
    }
    if row.entry == Some(e) && row.kind == Known {
      var rows := Classified(r.neighbors, r.items, known);
      var m :| 0 <= m < |rows| && rows[m] == row;
      if m >= |r.items| {
        assert row in Leftovers(r.neighbors, r.items, known, |r.neighbors|);
        LeftoverOrigin(r.neighbors, r.items, known, |r.neighbors|, row);
      }
      assert m < |r.items| && rows[m] == RowOf(r.neighbors, r.items[m], known);
      assert m == k;
    }
  }
}
