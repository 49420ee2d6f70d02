/** Bounded tables: `ring_evict` deletes the oldest rows status by status. The
    same loop guards three tables: the record inbox (sent, failed, received), the
    event inbox (sent, received) and the detector's buffer (acked, sent, pending). */
module Eviction {
  import opened Text

  type Id = string

  /** Where a row stands: the position of its status in the eviction order, and
      the time the query sorts by. */
  datatype Place = Place(rank: nat, time: int)

  type Places = map<Id, Place>

  predicate NotAfter(a: Place, b: Place) {
    a.rank < b.rank || (a.rank == b.rank && a.time <= b.time)
  }

  /** `gone` are first rows of the table sorted by status rank and time. */
  ghost predicate OldestFirst(places: Places, gone: set<Id>) {
    && gone <= places.Keys
    && forall id, other | id in gone && other in places && other !in gone :: NotAfter(places[id], places[other])
  }

  /** How many rows have to go. */
  function Excess(count: nat, maxRows: int): nat {
    if count <= maxRows then 0 else if maxRows < 0 then count else count - maxRows
  }

  // -------------------------------------------------------------------
  // One sort of the whole table

  /** `order` lists the table, each row once, by status rank and time; rows that
      tie come out in any order. */
  ghost predicate Sorted(places: Places, order: seq<Id>) {
    && (forall id :: id in order <==> id in places)
    && (forall i, j | 0 <= i < j < |order| :: order[i] != order[j] && NotAfter(places[order[i]], places[order[j]]))
  }

  function Ids(s: seq<Id>): set<Id> { set id | id in s }

  function Without<Row>(rows: map<Id, Row>, gone: set<Id>): map<Id, Row> {
    map id | id in rows && id !in gone :: rows[id]
  }

  lemma {:induction false} OldestExists(places: Places, among: set<Id>) returns (id: Id)
    requires among != {} && among <= places.Keys
    ensures id in among
    ensures forall other | other in among :: NotAfter(places[id], places[other])
    decreases among
  {
    id :| id in among;
    if among != {id} {
      var next := OldestExists(places, among - {id});
      if !NotAfter(places[id], places[next]) {
        id := next;
      }
    }
  }

  lemma {:induction false} SortExists(places: Places) returns (order: seq<Id>)
    ensures Sorted(places, order)
    decreases places.Keys
  {
    if places == map[] {
      order := [];
    } else {
      var id := OldestExists(places, places.Keys);
      var rest := Without(places, {id});
      var tail := SortExists(rest);
      order := [id] + tail;
    }
  }

  lemma SortedConcat(places: Places, gone: set<Id>, first: seq<Id>, second: seq<Id>)
    requires OldestFirst(places, gone)
    requires Sorted(map id | id in gone :: places[id], first)
    requires Sorted(Without(places, gone), second)
    ensures Sorted(places, first + second) && Ids(first) == gone
  {
    var order := first + second;
    forall id
      ensures id in order <==> id in places
    {
      assert id in order <==> id in first || id in second;
    }
    forall i, j | 0 <= i < j < |order|
      ensures order[i] in places && order[j] in places
      ensures order[i] != order[j] && NotAfter(places[order[i]], places[order[j]])
    {
      assert order[i] in order && order[j] in order;
      if i < |first| <= j {
        assert first[i] in first && second[j - |first|] in second;
      } else if i >= |first| {
        assert order[i] == second[i - |first|] && order[j] == second[j - |first|];
      }
    }
  }

  lemma PrefixIsOldestFirst(places: Places, order: seq<Id>, n: nat)
    requires Sorted(places, order) && n <= |order|
    ensures OldestFirst(places, Ids(order[..n]))
  {
    forall id, other | id in Ids(order[..n]) && other in places && other !in Ids(order[..n])
      ensures NotAfter(places[id], places[other])
    {
      var i :| 0 <= i < n && order[..n][i] == id;
      var j :| 0 <= j < |order| && order[j] == other;
    }
  }

  /** `gone` is oldest-first exactly when some sort of the whole table starts with it. */
  lemma OldestFirstIsPrefix(places: Places, gone: set<Id>)
    ensures OldestFirst(places, gone) <==>
            exists order: seq<Id>, n: nat :: n <= |order| && Sorted(places, order) && Ids(order[..n]) == gone
  {
    if OldestFirst(places, gone) {
      var first := SortExists(map id | id in gone :: places[id]);
      var second := SortExists(Without(places, gone));
      SortedConcat(places, gone, first, second);
      assert (first + second)[..|first|] == first;
    }
    if order, n: nat :| n <= |order| && Sorted(places, order) && Ids(order[..n]) == gone {
      PrefixIsOldestFirst(places, order, n);
    }
  }

  /** With all times of a status distinct there is only one such set of each size. */
  lemma OldestFirstUnique(places: Places, a: set<Id>, b: set<Id>)
    requires OldestFirst(places, a) && OldestFirst(places, b) && |a| == |b|
    requires forall i, j | i in places && j in places && i != j :: places[i] != places[j]
    ensures a == b
  {
    if a - b != {} && b - a != {} {
      assert false;
    } else if a - b == {} {
      SubsetOfSize(a, b);
    } else {
      SubsetOfSize(b, a);
    }
  }

  lemma SubsetOfSize<T>(a: set<T>, b: set<T>)
    requires a - b == {} && |a| == |b|
    ensures a == b
  {
    assert a <= b;
    assert |b - a| == |b| - |a|;
    if b - a != {} {
      assert false;
    }
    assert b - a == {};
    assert a == b;
  }

  /** Rows of the last status go only when everything else has gone: with `kept`
      of them present, exactly `kept - maxRows` go if that is positive, else none. */
  lemma LastStatusEvicted(places: Places, gone: set<Id>, last: nat, maxRows: nat)
    requires OldestFirst(places, gone) && |gone| == Excess(|places.Keys|, maxRows)
    requires forall id | id in places :: places[id].rank <= last
    ensures var kept := set id | id in places && places[id].rank == last;
            |gone * kept| == Excess(|kept|, maxRows)
  {
    var kept := set id | id in places && places[id].rank == last;
    var other := places.Keys - kept;
    assert |places.Keys| == |kept| + |other| by {
      assert places.Keys == kept + other;
    }
    assert gone == (gone * kept) + (gone * other);
    assert |gone| == |gone * kept| + |gone * other|;
    Subset(gone * kept, kept);
    Subset(gone * other, other);
    if gone * kept != {} {
      var id :| id in gone * kept;
      forall o | o in other ensures o in gone {}
      assert gone * other == other;
    }
  }

  lemma Subset<T>(a: set<T>, b: set<T>)
    requires a <= b
    ensures |a| <= |b|
  {
    assert b == a + (b - a);
    assert |b| == |a| + |b - a|;
  }

  // -------------------------------------------------------------------
  // The code

  method Oldest(places: Places, among: set<Id>) returns (id: Id)
    requires among != {} && among <= places.Keys
    ensures id in among
    ensures forall other | other in among :: NotAfter(places[id], places[other])
  {
    id :| id in among;
    var rest := among - {id};
    while rest != {}
      invariant rest < among && id in among - rest
      invariant forall other | other in among - rest :: NotAfter(places[id], places[other])
      decreases |rest|
    {
      var next :| next in rest;
      if !NotAfter(places[id], places[next]) {
        id := next;
      }
      rest := rest - {next};
    }
  }

  /** `SELECT ... ORDER BY time LIMIT limit` over the rows of one status. */
  method SelectOldest(places: Places, limit: nat) returns (ids: set<Id>)
    ensures OldestFirst(places, ids)
    ensures |ids| == if limit < |places.Keys| then limit else |places.Keys|
  {
    ids := {};
    while |ids| < limit && ids != places.Keys
      invariant OldestFirst(places, ids)
      invariant |ids| <= limit
      invariant |places.Keys - ids| == |places.Keys| - |ids|
      decreases |places.Keys - ids|
    {
      assert places.Keys - ids != {};
      var id := Oldest(places, places.Keys - ids);
      assert places.Keys - (ids + {id}) == (places.Keys - ids) - {id};
      ids := ids + {id};
    }
    Subset(ids, places.Keys);
    if |ids| < limit {
      assert ids == places.Keys;
    }
  }

  /** `ORDER BY` without a limit. */
  method OrderBy(places: Places) returns (order: seq<Id>)
    ensures Sorted(places, order)
  {
    order := [];
    var rest := places.Keys;
    while rest != {}
      invariant rest <= places.Keys
      invariant Sorted(Without(places, rest), order)
      invariant forall id, other | id in places && id !in rest && other in rest :: NotAfter(places[id], places[other])
      decreases |rest|
    {
      var id := Oldest(places, rest);
      Appended(places, rest, order, id);
      order := order + [id];
      rest := rest - {id};
    }
    assert Without(places, {}) == places;
  }

  lemma Appended(places: Places, rest: set<Id>, order: seq<Id>, id: Id)
    requires Sorted(Without(places, rest), order) && id in rest && rest <= places.Keys
    requires forall other | other in places && other !in rest :: NotAfter(places[other], places[id])
    ensures Sorted(Without(places, rest - {id}), order + [id])
  {
    var all := Without(places, rest - {id});
    forall k
      ensures k in order + [id] <==> k in all
    {
      assert k in order + [id] <==> k in order || k == id;
    }
    forall i, j | 0 <= i < j < |order| + 1
      ensures (order + [id])[i] != (order + [id])[j]
      ensures NotAfter(all[(order + [id])[i]], all[(order + [id])[j]])
    {
      assert order[i] in order;
      if j < |order| {
        assert order[j] in order;
      }
    }
  }

  function Stage(places: Places, gone: set<Id>, stage: nat): Places {
    map id | id in places && id !in gone && places[id].rank == stage :: places[id]
  }

  lemma StageStep(places: Places, gone: set<Id>, stage: nat, ids: set<Id>, limit: nat)
    requires gone == set id | id in places && places[id].rank < stage
    requires OldestFirst(Stage(places, gone, stage), ids)
    requires var n := |Stage(places, gone, stage).Keys|; |ids| == if limit < n then limit else n
    ensures OldestFirst(places, gone + ids) && gone !! ids
    ensures |ids| < limit ==> gone + ids == set id | id in places && places[id].rank < stage + 1
  {
    var mine := Stage(places, gone, stage);
    if |ids| < limit {
      assert ids - mine.Keys == {};
      SubsetOfSize(ids, mine.Keys);
    }
  }

  /** The status-by-status loop removes exactly the first rows of one sort. */
  method RingEvict(places: Places, stages: nat, maxRows: int) returns (gone: set<Id>, deleted: nat)
    requires forall id | id in places :: places[id].rank < stages
    ensures OldestFirst(places, gone)
    ensures deleted == |gone| == Excess(|places.Keys|, maxRows)
  {
    deleted := 0;
    gone := {};
    var current := |places.Keys|;
    var toDelete: nat := if current <= maxRows then 0 else if maxRows < 0 then current else current - maxRows;
    var stage := 0;
    while stage < stages && toDelete > 0
      invariant stage <= stages
      invariant deleted == |gone| && deleted + toDelete == Excess(|places.Keys|, maxRows)
      invariant OldestFirst(places, gone)
      invariant toDelete > 0 ==> gone == set id | id in places && places[id].rank < stage
      decreases stages - stage
    {
      var ids := SelectOldest(Stage(places, gone, stage), toDelete);
      StageStep(places, gone, stage, ids, toDelete);
      gone := gone + ids;
      deleted := deleted + |ids|;
      toDelete := toDelete - |ids|;
      stage := stage + 1;
    }
    if toDelete > 0 {
      assert gone == places.Keys;
    }
  }
}
