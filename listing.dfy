/** What the store's `findMany` gives back: rows in id order, `orderBy` on several
    columns, and JavaScript's `Array.prototype.slice` used for pagination. */
module Listing {
  import opened Types
  import opened Text

  /** Ids in a table are autoincrement values from 1; a `findMany` without `orderBy`
      is taken to return them in ascending order. */
  function IdsBelow<T>(table: map<int, T>, next: int): (ids: seq<int>)
    ensures forall i, j :: 0 <= i < j < |ids| ==> ids[i] < ids[j]
    ensures forall id :: id in ids <==> id in table && 1 <= id < next
    decreases next
  {
    if next <= 1 then []
    else
      var prefix := IdsBelow(table, next - 1);
      assert forall i :: 0 <= i < |prefix| ==> prefix[i] in prefix && prefix[i] < next - 1;
      prefix + (if next - 1 in table then [next - 1] else [])
  }

  predicate Increasing(ids: seq<int>)
  {
    forall i, j :: 0 <= i < j < |ids| ==> ids[i] < ids[j]
  }

  /** `ids` holds every key of `table` exactly once, in ascending order. */
  ghost predicate ListsEachOnce<T>(ids: seq<int>, table: map<int, T>)
  {
    Increasing(ids) && forall id :: id in ids <==> id in table
  }

  /** With every id below `next`, `IdsBelow` lists the whole table. */
  lemma IdsBelowListsEachOnce<T>(table: map<int, T>, next: int)
    requires forall id :: id in table ==> 1 <= id < next
    ensures ListsEachOnce(IdsBelow(table, next), table)
  {
  }

  /** The columns of an `orderBy: [time, name, description, id]` clause, all ascending;
      societies are ordered with `time` fixed at 0. */
  datatype SortKey = SortKey(time: int, name: string, description: string, id: int)

  predicate KeyLt(a: SortKey, b: SortKey)
  {
    || a.time < b.time
    || (a.time == b.time && StrLt(a.name, b.name))
    || (a.time == b.time && a.name == b.name && StrLt(a.description, b.description))
    || (a.time == b.time && a.name == b.name && a.description == b.description && a.id < b.id)
  }

  lemma KeyLtIrreflexive(a: SortKey)
    ensures !KeyLt(a, a)
  {
    StrLtIrreflexive(a.name);
    StrLtIrreflexive(a.description);
  }

  lemma KeyLtTransitive(a: SortKey, b: SortKey, c: SortKey)
    requires KeyLt(a, b) && KeyLt(b, c)
    ensures KeyLt(a, c)
  {
    if a.time == b.time == c.time {
      if StrLt(a.name, b.name) && StrLt(b.name, c.name) {
        StrLtTransitive(a.name, b.name, c.name);
      }
      if a.name == b.name == c.name
        && StrLt(a.description, b.description) && StrLt(b.description, c.description)
      {
        StrLtTransitive(a.description, b.description, c.description);
      }
    }
  }

  lemma KeyLtTrichotomy(a: SortKey, b: SortKey)
    ensures KeyLt(a, b) || a == b || KeyLt(b, a)
  {
    StrLtTrichotomy(a.name, b.name);
    StrLtTrichotomy(a.description, b.description);
  }

  predicate SortedKeys(ks: seq<SortKey>)
  {
    forall i, j :: 0 <= i < j < |ks| ==> KeyLt(ks[i], ks[j])
  }

  function Insert(k: SortKey, ks: seq<SortKey>): (r: seq<SortKey>)
    ensures multiset(r) == multiset(ks) + multiset{k}
  {
    if ks == [] || KeyLt(k, ks[0]) then [k] + ks
    else
      assert ks == [ks[0]] + ks[1..];
      [ks[0]] + Insert(k, ks[1..])
  }

  lemma {:induction false} InsertSorted(k: SortKey, ks: seq<SortKey>)
    requires SortedKeys(ks)
    requires k !in ks
    ensures SortedKeys(Insert(k, ks))
  {
    if ks == [] {
    } else if KeyLt(k, ks[0]) {
      forall j | 0 < j < |ks| ensures KeyLt(k, ks[j]) {
        KeyLtTransitive(k, ks[0], ks[j]);
      }
    } else {
      KeyLtTrichotomy(k, ks[0]);
      InsertSorted(k, ks[1..]);
      var tail := Insert(k, ks[1..]);
      forall j | 0 <= j < |tail| ensures KeyLt(ks[0], tail[j]) {
        assert tail[j] in multiset(tail);
        assert tail[j] == k || tail[j] in ks[1..];
      }
    }
  }

  predicate Distinct<T(==)>(s: seq<T>)
  {
    forall i, j :: 0 <= i < j < |s| ==> s[i] != s[j]
  }

  /** Insertion sort into strictly increasing key order. */
  function SortKeys(ks: seq<SortKey>): (r: seq<SortKey>)
    requires Distinct(ks)
    ensures SortedKeys(r)
    ensures multiset(r) == multiset(ks)
  {
    if ks == [] then []
    else
      var rest := SortKeys(ks[1..]);
      assert ks == [ks[0]] + ks[1..];
      assert ks[0] !in multiset(ks[1..]);
      assert ks[0] !in multiset(rest);
      InsertSorted(ks[0], rest);
      Insert(ks[0], rest)
  }

  /** The elements of `s` that satisfy `keep`, in their original order. */
  function Filter(s: seq<int>, keep: int -> bool): (r: seq<int>)
    ensures forall x :: x in r <==> x in s && keep(x)
    ensures Increasing(s) ==> Increasing(r)
  {
    if s == [] then []
    else
      var rest := Filter(s[1..], keep);
      assert forall x :: x in rest ==> x in s[1..];
      if keep(s[0]) then
        var r := [s[0]] + rest;
        assert Increasing(s) ==> Increasing(r) by {
          if Increasing(s) {
            assert forall k :: 0 <= k < |s[1..]| ==> s[0] < s[1..][k];
            forall i, j | 0 <= i < j < |r| ensures r[i] < r[j] {
              if i == 0 {
                assert r[j] == rest[j - 1] && rest[j - 1] in s[1..];
              }
            }
          }
        }
        r
      else rest
  }

  /** The sort key of every id in `ids`. */
  function KeysOf(ids: seq<int>, key: int -> SortKey): (keys: seq<SortKey>)
    requires Increasing(ids)
    requires forall id :: key(id).id == id
    ensures |keys| == |ids| && forall i :: 0 <= i < |ids| ==> keys[i] == key(ids[i])
    ensures Distinct(keys)
  {
    var keys := seq(|ids|, i requires 0 <= i < |ids| => key(ids[i]));
    assert forall i, j :: 0 <= i < j < |keys| ==> keys[i].id < keys[j].id;
    keys
  }

  /** The id carried by every key in `keys`. */
  function IdsOf(keys: seq<SortKey>): (ids: seq<int>)
    ensures |ids| == |keys| && forall i :: 0 <= i < |keys| ==> ids[i] == keys[i].id
  {
    seq(|keys|, i requires 0 <= i < |keys| => keys[i].id)
  }

  lemma SameElements(a: seq<SortKey>, b: seq<SortKey>)
    requires multiset(a) == multiset(b)
    ensures forall k :: k in a <==> k in b
  {
    forall k ensures k in a <==> k in b {
      assert k in a <==> k in multiset(a);
      assert k in b <==> k in multiset(b);
    }
  }

  /** A `findMany` with a `where` filter and an `orderBy` clause: the candidate ids that
      satisfy `keep`, in strictly increasing `key` order; `key` carries each row's id. */
  function SelectOrdered(candidates: seq<int>, keep: int -> bool, key: int -> SortKey): (ids: seq<int>)
    requires Increasing(candidates)
    requires forall id :: key(id).id == id
    ensures forall id :: id in ids <==> id in candidates && keep(id)
    ensures forall i, j :: 0 <= i < j < |ids| ==> KeyLt(key(ids[i]), key(ids[j]))
  {
    var kept := Filter(candidates, keep);
    var keys := KeysOf(kept, key);
    var sorted := SortKeys(keys);
    SameElements(sorted, keys);
    var ids := IdsOf(sorted);
    SelectOrderedMembers(kept, keys, sorted, ids, key);
    ids
  }

  lemma SelectOrderedMembers(kept: seq<int>, keys: seq<SortKey>, sorted: seq<SortKey>, ids: seq<int>, key: int -> SortKey)
    requires forall id :: key(id).id == id
    requires |keys| == |kept| && forall i :: 0 <= i < |kept| ==> keys[i] == key(kept[i])
    requires forall k :: k in sorted <==> k in keys
    requires SortedKeys(sorted)
    requires |ids| == |sorted| && forall i :: 0 <= i < |sorted| ==> ids[i] == sorted[i].id
    ensures forall id :: id in ids <==> id in kept
    ensures forall i, j :: 0 <= i < j < |ids| ==> KeyLt(key(ids[i]), key(ids[j]))
  {
    forall i | 0 <= i < |sorted| ensures key(ids[i]) == sorted[i] {
      assert sorted[i] in keys;
      var j :| 0 <= j < |keys| && keys[j] == sorted[i];
      assert sorted[i].id == kept[j];
    }
    forall id ensures id in ids <==> id in kept {
      if id in kept {
        var i :| 0 <= i < |kept| && kept[i] == id;
        assert keys[i] in sorted;
        var j :| 0 <= j < |sorted| && sorted[j] == keys[i];
        assert ids[j] == id;
      }
      if id in ids {
        var j :| 0 <= j < |ids| && ids[j] == id;
        assert sorted[j] in keys;
        var i :| 0 <= i < |keys| && keys[i] == sorted[j];
        assert kept[i] == id;
      }
    }
  }

  /** `s.slice(start, end)` for non-negative `start` and `end`. */
  function Slice<T>(s: seq<T>, start: int, end: int): (r: seq<T>)
    requires start >= 0 && end >= 0
    ensures start <= end <= |s| ==> |r| == end - start
    ensures |r| <= |s| && (end <= start ==> r == [])
    ensures forall i :: 0 <= i < |r| ==> start + i < |s| && r[i] == s[start + i]
  {
    var lo := if start < |s| then start else |s|;
    var hi := if end < |s| then end else |s|;
    if lo < hi then s[lo..hi] else []
  }

  /** The handlers slice only when both bounds are present and non-negative
      (`parseInt` of a missing bound is NaN, which compares false). */
  predicate Paginated(start: Option<int>, end: Option<int>)
  {
    start.Some? && end.Some? && start.value >= 0 && end.value >= 0
  }

  function Min(a: int, b: int): int { if a < b then a else b }

  /** The first index of the page within a listing of `n` rows. */
  function PageLo(n: nat, start: Option<int>, end: Option<int>): (lo: nat)
    ensures lo <= n
  {
    if Paginated(start, end) then Min(start.value, n) else 0
  }

  /** One past the last index of the page within a listing of `n` rows. */
  function PageHi(n: nat, start: Option<int>, end: Option<int>): (hi: nat)
    ensures PageLo(n, start, end) <= hi <= n
  {
    if !Paginated(start, end) then n
    else if Min(end.value, n) < PageLo(n, start, end) then PageLo(n, start, end)
    else Min(end.value, n)
  }

  /** Pagination as the handlers apply it: the rows from `start` up to `end`, both
      clamped to the listing, and nothing when `end` does not exceed `start`. */
  function Paginate<T>(s: seq<T>, start: Option<int>, end: Option<int>): (r: seq<T>)
    ensures !Paginated(start, end) ==> r == s
    ensures Paginated(start, end) && start.value <= end.value <= |s| ==> |r| == end.value - start.value
    ensures Paginated(start, end) && end.value <= start.value ==> r == []
    ensures r == s[PageLo(|s|, start, end)..PageHi(|s|, start, end)]
  {
    if Paginated(start, end) then Slice(s, start.value, end.value) else s
  }

  /** An event as the listing handlers return it. */
  datatype EventInfo = EventInfo(eventId: int, name: string, description: string, time: int, location: string, societyId: int)

  function EventInfoOf(id: int, e: Event): EventInfo
  {
    EventInfo(id, e.name, e.description, e.time, e.location, e.societyId)
  }

  /** The `orderBy: [time, name, description, id]` key of a listed event. */
  function EventKey(info: EventInfo): SortKey
  {
    SortKey(info.time, info.name, info.description, info.eventId)
  }

  /** The sort key of event `id` in `events`, total over ids so that it can be passed around. */
  function EventKeyIn(events: map<int, Event>, id: int): (k: SortKey)
    ensures k.id == id
    ensures id in events ==> k == EventKey(EventInfoOf(id, events[id]))
  {
    if id in events then EventKey(EventInfoOf(id, events[id])) else SortKey(0, "", "", id)
  }

  function EventIds(infos: seq<EventInfo>): (ids: seq<int>)
    ensures |ids| == |infos| && forall i :: 0 <= i < |infos| ==> ids[i] == infos[i].eventId
  {
    seq(|infos|, i requires 0 <= i < |infos| => infos[i].eventId)
  }

  /** Events listed in order, each as stored. */
  ghost predicate EventsInOrder(infos: seq<EventInfo>, events: map<int, Event>)
  {
    && (forall i :: 0 <= i < |infos| ==> infos[i].eventId in events && infos[i] == EventInfoOf(infos[i].eventId, events[infos[i].eventId]))
    && (forall i, j :: 0 <= i < j < |infos| ==> KeyLt(EventKey(infos[i]), EventKey(infos[j])))
  }

  /** The infos of `ids`, which `SelectOrdered` has put in key order. */
  function EventInfosOf(events: map<int, Event>, ids: seq<int>): (infos: seq<EventInfo>)
    requires forall i :: 0 <= i < |ids| ==> ids[i] in events
    requires forall i, j :: 0 <= i < j < |ids| ==> KeyLt(EventKeyIn(events, ids[i]), EventKeyIn(events, ids[j]))
    ensures EventIds(infos) == ids
    ensures EventsInOrder(infos, events)
  {
    var infos := seq(|ids|, i requires 0 <= i < |ids| => EventInfoOf(ids[i], events[ids[i]]));
    assert EventIds(infos) == ids;
    assert forall i :: 0 <= i < |ids| ==> EventKey(infos[i]) == EventKeyIn(events, ids[i]);
    infos
  }
}
