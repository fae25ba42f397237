/**
 * Weekly weight records, weight goals, and the date orderings the weight pages sort
 * them by. An entry's date is the calendar day its ISO `week_start_date` names.
 */
module WeightData {
  import opened CalendarDates

  datatype WeightEntry = WeightEntry(id: string, userId: string, weekStart: Day, weightKg: real)

  /** What `addEntry` is given: an entry without its id. */
  datatype NewEntry = NewEntry(userId: string, weekStart: Day, weightKg: real)

  datatype WeightGoal = WeightGoal(userId: string, targetWeight: real, startDate: Day, startWeight: real)

  /** The sort key of the oldest-first ordering. */
  function Oldest(e: WeightEntry): int {
    DayNumber(e.weekStart)
  }

  /** The sort key of the newest-first ordering (`b - a`). */
  function Newest(e: WeightEntry): int {
    -DayNumber(e.weekStart)
  }

  predicate SortedBy(s: seq<WeightEntry>, key: WeightEntry -> int) {
    forall i, j :: 0 <= i < j < |s| ==> key(s[i]) <= key(s[j])
  }

  /** Puts `x` into a sorted list after every element whose key is not larger. */
  function Insert(x: WeightEntry, s: seq<WeightEntry>, key: WeightEntry -> int): (r: seq<WeightEntry>)
    requires SortedBy(s, key)
    ensures |r| == |s| + 1 && multiset(r) == multiset(s) + multiset{x}
    ensures forall i :: 0 <= i < |r| ==> r[i] == x || r[i] in s
    ensures SortedBy(r, key)
  {
    if s == [] then [x]
    else if key(x) < key(s[0]) then
      ConsSorted(x, s, key);
      [x] + s
    else
      var tail := s[1..];
      assert SortedBy(tail, key) by { TailSorted(s, key); }
      var rest := Insert(x, tail, key);
      HeadBelow(s[0], x, tail, rest, key);
      ConsSorted(s[0], rest, key);
      assert s == [s[0]] + tail;
      [s[0]] + rest
  }

  lemma TailSorted(s: seq<WeightEntry>, key: WeightEntry -> int)
    requires s != [] && SortedBy(s, key)
    ensures SortedBy(s[1..], key)
    ensures forall i :: 0 <= i < |s| ==> key(s[0]) <= key(s[i])
  {
    var t := s[1..];
    assert forall i :: 0 <= i < |t| ==> t[i] == s[i + 1];
  }

  /** A head whose key is not above any key of a sorted list keeps it sorted. */
  lemma ConsSorted(h: WeightEntry, s: seq<WeightEntry>, key: WeightEntry -> int)
    requires SortedBy(s, key)
    requires forall i :: 0 <= i < |s| ==> key(h) <= key(s[i])
    ensures SortedBy([h] + s, key)
  {
    var r := [h] + s;
    assert forall i :: 1 <= i < |r| ==> r[i] == s[i - 1];
  }

  lemma HeadBelow(h: WeightEntry, x: WeightEntry, tail: seq<WeightEntry>, rest: seq<WeightEntry>, key: WeightEntry -> int)
    requires key(h) <= key(x)
    requires forall i :: 0 <= i < |tail| ==> key(h) <= key(tail[i])
    requires forall i :: 0 <= i < |rest| ==> rest[i] == x || rest[i] in tail
    ensures forall i :: 0 <= i < |rest| ==> key(h) <= key(rest[i])
  {
    forall i | 0 <= i < |rest|
      ensures key(h) <= key(rest[i])
    {
      if rest[i] != x {
        var j :| 0 <= j < |tail| && tail[j] == rest[i];
      }
    }
  }

  /**
   * `[...s].sort((a, b) => key(a) - key(b))`: the same entries, ordered by the key. Each
   * entry is inserted after the equal-keyed ones before it, as a stable sort keeps them.
   */
  function SortBy(s: seq<WeightEntry>, key: WeightEntry -> int): (r: seq<WeightEntry>)
    ensures |r| == |s| && multiset(r) == multiset(s)
    ensures SortedBy(r, key)
  {
    if s == [] then []
    else
      var init := s[..|s| - 1];
      assert s == init + [s[|s| - 1]];
      Insert(s[|s| - 1], SortBy(init, key), key)
  }

  /** The oldest-first ordering. */
  function ByDate(s: seq<WeightEntry>): (r: seq<WeightEntry>)
    ensures |r| == |s| && multiset(r) == multiset(s)
    ensures forall i, j :: 0 <= i < j < |r| ==> DayNumber(r[i].weekStart) <= DayNumber(r[j].weekStart)
  {
    var r := SortBy(s, Oldest);
    assert forall i, j :: 0 <= i < j < |r| ==> Oldest(r[i]) <= Oldest(r[j]);
    r
  }

  /** The newest-first ordering. */
  function ByDateDescending(s: seq<WeightEntry>): (r: seq<WeightEntry>)
    ensures |r| == |s| && multiset(r) == multiset(s)
    ensures forall i, j :: 0 <= i < j < |r| ==> DayNumber(r[i].weekStart) >= DayNumber(r[j].weekStart)
  {
    var r := SortBy(s, Newest);
    assert forall i, j :: 0 <= i < j < |r| ==> Newest(r[i]) <= Newest(r[j]);
    r
  }

  /** Every entry of a list is an entry of its sorted copy, and the other way round. */
  lemma SameEntries(s: seq<WeightEntry>, r: seq<WeightEntry>)
    requires multiset(r) == multiset(s)
    ensures forall e :: e in s <==> e in r
  {
    forall e
      ensures e in s <==> e in r
    {
      assert e in s <==> e in multiset(s);
      assert e in r <==> e in multiset(r);
    }
  }

  /** The first entry of the oldest-first ordering is dated no later than any entry, the last no earlier. */
  lemma {:induction false} FirstIsOldest(s: seq<WeightEntry>)
    requires s != []
    ensures forall e :: e in s ==> DayNumber(ByDate(s)[0].weekStart) <= DayNumber(e.weekStart)
    ensures forall e :: e in s ==> DayNumber(e.weekStart) <= DayNumber(ByDate(s)[|s| - 1].weekStart)
    ensures ByDate(s)[0] in s && ByDate(s)[|s| - 1] in s
  {
    var r := ByDate(s);
    SameEntries(s, r);
    AscendingEnds(r);
    assert r[0] in r && r[|r| - 1] in r;
  }

  lemma AscendingEnds(r: seq<WeightEntry>)
    requires r != []
    requires forall i, j :: 0 <= i < j < |r| ==> DayNumber(r[i].weekStart) <= DayNumber(r[j].weekStart)
    ensures forall e :: e in r ==> DayNumber(r[0].weekStart) <= DayNumber(e.weekStart) <= DayNumber(r[|r| - 1].weekStart)
  {
    forall e | e in r
      ensures DayNumber(r[0].weekStart) <= DayNumber(e.weekStart) <= DayNumber(r[|r| - 1].weekStart)
    {
      var i :| 0 <= i < |r| && r[i] == e;
      if i > 0 {
        assert DayNumber(r[0].weekStart) <= DayNumber(r[i].weekStart);
      }
      if i < |r| - 1 {
        assert DayNumber(r[i].weekStart) <= DayNumber(r[|r| - 1].weekStart);
      }
    }
  }

  /** The first entry of the newest-first ordering is dated no earlier than any entry. */
  lemma {:induction false} FirstIsNewest(s: seq<WeightEntry>)
    requires s != []
    ensures forall e :: e in s ==> DayNumber(e.weekStart) <= DayNumber(ByDateDescending(s)[0].weekStart)
    ensures ByDateDescending(s)[0] in s
  {
    var r := ByDateDescending(s);
    SameEntries(s, r);
    DescendingHead(r);
    assert r[0] in r;
  }

  lemma DescendingHead(r: seq<WeightEntry>)
    requires r != []
    requires forall i, j :: 0 <= i < j < |r| ==> DayNumber(r[i].weekStart) >= DayNumber(r[j].weekStart)
    ensures forall e :: e in r ==> DayNumber(e.weekStart) <= DayNumber(r[0].weekStart)
  {
    forall e | e in r
      ensures DayNumber(e.weekStart) <= DayNumber(r[0].weekStart)
    {
      var i :| 0 <= i < |r| && r[i] == e;
      if i > 0 {
        assert DayNumber(r[0].weekStart) >= DayNumber(r[i].weekStart);
      }
    }
  }

  /** Sorting a list that is already in key order gives it back. */
  lemma {:induction false} SortOfSorted(s: seq<WeightEntry>, key: WeightEntry -> int)
    requires SortedBy(s, key)
    ensures SortBy(s, key) == s
  {
    if s != [] {
      var init, last := s[..|s| - 1], s[|s| - 1];
      assert init + [last] == s;
      InitSorted(init, last, key);
      SortOfSorted(init, key);
      InsertAfterAll(last, init, key);
    }
  }

  lemma InitSorted(init: seq<WeightEntry>, last: WeightEntry, key: WeightEntry -> int)
    requires SortedBy(init + [last], key)
    ensures SortedBy(init, key)
    ensures forall i :: 0 <= i < |init| ==> key(init[i]) <= key(last)
  {
    var s := init + [last];
    assert forall i :: 0 <= i < |init| ==> s[i] == init[i];
    assert s[|init|] == last;
  }

  /** An element whose key is not below any in the list goes to the end. */
  lemma {:induction false} InsertAfterAll(x: WeightEntry, s: seq<WeightEntry>, key: WeightEntry -> int)
    requires SortedBy(s, key)
    requires forall i :: 0 <= i < |s| ==> key(s[i]) <= key(x)
    ensures Insert(x, s, key) == s + [x]
  {
    if s != [] {
      var tail := s[1..];
      TailSorted(s, key);
      assert forall i :: 0 <= i < |tail| ==> key(tail[i]) <= key(x) by {
        assert forall i :: 0 <= i < |tail| ==> tail[i] == s[i + 1];
      }
      InsertAfterAll(x, tail, key);
      InsertStep(x, s, key);
      ConsSnoc(s, x);
    }
  }

  lemma ConsSnoc<T>(s: seq<T>, x: T)
    requires s != []
    ensures s + [x] == [s[0]] + (s[1..] + [x])
  {
  }

  lemma InsertStep(x: WeightEntry, s: seq<WeightEntry>, key: WeightEntry -> int)
    requires s != [] && SortedBy(s, key) && SortedBy(s[1..], key) && key(s[0]) <= key(x)
    ensures Insert(x, s, key) == [s[0]] + Insert(x, s[1..], key)
  {
  }

  /** A list already in date order comes back unchanged: in particular, ties keep their order. */
  lemma OldestFirstIsFixed(s: seq<WeightEntry>)
    requires forall i, j :: 0 <= i < j < |s| ==> DayNumber(s[i].weekStart) <= DayNumber(s[j].weekStart)
    ensures ByDate(s) == s
  {
    assert SortedBy(s, Oldest);
    SortOfSorted(s, Oldest);
  }

  /** A list already dated newest first comes back unchanged: in particular, ties keep their order. */
  lemma NewestFirstIsFixed(s: seq<WeightEntry>)
    requires forall i, j :: 0 <= i < j < |s| ==> DayNumber(s[i].weekStart) >= DayNumber(s[j].weekStart)
    ensures ByDateDescending(s) == s
  {
    assert SortedBy(s, Newest);
    SortOfSorted(s, Newest);
  }

  /** The entry with the latest date: the head of the newest-first ordering. */
  function LatestEntry(s: seq<WeightEntry>): (e: WeightEntry)
    requires s != []
    ensures e in s
    ensures forall x :: x in s ==> DayNumber(x.weekStart) <= DayNumber(e.weekStart)
  {
    FirstIsNewest(s);
    ByDateDescending(s)[0]
  }
}
