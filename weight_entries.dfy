/**
 * The weight-entry hook's in-memory state: the signed-in user's id, the loaded entries
 * and the goal, and what adding, updating and deleting an entry and setting a goal do to
 * them once the database call has answered (`ok` says whether it succeeded; `newId` is
 * the id the database gave a new row).
 */
module WeightEntries {
  import opened Wrappers
  import opened Seqs
  import opened CalendarDates
  import opened WeightData
  import opened WeightInsights

  /** `prev.map(entry => entry.id === updated.id ? updated : entry)`. */
  function ReplaceEntry(s: seq<WeightEntry>, updated: WeightEntry): (out: seq<WeightEntry>)
    ensures |out| == |s|
    ensures forall i :: 0 <= i < |s| ==> out[i] == if s[i].id == updated.id then updated else s[i]
  {
    seq(|s|, i requires 0 <= i < |s| => if s[i].id == updated.id then updated else s[i])
  }

  predicate UniqueEntryIds(s: seq<WeightEntry>) {
    forall i, j :: 0 <= i < j < |s| ==> s[i].id != s[j].id
  }

  /** `prev.filter(entry => entry.id !== id)`. */
  function WithoutEntry(s: seq<WeightEntry>, id: string): (out: seq<WeightEntry>)
    ensures forall i :: 0 <= i < |out| ==> out[i].id != id && out[i] in s
    ensures forall i :: 0 <= i < |s| && s[i].id != id ==> s[i] in out
  {
    Filter(s, (e: WeightEntry) => e.id != id)
  }

  lemma WithoutEntryKeepsOrder(s: seq<WeightEntry>, id: string)
    ensures IsSubsequence(WithoutEntry(s, id), s)
  {
    FilterIsSubsequence(s, (e: WeightEntry) => e.id != id);
  }

  /** Replacing keeps every position's id, so it never adds or drops an id. */
  lemma ReplaceEntryKeepsIds(s: seq<WeightEntry>, updated: WeightEntry)
    ensures forall i :: 0 <= i < |s| ==> ReplaceEntry(s, updated)[i].id == s[i].id
  {
  }

  class WeightEntryStore {
    var user: Option<string>
    var entries: seq<WeightEntry>
    var goal: Option<WeightGoal>

    /** Before anything is loaded: no entries and no goal. */
    constructor (signedIn: Option<string>)
      ensures user == signedIn && entries == [] && goal.None?
    {
      user := signedIn;
      entries := [];
      goal := None;
    }

    /** The `entries` the hook hands out: none while nobody is signed in. */
    function VisibleEntries(): (s: seq<WeightEntry>)
      reads this
      ensures user.None? ==> s == []
      ensures user.Some? ==> s == entries
    {
      if user.Some? then entries else []
    }

    /** `insights`: the corrected calculator over the current state. */
    function CurrentInsights(): (ins: WeightInsight)
      reads this
      ensures ins.status != Slowing
    {
      NeverSlowing(entries, user, goal, true);
      Insights(entries, user, goal)
    }

    /** `addEntry(entry)`: the stored row (carrying the signed-in user's id) goes in front. */
    method AddEntry(entry: NewEntry, newId: string, ok: bool) returns (added: Option<WeightEntry>)
      modifies this
      ensures user == old(user) && goal == old(goal)
      ensures user.None? || !ok ==> added.None? && entries == old(entries)
      ensures user.Some? && ok ==>
        added == Some(WeightEntry(newId, user.value, entry.weekStart, entry.weightKg)) &&
        entries == [added.value] + old(entries)
    {
      if user.None? || !ok {
        return None;
      }
      var newEntry := WeightEntry(newId, user.value, entry.weekStart, entry.weightKg);
      entries := [newEntry] + entries;
      added := Some(newEntry);
    }

    /** `updateEntry(updated)`: the entry with that id is replaced. */
    method UpdateEntry(updated: WeightEntry, ok: bool) returns (result: Option<WeightEntry>)
      modifies this
      ensures user == old(user) && goal == old(goal)
      ensures user.None? || !ok ==> result.None? && entries == old(entries)
      ensures user.Some? && ok ==> result == Some(updated) && entries == ReplaceEntry(old(entries), updated)
    {
      if user.None? || !ok {
        return None;
      }
      entries := ReplaceEntry(entries, updated);
      result := Some(updated);
    }

    /** `deleteEntry(id)`: the entries with that id are dropped. */
    method DeleteEntry(id: string, ok: bool)
      modifies this
      ensures user == old(user) && goal == old(goal)
      ensures user.None? || !ok ==> entries == old(entries)
      ensures user.Some? && ok ==> entries == WithoutEntry(old(entries), id)
    {
      if user.None? || !ok {
        return;
      }
      entries := WithoutEntry(entries, id);
    }

    /**
     * `setWeightGoal(target)` on day `today`: nothing without entries or without a user;
     * otherwise the goal starts from the weight of the latest-dated entry.
     */
    method SetWeightGoal(target: real, today: Day) returns (newGoal: Option<WeightGoal>)
      modifies this
      ensures user == old(user) && entries == old(entries)
      ensures entries == [] || user.None? ==> newGoal.None? && goal == old(goal)
      ensures entries != [] && user.Some? ==>
        newGoal == Some(WeightGoal(user.value, target, today, LatestEntry(entries).weightKg)) && goal == newGoal
    {
      if |entries| == 0 {
        return None;
      }
      if user.None? {
        return None;
      }
      var sortedEntries := ByDateDescending(entries);
      var currentWeight := sortedEntries[0].weightKg;
      newGoal := Some(WeightGoal(user.value, target, today, currentWeight));
      goal := newGoal;
    }
  }

  /** A goal's start weight is the weight of an entry dated no earlier than any other. */
  lemma GoalStartsAtLatest(entries: seq<WeightEntry>, u: string, target: real, today: Day)
    requires entries != []
    ensures var g := WeightGoal(u, target, today, LatestEntry(entries).weightKg);
      exists e :: e in entries && e.weightKg == g.startWeight &&
        forall x :: x in entries ==> DayNumber(x.weekStart) <= DayNumber(e.weekStart)
  {
    var e := LatestEntry(entries);
    assert e in entries;
  }
}
