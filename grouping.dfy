/** `groupedEntries` and `sortedDates`: the entries on display are gathered per date, and
    the dates are listed newest first. */
module Grouping {
  import opened Text
  import opened Planner
  import opened Sorting

  /** The dates of the entries, each once, in the order they first occur: the key order of
      the object the grouping builds. */
  function DatesInOrder(entries: seq<TimeEntry>): (r: seq<string>)
    ensures forall k :: 0 <= k < |entries| ==> entries[k].date in r
    ensures forall d :: d in r ==> exists k :: 0 <= k < |entries| && entries[k].date == d
  {
    if entries == [] then []
    else
      var init, last := entries[..|entries| - 1], entries[|entries| - 1];
      var ds := DatesInOrder(init);
      assert forall k :: 0 <= k < |init| ==> init[k] == entries[k];
      if last.date in ds then ds else ds + [last.date]
  }

  lemma {:induction false} DatesInOrderDistinct(entries: seq<TimeEntry>)
    ensures Distinct(DatesInOrder(entries))
  {
    if entries != [] {
      DatesInOrderDistinct(entries[..|entries| - 1]);
    }
  }

  /** A date no entry has has no entries. */
  lemma NoEntriesOfOtherDates(entries: seq<TimeEntry>, d: string)
    requires d !in DatesInOrder(entries)
    ensures WithDate(entries, d) == []
  {
  }

  lemma DatesInOrderAppend(entries: seq<TimeEntry>, e: TimeEntry)
    ensures DatesInOrder(entries + [e])
      == if e.date in DatesInOrder(entries) then DatesInOrder(entries) else DatesInOrder(entries) + [e.date]
  {
    assert (entries + [e])[..|entries|] == entries;
  }

  lemma PrefixGrows<T>(s: seq<T>, i: nat)
    requires i < |s|
    ensures s[..i + 1] == s[..i] + [s[i]]
  {
  }

  lemma WithDateAppend(entries: seq<TimeEntry>, e: TimeEntry, d: string)
    ensures WithDate(entries + [e], d) == WithDate(entries, d) + if e.date == d then [e] else []
  {
    WithDateConcat(entries, [e], d);
  }

  /** The `reduce` over the entries: a date seen for the first time gets an empty group (and
      becomes the next key), and every entry is pushed onto the group of its date. */
  method GroupByDate(entries: seq<TimeEntry>) returns (groups: map<string, seq<TimeEntry>>, keys: seq<string>)
    ensures keys == DatesInOrder(entries)
    ensures forall d :: d in groups <==> d in keys
    ensures forall d :: d in groups ==> groups[d] == WithDate(entries, d)
  {
    groups, keys := map[], [];
    for i := 0 to |entries|
      invariant keys == DatesInOrder(entries[..i])
      invariant forall d :: d in groups <==> d in keys
      invariant forall d :: d in groups ==> groups[d] == WithDate(entries[..i], d)
    {
      var entry := entries[i];
      ghost var seen := entries[..i];
      PrefixGrows(entries, i);
      DatesInOrderAppend(seen, entry);
      if entry.date !in groups {
        NoEntriesOfOtherDates(seen, entry.date);
        groups := groups[entry.date := []];
        keys := keys + [entry.date];
      }
      groups := groups[entry.date := groups[entry.date] + [entry]];
      forall d | d in groups ensures groups[d] == WithDate(seen + [entry], d) {
        WithDateAppend(seen, entry, d);
      }
    }
    assert entries[..|entries|] == entries;
  }

  /** A date as its own sort key. */
  function DateOf(date: string): string {
    date
  }

  /** `Object.keys(groupedEntries).sort((a, b) => b.localeCompare(a))`, sorted in place on a
      fresh array. */
  method SortDates(keys: seq<string>) returns (sortedDates: seq<string>)
    ensures sortedDates == SortDesc(keys, DateOf)
  {
    var a := new string[|keys|](i requires 0 <= i < |keys| => keys[i]);
    assert a[..] == keys;
    SortByKeyDescending(a, DateOf);
    sortedDates := a[..];
  }

  /** The listed dates are exactly the dates of the entries, each once, newest first. */
  lemma SortedDatesStrictlyDescending(entries: seq<TimeEntry>)
    ensures var dates := SortDesc(DatesInOrder(entries), DateOf);
      && (forall d :: d in dates <==> exists k :: 0 <= k < |entries| && entries[k].date == d)
      && (forall i, j :: 0 <= i < j < |dates| ==> LexLess(dates[j], dates[i]))
  {
    var keys := DatesInOrder(entries);
    var dates := SortDesc(keys, DateOf);
    SortDescPermutation(keys, DateOf);
    assert forall d :: d in dates <==> d in keys by {
      assert forall d :: d in dates <==> d in multiset(dates);
      assert forall d :: d in keys <==> d in multiset(keys);
    }
    DatesInOrderDistinct(entries);
    SortDescDistinct(keys, DateOf);
    SortDescSorted(keys, DateOf);
    forall i, j | 0 <= i < j < |dates| ensures LexLess(dates[j], dates[i]) {
      assert !LexLess(DateOf(dates[i]), DateOf(dates[j]));
      LexLessTotal(dates[i], dates[j]);
    }
  }

  /** Every entry lands in the group of its own date and in no other, and each group keeps
      the order the entries had. */
  lemma EntryInItsGroup(entries: seq<TimeEntry>, k: nat, d: string)
    requires k < |entries|
    ensures entries[k] in WithDate(entries, d) <==> entries[k].date == d
  {
  }
}
