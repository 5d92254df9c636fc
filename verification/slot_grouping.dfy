/**
 * Grouping of an experience's slots by calendar date on the details page:
 * sort a copy by start time, skip booked slots, and append each remaining
 * slot to the group of its date key, creating groups in order of first
 * appearance. The date key (`toDateString`) is a parameter.
 */
module SlotGrouping {
  import opened ClientTypes

  predicate SortedByStart(s: seq<SlotView>) {
    forall i, j :: 0 <= i < j < |s| ==> s[i].start_time <= s[j].start_time
  }

  /** Places x before the first slot that does not start earlier. */
  function Insert(x: SlotView, s: seq<SlotView>): (r: seq<SlotView>)
    requires SortedByStart(s)
    ensures SortedByStart(r)
    ensures multiset(r) == multiset(s) + multiset{x}
    ensures |r| == |s| + 1
    ensures r[0] == x || (s != [] && r[0] == s[0])
  {
    if s == [] || x.start_time <= s[0].start_time then [x] + s
    else
      var rest := Insert(x, s[1..]);
      assert s == [s[0]] + s[1..];
      assert s[0].start_time <= rest[0].start_time;
      [s[0]] + rest
  }

  /** The copy sorted by ascending start time. */
  function SortByStart(s: seq<SlotView>): (r: seq<SlotView>)
    ensures SortedByStart(r)
    ensures multiset(r) == multiset(s)
    ensures |r| == |s|
  {
    if s == [] then []
    else
      assert s == [s[0]] + s[1..];
      Insert(s[0], SortByStart(s[1..]))
  }

  /** The group for date key k after scanning s: its unbooked slots on that date, in scan order. */
  function SlotsOn(s: seq<SlotView>, dateKey: int -> string, k: string): seq<SlotView> {
    if s == [] then []
    else
      var last := s[|s| - 1];
      SlotsOn(s[..|s| - 1], dateKey, k) + (if !last.is_booked && dateKey(last.start_time) == k then [last] else [])
  }

  /** The group keys after scanning s, in order of first appearance. */
  function DateKeys(s: seq<SlotView>, dateKey: int -> string): seq<string> {
    if s == [] then []
    else
      var keys := DateKeys(s[..|s| - 1], dateKey);
      var last := s[|s| - 1];
      if !last.is_booked && dateKey(last.start_time) !in keys then keys + [dateKey(last.start_time)] else keys
  }

  /** A slot is in group k exactly when it is one of the scanned slots, unbooked, and on date k. */
  lemma {:induction false} SlotsOnMembership(s: seq<SlotView>, dateKey: int -> string, k: string, x: SlotView)
    ensures x in SlotsOn(s, dateKey, k) <==> (x in s && !x.is_booked && dateKey(x.start_time) == k)
  {
    if s != [] {
      var init := s[..|s| - 1];
      SlotsOnMembership(init, dateKey, k, x);
      assert s == init + [s[|s| - 1]];
    }
  }

  /** Each group keeps the order of the scan, so it is sorted when the scanned slots are. */
  lemma {:induction false} SlotsOnSorted(s: seq<SlotView>, dateKey: int -> string, k: string)
    requires SortedByStart(s)
    ensures SortedByStart(SlotsOn(s, dateKey, k))
  {
    if s != [] {
      var init := s[..|s| - 1];
      var last := s[|s| - 1];
      assert SortedByStart(init);
      SlotsOnSorted(init, dateKey, k);
      var g := SlotsOn(init, dateKey, k);
      forall y | y in g ensures y.start_time <= last.start_time {
        SlotsOnMembership(init, dateKey, k, y);
        var i :| 0 <= i < |init| && init[i] == y;
      }
    }
  }

  /** A key is listed exactly when its group is non-empty. */
  lemma {:induction false} DateKeysMembership(s: seq<SlotView>, dateKey: int -> string, k: string)
    ensures k in DateKeys(s, dateKey) <==> SlotsOn(s, dateKey, k) != []
  {
    if s != [] {
      DateKeysMembership(s[..|s| - 1], dateKey, k);
    }
  }

  /** No key is listed twice. */
  lemma {:induction false} DateKeysDistinct(s: seq<SlotView>, dateKey: int -> string)
    ensures forall i, j :: 0 <= i < j < |DateKeys(s, dateKey)| ==> DateKeys(s, dateKey)[i] != DateKeys(s, dateKey)[j]
  {
    if s != [] {
      DateKeysDistinct(s[..|s| - 1], dateKey);
    }
  }

  /** Scanning only booked slots lists no key. */
  lemma {:induction false} DateKeysOfBooked(s: seq<SlotView>, dateKey: int -> string)
    requires forall i :: 0 <= i < |s| ==> s[i].is_booked
    ensures DateKeys(s, dateKey) == []
  {
    if s != [] {
      DateKeysOfBooked(s[..|s| - 1], dateKey);
    }
  }

  /** Scanning more slots only appends keys. */
  lemma {:induction false} DateKeysExtend(s: seq<SlotView>, n: nat, dateKey: int -> string)
    requires n <= |s|
    ensures |DateKeys(s[..n], dateKey)| <= |DateKeys(s, dateKey)|
    ensures DateKeys(s[..n], dateKey) == DateKeys(s, dateKey)[..|DateKeys(s[..n], dateKey)|]
    decreases |s| - n
  {
    if n < |s| {
      DateKeysExtend(s, n + 1, dateKey);
      assert s[..n + 1][..n] == s[..n];
    } else {
      assert s[..n] == s;
    }
  }

  /** The first key is the date of the first unbooked slot scanned. */
  lemma FirstDateKey(s: seq<SlotView>, dateKey: int -> string, i: nat)
    requires i < |s| && !s[i].is_booked
    requires forall j :: 0 <= j < i ==> s[j].is_booked
    ensures |DateKeys(s, dateKey)| > 0 && DateKeys(s, dateKey)[0] == dateKey(s[i].start_time)
  {
    DateKeysOfBooked(s[..i], dateKey);
    assert s[..i + 1][..i] == s[..i];
    DateKeysExtend(s, i + 1, dateKey);
  }

  /** The result of groupSlotsByDate: keys in insertion order and the group of each key. */
  datatype Grouping = Grouping(keys: seq<string>, groups: map<string, seq<SlotView>>)

  /** `g` is what grouping the sorted copy of `slots` yields. */
  ghost predicate IsGroupingOf(slots: seq<SlotView>, dateKey: int -> string, g: Grouping) {
    var sorted := SortByStart(slots);
    && g.keys == DateKeys(sorted, dateKey)
    && (forall k :: k in g.groups <==> k in g.keys)
    && (forall k :: k in g.groups ==> g.groups[k] == SlotsOn(sorted, dateKey, k))
  }

  /** One more scanned slot extends the group of its date and nothing else. */
  lemma SlotsOnSnoc(s: seq<SlotView>, x: SlotView, dateKey: int -> string, k: string)
    ensures SlotsOn(s + [x], dateKey, k) ==
            SlotsOn(s, dateKey, k) + (if !x.is_booked && dateKey(x.start_time) == k then [x] else [])
  {
    assert (s + [x])[..|s|] == s;
  }

  /** One more scanned slot lists its date once, if it is free and its date is new. */
  lemma DateKeysSnoc(s: seq<SlotView>, x: SlotView, dateKey: int -> string)
    ensures DateKeys(s + [x], dateKey) ==
            if !x.is_booked && dateKey(x.start_time) !in DateKeys(s, dateKey)
            then DateKeys(s, dateKey) + [dateKey(x.start_time)] else DateKeys(s, dateKey)
  {
    assert (s + [x])[..|s|] == s;
  }

  /** The loop's invariant: keys and groups are those of the slots scanned so far. */
  ghost predicate GroupsOfScan(scanned: seq<SlotView>, dateKey: int -> string,
                               keys: seq<string>, groups: map<string, seq<SlotView>>) {
    && keys == DateKeys(scanned, dateKey)
    && (forall k :: k in groups <==> k in keys)
    && (forall k :: k in groups ==> groups[k] == SlotsOn(scanned, dateKey, k))
  }

  /** Creating the group on first sight of a date keeps the invariant (an empty group is still correct). */
  lemma OpenGroup(scanned: seq<SlotView>, dateKey: int -> string,
                  keys: seq<string>, groups: map<string, seq<SlotView>>, key: string)
    requires GroupsOfScan(scanned, dateKey, keys, groups) && key !in groups
    ensures key !in DateKeys(scanned, dateKey)
    ensures forall k :: k in groups[key := []] ==> groups[key := []][k] == SlotsOn(scanned, dateKey, k)
    ensures forall k :: k in groups[key := []] <==> k in keys + [key]
  {
    DateKeysMembership(scanned, dateKey, key);
  }

  /** Appending the slot to its date's group extends the invariant to one more scanned slot. */
  lemma AppendToGroup(scanned: seq<SlotView>, slot: SlotView, dateKey: int -> string,
                      keys: seq<string>, groups: map<string, seq<SlotView>>)
    requires !slot.is_booked
    requires keys == DateKeys(scanned, dateKey) + (if dateKey(slot.start_time) in DateKeys(scanned, dateKey) then [] else [dateKey(slot.start_time)])
    requires forall k :: k in groups <==> k in keys
    requires dateKey(slot.start_time) in groups
    requires forall k :: k in groups ==> groups[k] == SlotsOn(scanned, dateKey, k)
    ensures GroupsOfScan(scanned + [slot], dateKey, keys,
                         groups[dateKey(slot.start_time) := groups[dateKey(slot.start_time)] + [slot]])
  {
    var key := dateKey(slot.start_time);
    var groups' := groups[key := groups[key] + [slot]];
    DateKeysSnoc(scanned, slot, dateKey);
    forall k | k in groups'
      ensures groups'[k] == SlotsOn(scanned + [slot], dateKey, k)
    {
      SlotsOnSnoc(scanned, slot, dateKey, k);
    }
  }

  /** Skipping a booked slot keeps the invariant. */
  lemma SkipBooked(scanned: seq<SlotView>, slot: SlotView, dateKey: int -> string,
                   keys: seq<string>, groups: map<string, seq<SlotView>>)
    requires slot.is_booked && GroupsOfScan(scanned, dateKey, keys, groups)
    ensures GroupsOfScan(scanned + [slot], dateKey, keys, groups)
  {
    DateKeysSnoc(scanned, slot, dateKey);
    forall k | k in groups
      ensures groups[k] == SlotsOn(scanned + [slot], dateKey, k)
    {
      SlotsOnSnoc(scanned, slot, dateKey, k);
    }
  }

  /** groupSlotsByDate: sorts a copy (the input is a value and stays as it is), then one pass. */
  method GroupSlotsByDate(slots: seq<SlotView>, dateKey: int -> string) returns (g: Grouping)
    ensures IsGroupingOf(slots, dateKey, g)
  {
    var sorted := SortByStart(slots);
    var keys: seq<string> := [];
    var groups: map<string, seq<SlotView>> := map[];
    for i := 0 to |sorted|
      invariant GroupsOfScan(sorted[..i], dateKey, keys, groups)
    {
      var slot := sorted[i];
      assert sorted[..i + 1] == sorted[..i] + [slot];
      if slot.is_booked {
        SkipBooked(sorted[..i], slot, dateKey, keys, groups);
      } else {
        var key := dateKey(slot.start_time);
        if key !in groups {
          OpenGroup(sorted[..i], dateKey, keys, groups, key);
          groups := groups[key := []];
          keys := keys + [key];
        }
        AppendToGroup(sorted[..i], slot, dateKey, keys, groups);
        groups := groups[key := groups[key] + [slot]];
      }
    }
    assert sorted[..|sorted|] == sorted;
    g := Grouping(keys, groups);
  }

  /** No booked slot is shown, and every shown slot sits in the group of its own date. */
  lemma GroupsHoldOnlyFreeSlots(slots: seq<SlotView>, dateKey: int -> string, g: Grouping)
    requires IsGroupingOf(slots, dateKey, g)
    ensures forall k, x :: k in g.groups && x in g.groups[k] ==> !x.is_booked && dateKey(x.start_time) == k
  {
    var sorted := SortByStart(slots);
    forall k, x | k in g.groups && x in g.groups[k]
      ensures !x.is_booked && dateKey(x.start_time) == k
    {
      SlotsOnMembership(sorted, dateKey, k, x);
    }
  }

  /** Every unbooked slot is shown, in the group of its date (and so in no other group). */
  lemma EveryFreeSlotGrouped(slots: seq<SlotView>, dateKey: int -> string, g: Grouping)
    requires IsGroupingOf(slots, dateKey, g)
    ensures forall x :: x in slots && !x.is_booked ==>
              dateKey(x.start_time) in g.groups && x in g.groups[dateKey(x.start_time)]
  {
    var sorted := SortByStart(slots);
    forall x | x in slots && !x.is_booked
      ensures dateKey(x.start_time) in g.groups && x in g.groups[dateKey(x.start_time)]
    {
      assert x in multiset(slots);
      assert x in sorted;
      SlotsOnMembership(sorted, dateKey, dateKey(x.start_time), x);
      DateKeysMembership(sorted, dateKey, dateKey(x.start_time));
    }
  }

  /** Each group is non-empty and in ascending start order; no key is listed twice. */
  lemma GroupsSortedAndDistinct(slots: seq<SlotView>, dateKey: int -> string, g: Grouping)
    requires IsGroupingOf(slots, dateKey, g)
    ensures forall k :: k in g.groups ==> SortedByStart(g.groups[k]) && g.groups[k] != []
    ensures forall i, j :: 0 <= i < j < |g.keys| ==> g.keys[i] != g.keys[j]
  {
    var sorted := SortByStart(slots);
    forall k | k in g.groups
      ensures SortedByStart(g.groups[k]) && g.groups[k] != []
    {
      SlotsOnSorted(sorted, dateKey, k);
      DateKeysMembership(sorted, dateKey, k);
    }
    DateKeysDistinct(sorted, dateKey);
  }

  /** The keys are exactly the dates on which some slot is free. */
  lemma KeysAreFreeDates(slots: seq<SlotView>, dateKey: int -> string, g: Grouping)
    requires IsGroupingOf(slots, dateKey, g)
    ensures forall k :: k in g.keys <==> exists x :: x in slots && !x.is_booked && dateKey(x.start_time) == k
  {
    var sorted := SortByStart(slots);
    forall k
      ensures k in g.keys <==> exists x :: x in slots && !x.is_booked && dateKey(x.start_time) == k
    {
      DateKeysMembership(sorted, dateKey, k);
      if k in g.keys {
        var x := SlotsOn(sorted, dateKey, k)[0];
        SlotsOnMembership(sorted, dateKey, k, x);
        assert x in multiset(sorted);
        assert x in slots;
      }
      if exists x :: x in slots && !x.is_booked && dateKey(x.start_time) == k {
        var x :| x in slots && !x.is_booked && dateKey(x.start_time) == k;
        assert x in multiset(slots);
        assert x in sorted;
        SlotsOnMembership(sorted, dateKey, k, x);
      }
    }
  }

  /** When some slot is free, the first key is the date of an earliest-starting free slot. */
  lemma FirstKeyIsEarliestDate(slots: seq<SlotView>, dateKey: int -> string, g: Grouping, x0: SlotView)
    requires IsGroupingOf(slots, dateKey, g)
    requires x0 in slots && !x0.is_booked
    ensures |g.keys| > 0
    ensures exists x :: && x in slots && !x.is_booked && g.keys[0] == dateKey(x.start_time)
                        && forall y :: y in slots && !y.is_booked ==> x.start_time <= y.start_time
  {
    var sorted := SortByStart(slots);
    assert x0 in multiset(slots);
    assert x0 in sorted;
    var f := FirstFree(sorted);
    FirstDateKey(sorted, dateKey, f);
    var x := sorted[f];
    assert x in multiset(sorted);
    assert x in slots;
    forall y | y in slots && !y.is_booked
      ensures x.start_time <= y.start_time
    {
      assert y in multiset(slots);
      assert y in sorted;
      var j :| 0 <= j < |sorted| && sorted[j] == y;
      assert f <= j;
    }
  }

  /** The position of the first unbooked slot, when there is one. */
  function FirstFree(s: seq<SlotView>): (i: nat)
    requires exists x :: x in s && !x.is_booked
    ensures i < |s| && !s[i].is_booked
    ensures forall j :: 0 <= j < i ==> s[j].is_booked
  {
    if !s[0].is_booked then 0
    else
      assert exists x :: x in s[1..] && !x.is_booked by {
        var x :| x in s && !x.is_booked;
        assert x != s[0];
      }
      FirstFree(s[1..]) + 1
  }
}
