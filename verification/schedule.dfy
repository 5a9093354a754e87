/** The onboarding screen where a player picks the week days and periods of the day
    they are usually free (src/screens/onboarding/OnboardingSchedule.js). */
module Schedule {
  import opened Seqs

  /** The labels of the seven day buttons, Sunday to Saturday; Sunday and Saturday
      share "S", Tuesday and Thursday share "T". */
  const WeekLabels: seq<string> := ["S", "M", "T", "W", "T", "F", "S"]

  /** The ids of the three period cards: morning, afternoon, evening. */
  const PeriodIds: seq<string> := ["morning", "afternoon", "evening"]

  datatype Availability = Availability(days: seq<string>, times: seq<string>)

  /** The selections the screen opens with. */
  function Initial(): (a: Availability)
    ensures NoDup(a.days) && NoDup(a.times)
    ensures forall i :: 0 <= i < |WeekLabels| ==> (WeekLabels[i] in a.days <==> i in {1, 3, 5})
    ensures forall i :: 0 <= i < |PeriodIds| ==> (PeriodIds[i] in a.times <==> i in {1, 2})
  {
    Availability(["M", "W", "F"], ["afternoon", "evening"])
  }

  /** The rule shared by `toggleDay` and `toggleTime`: a selected item is removed
      (every occurrence of it), any other item is appended at the end. */
  function Toggle<T(==,!new)>(sel: seq<T>, item: T): (r: seq<T>)
    ensures item in r <==> item !in sel
    ensures forall y :: y != item ==> (y in r <==> y in sel)
    ensures item in sel ==> |r| < |sel|
    ensures item !in sel ==> |r| == |sel| + 1 && r[..|sel|] == sel && r[|sel|] == item
  {
    if item in sel then
      FilterLength(sel, y => y != item);
      Without(sel, item)
    else sel + [item]
  }

  function ToggleDay(a: Availability, day: string): (r: Availability)
    ensures r.times == a.times
    ensures day in r.days <==> day !in a.days
    ensures forall d :: d != day ==> (d in r.days <==> d in a.days)
  {
    a.(days := Toggle(a.days, day))
  }

  function ToggleTime(a: Availability, time: string): (r: Availability)
    ensures r.days == a.days
    ensures time in r.times <==> time !in a.times
    ensures forall t :: t != time ==> (t in r.times <==> t in a.times)
  {
    a.(times := Toggle(a.times, time))
  }

  /** Whether the day button at `index` is drawn active: its label is selected. */
  predicate DayActive(a: Availability, index: nat)
    requires index < |WeekLabels|
  {
    WeekLabels[index] in a.days
  }

  /** Toggling a selected item takes out every copy of it and nothing else: the list
      shrinks by the item's number of occurrences. */
  lemma ToggleSelectedCount<T(!new)>(sel: seq<T>, item: T)
    requires item in sel
    ensures multiset(Toggle(sel, item)) == multiset(sel)[item := 0]
    ensures |Toggle(sel, item)| == |sel| - multiset(sel)[item]
  {
    WithoutCount(sel, item);
  }

  /** A toggle keeps the other items in their relative order and multiplicity:
      with `item` removed, the list before and after are equal. */
  lemma ToggleKeepsOthersInOrder<T(!new)>(sel: seq<T>, item: T)
    ensures Without(Toggle(sel, item), item) == Without(sel, item)
    ensures IsSubsequence(Without(sel, item), Toggle(sel, item))
  {
    if item in sel {
      FilterIdempotent(sel, y => y != item);
      FilterAllKept(Without(sel, item), y => y != item);
    } else {
      FilterAppend(sel, [item], y => y != item);
    }
  }

  lemma ToggleKeepsNoDup<T(!new)>(sel: seq<T>, item: T)
    requires NoDup(sel)
    ensures NoDup(Toggle(sel, item))
  {
    if item in sel {
      FilterKeepsNoDup(sel, y => y != item);
    } else {
      var r := Toggle(sel, item);
      forall i, j | 0 <= i < j < |r| ensures r[i] != r[j] {
        if j == |sel| {
          assert r[i] == sel[i];
        } else {
          assert r[i] == sel[i] && r[j] == sel[j];
        }
      }
    }
  }

  /** Toggling an unselected item twice gives the original list back. */
  lemma ToggleTwiceUnselected<T(!new)>(sel: seq<T>, item: T)
    requires item !in sel
    ensures Toggle(Toggle(sel, item), item) == sel
  {
    FilterAppend(sel, [item], y => y != item);
    WithoutAbsent(sel, item);
  }

  /** Toggling a selected item twice on a duplicate-free list gives back the same items,
      each once, with the item moved to the end. */
  lemma ToggleTwiceSelected<T(!new)>(sel: seq<T>, item: T)
    requires NoDup(sel) && item in sel
    ensures var r := Toggle(Toggle(sel, item), item);
      && multiset(r) == multiset(sel)
      && r == Without(sel, item) + [item]
  {
    var w := Without(sel, item);
    ToggleKeepsNoDup(sel, item);
    ToggleKeepsNoDup(w, item);
    var r := w + [item];
    assert Toggle(w, item) == r;
    assert forall y :: y in r <==> y in sel;
    NoDupSameElementsSameMultiset(r, sel);
  }

  /** Toggling twice the last item of a duplicate-free list gives the list back: the item
      is removed and then appended where it was. On the initial days, this is "F". */
  lemma ToggleTwiceLastRestored<T(!new)>(sel: seq<T>)
    requires NoDup(sel) && |sel| > 0
    ensures Toggle(Toggle(sel, sel[|sel| - 1]), sel[|sel| - 1]) == sel
  {
    var item := sel[|sel| - 1];
    var front := sel[..|sel| - 1];
    assert sel == front + [item];
    assert item !in front by {
      forall k | 0 <= k < |front| ensures front[k] != item {
        assert front[k] == sel[k];
      }
    }
    ToggleTwiceSelected(sel, item);
    FilterAppend(front, [item], y => y != item);
    WithoutAbsent(front, item);
  }

  lemma NoDupSameElementsSameMultiset<T>(a: seq<T>, b: seq<T>)
    requires NoDup(a) && NoDup(b)
    requires forall y :: y in a <==> y in b
    ensures multiset(a) == multiset(b)
  {
    NoDupMultiset(a);
    NoDupMultiset(b);
    assert multiset(a) == multiset(set y | y in a);
    assert multiset(b) == multiset(set y | y in b);
    assert (set y | y in a) == (set y | y in b);
  }

  lemma {:induction false} NoDupMultiset<T>(s: seq<T>)
    requires NoDup(s)
    ensures multiset(s) == multiset(set y | y in s)
  {
    if |s| > 0 {
      var rest := s[1..];
      assert NoDup(rest) by {
        forall i, j | 0 <= i < j < |rest| ensures rest[i] != rest[j] {
          assert rest[i] == s[i + 1] && rest[j] == s[j + 1];
        }
      }
      NoDupMultiset(rest);
      assert s[0] !in rest by {
        forall k | 0 <= k < |rest| ensures rest[k] != s[0] {
          assert rest[k] == s[k + 1];
        }
      }
      assert s == [s[0]] + rest;
      assert (set y | y in s) == {s[0]} + (set y | y in rest);
    }
  }

  /** Toggling a selected item twice does not in general restore the list: on the
      initial days, Monday moves from the front to the back. */
  lemma ToggleTwiceReorders()
    ensures Toggle(Toggle(Initial().days, "M"), "M") == ["W", "F", "M"]
    ensures Toggle(Toggle(Initial().days, "M"), "M") != Initial().days
  {
    var d := Initial().days;
    var rest := ["W", "F"];
    assert Toggle(d, "M") == rest by {
      assert d == ["M"] + rest && "M" in d;
      assert Without(d, "M") == Without(rest, "M");
      WithoutAbsent(rest, "M");
    }
    assert Toggle(rest, "M") == rest + ["M"] by {
      assert "M" !in rest;
    }
    assert (rest + ["M"])[0] != d[0];
  }

  /** Buttons with the same label are always drawn alike, and tapping one flips both. */
  lemma SameLabelSameActive(a: Availability, i: nat, j: nat)
    requires i < |WeekLabels| && j < |WeekLabels|
    requires WeekLabels[i] == WeekLabels[j]
    ensures DayActive(a, i) == DayActive(a, j)
    ensures DayActive(ToggleDay(a, WeekLabels[i]), j) == !DayActive(a, j)
  {
  }

  /** The two "S" buttons and the two "T" buttons share their label. */
  lemma WeekendAndMidweekButtonsShare(a: Availability)
    ensures DayActive(a, 0) == DayActive(a, 6)
    ensures DayActive(a, 2) == DayActive(a, 4)
  {
  }

  datatype Tap = DayTap(index: nat) | PeriodTap(index: nat)

  /** The selections after a tap on a day button or a period card; a tap where no
      button is drawn does nothing. */
  function Apply(a: Availability, tap: Tap): Availability {
    match tap
    case DayTap(i) => if i < |WeekLabels| then ToggleDay(a, WeekLabels[i]) else a
    case PeriodTap(i) => if i < |PeriodIds| then ToggleTime(a, PeriodIds[i]) else a
  }

  function Run(a: Availability, taps: seq<Tap>): Availability
    decreases |taps|
  {
    if |taps| == 0 then a else Run(Apply(a, taps[0]), taps[1..])
  }

  /** Selections without duplicates, drawn only from the labels on screen. */
  predicate WellFormed(a: Availability) {
    && NoDup(a.days) && NoDup(a.times)
    && (forall d :: d in a.days ==> d in WeekLabels)
    && (forall t :: t in a.times ==> t in PeriodIds)
  }

  /** Any sequence of taps from the initial screen keeps both lists duplicate-free
      and made of on-screen labels. */
  lemma {:induction false} RunWellFormed(a: Availability, taps: seq<Tap>)
    requires WellFormed(a)
    ensures WellFormed(Run(a, taps))
    decreases |taps|
  {
    if |taps| > 0 {
      var b := Apply(a, taps[0]);
      match taps[0] {
        case DayTap(i) =>
          if i < |WeekLabels| { ToggleKeepsNoDup(a.days, WeekLabels[i]); }
        case PeriodTap(i) =>
          if i < |PeriodIds| { ToggleKeepsNoDup(a.times, PeriodIds[i]); }
      }
      assert WellFormed(b);
      RunWellFormed(b, taps[1..]);
    }
  }

  lemma ReachableWellFormed(taps: seq<Tap>)
    ensures WellFormed(Run(Initial(), taps))
  {
    RunWellFormed(Initial(), taps);
  }
}
