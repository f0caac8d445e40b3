/** Grouping a direction's departure times into four parts of the day, each
    sorted by time of day (`groupTimesByPeriod` and `getPeriodLabel` in
    src/pages/BusTimetable.jsx). */
module PeriodGrouping {
  import opened TimeFormat

  /** One departure as the timetable displays it: the input string and the
      fields `convertTo12Hour` adds to it. */
  datatype Entry = Entry(original: string, time: string, hour24: nat, minutes: nat, period: Period)

  function MakeEntry(s: string): (e: Entry)
    requires WellFormed(s)
    ensures e.original == s
    ensures e.hour24 == DigitsValue(HourText(s)) <= 23
    ensures e.minutes == DigitsValue(MinuteText(s)) < 100
    ensures e.time == ConvertTo12Hour(s).time
    ensures e.period == PM <==> e.hour24 >= 12
  {
    var c := ConvertTo12Hour(s);
    Entry(s, c.time, c.hour24, c.minutes, c.period)
  }

  predicate AllWellFormed(times: seq<string>) {
    forall i :: 0 <= i < |times| ==> WellFormed(times[i])
  }

  /** The entries built from a list of times, one per time, in order. */
  function Entries(times: seq<string>): (es: seq<Entry>)
    requires AllWellFormed(times)
    ensures |es| == |times|
  {
    if times == [] then []
    else Entries(times[..|times| - 1]) + [MakeEntry(times[|times| - 1])]
  }

  /** The i-th entry is built from the i-th time and keeps it as `original`. */
  lemma {:induction false} EntriesAt(times: seq<string>, i: nat)
    requires AllWellFormed(times) && i < |times|
    ensures Entries(times)[i] == MakeEntry(times[i])
    ensures Entries(times)[i].original == times[i]
  {
    var init := times[..|times| - 1];
    if i < |times| - 1 {
      EntriesAt(init, i);
    }
  }

  // ---------------------------------------------------------------------
  // Buckets

  datatype Bucket = Morning | Afternoon | Evening | Night

  /** The bucket an hour goes to: the if / else-if chain of the grouping loop.
      Night is the final else, so it takes the small hours as well as the
      late evening. */
  function Classify(hour: nat): (b: Bucket)
    ensures b == Morning <==> 5 <= hour < 12
    ensures b == Afternoon <==> 12 <= hour < 17
    ensures b == Evening <==> 17 <= hour < 21
    ensures b == Night <==> hour < 5 || 21 <= hour
  {
    if 5 <= hour < 12 then Morning
    else if 12 <= hour < 17 then Afternoon
    else if 17 <= hour < 21 then Evening
    else Night
  }

  /** The entries of `es` that belong to bucket `b`, in their input order. */
  function Select(es: seq<Entry>, b: Bucket): seq<Entry> {
    if es == [] then []
    else
      var e := es[|es| - 1];
      Select(es[..|es| - 1], b) + if Classify(e.hour24) == b then [e] else []
  }

  /** A bucket holds each entry of its hours as often as the input does, and
      no entry of any other hour. */
  lemma {:induction false} SelectCount(es: seq<Entry>, b: Bucket, e: Entry)
    ensures multiset(Select(es, b))[e] == if Classify(e.hour24) == b then multiset(es)[e] else 0
  {
    if es != [] {
      var init, last := es[..|es| - 1], es[|es| - 1];
      assert es == init + [last];
      SelectCount(init, b, e);
    }
  }

  /** An entry is in a bucket exactly when it is an input entry of that
      bucket's hours; so every input entry lands in exactly one bucket. */
  lemma SelectMembership(es: seq<Entry>, b: Bucket, e: Entry)
    ensures e in Select(es, b) <==> e in es && Classify(e.hour24) == b
  {
  }

  /** The four buckets together hold every input entry, no more and no fewer. */
  lemma {:induction false} SelectPartition(es: seq<Entry>)
    ensures |Select(es, Morning)| + |Select(es, Afternoon)| + |Select(es, Evening)| + |Select(es, Night)| == |es|
    ensures multiset(Select(es, Morning)) + multiset(Select(es, Afternoon))
          + multiset(Select(es, Evening)) + multiset(Select(es, Night)) == multiset(es)
  {
    if es != [] {
      var init := es[..|es| - 1];
      assert es == init + [es[|es| - 1]];
      SelectPartition(init);
    }
  }

  // ---------------------------------------------------------------------
  // Ordering within a bucket

  function Key(e: Entry): (nat, nat) {
    (e.hour24, e.minutes)
  }

  /** The comparator handed to `sort`: by hour, then by minutes. */
  function Compare(a: Entry, b: Entry): (r: int)
    ensures r == 0 <==> Key(a) == Key(b)
    ensures r < 0 <==> a.hour24 < b.hour24 || (a.hour24 == b.hour24 && a.minutes < b.minutes)
  {
    if a.hour24 != b.hour24 then a.hour24 - b.hour24 else a.minutes - b.minutes
  }

  ghost predicate Sorted(s: seq<Entry>) {
    forall i, j :: 0 <= i < j < |s| ==> Compare(s[i], s[j]) <= 0
  }

  /** The entries of `s` with time-of-day key `k`, in their order in `s`. */
  function Runs(s: seq<Entry>, k: (nat, nat)): seq<Entry> {
    if s == [] then []
    else
      Runs(s[..|s| - 1], k) + Single(s[|s| - 1], k)
  }

  /** Entries with the same time keep their relative order between s and t. */
  ghost predicate SameRuns(s: seq<Entry>, t: seq<Entry>) {
    forall k :: Runs(s, k) == Runs(t, k)
  }

  /** `r` is what a stable sort by (hour, minutes) makes of `s`. */
  ghost predicate StablySorted(r: seq<Entry>, s: seq<Entry>) {
    Sorted(r) && SameRuns(r, s)
  }

  lemma {:induction false} RunsAppend(s: seq<Entry>, t: seq<Entry>, k: (nat, nat))
    ensures Runs(s + t, k) == Runs(s, k) + Runs(t, k)
  {
    if t != [] {
      var init, e := t[..|t| - 1], t[|t| - 1];
      var st := s + t;
      assert st[..|st| - 1] == s + init && st[|st| - 1] == e;
      var tail := Single(e, k);
      assert Runs(st, k) == Runs(s + init, k) + tail;
      assert Runs(t, k) == Runs(init, k) + tail;
      RunsAppend(s, init, k);
    } else {
      assert s + t == s;
    }
  }

  function SwapAt(s: seq<Entry>, j: nat): (r: seq<Entry>)
    requires 0 < j < |s|
    ensures |r| == |s| && r[j - 1] == s[j] && r[j] == s[j - 1]
    ensures forall i :: 0 <= i < |s| && i != j - 1 && i != j ==> r[i] == s[i]
  {
    s[..j - 1] + [s[j], s[j - 1]] + s[j + 1..]
  }

  function Single(e: Entry, k: (nat, nat)): seq<Entry> {
    if Key(e) == k then [e] else []
  }

  lemma RunsPair(x: Entry, y: Entry, k: (nat, nat))
    ensures Runs([x, y], k) == Single(x, k) + Single(y, k)
  {
    assert [x, y][..1] == [x] && [x][..0] == [];
    assert Runs([x], k) == Runs([], k) + Single(x, k);
    assert Runs([x, y], k) == Runs([x], k) + Single(y, k);
  }

  lemma SwapKeepsRunsAt(s: seq<Entry>, j: nat, k: (nat, nat))
    requires 0 < j < |s|
    requires Key(s[j - 1]) != Key(s[j])
    ensures Runs(SwapAt(s, j), k) == Runs(s, k)
  {
    var pre, x, y, post := s[..j - 1], s[j - 1], s[j], s[j + 1..];
    var before, after := pre + [x, y], pre + [y, x];
    assert s == before + post;
    assert SwapAt(s, j) == after + post;
    RunsPair(x, y, k);
    RunsPair(y, x, k);
    assert Runs([x, y], k) == Runs([y, x], k);
    calc {
      Runs(after + post, k);
    == { RunsAppend(after, post, k); }
      Runs(after, k) + Runs(post, k);
    == { RunsAppend(pre, [y, x], k); }
      Runs(pre, k) + Runs([y, x], k) + Runs(post, k);
    == { RunsAppend(pre, [x, y], k); }
      Runs(before, k) + Runs(post, k);
    == { RunsAppend(before, post, k); }
      Runs(before + post, k);
    }
  }

  /** Exchanging two neighbours with different times leaves every run as it
      was: the step of a stable sort. */
  lemma SwapKeepsRuns(s: seq<Entry>, j: nat)
    requires 0 < j < |s|
    requires Key(s[j - 1]) != Key(s[j])
    ensures SameRuns(SwapAt(s, j), s)
  {
    forall k ensures Runs(SwapAt(s, j), k) == Runs(s, k) {
      SwapKeepsRunsAt(s, j, k);
    }
  }

  lemma {:induction false} RunsMembership(s: seq<Entry>, k: (nat, nat), e: Entry)
    ensures e in Runs(s, k) <==> e in s && Key(e) == k
  {
    if s != [] {
      var init := s[..|s| - 1];
      assert s == init + [s[|s| - 1]];
      RunsMembership(init, k, e);
    }
  }

  lemma {:induction false} RunsCount(s: seq<Entry>, e: Entry)
    ensures multiset(Runs(s, Key(e)))[e] == multiset(s)[e]
  {
    if s != [] {
      var init := s[..|s| - 1];
      assert s == init + [s[|s| - 1]];
      RunsCount(init, e);
    }
  }

  /** Keeping every run makes the result a permutation of the input. */
  lemma SameRunsPermutes(s: seq<Entry>, t: seq<Entry>)
    requires SameRuns(s, t)
    ensures multiset(s) == multiset(t)
  {
    forall e ensures multiset(s)[e] == multiset(t)[e] {
      RunsCount(s, e);
      RunsCount(t, e);
    }
  }

  /** In a sorted sequence no entry comes after the last one. */
  lemma LastIsLatest(s: seq<Entry>, e: Entry)
    requires Sorted(s) && e in s
    ensures Compare(e, s[|s| - 1]) <= 0
  {
  }

  /** Removing the same last entry from both sides keeps the runs equal. */
  lemma DropLastKeepsRuns(s: seq<Entry>, t: seq<Entry>)
    requires s != [] && t != [] && s[|s| - 1] == t[|t| - 1]
    requires SameRuns(s, t)
    ensures SameRuns(s[..|s| - 1], t[..|t| - 1])
  {
    var s', t', x := s[..|s| - 1], t[..|t| - 1], s[|s| - 1];
    forall k ensures Runs(s', k) == Runs(t', k) {
      assert Runs(s, k) == Runs(s', k) + Single(x, k);
      assert Runs(t, k) == Runs(t', k) + Single(x, k);
      assert Runs(s', k) == Runs(s, k)[..|Runs(s', k)|];
      assert Runs(t', k) == Runs(t, k)[..|Runs(t', k)|];
    }
  }

  /** Two sorted sequences with the same runs are equal: a stable sort has
      exactly one possible outcome. */
  lemma {:induction false} SortedRunsDetermine(s: seq<Entry>, t: seq<Entry>)
    requires Sorted(s) && Sorted(t) && SameRuns(s, t)
    ensures s == t
    decreases |s| + |t|
  {
    if s == [] && t == [] {
    } else if s == [] {
      var y := t[|t| - 1];
      RunsMembership(t, Key(y), y);
      assert false;
    } else if t == [] {
      var x := s[|s| - 1];
      RunsMembership(s, Key(x), x);
      assert false;
    } else {
      var s', x := s[..|s| - 1], s[|s| - 1];
      var t', y := t[..|t| - 1], t[|t| - 1];
      // Each last entry also occurs in the other sequence, so neither is
      // later than the other: they carry the same key.
      RunsMembership(s, Key(x), x);
      RunsMembership(t, Key(x), x);
      RunsMembership(t, Key(y), y);
      RunsMembership(s, Key(y), y);
      LastIsLatest(t, x);
      LastIsLatest(s, y);
      assert Key(x) == Key(y);
      // That key's run ends in x on one side and in y on the other.
      assert Runs(s, Key(x)) == Runs(s', Key(x)) + [x];
      assert Runs(t, Key(x)) == Runs(t', Key(x)) + [y];
      assert x == y by {
        var r := Runs(s, Key(x));
        assert r[|r| - 1] == x;
      }
      DropLastKeepsRuns(s, t);
      SortedRunsDetermine(s', t');
      assert s == s' + [x] && t == t' + [y];
    }
  }

  /** Different stable sorts of the same bucket agree. */
  lemma StableSortUnique(s: seq<Entry>, r1: seq<Entry>, r2: seq<Entry>)
    requires StablySorted(r1, s) && StablySorted(r2, s)
    ensures r1 == r2
  {
    SortedRunsDetermine(r1, r2);
  }

  /** Sorting a bucket that is already sorted leaves it unchanged. */
  lemma StableSortIdempotent(s: seq<Entry>, r: seq<Entry>)
    requires Sorted(s) && StablySorted(r, s)
    ensures r == s
  {
    SortedRunsDetermine(r, s);
  }

  /** The first n entries of s are in order. */
  ghost predicate SortedPrefix(s: seq<Entry>, n: nat) {
    forall p, q :: 0 <= p < q < n && q < |s| ==> Compare(s[p], s[q]) <= 0
  }

  /** s[..i + 1] is in order, except that the entry at j may come too early. */
  ghost predicate SortedExceptAt(s: seq<Entry>, i: nat, j: nat) {
    forall p, q :: 0 <= p < q <= i && q < |s| && q != j ==> Compare(s[p], s[q]) <= 0
  }

  lemma SameRunsTransitive(r: seq<Entry>, s: seq<Entry>, t: seq<Entry>)
    requires SameRuns(r, s) && SameRuns(s, t)
    ensures SameRuns(r, t)
  {
  }

  /** Moving an entry that is strictly earlier than its left neighbour one
      place to the left keeps the rest in order. */
  lemma SwapStep(s: seq<Entry>, i: nat, j: nat)
    requires 0 < j <= i < |s|
    requires SortedExceptAt(s, i, j) && Compare(s[j - 1], s[j]) > 0
    ensures SortedExceptAt(SwapAt(s, j), i, j - 1)
  {
  }

  /** Once the moving entry is not earlier than its left neighbour, the
      whole prefix is in order. */
  lemma InsertDone(s: seq<Entry>, i: nat, j: nat)
    requires j <= i < |s|
    requires SortedExceptAt(s, i, j)
    requires j == 0 || Compare(s[j - 1], s[j]) <= 0
    ensures SortedPrefix(s, i + 1)
  {
  }

  /** One pass of insertion sort: moves a[i] left past the entries that are
      strictly later than it. */
  method InsertAt(a: array<Entry>, i: nat)
    requires i < a.Length && SortedPrefix(a[..], i)
    modifies a
    ensures SortedPrefix(a[..], i + 1)
    ensures SameRuns(a[..], old(a[..]))
    ensures a[i + 1..] == old(a[i + 1..])
  {
    ghost var s0 := a[..];
    var j := i;
    assert SameRuns(a[..], s0);
    while j > 0 && Compare(a[j - 1], a[j]) > 0
      invariant 0 <= j <= i
      invariant SortedExceptAt(a[..], i, j)
      invariant SameRuns(a[..], s0)
      invariant a[i + 1..] == s0[i + 1..]
    {
      ghost var before := a[..];
      a[j - 1], a[j] := a[j], a[j - 1];
      assert a[..] == SwapAt(before, j);
      SwapStep(before, i, j);
      SwapKeepsRuns(before, j);
      SameRunsTransitive(a[..], before, s0);
      j := j - 1;
    }
    InsertDone(a[..], i, j);
  }

  /** The `sort` call of the grouping step, as an insertion sort on the
      bucket's array: it exchanges neighbours only when the comparator says
      they are strictly out of order, which is what keeps it stable. */
  method SortByTime(a: array<Entry>)
    modifies a
    ensures StablySorted(a[..], old(a[..]))
    ensures multiset(a[..]) == multiset(old(a[..]))
    ensures Sorted(old(a[..])) ==> a[..] == old(a[..])
  {
    ghost var s0 := a[..];
    var i := 0;
    while i < a.Length
      invariant 0 <= i <= a.Length
      invariant SortedPrefix(a[..], i)
      invariant SameRuns(a[..], s0)
    {
      ghost var before := a[..];
      InsertAt(a, i);
      SameRunsTransitive(a[..], before, s0);
      i := i + 1;
    }
    SameRunsPermutes(a[..], s0);
    if Sorted(s0) {
      SortedRunsDetermine(a[..], s0);
    }
  }

  /** A bucket sorted through an array, as `grouped[key].sort(...)` does. */
  method SortBucket(s: seq<Entry>) returns (r: seq<Entry>)
    ensures StablySorted(r, s)
    ensures multiset(r) == multiset(s)
  {
    var a := new Entry[|s|](i requires 0 <= i < |s| => s[i]);
    assert a[..] == s;
    SortByTime(a);
    r := a[..];
  }

  // ---------------------------------------------------------------------
  // The grouping step

  /** The object `groupTimesByPeriod` returns: one list per part of the day. */
  datatype Grouped = Grouped(morning: seq<Entry>, afternoon: seq<Entry>, evening: seq<Entry>, night: seq<Entry>) {
    function Get(b: Bucket): seq<Entry> {
      match b
      case Morning => morning
      case Afternoon => afternoon
      case Evening => evening
      case Night => night
    }
  }

  lemma SelectSnoc(es: seq<Entry>, e: Entry, b: Bucket)
    ensures Select(es + [e], b) == Select(es, b) + if Classify(e.hour24) == b then [e] else []
  {
  }

  lemma EntriesSnoc(times: seq<string>, i: nat)
    requires i < |times| && AllWellFormed(times)
    ensures AllWellFormed(times[..i]) && AllWellFormed(times[..i + 1])
    ensures Entries(times[..i + 1]) == Entries(times[..i]) + [MakeEntry(times[i])]
  {
    assert times[..i + 1][..i] == times[..i];
  }

  /** The `forEach` loop of `groupTimesByPeriod`: each time, converted, is
      pushed onto the list of its part of the day. */
  method BucketTimes(times: seq<string>) returns (g: Grouped)
    requires AllWellFormed(times)
    ensures forall b :: g.Get(b) == Select(Entries(times), b)
  {
    var morning, afternoon, evening, night := [], [], [], [];
    for i := 0 to |times|
      invariant AllWellFormed(times[..i])
      invariant morning == Select(Entries(times[..i]), Morning)
      invariant afternoon == Select(Entries(times[..i]), Afternoon)
      invariant evening == Select(Entries(times[..i]), Evening)
      invariant night == Select(Entries(times[..i]), Night)
    {
      var timeObj := MakeEntry(times[i]);
      EntriesSnoc(times, i);
      SelectSnoc(Entries(times[..i]), timeObj, Morning);
      SelectSnoc(Entries(times[..i]), timeObj, Afternoon);
      SelectSnoc(Entries(times[..i]), timeObj, Evening);
      SelectSnoc(Entries(times[..i]), timeObj, Night);
      if timeObj.hour24 >= 5 && timeObj.hour24 < 12 {
        morning := morning + [timeObj];
      } else if timeObj.hour24 >= 12 && timeObj.hour24 < 17 {
        afternoon := afternoon + [timeObj];
      } else if timeObj.hour24 >= 17 && timeObj.hour24 < 21 {
        evening := evening + [timeObj];
      } else {
        night := night + [timeObj];
      }
    }
    assert times[..|times|] == times;
    g := Grouped(morning, afternoon, evening, night);
  }

  /** `groupTimesByPeriod`: every time lands in the list of its part of the
      day, and each list is then sorted stably by time of day. */
  method GroupTimesByPeriod(times: seq<string>) returns (g: Grouped)
    requires AllWellFormed(times)
    ensures forall b :: StablySorted(g.Get(b), Select(Entries(times), b))
    ensures forall b :: multiset(g.Get(b)) == multiset(Select(Entries(times), b))
    ensures |g.morning| + |g.afternoon| + |g.evening| + |g.night| == |times|
  {
    var grouped := BucketTimes(times);
    var morning := SortBucket(grouped.morning);
    var afternoon := SortBucket(grouped.afternoon);
    var evening := SortBucket(grouped.evening);
    var night := SortBucket(grouped.night);
    g := Grouped(morning, afternoon, evening, night);
    ghost var es := Entries(times);
    forall b ensures StablySorted(g.Get(b), Select(es, b)) && multiset(g.Get(b)) == multiset(Select(es, b)) {
      assert grouped.Get(b) == Select(es, b);
    }
    SelectPartition(es);
    assert |morning| == |multiset(morning)|;
    assert |afternoon| == |multiset(afternoon)|;
    assert |evening| == |multiset(evening)|;
    assert |night| == |multiset(night)|;
  }

  /** The grouping has one outcome: whatever satisfies the postcondition of
      GroupTimesByPeriod is the same four lists, in the same order. */
  lemma GroupingUnique(times: seq<string>, g1: Grouped, g2: Grouped)
    requires AllWellFormed(times)
    requires forall b :: StablySorted(g1.Get(b), Select(Entries(times), b))
    requires forall b :: StablySorted(g2.Get(b), Select(Entries(times), b))
    ensures g1 == g2
  {
    forall b ensures g1.Get(b) == g2.Get(b) {
      StableSortUnique(Select(Entries(times), b), g1.Get(b), g2.Get(b));
    }
    assert g1.Get(Morning) == g2.Get(Morning) && g1.Get(Afternoon) == g2.Get(Afternoon);
    assert g1.Get(Evening) == g2.Get(Evening) && g1.Get(Night) == g2.Get(Night);
  }

  lemma ExampleHours()
    ensures WellFormed("5:40") && MakeEntry("5:40").hour24 == 5
    ensures WellFormed("12:15") && MakeEntry("12:15").hour24 == 12
    ensures WellFormed("17:00") && MakeEntry("17:00").hour24 == 17
    ensures WellFormed("23:10") && MakeEntry("23:10").hour24 == 23
  {
    assert HourText("5:40") == "5" && DigitsValue("5") == 5 by { assert "5"[..0] == ""; }
    assert HourText("12:15") == "12" && DigitsValue("12") == 12 by { assert "12"[..1] == "1"; }
    assert HourText("17:00") == "17" && DigitsValue("17") == 17 by { assert "17"[..1] == "1"; }
    assert HourText("23:10") == "23" && DigitsValue("23") == 23 by { assert "23"[..1] == "2"; }
    assert WellFormed("5:40") && WellFormed("12:15") && WellFormed("17:00") && WellFormed("23:10");
    EntryHour("5:40");
    EntryHour("12:15");
    EntryHour("17:00");
    EntryHour("23:10");
  }

  lemma EntryHour(s: string)
    requires WellFormed(s)
    ensures MakeEntry(s).hour24 == DigitsValue(HourText(s))
  {
  }

  lemma {:induction false} SelectOneEach(e0: Entry, e1: Entry, e2: Entry, e3: Entry)
    requires Classify(e0.hour24) == Morning && Classify(e1.hour24) == Afternoon
    requires Classify(e2.hour24) == Evening && Classify(e3.hour24) == Night
    ensures Select([e0, e1, e2, e3], Morning) == [e0]
    ensures Select([e0, e1, e2, e3], Afternoon) == [e1]
    ensures Select([e0, e1, e2, e3], Evening) == [e2]
    ensures Select([e0, e1, e2, e3], Night) == [e3]
  {
    assert [e0, e1, e2, e3] == [e0, e1, e2] + [e3];
    assert [e0, e1, e2] == [e0, e1] + [e2];
    assert [e0, e1] == [e0] + [e1];
    assert [e0] == [] + [e0];
    forall b ensures Select([e0], b) == if b == Morning then [e0] else [] {
      SelectSnoc([], e0, b);
    }
    forall b ensures Select([e0, e1], b) == Select([e0], b) + if b == Afternoon then [e1] else [] {
      SelectSnoc([e0], e1, b);
    }
    forall b ensures Select([e0, e1, e2], b) == Select([e0, e1], b) + if b == Evening then [e2] else [] {
      SelectSnoc([e0, e1], e2, b);
    }
    forall b ensures Select([e0, e1, e2, e3], b) == Select([e0, e1, e2], b) + if b == Night then [e3] else [] {
      SelectSnoc([e0, e1, e2], e3, b);
    }
  }

  /** Worked example: one departure in each part of the day. */
  lemma OnePerBucketExample()
    ensures AllWellFormed(["5:40", "12:15", "17:00", "23:10"])
    ensures Select(Entries(["5:40", "12:15", "17:00", "23:10"]), Morning) == [MakeEntry("5:40")]
    ensures Select(Entries(["5:40", "12:15", "17:00", "23:10"]), Afternoon) == [MakeEntry("12:15")]
    ensures Select(Entries(["5:40", "12:15", "17:00", "23:10"]), Evening) == [MakeEntry("17:00")]
    ensures Select(Entries(["5:40", "12:15", "17:00", "23:10"]), Night) == [MakeEntry("23:10")]
  {
    ExampleHours();
    EntriesOfFour("5:40", "12:15", "17:00", "23:10");
    SelectOneEach(MakeEntry("5:40"), MakeEntry("12:15"), MakeEntry("17:00"), MakeEntry("23:10"));
  }

  lemma EntriesOfFour(t0: string, t1: string, t2: string, t3: string)
    requires WellFormed(t0) && WellFormed(t1) && WellFormed(t2) && WellFormed(t3)
    ensures AllWellFormed([t0, t1, t2, t3])
    ensures Entries([t0, t1, t2, t3]) == [MakeEntry(t0), MakeEntry(t1), MakeEntry(t2), MakeEntry(t3)]
  {
    var times := [t0, t1, t2, t3];
    EntriesAt(times, 0);
    EntriesAt(times, 1);
    EntriesAt(times, 2);
    EntriesAt(times, 3);
  }

  // ---------------------------------------------------------------------
  // Labels

  /** The property names of the grouped object. */
  function KeyName(b: Bucket): string {
    match b
    case Morning => "morning"
    case Afternoon => "afternoon"
    case Evening => "evening"
    case Night => "night"
  }

  /** The heading shown above each bucket. */
  function Label(b: Bucket): string {
    match b
    case Morning => "\U{1F305} Morning (5 AM - 11:59 AM)"
    case Afternoon => "\U{2600}\U{FE0F} Afternoon (12 PM - 4:59 PM)"
    case Evening => "\U{1F306} Evening (5 PM - 8:59 PM)"
    case Night => "\U{1F319} Night (9 PM - 11:59 PM)"
  }

  /** The bucket whose property name is `key`, if any: the inverse of KeyName. */
  function BucketNamed(key: string): (r: Option<Bucket>)
    ensures r.Some? ==> key == KeyName(r.value)
    ensures r.None? <==> forall b :: key != KeyName(b)
  {
    if key == "morning" then Some(Morning)
    else if key == "afternoon" then Some(Afternoon)
    else if key == "evening" then Some(Evening)
    else if key == "night" then Some(Night)
    else None
  }

  /** `getPeriodLabel`: the heading for a bucket's name, and the name itself
      for anything else. */
  function PeriodLabel(key: string): (r: string)
    ensures forall b :: key == KeyName(b) ==> r == Label(b)
    ensures r == key <==> forall b :: key != KeyName(b)
  {
    match BucketNamed(key)
    case Some(b) =>
      assert Label(b)[0] != KeyName(b)[0];
      Label(b)
    case None => key
  }

  /** Every bucket the grouping produces gets its own heading, distinct from
      the others. */
  lemma LabelsDistinct(b1: Bucket, b2: Bucket)
    ensures PeriodLabel(KeyName(b1)) == PeriodLabel(KeyName(b2)) ==> b1 == b2
  {
  }
}
