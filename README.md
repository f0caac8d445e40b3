# Bus timetable: time conversion and part-of-day grouping

This project is a Dafny model of the only decision logic in the society
services directory: the timetable page for bus route 48
(`src/pages/BusTimetable.jsx`). That page takes a direction's list of
departure times, written as 24-hour `"H:MM"` strings, and does three things.

- `convertTo12Hour` reads the hour and minutes. It renders the time on a
  12-hour clock with an `AM`/`PM` suffix. This is modelled in module
  `TimeFormat` (`TimeFormat.dfy`).
- `groupTimesByPeriod` converts each time and pushes it onto one of four lists:
  morning, afternoon, evening or night. It then sorts each list by
  (hour, minutes) with the stable `Array.prototype.sort`.
- `getPeriodLabel` gives the heading shown above each list.

The last two are modelled in module `PeriodGrouping` (`PeriodGrouping.dfy`).

The model keeps the source's form:

- Conversion and labels are pure functions.
- The grouping loop is a method that appends to four sequences.
- Each list is sorted in place in an array, by an insertion sort that swaps
  neighbours only when the comparator says they are strictly out of order.

Stability is stated through runs. For each (hour, minutes) key, the run is
the subsequence of entries that carry that key. A stable sort keeps every run
unchanged. The lemma `SortedRunsDetermine` proves that "sorted and every run
kept" fixes the result uniquely. From that follow:

- every stable sort agrees with this one;
- the grouping is deterministic;
- sorting an already sorted list changes nothing.

The night bucket is the final `else` of the grouping chain. So it holds the
hours 0-4 as well as 21-23. Its heading, "Night (9 PM - 11:59 PM)", names only
the latter. The model follows the code.

## Model

| member | source | states |
|---|---|---|
| `TimeFormat.ShowNat` | src/pages/BusTimetable.jsx:49 | the rendered hour is non-empty decimal digits with no leading zero, and reading it back gives the number |
| `TimeFormat.Hour12` | src/pages/BusTimetable.jsx:47 | for hours 0..23 the 12-hour value lies in 1..12, and it always shows the same position on the clock face (equal modulo 12) |
| `TimeFormat.To24` | src/pages/BusTimetable.jsx:46-47 | the reverse reading: every 12-hour value 1..12 with a period maps to an hour 0..23 whose 12-hour value and period are the ones given |
| `TimeFormat.ClockRoundTrip` | src/pages/BusTimetable.jsx:46-47 | every hour 0..23 is recovered from its 12-hour value and its period |
| `TimeFormat.ConvertTo12Hour` | src/pages/BusTimetable.jsx:43-54 | `hour24` and `minutes` are the parsed integers, the hour at most 23; the period is PM exactly when the hour is at least 12; the display is the 12-hour value, `:`, the original minute characters, a space and the period |
| `TimeFormat.DisplayRoundTrip` | src/pages/BusTimetable.jsx:43-54 | reading the display string back gives the 24-hour hour and the original minute characters, so the display loses nothing |
| `TimeFormat.DisplayDetermines` | src/pages/BusTimetable.jsx:49-51 | two times with the same display have the same hour and minutes |
| `TimeFormat.FivePmExample` | src/pages/BusTimetable.jsx:43-54 | "17:00" is shown as "5:00 PM" |
| `TimeFormat.LateEveningExample` | src/pages/BusTimetable.jsx:43-54 | "23:10" is shown as "11:10 PM" |
| `TimeFormat.MidnightExample` | src/pages/BusTimetable.jsx:43-54 | "0:05" is shown as "12:05 AM" |
| `PeriodGrouping.MakeEntry` | src/pages/BusTimetable.jsx:66-67 | an entry keeps its input string as `original`, and its `time`, `hour24` and `minutes` are the conversion of that string: the parsed hour (at most 23), the parsed minutes (below 100) and the display string; its period is PM exactly for hours from 12 |
| `PeriodGrouping.EntriesAt` | src/pages/BusTimetable.jsx:65-67 | the i-th entry is the conversion of the i-th time and has it as `original` |
| `PeriodGrouping.Classify` | src/pages/BusTimetable.jsx:69-77 | morning iff 5 <= h < 12, afternoon iff 12 <= h < 17, evening iff 17 <= h < 21, night iff h < 5 or h >= 21 |
| `PeriodGrouping.SelectCount` | src/pages/BusTimetable.jsx:65-78 | a bucket holds each entry of its hours exactly as often as the input does, repeated times included, and nothing of other hours |
| `PeriodGrouping.SelectMembership` | src/pages/BusTimetable.jsx:65-78 | an entry is in a bucket iff it is an input entry whose hour classifies to that bucket, so each entry is in exactly one bucket |
| `PeriodGrouping.SelectPartition` | src/pages/BusTimetable.jsx:58-78 | the four bucket lengths sum to the input length, and the union of the four buckets as multisets is the input |
| `PeriodGrouping.BucketTimes` | src/pages/BusTimetable.jsx:65-78 | after the push loop each list is exactly the input entries of its bucket, in input order |
| `PeriodGrouping.Compare` | src/pages/BusTimetable.jsx:82-85 | the comparator is zero iff hour and minutes agree, and negative iff the first entry is earlier by hour, then by minutes |
| `PeriodGrouping.SwapKeepsRuns` | src/pages/BusTimetable.jsx:82-85 | exchanging two neighbours with different times keeps the relative order of every group of equal times |
| `PeriodGrouping.InsertAt` | src/pages/BusTimetable.jsx:82-85 | one insertion pass extends the sorted prefix by one entry, keeps every run and leaves the entries after it untouched |
| `PeriodGrouping.SortByTime` | src/pages/BusTimetable.jsx:81-86 | the array ends sorted by (hour, minutes), stable, a permutation of its old contents, and unchanged if it was already sorted |
| `PeriodGrouping.SortBucket` | src/pages/BusTimetable.jsx:81-86 | a list sorted through an array is a stable sort and a permutation of the list |
| `PeriodGrouping.SameRunsPermutes` | src/pages/BusTimetable.jsx:81-86 | keeping every run of equal times makes the result a permutation of the input |
| `PeriodGrouping.SortedRunsDetermine` | src/pages/BusTimetable.jsx:81-86 | two sorted sequences with the same runs are equal |
| `PeriodGrouping.StableSortUnique` | src/pages/BusTimetable.jsx:81-86 | any two stable sorts of a list give the same result |
| `PeriodGrouping.StableSortIdempotent` | src/pages/BusTimetable.jsx:82-85 | a stable sort of an already sorted list is that list |
| `PeriodGrouping.GroupTimesByPeriod` | src/pages/BusTimetable.jsx:57-89 | each returned list is the stable sort of the input entries of its bucket and a permutation of them, and the four lengths sum to the number of input times |
| `PeriodGrouping.GroupingUnique` | src/pages/BusTimetable.jsx:57-89 | the grouping has one outcome, so the same input always gives the same lists in the same order |
| `PeriodGrouping.OnePerBucketExample` | src/pages/BusTimetable.jsx:65-78 | "5:40", "12:15", "17:00", "23:10" give one entry each to morning, afternoon, evening and night |
| `PeriodGrouping.BucketNamed` | src/pages/BusTimetable.jsx:92-98 | among the labels table's own keys, a name is found exactly when it is one of the four bucket names, and what is found is the bucket of that name |
| `PeriodGrouping.PeriodLabel` | src/pages/BusTimetable.jsx:91-99 | each of the four bucket names gets its heading, and any other key the model is given comes back unchanged |
| `PeriodGrouping.LabelsDistinct` | src/pages/BusTimetable.jsx:91-99 | the four buckets get four different headings |

## Left out

- The timetable's JSX rendering (lines 101-260) and the literal route data are presentation and constant data. This includes the stored `totalTrips` values, which are not derived from the lists.
- `Array.prototype.sort` does not fix an algorithm, only a comparator and stability. The model sorts by insertion. `StableSortUnique` shows that any stable sort gives the same result.
- The grouped object's arrays are modelled as sequences. Each is copied into a fresh array to be sorted in place. Aliasing of those arrays by the caller is not modelled.
- `Object.keys` order only fixes the order in which the four lists are sorted, and they are independent. The order in which the page renders them is presentation.
- The contact pages are not part of this model, because there is no logic to model. `src/pages/AddContact.jsx:12-15` inserts the raw form into the remote store with no checks. There is no phone normalisation, no duplicate check, no merging of doctor or maid sub-types and no submission state machine in the code. The Supabase select and insert calls in `AddContact.jsx` and `Contact.jsx` are network I/O through a library not shown.
- `src/components/Toast.jsx` (a timer that closes the toast), `src/components/SocietyContacts.jsx`, `src/pages/Home.jsx` and `src/App.jsx` are left out. They are static data, an expand/collapse toggle, routing and layout.
- ConvertTo12Hour: requires a well-formed time. That is one or two hour digits with a value of at most 23, a colon and exactly two minute digits. `parseInt` on malformed text (NaN, trailing characters) is not modelled. The minute value is not bounded by 59, because the code does not check it.
- MakeEntry: same well-formedness requirement as ConvertTo12Hour.
- BucketTimes: every input time must be well formed, as for ConvertTo12Hour.
- GroupTimesByPeriod: every input time must be well formed, as for ConvertTo12Hour.
- BucketNamed: names inherited from `Object.prototype` (such as `toString` or `constructor`) are not modelled. For them the model returns None, while `labels[key]` in the source finds the inherited value. The only caller passes the four bucket names.
- PeriodLabel: names inherited from `Object.prototype` are not modelled. For them the model returns the key, while the source returns the inherited value (for `toString`, a function). The only caller passes the four bucket names.
