/**
 * The app's local record store (utils/storage.ts): the task and habit list, the date-keyed
 * mood and journal ledgers, the change-version counter and the first-launch flag.
 *
 * The platform key-value store is a `Store` object. Keys whose value is JSON are fields of
 * type `Raw<T>`: nothing stored, text that does not parse into the expected shape, or the
 * parsed value. Keys whose value is plain text (the version counter, the first-launch flag
 * and the onboarding answers) live in the `texts` map. What the app reads back from a slot
 * (the degrade-to-empty rule) is given by the functions `LoadTasks`, `ObjectOrEmpty` and
 * `ReadVersion`.
 */
module Storage {
  import opened Optional
  import opened Text

  // ---------------------------------------------------------------------------
  // Keys and constants
  // ---------------------------------------------------------------------------

  const TaskDataVersionKey: string := "@taskDataVersion"
  const FirstLaunchKey: string := "@firstLaunch"

  /** The mood palette used while none has been saved. */
  const DefaultMoodColors: seq<string> := ["#FF6347", "#8A2BE2", "#4169E1", "#32CD32", "#FFD700"]

  /** `moodNamesMap`: the colour name of each mood value; other values have none. */
  function MoodName(mood: int): (r: Option<string>)
    ensures r.Some? <==> 1 <= mood <= 5
    ensures r.Some? ==> r.value != ""
    ensures mood == 1 ==> r == Some("Red")
    ensures mood == 2 ==> r == Some("Purple")
    ensures mood == 3 ==> r == Some("Blue")
    ensures mood == 4 ==> r == Some("Green")
    ensures mood == 5 ==> r == Some("Yellow")
  {
    if mood == 1 then Some("Red")
    else if mood == 2 then Some("Purple")
    else if mood == 3 then Some("Blue")
    else if mood == 4 then Some("Green")
    else if mood == 5 then Some("Yellow")
    else None
  }

  // ---------------------------------------------------------------------------
  // Records
  // ---------------------------------------------------------------------------

  /** A stored task. `habitDatesCompleted` is the optional field of the record: `None` is
      a record without it. */
  datatype Task = Task(
    id: string,
    text: string,
    description: string,
    date: string,
    completed: bool,
    isHabit: bool,
    habitDatesCompleted: Option<seq<string>>,
    createdAt: string)

  datatype MoodEntry = MoodEntry(date: string, mood: int)

  /** What one JSON-valued key of the platform store holds, as the app sees it on reading:
      nothing (`null`, or an empty text), text that fails to parse or parses to the wrong
      shape, or a parsed value. For the palette slot, "the wrong shape" is narrower in the
      app than here: a parsed non-array is handed back as it is, and this model reads it as
      `Malformed`. */
  datatype Raw<T> = Absent | Malformed | Parsed(value: T)

  /** The local calendar fields of a JavaScript `Date`: `getFullYear()`, `getMonth() + 1`
      and `getDate()`. */
  datatype LocalDate = LocalDate(year: int, month: int, day: int)

  predicate IsCalendarDate(d: LocalDate) {
    1 <= d.month <= 12 && 1 <= d.day <= 31
  }

  // ---------------------------------------------------------------------------
  // formatDateLocal
  // ---------------------------------------------------------------------------

  /** A month or day number written with two digits, zero-padded. */
  function Pad2(n: nat): (r: string)
    requires 1 <= n <= 99
    ensures |r| == 2 && AllDigits(r) && DigitsValue(r) == n
  {
    var digits := NatToString(n);
    NatToStringRoundTrip(n);
    if n < 10 then
      assert PadStart(digits, 2, '0') == "0" + digits;
      LeadingZerosIgnored("0", digits);
      PadStart(digits, 2, '0')
    else
      assert |NatToString(n / 10)| == 1;
      PadStart(digits, 2, '0')
  }

  /** `formatDateLocal`: the local date as `year-MM-DD`. */
  function FormatDateLocal(d: LocalDate): (r: string)
    requires IsCalendarDate(d)
    ensures |r| >= 7 && r[|r| - 6] == '-' && r[|r| - 3] == '-'
    ensures r[..|r| - 6] == IntToString(d.year)
  {
    IntToString(d.year) + "-" + Pad2(d.month) + "-" + Pad2(d.day)
  }

  /** Reads a `year-MM-DD` text back into its calendar fields. */
  function ParseDateLocal(s: string): Option<LocalDate> {
    if |s| < 7 || s[|s| - 6] != '-' || s[|s| - 3] != '-' then None
    else
      var year := ParseInt(s[..|s| - 6]);
      var month := s[|s| - 5..|s| - 3];
      var day := s[|s| - 2..];
      if year.None? || !AllDigits(month) || !AllDigits(day) then None
      else Some(LocalDate(year.value, DigitsValue(month), DigitsValue(day)))
  }

  /** Formatting loses nothing: the fields read back from `formatDateLocal`'s text are the
      date's own. */
  lemma FormatDateLocalRoundTrip(d: LocalDate)
    requires IsCalendarDate(d)
    ensures ParseDateLocal(FormatDateLocal(d)) == Some(d)
  {
    ParseIntRoundTrip(d.year);
    ParseDateText(IntToString(d.year), Pad2(d.month), Pad2(d.day));
  }

  /** `year-MM-DD` reads back as its three parts. */
  lemma ParseDateText(year: string, month: string, day: string)
    requires ParseInt(year).Some? && |month| == 2 && |day| == 2 && AllDigits(month) && AllDigits(day)
    ensures ParseDateLocal(year + "-" + month + "-" + day)
         == Some(LocalDate(ParseInt(year).value, DigitsValue(month), DigitsValue(day)))
  {
    DateTextSlices(year, month, day);
  }

  /** Where the year, month and day sit in a `year-MM-DD` text. */
  lemma DateTextSlices(year: string, month: string, day: string)
    requires |month| == 2 && |day| == 2
    ensures var s := year + "-" + month + "-" + day;
      && |s| == |year| + 6 && s[|s| - 6] == '-' && s[|s| - 3] == '-'
      && s[..|s| - 6] == year && s[|s| - 5..|s| - 3] == month && s[|s| - 2..] == day
  {
    var s := year + "-" + month + "-" + day;
    assert s[..|s| - 6] == year;
    assert s[|s| - 5..|s| - 3] == month;
    assert s[|s| - 2..] == day;
  }

  /** For a four-digit year the text is `YYYY-MM-DD`: ten characters, dashes at 4 and 7,
      digits everywhere else. */
  lemma FormatDateLocalShape(d: LocalDate)
    requires IsCalendarDate(d) && 1000 <= d.year <= 9999
    ensures |FormatDateLocal(d)| == 10
    ensures FormatDateLocal(d)[4] == '-' && FormatDateLocal(d)[7] == '-'
    ensures forall i | 0 <= i < 10 && i != 4 && i != 7 :: IsDigit(FormatDateLocal(d)[i])
  {
    FourDigitYear(d.year);
    var year, month, day := IntToString(d.year), Pad2(d.month), Pad2(d.day);
    var s := FormatDateLocal(d);
    assert s == year + "-" + month + "-" + day;
    DateTextSlices(year, month, day);
    forall i | 0 <= i < 10 && i != 4 && i != 7 ensures IsDigit(s[i]) {
      if i < 4 {
        assert s[i] == s[..|s| - 6][i] == year[i];
      } else if i < 7 {
        assert s[i] == s[|s| - 5..|s| - 3][i - 5] == month[i - 5];
      } else {
        assert s[i] == s[|s| - 2..][i - 8] == day[i - 8];
      }
    }
  }

  /** A year from 1000 to 9999 prints as four digits. */
  lemma FourDigitYear(year: int)
    requires 1000 <= year <= 9999
    ensures |IntToString(year)| == 4 && AllDigits(IntToString(year))
  {
    assert |NatToString(year / 10 / 10 / 10)| == 1;
    assert |NatToString(year / 10 / 10)| == 2;
    assert |NatToString(year / 10)| == 3;
  }

  // ---------------------------------------------------------------------------
  // Reading slots: the degrade-to-empty rule
  // ---------------------------------------------------------------------------

  /** `loadTasks`: the stored list, or the empty list when nothing is stored or the stored
      text does not parse. */
  function LoadTasks(slot: Raw<seq<Task>>): (r: seq<Task>)
    ensures slot.Parsed? ==> r == slot.value
    ensures !slot.Parsed? ==> r == []
  {
    match slot
    case Parsed(tasks) => tasks
    case _ => []
  }

  /** The date-keyed object a ledger read starts from: the parsed object, or `{}` when the
      key is missing, its text does not parse, or it parses to an array, `null` or a
      primitive. */
  function ObjectOrEmpty<V>(slot: Raw<map<string, V>>): (m: map<string, V>)
    ensures slot.Parsed? ==> m == slot.value
    ensures !slot.Parsed? ==> m == map[]
  {
    match slot
    case Parsed(entries) => entries
    case _ => map[]
  }

  /** `getMoodForDate` / `getJournalEntryForDate`: the value stored under `date`, `None`
      (`undefined`) for a missing key, unreadable data or a missing date. */
  function LookupDate<V>(slot: Raw<map<string, V>>, date: string): (r: Option<V>)
    ensures r.Some? <==> slot.Parsed? && date in slot.value
    ensures r.Some? ==> r.value == slot.value[date]
  {
    var entries := ObjectOrEmpty(slot);
    if date in entries then Some(entries[date]) else None
  }

  /** `getMoodColors`: the stored palette, or the default one when nothing is stored or the
      stored text does not parse. */
  function MoodColorsOrDefault(slot: Raw<seq<string>>): (r: seq<string>)
    ensures slot.Parsed? ==> r == slot.value
    ensures !slot.Parsed? ==> r == DefaultMoodColors
  {
    match slot
    case Parsed(colors) => colors
    case _ => DefaultMoodColors
  }

  // ---------------------------------------------------------------------------
  // The version counter
  // ---------------------------------------------------------------------------

  /** `getTaskDataVersion`: 0 for a missing (or empty) text, otherwise `parseInt` of the
      text; `None` is `NaN`. */
  function ReadVersion(texts: map<string, string>): (r: Option<int>)
    ensures TaskDataVersionKey !in texts ==> r == Some(0)
  {
    if TaskDataVersionKey !in texts || texts[TaskDataVersionKey] == "" then Some(0)
    else ParseInt(texts[TaskDataVersionKey])
  }

  /** An empty version text reads as 0, like a missing one. */
  lemma EmptyVersionReadsZero(texts: map<string, string>)
    requires TaskDataVersionKey in texts && texts[TaskDataVersionKey] == ""
    ensures ReadVersion(texts) == Some(0)
  {
  }

  /** The text `updateTaskDataVersion` stores: `String(current + 1)`, which is `"NaN"` when
      the current reading is `NaN`. */
  function NextVersionText(texts: map<string, string>): string {
    match ReadVersion(texts)
    case Some(n) => IntToString(n + 1)
    case None => "NaN"
  }

  function Bumped(v: Option<int>): Option<int> {
    match v
    case Some(n) => Some(n + 1)
    case None => None
  }

  /** A bump raises a readable version by exactly one; an unreadable one stays unreadable. */
  lemma VersionBumpAddsOne(texts: map<string, string>)
    ensures ReadVersion(texts[TaskDataVersionKey := NextVersionText(texts)]) == Bumped(ReadVersion(texts))
  {
    var next := NextVersionText(texts);
    var bumped := texts[TaskDataVersionKey := next];
    assert TaskDataVersionKey in bumped && bumped[TaskDataVersionKey] == next;
    match ReadVersion(texts)
    case Some(n) =>
      assert next == IntToString(n + 1);
      ParseIntRoundTrip(n + 1);
      assert ReadVersion(bumped) == ParseInt(next);
    case None =>
      assert next == "NaN";
      assert TrimStart("NaN") == "NaN" by {
        assert !IsWhitespace('N');
      }
      ParseIntOfNonNumeralIsNaN("NaN");
      assert ReadVersion(bumped) == ParseInt(next);
  }

  // ---------------------------------------------------------------------------
  // The task list: per-record transforms
  // ---------------------------------------------------------------------------

  /** The record `addTask` creates: not completed, and with an empty completion list
      exactly when it is a habit. */
  function NewTask(id: string, text: string, description: string, date: string, isHabit: bool, createdAt: string): (r: Task)
    ensures r.id == id && r.text == text && r.description == description && r.date == date
    ensures r.isHabit == isHabit && r.createdAt == createdAt && !r.completed
    ensures isHabit ==> r.habitDatesCompleted == Some([])
    ensures !isHabit ==> r.habitDatesCompleted == None
  {
    Task(id, text, description, date, false, isHabit, if isHabit then Some([]) else None, createdAt)
  }

  /** `tasks.map(task => task.id === updated.id ? updated : task)`. */
  function ReplaceById(tasks: seq<Task>, updated: Task): (r: seq<Task>)
    ensures |r| == |tasks|
    ensures forall i | 0 <= i < |tasks| && tasks[i].id == updated.id :: r[i] == updated
    ensures forall i | 0 <= i < |tasks| && tasks[i].id != updated.id :: r[i] == tasks[i]
    ensures forall i | 0 <= i < |tasks| :: r[i].id == tasks[i].id
  {
    if tasks == [] then []
    else [if tasks[0].id == updated.id then updated else tasks[0]] + ReplaceById(tasks[1..], updated)
  }

  /** With an id no task has, replacing leaves the list as it was. */
  lemma {:induction false} ReplaceUnknownIdIsIdentity(tasks: seq<Task>, updated: Task)
    requires forall t | t in tasks :: t.id != updated.id
    ensures ReplaceById(tasks, updated) == tasks
  {
    if tasks != [] {
      ReplaceUnknownIdIsIdentity(tasks[1..], updated);
    }
  }

  /** Number of tasks with the given id. */
  function CountWithId(tasks: seq<Task>, id: string): nat {
    if tasks == [] then 0 else (if tasks[0].id == id then 1 else 0) + CountWithId(tasks[1..], id)
  }

  /** `tasks.filter(task => task.id !== id)`. */
  function RemoveById(tasks: seq<Task>, id: string): (r: seq<Task>)
    ensures |r| == |tasks| - CountWithId(tasks, id)
    ensures forall t | t in r :: t in tasks && t.id != id
    ensures forall t | t in tasks && t.id != id :: t in r
  {
    if tasks == [] then []
    else if tasks[0].id == id then RemoveById(tasks[1..], id)
    else [tasks[0]] + RemoveById(tasks[1..], id)
  }

  /** Removing keeps the order of what stays: it distributes over concatenation. */
  lemma {:induction false} RemoveByIdDistributes(a: seq<Task>, b: seq<Task>, id: string)
    ensures RemoveById(a + b, id) == RemoveById(a, id) + RemoveById(b, id)
  {
    if a == [] {
      assert a + b == b;
    } else {
      assert (a + b)[0] == a[0] && (a + b)[1..] == a[1..] + b;
      RemoveByIdDistributes(a[1..], b, id);
      if a[0].id != id {
        assert [a[0]] + (RemoveById(a[1..], id) + RemoveById(b, id))
            == ([a[0]] + RemoveById(a[1..], id)) + RemoveById(b, id);
      }
    }
  }

  /** With an id no task has, removing leaves the list as it was. */
  lemma {:induction false} RemoveUnknownIdIsIdentity(tasks: seq<Task>, id: string)
    requires forall t | t in tasks :: t.id != id
    ensures RemoveById(tasks, id) == tasks
  {
    if tasks != [] {
      RemoveUnknownIdIsIdentity(tasks[1..], id);
    }
  }

  /** Deleting the task just added under a fresh id gives back the list before the add. */
  lemma DeleteUndoesAdd(tasks: seq<Task>, t: Task)
    requires forall u | u in tasks :: u.id != t.id
    ensures RemoveById(tasks + [t], t.id) == tasks
  {
    RemoveByIdDistributes(tasks, [t], t.id);
    RemoveUnknownIdIsIdentity(tasks, t.id);
    assert RemoveById([t], t.id) == [];
  }

  /** `tasks.find(t => t.id === id)`: the first task with that id. */
  function FindById(tasks: seq<Task>, id: string): (r: Option<Task>)
    ensures r.None? <==> forall t | t in tasks :: t.id != id
    ensures r.Some? ==> r.value.id == id
    ensures r.Some? ==> exists i | 0 <= i < |tasks| :: tasks[i] == r.value && forall j | 0 <= j < i :: tasks[j].id != id
  {
    if tasks == [] then None
    else if tasks[0].id == id then Some(tasks[0])
    else
      var r := FindById(tasks[1..], id);
      assert r.Some? ==> exists i | 0 <= i < |tasks[1..]| :: tasks[1..][i] == r.value && forall j | 0 <= j < i :: tasks[1..][j].id != id;
      assert r.Some? ==> exists i | 0 <= i < |tasks| :: tasks[i] == r.value && forall j | 0 <= j < i :: tasks[j].id != id by {
        if r.Some? {
          var i :| 0 <= i < |tasks[1..]| && tasks[1..][i] == r.value && forall j | 0 <= j < i :: tasks[1..][j].id != id;
          assert tasks[i + 1] == r.value;
          forall j | 0 <= j < i + 1 ensures tasks[j].id != id {
            if j > 0 {
              assert tasks[j] == tasks[1..][j - 1];
            }
          }
        }
      }
      r
  }

  // ---------------------------------------------------------------------------
  // Habit completion dates
  // ---------------------------------------------------------------------------

  predicate NoDuplicates(s: seq<string>) {
    forall x | x in multiset(s) :: multiset(s)[x] == 1
  }

  /** `dates.filter(d => d !== day)`. */
  function RemoveDate(dates: seq<string>, day: string): (r: seq<string>)
    ensures multiset(r) == multiset(dates)[day := 0]
  {
    if dates == [] then []
    else
      var rest := RemoveDate(dates[1..], day);
      assert dates == [dates[0]] + dates[1..];
      assert multiset(dates) == multiset{dates[0]} + multiset(dates[1..]);
      if dates[0] == day then rest
      else
        assert multiset([dates[0]] + rest) == multiset{dates[0]} + multiset(rest);
        [dates[0]] + rest
  }

  /** Filtering keeps the relative order, so a sorted list stays sorted. */
  lemma {:induction false} RemoveDateKeepsOrder(dates: seq<string>, day: string)
    requires Sorted(dates)
    ensures Sorted(RemoveDate(dates, day))
  {
    if dates != [] {
      var rest := RemoveDate(dates[1..], day);
      RemoveDateKeepsOrder(dates[1..], day);
      if dates[0] != day {
        forall y | y in rest ensures StrLe(dates[0], y) {
          assert y in multiset(rest);
          SortedHeadIsLeast(dates, y);
        }
        var r := [dates[0]] + rest;
        assert forall j | 0 < j < |r| :: r[j] == rest[j - 1];
      }
    }
  }

  /** The completion list after toggling a habit on `day` (the habit branch of
      `toggleTaskCompletion`): every occurrence of `day` removed when it is there,
      otherwise `day` appended and the list sorted. A record without the list is read as
      an empty one. */
  function ToggleHabitDates(dates: Option<seq<string>>, day: string): (r: seq<string>)
    ensures day in r <==> !(dates.Some? && day in dates.value)
    ensures forall d | d != day :: d in r <==> dates.Some? && d in dates.value
    ensures (dates.Some? && day in dates.value && !Sorted(dates.value)) || Sorted(r)
    ensures dates.Some? && NoDuplicates(dates.value) ==> NoDuplicates(r)
    ensures dates.None? ==> r == [day]
  {
    if dates.Some? && day in dates.value then
      var r := RemoveDate(dates.value, day);
      assert forall d :: d in r <==> d in multiset(r);
      assert Sorted(dates.value) ==> Sorted(r) by {
        if Sorted(dates.value) {
          RemoveDateKeepsOrder(dates.value, day);
        }
      }
      r
    else
      var before := if dates.Some? then dates.value else [];
      var r := SortStrings(before + [day]);
      assert multiset(r) == multiset(before) + multiset{day};
      assert forall d :: d in r <==> d in multiset(r);
      assert dates.None? ==> r == [day] by {
        if dates.None? {
          assert before + [day] == [day];
        }
      }
      r
  }

  /** Completing a habit on a day it was not done keeps the earlier dates in order and puts
      the day in its sorted place. */
  lemma HabitCompletionInsertsInPlace(dates: seq<string>, day: string)
    requires Sorted(dates) && day !in dates
    ensures exists k | 0 <= k <= |dates| :: ToggleHabitDates(Some(dates), day) == dates[..k] + [day] + dates[k..]
  {
    var k := InsertionPoint(dates, day);
    var placed := dates[..k] + [day] + dates[k..];
    assert multiset(placed) == multiset(dates) + multiset{day} by {
      assert dates == dates[..k] + dates[k..];
    }
    var r := ToggleHabitDates(Some(dates), day);
    assert multiset(r) == multiset(dates) + multiset{day};
    SortedUnique(r, placed);
  }

  /** The number of dates that sort before `day`, and the proof that `day` fits there. */
  function InsertionPoint(dates: seq<string>, day: string): (k: nat)
    requires Sorted(dates)
    ensures k <= |dates| && Sorted(dates[..k] + [day] + dates[k..])
  {
    if dates == [] then 0
    else if StrLe(day, dates[0]) then
      var placed := [day] + dates;
      assert dates[..0] + [day] + dates[0..] == placed;
      forall i, j | 0 <= i < j < |placed| ensures StrLe(placed[i], placed[j]) {
        if i == 0 && j > 1 {
          StrLeTransitive(day, dates[0], dates[j - 1]);
        }
      }
      0
    else
      StrLeTotal(day, dates[0]);
      var k := InsertionPoint(dates[1..], day);
      var tail := dates[1..][..k] + [day] + dates[1..][k..];
      var placed := [dates[0]] + tail;
      assert dates[..k + 1] + [day] + dates[k + 1..] == placed;
      forall j | 0 <= j < |tail| ensures StrLe(dates[0], tail[j]) {
        if tail[j] != day {
          assert tail[j] in dates[1..];
          SortedHeadIsLeast(dates, tail[j]);
        }
      }
      k + 1
  }

  /** From a sorted list without duplicates, toggling the same day twice restores it. */
  lemma HabitToggleTwiceRestores(dates: seq<string>, day: string)
    requires Sorted(dates) && NoDuplicates(dates)
    ensures ToggleHabitDates(Some(ToggleHabitDates(Some(dates), day)), day) == dates
  {
    var once := ToggleHabitDates(Some(dates), day);
    var twice := ToggleHabitDates(Some(once), day);
    if day in dates {
      assert multiset(once) == multiset(dates)[day := 0];
      assert multiset(dates)[day] == 1;
      assert multiset(twice) == multiset(once) + multiset{day};
      assert multiset(twice) == multiset(dates);
    } else {
      assert multiset(once) == multiset(dates) + multiset{day};
      assert multiset(dates)[day] == 0;
      assert multiset(twice) == multiset(once)[day := 0];
      assert multiset(twice) == multiset(dates);
    }
    SortedUnique(twice, dates);
  }

  /** The record after one toggle: a habit flips `day` in its completion list, any other
      task flips `completed`. */
  function ToggledTask(t: Task, day: string): (r: Task)
    ensures r.id == t.id && r.isHabit == t.isHabit
    ensures !t.isHabit ==> r.completed == !t.completed && r.(completed := t.completed) == t
    ensures t.isHabit ==> r.habitDatesCompleted == Some(ToggleHabitDates(t.habitDatesCompleted, day))
    ensures t.isHabit ==> r.(habitDatesCompleted := t.habitDatesCompleted) == t
  {
    if t.isHabit then t.(habitDatesCompleted := Some(ToggleHabitDates(t.habitDatesCompleted, day)))
    else t.(completed := !t.completed)
  }

  /** Toggling twice restores a plain task, and a habit whose completion list is sorted and
      free of duplicates. */
  lemma ToggleTwiceRestoresTask(t: Task, day: string)
    requires t.isHabit ==> t.habitDatesCompleted.Some? && Sorted(t.habitDatesCompleted.value)
    requires t.isHabit ==> NoDuplicates(t.habitDatesCompleted.value)
    ensures ToggledTask(ToggledTask(t, day), day) == t
  {
    if t.isHabit {
      HabitToggleTwiceRestores(t.habitDatesCompleted.value, day);
    }
  }

  /** `currentDate || formatDateLocal()`: an empty date falls back to today. */
  function ResolveDay(currentDate: string, today: LocalDate): (r: string)
    requires IsCalendarDate(today)
    ensures currentDate != "" ==> r == currentDate
    ensures currentDate == "" ==> r == FormatDateLocal(today)
  {
    if currentDate != "" then currentDate else FormatDateLocal(today)
  }

  // ---------------------------------------------------------------------------
  // The store
  // ---------------------------------------------------------------------------

  class Store {
    var tasksSlot: Raw<seq<Task>>
    var moodsSlot: Raw<map<string, int>>
    var journalSlot: Raw<map<string, string>>
    var moodColorsSlot: Raw<seq<string>>
    /** Keys holding plain text: the version counter, the first-launch flag, the nickname
        and the initial mood colour. */
    var texts: map<string, string>

    /** A store with nothing in it, as on first install. */
    constructor ()
      ensures tasksSlot == Absent && moodsSlot == Absent && journalSlot == Absent
      ensures moodColorsSlot == Absent && texts == map[]
    {
      tasksSlot := Absent;
      moodsSlot := Absent;
      journalSlot := Absent;
      moodColorsSlot := Absent;
      texts := map[];
    }

    function Tasks(): seq<Task>
      reads this
    {
      LoadTasks(tasksSlot)
    }

    function Version(): Option<int>
      reads this
    {
      ReadVersion(texts)
    }

    /** `getMoodForDate`: the mood stored for `date`, `undefined` when there is none or the
        ledger cannot be read. */
    function GetMoodForDate(date: string): (r: Option<int>)
      reads this
      ensures r.Some? <==> moodsSlot.Parsed? && date in moodsSlot.value
      ensures r.Some? ==> r.value == moodsSlot.value[date]
    {
      LookupDate(moodsSlot, date)
    }

    /** `getJournalEntryForDate`: the entry stored for `date`, `undefined` when there is none
        or the journal cannot be read. */
    function GetJournalEntryForDate(date: string): (r: Option<string>)
      reads this
      ensures r.Some? <==> journalSlot.Parsed? && date in journalSlot.value
      ensures r.Some? ==> r.value == journalSlot.value[date]
    {
      LookupDate(journalSlot, date)
    }

    /** `getMoodColors`: the stored palette, the default one when none can be read. */
    function GetMoodColors(): (r: seq<string>)
      reads this
      ensures moodColorsSlot.Parsed? ==> r == moodColorsSlot.value
      ensures !moodColorsSlot.Parsed? ==> r == DefaultMoodColors
    {
      MoodColorsOrDefault(moodColorsSlot)
    }

    /** `checkFirstLaunch`: true until the flag key has been written. */
    function CheckFirstLaunch(): (r: bool)
      reads this
      ensures r <==> FirstLaunchKey !in texts
    {
      FirstLaunchKey !in texts
    }

    /** `AsyncStorage.setItem` on a plain-text key. */
    method SetItem(key: string, value: string)
      modifies this
      ensures texts == old(texts)[key := value]
      ensures tasksSlot == old(tasksSlot) && moodsSlot == old(moodsSlot)
      ensures journalSlot == old(journalSlot) && moodColorsSlot == old(moodColorsSlot)
    {
      texts := texts[key := value];
    }

    /** `setFirstLaunchCompleted`. */
    method SetFirstLaunchCompleted()
      modifies this
      ensures texts == old(texts)[FirstLaunchKey := "true"]
      ensures !CheckFirstLaunch()
      ensures tasksSlot == old(tasksSlot) && moodsSlot == old(moodsSlot)
      ensures journalSlot == old(journalSlot) && moodColorsSlot == old(moodColorsSlot)
    {
      SetItem(FirstLaunchKey, "true");
    }

    /** `updateTaskDataVersion`: stores the current reading plus one. */
    method UpdateTaskDataVersion()
      modifies this
      ensures texts == old(texts)[TaskDataVersionKey := NextVersionText(old(texts))]
      ensures Version() == Bumped(old(Version()))
      ensures tasksSlot == old(tasksSlot) && moodsSlot == old(moodsSlot)
      ensures journalSlot == old(journalSlot) && moodColorsSlot == old(moodColorsSlot)
    {
      var current := ReadVersion(texts);
      var next := match current
        case Some(n) => IntToString(n + 1)
        case None => "NaN";
      assert next == NextVersionText(texts);
      VersionBumpAddsOne(texts);
      texts := texts[TaskDataVersionKey := next];
    }

    /** `saveTasks`: writes the whole list, then bumps the version. */
    method SaveTasks(tasks: seq<Task>)
      modifies this
      ensures tasksSlot == Parsed(tasks) && Tasks() == tasks
      ensures texts == old(texts)[TaskDataVersionKey := NextVersionText(old(texts))]
      ensures Version() == Bumped(old(Version()))
      ensures moodsSlot == old(moodsSlot) && journalSlot == old(journalSlot)
      ensures moodColorsSlot == old(moodColorsSlot)
    {
      tasksSlot := Parsed(tasks);
      UpdateTaskDataVersion();
    }

    /** `addTask`: appends a fresh record and saves. The id and the creation date, which the
        source draws from a uuid generator and the clock, are parameters. */
    method AddTask(text: string, description: string, date: string, isHabit: bool, id: string, today: LocalDate)
      returns (t: Task)
      requires IsCalendarDate(today)
      modifies this
      ensures t == NewTask(id, text, description, date, isHabit, FormatDateLocal(today))
      ensures Tasks() == old(Tasks()) + [t]
      ensures texts == old(texts)[TaskDataVersionKey := NextVersionText(old(texts))]
      ensures Version() == Bumped(old(Version()))
      ensures moodsSlot == old(moodsSlot) && journalSlot == old(journalSlot)
      ensures moodColorsSlot == old(moodColorsSlot)
    {
      t := NewTask(id, text, description, date, isHabit, FormatDateLocal(today));
      var tasks := LoadTasks(tasksSlot);
      SaveTasks(tasks + [t]);
    }

    /** `updateTask`: replaces every record with the same id, then saves (also when no
        record has that id). */
    method UpdateTask(updated: Task)
      modifies this
      ensures Tasks() == ReplaceById(old(Tasks()), updated)
      ensures texts == old(texts)[TaskDataVersionKey := NextVersionText(old(texts))]
      ensures Version() == Bumped(old(Version()))
      ensures moodsSlot == old(moodsSlot) && journalSlot == old(journalSlot)
      ensures moodColorsSlot == old(moodColorsSlot)
    {
      var tasks := LoadTasks(tasksSlot);
      SaveTasks(ReplaceById(tasks, updated));
    }

    /** `deleteTask`: drops every record with that id, then saves. */
    method DeleteTask(id: string)
      modifies this
      ensures Tasks() == RemoveById(old(Tasks()), id)
      ensures texts == old(texts)[TaskDataVersionKey := NextVersionText(old(texts))]
      ensures Version() == Bumped(old(Version()))
      ensures moodsSlot == old(moodsSlot) && journalSlot == old(journalSlot)
      ensures moodColorsSlot == old(moodColorsSlot)
    {
      var tasks := LoadTasks(tasksSlot);
      SaveTasks(RemoveById(tasks, id));
    }

    /** `toggleTaskCompletion`: with an unknown id nothing is written and the version stays;
        otherwise the first record with that id is toggled and written over every record
        with that id. `today` is the clock's date, read only when `currentDate` is empty. */
    method ToggleTaskCompletion(taskId: string, currentDate: string, today: LocalDate)
      requires IsCalendarDate(today)
      modifies this
      ensures FindById(old(Tasks()), taskId).None? ==>
        tasksSlot == old(tasksSlot) && texts == old(texts)
      ensures FindById(old(Tasks()), taskId).Some? ==>
        && Tasks() == ReplaceById(old(Tasks()), ToggledTask(FindById(old(Tasks()), taskId).value, ResolveDay(currentDate, today)))
        && texts == old(texts)[TaskDataVersionKey := NextVersionText(old(texts))]
        && Version() == Bumped(old(Version()))
      ensures moodsSlot == old(moodsSlot) && journalSlot == old(journalSlot)
      ensures moodColorsSlot == old(moodColorsSlot)
    {
      var tasks := LoadTasks(tasksSlot);
      var found := FindById(tasks, taskId);
      if found.None? {
        return;
      }
      var toToggle := found.value;
      var updated: Task;
      if toToggle.isHabit {
        var day := ResolveDay(currentDate, today);
        var isCompletedToday := toToggle.habitDatesCompleted.Some? && day in toToggle.habitDatesCompleted.value;
        if isCompletedToday {
          updated := toToggle.(habitDatesCompleted := Some(RemoveDate(toToggle.habitDatesCompleted.value, day)));
        } else {
          var before := if toToggle.habitDatesCompleted.Some? then toToggle.habitDatesCompleted.value else [];
          updated := toToggle.(habitDatesCompleted := Some(SortStrings(before + [day])));
        }
      } else {
        updated := toToggle.(completed := !toToggle.completed);
      }
      assert updated == ToggledTask(toToggle, ResolveDay(currentDate, today));
      UpdateTask(updated);
    }

    /** `setMoodForDate`. The date is set on the object read from the store (an empty one
        when the stored data is missing or unreadable) and written back; the store is read
        again, and only when that read-back shows `mood` under `date` is the version bumped
        and `mood` returned. `landed` says whether the write is visible to the read-back;
        when it is not, the store still holds what it held before. */
    method SetMoodForDate(date: string, mood: int, landed: bool) returns (r: Option<int>)
      modifies this
      ensures moodsSlot == if landed then Parsed(ObjectOrEmpty(old(moodsSlot))[date := mood]) else old(moodsSlot)
      ensures r == Some(mood) <==> landed || old(GetMoodForDate(date)) == Some(mood)
      ensures r.Some? ==> r == Some(mood) && GetMoodForDate(date) == Some(mood)
      ensures landed ==> forall d | d != date :: GetMoodForDate(d) == old(GetMoodForDate(d))
      ensures r.Some? ==> texts == old(texts)[TaskDataVersionKey := NextVersionText(old(texts))]
      ensures r.Some? ==> Version() == Bumped(old(Version()))
      ensures r.None? ==> texts == old(texts)
      ensures tasksSlot == old(tasksSlot) && journalSlot == old(journalSlot)
      ensures moodColorsSlot == old(moodColorsSlot)
    {
      var moods := ObjectOrEmpty(moodsSlot);
      moods := moods[date := mood];
      if landed {
        moodsSlot := Parsed(moods);
      }
      var verifiedMood := LookupDate(moodsSlot, date);
      if verifiedMood == Some(mood) {
        UpdateTaskDataVersion();
        r := Some(mood);
      } else {
        r := None;
      }
    }

    /** `getAllMoodsAsArray`: one entry per stored date, carrying its mood. */
    method GetAllMoodsAsArray() returns (entries: seq<MoodEntry>)
      ensures |entries| == |ObjectOrEmpty(moodsSlot).Keys|
      ensures forall i | 0 <= i < |entries| ::
        entries[i].date in ObjectOrEmpty(moodsSlot) && entries[i].mood == ObjectOrEmpty(moodsSlot)[entries[i].date]
      ensures forall i, j | 0 <= i < j < |entries| :: entries[i].date != entries[j].date
      ensures forall d | d in ObjectOrEmpty(moodsSlot) :: exists i | 0 <= i < |entries| :: entries[i].date == d
    {
      var moods := ObjectOrEmpty(moodsSlot);
      var remaining := moods.Keys;
      entries := [];
      while remaining != {}
        invariant remaining <= moods.Keys
        invariant forall i | 0 <= i < |entries| ::
          entries[i].date in moods && entries[i].date !in remaining && entries[i].mood == moods[entries[i].date]
        invariant forall i, j | 0 <= i < j < |entries| :: entries[i].date != entries[j].date
        invariant forall d | d in moods && d !in remaining :: exists i | 0 <= i < |entries| :: entries[i].date == d
        invariant |entries| + |remaining| == |moods.Keys|
        decreases remaining
      {
        var date :| date in remaining;
        ghost var previous := entries;
        entries := entries + [MoodEntry(date, moods[date])];
        remaining := remaining - {date};
        forall d | d in moods && d !in remaining ensures exists i | 0 <= i < |entries| :: entries[i].date == d {
          if d == date {
            assert entries[|entries| - 1].date == d;
          } else {
            var i :| 0 <= i < |previous| && previous[i].date == d;
            assert entries[i].date == d;
          }
        }
      }
    }

    /** `saveJournalEntry`: sets the date on the object read from the store (an empty one
        when the stored data is missing or unreadable), writes it back, bumps the version. */
    method SaveJournalEntry(date: string, entry: string)
      modifies this
      ensures journalSlot == Parsed(ObjectOrEmpty(old(journalSlot))[date := entry])
      ensures GetJournalEntryForDate(date) == Some(entry)
      ensures forall d | d != date :: GetJournalEntryForDate(d) == old(GetJournalEntryForDate(d))
      ensures texts == old(texts)[TaskDataVersionKey := NextVersionText(old(texts))]
      ensures Version() == Bumped(old(Version()))
      ensures tasksSlot == old(tasksSlot) && moodsSlot == old(moodsSlot)
      ensures moodColorsSlot == old(moodColorsSlot)
    {
      var entries := ObjectOrEmpty(journalSlot);
      entries := entries[date := entry];
      journalSlot := Parsed(entries);
      UpdateTaskDataVersion();
    }
  }

  /** Corrupt mood data reads as no mood, and a later confirmed write is read back. */
  method CorruptMoodDataRecovers(date: string, other: string)
  {
    var store := new Store();
    store.moodsSlot := Malformed;
    assert store.GetMoodForDate(date) == None && store.GetMoodForDate(other) == None;
    var r := store.SetMoodForDate(date, 3, true);
    assert r == Some(3) && store.GetMoodForDate(date) == Some(3);
    assert store.Version() == Some(1);
  }

  /** Two writes to one date: the second wins. */
  method MoodLastWriteWins(date: string)
  {
    var store := new Store();
    var first := store.SetMoodForDate(date, 2, true);
    var second := store.SetMoodForDate(date, 5, true);
    assert store.GetMoodForDate(date) == Some(5);
    assert store.Version() == Some(2);
  }

  /** An added task is read back, not completed, with the given fields. */
  method AddedTaskIsLoaded(id: string, today: LocalDate)
    requires IsCalendarDate(today)
  {
    var store := new Store();
    var t := store.AddTask("Buy milk", "", "2024-01-05", false, id, today);
    assert store.Tasks() == [t];
    assert !t.completed && !t.isHabit && t.text == "Buy milk" && t.date == "2024-01-05";
    store.UpdateTask(t.(id := id + "?"));
    assert store.Tasks() == [t];
  }
}
