/** The bucket browser: the verses grouped by bucket, each group narrowed to today's slot or
    to a weekday or date the user steps through, and the add-verse dialog toggle. */
module VerseBuckets {
  import opened Types
  import opened Seqs
  import opened Scheduler

  /** The verses of one bucket, in stored order. */
  function BucketVerses(verses: seq<Verse>, b: BucketType): (r: seq<Verse>)
    ensures forall v :: v in r <==> v in verses && v.bucket == b
    ensures SubsequenceOf(r, verses)
  {
    Filter(verses, (v: Verse) => v.bucket == b)
  }

  /** The four bucket lists partition the verses: counted with multiplicity, every verse is in
      exactly the list of its bucket, so the list lengths add up to the number of verses. */
  lemma {:induction false} BucketsPartition(verses: seq<Verse>)
    ensures multiset(verses) ==
              multiset(BucketVerses(verses, Daily)) + multiset(BucketVerses(verses, OddEven)) +
              multiset(BucketVerses(verses, DaysOfWeek)) + multiset(BucketVerses(verses, DatesOfMonth))
    ensures |verses| ==
              |BucketVerses(verses, Daily)| + |BucketVerses(verses, OddEven)| +
              |BucketVerses(verses, DaysOfWeek)| + |BucketVerses(verses, DatesOfMonth)|
    decreases |verses|
  {
    if verses != [] {
      BucketsPartition(verses[1..]);
      BucketVersesCons(verses, Daily);
      BucketVersesCons(verses, OddEven);
      BucketVersesCons(verses, DaysOfWeek);
      BucketVersesCons(verses, DatesOfMonth);
      MultisetCons(verses);
    }
    assert |multiset(verses)| == |verses|;
  }

  /** One verse at a time: the head of the list joins the list of its own bucket only. */
  lemma BucketVersesCons(verses: seq<Verse>, b: BucketType)
    requires verses != []
    ensures multiset(BucketVerses(verses, b)) ==
              (if verses[0].bucket == b then multiset{verses[0]} else multiset{}) +
              multiset(BucketVerses(verses[1..], b))
  {
    FilterMultisetCons(verses, (v: Verse) => v.bucket == b);
  }

  /** Members of a list holding a given position. */
  function AtPosition(verses: seq<Verse>, position: int): (r: seq<Verse>)
    ensures forall v :: v in r <==> v in verses && v.bucketPosition == Some(position)
    ensures SubsequenceOf(r, verses)
  {
    Filter(verses, (v: Verse) => v.bucketPosition == Some(position))
  }

  /** The odd/even verses whose slot matches today's parity. */
  function OddEvenToday(verses: seq<Verse>, today: CalendarDay): (r: seq<Verse>)
    ensures SubsequenceOf(r, BucketVerses(verses, OddEven))
    ensures forall v :: v in r <==>
              v in verses && v.bucket == OddEven && ParityMatches(v.bucketPosition, today.dayOfMonth)
  {
    Filter(BucketVerses(verses, OddEven), (v: Verse) => ParityMatches(v.bucketPosition, today.dayOfMonth))
  }

  /** The odd/even list of the browser is exactly the odd/even part of the app's due list: the
      two use the same parity rule. */
  lemma OddEvenTodayIsDue(verses: seq<Verse>, today: CalendarDay)
    ensures OddEvenToday(verses, today) == BucketVerses(DueVerses(verses, today), OddEven)
  {
    FilterTwiceCongruent(verses,
      (v: Verse) => v.bucket == OddEven, (v: Verse) => ParityMatches(v.bucketPosition, today.dayOfMonth),
      (v: Verse) => IsDue(v, today), (v: Verse) => v.bucket == OddEven);
  }

  /** When the selected weekday (or date) is today's, the weekly (or monthly) list is exactly
      that bucket's part of the app's due list. */
  lemma SelectedTodayIsDue(verses: seq<Verse>, today: CalendarDay)
    ensures AtPosition(BucketVerses(verses, DaysOfWeek), today.dayOfWeek) ==
              BucketVerses(DueVerses(verses, today), DaysOfWeek)
    ensures AtPosition(BucketVerses(verses, DatesOfMonth), today.dayOfMonth) ==
              BucketVerses(DueVerses(verses, today), DatesOfMonth)
  {
    FilterTwiceCongruent(verses,
      (v: Verse) => v.bucket == DaysOfWeek, (v: Verse) => v.bucketPosition == Some(today.dayOfWeek),
      (v: Verse) => IsDue(v, today), (v: Verse) => v.bucket == DaysOfWeek);
    FilterTwiceCongruent(verses,
      (v: Verse) => v.bucket == DatesOfMonth, (v: Verse) => v.bucketPosition == Some(today.dayOfMonth),
      (v: Verse) => IsDue(v, today), (v: Verse) => v.bucket == DatesOfMonth);
  }

  /** The daily list holds every daily verse, all of which are due. */
  lemma DailyListIsDue(verses: seq<Verse>, today: CalendarDay)
    ensures BucketVerses(verses, Daily) == BucketVerses(DueVerses(verses, today), Daily)
  {
    FilterAbsorbs(verses, (v: Verse) => IsDue(v, today), (v: Verse) => v.bucket == Daily);
  }

  /** One section of the browser. `all` is the whole bucket for the sections that show a
      "today / total" count, and `current` says whether the section shows today. */
  datatype Panel = Panel(name: string, shown: seq<Verse>, all: Option<seq<Verse>>, current: bool)

  /** The four sections, in bucket order. */
  function Panels(verses: seq<Verse>, today: CalendarDay, selectedDay: int, selectedDate: int): (r: seq<Panel>)
    ensures |r| == |Buckets|
    ensures forall i, v :: 0 <= i < |r| && v in r[i].shown ==> v in verses && v.bucket == Buckets[i]
    ensures forall i :: 0 <= i < |r| && r[i].all.Some? ==>
              SubsequenceOf(r[i].shown, r[i].all.value) && |r[i].shown| <= |r[i].all.value|
    ensures r[0].all.None? && r[0].current && r[1].current
    ensures r[1].all == Some(BucketVerses(verses, OddEven))
    ensures r[2].all == Some(BucketVerses(verses, DaysOfWeek))
    ensures r[3].all == Some(BucketVerses(verses, DatesOfMonth))
    ensures r[0].shown == BucketVerses(verses, Daily)
    ensures forall v :: v in r[1].shown <==>
              v in verses && v.bucket == OddEven && ParityMatches(v.bucketPosition, today.dayOfMonth)
    ensures forall v :: v in r[2].shown <==>
              v in verses && v.bucket == DaysOfWeek && v.bucketPosition == Some(selectedDay)
    ensures forall v :: v in r[3].shown <==>
              v in verses && v.bucket == DatesOfMonth && v.bucketPosition == Some(selectedDate)
    ensures r[2].current <==> selectedDay == today.dayOfWeek
    ensures r[3].current <==> selectedDate == today.dayOfMonth
  {
    var weekly := BucketVerses(verses, DaysOfWeek);
    var monthly := BucketVerses(verses, DatesOfMonth);
    [ Panel("Daily", BucketVerses(verses, Daily), None, true),
      Panel("Odd/Even Days", OddEvenToday(verses, today), Some(BucketVerses(verses, OddEven)), true),
      Panel("Days of Week", AtPosition(weekly, selectedDay), Some(weekly), selectedDay == today.dayOfWeek),
      Panel("Dates of Month", AtPosition(monthly, selectedDate), Some(monthly), selectedDate == today.dayOfMonth) ]
  }

  /** A section marked current shows exactly today's due verses of its bucket. */
  lemma CurrentPanelsShowDueVerses(verses: seq<Verse>, today: CalendarDay, selectedDay: int, selectedDate: int)
    ensures var r := Panels(verses, today, selectedDay, selectedDate);
            forall i :: 0 <= i < |r| && r[i].current ==>
              r[i].shown == BucketVerses(DueVerses(verses, today), Buckets[i])
  {
    var r := Panels(verses, today, selectedDay, selectedDate);
    DailyListIsDue(verses, today);
    OddEvenTodayIsDue(verses, today);
    SelectedTodayIsDue(verses, today);
    forall i | 0 <= i < |r| && r[i].current
      ensures r[i].shown == BucketVerses(DueVerses(verses, today), Buckets[i])
    {
      if i == 2 {
        assert selectedDay == today.dayOfWeek;
      } else if i == 3 {
        assert selectedDate == today.dayOfMonth;
      }
    }
  }

  /** Viewing today's weekday and date, the four sections together show the due list, each
      due verse exactly once. */
  lemma DueListSplitsIntoPanels(verses: seq<Verse>, today: CalendarDay)
    ensures var r := Panels(verses, today, today.dayOfWeek, today.dayOfMonth);
            multiset(DueVerses(verses, today)) ==
              multiset(r[0].shown) + multiset(r[1].shown) + multiset(r[2].shown) + multiset(r[3].shown)
  {
    var r := Panels(verses, today, today.dayOfWeek, today.dayOfMonth);
    CurrentPanelsShowDueVerses(verses, today, today.dayOfWeek, today.dayOfMonth);
    assert r[0].current && r[1].current && r[2].current && r[3].current;
    BucketsPartition(DueVerses(verses, today));
  }

  /** Weekday navigation, wrapping around the week. */
  function NextDay(day: int): (r: int)
    requires 0 <= day <= 6
    ensures 0 <= r <= 6
    ensures r == if day == 6 then 0 else day + 1
  {
    (day + 1) % 7
  }

  function PrevDay(day: int): (r: int)
    requires 0 <= day <= 6
    ensures 0 <= r <= 6
    ensures r == if day == 0 then 6 else day - 1
  {
    (day - 1 + 7) % 7
  }

  /** Stepping back and forward through the week undo each other. */
  lemma DayStepsInverse(day: int)
    requires 0 <= day <= 6
    ensures PrevDay(NextDay(day)) == day && NextDay(PrevDay(day)) == day
  {
  }

  /** Date navigation forward: 1..31 onto itself, 31 wrapping to 1. */
  function NextDate(date: int): (r: int)
    requires 1 <= date <= 31
    ensures 1 <= r <= 31
    ensures r == if date == 31 then 1 else date + 1
  {
    date % 31 + 1
  }

  /** Date navigation backward, as the browser computes it. */
  function PrevDate(date: int): (r: int)
    requires 1 <= date <= 31
    ensures 1 <= r <= 31
  {
    (date - 1 + 31) % 31 + 1
  }

  /** The backward step never moves: it is the identity on 1..31. */
  lemma PrevDateIsIdentity(date: int)
    requires 1 <= date <= 31
    ensures PrevDate(date) == date
  {
  }

  /** So it does not undo a forward step: from the 5th, forward then back lands on the 6th. */
  lemma PrevDateDoesNotUndoNextDate()
    ensures PrevDate(NextDate(5)) == 6
    ensures exists date :: 1 <= date <= 31 && PrevDate(NextDate(date)) != date
  {
    assert PrevDate(NextDate(5)) != 5;
  }

  /** The backward step the browser evidently intends: 1 wraps to 31. */
  function PrevDateIntended(date: int): (r: int)
    requires 1 <= date <= 31
    ensures 1 <= r <= 31
    ensures r == if date == 1 then 31 else date - 1
  {
    (date - 2 + 31) % 31 + 1
  }

  /** The intended backward step and the forward step undo each other. */
  lemma DateStepsInverse(date: int)
    requires 1 <= date <= 31
    ensures PrevDateIntended(NextDate(date)) == date && NextDate(PrevDateIntended(date)) == date
  {
  }

  /** The browser's own state: the weekday and date being viewed, and whether the add-verse
      dialog is open. The verses and today's date are inputs it reads. */
  class BucketBrowser {
    const today: CalendarDay
    var selectedDay: int
    var selectedDate: int
    var showAddModal: bool

    ghost predicate Valid()
      reads this
    {
      today.Valid() && 0 <= selectedDay <= 6 && 1 <= selectedDate <= 31
    }

    /** The browser opens on today's weekday and date, dialog closed. */
    constructor (today: CalendarDay)
      requires today.Valid()
      ensures Valid() && this.today == today
      ensures selectedDay == today.dayOfWeek && selectedDate == today.dayOfMonth && !showAddModal
    {
      this.today := today;
      selectedDay := today.dayOfWeek;
      selectedDate := today.dayOfMonth;
      showAddModal := false;
    }

    /** The sections as currently displayed. */
    function CurrentPanels(verses: seq<Verse>): (r: seq<Panel>)
      reads this
      ensures |r| == 4
      ensures r[2].current <==> selectedDay == today.dayOfWeek
      ensures r[3].current <==> selectedDate == today.dayOfMonth
    {
      Panels(verses, today, selectedDay, selectedDate)
    }

    method HandlePrevDay()
      requires Valid()
      modifies this
      ensures Valid()
      ensures selectedDay == PrevDay(old(selectedDay))
      ensures selectedDate == old(selectedDate) && showAddModal == old(showAddModal)
    {
      selectedDay := (selectedDay - 1 + 7) % 7;
    }

    method HandleNextDay()
      requires Valid()
      modifies this
      ensures Valid()
      ensures selectedDay == NextDay(old(selectedDay))
      ensures selectedDate == old(selectedDate) && showAddModal == old(showAddModal)
    {
      selectedDay := (selectedDay + 1) % 7;
    }

    /** As written, this leaves the selected date where it is (see PrevDateIsIdentity). */
    method HandlePrevDate()
      requires Valid()
      modifies this
      ensures Valid()
      ensures selectedDate == PrevDate(old(selectedDate)) == old(selectedDate)
      ensures selectedDay == old(selectedDay) && showAddModal == old(showAddModal)
    {
      selectedDate := (selectedDate - 1 + 31) % 31 + 1;
    }

    method HandleNextDate()
      requires Valid()
      modifies this
      ensures Valid()
      ensures selectedDate == NextDate(old(selectedDate))
      ensures selectedDay == old(selectedDay) && showAddModal == old(showAddModal)
    {
      selectedDate := selectedDate % 31 + 1;
    }

    /** The "Add Verse" button of the daily section. */
    method OpenAddModal()
      modifies this
      ensures showAddModal
      ensures selectedDay == old(selectedDay) && selectedDate == old(selectedDate)
    {
      showAddModal := true;
    }

    /** The dialog's close button. */
    method CloseAddModal()
      modifies this
      ensures !showAddModal
      ensures selectedDay == old(selectedDay) && selectedDate == old(selectedDate)
    {
      showAddModal := false;
    }

    /** The dialog's submission is passed on to the app unchanged, and the dialog closes. */
    method HandleAddVerse(data: VerseData) returns (forwarded: VerseData)
      modifies this
      ensures forwarded == data
      ensures !showAddModal
      ensures selectedDay == old(selectedDay) && selectedDate == old(selectedDate)
    {
      forwarded := data;
      showAddModal := false;
    }
  }
}
