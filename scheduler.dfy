/** The spaced-repetition core of the app: which verses are due on a day, and how a practice
    answer moves a verse along the chain Daily -> OddEven -> DaysOfWeek -> DatesOfMonth. */
module Scheduler {
  import opened Types
  import opened Seqs

  predicate IsOddDay(dayOfMonth: int) {
    dayOfMonth % 2 == 1
  }

  /** The odd/even slot rule: slot 1 on odd days of the month, slot 2 on even days. */
  predicate ParityMatches(position: Option<int>, dayOfMonth: int)
    ensures ParityMatches(position, dayOfMonth) <==>
              position.Some? && position.value == (if dayOfMonth % 2 == 1 then 1 else 2)
  {
    (IsOddDay(dayOfMonth) && position == Some(1)) || (!IsOddDay(dayOfMonth) && position == Some(2))
  }

  /** Whether a verse is up for review on `today`. A daily verse always is; any other needs a
      position, and on a valid day that position lies in its bucket's domain. */
  predicate IsDue(v: Verse, today: CalendarDay)
    ensures v.bucket == Daily ==> IsDue(v, today)
    ensures IsDue(v, today) && v.bucket != Daily ==> v.bucketPosition.Some?
    ensures IsDue(v, today) && today.Valid() ==> InDomain(v.bucket, v.bucketPosition)
  {
    || v.bucket == Daily
    || (v.bucket == OddEven && ParityMatches(v.bucketPosition, today.dayOfMonth))
    || (v.bucket == DaysOfWeek && v.bucketPosition == Some(today.dayOfWeek))
    || (v.bucket == DatesOfMonth && v.bucketPosition == Some(today.dayOfMonth))
  }

  /** The positions that mean something for a bucket. A daily verse's position is never read. */
  predicate InDomain(bucket: BucketType, position: Option<int>) {
    match bucket
    case Daily => true
    case OddEven => position == Some(1) || position == Some(2)
    case DaysOfWeek => position.Some? && 0 <= position.value <= 6
    case DatesOfMonth => position.Some? && 1 <= position.value <= 31
  }

  /** The position a verse of a non-daily bucket must hold to be due on `today`. */
  function TodaysSlot(bucket: BucketType, today: CalendarDay): (slot: int)
    requires bucket != Daily
    ensures today.Valid() ==> InDomain(bucket, Some(slot))
  {
    match bucket
    case OddEven => if IsOddDay(today.dayOfMonth) then 1 else 2
    case DaysOfWeek => today.dayOfWeek
    case DatesOfMonth => today.dayOfMonth
  }

  /** Due means: daily, or holding today's slot of its bucket. A missing position, or one
      outside its bucket's domain, is never due. */
  lemma DueIffTodaysSlot(v: Verse, today: CalendarDay)
    requires today.Valid()
    ensures IsDue(v, today) <==>
              v.bucket == Daily || v.bucketPosition == Some(TodaysSlot(v.bucket, today))
    ensures v.bucket != Daily && !InDomain(v.bucket, v.bucketPosition) ==> !IsDue(v, today)
  {
  }

  /** Conversely, every in-domain position of a non-daily bucket is due on some day, so no
      slot of the domain is dead. */
  lemma {:induction false} EveryInDomainPositionIsReachable(v: Verse)
    requires v.bucket != Daily && InDomain(v.bucket, v.bucketPosition)
    ensures exists day: CalendarDay :: day.Valid() && IsDue(v, day)
  {
    var p := v.bucketPosition.value;
    var day := match v.bucket
      case OddEven => CalendarDay(0, p, 0)
      case DaysOfWeek => CalendarDay(0, 1, p)
      case DatesOfMonth => CalendarDay(0, p, 0)
      case Daily => CalendarDay(0, 1, 0);
    assert day.Valid() && IsDue(v, day);
  }

  /** The verses due on `today`, in the order they are stored. */
  function DueVerses(verses: seq<Verse>, today: CalendarDay): (r: seq<Verse>)
    ensures forall v :: v in r <==> v in verses && IsDue(v, today)
    ensures SubsequenceOf(r, verses)
  {
    Filter(verses, v => IsDue(v, today))
  }

  /** Every daily verse is due on every day. */
  lemma DailyAlwaysDue(verses: seq<Verse>, today: CalendarDay)
    ensures forall v :: v in verses && v.bucket == Daily ==> v in DueVerses(verses, today)
  {
  }

  /** A verse outside its bucket's domain is excluded from every due list (corrupted data is
      skipped, not reviewed). */
  lemma OutOfDomainNeverListed(verses: seq<Verse>, v: Verse, today: CalendarDay)
    requires today.Valid()
    requires v.bucket != Daily && !InDomain(v.bucket, v.bucketPosition)
    ensures v !in DueVerses(verses, today)
  {
    DueIffTodaysSlot(v, today);
  }

  /** The due list of a collection with a verse appended is the old due list, followed by that
      verse when it is due. */
  lemma DueVersesAppend(verses: seq<Verse>, v: Verse, today: CalendarDay)
    ensures DueVerses(verses + [v], today) ==
              DueVerses(verses, today) + (if IsDue(v, today) then [v] else [])
  {
    FilterAppend(verses, [v], u => IsDue(u, today));
  }

  /** A new verse: unmastered, in the daily bucket, never practised, with no position. */
  function NewVerse(data: VerseData, id: string, dateAdded: string): (r: Verse)
    ensures forall day :: IsDue(r, day)
    ensures r.reference == data.reference && r.text == data.text && r.translation == data.translation
    ensures r.id == id && r.dateAdded == dateAdded
    ensures !r.mastered && r.bucket == Daily && r.bucketPosition == None
    ensures r.lastPracticed == None && r.notes == None
  {
    Verse(id, data.reference, data.text, data.translation, dateAdded, None, false, Daily, None, None)
  }

  /** One practice answer applied to one verse: stamp `now`, and on mastery move one bucket on,
      placing the verse in a slot that is not today's. */
  function Promote(v: Verse, mastered: bool, now: string, today: CalendarDay): (r: Verse)
    ensures r.id == v.id && r.reference == v.reference && r.text == v.text
    ensures r.translation == v.translation && r.dateAdded == v.dateAdded && r.notes == v.notes
    ensures r.lastPracticed == Some(now)
    ensures v.mastered ==> r.mastered
    ensures Rank(v.bucket) <= Rank(r.bucket) <= Rank(v.bucket) + 1
    ensures !mastered ==> r == v.(lastPracticed := Some(now))
    ensures mastered && v.bucket != DatesOfMonth ==> Rank(r.bucket) == Rank(v.bucket) + 1
    ensures mastered && v.bucket == Daily ==> r.mastered
    ensures v.bucket == DatesOfMonth ==> r == v.(lastPracticed := Some(now))
  {
    var stamped := v.(lastPracticed := Some(now));
    if !mastered then stamped
    else
      match v.bucket
      case Daily =>
        stamped.(bucket := OddEven,
                 bucketPosition := Some(if IsOddDay(today.dayOfMonth) then 2 else 1),
                 mastered := true)
      case OddEven =>
        stamped.(bucket := DaysOfWeek, bucketPosition := Some((today.dayOfWeek + 1) % 7))
      case DaysOfWeek =>
        stamped.(bucket := DatesOfMonth, bucketPosition := Some(today.dayOfMonth % 31 + 1))
      case DatesOfMonth =>
        stamped
  }

  /** Promotion only ever produces positions inside the new bucket's domain (a verse already in
      DatesOfMonth keeps the position it had). */
  lemma PromoteStaysInDomain(v: Verse, mastered: bool, now: string, today: CalendarDay)
    requires today.Valid()
    requires InDomain(v.bucket, v.bucketPosition)
    ensures InDomain(Promote(v, mastered, now, today).bucket, Promote(v, mastered, now, today).bucketPosition)
  {
  }

  /** A verse just promoted is not due again on the day it was promoted. */
  lemma NotDueOnPromotionDay(v: Verse, now: string, today: CalendarDay)
    requires today.Valid()
    requires v.bucket != DatesOfMonth
    ensures !IsDue(Promote(v, true, now, today), today)
  {
  }

  /** When the promoted verse first comes due. From Daily it is due the next day exactly when
      the parity of the day of the month flips (not after the 29th or 31st); from OddEven it is
      always due the next day; from DaysOfWeek it is due the next day unless a month shorter
      than 31 days ends today. */
  lemma {:induction false} FirstDueDay(v: Verse, now: string, today: CalendarDay, tomorrow: CalendarDay)
    requires Follows(today, tomorrow)
    ensures v.bucket == Daily ==>
              (IsDue(Promote(v, true, now, today), tomorrow) <==>
               IsOddDay(today.dayOfMonth) != IsOddDay(tomorrow.dayOfMonth))
    ensures v.bucket == OddEven ==> IsDue(Promote(v, true, now, today), tomorrow)
    ensures v.bucket == DaysOfWeek ==>
              (IsDue(Promote(v, true, now, today), tomorrow) <==>
               tomorrow.dayOfMonth == today.dayOfMonth + 1 || today.dayOfMonth == 31)
  {
    var r := Promote(v, true, now, today);
    if v.bucket == DaysOfWeek {
      assert r.bucketPosition == Some(today.dayOfMonth % 31 + 1);
      if today.dayOfMonth < 31 {
        assert today.dayOfMonth % 31 + 1 == today.dayOfMonth + 1;
      } else {
        assert today.dayOfMonth % 31 + 1 == 1;
      }
    }
  }

  /** The first result for a verse id in a batch (`results.find`). */
  function FindResult(results: seq<PracticeResult>, id: string): (r: Option<PracticeResult>)
    ensures r.None? <==> forall k :: 0 <= k < |results| ==> results[k].verseId != id
    ensures r.Some? ==> r.value.verseId == id
    ensures r.Some? ==>
              exists k :: 0 <= k < |results| && results[k] == r.value &&
                          forall j :: 0 <= j < k ==> results[j].verseId != id
  {
    if results == [] then None
    else if results[0].verseId == id then Some(results[0])
    else
      var r := FindResult(results[1..], id);
      if r.Some? then
        ghost var k :| 0 <= k < |results[1..]| && results[1..][k] == r.value &&
                       forall j :: 0 <= j < k ==> results[1..][j].verseId != id;
        assert results[k + 1] == r.value;
        r
      else r
  }

  /** A verse after a batch: untouched without a result, promoted by its first result otherwise. */
  function UpdateVerse(v: Verse, results: seq<PracticeResult>, now: string, today: CalendarDay): (r: Verse)
    ensures (forall k :: 0 <= k < |results| ==> results[k].verseId != v.id) ==> r == v
    ensures (exists k :: 0 <= k < |results| && results[k].verseId == v.id) ==>
              r.lastPracticed == Some(now) && r.id == v.id
    ensures FindResult(results, v.id).Some? ==> r == Promote(v, FindResult(results, v.id).value.mastered, now, today)
  {
    match FindResult(results, v.id)
    case None => v
    case Some(res) => Promote(v, res.mastered, now, today)
  }

  /** A whole batch of practice answers applied to the stored verses. */
  function ApplyResults(verses: seq<Verse>, results: seq<PracticeResult>, now: string, today: CalendarDay): (r: seq<Verse>)
    ensures |r| == |verses|
    ensures forall i :: 0 <= i < |r| ==> r[i].id == verses[i].id && r[i].reference == verses[i].reference
    ensures forall i :: 0 <= i < |r| ==>
              r[i].text == verses[i].text && r[i].translation == verses[i].translation &&
              r[i].dateAdded == verses[i].dateAdded && r[i].notes == verses[i].notes
    ensures forall i :: 0 <= i < |r| && FindResult(results, verses[i].id).Some? ==>
              r[i] == Promote(verses[i], FindResult(results, verses[i].id).value.mastered, now, today)
    ensures forall i :: 0 <= i < |r| && FindResult(results, verses[i].id) == Some(PracticeResult(verses[i].id, true)) ==>
              (verses[i].bucket != DatesOfMonth ==> Rank(r[i].bucket) == Rank(verses[i].bucket) + 1)
    ensures forall i :: 0 <= i < |r| ==>
              (forall k :: 0 <= k < |results| ==> results[k].verseId != verses[i].id) ==> r[i] == verses[i]
    ensures forall i, k :: 0 <= i < |r| && 0 <= k < |results| && results[k].verseId == verses[i].id ==>
              r[i].lastPracticed == Some(now)
    ensures forall i :: 0 <= i < |r| ==>
              FindResult(results, verses[i].id) == Some(PracticeResult(verses[i].id, false)) ==>
              r[i] == verses[i].(lastPracticed := Some(now))
    ensures forall i :: 0 <= i < |r| ==>
              Rank(verses[i].bucket) <= Rank(r[i].bucket) && (verses[i].mastered ==> r[i].mastered)
  {
    seq(|verses|, i requires 0 <= i < |verses| => UpdateVerse(verses[i], results, now, today))
  }

  /** One practice answer with the clock reading it was given at. */
  datatype Outcome = Outcome(mastered: bool, now: string, day: CalendarDay)

  /** A verse after a series of practice answers, oldest first. */
  ghost function Replay(v: Verse, outcomes: seq<Outcome>): Verse
    decreases |outcomes|
  {
    if outcomes == [] then v
    else Replay(Promote(v, outcomes[0].mastered, outcomes[0].now, outcomes[0].day), outcomes[1..])
  }

  /** Progress is monotonic over any series of answers: identity and content are kept, mastery
      is never lost, the bucket never moves back. */
  lemma {:induction false} ReplayMonotonic(v: Verse, outcomes: seq<Outcome>)
    ensures Replay(v, outcomes).id == v.id && Replay(v, outcomes).text == v.text
    ensures Replay(v, outcomes).reference == v.reference && Replay(v, outcomes).translation == v.translation
    ensures Replay(v, outcomes).dateAdded == v.dateAdded && Replay(v, outcomes).notes == v.notes
    ensures v.mastered ==> Replay(v, outcomes).mastered
    ensures Rank(v.bucket) <= Rank(Replay(v, outcomes).bucket)
    decreases |outcomes|
  {
    if outcomes != [] {
      var o := outcomes[0];
      ReplayMonotonic(Promote(v, o.mastered, o.now, o.day), outcomes[1..]);
    }
  }

  /** DatesOfMonth is absorbing: any series of answers leaves bucket and position as they were
      and only refreshes the practice stamp. */
  lemma {:induction false} ReplayAbsorbing(v: Verse, outcomes: seq<Outcome>)
    requires v.bucket == DatesOfMonth
    ensures outcomes == [] ==> Replay(v, outcomes) == v
    ensures outcomes != [] ==>
              Replay(v, outcomes) == v.(lastPracticed := Some(outcomes[|outcomes| - 1].now))
    decreases |outcomes|
  {
    if outcomes != [] {
      var o := outcomes[0];
      ReplayAbsorbing(Promote(v, o.mastered, o.now, o.day), outcomes[1..]);
    }
  }

  /** Each mastered answer moves one bucket on until the last: a daily verse mastered three
      times is reviewed monthly. */
  lemma {:induction false} ReplayAllMastered(v: Verse, outcomes: seq<Outcome>)
    requires forall k :: 0 <= k < |outcomes| ==> outcomes[k].mastered
    ensures Rank(Replay(v, outcomes).bucket) ==
              if Rank(v.bucket) + |outcomes| <= 3 then Rank(v.bucket) + |outcomes| else 3
    decreases |outcomes|
  {
    if outcomes != [] {
      var o := outcomes[0];
      ReplayAllMastered(Promote(v, o.mastered, o.now, o.day), outcomes[1..]);
    }
  }

  /** The state machine never produces an out-of-domain position from in-domain data. */
  lemma {:induction false} ReplayStaysInDomain(v: Verse, outcomes: seq<Outcome>)
    requires InDomain(v.bucket, v.bucketPosition)
    requires forall k :: 0 <= k < |outcomes| ==> outcomes[k].day.Valid()
    ensures InDomain(Replay(v, outcomes).bucket, Replay(v, outcomes).bucketPosition)
    decreases |outcomes|
  {
    if outcomes != [] {
      var o := outcomes[0];
      PromoteStaysInDomain(v, o.mastered, o.now, o.day);
      ReplayStaysInDomain(Promote(v, o.mastered, o.now, o.day), outcomes[1..]);
    }
  }

  /** A new verse mastered on Tuesday the 10th (even) goes to odd/even slot 1; mastered again on
      Wednesday the 11th (weekday 3) it goes to weekday 4; mastered on the 31st, twenty days
      later and so again a Tuesday, it goes to date 1. */
  lemma WorkedExample(data: VerseData, id: string, t: string)
    ensures var v1 := Promote(NewVerse(data, id, t), true, t, CalendarDay(10, 10, 2));
            && v1.bucket == OddEven && v1.bucketPosition == Some(1) && v1.mastered
            && var v2 := Promote(v1, true, t, CalendarDay(11, 11, 3));
            && v2.bucket == DaysOfWeek && v2.bucketPosition == Some(4)
            && var v3 := Promote(v2, true, t, CalendarDay(31, 31, 2));
            && v3.bucket == DatesOfMonth && v3.bucketPosition == Some(1)
  {
  }
}
