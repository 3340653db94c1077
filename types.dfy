/** The data model of the scripture-memory app: verses with their scheduling state, the user
    with the practice streak, and the values the components hand to each other. */
module Types {

  datatype Option<+T> = None | Some(value: T)

  /** The translations a verse can be recorded in. */
  datatype BibleTranslation = KJV | NIV | ESV | NASB | NLT

  /** The translations the add-verse form offers, in the order it lists them. */
  const Translations: seq<BibleTranslation> := [KJV, NIV, ESV, NASB, NLT]

  /** Position of a translation in the form's list: every translation is offered, once. */
  function TranslationIndex(t: BibleTranslation): (i: nat)
    ensures i < |Translations| && Translations[i] == t
    ensures forall j :: 0 <= j < |Translations| && Translations[j] == t ==> j == i
  {
    match t
    case KJV => 0
    case NIV => 1
    case ESV => 2
    case NASB => 3
    case NLT => 4
  }

  /** The four review cadences a verse moves through, sparsest last. */
  datatype BucketType = Daily | OddEven | DaysOfWeek | DatesOfMonth

  /** The buckets in promotion order. */
  const Buckets: seq<BucketType> := [Daily, OddEven, DaysOfWeek, DatesOfMonth]

  /** How far along the promotion chain a bucket is: every bucket has exactly one place. */
  function Rank(b: BucketType): (r: nat)
    ensures r < |Buckets| && Buckets[r] == b
    ensures forall j :: 0 <= j < |Buckets| && Buckets[j] == b ==> j == r
  {
    match b
    case Daily => 0
    case OddEven => 1
    case DaysOfWeek => 2
    case DatesOfMonth => 3
  }

  /** A memorised verse. Timestamps (`dateAdded`, `lastPracticed`) are opaque strings. The
      position is optional and unchecked: its meaning depends on the bucket (odd/even slot 1
      or 2, weekday 0..6, day of month 1..31), but nothing stops stored data from holding
      any number or none at all. */
  datatype Verse = Verse(
    id: string,
    reference: string,
    text: string,
    translation: BibleTranslation,
    dateAdded: string,
    lastPracticed: Option<string>,
    mastered: bool,
    bucket: BucketType,
    bucketPosition: Option<int>,
    notes: Option<string>)

  /** The user record. The last practice date is a calendar day number. */
  datatype User = User(id: string, name: string, streak: int, lastPracticeDate: Option<int>)

  /** One answer of a practice session. */
  datatype PracticeResult = PracticeResult(verseId: string, mastered: bool)

  /** What the add-verse form submits. */
  datatype VerseData = VerseData(reference: string, text: string, translation: BibleTranslation)

  /** The reading of the clock the components make: a day number (consecutive days differ by
      one), the day of the month and the day of the week (0 is Sunday). */
  datatype CalendarDay = CalendarDay(dayNumber: int, dayOfMonth: int, dayOfWeek: int) {
    predicate Valid() {
      1 <= dayOfMonth <= 31 && 0 <= dayOfWeek <= 6
    }
  }

  /** `next` is the calendar day after `day`: the weekday advances by one, and the day of the
      month either advances by one or starts a new month. */
  predicate Follows(day: CalendarDay, next: CalendarDay) {
    && day.Valid() && next.Valid()
    && next.dayNumber == day.dayNumber + 1
    && next.dayOfWeek == (day.dayOfWeek + 1) % 7
    && (next.dayOfMonth == day.dayOfMonth + 1 || (next.dayOfMonth == 1 && day.dayOfMonth >= 28))
  }
}
