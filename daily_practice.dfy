/** A practice session over today's verses: one answer per verse, in order, collected into the
    batch the app applies when the last verse is answered. */
module DailyPractice {
  import opened Types
  import opened Seqs
  import opened Scheduler

  /** How the feedback names a bucket a verse is about to move to. */
  function BucketTitle(b: BucketType): string {
    match b
    case Daily => "Daily"
    case OddEven => "Odd/Even Days"
    case DaysOfWeek => "Days of the Week"
    case DatesOfMonth => "Dates of Month"
  }

  /** The clause announcing a move to bucket `b`. */
  function MoveClause(b: BucketType): string {
    "will move to the " + BucketTitle(b) + " bucket"
  }

  function Quoted(reference: string): string {
    "\"" + reference + "\""
  }

  /** The message shown after a verse is marked mastered. It is chosen by the verse's bucket
      alone (the answer itself is not consulted); the default text of the source is unreachable
      because the four buckets are all handled. */
  function GetFeedbackMessage(v: Verse, mastered: bool): (msg: string)
    ensures Includes(msg, Quoted(v.reference))
  {
    match v.bucket
    case DatesOfMonth =>
      IncludesInside("\U{1F31F} Excellent! You've maintained your memorization of ", Quoted(v.reference),
                     ". Keep up the great work!");
      "\U{1F31F} Excellent! You've maintained your memorization of " + Quoted(v.reference) +
      (". Keep up the great work!")
    case Daily =>
      IncludesInside("\U{1F389} Congratulations! ", Quoted(v.reference),
                     " " + MoveClause(OddEven) + " for spaced repetition.");
      "\U{1F389} Congratulations! " + Quoted(v.reference) +
      (" " + MoveClause(OddEven) + " for spaced repetition.")
    case OddEven =>
      IncludesInside("\U{1F389} Well done! ", Quoted(v.reference), " " + MoveClause(DaysOfWeek) + ".");
      "\U{1F389} Well done! " + Quoted(v.reference) + (" " + MoveClause(DaysOfWeek) + ".")
    case DaysOfWeek =>
      IncludesInside("\U{1F389} Amazing progress! ", Quoted(v.reference), " " + MoveClause(DatesOfMonth) + ".");
      "\U{1F389} Amazing progress! " + Quoted(v.reference) + (" " + MoveClause(DatesOfMonth) + ".")
  }

  /** The feedback announces the very bucket the promotion moves the verse to; for a verse in the
      last bucket it announces no move, and the promotion indeed keeps it there. */
  lemma FeedbackNamesPromotionTarget(v: Verse, mastered: bool, now: string, today: CalendarDay)
    ensures v.bucket != DatesOfMonth ==>
              Includes(GetFeedbackMessage(v, mastered), MoveClause(Promote(v, true, now, today).bucket))
    ensures v.bucket == DatesOfMonth ==>
              GetFeedbackMessage(v, mastered) ==
                "\U{1F31F} Excellent! You've maintained your memorization of " + Quoted(v.reference) +
                ". Keep up the great work!" &&
              Promote(v, true, now, today).bucket == DatesOfMonth
  {
    var msg := GetFeedbackMessage(v, mastered);
    var q := Quoted(v.reference);
    match v.bucket
    case Daily =>
      assert msg == "\U{1F389} Congratulations! " + q + " " + MoveClause(OddEven) + " for spaced repetition.";
      assert msg == ("\U{1F389} Congratulations! " + q + " ") + MoveClause(OddEven) + " for spaced repetition.";
      IncludesInside("\U{1F389} Congratulations! " + q + " ", MoveClause(OddEven), " for spaced repetition.");
    case OddEven =>
      assert msg == ("\U{1F389} Well done! " + q + " ") + MoveClause(DaysOfWeek) + ".";
      IncludesInside("\U{1F389} Well done! " + q + " ", MoveClause(DaysOfWeek), ".");
    case DaysOfWeek =>
      assert msg == ("\U{1F389} Amazing progress! " + q + " ") + MoveClause(DatesOfMonth) + ".";
      IncludesInside("\U{1F389} Amazing progress! " + q + " ", MoveClause(DatesOfMonth), ".");
    case DatesOfMonth =>
  }

  /** The session's state. The verses are fixed for the session (the app only starts one with a
      non-empty due list); the rest changes as the user answers. */
  class PracticeSession {
    const verses: seq<Verse>
    var currentIndex: nat
    var showVerse: bool
    var results: seq<PracticeResult>
    var feedback: Option<string>

    /** One result per answered verse, in the verses' order; while the current verse awaits its
        answer no feedback is showing. */
    ghost predicate Valid()
      reads this
    {
      && 0 < |verses|
      && currentIndex < |verses|
      && currentIndex <= |results| <= currentIndex + 1
      && (forall i :: 0 <= i < |results| ==> results[i].verseId == verses[i].id)
      && (|results| == currentIndex ==> feedback.None?)
    }

    /** The current verse has not been answered yet. */
    predicate Awaiting()
      reads this
    {
      |results| == currentIndex
    }

    constructor (verses: seq<Verse>)
      requires |verses| > 0
      ensures Valid() && Awaiting() && this.verses == verses
      ensures currentIndex == 0 && results == [] && !showVerse && feedback.None?
    {
      this.verses := verses;
      currentIndex := 0;
      showVerse := false;
      results := [];
      feedback := None;
    }

    /** The "k of n verses" progress label: always between 1 and the number of verses. */
    function Progress(): (r: (int, int))
      reads this
      requires Valid()
      ensures 1 <= r.0 <= r.1 && r.1 == |verses|
    {
      (currentIndex + 1, |verses|)
    }

    /** The "Show Verse" button. */
    method RevealVerse()
      modifies this
      ensures showVerse
      ensures currentIndex == old(currentIndex) && results == old(results) && feedback == old(feedback)
    {
      showVerse := true;
    }

    /** An answer to the current verse. It records the result and, on mastery, shows feedback;
        then (the delay is not modelled) either finishes the session, handing back every result,
        or moves to the next verse with its text hidden and the feedback cleared. */
    method HandleResponse(mastered: bool) returns (shown: Option<string>, completed: Option<seq<PracticeResult>>)
      requires Valid() && Awaiting() && showVerse
      modifies this
      ensures Valid()
      ensures results == old(results) + [PracticeResult(verses[old(currentIndex)].id, mastered)]
      ensures shown == if mastered then Some(GetFeedbackMessage(verses[old(currentIndex)], mastered)) else None
      ensures completed.Some? <==> old(currentIndex) == |verses| - 1
      ensures completed.Some? ==>
                && completed.value == results && |results| == |verses|
                && (forall i :: 0 <= i < |verses| ==> results[i].verseId == verses[i].id)
                && currentIndex == old(currentIndex) && feedback == shown && showVerse
      ensures completed.None? ==>
                currentIndex == old(currentIndex) + 1 && Awaiting() && !showVerse && feedback.None?
    {
      var current := verses[currentIndex];
      var newResults := results + [PracticeResult(current.id, mastered)];
      results := newResults;
      shown := None;
      if mastered {
        shown := Some(GetFeedbackMessage(current, mastered));
        feedback := shown;
      }
      if currentIndex == |verses| - 1 {
        completed := Some(newResults);
      } else {
        completed := None;
        currentIndex := currentIndex + 1;
        showVerse := false;
        feedback := None;
      }
    }
  }
}
