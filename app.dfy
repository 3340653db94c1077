/** The app's top-level state: the stored verses and the user, with the three handlers that
    change them. The clock, id generation and storage are parameters or left out. */
module App {
  import opened Types
  import opened Scheduler
  import opened Streak
  import opened DailyPractice

  /** Completing a session over some of the stored verses, with one result per session verse in
      order, stamps every practised verse and leaves every other verse with no result as it was. */
  lemma CompletedSessionStampsPractisedVerses(verses: seq<Verse>, session: seq<Verse>,
                                              results: seq<PracticeResult>, now: string, today: CalendarDay)
    requires |results| == |session|
    requires forall j :: 0 <= j < |session| ==> results[j].verseId == session[j].id
    ensures var r := ApplyResults(verses, results, now, today);
            forall i :: 0 <= i < |verses| && verses[i] in session ==> r[i].lastPracticed == Some(now)
    ensures var r := ApplyResults(verses, results, now, today);
            forall i :: 0 <= i < |verses| && (forall w :: w in session ==> w.id != verses[i].id) ==> r[i] == verses[i]
  {
    var r := ApplyResults(verses, results, now, today);
    forall i | 0 <= i < |verses| && verses[i] in session
      ensures r[i].lastPracticed == Some(now)
    {
      var j :| 0 <= j < |session| && session[j] == verses[i];
      assert results[j].verseId == verses[i].id;
    }
    forall i | 0 <= i < |verses| && (forall w :: w in session ==> w.id != verses[i].id)
      ensures r[i] == verses[i]
    {
      forall k | 0 <= k < |results| ensures results[k].verseId != verses[i].id {
        assert session[k] in session;
      }
    }
  }

  class AppState {
    var user: User
    var verses: seq<Verse>
    var isPracticing: bool

    /** A fresh guest with no streak, no practice history and no verses, not practising. */
    constructor (userId: string)
      ensures user == Guest(userId) && user.name == "Guest User" && verses == [] && !isPracticing
    {
      user := Guest(userId);
      verses := [];
      isPracticing := false;
    }

    /** The verses to practise on `today`. */
    function TodaysVerses(today: CalendarDay): (r: seq<Verse>)
      reads this
      ensures forall v :: v in r <==> v in verses && IsDue(v, today)
    {
      DueVerses(verses, today)
    }

    /** The "Start Practice" button, offered only when something is due: a session over
        today's due verses, in stored order. */
    method StartPractice(today: CalendarDay) returns (session: PracticeSession)
      requires |TodaysVerses(today)| > 0
      modifies this
      ensures isPracticing
      ensures fresh(session) && session.Valid() && session.Awaiting()
      ensures session.verses == TodaysVerses(today) && session.results == []
      ensures user == old(user) && verses == old(verses)
    {
      session := new PracticeSession(TodaysVerses(today));
      isPracticing := true;
    }

    /** The start-up streak check as intended: judged on the current user's own practice date
        (as the app runs it, the check judges the initial guest; see StartupCheckAsWritten). */
    method CheckStreak(today: int)
      modifies this
      ensures user == AdvanceStreak(old(user), today)
      ensures verses == old(verses) && isPracticing == old(isPracticing)
    {
      user := AdvanceStreak(user, today);
    }

    /** Adds a verse at the end of the collection; it joins the end of every day's due list. */
    method HandleAddVerse(data: VerseData, id: string, dateAdded: string)
      modifies this
      ensures verses == old(verses) + [NewVerse(data, id, dateAdded)]
      ensures user == old(user) && isPracticing == old(isPracticing)
      ensures forall day :: TodaysVerses(day) == old(TodaysVerses(day)) + [NewVerse(data, id, dateAdded)]
    {
      var v := NewVerse(data, id, dateAdded);
      forall day | true
        ensures DueVerses(verses + [v], day) == DueVerses(verses, day) + [v]
      {
        DueVersesAppend(verses, v, day);
      }
      verses := verses + [v];
    }

    /** Applies a finished session's answers, records today as the last practice date and
        leaves practice mode. */
    method HandlePracticeComplete(results: seq<PracticeResult>, now: string, today: CalendarDay)
      modifies this
      ensures verses == ApplyResults(old(verses), results, now, today)
      ensures user == RecordPractice(old(user), today.dayNumber)
      ensures !isPracticing
    {
      verses := ApplyResults(verses, results, now, today);
      user := RecordPractice(user, today.dayNumber);
      isPracticing := false;
    }
  }
}
