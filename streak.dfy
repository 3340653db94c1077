/** The practice streak: the check the app makes when it starts, and the stamp a finished
    practice session leaves. Days are calendar day numbers; yesterday is `today - 1`. */
module Streak {
  import opened Types

  /** The user the app starts with before anything is loaded. */
  function Guest(id: string): (u: User)
    ensures u.id == id && u.streak == 0 && u.lastPracticeDate.None?
  {
    User(id, "Guest User", 0, None)
  }

  /** The streak rule: the branch is chosen by the practice date `seen`, and the update is
      applied to the user `u`. */
  function StreakUpdate(seen: Option<int>, u: User, today: int): (r: User)
    ensures r.id == u.id && r.name == u.name
    ensures u.streak >= 0 ==> r.streak >= 0
    ensures seen.None? ==> r == u
    ensures seen == Some(today - 1) ==>
              r == u.(streak := u.streak + 1, lastPracticeDate := Some(today))
    ensures seen.Some? && seen.value !in {today - 1, today} ==> r == u.(streak := 0)
    ensures seen == Some(today) ==> r == u
  {
    match seen
    case None => u
    case Some(last) =>
      if last == today - 1 then u.(lastPracticeDate := Some(today), streak := u.streak + 1)
      else if last != today then u.(streak := 0)
      else u
  }

  /** The start-up streak check, judged on the user's own recorded practice date. */
  function AdvanceStreak(u: User, today: int): (r: User)
    ensures r.id == u.id && r.name == u.name
    ensures u.streak >= 0 ==> r.streak >= 0
    ensures u.lastPracticeDate.None? ==> r == u
    ensures u.lastPracticeDate == Some(today - 1) ==>
              r.streak == u.streak + 1 && r.lastPracticeDate == Some(today)
    ensures u.lastPracticeDate.Some? && u.lastPracticeDate.value !in {today - 1, today} ==>
              r.streak == 0 && r.lastPracticeDate == u.lastPracticeDate
    ensures u.lastPracticeDate == Some(today) ==> r == u
  {
    StreakUpdate(u.lastPracticeDate, u, today)
  }

  /** The start-up check as the app runs it. The effect is registered once, on the first
      render, so it judges the date of the user that render held: the fresh guest, who has no
      practice date. The stored user loaded at start-up is what its updates would apply to. */
  function StartupCheckAsWritten(guestId: string, stored: User, today: int): (r: User)
    ensures r == stored
  {
    StreakUpdate(Guest(guestId).lastPracticeDate, stored, today)
  }

  /** So the check never fires: a stored user who skipped days keeps a streak the intended rule
      resets. With practice three days ago and a streak of 5, the streak stays 5 instead of 0. */
  lemma StaleStartupCheckKeepsBrokenStreak(guestId: string, stored: User, today: int)
    requires stored.lastPracticeDate == Some(today - 3) && stored.streak == 5
    ensures StartupCheckAsWritten(guestId, stored, today).streak == 5
    ensures AdvanceStreak(stored, today).streak == 0
  {
  }

  /** The stamp a completed practice session leaves: today's date, streak untouched. */
  function RecordPractice(u: User, today: int): (r: User)
    ensures r.lastPracticeDate == Some(today)
    ensures r.streak == u.streak && r.id == u.id && r.name == u.name
  {
    u.(lastPracticeDate := Some(today))
  }

  /** Running the check a second time on the same day changes nothing more. */
  lemma AdvanceStreakIdempotent(u: User, today: int)
    ensures AdvanceStreak(AdvanceStreak(u, today), today) == AdvanceStreak(u, today)
  {
  }

  /** After a practice session has been recorded today, the check leaves the user alone. */
  lemma CheckAfterPracticeIsNoOp(u: User, today: int)
    ensures AdvanceStreak(RecordPractice(u, today), today) == RecordPractice(u, today)
  {
  }

  /** A user who starts the app and practises on each of `n` days in a row. */
  function PracticeOnConsecutiveDays(u: User, first: int, n: nat): User
    decreases n
  {
    if n == 0 then u
    else PracticeOnConsecutiveDays(RecordPractice(AdvanceStreak(u, first), first), first + 1, n - 1)
  }

  /** Practising on `n` consecutive days right after the last recorded practice adds `n` to the
      streak, and leaves the last of those days recorded. */
  lemma {:induction false} ConsecutiveDaysExtendStreak(u: User, first: int, n: nat)
    requires u.lastPracticeDate == Some(first - 1)
    ensures PracticeOnConsecutiveDays(u, first, n).streak == u.streak + n
    ensures PracticeOnConsecutiveDays(u, first, n).lastPracticeDate == Some(first + n - 1)
    decreases n
  {
    if n > 0 {
      var next := RecordPractice(AdvanceStreak(u, first), first);
      assert next.streak == u.streak + 1 && next.lastPracticeDate == Some(first);
      ConsecutiveDaysExtendStreak(next, first + 1, n - 1);
    }
  }

  /** Skipping a day breaks the streak: starting the app two or more days after the last
      practice resets it, and practising that day starts again from zero. */
  lemma GapResetsStreak(u: User, last: int, today: int)
    requires u.lastPracticeDate == Some(last) && last <= today - 2
    ensures AdvanceStreak(u, today).streak == 0
    ensures PracticeOnConsecutiveDays(u, today, 1).streak == 0
    ensures PracticeOnConsecutiveDays(u, today, 1).lastPracticeDate == Some(today)
  {
    assert PracticeOnConsecutiveDays(u, today, 1) ==
           PracticeOnConsecutiveDays(RecordPractice(AdvanceStreak(u, today), today), today + 1, 0);
  }

  /** A streak of 4 with practice yesterday becomes 5, dated today. */
  lemma StreakExample(u: User)
    requires u.streak == 4 && u.lastPracticeDate == Some(99)
    ensures AdvanceStreak(u, 100).streak == 5 && AdvanceStreak(u, 100).lastPracticeDate == Some(100)
  {
  }
}
