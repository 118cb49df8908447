/**
 * The emoji quiz page: a START / QUIZ / FINISH session over a fixed list of
 * questions, a clock derived from wall-clock timestamps, and the `m:ss` text
 * of a number of seconds. Timestamps are integers in milliseconds; the clock
 * reading is passed to each handler as `now`.
 */
module EmojiQuiz {
  import opened Text

  /** Number of questions in the quiz data table. */
  const QuestionCount: nat := 10

  datatype View = Start | Quiz | Finish

  /** The row handed to the remote `emoji_completions` insert. */
  datatype Submission = Submission(teamName: string, durationSeconds: int)

  /** A nullable timestamp read for truthiness: present and not zero. */
  predicate Truthy(t: Option<int>) {
    t.Some? && t.value != 0
  }

  /** Whole seconds from `start` to `now`, rounded down (`Math.floor` of the millisecond difference over 1000). */
  function WholeSeconds(start: int, now: int): (r: int)
    ensures r * 1000 <= now - start < r * 1000 + 1000
  {
    (now - start) / 1000
  }

  /** A later clock reading never shows fewer seconds. */
  lemma WholeSecondsMonotone(start: int, now1: int, now2: int)
    requires now1 <= now2
    ensures WholeSeconds(start, now1) <= WholeSeconds(start, now2)
  {
  }

  /** The duration `handleFinish` submits: a missing start time counts as 0. */
  function FinishDuration(startTime: Option<int>, finalEnd: int): (r: int)
    ensures startTime.None? ==> r * 1000 <= finalEnd < r * 1000 + 1000
    ensures startTime.Some? ==> r * 1000 <= finalEnd - startTime.value < r * 1000 + 1000
  {
    WholeSeconds(if startTime.Some? then startTime.value else 0, finalEnd)
  }

  /** The time the FINISH view shows: 0 unless both timestamps are truthy. */
  function TotalTime(endTime: Option<int>, startTime: Option<int>): (r: int)
    ensures !Truthy(endTime) || !Truthy(startTime) ==> r == 0
    ensures Truthy(endTime) && Truthy(startTime) ==>
      r * 1000 <= endTime.value - startTime.value < r * 1000 + 1000
  {
    if Truthy(endTime) && Truthy(startTime) then WholeSeconds(startTime.value, endTime.value) else 0
  }

  /** The time shown on FINISH equals the duration submitted, once the quiz was started. */
  lemma TotalTimeIsSubmittedDuration(startTime: Option<int>, finalEnd: int)
    requires Truthy(startTime) && finalEnd != 0
    ensures TotalTime(Some(finalEnd), startTime) == FinishDuration(startTime, finalEnd)
  {
  }

  /**
   * `formatTime(seconds)`: minutes, a colon, and the seconds within the minute
   * on two digits. For a non-negative count the text reads back as that count.
   */
  function FormatTime(seconds: int): (r: string)
    ensures seconds >= 0 ==> ParseClock(r) == Some(seconds)
  {
    assert seconds >= 0 ==> ParseClock(ClockText(seconds)) == Some(seconds) by {
      if seconds >= 0 {
        ClockRoundTrip(seconds);
      }
    }
    ClockText(seconds)
  }

  /** The page's state. */
  class QuizSession {
    var view: View
    var currentIndex: int
    var startTime: Option<int>
    var endTime: Option<int>
    var elapsed: int
    var teamName: string
    var isSubmitting: bool

    /** The question index always names a question. */
    ghost predicate Valid()
      reads this
    {
      0 <= currentIndex < QuestionCount
    }

    constructor ()
      ensures Valid()
      ensures view == Start && currentIndex == 0 && startTime == None && endTime == None
      ensures elapsed == 0 && teamName == "" && !isSubmitting
    {
      view := Start;
      currentIndex := 0;
      startTime := None;
      endTime := None;
      elapsed := 0;
      teamName := "";
      isSubmitting := false;
    }

    /** The team-name input's change handler. */
    method SetTeamName(name: string)
      modifies this
      ensures teamName == name
      ensures view == old(view) && currentIndex == old(currentIndex) && startTime == old(startTime)
      ensures endTime == old(endTime) && elapsed == old(elapsed) && isSubmitting == old(isSubmitting)
    {
      teamName := name;
    }

    /** `handleStart`: refused for a blank team name, otherwise starts the clock at `now` on question 0. */
    method HandleStart(now: int)
      requires Valid()
      modifies this
      ensures Valid()
      ensures IsBlank(old(teamName)) ==> unchanged(this)
      ensures !IsBlank(old(teamName)) ==>
        view == Quiz && currentIndex == 0 && elapsed == 0 && startTime == Some(now)
        && endTime == old(endTime) && teamName == old(teamName) && isSubmitting == old(isSubmitting)
    {
      var blank := IsBlank(teamName);
      if !blank {
        startTime := Some(now);
        view := Quiz;
        currentIndex := 0;
        elapsed := 0;
      }
    }

    /** `handleNext`: moves forward unless already on the last question. */
    method HandleNext()
      requires Valid()
      modifies this`currentIndex
      ensures Valid()
      ensures old(currentIndex) < QuestionCount - 1 ==> currentIndex == old(currentIndex) + 1
      ensures old(currentIndex) == QuestionCount - 1 ==> currentIndex == old(currentIndex)
    {
      if currentIndex < QuestionCount - 1 {
        currentIndex := currentIndex + 1;
      }
    }

    /** `handlePrev`: moves back unless already on the first question. */
    method HandlePrev()
      requires Valid()
      modifies this`currentIndex
      ensures Valid()
      ensures old(currentIndex) > 0 ==> currentIndex == old(currentIndex) - 1
      ensures old(currentIndex) == 0 ==> currentIndex == 0
    {
      if currentIndex > 0 {
        currentIndex := currentIndex - 1;
      }
    }

    /**
     * The synchronous part of `handleFinish`: stop the clock at `now`, show
     * FINISH, mark the submission in flight, and hand back the row to insert.
     */
    method HandleFinish(now: int) returns (row: Submission)
      requires Valid()
      modifies this`endTime, this`view, this`isSubmitting
      ensures Valid()
      ensures view == Finish && endTime == Some(now) && isSubmitting
      ensures row == Submission(teamName, FinishDuration(startTime, now))
      ensures row.durationSeconds * 1000 <= now - (if startTime.Some? then startTime.value else 0) < row.durationSeconds * 1000 + 1000
      ensures Truthy(startTime) && now != 0 ==> TotalTime(endTime, startTime) == row.durationSeconds
    {
      var duration := WholeSeconds(if startTime.Some? then startTime.value else 0, now);
      endTime := Some(now);
      view := Finish;
      isSubmitting := true;
      row := Submission(teamName, duration);
    }

    /**
     * The insert has settled, successfully or not (`insertFailed`): the
     * submission is no longer in flight and the session stays where it is.
     */
    method SubmitSettled(insertFailed: bool)
      requires Valid()
      modifies this`isSubmitting
      ensures Valid()
      ensures !isSubmitting && view == old(view)
    {
      isSubmitting := false;
    }

    /** One firing of the one-second interval, which only runs in QUIZ with a truthy start time. */
    method Tick(now: int)
      requires Valid()
      modifies this`elapsed
      ensures Valid()
      ensures view == Quiz && Truthy(startTime) ==> elapsed == WholeSeconds(startTime.value, now)
      ensures !(view == Quiz && Truthy(startTime)) ==> elapsed == old(elapsed)
    {
      if view == Quiz && Truthy(startTime) {
        elapsed := WholeSeconds(startTime.value, now);
      }
    }
  }

  /**
   * A full session: started, finished, insert failed. The page still ends on
   * FINISH, showing the time that was submitted under the team's name.
   */
  method FinishedEvenWhenInsertFails(name: string, t0: int, t1: int) returns (s: QuizSession, row: Submission)
    requires !IsBlank(name) && t0 != 0 && t1 != 0
    ensures s.view == Finish && !s.isSubmitting
    ensures TotalTime(s.endTime, s.startTime) == WholeSeconds(t0, t1)
    ensures row == Submission(name, TotalTime(s.endTime, s.startTime))
  {
    s := new QuizSession();
    s.SetTeamName(name);
    s.HandleStart(t0);
    row := s.HandleFinish(t1);
    s.SubmitSettled(true);
  }
}
