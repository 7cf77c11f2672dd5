/**
  The game's mutable state as the web handler keeps it: the session map that is inserted
  into and deleted from in place, the two progress counters that are incremented in place,
  and the history store that rows are appended to.
*/
module Game {
  import opened Wrappers
  import opened Catalog
  import opened Questions
  import opened Round

  class Game {
    var sessions: map<string, int>
    var correctAnswers: nat
    var totalAttempts: nat
    var log: seq<Record>
    /** How many rows the history store already held when the process started. */
    ghost var restored: nat

    /** The value this object stands for. */
    ghost function State(): State
      reads this
    {
      Round.State(sessions, Progress(correctAnswers, totalAttempts), log, restored)
    }

    ghost predicate Valid()
      reads this
    {
      Round.Valid(State())
    }

    /** Start-up: no sessions, zero totals, and the rows the history store already holds. */
    constructor (stored: seq<Record>)
      ensures State() == Start(stored) && Valid()
    {
      sessions := map[];
      correctAnswers, totalAttempts := 0, 0;
      log := stored;
      restored := |stored|;
    }

    /** Appends one history row with the current totals; nothing else changes. */
    method SaveProgress(difficulty: string, now: int)
      requires Valid() && difficulty in Difficulties()
      modifies this`log
      ensures Valid()
      ensures log == old(log) + [Snapshot(difficulty, Progress(correctAnswers, totalAttempts), now)]
    {
      log := log + [Snapshot(difficulty, Progress(correctAnswers, totalAttempts), now)];
    }

    /** Scores one submitted answer in place. */
    method RecordAnswer(submission: Submission)
      requires Valid()
      modifies this`correctAnswers, this`totalAttempts
      ensures Valid()
      ensures Progress(correctAnswers, totalAttempts) ==
        Score(old(Progress(correctAnswers, totalAttempts)), submission)
    {
      if submission.userAnswer == submission.correctAnswer {
        correctAnswers := correctAnswers + 1;
      }
      totalAttempts := totalAttempts + 1;
    }

    /**
      Ends the round of `difficulty`: saves the totals as one history row and deletes only
      that session.
    */
    method EndRound(difficulty: string, now: int)
      requires Valid() && difficulty in Difficulties()
      modifies this`log, this`sessions
      ensures Valid()
      ensures sessions == old(sessions) - {difficulty}
      ensures log == old(log) + [Snapshot(difficulty, Progress(correctAnswers, totalAttempts), now)]
    {
      SaveProgress(difficulty, now);
      sessions := sessions - {difficulty};
    }

    /**
      Goes on with the round: scores the submission, if any, and draws the next question,
      reporting the totals and the seconds left.
    */
    method ContinueRound(settings: Profile, submission: Option<Submission>, draws: seq<Draw>, timeRemaining: int)
      returns (outcome: Outcome)
      requires Valid() && WellFormed(settings) && |draws| > 0
      requires forall k :: 0 <= k < |draws| ==> DrawFits(settings, draws[k])
      modifies this`correctAnswers, this`totalAttempts
      ensures Valid()
      ensures Progress(correctAnswers, totalAttempts) ==
        if submission.Some? then Score(old(Progress(correctAnswers, totalAttempts)), submission.value)
        else old(Progress(correctAnswers, totalAttempts))
      ensures Generate(draws[0]).Emitted?
      ensures outcome == Continue(Generate(draws[0]).question, Progress(correctAnswers, totalAttempts), timeRemaining)
    {
      if submission.Some? {
        RecordAnswer(submission.value);
      }
      var question := GenerateQuestion(settings, draws);
      outcome := Continue(question.value, Progress(correctAnswers, totalAttempts), timeRemaining);
    }

    /** Creates the session for `difficulty`, starting at `now`, unless there is one. */
    method OpenSession(difficulty: string, now: int)
      requires Valid() && difficulty in Difficulties()
      modifies this`sessions
      ensures Valid() && difficulty in sessions
      ensures State() == Open(old(State()), difficulty, now)
    {
      if difficulty !in sessions {
        sessions := sessions[difficulty := now];
      }
      assert sessions == old(sessions)[difficulty := StartTime(old(State()), difficulty, now)];
    }

    /**
      The rest of a visit to `s0` once the session is open, when the round is past its time
      limit: it ends the round.
    */
    method ExpireVisit(ghost s0: State, input: Input)
      requires Valid() && InputFits(input) && input.difficulty in Difficulties()
      requires State() == Open(s0, input.difficulty, input.now)
      requires input.now - sessions[input.difficulty] > Difficulties()[input.difficulty].timeLimit
      modifies this`sessions, this`log
      ensures Valid()
      ensures Transition(State(), Expired) == Step(s0, input)
    {
      ExpiryStep(s0, input);
      EndRound(input.difficulty, input.now);
      assert sessions == Step(s0, input).next.sessions;
    }

    /**
      The rest of a visit to `s0` once the session is open, when the round is within its
      time limit: it scores the submission and draws the next question.
    */
    method ContinueVisit(ghost s0: State, settings: Profile, input: Input, elapsed: int)
      returns (outcome: Outcome)
      requires Valid() && InputFits(input) && input.difficulty in Difficulties()
      requires State() == Open(s0, input.difficulty, input.now)
      requires settings == Difficulties()[input.difficulty]
      requires elapsed == input.now - sessions[input.difficulty] <= settings.timeLimit
      modifies this`correctAnswers, this`totalAttempts
      ensures Valid()
      ensures Transition(State(), outcome) == Step(s0, input)
    {
      ContinueStep(s0, input);
      outcome := ContinueRound(settings, input.submission, input.draws, settings.timeLimit - elapsed);
      assert Progress(correctAnswers, totalAttempts) == Step(s0, input).next.progress;
    }

    /**
      One visit to the game page for `difficulty` at second `now`: looks the difficulty up,
      starts a session if there is none, ends the round when more than its time limit has
      elapsed, and otherwise scores the submission and draws the next question.
    */
    method Play(difficulty: string, now: int, submission: Option<Submission>, draws: seq<Draw>)
      returns (outcome: Outcome)
      requires Valid() && InputFits(Input(difficulty, now, submission, draws))
      modifies this
      ensures Transition(State(), outcome) == Step(old(State()), Input(difficulty, now, submission, draws))
      ensures Valid()
      ensures outcome.UnknownDifficulty? ==> State() == old(State())
      ensures outcome.Expired? ==>
        && sessions == old(sessions) - {difficulty}
        && log == old(log) + [Snapshot(difficulty, Progress(correctAnswers, totalAttempts), now)]
        && correctAnswers == old(correctAnswers) && totalAttempts == old(totalAttempts)
    {
      var input := Input(difficulty, now, submission, draws);
      StepKeepsValid(State(), input);
      if difficulty !in Difficulties() {
        UnknownChangesNothing(State(), input);
        return UnknownDifficulty;
      }
      ghost var s0 := State();
      OpenSession(difficulty, now);
      var settings := Difficulties()[difficulty];
      var elapsed := now - sessions[difficulty];
      if elapsed > settings.timeLimit {
        ExpireVisit(s0, input);
        return Expired;
      }
      outcome := ContinueVisit(s0, settings, input, elapsed);
    }
  }
}
