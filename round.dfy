/**
  The round state machine as a function on values: the session map (difficulty name to
  the second its round started), the one process-wide progress tally and the append-only
  history log. `Step` is one visit to the game page; `Run` is a sequence of visits.
*/
module Round {
  import opened Wrappers
  import opened Catalog
  import opened Questions

  datatype Progress = Progress(correct: nat, attempts: nat)

  /** One saved history row: the difficulty, the totals at expiry and when it was saved. */
  datatype Record = Record(difficulty: string, correct: nat, attempts: nat, recordedAt: int)

  /** A submitted answer together with the answer of the question it replies to. */
  datatype Submission = Submission(userAnswer: int, correctAnswer: int)

  datatype Outcome =
    | UnknownDifficulty
    | Expired
    | Continue(question: Question, progress: Progress, timeRemaining: int)

  /**
    The session map, the totals and the whole history store. The first `restored` rows of
    the store were already there when the process started; the rest were written since.
  */
  datatype State = State(sessions: map<string, int>, progress: Progress, log: seq<Record>, restored: nat)

  /** One visit: the difficulty, the clock in seconds, an optional answer, the random draws. */
  datatype Input = Input(difficulty: string, now: int, submission: Option<Submission>, draws: seq<Draw>)

  datatype Transition = Transition(next: State, outcome: Outcome)

  /**
    The invariant every reachable state keeps. Rows already in the store at start-up are
    unconstrained; the rows written since are bounded by the current totals and ordered.
  */
  predicate Valid(s: State) {
    && s.progress.correct <= s.progress.attempts
    && s.sessions.Keys <= Difficulties().Keys
    && s.restored <= |s.log|
    && (forall k :: s.restored <= k < |s.log| ==>
          && s.log[k].difficulty in Difficulties()
          && s.log[k].correct <= s.log[k].attempts
          && s.log[k].correct <= s.progress.correct
          && s.log[k].attempts <= s.progress.attempts)
    && (forall j, k :: s.restored <= j < k < |s.log| ==>
          s.log[j].correct <= s.log[k].correct && s.log[j].attempts <= s.log[k].attempts)
  }

  /**
    The state when the process starts: no sessions and zero totals, while the history
    store keeps whatever rows it already holds.
  */
  function Start(stored: seq<Record>): (s: State)
    ensures Valid(s)
    ensures s.sessions == map[] && s.progress == Progress(0, 0) && s.log == stored
    ensures s.restored == |stored|
  {
    State(map[], Progress(0, 0), stored, |stored|)
  }

  /** The draws could have come from the random source for this visit's difficulty. */
  predicate InputFits(i: Input) {
    && |i.draws| > 0
    && (i.difficulty in Difficulties() ==>
          forall k :: 0 <= k < |i.draws| ==> DrawFits(Difficulties()[i.difficulty], i.draws[k]))
  }

  /** Scores one submission: one more attempt, and one more correct answer iff it matches. */
  function Score(p: Progress, s: Submission): (r: Progress)
    ensures r.attempts == p.attempts + 1
    ensures r.correct == p.correct + 1 <==> s.userAnswer == s.correctAnswer
    ensures r.correct == p.correct <==> s.userAnswer != s.correctAnswer
    ensures p.correct <= p.attempts ==> r.correct <= r.attempts
  {
    Progress(if s.userAnswer == s.correctAnswer then p.correct + 1 else p.correct, p.attempts + 1)
  }

  /** The history row written when a round of `difficulty` expires at `now`. */
  function Snapshot(difficulty: string, p: Progress, now: int): Record
  {
    Record(difficulty, p.correct, p.attempts, now)
  }

  /** The start of the round for `difficulty`: the stored one, or `now` for a new session. */
  function StartTime(s: State, difficulty: string, now: int): int {
    if difficulty in s.sessions then s.sessions[difficulty] else now
  }

  /** The state with the session for `difficulty` created if it was missing. */
  function Open(s: State, difficulty: string, now: int): State {
    s.(sessions := s.sessions[difficulty := StartTime(s, difficulty, now)])
  }

  /** One visit to the game page. */
  function Step(s: State, i: Input): (t: Transition)
    requires InputFits(i)
    ensures t.next.restored == s.restored && s.log <= t.next.log
    ensures t.outcome.Continue? ==> t.outcome.progress == t.next.progress && t.outcome.timeRemaining >= 0
  {
    if i.difficulty !in Difficulties() then
      Transition(s, UnknownDifficulty)
    else
      var settings := Difficulties()[i.difficulty];
      var start := StartTime(s, i.difficulty, i.now);
      var sessions := s.sessions[i.difficulty := start];
      var elapsed := i.now - start;
      if elapsed > settings.timeLimit then
        var log := s.log + [Snapshot(i.difficulty, s.progress, i.now)];
        Transition(s.(sessions := sessions - {i.difficulty}, log := log), Expired)
      else
        var progress := if i.submission.Some? then Score(s.progress, i.submission.value) else s.progress;
        var question := GenerateQuestion(settings, i.draws).value;
        Transition(s.(sessions := sessions, progress := progress), Continue(question, progress, settings.timeLimit - elapsed))
  }

  /** An unknown difficulty fails before anything changes, and only an unknown one fails so. */
  lemma UnknownChangesNothing(s: State, i: Input)
    requires InputFits(i)
    ensures Step(s, i).outcome.UnknownDifficulty? <==> i.difficulty !in Difficulties()
    ensures i.difficulty !in Difficulties() ==> Step(s, i).next == s
  {
  }

  /**
    A missing session is created starting at `now`; a session's start time is never
    changed by a later visit; no session other than the visited one appears.
  */
  lemma SessionStartKept(s: State, i: Input)
    requires InputFits(i)
    ensures forall d :: d in s.sessions && d in Step(s, i).next.sessions ==>
      Step(s, i).next.sessions[d] == s.sessions[d]
    ensures Step(s, i).next.sessions.Keys <= s.sessions.Keys + {i.difficulty}
    ensures i.difficulty !in s.sessions && Step(s, i).outcome.Continue? ==>
      i.difficulty in Step(s, i).next.sessions && Step(s, i).next.sessions[i.difficulty] == i.now
  {
  }

  /**
    A round expires exactly when more than the time limit has elapsed. On expiry exactly
    one record with the current totals is appended, only the expiring session is removed,
    and the totals are neither scored nor reset.
  */
  lemma ExpiryStep(s: State, i: Input)
    requires InputFits(i) && i.difficulty in Difficulties()
    ensures Step(s, i).outcome.Expired? <==>
      i.now - StartTime(s, i.difficulty, i.now) > Difficulties()[i.difficulty].timeLimit
    ensures Step(s, i).outcome.Expired? ==>
      && Step(s, i).next.log == s.log + [Snapshot(i.difficulty, s.progress, i.now)]
      && Step(s, i).next.sessions == s.sessions - {i.difficulty}
      && Step(s, i).next.progress == s.progress
  {
  }

  /**
    While the round lasts the submission, if any, is scored, no record is written, the
    question comes from the first draw and the time remaining is the limit minus the
    elapsed seconds, never negative.
  */
  lemma ContinueStep(s: State, i: Input)
    requires InputFits(i) && i.difficulty in Difficulties()
    requires i.now - StartTime(s, i.difficulty, i.now) <= Difficulties()[i.difficulty].timeLimit
    ensures Step(s, i).outcome.Continue?
    ensures Step(s, i).next.log == s.log
    ensures Step(s, i).next.sessions == s.sessions[i.difficulty := StartTime(s, i.difficulty, i.now)]
    ensures i.submission.None? ==> Step(s, i).next.progress == s.progress
    ensures i.submission.Some? ==> Step(s, i).next.progress == Score(s.progress, i.submission.value)
    ensures Step(s, i).outcome.progress == Step(s, i).next.progress
    ensures Generate(i.draws[0]).Emitted? && Step(s, i).outcome.question == Generate(i.draws[0]).question
    ensures 0 <= Step(s, i).outcome.timeRemaining
      == Difficulties()[i.difficulty].timeLimit - (i.now - StartTime(s, i.difficulty, i.now))
  {
    CatalogNeverRetries(i.difficulty, i.draws);
  }

  /**
    For a round started at `start`, a visit after exactly the time limit still continues
    with nothing left, and a visit one second later expires.
  */
  lemma ExpiryBoundary(s: State, d: string, start: int, sub: Option<Submission>, draws: seq<Draw>)
    requires d in Difficulties() && d in s.sessions && s.sessions[d] == start
    requires InputFits(Input(d, start, sub, draws))
    ensures var limit := Difficulties()[d].timeLimit;
      && Step(s, Input(d, start + limit, sub, draws)).outcome.Continue?
      && Step(s, Input(d, start + limit, sub, draws)).outcome.timeRemaining == 0
      && Step(s, Input(d, start + limit + 1, sub, draws)).outcome.Expired?
  {
  }

  /** Every visit keeps the invariant: correct answers never exceed attempts, and so on. */
  lemma StepKeepsValid(s: State, i: Input)
    requires Valid(s) && InputFits(i)
    ensures Valid(Step(s, i).next)
  {
    if i.difficulty in Difficulties() {
      var t := Step(s, i);
      if t.outcome.Expired? {
        ExpiryStep(s, i);
        var row := Snapshot(i.difficulty, s.progress, i.now);
        forall k | t.next.restored <= k < |t.next.log|
          ensures t.next.log[k] == if k < |s.log| then s.log[k] else row
        {
        }
      } else {
        ContinueStep(s, i);
        StepExtends(s, i);
      }
    }
  }

  /** The totals only grow and the history only grows at its end. */
  lemma StepExtends(s: State, i: Input)
    requires InputFits(i)
    ensures s.progress.correct <= Step(s, i).next.progress.correct
    ensures s.progress.attempts <= Step(s, i).next.progress.attempts
    ensures s.log <= Step(s, i).next.log
    ensures |Step(s, i).next.log| <= |s.log| + 1
    ensures |Step(s, i).next.log| == |s.log| + 1 <==> Step(s, i).outcome.Expired?
  {
  }

  predicate AllFit(inputs: seq<Input>) {
    forall k :: 0 <= k < |inputs| ==> InputFits(inputs[k])
  }

  /** The state after a sequence of visits. */
  function Run(s: State, inputs: seq<Input>): State
    requires AllFit(inputs)
    decreases |inputs|
  {
    if inputs == [] then s else Run(Step(s, inputs[0]).next, inputs[1..])
  }

  /** The invariant holds after any sequence of visits from a valid state. */
  lemma {:induction false} RunKeepsValid(s: State, inputs: seq<Input>)
    requires Valid(s) && AllFit(inputs)
    ensures Valid(Run(s, inputs))
    decreases |inputs|
  {
    if inputs != [] {
      StepKeepsValid(s, inputs[0]);
      RunKeepsValid(Step(s, inputs[0]).next, inputs[1..]);
    }
  }

  /**
    Over any sequence of visits the history is only appended to, at most one record per
    visit, and the totals are never reset.
  */
  lemma {:induction false} RunExtends(s: State, inputs: seq<Input>)
    requires AllFit(inputs)
    ensures s.log <= Run(s, inputs).log
    ensures |Run(s, inputs).log| <= |s.log| + |inputs|
    ensures s.progress.correct <= Run(s, inputs).progress.correct
    ensures s.progress.attempts <= Run(s, inputs).progress.attempts
    decreases |inputs|
  {
    if inputs != [] {
      StepExtends(s, inputs[0]);
      RunExtends(Step(s, inputs[0]).next, inputs[1..]);
    }
  }

  /**
    Every state reachable from start-up keeps the invariant, and the rows the store held
    at start-up stay at its front, unchanged.
  */
  lemma ReachableValid(stored: seq<Record>, inputs: seq<Input>)
    requires AllFit(inputs)
    ensures Valid(Run(Start(stored), inputs))
    ensures stored <= Run(Start(stored), inputs).log
  {
    RunKeepsValid(Start(stored), inputs);
    RunExtends(Start(stored), inputs);
  }

  /**
    A whole easy round: the first visit starts the session, a correct answer is scored,
    and a visit after 60 seconds expires the round and records one correct of one attempt.
  */
  lemma EasyRound(stored: seq<Record>)
    ensures var d := Draw(Multiplication, 3, 4);
      var t1 := Step(Start(stored), Input("easy", 100, None, [d]));
      var t2 := Step(t1.next, Input("easy", 110, Some(Submission(12, 12)), [d]));
      var t3 := Step(t2.next, Input("easy", 161, None, [d]));
      && t1.outcome == Continue(Question("3 x 4", 12), Progress(0, 0), 60)
      && t2.outcome == Continue(Question("3 x 4", 12), Progress(1, 1), 50)
      && t3.outcome == Expired
      && t3.next.sessions == map[] && t3.next.progress == Progress(1, 1)
      && t3.next.log == stored + [Record("easy", 1, 1, 161)]
  {
  }
}
