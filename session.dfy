/** The session store of the trainer: the screen state machine, the typed
    grid, the one-second timer held in a mutable ref, grading, and the two
    updaters that patch the current result when the model's replies arrive. */
module Session {
  import opened Types
  import opened Text
  import opened Grading
  import ResultsView

  datatype GameState = Selecting | Generating | Typing | Results

  /** The grid a fresh problem starts from: one row per record, each mapping
      every header to the empty string. */
  function InitialGrid(p: ProblemSet): (grid: Grid)
    ensures |grid| == |p.sourceData|
    ensures forall r :: 0 <= r < |grid| ==> grid[r].Keys == set h | h in p.templateHeaders
    ensures forall r, h :: 0 <= r < |grid| && h in grid[r] ==> grid[r][h] == ""
  {
    seq(|p.sourceData|, _ => map h | h in p.templateHeaders :: "")
  }

  /** On a fresh grid every cell reads as empty, so a cell is an error exactly
      when its answer is not blank. */
  lemma FreshGridErrors(p: ProblemSet, r: nat, c: nat)
    requires InShape(p, r, c)
    ensures UserValue(InitialGrid(p), r, p.templateHeaders[c]) == ""
    ensures Mismatch(p, InitialGrid(p), r, c) <==> Trim(CorrectValue(p.sourceData[r], c)) != ""
  {
    TrimOfTight("");
  }

  /** `handleDataChange`: the row is copied with one key set.  A row index past
      the end lengthens the array as JavaScript does; the holes it leaves read
      as empty rows. */
  function UpdateCell(grid: Grid, r: nat, header: string, value: string): (g: Grid)
    ensures |g| == if r < |grid| then |grid| else r + 1
    ensures header in g[r] && g[r][header] == value
    ensures forall k :: k != header ==> (k in g[r] <==> r < |grid| && k in grid[r])
    ensures forall k :: k != header && k in g[r] ==> g[r][k] == grid[r][k]
    ensures forall i :: 0 <= i < |g| && i != r ==> g[i] == if i < |grid| then grid[i] else map[]
  {
    if r < |grid| then grid[r := grid[r][header := value]]
    else grid + seq(r - |grid|, _ => map[]) + [map[header := value]]
  }

  /** What grading reads after a change: the changed cell, and every other
      cell as before. */
  lemma UpdateCellReads(grid: Grid, r: nat, header: string, value: string, r2: nat, h2: string)
    ensures UserValue(UpdateCell(grid, r, header, value), r2, h2)
         == if r2 == r && h2 == header then value else UserValue(grid, r2, h2)
  {
  }

  const FeedbackPlaceholder: string := "AIからのフィードバックの読み込みに失敗しました。"
  const AnalysisPlaceholder: string := "ミスの傾向分析に失敗しました。"

  /** The text an enrichment request leaves behind: the reply, or the fixed placeholder. */
  function Outcome(reply: Result<string>, placeholder: string): string
  {
    match reply
    case Success(text) => text
    case Failure(_) => placeholder
  }

  /** The feedback updater: `prev ? { ...prev, aiFeedback } : null`.  It patches
      whatever result is current when the reply lands. */
  function WithFeedback(prev: Option<GradingResult>, reply: Result<string>): (next: Option<GradingResult>)
    ensures next.Some? <==> prev.Some?
    ensures next.Some? ==> next.value.aiFeedback == Some(Outcome(reply, FeedbackPlaceholder))
    ensures next.Some? ==> next.value.(aiFeedback := prev.value.aiFeedback) == prev.value
  {
    match prev
    case None => None
    case Some(r) => Some(r.(aiFeedback := Some(Outcome(reply, FeedbackPlaceholder))))
  }

  /** The analysis updater: `prev ? { ...prev, mistakeAnalysis } : null`. */
  function WithAnalysis(prev: Option<GradingResult>, reply: Result<string>): (next: Option<GradingResult>)
    ensures next.Some? <==> prev.Some?
    ensures next.Some? ==> next.value.mistakeAnalysis == Some(Outcome(reply, AnalysisPlaceholder))
    ensures next.Some? ==> next.value.(mistakeAnalysis := prev.value.mistakeAnalysis) == prev.value
  {
    match prev
    case None => None
    case Some(r) => Some(r.(mistakeAnalysis := Some(Outcome(reply, AnalysisPlaceholder))))
  }

  /** The two replies may land in either order with the same outcome. */
  lemma EnrichmentCommutes(prev: Option<GradingResult>, feedback: Result<string>, analysis: Result<string>)
    ensures WithAnalysis(WithFeedback(prev, feedback), analysis) == WithFeedback(WithAnalysis(prev, analysis), feedback)
  {
  }

  /** Applying a reply twice is the same as applying it once. */
  lemma EnrichmentIdempotent(prev: Option<GradingResult>, feedback: Result<string>, analysis: Result<string>)
    ensures WithFeedback(WithFeedback(prev, feedback), feedback) == WithFeedback(prev, feedback)
    ensures WithAnalysis(WithAnalysis(prev, analysis), analysis) == WithAnalysis(prev, analysis)
  {
  }

  /** Once both replies have landed, the feedback panel shows the reply or the
      placeholder; only an empty reply leaves it pending.  The analysis panel
      likewise, and it is shown only when there are errors. */
  lemma PanelsAfterEnrichment(r: GradingResult, feedback: Result<string>, analysis: Result<string>)
    ensures var next := WithAnalysis(WithFeedback(Some(r), feedback), analysis).value;
      && (ResultsView.FeedbackView(next).FeedbackPending? <==> feedback == Success(""))
      && (feedback.Failure? ==> ResultsView.FeedbackView(next) == ResultsView.FeedbackShown(FeedbackPlaceholder))
      && (ResultsView.MistakeView(next).Some? <==> |r.errors| > 0)
      && (|r.errors| > 0 ==> (ResultsView.MistakeView(next).value.AnalysisPending? <==> analysis == Success("")))
  {
  }

  /** The store's fields, read together. */
  datatype State = State(
    gameState: GameState,
    problem: Option<ProblemSet>,
    userInput: Grid,
    time: nat,
    results: Option<GradingResult>,
    error: Option<string>,
    taskType: Option<TaskType>,
    difficulty: Option<Difficulty>,
    isTimerRunning: bool,
    timerRef: Option<nat>,
    scheduled: set<nat>,
    nextIntervalId: nat)

  /** The component's state.  `timerRef` is `timerIntervalRef.current`;
      `scheduled` stands for the browser's table of live intervals and
      `nextIntervalId` for the id it hands out next. */
  class Session {
    var gameState: GameState
    var problem: Option<ProblemSet>
    var userInput: Grid
    var time: nat
    var results: Option<GradingResult>
    var error: Option<string>
    var taskType: Option<TaskType>
    var difficulty: Option<Difficulty>
    var isTimerRunning: bool
    var timerRef: Option<nat>
    var scheduled: set<nat>
    var nextIntervalId: nat

    function Snapshot(): State
      reads this
    {
      State(gameState, problem, userInput, time, results, error, taskType, difficulty,
            isTimerRunning, timerRef, scheduled, nextIntervalId)
    }

    /** At most one interval is live, and it is the one the ref holds; each
        screen has the data it shows. */
    predicate Valid()
      reads this
    {
      && (timerRef.None? ==> scheduled == {})
      && (timerRef.Some? ==> scheduled == {timerRef.value} && 0 < timerRef.value < nextIntervalId)
      && 0 < nextIntervalId
      && ((gameState == Selecting || gameState == Generating) ==> problem.None? && results.None?)
      && (gameState == Typing ==>
            problem.Some? && results.None? && |userInput| >= |problem.value.sourceData|)
      && (gameState == Results ==> problem.Some? && results.Some?)
    }

    constructor ()
      ensures Valid()
      ensures Snapshot() == State(Selecting, None, [], 0, None, None, None, None, false, None, {}, 1)
    {
      gameState, problem, userInput, time := Selecting, None, [], 0;
      results, error, taskType, difficulty := None, None, None, None;
      isTimerRunning, timerRef, scheduled, nextIntervalId := false, None, {}, 1;
    }

    /** `startTimer`: any interval still live is cleared, the clock goes back to
        zero, and a new interval is scheduled. */
    method StartTimer()
      requires Valid()
      modifies this
      ensures Valid()
      ensures timerRef.Some? && timerRef.value !in old(scheduled) && scheduled == {timerRef.value}
      ensures Snapshot() == old(Snapshot()).(time := 0, timerRef := timerRef, scheduled := scheduled,
                                             nextIntervalId := old(nextIntervalId) + 1)
    {
      if timerRef.Some? && timerRef.value != 0 {
        scheduled := scheduled - {timerRef.value};
      }
      time := 0;
      timerRef := Some(nextIntervalId);
      scheduled := scheduled + {nextIntervalId};
      nextIntervalId := nextIntervalId + 1;
    }

    /** `stopTimer`: the live interval, if any, is cleared and the ref emptied.
        With no interval live it changes nothing. */
    method StopTimer()
      requires Valid()
      modifies this
      ensures Valid()
      ensures timerRef.None? && scheduled == {}
      ensures Snapshot() == old(Snapshot()).(timerRef := None, scheduled := {})
      ensures old(timerRef).None? ==> Snapshot() == old(Snapshot())
    {
      if timerRef.Some? && timerRef.value != 0 {
        scheduled := scheduled - {timerRef.value};
        timerRef := None;
      }
    }

    /** One run of the interval's callback: a second more on the clock. */
    method Tick(intervalId: nat)
      requires Valid() && intervalId in scheduled
      modifies this
      ensures Valid()
      ensures Snapshot() == old(Snapshot()).(time := old(time) + 1)
    {
      time := time + 1;
    }

    /** `handleGenerateProblem`, with the model's answer as a parameter: the
        selection is recorded, then a problem leads to typing on a fresh grid
        and a failure back to the selector with its message. */
    method HandleGenerateProblem(selectedTaskType: TaskType, selectedDifficulty: Difficulty, outcome: Result<ProblemSet>)
      requires Valid() && gameState == Selecting
      modifies this
      ensures Valid()
      ensures outcome.Success? ==>
        Snapshot() == old(Snapshot()).(gameState := Typing, problem := Some(outcome.value),
                                      userInput := InitialGrid(outcome.value), error := None,
                                      taskType := Some(selectedTaskType), difficulty := Some(selectedDifficulty))
      ensures outcome.Failure? ==>
        Snapshot() == old(Snapshot()).(gameState := Selecting, error := Some(outcome.message),
                                      taskType := Some(selectedTaskType), difficulty := Some(selectedDifficulty))
    {
      gameState := Generating;
      error := None;
      taskType := Some(selectedTaskType);
      difficulty := Some(selectedDifficulty);
      match outcome {
        case Success(problemSet) =>
          problem := Some(problemSet);
          userInput := InitialGrid(problemSet);
          gameState := Typing;
        case Failure(message) =>
          error := Some(message);
          gameState := Selecting;
      }
    }

    /** `handleDataChange`: one cell of the grid is set and nothing else changes. */
    method HandleDataChange(rowIndex: nat, header: string, value: string)
      requires Valid()
      modifies this
      ensures Valid()
      ensures Snapshot() == old(Snapshot()).(userInput := UpdateCell(old(userInput), rowIndex, header, value))
    {
      userInput := UpdateCell(userInput, rowIndex, header, value);
    }

    /** `handleStart`: the timer is marked running and started afresh. */
    method HandleStart()
      requires Valid()
      modifies this
      ensures Valid()
      ensures timerRef.Some? && timerRef.value !in old(scheduled) && scheduled == {timerRef.value}
      ensures Snapshot() == old(Snapshot()).(isTimerRunning := true, time := 0, timerRef := timerRef,
                                             scheduled := scheduled, nextIntervalId := old(nextIntervalId) + 1)
    {
      isTimerRunning := true;
      ghost var marked := Snapshot();
      StartTimer();
      assert Snapshot() == marked.(time := 0, timerRef := timerRef, scheduled := scheduled,
                                   nextIntervalId := marked.nextIntervalId + 1);
    }

    /** `handleGrade`: the timer stops; with a problem and a selection the grid
        is graded and the results screen shown, otherwise nothing else changes.
        The running flag is left as it was. */
    method HandleGrade(timestamp: string)
      requires Valid()
      modifies this
      ensures Valid()
      ensures timerRef.None? && scheduled == {}
      ensures !(old(problem).Some? && old(taskType).Some? && old(difficulty).Some?) ==>
        Snapshot() == old(Snapshot()).(timerRef := None, scheduled := {})
      ensures old(problem).Some? && old(taskType).Some? && old(difficulty).Some? ==>
        && Snapshot() == old(Snapshot()).(timerRef := None, scheduled := {}, gameState := Results, results := results)
        && results.Some?
        && results.value.errors == Mismatches(old(problem).value, old(userInput))
        && results.value.totalEntries == |old(problem).value.sourceData| * |old(problem).value.templateHeaders|
        && results.value.correctEntries + |results.value.errors| == results.value.totalEntries
        && results.value.accuracy == Accuracy(results.value.correctEntries, results.value.totalEntries)
        && results.value.time == old(time) && results.value.timestamp == timestamp
        && results.value.aiFeedback.None? && results.value.mistakeAnalysis.None?
    {
      StopTimer();
      assert Snapshot() == old(Snapshot()).(timerRef := None, scheduled := {});
      if problem.None? || taskType.None? || difficulty.None? {
        return;
      }
      var gradingResult := Grade(problem.value, userInput, time, timestamp);
      results := Some(gradingResult);
      gameState := Results;
    }

    /** The feedback reply landing on the current result. */
    method ApplyFeedback(reply: Result<string>)
      requires Valid()
      modifies this
      ensures Valid()
      ensures Snapshot() == old(Snapshot()).(results := WithFeedback(old(results), reply))
    {
      results := WithFeedback(results, reply);
    }

    /** The analysis reply landing on the current result. */
    method ApplyAnalysis(reply: Result<string>)
      requires Valid()
      modifies this
      ensures Valid()
      ensures Snapshot() == old(Snapshot()).(results := WithAnalysis(old(results), reply))
    {
      results := WithAnalysis(results, reply);
    }

    /** `handleReset`: back to the selector with everything cleared and the
        timer stopped. */
    method HandleReset()
      requires Valid()
      modifies this
      ensures Valid()
      ensures Snapshot() == State(Selecting, None, [], 0, None, None, None, None, false, None, {}, old(nextIntervalId))
    {
      gameState, problem, userInput, time := Selecting, None, [], 0;
      results, error, taskType, difficulty := None, None, None, None;
      ghost var cleared := Snapshot();
      StopTimer();
      assert Snapshot() == cleared.(timerRef := None, scheduled := {});
      isTimerRunning := false;
    }
  }

  /** A round from start to finish: a two-record problem is generated, started,
      typed with one wrong cell, graded, enriched and reset. */
  method PracticeRound()
  {
    var s := new Session();
    var p := ProblemSet("", ["Name", "Code"], [["A", "1"], ["B", "2"]], "");
    s.HandleGenerateProblem(CustomerList, Easy, Success(p));
    assert s.gameState == Typing && s.userInput == InitialGrid(p);
    s.HandleStart();
    var id := s.timerRef.value;
    s.Tick(id);
    s.Tick(id);
    assert s.time == 2;
    s.HandleDataChange(0, "Name", "A");
    s.HandleDataChange(0, "Code", "x");
    s.HandleDataChange(1, "Name", " B ");
    s.HandleDataChange(1, "Code", "2");
    s.HandleGrade("t");
    assert s.gameState == Results && s.scheduled == {};
    s.ApplyAnalysis(Failure("Failed to generate mistake analysis."));
    s.ApplyFeedback(Success("Good"));
    assert s.results.value.aiFeedback == Some("Good");
    assert s.results.value.mistakeAnalysis == Some(AnalysisPlaceholder);
    s.HandleReset();
    assert s.gameState == Selecting && s.results.None? && s.time == 0;
    s.ApplyFeedback(Success("Late"));
    assert s.results.None?;
  }
}
