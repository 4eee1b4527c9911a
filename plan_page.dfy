/** The state of the plan page and its handlers (frontend/app/plan/page.tsx): the loaded plan,
    the session timer, and the end-of-session reflection. Requests to the backend are not
    performed here; each handler that makes one takes its outcome as a parameter. */
module PlanPage {
  import opened Wrappers
  import opened PageTypes
  import opened SessionTimer
  import opened SessionViews

  /** The message a failed history lookup shows, whatever the failure was. */
  const LoadFailedMessage: string := "Failed to load plan"

  class PageState {
    // the plan form
    var task: string
    var totalMinutes: int
    var mode: Option<Mode>
    var intensity: Option<Intensity>

    // the current plan
    var error: string
    var result: Option<PlanResponse>

    // the session timer
    var sessionActive: bool
    var currentBlockIndex: nat
    var secondsLeft: int

    // the end of the session and its reflection
    var sessionHasEnded: bool
    var selectedMood: Option<Mood>
    var reflectionNotes: string
    var reflection: Option<Reflection>
    var reflectionError: Option<string>

    /** The blocks of the current plan; none without a plan. */
    function Plan(): seq<Block>
      reads this
    {
      if result.Some? then result.value.plan else []
    }

    /** The four timer fields as one value. */
    function TimerState(): Timer
      reads this
    {
      Timer(sessionActive, sessionHasEnded, currentBlockIndex, secondsLeft)
    }

    /** The page invariant: a running session has a plan, its current block exists, it has
        not ended, and its countdown is above zero. */
    ghost predicate Valid()
      reads this
    {
      (sessionActive ==> result.Some?) && WellPlaced(Plan(), TimerState()) && Quiescent(TimerState())
    }

    /** The initial component state. */
    constructor ()
      ensures Valid()
      ensures task == "" && totalMinutes == 60 && mode == Some(Study) && intensity == Some(Normal)
      ensures error == "" && result.None?
      ensures TimerState() == Timer(false, false, 0, 0)
      ensures selectedMood.None? && reflectionNotes == "" && reflection.None? && reflectionError.None?
    {
      task, totalMinutes, mode, intensity := "", 60, Some(Study), Some(Normal);
      error, result := "", None;
      sessionActive, currentBlockIndex, secondsLeft := false, 0, 0;
      sessionHasEnded := false;
      selectedMood, reflectionNotes, reflection, reflectionError := None, "", None, None;
    }

    /** The session panel is shown while a session runs on a non-empty plan; under the
        page invariant its block index then lies inside the plan. */
    predicate SessionPanelShown(): (shown: bool)
      reads this
      ensures shown ==> |Plan()| > 0 && sessionActive
      ensures shown && Valid() ==> currentBlockIndex < |Plan()|
    {
      sessionActive && result.Some? && |result.value.plan| > 0
    }

    /** The reflection form is offered once a session has ended and until a reflection is
        saved; under the page invariant it never appears beside the running session's panel. */
    predicate ReflectionFormShown(): (shown: bool)
      reads this
      ensures shown ==> result.Some? && reflection.None?
      ensures shown && Valid() ==> !SessionPanelShown()
    {
      sessionHasEnded && result.Some? && reflection.None?
    }

    /** The form's save button is enabled once a mood is chosen. */
    predicate SaveEnabled()
      reads this
    {
      ReflectionFormShown() && selectedMood.Some?
    }

    /** The block the session panel describes: always one of the plan's blocks. */
    function CurrentBlock(): (b: Block)
      requires Valid() && SessionPanelShown()
      reads this
      ensures currentBlockIndex < |Plan()| && b == Plan()[currentBlockIndex]
    {
      result.value.plan[currentBlockIndex]
    }

    /** The progress percentage the session panel shows. */
    function ProgressShown(): (p: int)
      requires Valid() && SessionPanelShown()
      reads this
      ensures 0 <= p <= 100
      ensures currentBlockIndex == 0 ==> p == 0
    {
      Progress(BlockCount(result), currentBlockIndex)
    }

    /** The countdown text the session panel shows; it reads back as the seconds left. */
    function CountdownText(): (s: string)
      requires Valid() && SessionPanelShown()
      reads this
      ensures ParseTime(s) == Some(secondsLeft)
    {
      FormatTime(secondsLeft)
    }

    /** The zero-check effect, run until it has nothing left to do: at a countdown of zero or
        below it moves to the next block and starts that block's countdown, or, after the
        last block, ends the session with the index and countdown left as they were. */
    method Settle()
      requires (sessionActive ==> result.Some?) && WellPlaced(Plan(), TimerState())
      modifies this`sessionActive, this`sessionHasEnded, this`currentBlockIndex, this`secondsLeft
      ensures Valid()
      ensures TimerState() == Settled(Plan(), old(TimerState()))
    {
      while sessionActive && result.Some? && secondsLeft <= 0
        invariant (sessionActive ==> result.Some?) && WellPlaced(Plan(), TimerState())
        invariant Settled(Plan(), TimerState()) == Settled(Plan(), old(TimerState()))
        decreases |Plan()| - currentBlockIndex + (if sessionActive then 1 else 0)
      {
        var nextIndex := currentBlockIndex + 1;
        if nextIndex < |result.value.plan| {
          var nextBlock := result.value.plan[nextIndex];
          currentBlockIndex := nextIndex;
          secondsLeft := nextBlock.minutes * 60;
        } else {
          sessionActive := false;
          sessionHasEnded := true;
        }
      }
    }

    /** "Start session with this plan": on a plan with blocks, clears the reflection and its
        draft and starts the first block's countdown, whether or not a session was running;
        without blocks it changes nothing. */
    method Start()
      requires Valid()
      modifies this`sessionActive, this`sessionHasEnded, this`currentBlockIndex, this`secondsLeft
      modifies this`reflection, this`selectedMood, this`reflectionNotes, this`reflectionError
      ensures Valid()
      ensures |Plan()| == 0 ==> unchanged(this)
      ensures |Plan()| > 0 ==> TimerState() == StartTimer(Plan())
      ensures |Plan()| > 0 ==>
        reflection.None? && selectedMood.None? && reflectionNotes == "" && reflectionError.None?
      ensures |Plan()| > 0 && Plan()[0].minutes > 0 ==>
        sessionActive && !sessionHasEnded && currentBlockIndex == 0 &&
        secondsLeft == Plan()[0].minutes * 60 && ProgressShown() == 0
    {
      if result.None? || |result.value.plan| == 0 {
        return;
      }
      sessionActive := true;
      sessionHasEnded := false;
      reflection := None;
      selectedMood := None;
      reflectionNotes := "";
      reflectionError := None;
      currentBlockIndex := 0;
      secondsLeft := result.value.plan[0].minutes * 60;
      Settle();
    }

    /** One second of the running session's interval: the countdown drops by one and the
        zero-check follows. Nothing happens when no session runs. */
    method Tick()
      requires Valid()
      modifies this`sessionActive, this`sessionHasEnded, this`currentBlockIndex, this`secondsLeft
      ensures Valid()
      ensures TimerState() == TickStep(Plan(), old(TimerState()))
      ensures old(sessionActive) ==> old(currentBlockIndex) <= currentBlockIndex
    {
      if sessionActive && secondsLeft > 0 {
        secondsLeft := secondsLeft - 1;
        Settle();
      }
    }

    /** "End session": the session stops and counts as ended; the block index and the
        countdown keep their values. */
    method EndEarly()
      requires Valid()
      modifies this`sessionActive, this`sessionHasEnded
      ensures Valid()
      ensures !sessionActive && sessionHasEnded
    {
      sessionActive := false;
      sessionHasEnded := true;
    }

    /** The resets that loading a plan and "Clear" share: no session, the first block with
        no countdown, and no reflection, mood, notes or reflection error. */
    method ResetSession()
      modifies this`sessionActive, this`sessionHasEnded, this`currentBlockIndex, this`secondsLeft
      modifies this`reflection, this`selectedMood, this`reflectionNotes, this`reflectionError
      ensures Valid()
      ensures TimerState() == Timer(false, false, 0, 0)
      ensures reflection.None? && selectedMood.None? && reflectionNotes == "" && reflectionError.None?
    {
      sessionActive := false;
      sessionHasEnded := false;
      secondsLeft := 0;
      currentBlockIndex := 0;
      reflection := None;
      selectedMood := None;
      reflectionNotes := "";
      reflectionError := None;
    }

    /** Picking a past plan from the history. On a reply the plan becomes current, the form
        takes the plan's values (its mode and intensity even when the reply has none), and
        the session and the reflection are reset; the error message is left as it was. On a
        failure only the error message changes. */
    method LoadPlanById(response: Result<PlanResponse>)
      requires Valid()
      modifies this
      ensures Valid()
      ensures response.Success? ==>
        result == Some(response.value) &&
        task == response.value.task && totalMinutes == response.value.totalMinutes &&
        mode == response.value.mode && intensity == response.value.intensity &&
        TimerState() == Timer(false, false, 0, 0) &&
        reflection.None? && selectedMood.None? && reflectionNotes == "" && reflectionError.None? &&
        error == old(error)
      ensures response.Failure? ==>
        error == LoadFailedMessage &&
        result == old(result) && TimerState() == old(TimerState()) &&
        task == old(task) && totalMinutes == old(totalMinutes) &&
        mode == old(mode) && intensity == old(intensity) &&
        reflection == old(reflection) && selectedMood == old(selectedMood) &&
        reflectionNotes == old(reflectionNotes) && reflectionError == old(reflectionError)
    {
      match response
      case Success(data) =>
        result := Some(data);
        mode := data.mode;
        intensity := data.intensity;
        totalMinutes := data.totalMinutes;
        task := data.task;
        ResetSession();
      case Failure(_) =>
        error := LoadFailedMessage;
    }

    /** What "Generate plan" does before the request is made: the current plan, the error,
        the session flags and the reflection are cleared, while the block index, the
        countdown and the form are not touched. */
    method BeginPlanRequest()
      requires Valid()
      modifies this`error, this`result, this`sessionActive, this`sessionHasEnded
      modifies this`reflection, this`selectedMood, this`reflectionNotes, this`reflectionError
      ensures Valid()
      ensures error == "" && result.None? && !sessionActive && !sessionHasEnded
      ensures reflection.None? && selectedMood.None? && reflectionNotes == "" && reflectionError.None?
    {
      error := "";
      result := None;
      sessionActive := false;
      sessionHasEnded := false;
      reflection := None;
      selectedMood := None;
      reflectionNotes := "";
      reflectionError := None;
    }

    /** "Generate plan". Before the request is made the current plan, the error, the session
        flags and the reflection are cleared, so a failed request leaves no plan at all; the
        block index and the countdown are not reset. On a reply the plan becomes current and
        the form takes its values, keeping its own mode and intensity where the reply has
        none; on a failure the error message is shown. */
    method GeneratePlan(response: Result<PlanResponse>)
      requires Valid()
      modifies this
      ensures Valid()
      ensures !sessionActive && !sessionHasEnded
      ensures currentBlockIndex == old(currentBlockIndex) && secondsLeft == old(secondsLeft)
      ensures reflection.None? && selectedMood.None? && reflectionNotes == "" && reflectionError.None?
      ensures response.Success? ==>
        result == Some(response.value) && error == "" &&
        task == response.value.task && totalMinutes == response.value.totalMinutes &&
        mode == response.value.mode.OrElse(old(mode)) &&
        intensity == response.value.intensity.OrElse(old(intensity))
      ensures response.Failure? ==>
        result.None? && error == response.message &&
        task == old(task) && totalMinutes == old(totalMinutes) &&
        mode == old(mode) && intensity == old(intensity)
    {
      BeginPlanRequest();
      match response
      case Success(data) =>
        result := Some(data);
        mode := data.mode.OrElse(mode);
        intensity := data.intensity.OrElse(intensity);
        totalMinutes := data.totalMinutes;
        task := data.task;
      case Failure(message) =>
        error := message;
    }

    /** "Clear": no plan, no session, no reflection, no error. The form keeps its values. */
    method ClearAll()
      requires Valid()
      modifies this
      ensures Valid()
      ensures result.None? && error == ""
      ensures TimerState() == Timer(false, false, 0, 0)
      ensures reflection.None? && selectedMood.None? && reflectionNotes == "" && reflectionError.None?
      ensures task == old(task) && totalMinutes == old(totalMinutes)
      ensures mode == old(mode) && intensity == old(intensity)
    {
      result := None;
      error := "";
      ResetSession();
    }

    /** A mood button of the reflection form. */
    method SelectMood(m: Mood)
      modifies this`selectedMood
      ensures selectedMood == Some(m)
    {
      selectedMood := Some(m);
    }

    /** The notes field of the reflection form. */
    method SetNotes(notes: string)
      modifies this`reflectionNotes
      ensures reflectionNotes == notes
    {
      reflectionNotes := notes;
    }

    /** "Save reflection". Without a plan or a chosen mood nothing is sent and nothing
        changes. Otherwise the plan's id, the mood and the notes are sent; a reply becomes
        the reflection, which closes the form, and a failure only sets the reflection error. */
    method SubmitReflection(response: Result<Reflection>) returns (request: Option<ReflectionRequest>)
      modifies this`reflection, this`reflectionError
      ensures old(SaveEnabled()) ==> request.Some?
      ensures result.None? || selectedMood.None? ==>
        request.None? && reflection == old(reflection) && reflectionError == old(reflectionError)
      ensures result.Some? && selectedMood.Some? ==>
        request == Some(ReflectionRequest(result.value.id, selectedMood.value, reflectionNotes))
      ensures request.Some? && response.Success? ==>
        reflection == Some(response.value) && reflectionError.None? && !ReflectionFormShown()
      ensures request.Some? && response.Failure? ==>
        reflection == old(reflection) && reflectionError == Some(response.message)
    {
      if result.None? || selectedMood.None? {
        return None;
      }
      request := Some(ReflectionRequest(result.value.id, selectedMood.value, reflectionNotes));
      reflectionError := None;
      match response
      case Success(data) =>
        reflection := Some(data);
      case Failure(message) =>
        reflectionError := Some(message);
    }
  }
}
