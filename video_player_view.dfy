/**
 * The video player screen's control logic: the player state machine, the
 * centre button, the outcome of loading the video, the auto-hide timer of
 * the controls, and the favorite and title toggles.
 */
module Player {
  import opened Records

  datatype PlayerState = Loading | Playing | Paused | Error(message: string)

  /** How the asynchronous readiness check of the video ended. */
  datatype LoadOutcome = Playable | NotPlayable | LoadFailed

  const InvalidUrlMessage: string := "無效的影片網址"
  const NotPlayableMessage: string := "無法播放"
  const ConnectionFailedMessage: string := "連線失敗"

  /** The state a finished load leaves the player in. */
  function LoadedState(outcome: LoadOutcome): PlayerState {
    match outcome
    case Playable => Playing
    case NotPlayable => Error(NotPlayableMessage)
    case LoadFailed => Error(ConnectionFailedMessage)
  }

  /** A load ends in playing only when the video is playable, and otherwise in an error that names the cause. */
  lemma LoadOutcomes(outcome: LoadOutcome)
    ensures LoadedState(outcome) == Playing <==> outcome == Playable
    ensures LoadedState(outcome).Error? ==>
      LoadedState(outcome).message in {NotPlayableMessage, ConnectionFailedMessage}
    ensures LoadedState(outcome) != Loading && LoadedState(outcome) != Paused
  {
  }

  /**
   * The screen's state. The video URL is parsed by the platform; whether it
   * parses is fixed with the record and given to the constructor. Each auto-hide
   * task gets the next number; `cancelled` holds the numbers of the tasks
   * cancelled so far, and `pendingLoads` counts started loads still running.
   */
  class VideoPlayerView {
    const day: AdventDay
    const urlIsValid: bool
    var hasPlayer: bool
    var playerState: PlayerState
    var showControls: bool
    var showTitle: bool
    var controlsTask: Option<nat>
    var cancelled: set<nat>
    var nextTaskId: nat
    var pendingLoads: nat

    /** The current task is the newest one, and every older task has been cancelled. */
    ghost predicate Valid()
      reads this
    {
      && (controlsTask == None <==> nextTaskId == 0)
      && (controlsTask.Some? ==> controlsTask.value == nextTaskId - 1)
      && (forall t :: t in cancelled ==> t < nextTaskId)
      && (forall t: nat :: t < nextTaskId - 1 ==> t in cancelled)
    }

    /** Whether a hide task still runs to completion. */
    predicate Live(t: nat)
      reads this
    {
      t < nextTaskId && t !in cancelled
    }

    predicate IsPlaying()
      reads this
    {
      playerState == Playing
    }

    /** The centre button is disabled while loading. */
    predicate CenterButtonEnabled()
      reads this
    {
      playerState != Loading
    }

    constructor (day: AdventDay, urlIsValid: bool)
      ensures Valid() && this.day == day && this.urlIsValid == urlIsValid
      ensures playerState == Loading && showControls && showTitle && !hasPlayer
      ensures controlsTask == None && pendingLoads == 0
    {
      this.day := day;
      this.urlIsValid := urlIsValid;
      hasPlayer := false;
      playerState := Loading;
      showControls := true;
      showTitle := true;
      controlsTask := None;
      cancelled := {};
      nextTaskId := 0;
      pendingLoads := 0;
    }

    /** scheduleHideControls: the current task is cancelled and a new one takes its place. */
    method ScheduleHideControls()
      requires Valid()
      modifies this
      ensures Valid()
      ensures controlsTask == Some(old(nextTaskId)) && nextTaskId == old(nextTaskId) + 1
      ensures cancelled == old(cancelled) + (if old(controlsTask).Some? then {old(controlsTask).value} else {})
      ensures Live(old(nextTaskId)) && forall t: nat :: t < old(nextTaskId) ==> !Live(t)
      ensures playerState == old(playerState) && showControls == old(showControls)
      ensures showTitle == old(showTitle) && hasPlayer == old(hasPlayer) && pendingLoads == old(pendingLoads)
    {
      if controlsTask.Some? {
        cancelled := cancelled + {controlsTask.value};
      }
      controlsTask := Some(nextTaskId);
      nextTaskId := nextTaskId + 1;
    }

    /** Cancelling the current task, if any. */
    method CancelControlsTask()
      requires Valid()
      modifies this
      ensures Valid()
      ensures cancelled == old(cancelled) + (if controlsTask.Some? then {controlsTask.value} else {})
      ensures forall t: nat :: !Live(t)
      ensures controlsTask == old(controlsTask) && nextTaskId == old(nextTaskId)
      ensures playerState == old(playerState) && showControls == old(showControls)
      ensures showTitle == old(showTitle) && hasPlayer == old(hasPlayer) && pendingLoads == old(pendingLoads)
    {
      if controlsTask.Some? {
        cancelled := cancelled + {controlsTask.value};
      }
    }

    /**
     * The three seconds of a hide task are over: the controls are hidden
     * only if that task was not cancelled and the video is playing. Only
     * the newest task can still be live.
     */
    method HideTimerFired(t: nat)
      requires Valid() && t < nextTaskId
      modifies this
      ensures Valid()
      ensures showControls == if Live(t) && old(IsPlaying()) then false else old(showControls)
      ensures Live(t) ==> controlsTask == Some(t)
      ensures playerState == old(playerState) && showTitle == old(showTitle) && hasPlayer == old(hasPlayer)
      ensures controlsTask == old(controlsTask) && cancelled == old(cancelled)
      ensures nextTaskId == old(nextTaskId) && pendingLoads == old(pendingLoads)
    {
      if t !in cancelled && playerState == Playing {
        showControls := false;
      }
    }

    /**
     * setupPlayer: with an invalid URL the player shows the invalid-URL
     * error; otherwise a new player is created, the state becomes loading
     * and a load starts.
     */
    method SetupPlayer()
      requires Valid()
      modifies this
      ensures Valid()
      ensures !urlIsValid ==>
        playerState == Error(InvalidUrlMessage) && hasPlayer == old(hasPlayer) && pendingLoads == old(pendingLoads)
      ensures urlIsValid ==> playerState == Loading && hasPlayer && pendingLoads == old(pendingLoads) + 1
      ensures showControls == old(showControls) && showTitle == old(showTitle)
      ensures controlsTask == old(controlsTask) && cancelled == old(cancelled) && nextTaskId == old(nextTaskId)
    {
      if !urlIsValid {
        playerState := Error(InvalidUrlMessage);
        return;
      }
      playerState := Loading;
      hasPlayer := true;
      pendingLoads := pendingLoads + 1;
    }

    /** A started load finished; a playable video starts playing and the controls are scheduled to hide. */
    method LoadFinished(outcome: LoadOutcome)
      requires Valid() && pendingLoads > 0
      modifies this
      ensures Valid()
      ensures playerState == LoadedState(outcome) && pendingLoads == old(pendingLoads) - 1
      ensures outcome == Playable ==>
        controlsTask == Some(old(nextTaskId)) && Live(old(nextTaskId)) && nextTaskId == old(nextTaskId) + 1
      ensures outcome != Playable ==>
        controlsTask == old(controlsTask) && cancelled == old(cancelled) && nextTaskId == old(nextTaskId)
      ensures showControls == old(showControls) && showTitle == old(showTitle) && hasPlayer == old(hasPlayer)
    {
      pendingLoads := pendingLoads - 1;
      match outcome
      case Playable =>
        playerState := Playing;
        ScheduleHideControls();
      case NotPlayable =>
        playerState := Error(NotPlayableMessage);
      case LoadFailed =>
        playerState := Error(ConnectionFailedMessage);
    }

    /**
     * handleCenterButtonTap: nothing while loading; playing pauses and
     * cancels the hide task; paused resumes and schedules one; an error
     * runs the setup again.
     */
    method CenterButtonTap()
      requires Valid()
      modifies this
      ensures Valid()
      ensures showControls == old(showControls) && showTitle == old(showTitle)
      ensures !old(CenterButtonEnabled()) ==>
        playerState == old(playerState) && controlsTask == old(controlsTask) && cancelled == old(cancelled)
        && nextTaskId == old(nextTaskId) && pendingLoads == old(pendingLoads) && hasPlayer == old(hasPlayer)
      ensures old(IsPlaying()) ==>
        playerState == Paused && (forall t: nat :: !Live(t)) && hasPlayer == old(hasPlayer)
        && controlsTask == old(controlsTask) && nextTaskId == old(nextTaskId) && pendingLoads == old(pendingLoads)
      ensures old(playerState) == Paused ==>
        playerState == Playing && controlsTask == Some(old(nextTaskId)) && Live(old(nextTaskId))
        && (forall t: nat :: t < old(nextTaskId) ==> !Live(t))
        && nextTaskId == old(nextTaskId) + 1 && pendingLoads == old(pendingLoads) && hasPlayer == old(hasPlayer)
      ensures old(playerState).Error? ==>
        playerState == (if urlIsValid then Loading else Error(InvalidUrlMessage))
        && pendingLoads == old(pendingLoads) + (if urlIsValid then 1 else 0)
        && hasPlayer == (urlIsValid || old(hasPlayer))
        && controlsTask == old(controlsTask) && cancelled == old(cancelled) && nextTaskId == old(nextTaskId)
    {
      match playerState
      case Loading =>
      case Playing =>
        playerState := Paused;
        CancelControlsTask();
      case Paused =>
        playerState := Playing;
        ScheduleHideControls();
      case Error(_) =>
        SetupPlayer();
    }

    /** A tap on the video: the controls are shown and their hiding is scheduled afresh. */
    method BackgroundTap()
      requires Valid()
      modifies this
      ensures Valid()
      ensures showControls && controlsTask == Some(old(nextTaskId)) && Live(old(nextTaskId))
      ensures forall t: nat :: t < old(nextTaskId) ==> !Live(t)
      ensures nextTaskId == old(nextTaskId) + 1 && hasPlayer == old(hasPlayer)
      ensures playerState == old(playerState) && showTitle == old(showTitle) && pendingLoads == old(pendingLoads)
    {
      if !showControls {
        showControls := true;
      }
      ScheduleHideControls();
    }

    /** Any tap on the visible controls also schedules their hiding afresh. */
    method ControlsTap()
      requires Valid()
      modifies this
      ensures Valid()
      ensures controlsTask == Some(old(nextTaskId)) && Live(old(nextTaskId))
      ensures forall t: nat :: t < old(nextTaskId) ==> !Live(t)
      ensures nextTaskId == old(nextTaskId) + 1 && hasPlayer == old(hasPlayer) && pendingLoads == old(pendingLoads)
      ensures playerState == old(playerState) && showControls == old(showControls) && showTitle == old(showTitle)
    {
      ScheduleHideControls();
    }

    /** The favorite button flips the day's favorite flag and nothing else. */
    method FavoriteTap()
      modifies day
      ensures day.isFavorite == !old(day.isFavorite)
      ensures day.isOpened == old(day.isOpened) && day.openedAt == old(day.openedAt)
    {
      day.isFavorite := !day.isFavorite;
    }

    /** The title button flips whether the title is shown and nothing else. */
    method TitleTap()
      modifies this
      ensures showTitle == !old(showTitle)
      ensures playerState == old(playerState) && showControls == old(showControls) && hasPlayer == old(hasPlayer)
      ensures controlsTask == old(controlsTask) && cancelled == old(cancelled) && nextTaskId == old(nextTaskId)
      ensures pendingLoads == old(pendingLoads)
    {
      showTitle := !showTitle;
    }

    /**
     * cleanup when the screen disappears: the hide task is cancelled and the
     * player released. A load already started is not cancelled and may still
     * finish afterwards.
     */
    method Cleanup()
      requires Valid()
      modifies this
      ensures Valid()
      ensures !hasPlayer && forall t: nat :: !Live(t)
      ensures cancelled == old(cancelled) + (if controlsTask.Some? then {controlsTask.value} else {})
      ensures controlsTask == old(controlsTask) && nextTaskId == old(nextTaskId) && pendingLoads == old(pendingLoads)
      ensures playerState == old(playerState) && showControls == old(showControls) && showTitle == old(showTitle)
    {
      CancelControlsTask();
      hasPlayer := false;
    }
  }
}
