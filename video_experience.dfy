/** frontend/src/components/VideoExperience.jsx: a simulated video whose progress grows by
    five points on every tick of a half-second interval until it reaches 100, when the
    component reports completion to its parent and enables its button. */
module VideoExperience {

  const Step := 5
  const Full := 100
  /** Ticks from 0 until the first tick that reaches 100. */
  const TicksToFinish := 20

  /** The component's state, whether its interval is running, and how often it has
      called `onComplete`. */
  class VideoView {
    var progress: int
    var completed: bool
    var intervalRunning: bool
    var completions: nat
    /** Ticks received so far. */
    ghost var ticks: nat

    /** Progress counts the ticks in steps of five up to 100; the interval runs exactly
        while the video is not completed; completion was reported once, when it came. */
    ghost predicate Valid()
      reads this
    {
      && progress == Step * ticks && ticks <= TicksToFinish
      && (completed <==> progress >= Full)
      && intervalRunning == !completed
      && completions == if completed then 1 else 0
    }

    /** Mounting: progress 0, not completed, and the interval started because the video
        is not completed. */
    constructor()
      ensures Valid() && progress == 0 && !completed && intervalRunning && completions == 0 && ticks == 0
    {
      progress := 0;
      completed := false;
      intervalRunning := true;
      completions := 0;
      ticks := 0;
    }

    /** The button is disabled until the video is completed. */
    predicate ButtonEnabled()
      reads this
    {
      completed
    }

    /** One firing of the interval: progress grows by 5; on reaching 100 the video is
        completed, the interval is cleared and the completion effect calls `onComplete`. */
    method Tick()
      requires Valid() && intervalRunning
      modifies this
      ensures Valid()
      ensures progress == old(progress) + Step && ticks == old(ticks) + 1
      ensures completed <==> progress >= Full
      ensures completed ==> completions == old(completions) + 1 && !intervalRunning
      ensures !completed ==> completions == old(completions) && intervalRunning
    {
      var newProgress := progress + Step;
      if newProgress >= Full {
        completed := true;
        intervalRunning := false;
        completions := completions + 1;
      }
      progress := newProgress;
      ticks := ticks + 1;
    }
  }

  /** Running the interval until it stops: exactly twenty ticks, after which the video is
      complete at 100%, the button is enabled and `onComplete` was called once. */
  method PlayToEnd(view: VideoView) returns (ticksTaken: nat)
    requires view.Valid() && view.progress == 0
    modifies view
    ensures view.Valid()
    ensures ticksTaken == TicksToFinish
    ensures view.progress == Full && view.completed && view.ButtonEnabled()
    ensures !view.intervalRunning && view.completions == 1
  {
    ticksTaken := 0;
    while view.intervalRunning
      invariant view.Valid()
      invariant view.progress == Step * ticksTaken
      invariant ticksTaken <= TicksToFinish
      decreases Full - view.progress
    {
      view.Tick();
      ticksTaken := ticksTaken + 1;
    }
  }
}
