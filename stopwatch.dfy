/**
 * An abstract stand-in for the third-party stopwatch the scales hold: only
 * whether one exists and which operations were applied to it, in order.
 */
module Stopwatch {

  datatype TimerEvent = Start | Stop | Reset

  /** `NoTimer` is the nil pointer a fresh scale holds. */
  datatype Timer = NoTimer | Timer(history: seq<TimerEvent>)

  /** Start: a nil timer is created already running; an existing one is restarted. */
  function Started(t: Timer): (t': Timer)
    ensures t'.Timer? && |t'.history| > 0 && t'.history[|t'.history| - 1] == Start
    ensures t.Timer? ==> t'.history[..|t'.history| - 1] == t.history
  {
    match t
    case NoTimer => Timer([Start])
    case Timer(h) => Timer(h + [Start])
  }

  /** Stop: a nil timer stays nil. */
  function Stopped(t: Timer): (t': Timer)
    ensures t.NoTimer? <==> t'.NoTimer?
    ensures t.Timer? ==> t'.history == t.history + [Stop]
  {
    match t
    case NoTimer => NoTimer
    case Timer(h) => Timer(h + [Stop])
  }

  /** Reset: a nil timer stays nil. */
  function Cleared(t: Timer): (t': Timer)
    ensures t.NoTimer? <==> t'.NoTimer?
    ensures t.Timer? ==> t'.history == t.history + [Reset]
  {
    match t
    case NoTimer => NoTimer
    case Timer(h) => Timer(h + [Reset])
  }

  /** ElapsedTime: zero without a timer, otherwise the stopwatch's own reading. */
  function Elapsed(t: Timer, reading: int): (d: int)
    ensures t.NoTimer? ==> d == 0
    ensures t.Timer? ==> d == reading
  {
    if t.NoTimer? then 0 else reading
  }
}
