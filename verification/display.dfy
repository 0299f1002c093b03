/** How the goal and budget pages turn a progress percentage into a
    colour name and a progress-bar fraction (pages/goals.py and
    pages/budget.py use the same thresholds). */
module Display {

  /** The colour names "normal", "warning" and "off". */
  datatype Colour = Normal | Warning | Off

  /** "off" from 90%, "warning" from 75%, "normal" below. */
  function ProgressColour(progress: real): (c: Colour)
    ensures c == Off <==> progress >= 90.0
    ensures c == Warning <==> 75.0 <= progress < 90.0
    ensures c == Normal <==> progress < 75.0
  {
    if progress >= 90.0 then Off
    else if progress >= 75.0 then Warning
    else Normal
  }

  /** `min(progress / 100, 1.0)`: the bar is full from 100% on. */
  function BarFraction(progress: real): (f: real)
    ensures f <= 1.0
    ensures progress <= 100.0 ==> f * 100.0 == progress
    ensures progress >= 100.0 ==> f == 1.0
    ensures progress >= 0.0 ==> f >= 0.0
  {
    if progress / 100.0 <= 1.0 then progress / 100.0 else 1.0
  }
}
