/**
 The width rule of `ProgressBar` (src/components/stories/progress-bar.tsx):
 a completed bar is full, an active one shows the progress, any other is
 empty. Widths are percentages.
 */
module ProgressBar {

  function Width(progress: real, isActive: bool, isCompleted: bool): (w: real)
    ensures isCompleted ==> w == 100.0
    ensures !isCompleted && isActive ==> w == progress
    ensures !isCompleted && !isActive ==> w == 0.0
    ensures 0.0 <= progress <= 100.0 ==> 0.0 <= w <= 100.0
  {
    if isCompleted then 100.0 else if isActive then progress else 0.0
  }

}
