/** The limits a caller sets, for compiling as for executing. */
module BreLimits {
  import opened BreBudget
  import opened BreProgram

  datatype Limits =
    Limits(maxPatternBytes: nat, maxInputBytes: nat, maxInstructions: nat, maxRanges: nat, maxCaptures: nat,
           maxRepeat: nat, maxParseDepth: nat, maxFrames: nat, maxSteps: nat, maxWorkspaceBytes: nat)

  /** Zero limits are an error, limits above the fixed maxima too. */
  function LimitsReport(l: Limits): (r: Report)
    ensures r == Fine ==> 0 < l.maxFrames && l.maxInputBytes <= MAX_INPUT
  {
    if l.maxPatternBytes == 0 || l.maxInputBytes == 0 || l.maxInstructions == 0 || l.maxRanges == 0
      || l.maxCaptures == 0 ||
       l.maxRepeat == 0 || l.maxParseDepth == 0 || l.maxFrames == 0 || l.maxSteps == 0 || l.maxWorkspaceBytes == 0
    then Failed(Argument)
    else if l.maxPatternBytes > 1024 || l.maxInputBytes > 65535 || l.maxInstructions > 4096 || l.maxRanges > 4096 ||
            l.maxCaptures > 9 || l.maxRepeat > 255 || l.maxParseDepth > 9 || l.maxFrames > 4096
    then Failed(Limit)
    else Fine
  }
}
