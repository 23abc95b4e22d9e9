/** Log output, as the level and the text of each line, in the order the
    lines are written. */
module Logging {

  datatype Level = Info | Warning | Error | Exception

  datatype LogLine = LogLine(level: Level, text: string)

  function InfoLine(text: string): LogLine { LogLine(Info, text) }
  function WarningLine(text: string): LogLine { LogLine(Warning, text) }
  function ErrorLine(text: string): LogLine { LogLine(Error, text) }
  /** `logger.exception`: an error line with the traceback attached. */
  function ExceptionLine(text: string): LogLine { LogLine(Exception, text) }

  /** How many lines of the log have the given level. */
  function CountLevel(log: seq<LogLine>, level: Level): (n: nat)
    ensures n <= |log|
    decreases |log|
  {
    if log == [] then 0
    else CountLevel(log[..|log| - 1], level) + (if log[|log| - 1].level == level then 1 else 0)
  }

  lemma {:induction false} CountLevelAppend(a: seq<LogLine>, b: seq<LogLine>, level: Level)
    ensures CountLevel(a + b, level) == CountLevel(a, level) + CountLevel(b, level)
    decreases |b|
  {
    if b == [] {
      assert a + b == a;
    } else {
      assert (a + b)[..|a + b| - 1] == a + b[..|b| - 1];
      CountLevelAppend(a, b[..|b| - 1], level);
    }
  }
}
