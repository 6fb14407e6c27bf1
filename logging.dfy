/**
 * The logger: every message goes to a bounded in-memory buffer that the menu
 * displays, and to the log file at a severity chosen by its level.
 */
module Logging {

  /** The `logging` call a level is routed to. */
  datatype Severity = ErrorLine | WarningLine | InfoLine

  datatype LogEntry = LogEntry(timestamp: string, level: string, message: string, color: string)

  /** `self.max_logs`. */
  const MaxLogs: nat := 1000

  /** `s[-cap:]` once `s` is longer than `cap`: the `cap` newest entries. */
  function Newest<T>(s: seq<T>, cap: nat): (r: seq<T>)
    ensures |r| == if |s| < cap then |s| else cap
    ensures r == s[|s| - |r|..]
  {
    if |s| > cap then s[|s| - cap..] else s
  }

  /**
   * Appending to a buffer within the cap and trimming gives the newest
   * `cap - 1` old entries followed by the new one.
   */
  lemma {:induction false} NewestAfterAppend<T>(s: seq<T>, e: T, cap: nat)
    requires 1 <= cap && |s| <= cap
    ensures Newest(s + [e], cap) == Newest(s, cap - 1) + [e]
    ensures |Newest(s + [e], cap)| <= cap
  {
    var t := s + [e];
    if |s| == cap {
      assert t[|t| - cap..] == s[|s| - (cap - 1)..] + [e];
    }
  }

  /** Levels other than `ERROR` and `WARNING` are written at `info`. */
  function SeverityOf(level: string): (sev: Severity)
    ensures sev == ErrorLine <==> level == "ERROR"
    ensures sev == WarningLine <==> level == "WARNING"
  {
    if level == "ERROR" then ErrorLine
    else if level == "WARNING" then WarningLine
    else InfoLine
  }

  class Logger {
    /** The entries kept for display, oldest first. */
    var logs: seq<LogEntry>
    /** The lines handed to the `logging` module, oldest first. */
    var written: seq<(Severity, string)>

    ghost predicate Valid()
      reads this
    {
      |logs| <= MaxLogs
    }

    constructor ()
      ensures Valid() && logs == [] && written == []
    {
      logs := [];
      written := [];
    }

    /**
     * `Logger.log`: append the entry, trim the buffer to its `MaxLogs` newest
     * entries, write the message at the severity of its level.
     */
    method Log(message: string, level: string, color: string, timestamp: string)
      requires Valid()
      modifies this
      ensures Valid()
      ensures logs == Newest(old(logs), MaxLogs - 1) + [LogEntry(timestamp, level, message, color)]
      ensures written == old(written) + [(SeverityOf(level), message)]
    {
      var entry := LogEntry(timestamp, level, message, color);
      NewestAfterAppend(logs, entry, MaxLogs);
      logs := logs + [entry];
      if |logs| > MaxLogs {
        logs := logs[|logs| - MaxLogs..];
      }
      written := written + [(SeverityOf(level), message)];
    }
  }
}
