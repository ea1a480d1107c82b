/**
 * The platform's in-memory logger: a severity threshold that filters
 * calls, and a bounded buffer that keeps the newest entries.
 */
module Logging {
  import opened Wrappers
  import Severities

  type Timestamp = int

  /** The six levels, ordered by their numeric value. */
  datatype LogLevel = Debug | Info | Warn | Error | Critical | Crisis {
    function Value(): (v: nat)
      ensures v <= 5
      ensures v == 5 <==> this == Crisis
    {
      match this
      case Debug => 0
      case Info => 1
      case Warn => 2
      case Error => 3
      case Critical => 4
      case Crisis => 5
    }
  }

  /**
   * One buffered record. `data` is kept as optional text, and `urgency`
   * uses the four-level scale low/medium/high/critical.
   */
  datatype LogEntry = LogEntry(
    timestamp: Timestamp,
    level: LogLevel,
    message: string,
    context: Option<string>,
    data: Option<string>,
    isPrivacySafe: Option<bool>,
    urgency: Option<Severities.Severity>,
    userId: Option<string>)

  /** The optional extras a call may spread into its entry. */
  datatype LogOptions = LogOptions(
    isPrivacySafe: Option<bool>,
    urgency: Option<Severities.Severity>,
    userId: Option<string>)

  const NoOptions := LogOptions(None, None, None)

  /** Capacity of the buffer. */
  const MaxLogs: nat := 1000

  /** A call at `level` passes the threshold unless its value is below the threshold's. */
  predicate Recorded(level: LogLevel, threshold: LogLevel) {
    level.Value() >= threshold.Value()
  }

  /** Nothing outranks a crisis, so no threshold filters it out. */
  lemma CrisisAlwaysRecorded(threshold: LogLevel)
    ensures Recorded(Crisis, threshold)
    ensures threshold != Crisis ==> !Recorded(threshold, Crisis)
  {
  }

  /** The entry built from a call's arguments and options. */
  function MakeEntry(now: Timestamp, level: LogLevel, message: string, context: Option<string>,
                     data: Option<string>, options: LogOptions): (e: LogEntry)
    ensures e.level == level && e.message == message && e.timestamp == now
    ensures e.context == context && e.data == data
    ensures e.urgency == options.urgency && e.isPrivacySafe == options.isPrivacySafe && e.userId == options.userId
  {
    LogEntry(now, level, message, context, data, options.isPrivacySafe, options.urgency, options.userId)
  }

  /** The newest `MaxLogs` elements of a history (all of it when it is shorter). */
  function Newest(history: seq<LogEntry>): (r: seq<LogEntry>)
    ensures |r| == if |history| <= MaxLogs then |history| else MaxLogs
    ensures r == history[|history| - |r|..]
  {
    if |history| <= MaxLogs then history else history[|history| - MaxLogs..]
  }

  /** Push `entry`, then drop the oldest entry once the buffer is over capacity. */
  function Retain(logs: seq<LogEntry>, entry: LogEntry): (r: seq<LogEntry>)
    ensures |r| > 0 && r[|r| - 1] == entry
    ensures |logs| < MaxLogs ==> r == logs + [entry]
    ensures |logs| >= MaxLogs ==> r == logs[1..] + [entry]
    ensures |logs| <= MaxLogs ==> |r| <= MaxLogs
  {
    var pushed := logs + [entry];
    if |pushed| > MaxLogs then pushed[1..] else pushed
  }

  /** A buffer that holds the newest entries of a history still does after one more entry. */
  lemma RetainKeepsNewest(history: seq<LogEntry>, entry: LogEntry)
    ensures Retain(Newest(history), entry) == Newest(history + [entry])
  {
    var extended := history + [entry];
    if |history| >= MaxLogs {
      var kept := history[|history| - MaxLogs..];
      assert Newest(history) == kept;
      assert Retain(kept, entry) == kept[1..] + [entry];
      assert kept[1..] + [entry] == extended[|extended| - MaxLogs..];
    } else {
      assert Newest(history) == history;
      assert Newest(extended) == extended;
    }
  }

  /** Replays a history of accepted entries into an empty buffer. */
  function Replay(history: seq<LogEntry>): (r: seq<LogEntry>)
    ensures r == Newest(history)
    decreases |history|
  {
    if history == [] then []
    else
      var init := history[..|history| - 1];
      assert history == init + [history[|history| - 1]];
      RetainKeepsNewest(init, history[|history| - 1]);
      Retain(Replay(init), history[|history| - 1])
  }

  class Logger {
    var logLevel: LogLevel
    var logs: seq<LogEntry>
    const maxLogs: nat := MaxLogs

    /** The buffer never holds more than `maxLogs` entries. */
    ghost predicate Valid()
      reads this
    {
      |logs| <= maxLogs
    }

    /** The threshold is `Debug` in a development build and `Info` otherwise; the buffer starts empty. */
    constructor (development: bool)
      ensures Valid()
      ensures logLevel == (if development then LogLevel.Debug else LogLevel.Info)
      ensures logs == []
    {
      logLevel := if development then LogLevel.Debug else LogLevel.Info;
      logs := [];
    }

    /** `log`: a call below the threshold changes nothing; any other call appends its entry, evicting the oldest at capacity. */
    method Log(level: LogLevel, message: string, context: Option<string>, data: Option<string>,
               options: LogOptions, now: Timestamp)
      requires Valid()
      modifies this`logs
      ensures Valid()
      ensures !Recorded(level, logLevel) ==> logs == old(logs)
      ensures Recorded(level, logLevel) ==> logs == Retain(old(logs), MakeEntry(now, level, message, context, data, options))
    {
      if level.Value() < logLevel.Value() {
        return;
      }
      var entry := MakeEntry(now, level, message, context, data, options);
      logs := logs + [entry];
      if |logs| > maxLogs {
        logs := logs[1..];
      }
    }

    /** `debug`: a call at `Debug` without options. */
    method Debug(message: string, context: Option<string>, data: Option<string>, now: Timestamp)
      requires Valid()
      modifies this`logs
      ensures Valid()
      ensures logs == if Recorded(LogLevel.Debug, logLevel)
        then Retain(old(logs), MakeEntry(now, LogLevel.Debug, message, context, data, NoOptions))
        else old(logs)
    {
      Log(LogLevel.Debug, message, context, data, NoOptions, now);
    }

    /** `info`: a call at `Info` without options. */
    method Info(message: string, context: Option<string>, data: Option<string>, now: Timestamp)
      requires Valid()
      modifies this`logs
      ensures Valid()
      ensures logs == if Recorded(LogLevel.Info, logLevel)
        then Retain(old(logs), MakeEntry(now, LogLevel.Info, message, context, data, NoOptions))
        else old(logs)
    {
      Log(LogLevel.Info, message, context, data, NoOptions, now);
    }

    /** `warn`: a call at `Warn` without options. */
    method Warn(message: string, context: Option<string>, data: Option<string>, now: Timestamp)
      requires Valid()
      modifies this`logs
      ensures Valid()
      ensures logs == if Recorded(LogLevel.Warn, logLevel)
        then Retain(old(logs), MakeEntry(now, LogLevel.Warn, message, context, data, NoOptions))
        else old(logs)
    {
      Log(LogLevel.Warn, message, context, data, NoOptions, now);
    }

    /** `error`: a call at `Error` without options. */
    method Error(message: string, context: Option<string>, data: Option<string>, now: Timestamp)
      requires Valid()
      modifies this`logs
      ensures Valid()
      ensures logs == if Recorded(LogLevel.Error, logLevel)
        then Retain(old(logs), MakeEntry(now, LogLevel.Error, message, context, data, NoOptions))
        else old(logs)
    {
      Log(LogLevel.Error, message, context, data, NoOptions, now);
    }

    /** `critical`: a call at `Critical` without options. */
    method Critical(message: string, context: Option<string>, data: Option<string>, now: Timestamp)
      requires Valid()
      modifies this`logs
      ensures Valid()
      ensures logs == if Recorded(LogLevel.Critical, logLevel)
        then Retain(old(logs), MakeEntry(now, LogLevel.Critical, message, context, data, NoOptions))
        else old(logs)
    {
      Log(LogLevel.Critical, message, context, data, NoOptions, now);
    }

    /** `crisis`: always recorded, at `Crisis`, carrying the urgency and nothing else from the options. */
    method Crisis(message: string, urgency: Severities.Severity, context: Option<string>,
                  data: Option<string>, now: Timestamp)
      requires Valid()
      modifies this`logs
      ensures Valid()
      ensures logs == Retain(old(logs), MakeEntry(now, LogLevel.Crisis, message, context, data,
                                                  LogOptions(None, Some(urgency), None)))
      ensures logs[|logs| - 1].level == LogLevel.Crisis && logs[|logs| - 1].urgency == Some(urgency)
    {
      CrisisAlwaysRecorded(logLevel);
      Log(LogLevel.Crisis, message, context, data, LogOptions(None, Some(urgency), None), now);
    }

    /** `getLogs`: a copy of the buffer's sequence of entries; the buffer itself is unchanged. */
    method GetLogs() returns (r: seq<LogEntry>)
      requires Valid()
      ensures r == logs
      ensures |r| <= MaxLogs
    {
      r := logs;
    }

    /** `clearLogs`: the buffer empties; the threshold stays. */
    method ClearLogs()
      modifies this`logs
      ensures Valid()
      ensures logs == []
      ensures logLevel == old(logLevel)
    {
      logs := [];
    }

    /** `setLogLevel`: only the threshold changes. */
    method SetLogLevel(level: LogLevel)
      requires Valid()
      modifies this`logLevel
      ensures Valid()
      ensures logLevel == level
      ensures logs == old(logs)
    {
      logLevel := level;
    }
  }
}
