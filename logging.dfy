/** The in-memory diagnostic log: a FIFO of at most 500 entries, newest at
    the tail, with read-only queries over its current contents.

    The clock (`System.currentTimeMillis()`) is the `now` parameter of every
    logging method, and the locale-dependent date formatter used by
    `toFormattedString` is the `timeStr` parameter of the formatting queries. */
module Logging {
  import opened Wrappers

  /** `MAX_LOGS`. */
  const MaxLogs: nat := 500

  /** Shown by the formatted query when there is nothing to show. */
  const Placeholder: string := "아직 로그가 없습니다.\n전화를 수신하면 여기에 로그가 표시됩니다."

  /** The message `clear` logs after emptying the queue. */
  const ClearedMessage: string := "로그가 초기화되었습니다."

  datatype LogEntry = LogEntry(timestamp: int, level: string, tag: string, message: string)

  /** Kotlin's `takeLast(n)` for `n >= 0`: the last `n` elements, or all of
      them when there are fewer. */
  function TakeLast<T>(s: seq<T>, n: nat): (r: seq<T>)
    ensures |r| == if n < |s| then n else |s|
    ensures s == s[..|s| - |r|] + r
  {
    if n < |s| then s[|s| - n..] else s
  }

  /** Kotlin's `filter { it.timestamp > t }`. */
  function Since(s: seq<LogEntry>, t: int): (r: seq<LogEntry>)
    ensures |r| <= |s|
    ensures forall e :: e in r <==> e in s && e.timestamp > t
  {
    if s == [] then []
    else (if s[0].timestamp > t then [s[0]] else []) + Since(s[1..], t)
  }

  /** `LogEntry.toFormattedString`, with the date formatter as a parameter. */
  function Format(e: LogEntry, timeStr: int -> string): (r: string)
    ensures |r| > 0 && r[0] == '['
  {
    "[" + e.level + "] " + timeStr(e.timestamp) + " [" + e.tag + "] " + e.message
  }

  function FormatAll(entries: seq<LogEntry>, timeStr: int -> string): (r: seq<string>)
    ensures |r| == |entries|
    ensures forall i :: 0 <= i < |entries| ==> r[i] == Format(entries[i], timeStr)
  {
    if entries == [] then [] else [Format(entries[0], timeStr)] + FormatAll(entries[1..], timeStr)
  }

  /** Kotlin's `joinToString(sep)`. */
  function Join(parts: seq<string>, sep: string): string
  {
    if parts == [] then ""
    else if |parts| == 1 then parts[0]
    else parts[0] + sep + Join(parts[1..], sep)
  }

  /** `LogManager`: the queue of entries, updated in place. */
  class LogManager {
    var logs: seq<LogEntry>

    /** The queue never holds more than `MAX_LOGS` entries. */
    ghost predicate Valid()
      reads this
    {
      |logs| <= MaxLogs
    }

    constructor ()
      ensures Valid() && logs == []
    {
      logs := [];
    }

    /** `log`: appends the entry, then polls the head while over capacity. */
    method Log(level: string, tag: string, message: string, now: int)
      modifies this
      ensures Valid()
      ensures logs == TakeLast(old(logs) + [LogEntry(now, level, tag, message)], MaxLogs)
    {
      logs := logs + [LogEntry(now, level, tag, message)];
      ghost var full := logs;
      while |logs| > MaxLogs
        invariant |logs| <= |full| && logs == full[|full| - |logs|..]
        invariant |logs| >= MaxLogs || |logs| == |full|
        decreases |logs|
      {
        logs := logs[1..];
      }
    }

    /** `d`: logs at level DEBUG. */
    method Debug(tag: string, message: string, now: int)
      modifies this
      ensures Valid()
      ensures logs == TakeLast(old(logs) + [LogEntry(now, "DEBUG", tag, message)], MaxLogs)
    {
      Log("DEBUG", tag, message, now);
    }

    /** `i`: logs at level INFO. */
    method Info(tag: string, message: string, now: int)
      modifies this
      ensures Valid()
      ensures logs == TakeLast(old(logs) + [LogEntry(now, "INFO", tag, message)], MaxLogs)
    {
      Log("INFO", tag, message, now);
    }

    /** `w`: logs at level WARN. */
    method Warn(tag: string, message: string, now: int)
      modifies this
      ensures Valid()
      ensures logs == TakeLast(old(logs) + [LogEntry(now, "WARN", tag, message)], MaxLogs)
    {
      Log("WARN", tag, message, now);
    }

    /** `e`: logs at level ERROR. */
    method Error(tag: string, message: string, now: int)
      modifies this
      ensures Valid()
      ensures logs == TakeLast(old(logs) + [LogEntry(now, "ERROR", tag, message)], MaxLogs)
    {
      Log("ERROR", tag, message, now);
    }

    /** `getRecentLogs(count)`: the newest `count` entries, oldest first;
        `takeLast` throws on a negative count. */
    function GetRecentLogs(count: int): (r: Option<seq<LogEntry>>)
      reads this
      ensures r.Some? <==> count >= 0
      ensures r.Some? ==> |r.value| == (if count < |logs| then count else |logs|)
      ensures r.Some? ==> logs == logs[..|logs| - |r.value|] + r.value
    {
      if count < 0 then None else Some(TakeLast(logs, count))
    }

    /** `getRecentLogsFormatted(count)`: the placeholder when nothing is
        selected, else the selected entries formatted and joined by newlines. */
    function GetRecentLogsFormatted(count: int, timeStr: int -> string): (r: Option<string>)
      reads this
      ensures r.Some? <==> count >= 0
      ensures r.Some? ==> (r.value == Placeholder <==> count == 0 || logs == [])
      ensures r.Some? && r.value != Placeholder ==>
                r.value == Join(FormatAll(GetRecentLogs(count).value, timeStr), "\n")
    {
      match GetRecentLogs(count)
      case None => None
      case Some(recent) =>
        if recent == [] then Some(Placeholder)
        else
          var parts := FormatAll(recent, timeStr);
          JoinStartsWithFirst(parts, "\n");
          // a formatted entry starts with '[', the placeholder does not
          assert Join(parts, "\n")[0] == parts[0][0] == '[';
          assert Placeholder[0] != '[';
          Some(Join(parts, "\n"))
    }

    /** `getLogsSince(t)`: the entries strictly newer than `t`, in queue order. */
    function GetLogsSince(t: int): (r: seq<LogEntry>)
      reads this
      ensures forall e :: e in r <==> e in logs && e.timestamp > t
      ensures forall e :: multiset(r)[e] == if e.timestamp > t then multiset(logs)[e] else 0
    {
      SinceCounts(logs, t);
      Since(logs, t)
    }

    /** `clear`: empties the queue, then logs that it did. */
    method Clear(now: int)
      modifies this
      ensures Valid()
      ensures logs == [LogEntry(now, "INFO", "LogManager", ClearedMessage)]
    {
      logs := [];
      Log("INFO", "LogManager", ClearedMessage, now);
    }

    /** `size`. */
    function Size(): (n: nat)
      reads this
      ensures Valid() ==> n <= MaxLogs
      ensures n == |logs|
    {
      |logs|
    }
  }

  /** A non-empty join starts with its first part. */
  lemma {:induction false} JoinStartsWithFirst(parts: seq<string>, sep: string)
    requires parts != []
    ensures |Join(parts, sep)| >= |parts[0]|
    ensures Join(parts, sep)[..|parts[0]|] == parts[0]
  {
  }

  /** Which entries `log` keeps: the new entry last, and an old entry exactly
      when fewer than `MaxLogs` entries follow it, at its shifted position. */
  lemma {:induction false} LogEvictsOldestFirst(old_: seq<LogEntry>, e: LogEntry)
    ensures var r := TakeLast(old_ + [e], MaxLogs);
      && 0 < |r| <= MaxLogs
      && r[|r| - 1] == e
      && forall i :: 0 <= i < |old_| ==>
           (i >= |old_| + 1 - |r| <==> |old_| - i < MaxLogs)
           && (i >= |old_| + 1 - |r| ==> r[i - (|old_| + 1 - |r|)] == old_[i])
  {
  }

  /** The filter keeps every newer entry as often as it occurs and drops every
      other entry. */
  lemma {:induction false} SinceCounts(s: seq<LogEntry>, t: int)
    ensures forall e :: multiset(Since(s, t))[e] == if e.timestamp > t then multiset(s)[e] else 0
    decreases |s|
  {
    if s != [] {
      assert s == [s[0]] + s[1..];
      SinceCounts(s[1..], t);
    }
  }

  /** Filtering distributes over concatenation, so it keeps queue order. */
  lemma {:induction false} SinceAppend(a: seq<LogEntry>, b: seq<LogEntry>, t: int)
    ensures Since(a + b, t) == Since(a, t) + Since(b, t)
    decreases |a|
  {
    if a == [] {
      assert a + b == b;
    } else {
      assert (a + b)[1..] == a[1..] + b;
      SinceAppend(a[1..], b, t);
    }
  }

  /** An entry just logged with a timestamp after `t` is returned by a
      query since `t`: eviction never removes the tail. */
  lemma LoggedEntryIsSinceEarlier(old_: seq<LogEntry>, e: LogEntry, t: int)
    requires e.timestamp > t
    ensures e in Since(TakeLast(old_ + [e], MaxLogs), t)
  {
    LogEvictsOldestFirst(old_, e);
  }
}
