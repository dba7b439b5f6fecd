/**
 * The air-quality robot's rolling 24-hour log: one pass of the logger loop
 * loads the stored list (an absent or unparsable file counts as empty),
 * appends the new entry, keeps only the entries younger than 24 hours and
 * rewrites the file; the history endpoint reads the file back untrimmed.
 * Instants are integers counting microseconds, the resolution of the
 * ISO-8601 strings the log stores.
 */
module AirLog {
  import opened Wrappers
  import opened Values
  import opened Shaping
  import AirRobot

  /** MAX_LOG_DURATION, 24 hours, in microseconds. */
  const MAX_LOG_DURATION: int := 24 * 60 * 60 * 1000000

  /**
   * `{"timestamp": ..., "data": ...}`; the timestamp is None when the stored
   * entry has none or it is not an ISO-8601 instant.
   */
  datatype Entry = Entry(timestamp: Option<int>, data: Value)

  /** The log file on disk. */
  datatype LogFile = Absent | Unparsable(reason: string) | Stored(entries: seq<Entry>)

  /** The list the logger starts from: whatever parsed, else the empty list. */
  function Loaded(file: LogFile): (logs: seq<Entry>)
    ensures file.Stored? ==> logs == file.entries
    ensures !file.Stored? ==> logs == []
  {
    if file.Stored? then file.entries else []
  }

  /** The entry's instant is strictly after the cutoff. */
  predicate Recent(e: Entry, cutoff: int)
    ensures Recent(e, cutoff) ==> e.timestamp.Some?
    ensures e.timestamp.Some? ==> (Recent(e, cutoff) <==> cutoff < e.timestamp.value)
  {
    e.timestamp.Some? && e.timestamp.value > cutoff
  }

  /**
   * The filter `[entry for entry in logs if parse(entry["timestamp"]) > cutoff]`:
   * None when some entry's timestamp cannot be parsed (the comprehension
   * raises), otherwise the recent entries, all of them younger than the cutoff.
   */
  function Trim(logs: seq<Entry>, cutoff: int): (kept: Option<seq<Entry>>)
    ensures kept.Some? ==> |kept.value| <= |logs|
    ensures kept.Some? ==> forall i :: 0 <= i < |kept.value| ==> Recent(kept.value[i], cutoff)
  {
    if logs == [] then Some([])
    else if logs[0].timestamp.None? then None
    else
      match Trim(logs[1..], cutoff)
      case None => None
      case Some(rest) => Some(if Recent(logs[0], cutoff) then [logs[0]] + rest else rest)
  }

  /** `a` is `b` with some elements left out and the rest in their order. */
  predicate IsSubsequence<T(==)>(a: seq<T>, b: seq<T>)
    decreases |b|
  {
    a == [] || (b != [] && if a[0] == b[0] then IsSubsequence(a[1..], b[1..]) else IsSubsequence(a, b[1..]))
  }

  /** The trim raises exactly when some entry's timestamp is unreadable. */
  lemma {:induction false} TrimRaises(logs: seq<Entry>, cutoff: int)
    ensures Trim(logs, cutoff).None? <==> exists i :: 0 <= i < |logs| && logs[i].timestamp.None?
  {
    if logs != [] {
      TrimRaises(logs[1..], cutoff);
      if exists i :: 0 <= i < |logs[1..]| && logs[1..][i].timestamp.None? {
        var i :| 0 <= i < |logs[1..]| && logs[1..][i].timestamp.None?;
        assert logs[i + 1] == logs[1..][i];
      }
      if exists i :: 0 <= i < |logs| && logs[i].timestamp.None? {
        var i :| 0 <= i < |logs| && logs[i].timestamp.None?;
        if i > 0 {
          assert logs[1..][i - 1] == logs[i];
        }
      }
    }
  }

  /** The trim keeps the entries it keeps in their original order. */
  lemma {:induction false} TrimIsSubsequence(logs: seq<Entry>, cutoff: int)
    requires Trim(logs, cutoff).Some?
    ensures IsSubsequence(Trim(logs, cutoff).value, logs)
  {
    if logs != [] {
      TrimIsSubsequence(logs[1..], cutoff);
      var rest := Trim(logs[1..], cutoff).value;
      if !Recent(logs[0], cutoff) && rest != [] {
        assert Recent(rest[0], cutoff);
        assert rest[0] != logs[0];
      }
    }
  }

  /**
   * Nothing else is dropped: every recent entry is kept as often as it
   * occurs, and no other entry survives.
   */
  lemma {:induction false} TrimCounts(logs: seq<Entry>, cutoff: int)
    requires Trim(logs, cutoff).Some?
    ensures forall e :: multiset(Trim(logs, cutoff).value)[e] == if Recent(e, cutoff) then multiset(logs)[e] else 0
  {
    if logs != [] {
      TrimCounts(logs[1..], cutoff);
      assert logs == [logs[0]] + logs[1..];
    }
  }

  /** Every entry younger than the cutoff survives the trim. */
  lemma TrimKeepsRecent(logs: seq<Entry>, cutoff: int)
    requires Trim(logs, cutoff).Some?
    ensures forall e :: e in Trim(logs, cutoff).value <==> e in logs && Recent(e, cutoff)
  {
    TrimCounts(logs, cutoff);
    forall e ensures e in Trim(logs, cutoff).value <==> e in logs && Recent(e, cutoff) {
      assert e in Trim(logs, cutoff).value <==> multiset(Trim(logs, cutoff).value)[e] > 0;
      assert e in logs <==> multiset(logs)[e] > 0;
    }
  }

  /** Trimming distributes over concatenation, so it is a filter one entry at a time. */
  lemma {:induction false} TrimConcat(a: seq<Entry>, b: seq<Entry>, cutoff: int)
    requires Trim(a, cutoff).Some? && Trim(b, cutoff).Some?
    ensures Trim(a + b, cutoff) == Some(Trim(a, cutoff).value + Trim(b, cutoff).value)
  {
    if a != [] {
      assert (a + b)[0] == a[0] && (a + b)[1..] == a[1..] + b;
      TrimConcat(a[1..], b, cutoff);
      var rest, kb := Trim(a[1..], cutoff).value, Trim(b, cutoff).value;
      if Recent(a[0], cutoff) {
        assert [a[0]] + (rest + kb) == ([a[0]] + rest) + kb;
      }
    } else {
      assert a + b == b;
      assert Trim(a, cutoff).value + Trim(b, cutoff).value == Trim(b, cutoff).value;
    }
  }

  /** A list whose entries are all recent is left as it is. */
  lemma {:induction false} TrimAllRecent(logs: seq<Entry>, cutoff: int)
    requires forall i :: 0 <= i < |logs| ==> Recent(logs[i], cutoff)
    ensures Trim(logs, cutoff) == Some(logs)
  {
    if logs != [] {
      TrimAllRecent(logs[1..], cutoff);
      assert [logs[0]] + logs[1..] == logs;
    }
  }

  /**
   * Trimming again, with the same cutoff or an earlier one, changes nothing:
   * a second pass with no time elapsed keeps the same list.
   */
  lemma TrimIdempotent(logs: seq<Entry>, cutoff: int, earlier: int)
    requires Trim(logs, cutoff).Some?
    requires earlier <= cutoff
    ensures Trim(Trim(logs, cutoff).value, earlier) == Trim(logs, cutoff)
  {
    TrimAllRecent(Trim(logs, cutoff).value, earlier);
  }

  /** Appending a recent entry and trimming puts it last, after the trimmed old list. */
  lemma TrimAppended(logs: seq<Entry>, entry: Entry, cutoff: int)
    requires Trim(logs, cutoff).Some? && Recent(entry, cutoff)
    ensures Trim(logs + [entry], cutoff) == Some(Trim(logs, cutoff).value + [entry])
  {
    TrimAllRecent([entry], cutoff);
    TrimConcat(logs, [entry], cutoff);
  }

  /**
   * A file holding an entry from 25 hours ago and one from an hour ago,
   * after a pass that logs a new entry now, holds the hour-old entry and
   * the new one.
   */
  lemma TwentyFiveHourExample(now: int, old25: Value, old1: Value, latest: Value)
    ensures
      var hour := 60 * 60 * 1000000;
      var e25 := Entry(Some(now - 25 * hour), old25);
      var e1 := Entry(Some(now - hour), old1);
      var e0 := Entry(Some(now), latest);
      Trim([e25, e1] + [e0], now - MAX_LOG_DURATION) == Some([e1, e0])
  {
    var hour := 60 * 60 * 1000000;
    var e25 := Entry(Some(now - 25 * hour), old25);
    var e1 := Entry(Some(now - hour), old1);
    var e0 := Entry(Some(now), latest);
    assert [e25, e1] + [e0] == [e25, e1, e0];
    assert [e25, e1, e0][1..] == [e1, e0];
    assert [e1, e0][1..] == [e0];
    assert [e0][1..] == [];
    var cutoff := now - MAX_LOG_DURATION;
    TrimAllRecent([e1, e0], cutoff);
    assert Trim([e25, e1, e0], cutoff) == Some([e1, e0]);
  }

  /** The file the logger rewrites and the history endpoint reads. */
  class LogStore {
    var file: LogFile

    constructor (initial: LogFile)
      ensures file == initial
    {
      file := initial;
    }

    /**
     * Load, append `entry`, trim against `now` and rewrite. When the trim
     * raises, the exception escapes before the write and the file is left
     * as it was (`crashed`). Nothing in the logger catches it, so the loop
     * ends; the unreadable entry stays in the file, and every later run of
     * the logger stops at the same point.
     */
    method AppendAndTrim(entry: Entry, now: int) returns (crashed: bool)
      modifies this
      ensures crashed <==> Trim(Loaded(old(file)) + [entry], now - MAX_LOG_DURATION).None?
      ensures crashed ==> file == old(file)
      ensures !crashed ==> file == Stored(Trim(Loaded(old(file)) + [entry], now - MAX_LOG_DURATION).value)
      ensures !crashed ==> forall i :: 0 <= i < |file.entries| ==> Recent(file.entries[i], now - MAX_LOG_DURATION)
      ensures !crashed ==> IsSubsequence(file.entries, Loaded(old(file)) + [entry])
      ensures !crashed && Recent(entry, now - MAX_LOG_DURATION) ==>
        Trim(Loaded(old(file)), now - MAX_LOG_DURATION).Some? &&
        file.entries == Trim(Loaded(old(file)), now - MAX_LOG_DURATION).value + [entry]
    {
      var logs: seq<Entry>;
      match file {
        case Stored(entries) => logs := entries;
        case _ => logs := [];
      }
      logs := logs + [entry];
      var cutoff := now - MAX_LOG_DURATION;
      var kept := Trim(logs, cutoff);
      if kept.None? {
        return true;
      }
      TrimIsSubsequence(logs, cutoff);
      if Recent(entry, cutoff) {
        assert Trim(Loaded(file), cutoff).Some? by {
          TrimRaises(logs, cutoff);
          forall i | 0 <= i < |Loaded(file)| ensures Loaded(file)[i].timestamp.Some? {
            assert logs[i] == Loaded(file)[i];
          }
          TrimRaises(Loaded(file), cutoff);
        }
        TrimAppended(Loaded(file), entry, cutoff);
      }
      file := Stored(kept.value);
      crashed := false;
    }

    /**
     * One pass of the logger loop: fetch, stamp with `stamp`, then append and
     * trim against `now` (the loop reads the clock twice). It raises only
     * when a stored entry's timestamp is unreadable; that exception ends the
     * logger loop, and since the file is not rewritten, the entry stays and
     * stops every later run of the logger at the same point.
     */
    method LogOnce(remote: Outcome, stamp: int, now: int) returns (crashed: bool)
      modifies this
      ensures crashed <==> exists i :: 0 <= i < |Loaded(old(file))| && Loaded(old(file))[i].timestamp.None?
      ensures crashed ==> file == old(file)
      ensures !crashed ==>
        && Trim(Loaded(old(file)) + [Entry(Some(stamp), AirRobot.GetAirReadings(remote))], now - MAX_LOG_DURATION).Some?
        && file == Stored(Trim(Loaded(old(file)) + [Entry(Some(stamp), AirRobot.GetAirReadings(remote))], now - MAX_LOG_DURATION).value)
      ensures !crashed ==> forall i :: 0 <= i < |file.entries| ==> Recent(file.entries[i], now - MAX_LOG_DURATION)
      ensures !crashed && stamp > now - MAX_LOG_DURATION ==>
        Trim(Loaded(old(file)), now - MAX_LOG_DURATION).Some? &&
        file.entries == Trim(Loaded(old(file)), now - MAX_LOG_DURATION).value + [Entry(Some(stamp), AirRobot.GetAirReadings(remote))]
      ensures !crashed && stamp <= now - MAX_LOG_DURATION ==>
        Trim(Loaded(old(file)), now - MAX_LOG_DURATION).Some? &&
        file.entries == Trim(Loaded(old(file)), now - MAX_LOG_DURATION).value
    {
      var data := AirRobot.GetAirReadings(remote);
      var entry := Entry(Some(stamp), data);
      ghost var before := Loaded(file);
      TrimRaises(before + [entry], now - MAX_LOG_DURATION);
      TrimRaises(before, now - MAX_LOG_DURATION);
      assert forall i :: 0 <= i < |before| ==> (before + [entry])[i] == before[i];
      assert (before + [entry])[|before|] == entry;
      assert [entry][1..] == [] && Trim([], now - MAX_LOG_DURATION) == Some([]);
      assert Trim([entry], now - MAX_LOG_DURATION).Some?;
      if Trim(before, now - MAX_LOG_DURATION).Some? {
        TrimConcat(before, [entry], now - MAX_LOG_DURATION);
        if stamp <= now - MAX_LOG_DURATION {
          assert Trim(before, now - MAX_LOG_DURATION).value + [] == Trim(before, now - MAX_LOG_DURATION).value;
        }
      }
      crashed := AppendAndTrim(entry, now);
    }

    /**
     * `get_air_history()`: the empty list when there is no file, otherwise
     * the stored list exactly as written, without trimming; an unparsable
     * file makes it raise.
     */
    method History() returns (r: Result<seq<Entry>>)
      ensures file.Absent? ==> r == Ok([])
      ensures file.Unparsable? ==> r == Err(file.reason)
      ensures file.Stored? ==> r == Ok(file.entries)
    {
      match file {
        case Absent => r := Ok([]);
        case Unparsable(reason) => r := Err(reason);
        case Stored(entries) => r := Ok(entries);
      }
    }
  }
}
