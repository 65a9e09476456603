/**
 * The authentication audit log (auth_log.json): a JSON array of attempts, of which the last 50
 * are kept. Timestamps are integer microseconds on the local clock.
 */
module AuditLog {
  import opened Wrappers

  const MaxEntries: nat := 50
  const MicrosPerDay: int := 86_400_000_000

  datatype Method = TokenValidation | FreshLogin | OtherMethod(name: string)

  datatype AuditEntry = AuditEntry(timestamp: int, success: bool, via: Method, error: Option<string>)

  /** The log file: absent, present but not a readable JSON list, or a list of entries. */
  datatype LogFile = Missing | Unreadable | Entries(logs: seq<AuditEntry>)

  /** `logs[-n:]`: everything when there are at most n entries, else the last n. */
  function Last<T>(s: seq<T>, n: nat): (r: seq<T>)
    ensures |r| == if |s| <= n then |s| else n
    ensures r == s[|s| - |r|..]
  {
    if |s| <= n then s else s[|s| - n..]
  }

  /** `logs.append(entry); logs = logs[-50:]`. */
  function Appended(logs: seq<AuditEntry>, entry: AuditEntry): (r: seq<AuditEntry>)
    ensures |r| == if |logs| < MaxEntries then |logs| + 1 else MaxEntries
    ensures r[|r| - 1] == entry
    ensures r == (logs + [entry])[|logs| + 1 - |r|..]
    ensures |logs| < MaxEntries ==> r == logs + [entry]
  {
    Last(logs + [entry], MaxEntries)
  }

  /** The file after one log_auth_attempt. An unreadable file stays as it is (the exception is
      swallowed); so does everything when the file cannot be written. */
  function Logged(file: LogFile, writable: bool, entry: AuditEntry): (r: LogFile)
    ensures !writable || file.Unreadable? ==> r == file
    ensures writable && file.Missing? ==> r == Entries([entry])
    ensures writable && file.Entries? ==> r == Entries(Appended(file.logs, entry))
  {
    match file
    case Missing =>
      assert [] + [entry] == [entry];
      if writable then Entries(Appended([], entry)) else Missing
    case Unreadable => Unreadable
    case Entries(logs) => if writable then Entries(Appended(logs, entry)) else file
  }

  /** Once written, the new entry is the newest one in the log. */
  lemma LoggedLast(file: LogFile, entry: AuditEntry)
    requires !file.Unreadable?
    ensures Logged(file, true, entry).Entries?
    ensures var logs := Logged(file, true, entry).logs; |logs| > 0 && logs[|logs| - 1] == entry
  {
  }

  lemma LastOfLast<T>(x: seq<T>, y: seq<T>, n: nat)
    ensures Last(Last(x, n) + y, n) == Last(x + y, n)
  {
    var lx := Last(x, n);
    var a := Last(lx + y, n);
    var b := Last(x + y, n);
    assert |a| == |b|;
    forall k | 0 <= k < |a| ensures a[k] == b[k] {
      var i := |lx + y| - |a| + k;
      var j := |x + y| - |b| + k;
      assert a[k] == (lx + y)[i];
      assert b[k] == (x + y)[j];
      if i < |lx| {
        assert (lx + y)[i] == x[|x| - |lx| + i];
      }
    }
  }

  /** Appending entries one at a time. */
  function AppendAll(logs: seq<AuditEntry>, entries: seq<AuditEntry>): seq<AuditEntry>
    decreases |entries|
  {
    if entries == [] then logs else AppendAll(Appended(logs, entries[0]), entries[1..])
  }

  /** However many attempts are logged, the log is the most recent 50 of everything appended,
      in order: the oldest entries are evicted first. */
  lemma {:induction false} AppendAllKeepsNewest(logs: seq<AuditEntry>, entries: seq<AuditEntry>)
    requires |logs| <= MaxEntries
    ensures AppendAll(logs, entries) == Last(logs + entries, MaxEntries)
    decreases |entries|
  {
    if entries == [] {
      assert logs + entries == logs;
    } else {
      var e0, rest := entries[0], entries[1..];
      var next := Appended(logs, e0);
      AppendAllKeepsNewest(next, rest);
      LastOfLast(logs + [e0], rest, MaxEntries);
      assert entries == [e0] + rest;
      SplitAppend(logs, e0, rest);
      calc {
        AppendAll(logs, entries);
        AppendAll(next, rest);
        Last(next + rest, MaxEntries);
        Last(Last(logs + [e0], MaxEntries) + rest, MaxEntries);
        Last(logs + [e0] + rest, MaxEntries);
        Last(logs + entries, MaxEntries);
      }
    }
  }

  lemma SplitAppend<T>(xs: seq<T>, e: T, ys: seq<T>)
    ensures xs + [e] + ys == xs + ([e] + ys)
  {
  }

  /** A successful entry that counts as an authentication for the monitor. */
  predicate CountsAsSuccess(e: AuditEntry) {
    e.success && (e.via == FreshLogin || e.via == TokenValidation)
  }

  /** timedelta.days of now - then: floor division (Dafny's `/` is floor for a positive divisor). */
  function AgeDays(past: int, now: int): int
  {
    (now - past) / MicrosPerDay
  }
}
