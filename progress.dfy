/**
 * How bot_manager.py shows a delivery's log: the live progress message of
 * `callback_send_handler` (`log_to_chat`), the final report, and the short
 * summary of `run_scheduled_task`.
 */
module Progress {
  import opened Basics
  import opened Strings

  /** Lines shown by a progress refresh. */
  const ProgressTail: nat := 10
  /** Lines in the scheduled-post summary. */
  const SummaryTail: nat := 5
  /** Characters per message of a long final report. */
  const ChunkSize: nat := 3000

  /** A line refreshes the progress message when it is every third line, or mentions `=` or `Total`. */
  predicate Refreshes(count: nat, line: string)
  {
    count % 3 == 0 || '=' in line || HasSubstring(line, "Total")
  }

  /** The lines given to `log_to_chat` so far, and what the progress message shows. */
  class ProgressLog {
    var logs: seq<string>

    constructor ()
      ensures logs == []
    {
      logs := [];
    }

    /** `log_to_chat`: record the line; on a refresh the shown text is the newest lines, newline-joined. */
    method Log(line: string) returns (shown: Option<string>)
      modifies this
      ensures logs == old(logs) + [line]
      ensures shown == if Refreshes(|logs|, line) then Some(ProgressText(logs)) else None
    {
      logs := logs + [line];
      if |logs| % 3 == 0 || '=' in line || HasSubstring(line, "Total") {
        shown := Some(Join(Last(logs, ProgressTail), "\n"));
      } else {
        shown := None;
      }
    }
  }

  /** `"\n".join(logs[-10:])` */
  function ProgressText(logs: seq<string>): string
  {
    Join(Last(logs, ProgressTail), "\n")
  }

  /** `"\n".join(logs[-5:])` */
  function ScheduledSummary(logs: seq<string>): string
  {
    Join(Last(logs, SummaryTail), "\n")
  }

  /** Of any three lines logged one after another, at least one refreshes the progress message. */
  lemma RefreshEveryThirdLine(count: nat, a: string, b: string, c: string)
    ensures Refreshes(count + 1, a) || Refreshes(count + 2, b) || Refreshes(count + 3, c)
  {
    if count % 3 == 0 {
      assert (count + 3) % 3 == 0;
    } else if count % 3 == 1 {
      assert (count + 2) % 3 == 0;
    } else {
      assert (count + 1) % 3 == 0;
    }
  }

  /** The closing rule line and the `Total:` line always refresh, whatever their position. */
  lemma ClosingLinesRefresh(count: nat, rest: string)
    ensures Refreshes(count, Repeat('=', 60))
    ensures Refreshes(count, "Total: " + rest)
  {
    assert Repeat('=', 60)[0] == '=';
    HasSubstringPrefix("Total: " + rest, "Total");
  }

  /**
   * The refreshed text is the join of the newest min(10, n) lines, and the
   * newest line is the last thing in it.
   */
  lemma ProgressShowsNewest(logs: seq<string>)
    requires logs != []
    ensures var tail := Last(logs, ProgressTail);
            && |tail| == (if |logs| < 10 then |logs| else 10)
            && tail[|tail| - 1] == logs[|logs| - 1]
            && ProgressText(logs) == Join(tail, "\n")
            && EndsWith(ProgressText(logs), logs[|logs| - 1])
  {
    var tail := Last(logs, ProgressTail);
    assert tail[|tail| - 1] == logs[|logs| - 1] by {
      assert logs == logs[..|logs| - |tail|] + tail;
    }
    JoinEndsWithLast(tail, "\n");
  }

  /** The scheduled-post summary is the join of the newest min(5, n) lines, and ends with the newest line. */
  lemma SummaryShowsNewest(logs: seq<string>)
    requires logs != []
    ensures var tail := Last(logs, SummaryTail);
            && |tail| == (if |logs| < 5 then |logs| else 5)
            && tail[|tail| - 1] == logs[|logs| - 1]
            && ScheduledSummary(logs) == Join(tail, "\n")
            && EndsWith(ScheduledSummary(logs), logs[|logs| - 1])
  {
    var tail := Last(logs, SummaryTail);
    assert tail[|tail| - 1] == logs[|logs| - 1] by {
      assert logs == logs[..|logs| - |tail|] + tail;
    }
    JoinEndsWithLast(tail, "\n");
  }

  /** `s.endswith(p)` */
  predicate EndsWith(s: string, p: string)
  {
    |p| <= |s| && s[|s| - |p|..] == p
  }

  lemma {:induction false} JoinEndsWithLast(xs: seq<string>, sep: string)
    requires xs != []
    ensures EndsWith(Join(xs, sep), xs[|xs| - 1])
  {
    if |xs| > 1 {
      JoinEndsWithLast(xs[1..], sep);
      var j := Join(xs[1..], sep);
      assert Join(xs, sep) == xs[0] + sep + j;
      assert xs[1..][|xs[1..]| - 1] == xs[|xs| - 1];
      var l := xs[|xs| - 1];
      assert (xs[0] + sep + j)[|xs[0] + sep + j| - |l|..] == j[|j| - |l|..];
    }
  }

  // ---------------------------------------------------------------------------
  // The final report

  /** `[s[i:i + size] for i in range(0, len(s), size)]` */
  function Chunks(s: string, size: nat): (r: seq<string>)
    requires size > 0
    ensures Concat(r) == s
    ensures forall i :: 0 <= i < |r| ==> 0 < |r[i]| <= size
    ensures forall i :: 0 <= i < |r| - 1 ==> |r[i]| == size
    decreases |s|
  {
    if |s| == 0 then []
    else if |s| <= size then [s]
    else
      var rest := Chunks(s[size..], size);
      assert s == s[..size] + s[size..];
      ConcatCons(s[..size], rest);
      [s[..size]] + rest
  }

  function Concat(xs: seq<string>): string
  {
    if xs == [] then "" else xs[0] + Concat(xs[1..])
  }

  lemma ConcatCons(x: string, xs: seq<string>)
    ensures Concat([x] + xs) == x + Concat(xs)
  {
    assert ([x] + xs)[1..] == xs;
  }

  /** What the admin gets when a delivery finishes. */
  datatype Report =
    | Inline(text: string)          // the progress message is edited to show the whole log
    | Chunked(parts: seq<string>)   // "Full log:" and then one message per part

  /**
   * The final log is shown in place when it has at most 3000 characters, and
   * otherwise as consecutive pieces of at most 3000 characters that together
   * are exactly the log.
   */
  function FinalReport(logs: seq<string>): (r: Report)
    ensures var full := Join(logs, "\n");
            && (r.Inline? <==> |full| <= ChunkSize)
            && (r.Inline? ==> r.text == full)
            && (r.Chunked? ==> Concat(r.parts) == full && |r.parts| >= 2 &&
                               forall i :: 0 <= i < |r.parts| ==> 0 < |r.parts[i]| <= ChunkSize)
  {
    var full := Join(logs, "\n");
    if |full| > ChunkSize then Chunked(Chunks(full, ChunkSize)) else Inline(full)
  }

  // ---------------------------------------------------------------------------
  // The log function handed to the sender

  /**
   * What `callback_send_handler` has collected once the sender has logged
   * `lines`, each through one call of the log function it was given: when
   * every call runs (`runs`), or when each call only creates a coroutine
   * that is never awaited and so never runs.
   */
  function Collected(lines: seq<string>, runs: bool): seq<string>
  {
    if lines == [] then []
    else Collected(lines[..|lines| - 1], runs) + (if runs then [lines[|lines| - 1]] else [])
  }

  /**
   * As written, `log_to_chat` is a coroutine function and the sender calls
   * it without `await`: nothing is ever collected, so the progress message is
   * never refreshed and the final report is empty, whatever was logged.
   */
  lemma {:induction false} UnawaitedLogIsLost(lines: seq<string>)
    ensures Collected(lines, false) == []
    ensures FinalReport(Collected(lines, false)) == Inline("")
  {
    if lines != [] {
      UnawaitedLogIsLost(lines[..|lines| - 1]);
    }
  }

  /** The delivery's closing totals line is an input the as-written handler loses. */
  lemma UnawaitedLogLosesTotals()
    ensures var lines := ["Total: 1 sent, 0 failed"];
            Collected(lines, false) == [] && FinalReport(Collected(lines, true)) == Inline("Total: 1 sent, 0 failed")
  {
    var lines := ["Total: 1 sent, 0 failed"];
    assert lines[..0] == [];
  }

  /**
   * With every line recorded as `ProgressLog.Log` does, the handler collects
   * exactly the lines logged, in order, and the final report is their
   * newline-joined text.
   */
  lemma RecordedLogKeepsLines(lines: seq<string>)
    ensures Collected(lines, true) == lines
    ensures var r := FinalReport(Collected(lines, true));
            (r.Inline? ==> r.text == Join(lines, "\n")) && (r.Chunked? ==> Concat(r.parts) == Join(lines, "\n"))
  {
    CollectedRecorded(lines);
  }

  lemma {:induction false} CollectedRecorded(lines: seq<string>)
    ensures Collected(lines, true) == lines
  {
    if lines != [] {
      CollectedRecorded(lines[..|lines| - 1]);
      assert lines[..|lines| - 1] + [lines[|lines| - 1]] == lines;
    }
  }
}
