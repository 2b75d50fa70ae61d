/** Batch dispatch (`imprimir_linux`, `imprimir_windows`, `imprimir_arquivos`) on
    values: the operating-system calls one print job makes, the event trace a
    whole batch leaves, and what that trace means (which document reached which
    printer, how long the batch paused, what the progress bar showed). */
module Dispatch {
  import opened Platform
  import opened Files

  /** The operating-system facilities a print job calls. */
  datatype OsCall =
    | SetDefaultPrinter(printer: string)  // win32print.SetDefaultPrinter
    | ShellPrint(file: string)             // win32api.ShellExecute(0, "print", file, None, ".", 0)
    | Run(argv: seq<string>)               // subprocess.run(argv, check=True)

  /** One entry of the trace a batch leaves: an attempted call and whether the
      system accepted it, a `time.sleep`, or an assignment to the progress bar. */
  datatype Event = Call(call: OsCall, ok: bool) | Pause(seconds: nat) | Progress(value: nat)

  /** The exception that ends a batch early. */
  datatype Cause =
    | LpFailed(file: string, printer: string)  // the RuntimeError of imprimir_linux
    | WindowsFailed(call: OsCall)              // an error raised by win32print or win32api
    | ListingFailed(folder: string)            // an error raised by os.listdir

  /** The message box `imprimir_arquivos` ends with. */
  datatype Outcome =
    | NoFolderWarning   // "Selecione uma pasta com arquivos."
    | NoPrinterWarning  // "Selecione uma impressora antes de imprimir."
    | NoPdfInfo         // "Nenhum arquivo PDF encontrado na pasta."
    | AllSent           // "Todos os arquivos foram enviados para a impressão!"
    | Failed(cause: Cause)  // "Ocorreu um erro: ..."

  /** Whether the system accepts a call made while printing the file at the
      given position of the batch. */
  type Oracle = (nat, OsCall) -> bool

  /** The pause after every job, in seconds. */
  const PauseSeconds: nat := 20

  /** The argument vector of the Linux submission. */
  function LpArgv(printer: string, file: string): seq<string> {
    ["lp", "-d", printer, file]
  }

  predicate IsLpArgv(argv: seq<string>) {
    |argv| == 4 && argv[0] == "lp" && argv[1] == "-d"
  }

  /** The calls made for one job, in order, when each of them is accepted. */
  function JobCalls(os: Os, printer: string, file: string): seq<OsCall> {
    match os
    case Windows => [SetDefaultPrinter(printer), ShellPrint(file)]
    case Linux => [Run(LpArgv(printer, file))]
    case OtherOs => []
  }

  function AcceptedCalls(calls: seq<OsCall>): (r: seq<Event>)
    ensures |r| == |calls| && forall i :: 0 <= i < |calls| ==> r[i] == Call(calls[i], true)
  {
    seq(|calls|, i requires 0 <= i < |calls| => Call(calls[i], true))
  }

  /** The trace of one job and, if it raised, why. */
  datatype Attempt = Attempt(events: seq<Event>, failure: Option<Cause>)

  /** `imprimir_linux`: one `lp -d printer file`; a non-zero exit (or any
      error running it) becomes an error naming the file and the printer. */
  function SubmitLinux(idx: nat, file: string, printer: string, accepts: Oracle): (a: Attempt)
    ensures a.events == [Call(Run(["lp", "-d", printer, file]), a.failure.None?)]
    ensures a.failure.None? <==> accepts(idx, Run(LpArgv(printer, file)))
    ensures a.failure.Some? ==> a.failure.value == LpFailed(file, printer)
  {
    var c := Run(LpArgv(printer, file));
    if accepts(idx, c) then Attempt([Call(c, true)], None)
    else Attempt([Call(c, false)], Some(LpFailed(file, printer)))
  }

  /** `imprimir_windows`: make the printer the system default, then ask the shell
      to print the file; an error from the first call means the second is never
      made. */
  function SubmitWindows(idx: nat, file: string, printer: string, accepts: Oracle): (a: Attempt)
    ensures var setDefault, shellPrint := SetDefaultPrinter(printer), ShellPrint(file);
      if accepts(idx, setDefault) then
        a.events == [Call(setDefault, true), Call(shellPrint, accepts(idx, shellPrint))] &&
        (a.failure.None? <==> accepts(idx, shellPrint))
      else
        a.events == [Call(setDefault, false)] && a.failure.Some?
    ensures a.failure.Some? ==>
      a.failure.value == WindowsFailed(if accepts(idx, SetDefaultPrinter(printer)) then ShellPrint(file)
                                       else SetDefaultPrinter(printer))
  {
    var setDefault := SetDefaultPrinter(printer);
    if !accepts(idx, setDefault) then
      Attempt([Call(setDefault, false)], Some(WindowsFailed(setDefault)))
    else
      var shellPrint := ShellPrint(file);
      if !accepts(idx, shellPrint) then
        Attempt([Call(setDefault, true), Call(shellPrint, false)], Some(WindowsFailed(shellPrint)))
      else
        Attempt([Call(setDefault, true), Call(shellPrint, true)], None)
  }

  /** The body of the loop in `imprimir_arquivos` up to the pause: the
      submission for the host system, or nothing on any other system. */
  function Submit(os: Os, idx: nat, file: string, printer: string, accepts: Oracle): Attempt {
    match os
    case Windows => SubmitWindows(idx, file, printer, accepts)
    case Linux => SubmitLinux(idx, file, printer, accepts)
    case OtherOs => Attempt([], None)
  }

  /** Whatever the system, a job makes its calls in order and stops at the first
      one the system rejects; it raises exactly when some call is rejected. */
  lemma SubmitStopsAtRejection(os: Os, idx: nat, file: string, printer: string, accepts: Oracle)
    ensures var a, calls := Submit(os, idx, file, printer, accepts), JobCalls(os, printer, file);
      a.failure.None? <==> forall i :: 0 <= i < |calls| ==> accepts(idx, calls[i])
    ensures var a := Submit(os, idx, file, printer, accepts);
      a.failure.None? ==> a.events == AcceptedCalls(JobCalls(os, printer, file))
    ensures var a, calls := Submit(os, idx, file, printer, accepts), JobCalls(os, printer, file);
      var n := |a.events|;
      a.failure.Some? ==>
        1 <= n <= |calls| &&
        (forall i :: 0 <= i < n - 1 ==> a.events[i] == Call(calls[i], true) && accepts(idx, calls[i])) &&
        a.events[n - 1] == Call(calls[n - 1], false) && !accepts(idx, calls[n - 1])
  {
    var calls := JobCalls(os, printer, file);
    match os
    case Windows =>
      assert calls == [SetDefaultPrinter(printer), ShellPrint(file)];
      assert (forall i :: 0 <= i < |calls| ==> accepts(idx, calls[i])) <==>
             accepts(idx, calls[0]) && accepts(idx, calls[1]);
    case Linux =>
      assert calls == [Run(LpArgv(printer, file))];
      assert (forall i :: 0 <= i < |calls| ==> accepts(idx, calls[i])) <==> accepts(idx, calls[0]);
    case OtherOs =>
  }

  /** The trace of the `idx`-th job that went through: its calls, the pause,
      and the progress bar set to `idx + 1`. */
  function Step(os: Os, printer: string, file: string, idx: nat): seq<Event> {
    AcceptedCalls(JobCalls(os, printer, file)) + [Pause(PauseSeconds), Progress(idx + 1)]
  }

  /** The trace of a batch of files that all went through. */
  function Completed(os: Os, printer: string, files: seq<string>): seq<Event> {
    if files == [] then []
    else
      var n := |files| - 1;
      Completed(os, printer, files[..n]) + Step(os, printer, files[n], n)
  }

  /** A batch grows one job at a time: the trace of the first `idx + 1` files is
      that of the first `idx` followed by the step of file `idx`. */
  lemma CompletedSnoc(os: Os, printer: string, files: seq<string>, idx: nat)
    requires idx < |files|
    ensures Completed(os, printer, files[..idx + 1]) ==
            Completed(os, printer, files[..idx]) + Step(os, printer, files[idx], idx)
  {
    assert files[..idx + 1][..idx] == files[..idx];
  }

  /** A job that went through extends the trace of the batch so far by exactly
      its step. */
  lemma AcceptedStep(os: Os, printer: string, files: seq<string>, accepts: Oracle, idx: nat, before: seq<Event>)
    requires idx < |files| && Submit(os, idx, files[idx], printer, accepts).failure.None?
    ensures before + Completed(os, printer, files[..idx]) + Submit(os, idx, files[idx], printer, accepts).events
        + [Pause(PauseSeconds), Progress(idx + 1)] == before + Completed(os, printer, files[..idx + 1])
  {
    SubmitStopsAtRejection(os, idx, files[idx], printer, accepts);
    CompletedSnoc(os, printer, files, idx);
  }

  predicate Fails(os: Os, printer: string, files: seq<string>, accepts: Oracle, j: nat)
    requires j < |files|
  {
    Submit(os, j, files[j], printer, accepts).failure.Some?
  }

  /** The position of the first file at or after `from` whose job raises, or
      `|files|` if none does. */
  function FailAt(os: Os, printer: string, files: seq<string>, accepts: Oracle, from: nat): (k: nat)
    requires from <= |files|
    ensures from <= k <= |files|
    ensures forall j :: from <= j < k ==> !Fails(os, printer, files, accepts, j)
    ensures k < |files| ==> Fails(os, printer, files, accepts, k)
    decreases |files| - from
  {
    if from == |files| || Fails(os, printer, files, accepts, from) then from
    else FailAt(os, printer, files, accepts, from + 1)
  }

  /** The first failure is unique: the position before which nothing fails and
      at which something fails (or the end) is the one `FailAt` finds. */
  lemma {:induction false} FailAtIs(os: Os, printer: string, files: seq<string>, accepts: Oracle, from: nat, k: nat)
    requires from <= k <= |files|
    requires forall j :: from <= j < k ==> !Fails(os, printer, files, accepts, j)
    requires k < |files| ==> Fails(os, printer, files, accepts, k)
    ensures FailAt(os, printer, files, accepts, from) == k
    decreases k - from
  {
    if from < k {
      FailAtIs(os, printer, files, accepts, from + 1, k);
    }
  }

  /** The state a call of `imprimir_arquivos` leaves: the message box, the
      trace, and the new maximum and value of the progress bar (`None`: left as
      it was). */
  datatype Dispatched = Dispatched(outcome: Outcome, events: seq<Event>, maximum: Option<nat>, value: Option<nat>)

  /** The loop of `imprimir_arquivos` over a non-empty batch: the maximum is set
      to the batch size, then every job, pause and progress update up to the
      first job that raises. */
  function RunBatch(os: Os, printer: string, files: seq<string>, accepts: Oracle): (r: Dispatched)
    requires files != []
    ensures r.maximum == Some(|files|)
    ensures r.outcome == AllSent || r.outcome.Failed?
    ensures r.value.Some? ==> 1 <= r.value.value <= |files|
  {
    var k := FailAt(os, printer, files, accepts, 0);
    if k == |files| then
      Dispatched(AllSent, Completed(os, printer, files), Some(|files|), Some(|files|))
    else
      var a := Submit(os, k, files[k], printer, accepts);
      Dispatched(Failed(a.failure.value), Completed(os, printer, files[..k]) + a.events,
                 Some(|files|), if k == 0 then None else Some(k))
  }

  /** The batch result when job `k` is the first to raise. */
  lemma RunBatchStopsAt(os: Os, printer: string, files: seq<string>, accepts: Oracle, k: nat)
    requires k < |files| && Fails(os, printer, files, accepts, k)
    requires forall j :: 0 <= j < k ==> !Fails(os, printer, files, accepts, j)
    ensures var a := Submit(os, k, files[k], printer, accepts);
      RunBatch(os, printer, files, accepts) ==
      Dispatched(Failed(a.failure.value), Completed(os, printer, files[..k]) + a.events,
                 Some(|files|), if k == 0 then None else Some(k))
  {
    FailAtIs(os, printer, files, accepts, 0, k);
  }

  /** The batch result when no job raises. */
  lemma RunBatchCompletes(os: Os, printer: string, files: seq<string>, accepts: Oracle)
    requires files != []
    requires forall j :: 0 <= j < |files| ==> !Fails(os, printer, files, accepts, j)
    ensures RunBatch(os, printer, files, accepts) ==
            Dispatched(AllSent, Completed(os, printer, files), Some(|files|), Some(|files|))
  {
    FailAtIs(os, printer, files, accepts, 0, |files|);
  }

  /** `imprimir_arquivos` as a whole, given the session's folder and confirmed
      printer, `os.listdir` as `listdir` (`None`: it raised) and `os.path.join`
      as `join`. */
  function Expected(folder: string, selected: Option<string>, os: Os,
                    listdir: string -> Option<seq<string>>, join: (string, string) -> string,
                    accepts: Oracle): (r: Dispatched)
    ensures r.events != [] || r.maximum.Some? || r.value.Some? ==>
      folder != "" && selected.Some? && selected.value != "" && listdir(folder).Some? &&
      ListFiles(folder, listdir(folder).value, join) != []
  {
    if folder == "" then Dispatched(NoFolderWarning, [], None, None)
    else if selected.None? || selected.value == "" then Dispatched(NoPrinterWarning, [], None, None)
    else
      match listdir(folder)
      case None => Dispatched(Failed(ListingFailed(folder)), [], None, None)
      case Some(listing) =>
        var files := ListFiles(folder, listing, join);
        if files == [] then Dispatched(NoPdfInfo, [], None, None)
        else RunBatch(os, selected.value, files, accepts)
  }

  // ---------------------------------------------------------------------------
  // What a trace means

  /** A document handed to a printer. */
  datatype Job = Job(printer: string, file: string)

  /** The documents a trace hands to printers, in order, starting from the given
      system default printer: `lp -d p f` prints `f` on `p`; the shell print
      verb prints on whatever the default printer is at that moment. Rejected
      calls print nothing and change nothing. */
  function PrintJobs(events: seq<Event>, default: string): seq<Job>
    decreases |events|
  {
    if events == [] then []
    else
      var rest := events[1..];
      match events[0]
      case Call(SetDefaultPrinter(p), true) => PrintJobs(rest, p)
      case Call(ShellPrint(f), true) => [Job(default, f)] + PrintJobs(rest, default)
      case Call(Run(argv), true) =>
        if IsLpArgv(argv) then [Job(argv[2], argv[3])] + PrintJobs(rest, default)
        else PrintJobs(rest, default)
      case _ => PrintJobs(rest, default)
  }

  /** The system default printer after a trace. */
  function DefaultAfter(events: seq<Event>, default: string): string
    decreases |events|
  {
    if events == [] then default
    else
      match events[0]
      case Call(SetDefaultPrinter(p), true) => DefaultAfter(events[1..], p)
      case _ => DefaultAfter(events[1..], default)
  }

  /** The lengths of the pauses in a trace, in order. */
  function Pauses(events: seq<Event>): seq<nat> {
    if events == [] then [] else PauseOf(events[0]) + Pauses(events[1..])
  }

  function PauseOf(e: Event): seq<nat> {
    if e.Pause? then [e.seconds] else []
  }

  /** The successive values the progress bar is set to. */
  function ProgressValues(events: seq<Event>): seq<nat> {
    if events == [] then [] else ProgressOf(events[0]) + ProgressValues(events[1..])
  }

  function ProgressOf(e: Event): seq<nat> {
    if e.Progress? then [e.value] else []
  }

  /** The number of operating-system calls attempted in a trace. */
  function CallCount(events: seq<Event>): nat {
    if events == [] then 0
    else (if events[0].Call? then 1 else 0) + CallCount(events[1..])
  }

  function JobsFor(printer: string, files: seq<string>): (r: seq<Job>)
    ensures |r| == |files| && forall i :: 0 <= i < |files| ==> r[i] == Job(printer, files[i])
  {
    seq(|files|, i requires 0 <= i < |files| => Job(printer, files[i]))
  }

  function Repeat(n: nat, x: nat): (r: seq<nat>)
    ensures |r| == n && forall i :: 0 <= i < n ==> r[i] == x
  {
    seq(n, i => x)
  }

  function UpTo(n: nat): (r: seq<nat>)
    ensures |r| == n && forall i :: 0 <= i < n ==> r[i] == i + 1
  {
    seq(n, i => i + 1)
  }

  lemma {:induction false} PrintJobsAppend(a: seq<Event>, b: seq<Event>, default: string)
    ensures PrintJobs(a + b, default) == PrintJobs(a, default) + PrintJobs(b, DefaultAfter(a, default))
    ensures DefaultAfter(a + b, default) == DefaultAfter(b, DefaultAfter(a, default))
    decreases |a|
  {
    if a == [] {
      assert a + b == b;
    } else {
      assert (a + b)[0] == a[0] && (a + b)[1..] == a[1..] + b;
      match a[0]
      case Call(SetDefaultPrinter(p), true) =>
        PrintJobsAppend(a[1..], b, p);
      case _ =>
        PrintJobsAppend(a[1..], b, default);
    }
  }

  lemma {:induction false} PausesAppend(a: seq<Event>, b: seq<Event>)
    ensures Pauses(a + b) == Pauses(a) + Pauses(b)
  {
    if a == [] {
      assert a + b == b;
    } else {
      calc {
        Pauses(a + b);
      == { assert (a + b)[0] == a[0] && (a + b)[1..] == a[1..] + b; }
        PauseOf(a[0]) + Pauses(a[1..] + b);
      == { PausesAppend(a[1..], b); }
        PauseOf(a[0]) + (Pauses(a[1..]) + Pauses(b));
      ==
        (PauseOf(a[0]) + Pauses(a[1..])) + Pauses(b);
      }
    }
  }


  lemma {:induction false} ProgressAppend(a: seq<Event>, b: seq<Event>)
    ensures ProgressValues(a + b) == ProgressValues(a) + ProgressValues(b)
  {
    if a == [] {
      assert a + b == b;
    } else {
      calc {
        ProgressValues(a + b);
      == { assert (a + b)[0] == a[0] && (a + b)[1..] == a[1..] + b; }
        ProgressOf(a[0]) + ProgressValues(a[1..] + b);
      == { ProgressAppend(a[1..], b); }
        ProgressOf(a[0]) + (ProgressValues(a[1..]) + ProgressValues(b));
      ==
        (ProgressOf(a[0]) + ProgressValues(a[1..])) + ProgressValues(b);
      }
    }
  }


  lemma {:induction false} CallCountAppend(a: seq<Event>, b: seq<Event>)
    ensures CallCount(a + b) == CallCount(a) + CallCount(b)
  {
    if a == [] {
      assert a + b == b;
    } else {
      CallCountAppend(a[1..], b);
      assert (a + b)[0] == a[0] && (a + b)[1..] == a[1..] + b;
    }
  }

  lemma CountersAppend(a: seq<Event>, b: seq<Event>)
    ensures Pauses(a + b) == Pauses(a) + Pauses(b)
    ensures ProgressValues(a + b) == ProgressValues(a) + ProgressValues(b)
    ensures CallCount(a + b) == CallCount(a) + CallCount(b)
  {
    PausesAppend(a, b);
    ProgressAppend(a, b);
    CallCountAppend(a, b);
  }

  /** The calls of one accepted job print its file on the chosen printer, and on
      Windows leave that printer as the default. */
  lemma StepJobs(os: Os, printer: string, file: string, idx: nat, default: string)
    ensures var s := Step(os, printer, file, idx);
      PrintJobs(s, default) == (if os == OtherOs then [] else [Job(printer, file)]) &&
      DefaultAfter(s, default) == (if os == Windows then printer else default)
  {
    var calls := AcceptedCalls(JobCalls(os, printer, file));
    CallsMeaning(os, printer, file, default);
    TailMeaning(idx, DefaultAfter(calls, default));
    PrintJobsAppend(calls, [Pause(PauseSeconds), Progress(idx + 1)], default);
  }

  /** One accepted job pauses 20 seconds once, sets the progress bar to
      `idx + 1`, and makes all the calls of a job. */
  lemma StepCounters(os: Os, printer: string, file: string, idx: nat)
    ensures var s := Step(os, printer, file, idx);
      Pauses(s) == [PauseSeconds] && ProgressValues(s) == [idx + 1] &&
      CallCount(s) == |JobCalls(os, printer, file)|
  {
    var calls := AcceptedCalls(JobCalls(os, printer, file));
    CallsMeaning(os, printer, file, printer);
    TailMeaning(idx, printer);
    CountersAppend(calls, [Pause(PauseSeconds), Progress(idx + 1)]);
  }

  /** The pause and the progress update after a job print nothing, keep the
      default printer, and count one pause and one progress value. */
  lemma TailMeaning(idx: nat, default: string)
    ensures var t := [Pause(PauseSeconds), Progress(idx + 1)];
      PrintJobs(t, default) == [] && DefaultAfter(t, default) == default &&
      Pauses(t) == [PauseSeconds] && ProgressValues(t) == [idx + 1] && CallCount(t) == 0
  {
    NonCallMeaning(Pause(PauseSeconds), [Progress(idx + 1)], default);
    NonCallMeaning(Progress(idx + 1), [], default);
    assert [Pause(PauseSeconds)] + [Progress(idx + 1)] == [Pause(PauseSeconds), Progress(idx + 1)];
    assert [Progress(idx + 1)] + [] == [Progress(idx + 1)];
  }

  /** The accepted calls of one job print its file on the chosen printer
      (nothing on a system that is neither Windows nor Linux), leave that
      printer as the default on Windows, and neither pause nor move the
      progress bar. */
  lemma CallsMeaning(os: Os, printer: string, file: string, default: string)
    ensures var c := AcceptedCalls(JobCalls(os, printer, file));
      PrintJobs(c, default) == (if os == OtherOs then [] else [Job(printer, file)]) &&
      DefaultAfter(c, default) == (if os == Windows then printer else default) &&
      Pauses(c) == [] && ProgressValues(c) == [] && CallCount(c) == |JobCalls(os, printer, file)|
  {
    var c := AcceptedCalls(JobCalls(os, printer, file));
    match os
    case Windows =>
      var shellPrint := [Call(ShellPrint(file), true)];
      CallMeaning(SetDefaultPrinter(printer), shellPrint, default);
      CallMeaning(ShellPrint(file), [], printer);
      assert c == [Call(SetDefaultPrinter(printer), true)] + shellPrint;
      assert shellPrint == [Call(ShellPrint(file), true)] + [];
    case Linux =>
      CallMeaning(Run(LpArgv(printer, file)), [], default);
      assert c == [Call(Run(LpArgv(printer, file)), true)] + [];
    case OtherOs =>
      assert c == [];
  }

  /** One event that is not an accepted call prints nothing and keeps the
      default printer. */
  lemma NonCallMeaning(e: Event, rest: seq<Event>, default: string)
    requires !e.Call? || !e.ok
    ensures PrintJobs([e] + rest, default) == PrintJobs(rest, default)
    ensures DefaultAfter([e] + rest, default) == DefaultAfter(rest, default)
    ensures Pauses([e] + rest) == (if e.Pause? then [e.seconds] else []) + Pauses(rest)
    ensures ProgressValues([e] + rest) == (if e.Progress? then [e.value] else []) + ProgressValues(rest)
    ensures CallCount([e] + rest) == (if e.Call? then 1 else 0) + CallCount(rest)
  {
    assert ([e] + rest)[0] == e && ([e] + rest)[1..] == rest;
  }

  /** One accepted call: `SetDefaultPrinter` changes the default, `ShellPrint`
      prints on it, `lp -d p f` prints `f` on `p`. */
  lemma CallMeaning(c: OsCall, rest: seq<Event>, default: string)
    ensures c.SetDefaultPrinter? ==> PrintJobs([Call(c, true)] + rest, default) == PrintJobs(rest, c.printer)
    ensures c.ShellPrint? ==> PrintJobs([Call(c, true)] + rest, default) == [Job(default, c.file)] + PrintJobs(rest, default)
    ensures c.Run? ==> PrintJobs([Call(c, true)] + rest, default) ==
                       (if IsLpArgv(c.argv) then [Job(c.argv[2], c.argv[3])] else []) + PrintJobs(rest, default)
    ensures DefaultAfter([Call(c, true)] + rest, default) ==
      DefaultAfter(rest, if c.SetDefaultPrinter? then c.printer else default)
    ensures Pauses([Call(c, true)] + rest) == Pauses(rest)
    ensures ProgressValues([Call(c, true)] + rest) == ProgressValues(rest)
    ensures CallCount([Call(c, true)] + rest) == 1 + CallCount(rest)
  {
    var t := [Call(c, true)] + rest;
    assert t[0] == Call(c, true) && t[1..] == rest;
  }

  /** A batch that went through prints every file, in order, on the chosen
      printer (nothing at all on a system that is neither Windows nor Linux),
      and on Windows leaves that printer as the default. */
  lemma {:induction false} CompletedJobs(os: Os, printer: string, files: seq<string>, default: string)
    ensures var t := Completed(os, printer, files);
      PrintJobs(t, default) == (if os == OtherOs then [] else JobsFor(printer, files)) &&
      DefaultAfter(t, default) == (if os == Windows && files != [] then printer else default)
  {
    if files != [] {
      var n := |files| - 1;
      var prefix := Completed(os, printer, files[..n]);
      var step := Step(os, printer, files[n], n);
      CompletedJobs(os, printer, files[..n], default);
      StepJobs(os, printer, files[n], n, DefaultAfter(prefix, default));
      PrintJobsAppend(prefix, step, default);
      if os != OtherOs {
        assert JobsFor(printer, files[..n]) + [Job(printer, files[n])] == JobsFor(printer, files);
      }
    }
  }

  /** A batch that went through pauses 20 seconds after each file, the last
      included, sets the progress bar to 1, 2, ..., N, and makes the same number
      of calls for every file (none on a system that is neither Windows nor
      Linux). */
  lemma CompletedCounters(os: Os, printer: string, files: seq<string>)
    ensures var t := Completed(os, printer, files);
      Pauses(t) == Repeat(|files|, PauseSeconds) && ProgressValues(t) == UpTo(|files|) &&
      CallCount(t) == |files| * |JobCalls(os, printer, "")|
  {
    CompletedPauses(os, printer, files);
    CompletedProgress(os, printer, files);
    CompletedCallCount(os, printer, files);
  }

  lemma {:induction false} CompletedPauses(os: Os, printer: string, files: seq<string>)
    ensures Pauses(Completed(os, printer, files)) == Repeat(|files|, PauseSeconds)
  {
    if files != [] {
      var n := |files| - 1;
      CompletedPauses(os, printer, files[..n]);
      StepCounters(os, printer, files[n], n);
      PausesAppend(Completed(os, printer, files[..n]), Step(os, printer, files[n], n));
      assert Repeat(n, PauseSeconds) + [PauseSeconds] == Repeat(|files|, PauseSeconds);
    }
  }

  lemma {:induction false} CompletedProgress(os: Os, printer: string, files: seq<string>)
    ensures ProgressValues(Completed(os, printer, files)) == UpTo(|files|)
  {
    if files != [] {
      var n := |files| - 1;
      CompletedProgress(os, printer, files[..n]);
      StepCounters(os, printer, files[n], n);
      ProgressAppend(Completed(os, printer, files[..n]), Step(os, printer, files[n], n));
      assert UpTo(n) + [n + 1] == UpTo(|files|);
    }
  }

  lemma {:induction false} CompletedCallCount(os: Os, printer: string, files: seq<string>)
    ensures CallCount(Completed(os, printer, files)) == |files| * |JobCalls(os, printer, "")|
  {
    if files != [] {
      var n := |files| - 1;
      CompletedCallCount(os, printer, files[..n]);
      StepCounters(os, printer, files[n], n);
      CallCountAppend(Completed(os, printer, files[..n]), Step(os, printer, files[n], n));
      assert |JobCalls(os, printer, files[n])| == |JobCalls(os, printer, "")|;
    }
  }

  /** Job `j` of a batch comes right after job `j - 1`: its calls, then the
      pause, then the progress update to `j + 1`, all before any later job. */
  lemma {:induction false} CompletedOrder(os: Os, printer: string, files: seq<string>, j: nat)
    requires j < |files|
    ensures Completed(os, printer, files[..j]) + Step(os, printer, files[j], j) <= Completed(os, printer, files)
    decreases |files|
  {
    var n := |files| - 1;
    assert files[..n + 1] == files;
    if j < n {
      CompletedOrder(os, printer, files[..n], j);
      assert files[..n][..j] == files[..j] && files[..n][j] == files[j];
    } else {
      assert files[..j + 1] == files;
    }
  }

  /** A job that raised printed nothing, paused nothing and did not touch the
      progress bar; its last call is the rejected one. */
  lemma FailedAttemptMeaning(os: Os, idx: nat, file: string, printer: string, accepts: Oracle, default: string)
    requires Submit(os, idx, file, printer, accepts).failure.Some?
    ensures var e := Submit(os, idx, file, printer, accepts).events;
      e != [] && !e[|e| - 1].ok &&
      PrintJobs(e, default) == [] && Pauses(e) == [] && ProgressValues(e) == []
  {
    SubmitStopsAtRejection(os, idx, file, printer, accepts);
    var e := Submit(os, idx, file, printer, accepts).events;
    var last := e[|e| - 1];
    NonCallMeaning(last, [], default);
    if |e| == 2 {
      CallMeaning(SetDefaultPrinter(printer), [last], default);
      assert e == [Call(SetDefaultPrinter(printer), true)] + [last];
      NonCallMeaning(last, [], printer);
    }
    assert [last] + [] == [last];
    assert |e| == 1 ==> e == [last];
  }

  /** A batch in which every job goes through: the success message, N jobs on
      the chosen printer in batch order, a 20-second pause after each, the
      progress bar at N, which is its maximum. */
  lemma BatchSucceeds(os: Os, printer: string, files: seq<string>, accepts: Oracle, default: string)
    requires files != []
    requires forall j :: 0 <= j < |files| ==> !Fails(os, printer, files, accepts, j)
    ensures var r := RunBatch(os, printer, files, accepts);
      r.outcome == AllSent &&
      PrintJobs(r.events, default) == (if os == OtherOs then [] else JobsFor(printer, files)) &&
      Pauses(r.events) == Repeat(|files|, PauseSeconds) &&
      ProgressValues(r.events) == UpTo(|files|) &&
      r.maximum == Some(|files|) && r.value == Some(|files|)
    ensures var r := RunBatch(os, printer, files, accepts);
      r.events == Completed(os, printer, files) &&
      forall j :: 0 <= j < |files| ==>
        Completed(os, printer, files[..j]) + Step(os, printer, files[j], j) <= r.events
  {
    FailAtIs(os, printer, files, accepts, 0, |files|);
    CompletedJobs(os, printer, files, default);
    CompletedCounters(os, printer, files);
    forall j | 0 <= j < |files|
      ensures Completed(os, printer, files[..j]) + Step(os, printer, files[j], j) <= Completed(os, printer, files)
    {
      CompletedOrder(os, printer, files, j);
    }
  }

  /** A batch whose job `k` (counting from 0) is the first to raise: the jobs
      before it went to the chosen printer in order with a pause and a progress
      update each, nothing after it was attempted, the error names the cause,
      and the progress bar shows `k`, or is left as it was when `k` is 0. */
  lemma BatchFailsAt(os: Os, printer: string, files: seq<string>, accepts: Oracle, k: nat, default: string)
    requires k < |files| && Fails(os, printer, files, accepts, k)
    requires forall j :: 0 <= j < k ==> !Fails(os, printer, files, accepts, j)
    ensures var r := RunBatch(os, printer, files, accepts);
      r.outcome == Failed(Submit(os, k, files[k], printer, accepts).failure.value) &&
      (os == Linux ==> r.outcome == Failed(LpFailed(files[k], printer))) &&
      PrintJobs(r.events, default) == (if os == OtherOs then [] else JobsFor(printer, files[..k])) &&
      Pauses(r.events) == Repeat(k, PauseSeconds) &&
      ProgressValues(r.events) == UpTo(k) &&
      r.events != [] && !r.events[|r.events| - 1].ok &&
      r.maximum == Some(|files|) && r.value == (if k == 0 then None else Some(k))
    ensures var r := RunBatch(os, printer, files, accepts);
      r.events == Completed(os, printer, files[..k]) + Submit(os, k, files[k], printer, accepts).events
  {
    FailAtIs(os, printer, files, accepts, 0, k);
    var prefix := Completed(os, printer, files[..k]);
    var e := Submit(os, k, files[k], printer, accepts).events;
    CompletedJobs(os, printer, files[..k], default);
    CompletedCounters(os, printer, files[..k]);
    FailedAttemptMeaning(os, k, files[k], printer, accepts, DefaultAfter(prefix, default));
    PrintJobsAppend(prefix, e, default);
    CountersAppend(prefix, e);
  }

  /** The checks run in the order folder, printer, listing, batch: with no folder
      the result is the folder warning whatever the printer and the listing, and
      with no confirmed printer (or an empty name) the printer warning whatever
      the listing; neither consults `os.listdir` nor makes a call. */
  lemma ValidationFirst(folder: string, selected: Option<string>, os: Os,
                        listdir: string -> Option<seq<string>>, join: (string, string) -> string,
                        accepts: Oracle)
    ensures folder == "" ==>
      Expected(folder, selected, os, listdir, join, accepts) == Dispatched(NoFolderWarning, [], None, None)
    ensures folder != "" && (selected.None? || selected.value == "") ==>
      Expected(folder, selected, os, listdir, join, accepts) == Dispatched(NoPrinterWarning, [], None, None)
    ensures folder != "" && selected.Some? && selected.value != "" && listdir(folder).None? ==>
      Expected(folder, selected, os, listdir, join, accepts) == Dispatched(Failed(ListingFailed(folder)), [], None, None)
  {
  }

  /** A folder with no PDF entry gives the information message, no call, and
      leaves the progress bar (maximum included) as it was. */
  lemma EmptyBatch(folder: string, printer: string, os: Os, listing: seq<string>,
                   listdir: string -> Option<seq<string>>, join: (string, string) -> string,
                   accepts: Oracle)
    requires folder != "" && printer != "" && listdir(folder) == Some(listing)
    requires forall i :: 0 <= i < |listing| ==> !IsPdf(listing[i])
    ensures Expected(folder, Some(printer), os, listdir, join, accepts) == Dispatched(NoPdfInfo, [], None, None)
  {
    ListFilesEmpty(folder, listing, join);
  }

  /** With a folder holding `a.pdf`, `b.pdf` and `notes.txt`, printer
      "Office-LaserJet" on Linux and every `lp` accepted: two jobs, `a.pdf`
      then `b.pdf`, `notes.txt` never touched, two `lp` runs and a pause after
      each. */
  lemma TwoPdfScenario(join: (string, string) -> string, default: string)
    ensures var listdir := (d: string) => Some(["a.pdf", "b.pdf", "notes.txt"]);
      var r := Expected("/provas", Some("Office-LaserJet"), Linux, listdir, join, (i: nat, c: OsCall) => true);
      r.outcome == AllSent &&
      PrintJobs(r.events, default) == [Job("Office-LaserJet", join("/provas", "a.pdf")),
                                       Job("Office-LaserJet", join("/provas", "b.pdf"))] &&
      CallCount(r.events) == 2 && Pauses(r.events) == [20, 20]
  {
    var files := [join("/provas", "a.pdf"), join("/provas", "b.pdf")];
    var accepts := (i: nat, c: OsCall) => true;
    TwoPdfSelection(join);
    var r := RunBatch(Linux, "Office-LaserJet", files, accepts);
    BatchSucceeds(Linux, "Office-LaserJet", files, accepts, default);
    CompletedCounters(Linux, "Office-LaserJet", files);
    assert r.events == Completed(Linux, "Office-LaserJet", files);
    assert JobsFor("Office-LaserJet", files) == [Job("Office-LaserJet", files[0]), Job("Office-LaserJet", files[1])];
    assert Repeat(2, PauseSeconds) == [20, 20];
  }

  lemma TwoPdfSelection(join: (string, string) -> string)
    ensures ListFiles("/provas", ["a.pdf", "b.pdf", "notes.txt"], join) ==
            [join("/provas", "a.pdf"), join("/provas", "b.pdf")]
  {
    ListFilesAppend("/provas", ["a.pdf", "b.pdf"], ["notes.txt"], join);
    assert ["a.pdf", "b.pdf"] + ["notes.txt"] == ["a.pdf", "b.pdf", "notes.txt"];
    assert !IsPdf("notes.txt") by { assert "notes.txt"[5..] != PdfSuffix by { assert "notes.txt"[6] == 't'; } }
    assert IsPdf("a.pdf") && IsPdf("b.pdf");
    assert ["a.pdf", "b.pdf"][1..] == ["b.pdf"];
    assert ["notes.txt"][1..] == [];
  }
}
