# Batch PDF printing — a Dafny model

`imprimir-n-provas.py` is a small Tk program. It does four things:

- lists the printers installed on Linux or Windows;
- lets the user pick a folder and confirm a printer;
- prints every `.pdf` file of the folder, in listing order, pausing 20 seconds after each job;
- moves a progress bar as it goes.

This project models that program's logic and proves what it does.

The model has six modules:

- `PyText`: the Python string built-ins the program relies on, over `seq<char>`. These are `str.strip()`, `str.split("\n")`, `str.split()` and `str.endswith`, with Python's own whitespace set. `SplitOn` and `JoinWith` are proved to be inverses.
- `Platform`: the three kinds of host system (`platform.system()` giving "Windows", "Linux" or anything else), and `Option`.
- `Files`: `listar_arquivos`, the batch selection.
- `Printers`: `listar_impressoras`, including the parse of `lpstat -a` output and its fallback to an empty list.
- `Dispatch`: `imprimir_linux`, `imprimir_windows` and the loop of `imprimir_arquivos`, as functions on values. A batch leaves a trace of events, of three kinds:
  - each attempted operating-system call, with whether the system accepted it;
  - each 20-second pause;
  - each assignment to the progress bar.

  `Expected` says which trace and which message box a press of "Imprimir Arquivos" produces. Functions over a trace give its meaning:
  - `PrintJobs`: which document reached which printer. On Windows the shell print verb prints on whatever the system default printer is at that moment.
  - `Pauses`, `ProgressValues` and `CallCount`: the pauses, the progress values and the number of calls.
- `App`: the session state as a class. It holds:
  - the globals `caminho` and `impressora_selecionada`;
  - the two labels on the form;
  - the progress bar's value and maximum;
  - the trace.

  `selecionar_pasta`, `confirmar_impressora` and `imprimir_arquivos` are methods that update these fields. `SendBatch` is the `for` loop of `imprimir_arquivos`, proved against `Dispatch.RunBatch`.

The program calls several things the model cannot run, or does not show. These become parameters:

- `os.listdir` becomes a function returning `None` when it raises.
- `os.path.join` becomes an arbitrary function.
- The standard output of `lpstat -a` becomes an `Option<string>`, which is `None` when `subprocess.run` raises.
- The names from `win32print.EnumPrinters(2)` become a given sequence.
- Whether the system accepts each call of each job becomes an oracle over the job's position and the call.
- `platform.system()` becomes an `Os` value.

## Model

| member | source | states |
|---|---|---|
| PyText.IsSpace | imprimir-n-provas.py:47 | (definition) the characters Python's `str.isspace` accepts, which `strip()` and `split()` remove and split on |
| PyText.SkipSpace | imprimir-n-provas.py:47 | the index it returns bounds a run of whitespace and stops at the end or at a non-whitespace character |
| PyText.Strip | imprimir-n-provas.py:47 | `strip()` gives the empty string exactly when the input is all whitespace; otherwise it neither starts nor ends with whitespace |
| PyText.StripIsSlice | imprimir-n-provas.py:47 | `strip()` keeps one contiguous slice and drops only whitespace, on both sides |
| PyText.SplitOn | imprimir-n-provas.py:47 | `split("\n")` gives at least one part, even for `""`; no part holds the separator; joining the parts with the separator gives the input back |
| PyText.SplitJoin | imprimir-n-provas.py:47 | splitting a join of separator-free parts gives back the same parts |
| PyText.WordsFrom | imprimir-n-provas.py:47 | the words from a position on are non-empty and free of whitespace; there are none exactly when the rest is all whitespace |
| PyText.SplitWhitespace | imprimir-n-provas.py:47 | `split()` gives non-empty, whitespace-free words; it gives none exactly when the line is all whitespace |
| PyText.IsFirstToken | imprimir-n-provas.py:47 | (definition) after the leading whitespace of a line, a non-empty run of non-whitespace ending at the line's end or at whitespace |
| PyText.FirstTokenShape | imprimir-n-provas.py:47 | `line.split()[0]` of a line with a word is its first token in the sense of `IsFirstToken` |
| PyText.EndsWith | imprimir-n-provas.py:103 | (definition) `s.endswith(suffix)`: the last characters of `s` are exactly the suffix; its use is stated by `Files.UpperCaseSuffixSkipped` and `Files.ListFilesMembers` |
| Printers.Lines | imprimir-n-provas.py:47 | `stdout.strip().split("\n")` gives at least one line, no line holds a newline, and the lines joined with newlines are the stripped output |
| Printers.FirstWords | imprimir-n-provas.py:47 | the comprehension raises exactly when some line has no word; otherwise it gives one name per line, in order, each that line's first word |
| Printers.ParseLpstat | imprimir-n-provas.py:47 | a parse that succeeds names at least one printer; `Printers.ParsedNames` and `Printers.BlankOutputFails` state what it names and when it raises |
| Printers.ListPrinters | imprimir-n-provas.py:38-50 | on Windows the enumerated names; on any other non-Linux system `[]` with no error; on Linux the error box is shown exactly when running `lpstat` raised or the parse raised, and then the list is `[]`; otherwise the parsed names |
| Printers.BlankOutputFails | imprimir-n-provas.py:45-49 | empty or all-whitespace `lpstat` output makes the parse raise (falling back to `[]`) |
| Printers.ParsedNames | imprimir-n-provas.py:47 | a successful parse gives one name per line of the stripped output, in order; each name is that line's first run of non-whitespace |
| Printers.LinuxEmptyIffError | imprimir-n-provas.py:40-50 | on Linux the printer list is empty exactly when the error box was shown |
| Printers.FirstWordOf | imprimir-n-provas.py:47 | a line made of a non-empty name without whitespace, a space and anything else has that name as its first word |
| Printers.TwoPrinters | imprimir-n-provas.py:47 | `"HP ok\nLJ ok\n"` parses to `["HP", "LJ"]`; the trailing newline adds no line |
| Files.IsPdf | imprimir-n-provas.py:103 | (definition) `f.endswith(".pdf")`, case-sensitive; `Files.UpperCaseSuffixSkipped` shows `.PDF` is refused |
| Files.ListFiles | imprimir-n-provas.py:101-103 | the selection is no longer than the listing |
| Files.ListFilesEmpty | imprimir-n-provas.py:103 | the selection is empty exactly when no entry of the listing ends in `.pdf` |
| Files.PdfPositions | imprimir-n-provas.py:103 | every position it lists is in range and holds an entry ending in `.pdf` |
| Files.PdfPositionsOrdered | imprimir-n-provas.py:103 | those positions strictly increase, so they follow listing order |
| Files.PdfPositionsComplete | imprimir-n-provas.py:103 | every entry ending in `.pdf` has its position listed |
| Files.ListFilesSelects | imprimir-n-provas.py:101-103 | the k-th selected path is the folder joined with the k-th `.pdf` entry of the listing; there is one path per `.pdf` entry |
| Files.ListFilesAppend | imprimir-n-provas.py:103 | selecting from two listings one after the other is the same as selecting from both concatenated, so listing order is kept |
| Files.ListFilesMembers | imprimir-n-provas.py:103 | a path is selected exactly when it is the folder joined with some entry ending in `.pdf` |
| Files.UpperCaseSuffixSkipped | imprimir-n-provas.py:103 | the suffix test is case-sensitive: `b.PDF` and `notes.txt` are not selected, `a.pdf` is |
| Dispatch.AcceptedCalls | imprimir-n-provas.py:55-64 | (definition) each call of a job, in order, marked accepted; `Dispatch.SubmitStopsAtRejection` states that a job that went through leaves exactly this trace |
| Dispatch.SubmitLinux | imprimir-n-provas.py:52-57 | one run of `["lp", "-d", printer, file]`; the job raises exactly when that run fails, and the error names the file and the printer |
| Dispatch.SubmitWindows | imprimir-n-provas.py:59-64 | the default printer is set before the print verb is used; if setting it fails, the print verb is never called; the job raises exactly when one of the two calls fails, and the error carries the call that failed |
| Dispatch.JobCalls | imprimir-n-provas.py:83-86 | (definition) the calls of one job: on Windows `SetDefaultPrinter` then the print verb, on Linux one `lp` run, elsewhere none; `Dispatch.SubmitStopsAtRejection` and `Dispatch.CallsMeaning` state their effect |
| Dispatch.Submit | imprimir-n-provas.py:83-86 | (definition) the `if/elif` on the system; its contract is `Dispatch.SubmitStopsAtRejection` and `Dispatch.FailedAttemptMeaning` |
| Dispatch.SubmitStopsAtRejection | imprimir-n-provas.py:83-86 | on any system a job raises exactly when one of its calls is rejected; it makes its calls in order and stops at the first rejected one; on a system that is neither Windows nor Linux it makes no call |
| Dispatch.Step | imprimir-n-provas.py:82-88 | (definition) one loop iteration that went through: the job's calls, the 20-second pause and the progress update; `Dispatch.StepJobs` and `Dispatch.StepCounters` state what it does |
| Dispatch.Completed | imprimir-n-provas.py:82-88 | (definition) the steps of a batch of files that all went through, in order; `Dispatch.CompletedJobs`, `Dispatch.CompletedCounters` and `Dispatch.CompletedOrder` state what it does |
| Dispatch.CompletedSnoc | imprimir-n-provas.py:82-88 | (proof step: one unfolding of `Completed`) the trace of the first idx+1 jobs is the trace of the first idx jobs followed by job idx's calls, its pause and its progress update |
| Dispatch.AcceptedStep | imprimir-n-provas.py:82-88 | a job that went through extends the batch trace by exactly its own step |
| Dispatch.FailAt | imprimir-n-provas.py:82-93 | the first position at or after a start whose job raises: no job before it raises, and the job at it does |
| Dispatch.FailAtIs | imprimir-n-provas.py:82-93 | the first failing job is unique |
| Dispatch.RunBatch | imprimir-n-provas.py:81-93 | the progress maximum is set to the batch size whatever happens; the batch ends with the success message or an error; a progress value it sets lies between 1 and N; `Dispatch.BatchSucceeds` and `Dispatch.BatchFailsAt` state its results |
| Dispatch.RunBatchStopsAt | imprimir-n-provas.py:82-93 | when job k is the first to raise, the batch ends with its error after the full steps of jobs 0..k-1 and the calls of job k |
| Dispatch.RunBatchCompletes | imprimir-n-provas.py:81-91 | when no job raises, the batch shows the success message after every job's full step, with progress at N |
| Dispatch.PrintJobsAppend | imprimir-n-provas.py:62-64 | the documents a trace prints, and the default printer it leaves, compose over concatenated traces |
| Dispatch.CountersAppend | imprimir-n-provas.py:87-88 | pauses, progress values and call counts add up over concatenated traces |
| Dispatch.NonCallMeaning | imprimir-n-provas.py:87-88 | (proof step: one unfolding of the trace functions) a pause, a progress update or a rejected call prints nothing and leaves the default printer alone |
| Dispatch.CallMeaning | imprimir-n-provas.py:55-64 | (proof step: one unfolding of the trace functions) `SetDefaultPrinter` changes the default printer, the print verb prints on the current default, and `lp -d p f` prints `f` on `p` |
| Dispatch.CallsMeaning | imprimir-n-provas.py:55-64 | the accepted calls of one job print its file on the chosen printer (nothing on other systems), make it the default on Windows, and neither pause nor move the progress bar |
| Dispatch.TailMeaning | imprimir-n-provas.py:87-88 | the pause and progress update after a job print nothing, keep the default printer, and count one 20-second pause and the value idx+1 |
| Dispatch.StepJobs | imprimir-n-provas.py:82-88 | one accepted job prints its file on the chosen printer (nothing on other systems) and on Windows leaves it as the default |
| Dispatch.StepCounters | imprimir-n-provas.py:82-88 | one accepted job pauses 20 seconds once, sets the progress bar to idx+1 and makes all the calls of a job |
| Dispatch.CompletedJobs | imprimir-n-provas.py:82-88 | a batch that went through prints every file on the chosen printer, in batch order, and on Windows leaves that printer as the default |
| Dispatch.CompletedCounters | imprimir-n-provas.py:82-88 | a batch of N that went through pauses 20 seconds N times, the last file included; it sets the progress bar to 1, 2, ..., N and makes the same number of calls per file |
| Dispatch.CompletedPauses | imprimir-n-provas.py:82-88 | a batch of N that went through pauses 20 seconds N times, once per file, the last one included |
| Dispatch.CompletedProgress | imprimir-n-provas.py:82-88 | a batch of N that went through sets the progress bar to 1, 2, ..., N in that order |
| Dispatch.CompletedCallCount | imprimir-n-provas.py:82-88 | a batch of N that went through makes N times the calls of one job |
| Dispatch.CompletedOrder | imprimir-n-provas.py:82-88 | job j's calls, pause and progress update come right after job j-1's, before any later job |
| Dispatch.FailedAttemptMeaning | imprimir-n-provas.py:83-86 | a job that raised printed nothing, did not pause and did not touch the progress bar; its last call is the rejected one |
| Dispatch.BatchSucceeds | imprimir-n-provas.py:81-91 | all N jobs go through: the success message; the trace is exactly the N steps in batch order, each job's calls followed by its 20-second pause and its progress update (every step is a prefix of the trace in place); N documents on the chosen printer in order, N pauses, and progress 1..N ending at the maximum N |
| Dispatch.BatchFailsAt | imprimir-n-provas.py:82-93 | job k (from 0) is the first to raise: the error, with the Linux cause naming the file and printer; the trace is exactly the full steps of jobs 0..k-1 followed by job k's calls up to its rejected one, so nothing after job k is attempted; k documents and k pauses; progress 1..k, or left as it was when k is 0 |
| Dispatch.Expected | imprimir-n-provas.py:66-93 | no call, pause or progress change happens unless the folder is set, a non-empty printer is confirmed, the listing succeeds and holds a `.pdf`; `Dispatch.ValidationFirst` and `Dispatch.EmptyBatch` state the early exits |
| Dispatch.ValidationFirst | imprimir-n-provas.py:67-73 | no folder gives the folder warning whatever the printer; with a folder but no confirmed printer (or an empty name), the printer warning; neither reads the folder nor makes a call; a listing that raises gives the error |
| Dispatch.EmptyBatch | imprimir-n-provas.py:76-79 | a folder with no `.pdf` entry gives the information message, no call, and leaves the progress bar and its maximum as they were |
| Dispatch.TwoPdfScenario | imprimir-n-provas.py:101-103 | a folder with `a.pdf`, `b.pdf` and `notes.txt` on Linux: two `lp` jobs, `a.pdf` then `b.pdf`, on the confirmed printer, with two 20-second pauses |
| Dispatch.TwoPdfSelection | imprimir-n-provas.py:103 | that folder's selection is the two PDFs, in order |
| App.Session.constructor | imprimir-n-provas.py:119-132 | start-up: no folder, no confirmed printer, the first printer only displayed, progress 0 of 100, an empty trace |
| App.Session.SelectFolder | imprimir-n-provas.py:95-99 | the folder is overwritten even when the dialog is cancelled; the label changes only for a non-empty choice |
| App.Session.ConfirmPrinter | imprimir-n-provas.py:135-139 | the printer becomes the selection and is shown in the menu; the message names it |
| App.Session.PrintFiles | imprimir-n-provas.py:66-93 | the message box, the trace appended, and the new progress maximum and value are exactly those of `Dispatch.Expected` for the session's folder and confirmed printer |
| App.Session.SendBatch | imprimir-n-provas.py:81-93 | the loop appends exactly the trace of `Dispatch.RunBatch` and sets the progress value as it says, ending with its message box |
| App.UnconfirmedPrinterIsNotUsed | imprimir-n-provas.py:66-73 | a new session, with the first printer displayed, warns about the folder; once a folder is chosen it warns about the printer, because nothing is confirmed |

## Left out

- The Tk form: widgets, layout, window size, the image canvas and `mainloop`. Message boxes are modelled as `Outcome` values, and the labels as string fields.
- `win32print`, `win32api`, `subprocess.run`, `os.listdir`, `os.path.join` and `platform.system()` are foreign operating-system facilities. They appear as parameters or oracles; only the argument shapes and the call order are kept.
- The asynchronous hand-off of the Windows print verb: the model counts the `ShellExecute` call as the print job.
- The wall-clock meaning of `time.sleep(20)`: a pause is an event carrying its seconds.
- `root.update_idletasks()`: redrawing the form.
- The text of the error messages: the model keeps the cause (file and printer for `lp`, the failing call on Windows, the folder for `os.listdir`), not the formatted exception text.
- Other processes changing the system default printer during a batch: `PrintJobs` assumes the default changes only through the batch's own `SetDefaultPrinter` calls. So `Dispatch.CompletedJobs` saying that on Windows every file goes to the chosen printer holds only when nothing else changes the default between a job's two calls.
- Printers.ListPrinters: on Windows it takes the printer names as given. Indexing what `EnumPrinters(2)` returns by position is not modelled.
- `OptionMenu(root, impressora_var, *impressoras)` with an empty printer list lacks its required value argument and raises `TypeError` at imprimir-n-provas.py:133, so the program stops before the form appears whenever `listar_impressoras` returns `[]`. On Linux that is exactly when the error box was shown (`Printers.LinuxEmptyIffError`). Widget construction is not modelled, so `App.Session.constructor` accepts an empty list (showing the no-printer label), a case with no counterpart in the program.
- The "Aplicar" button confirms whatever the menu currently displays; `App.Session.ConfirmPrinter` takes that name as its argument.
- bkp-imprimir-n-provas.py is not part of this model. It is a separate Windows-only script with no functions.
- Python's `str.isspace` is modelled for the characters of its whitespace set. `strip()` and `split()` use the same set.

Behaviours the model keeps as the program has them:

- The progress value is not reset when a batch starts. If the first job raises, the bar keeps its value from the previous batch.
- An empty printer name counts as "no printer selected", because `not impressora_selecionada` is true for `""`.
- On a system that is neither Windows nor Linux, the loop still pauses 20 seconds per file and advances the progress bar, without submitting anything. In the program this loop is never reached on such a system: `listar_impressoras` returns `[]` there, so `OptionMenu` raises at imprimir-n-provas.py:133 before the form appears.
