/** The state the batch printer keeps between button presses: the module
    globals `caminho` and `impressora_selecionada`, the two labels of the form,
    the progress bar, and the trace of what the batches did. */
module App {
  import opened Platform
  import opened Files
  import opened Dispatch

  /** The label texts before any choice is made. */
  const NoFolderText: string := "Nenhuma pasta selecionada"
  const NoPrinterText: string := "Nenhuma impressora selecionada"

  /** A `ttk.Progressbar` starts at value 0 of maximum 100. */
  const InitialMaximum: nat := 100

  class Session {
    /** `caminho`: the folder to print from, `""` before any choice. */
    var folder: string
    /** `pasta_var`: the folder shown on the form. */
    var folderLabel: string
    /** `impressora_selecionada`: the confirmed printer, `None` before any. */
    var selected: Option<string>
    /** `impressora_var`: the printer shown in the menu. */
    var printerLabel: string
    /** `progress_bar["value"]` and `progress_bar["maximum"]`. */
    var progressValue: nat
    var progressMax: nat
    /** Every call, pause and progress update the batches have made. */
    var trace: seq<Event>

    /** Start-up, given what `listar_impressoras` returned: the first printer is
        shown in the menu, but nothing is confirmed. */
    constructor (printers: seq<string>)
      ensures folder == "" && folderLabel == NoFolderText
      ensures selected == None
      ensures printerLabel == if printers != [] then printers[0] else NoPrinterText
      ensures progressValue == 0 && progressMax == InitialMaximum && trace == []
    {
      folder := "";
      folderLabel := NoFolderText;
      selected := None;
      printerLabel := if printers != [] then printers[0] else NoPrinterText;
      progressValue := 0;
      progressMax := InitialMaximum;
      trace := [];
    }

    /** `selecionar_pasta`, given what the folder dialog returned (`""` when it
        was cancelled): the folder is always overwritten, the label only when
        something was chosen. */
    method SelectFolder(chosen: string)
      modifies this`folder, this`folderLabel
      ensures folder == chosen
      ensures folderLabel == if chosen != "" then chosen else old(folderLabel)
    {
      folder := chosen;
      if chosen != "" {
        folderLabel := chosen;
      }
    }

    /** `confirmar_impressora`: the printer becomes the selection and is shown in
        the menu, and a message names it. */
    method ConfirmPrinter(printer: string) returns (notice: string)
      modifies this`selected, this`printerLabel
      ensures selected == Some(printer) && printerLabel == printer
      ensures notice == "Impressora escolhida: " + printer
    {
      selected := Some(printer);
      notice := "Impressora escolhida: " + printer;
      printerLabel := printer;
    }

    /** `imprimir_arquivos`: check the folder, then the printer, then list the
        folder; for a non-empty batch set the progress maximum and, file by
        file, submit, pause and advance the progress bar, stopping at the first
        job that raises. `listdir` stands for `os.listdir`, `join` for
        `os.path.join`, `accepts` for whether the system accepts each call. */
    method PrintFiles(os: Os, listdir: string -> Option<seq<string>>,
                      join: (string, string) -> string, accepts: Oracle)
      returns (outcome: Outcome)
      modifies this`trace, this`progressValue, this`progressMax
      ensures var r := Expected(folder, selected, os, listdir, join, accepts);
        outcome == r.outcome && trace == old(trace) + r.events &&
        progressMax == (if r.maximum.Some? then r.maximum.value else old(progressMax)) &&
        progressValue == (if r.value.Some? then r.value.value else old(progressValue))
    {
      if folder == "" {
        return NoFolderWarning;
      }
      if selected.None? || selected.value == "" {
        return NoPrinterWarning;
      }
      var printer := selected.value;
      var listing := listdir(folder);
      if listing.None? {
        return Failed(ListingFailed(folder));
      }
      var files := ListFiles(folder, listing.value, join);
      if files == [] {
        return NoPdfInfo;
      }
      progressMax := |files|;
      outcome := SendBatch(os, printer, files, accepts);
    }

    /** The loop of `imprimir_arquivos` over a non-empty batch: for each file,
        submit it, pause, and set the progress bar to its position plus one;
        the first job that raises ends the batch with its error. */
    method SendBatch(os: Os, printer: string, files: seq<string>, accepts: Oracle)
      returns (outcome: Outcome)
      requires files != []
      modifies this`trace, this`progressValue
      ensures var r := RunBatch(os, printer, files, accepts);
        outcome == r.outcome && trace == old(trace) + r.events &&
        progressValue == (if r.value.Some? then r.value.value else old(progressValue))
    {
      for idx := 0 to |files|
        invariant trace == old(trace) + Completed(os, printer, files[..idx])
        invariant progressValue == if idx == 0 then old(progressValue) else idx
        invariant idx <= FailAt(os, printer, files, accepts, 0)
      {
        var attempt := Submit(os, idx, files[idx], printer, accepts);
        trace := trace + attempt.events;
        if attempt.failure.Some? {
          assert Fails(os, printer, files, accepts, idx);
          ghost var done := Completed(os, printer, files[..idx]);
          assert RunBatch(os, printer, files, accepts).events == done + attempt.events;
          assert trace == old(trace) + (done + attempt.events);
          return Failed(attempt.failure.value);
        }
        AcceptedStep(os, printer, files, accepts, idx, old(trace));
        trace := trace + [Pause(PauseSeconds), Progress(idx + 1)];
        progressValue := idx + 1;
      }
      assert files[..|files|] == files;
      assert RunBatch(os, printer, files, accepts).events == Completed(os, printer, files);
      outcome := AllSent;
    }
  }

  /** The printer shown at start-up is not a selection: with the first printer
      in the menu, a new session warns about the folder first and, once a folder
      is chosen, about the printer, until the printer is confirmed. */
  method UnconfirmedPrinterIsNotUsed(printers: seq<string>, chosen: string, os: Os,
                                     listdir: string -> Option<seq<string>>,
                                     join: (string, string) -> string, accepts: Oracle)
    returns (atStart: Outcome, withFolder: Outcome)
    requires chosen != ""
    ensures atStart == NoFolderWarning && withFolder == NoPrinterWarning
  {
    var session := new Session(printers);
    atStart := session.PrintFiles(os, listdir, join, accepts);
    session.SelectFolder(chosen);
    withFolder := session.PrintFiles(os, listdir, join, accepts);
  }
}
