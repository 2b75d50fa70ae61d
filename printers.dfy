/** Printer enumeration (`listar_impressoras`): on Windows the names the print
    spooler reports, on Linux the first word of each line `lpstat -a` prints,
    elsewhere nothing. */
module Printers {
  import opened PyText
  import opened Platform

  /** `result.stdout.strip().split("\n")`. */
  function Lines(out: string): (r: seq<string>)
    ensures |r| >= 1 && JoinWith(r, '\n') == Strip(out)
    ensures forall k :: 0 <= k < |r| ==> '\n' !in r[k]
  {
    SplitOn(Strip(out), '\n')
  }

  /** `[line.split()[0] for line in lines]`: `None` stands for the `IndexError`
      raised by the first line that has no word. */
  function FirstWords(lines: seq<string>): (r: Option<seq<string>>)
    ensures r.None? <==> exists k :: 0 <= k < |lines| && AllSpace(lines[k])
    ensures r.Some? ==> |r.value| == |lines|
    ensures r.Some? ==> forall k :: 0 <= k < |lines| ==>
      SplitWhitespace(lines[k]) != [] && r.value[k] == SplitWhitespace(lines[k])[0]
  {
    if lines == [] then Some([])
    else
      var words := SplitWhitespace(lines[0]);
      if words == [] then None
      else
        match FirstWords(lines[1..])
        case None =>
          assert forall k :: 1 <= k < |lines| ==> lines[1..][k - 1] == lines[k];
          None
        case Some(rest) =>
          assert forall k :: 1 <= k < |lines| ==> lines[1..][k - 1] == lines[k];
          Some([words[0]] + rest)
  }

  /** The printer names parsed out of the standard output of `lpstat -a`, or
      `None` when the comprehension raises. */
  function ParseLpstat(out: string): (r: Option<seq<string>>)
    ensures r.Some? ==> r.value != []
  {
    FirstWords(Lines(out))
  }

  /** What `listar_impressoras` returns, and whether it showed the
      "Erro ao listar impressoras no Linux" error box. */
  datatype PrinterList = PrinterList(names: seq<string>, errorShown: bool)

  /** `listar_impressoras`. `enumerated` stands for the names taken from
      `win32print.EnumPrinters(2)`; `lpstat` for the standard output of
      `lpstat -a`, `None` when running it raised. Any exception on the Linux
      path is caught and leaves the initial `[]`. */
  function ListPrinters(os: Os, enumerated: seq<string>, lpstat: Option<string>): (r: PrinterList)
    ensures os == OtherOs ==> r == PrinterList([], false)
    ensures os == Windows ==> r == PrinterList(enumerated, false)
    ensures os == Linux ==>
      (r.errorShown <==> lpstat.None? || ParseLpstat(lpstat.value).None?)
    ensures os == Linux && !r.errorShown ==> r.names == ParseLpstat(lpstat.value).value
    ensures r.errorShown ==> r.names == []
  {
    match os
    case Windows => PrinterList(enumerated, false)
    case Linux =>
      if lpstat.None? then PrinterList([], true)
      else (
        match ParseLpstat(lpstat.value)
        case None => PrinterList([], true)
        case Some(names) => PrinterList(names, false))
    case OtherOs => PrinterList([], false)
  }

  /** Output that is empty or all whitespace strips to `""`, which splits into
      `[""]`, whose only line has no word: the parse fails. */
  lemma BlankOutputFails(out: string)
    requires AllSpace(out)
    ensures ParseLpstat(out) == None
  {
    assert Strip(out) == [];
    assert Lines(out) == [[]];
    assert AllSpace(Lines(out)[0]);
  }

  /** A successful parse yields one printer per line of the stripped output, in
      order, each the first word of its line: a non-empty run of
      non-whitespace after the line's leading whitespace. */
  lemma ParsedNames(out: string)
    requires ParseLpstat(out).Some?
    ensures var names, lines := ParseLpstat(out).value, Lines(out);
      |names| == |lines| && JoinWith(lines, '\n') == Strip(out) &&
      forall k :: 0 <= k < |lines| ==> IsFirstToken(lines[k], names[k])
  {
    var names, lines := ParseLpstat(out).value, Lines(out);
    forall k | 0 <= k < |lines|
      ensures IsFirstToken(lines[k], names[k])
    {
      assert !AllSpace(lines[k]);
      FirstTokenShape(lines[k]);
    }
  }

  /** On Linux an empty printer list always comes with the error box, and the
      error box always with an empty list: a parse that succeeds has at least
      one line, and so at least one name. */
  lemma LinuxEmptyIffError(enumerated: seq<string>, lpstat: Option<string>)
    ensures var r := ListPrinters(Linux, enumerated, lpstat);
      r.names == [] <==> r.errorShown
  {
    var r := ListPrinters(Linux, enumerated, lpstat);
    if !r.errorShown {
      assert |Lines(lpstat.value)| >= 1;
    }
  }

  /** Two lines of `lpstat -a` output and a trailing newline give the two
      printer names in order. */
  lemma TwoPrinters()
    ensures ParseLpstat("HP ok\nLJ ok\n") == Some(["HP", "LJ"])
  {
    TwoPrinterLines();
    TwoPrinterWords();
  }

  lemma TwoPrinterLines()
    ensures Lines("HP ok\nLJ ok\n") == ["HP ok", "LJ ok"]
  {
    var out := "HP ok\nLJ ok\n";
    assert SkipSpace(out, 0) == 0;
    assert SkipSpaceBack(out, 0, |out|) == |out| - 1;
    assert Strip(out) == JoinWith(["HP ok", "LJ ok"], '\n');
    SplitJoin(["HP ok", "LJ ok"], '\n');
  }

  lemma TwoPrinterWords()
    ensures FirstWords(["HP ok", "LJ ok"]) == Some(["HP", "LJ"])
  {
    var hp, lj := "HP" + " " + "ok", "LJ" + " " + "ok";
    FirstWordOf("HP", "ok");
    FirstWordOf("LJ", "ok");
    FirstWordsPair(hp, lj);
    assert hp == "HP ok" && lj == "LJ ok";
  }

  /** A line made of a name, a space and anything else has that name as its
      first word. */
  lemma FirstWordOf(name: string, rest: string)
    requires name != [] && NoSpace(name)
    ensures var line := name + " " + rest;
      SplitWhitespace(line) != [] && SplitWhitespace(line)[0] == name
  {
    var line := name + " " + rest;
    assert line[..|name|] == name;
    FirstWordIs(line, |name|);
  }

  lemma FirstWordsPair(x: string, y: string)
    requires SplitWhitespace(x) != [] && SplitWhitespace(y) != []
    ensures FirstWords([x, y]) == Some([SplitWhitespace(x)[0], SplitWhitespace(y)[0]])
  {
    FirstWordsCons(y, []);
    assert [y] + [] == [y];
    FirstWordsCons(x, [y]);
    assert [x] + [y] == [x, y];
    var a, b := SplitWhitespace(x)[0], SplitWhitespace(y)[0];
    assert [a] + ([b] + []) == [a, b];
  }

  lemma FirstWordsCons(line: string, rest: seq<string>)
    requires SplitWhitespace(line) != [] && FirstWords(rest).Some?
    ensures FirstWords([line] + rest) == Some([SplitWhitespace(line)[0]] + FirstWords(rest).value)
  {
    assert ([line] + rest)[1..] == rest;
  }

  lemma {:induction false} WordEndIs(s: string, i: nat, j: nat)
    requires i <= j < |s| && NoSpace(s[i..j]) && IsSpace(s[j])
    ensures WordEnd(s, i) == j
    decreases j - i
  {
    if i < j {
      assert s[i..j][0] == s[i];
      assert s[i + 1..j] == s[i..j][1..];
      WordEndIs(s, i + 1, j);
    }
  }

  lemma FirstWordIs(line: string, n: nat)
    requires 0 < n < |line| && NoSpace(line[..n]) && IsSpace(line[n])
    ensures SplitWhitespace(line) != [] && SplitWhitespace(line)[0] == line[..n]
  {
    assert !IsSpace(line[0]) by { assert line[..n][0] == line[0]; }
    assert SkipSpace(line, 0) == 0;
    WordEndIs(line, 0, n);
    assert line[0..] == line;
  }
}
