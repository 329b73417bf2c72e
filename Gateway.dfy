/**
 The score gateway of `calculate_and_save` (api/index.py): what running the
 scoring executable produced is turned into either a total in [0,30] or one
 of the error kinds the service reports.
 */
module Gateway {
  import opened Text

  /** What `subprocess.run(..., capture_output=True, text=True, check=True,
      timeout=5)` ends in: the process exited (with its code and captured
      streams), it ran past the timeout, or it could not be started at all. */
  datatype ProcessOutcome =
    | Exited(code: int, stdout: string, stderr: string)
    | TimedOut
    | LaunchFailed(reason: string)

  datatype ScoreError =
    | ProcessFailure(detail: string)   // CalledProcessError: nonzero exit
    | Timeout                          // TimeoutExpired
    | MalformedOutput(output: string)  // ValueError from int()
    | OutOfRange(output: string)       // parsed, but not in [0,30]
    | Unexpected(reason: string)       // any other exception

  datatype ScoreResult = Scored(total: int) | Failed(error: ScoreError)

  const DefaultProcessMessage := "Kesalahan tidak diketahui dari logika C++."

  /** The error text of a failed process: its stripped stderr, or the default
      message when that is empty. */
  function ProcessDetail(stderr: string): (d: string)
    ensures d != []
    ensures Strip(stderr) != [] ==> d == Strip(stderr)
    ensures Strip(stderr) == [] ==> d == DefaultProcessMessage
  {
    var e := Strip(stderr);
    if e != [] then e else DefaultProcessMessage
  }

  /** The outcome mapping of the `try` block and its `except` clauses. */
  function Normalise(o: ProcessOutcome): (r: ScoreResult)
    ensures r.Scored? ==> 0 <= r.total <= 30
    ensures r.Scored? <==> o.Exited? && o.code == 0 && ParseDecimal(Strip(o.stdout)).Some?
                            && 0 <= ParseDecimal(Strip(o.stdout)).value <= 30
    ensures r.Scored? ==> ParseDecimal(Strip(o.stdout)) == Some(r.total)
  {
    match o
    case TimedOut => Failed(Timeout)
    case LaunchFailed(reason) => Failed(Unexpected(reason))
    case Exited(code, stdout, stderr) =>
      if code != 0 then Failed(ProcessFailure(ProcessDetail(stderr)))
      else
        var output := Strip(stdout);
        match ParseDecimal(output)
        case None => Failed(MalformedOutput(output))
        case Some(total) =>
          if !(0 <= total <= 30) then Failed(OutOfRange(output))
          else Scored(total)
  }

  /** Each kind of failure maps to its own error: a nonzero exit to a process
      failure carrying the diagnostic, a timeout to a timeout, output that is
      not an integer to malformed output, an integer outside [0,30] to out of
      range, and a process that never started to an unexpected error. */
  lemma NormaliseFailures(o: ProcessOutcome)
    ensures o.Exited? && o.code != 0 ==> Normalise(o) == Failed(ProcessFailure(ProcessDetail(o.stderr)))
    ensures o.TimedOut? ==> Normalise(o) == Failed(Timeout)
    ensures o.LaunchFailed? ==> Normalise(o).Failed? && Normalise(o).error.Unexpected?
    ensures o.Exited? && o.code == 0 && ParseDecimal(Strip(o.stdout)).None?
            ==> Normalise(o) == Failed(MalformedOutput(Strip(o.stdout)))
    ensures o.Exited? && o.code == 0 && ParseDecimal(Strip(o.stdout)).Some?
            && !(0 <= ParseDecimal(Strip(o.stdout)).value <= 30)
            ==> Normalise(o) == Failed(OutOfRange(Strip(o.stdout)))
  {
  }

  /** A process that exits 0 after printing a total in [0,30], surrounded by
      any whitespace, is read as that total. */
  lemma NormalisePrinted(t: int, pre: string, post: string, stderr: string)
    requires 0 <= t <= 30
    requires forall i | 0 <= i < |pre| :: IsSpace(pre[i])
    requires forall i | 0 <= i < |post| :: IsSpace(post[i])
    ensures Normalise(Exited(0, pre + Show(t) + post, stderr)) == Scored(t)
  {
    StripPadded(pre, Show(t), post);
    ParseShow(t);
  }

  /** A total printed on its own line, as `cout << total << endl` does, is
      read as that total. */
  lemma NormaliseLine(t: int)
    requires 0 <= t <= 30
    ensures Normalise(Exited(0, Show(t) + "\n", "")) == Scored(t)
  {
    var out := Show(t) + "\n";
    assert Strip(out) == Show(t) by {
      assert IsSpace("\n"[0]);
      StripPadded([], Show(t), "\n");
      assert [] + Show(t) + "\n" == out;
    }
    ParseShow(t);
  }

  /** A scorer that prints "abc" gives malformed output. */
  lemma NormaliseNotANumber(stderr: string)
    ensures Normalise(Exited(0, "abc", stderr)) == Failed(MalformedOutput("abc"))
  {
    var out := "abc";
    assert Strip(out) == out by { StripUnpadded(out); }
    assert ParseDecimal(out) == None by {
      assert out[0] == 'a' && !IsDigit(out[0]) && !AllDigits(out);
    }
    NormaliseFailures(Exited(0, out, stderr));
  }

  /** A scorer that prints "99" gives an out-of-range error. */
  lemma NormaliseNinetyNine(stderr: string)
    ensures Normalise(Exited(0, "99", stderr)) == Failed(OutOfRange("99"))
  {
    assert Strip("99") == "99" by { StripUnpadded("99"); }
    assert ParseDecimal("99") == Some(99) by {
      assert AllDigits("99");
      assert "99"[..1] == "9" && "9"[..0] == "";
      assert DigitsValue("9") == 9;
    }
  }
}
