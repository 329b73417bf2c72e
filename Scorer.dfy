/**
 The scoring executable (logic.cpp): `hitung_skor` adds up ten answers with
 items 5 and 9 reverse-scored, and `main` checks the command line, parses the
 arguments, reports the first bad one on stderr with exit code 1, or prints the
 total on stdout with exit code 0.
 */
module Scorer {
  import opened Text

  /** Which item is reverse-scored: Q5 (index 4) and Q9 (index 8). */
  const ReverseFlags: seq<bool> :=
    [false, false, false, false, true, false, false, false, true, false]

  /** `argc` the program demands: its own name plus ten answers. */
  const ExpectedArgc := 11

  predicate InRange(v: int) { 0 <= v <= 3 }

  predicate AllInRange(a: seq<int>) { forall i | 0 <= i < |a| :: InRange(a[i]) }

  /** What answer `v` at position `i` adds to the total. */
  function Contribution(i: nat, v: int): int
    requires i < |ReverseFlags|
  {
    if ReverseFlags[i] then 3 - v else v
  }

  /** The total of the contributions of `a[..n]`. */
  function PrefixScore(a: seq<int>, n: nat): int
    requires n <= |a| <= |ReverseFlags|
  {
    if n == 0 then 0 else PrefixScore(a, n - 1) + Contribution(n - 1, a[n - 1])
  }

  /** The reverse-scored total of a whole answer list. */
  function Score(a: seq<int>): int
    requires |a| <= |ReverseFlags|
  {
    PrefixScore(a, |a|)
  }

  /** Plain sum of a sequence, the reference the reverse-scored total is compared to. */
  function Sum(a: seq<int>): int {
    if a == [] then 0 else Sum(a[..|a| - 1]) + a[|a| - 1]
  }

  /** With every answer in [0,3], each contribution is in [0,3], so a prefix of
      `n` answers scores between 0 and 3n. */
  lemma {:induction false} PrefixScoreBounds(a: seq<int>, n: nat)
    requires n <= |a| <= |ReverseFlags|
    requires AllInRange(a)
    ensures 0 <= PrefixScore(a, n) <= 3 * n
  {
    if n > 0 {
      PrefixScoreBounds(a, n - 1);
    }
  }

  lemma ScoreBounds(a: seq<int>)
    requires |a| <= |ReverseFlags| && AllInRange(a)
    ensures 0 <= Score(a) <= 3 * |a| <= 30
  {
    PrefixScoreBounds(a, |a|);
  }

  /** The reverse-scored prefix total is the plain sum with the contributions
      of the reverse-scored items 4 and 8 corrected from `v` to `3 - v`. */
  lemma {:induction false} PrefixScoreClosedForm(a: seq<int>, n: nat)
    requires n <= |a| == |ReverseFlags|
    ensures PrefixScore(a, n)
         == Sum(a[..n]) + (if n > 4 then 3 - 2 * a[4] else 0)
                        + (if n > 8 then 3 - 2 * a[8] else 0)
  {
    if n > 0 {
      PrefixScoreClosedForm(a, n - 1);
      assert a[..n][..n - 1] == a[..n - 1];
    }
  }

  /** The total of ten answers is their plain sum, minus twice the answers to
      the two reverse-scored items, plus 6. */
  lemma ScoreClosedForm(a: seq<int>)
    requires |a| == |ReverseFlags|
    ensures Score(a) == Sum(a) + 6 - 2 * (a[4] + a[8])
  {
    PrefixScoreClosedForm(a, |a|);
    assert a[..|a|] == a;
  }

  /** Ten 0s score 6 and ten 3s score 24: only the two reverse-scored items
      count for all-0 answers, and they are the only ones that do not for all-3. */
  lemma ScoreExtremes()
    ensures Score([0, 0, 0, 0, 0, 0, 0, 0, 0, 0]) == 6
    ensures Score([3, 3, 3, 3, 3, 3, 3, 3, 3, 3]) == 24
  {
    var zeros, threes := [0, 0, 0, 0, 0, 0, 0, 0, 0, 0], [3, 3, 3, 3, 3, 3, 3, 3, 3, 3];
    ScoreClosedForm(zeros);
    SumUniform(zeros, 0);
    ScoreClosedForm(threes);
    SumUniform(threes, 3);
  }

  lemma {:induction false} SumUniform(a: seq<int>, c: int)
    requires forall i | 0 <= i < |a| :: a[i] == c
    ensures Sum(a) == c * |a|
  {
    if a != [] {
      SumUniform(a[..|a| - 1], c);
    }
  }

  /** `hitung_skor`: -1 as soon as an answer is outside [0,3], the
      reverse-scored total otherwise. Answers past the tenth would read past
      the end of the flag table, so the list is at most ten long. */
  method HitungSkor(jawaban: seq<int>) returns (total: int)
    requires |jawaban| <= |ReverseFlags|
    ensures total == -1 <==> !AllInRange(jawaban)
    ensures AllInRange(jawaban) ==> total == Score(jawaban)
    ensures total == -1 || 0 <= total <= 3 * |jawaban|
  {
    total := 0;
    for i := 0 to |jawaban|
      invariant forall k | 0 <= k < i :: InRange(jawaban[k])
      invariant total == PrefixScore(jawaban, i)
    {
      var v := jawaban[i];
      if v < 0 || v > 3 {
        return -1;
      }
      var score := if ReverseFlags[i] then 3 - v else v;
      total := total + score;
    }
    ScoreBounds(jawaban);
  }

  // ---------------------------------------------------------------------------
  // main
  // ---------------------------------------------------------------------------

  /** What the process leaves behind: exit code and the two output streams. */
  datatype Exit = Exit(code: int, stdout: string, stderr: string)

  /** Parsing `argv[1..n]` with `stoi`, left to right: the values, or the
      index of the first argument that is not a number. */
  datatype Parsed = Values(vals: seq<int>) | NotANumber(index: nat)

  function ParseArgs(argv: seq<string>, n: nat): (r: Parsed)
    requires 1 <= n <= |argv|
    ensures r.Values? ==> |r.vals| == n - 1
    ensures r.Values? ==> forall k | 1 <= k < n :: Stoi(argv[k]) == Some(r.vals[k - 1])
    ensures r.NotANumber? ==> 1 <= r.index < n && Stoi(argv[r.index]).None?
    ensures r.NotANumber? ==> forall k | 1 <= k < r.index :: Stoi(argv[k]).Some?
  {
    if n == 1 then Values([])
    else match ParseArgs(argv, n - 1)
      case NotANumber(i) => NotANumber(i)
      case Values(vs) =>
        match Stoi(argv[n - 1])
        case None => NotANumber(n - 1)
        case Some(v) => Values(vs + [v])
  }

  /** The first answer outside [0,3], if any. */
  function FirstOutOfRange(a: seq<int>): (r: Option<int>)
    ensures r.None? <==> AllInRange(a)
    ensures r.Some? ==> !InRange(r.value)
  {
    if a == [] then None
    else if !InRange(a[0]) then Some(a[0])
    else FirstOutOfRange(a[1..])
  }

  lemma {:induction false} FirstOutOfRangeAt(a: seq<int>, k: nat)
    requires k < |a| && !InRange(a[k])
    requires forall j | 0 <= j < k :: InRange(a[j])
    ensures FirstOutOfRange(a) == Some(a[k])
  {
    if k > 0 {
      FirstOutOfRangeAt(a[1..], k - 1);
    }
  }

  const Endl := "\n"

  function ArgCountMessage(given: int): string {
    "C++ ERROR: Harus menerima 10 jawaban sebagai argumen, diterima: " + Show(given) + "." + Endl
  }

  function NotANumberMessage(i: nat, arg: string): string {
    "C++ ERROR: Argumen ke-" + Show(i) + " (" + arg + ") bukan angka valid." + Endl
  }

  function OutOfRangeMessage(v: int): string {
    "C++ ERROR: Nilai jawaban di luar rentang 0-3 terdeteksi: " + Show(v) + "." + Endl
  }

  /** The observable behaviour of `main` for a given `argv` (`argc` is `|argv|`). */
  function MainSpec(argv: seq<string>): Exit {
    if |argv| != ExpectedArgc then Exit(1, "", ArgCountMessage(|argv| - 1))
    else match ParseArgs(argv, |argv|)
      case NotANumber(i) => Exit(1, "", NotANumberMessage(i, argv[i]))
      case Values(vals) =>
        match FirstOutOfRange(vals)
        case Some(v) => Exit(1, "", OutOfRangeMessage(v))
        case None => Exit(0, Show(Score(vals)) + Endl, "")
  }

  /** `main` exits 0 exactly when it gets ten arguments that all parse to
      answers in [0,3]; then stdout is the total, in [0,30], and stderr is
      empty. Every other run exits 1 with an empty stdout and a message on
      stderr. */
  lemma MainSpecContract(argv: seq<string>)
    ensures var e := MainSpec(argv);
      && (e.code == 0 || e.code == 1)
      && (e.code == 0 <==> |argv| == ExpectedArgc && ParseArgs(argv, |argv|).Values?
                            && AllInRange(ParseArgs(argv, |argv|).vals))
      && (e.code == 0 ==> var t := Score(ParseArgs(argv, |argv|).vals);
                          e.stderr == "" && e.stdout == Show(t) + Endl && 0 <= t <= 30)
      && (e.code == 1 ==> e.stdout == "" && e.stderr != "")
  {
    var e := MainSpec(argv);
    if |argv| != ExpectedArgc {
      assert e.stderr == ArgCountMessage(|argv| - 1);
    } else {
      match ParseArgs(argv, |argv|)
      case NotANumber(i) =>
        assert e.stderr == NotANumberMessage(i, argv[i]);
      case Values(vals) =>
        match FirstOutOfRange(vals)
        case Some(v) =>
          assert e.stderr == OutOfRangeMessage(v);
        case None =>
          ScoreBounds(vals);
          assert e.stdout == Show(Score(vals)) + Endl;
    }
  }

  /** Ten arguments that parse to answers in [0,3] make `main` print their
      total and exit 0. */
  lemma MainAccepts(argv: seq<string>, vals: seq<int>)
    requires |argv| == ExpectedArgc && ParseArgs(argv, |argv|) == Values(vals) && AllInRange(vals)
    ensures MainSpec(argv) == Exit(0, Show(Score(vals)) + Endl, "")
  {
  }

  /** A wrong argument count exits 1 before any argument is looked at. */
  lemma ArgCountRejected(argv: seq<string>)
    requires |argv| != ExpectedArgc
    ensures MainSpec(argv) == Exit(1, "", ArgCountMessage(|argv| - 1))
  {
  }

  /** An argument that `stoi` rejects exits 1 naming that argument, whatever
      the other arguments are: no answer is range-checked or scored. */
  lemma UnparsableRejected(argv: seq<string>, i: nat)
    requires |argv| == ExpectedArgc && 1 <= i < |argv|
    requires Stoi(argv[i]).None? && forall k | 1 <= k < i :: Stoi(argv[k]).Some?
    ensures MainSpec(argv) == Exit(1, "", NotANumberMessage(i, argv[i]))
  {
    FirstUnparsable(argv, |argv|, i);
  }

  lemma {:induction false} FirstUnparsable(argv: seq<string>, n: nat, i: nat)
    requires 1 <= i < n <= |argv|
    requires Stoi(argv[i]).None? && forall k | 1 <= k < i :: Stoi(argv[k]).Some?
    ensures ParseArgs(argv, n) == NotANumber(i)
  {
    if n - 1 > i {
      FirstUnparsable(argv, n - 1, i);
    }
  }

  /** `main`, argument by argument as logic.cpp runs it: the argc check, the
      parsing loop that stops at the first bad argument, `hitung_skor`, and
      on -1 the rescan that reports the first out-of-range answer. The
      fallback message after that rescan is never reached: `hitung_skor`
      returns -1 only when some answer is out of range. */
  method RunMain(argv: seq<string>) returns (code: int, stdout: string, stderr: string)
    ensures Exit(code, stdout, stderr) == MainSpec(argv)
  {
    stdout, stderr := "", "";
    if |argv| != ExpectedArgc {
      stderr := ArgCountMessage(|argv| - 1);
      return 1, stdout, stderr;
    }
    var jawaban: seq<int> := [];
    var i := 1;
    while i < |argv|
      invariant 1 <= i <= |argv|
      invariant ParseArgs(argv, i) == Values(jawaban)
    {
      var parsed := Stoi(argv[i]);
      if parsed.None? {
        stderr := NotANumberMessage(i, argv[i]);
        return 1, stdout, stderr;
      }
      jawaban := jawaban + [parsed.value];
      i := i + 1;
    }
    var totalSkor := HitungSkor(jawaban);
    if totalSkor == -1 {
      var k := 0;
      while k < |jawaban|
        invariant 0 <= k <= |jawaban|
        invariant forall j | 0 <= j < k :: InRange(jawaban[j])
      {
        var v := jawaban[k];
        if v < 0 || v > 3 {
          FirstOutOfRangeAt(jawaban, k);
          stderr := OutOfRangeMessage(v);
          return 1, stdout, stderr;
        }
        k := k + 1;
      }
      assert false;
    }
    stdout := Show(totalSkor) + Endl;
    code := 0;
  }
}
