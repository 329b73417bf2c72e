/**
 `calculate_and_save` (api/index.py): check that there are ten answers, run
 the scoring executable on them, normalise what it did, classify the total
 and store one history row. Also the whole scoring path when the executable
 is logic.cpp itself.
 */
module Api {
  import opened Text
  import opened Records
  import Scorer
  import Classifier
  import opened Gateway
  import History

  const AnswerCount := 10

  /** The executable the service runs, as the first element of the command
      line; `main` only counts it. */
  const ScorerPath := "./logic_linux"

  /** An optional text field of the request body: absent, present but not a
      string (JSON null, a number, ...), or a string. */
  datatype TextField = Missing | NonString | Given(s: string)

  datatype SaveRequest = SaveRequest(answers: seq<int>, name: TextField, note: TextField)

  datatype SaveResponse =
    | Saved(total: int, classification: Classifier.Classification)
    | InvalidAnswers                 // 400: not ten answers
    | ScoringFailed(error: ScoreError)
    | StorageFailed                  // SQLAlchemyError on commit, rolled back
    | InternalError                  // any other exception while building the row

  /** `[cpp_executable] + [str(a) for a in answers]`. */
  function Command(answers: seq<int>): (cmd: seq<string>)
    ensures |cmd| == |answers| + 1 && cmd[0] == ScorerPath
    ensures forall i | 0 <= i < |answers| :: cmd[i + 1] == Show(answers[i])
  {
    [ScorerPath] + seq(|answers|, i requires 0 <= i < |answers| => Show(answers[i]))
  }

  /** `data.get(key, '').strip()`: an absent field is the empty string; a
      value that is not a string has no `strip` and raises. */
  function StrippedField(f: TextField): (r: Option<string>)
    ensures r.None? <==> f.NonString?
    ensures f.Missing? ==> r == Some("")
    ensures f.Given? ==> r == Some(Strip(f.s))
  {
    match f
    case Missing => Some("")
    case NonString => None
    case Given(s) => Some(Strip(s))
  }

  /** The request handler. `run` is the scoring executable (what running a
      command line ends in), `now` the clock at insert time and `writable`
      whether the database accepts the commit. */
  method CalculateAndSave(store: History.HistoryStore, req: SaveRequest,
                          run: seq<string> -> ProcessOutcome, now: Timestamp, writable: bool)
    returns (resp: SaveResponse)
    requires store.Valid()
    modifies store
    ensures store.Valid()
    ensures |req.answers| != AnswerCount ==> resp == InvalidAnswers
    ensures |req.answers| == AnswerCount && Normalise(run(Command(req.answers))).Failed?
            ==> resp == ScoringFailed(Normalise(run(Command(req.answers))).error)
    ensures resp.Saved? <==>
              && |req.answers| == AnswerCount
              && Normalise(run(Command(req.answers))).Scored?
              && !req.name.NonString? && !req.note.NonString? && writable
    ensures resp.Saved? ==>
              && resp.total == Normalise(run(Command(req.answers))).total
              && 0 <= resp.total <= 30
              && resp.classification == Classifier.Classify(resp.total)
              && store.rows == old(store.rows) + [Record(old(store.nextId), now,
                   StrippedField(req.name), StrippedField(req.note),
                   resp.total, Classifier.Classify(resp.total).cat)]
    ensures |req.answers| == AnswerCount && Normalise(run(Command(req.answers))).Scored? ==>
              && ((req.name.NonString? || req.note.NonString?) ==> resp == InternalError)
              && (!req.name.NonString? && !req.note.NonString? && !writable ==> resp == StorageFailed)
    ensures !resp.Saved? ==> store.rows == old(store.rows) && store.nextId == old(store.nextId)
  {
    if |req.answers| != AnswerCount {
      return InvalidAnswers;
    }
    var outcome := Normalise(run(Command(req.answers)));
    if outcome.Failed? {
      return ScoringFailed(outcome.error);
    }
    var totalScore := outcome.total;
    var classification := Classifier.Classify(totalScore);

    var name := StrippedField(req.name);
    var note := StrippedField(req.note);
    if name.None? || note.None? {
      return InternalError;
    }
    var saved := store.Insert(name.value, note.value, totalScore, classification.cat, now, writable);
    if saved.None? {
      return StorageFailed;
    }
    resp := Saved(totalScore, classification);
  }

  // ---------------------------------------------------------------------------
  // The whole scoring path with logic.cpp as the executable
  // ---------------------------------------------------------------------------

  function AsOutcome(e: Scorer.Exit): ProcessOutcome {
    Exited(e.code, e.stdout, e.stderr)
  }

  /** `stoi` reads back each argument the service writes, as long as the
      answer fits in an `int`; when all do, `main` gets exactly the answers. */
  lemma CommandParses(answers: seq<int>)
    ensures var p := Scorer.ParseArgs(Command(answers), |answers| + 1);
      && (p.Values? ==> p.vals == answers)
      && ((forall i | 0 <= i < |answers| :: IntMin <= answers[i] <= IntMax) ==> p.Values?)
  {
    var cmd := Command(answers);
    var p := Scorer.ParseArgs(cmd, |cmd|);
    if p.Values? {
      forall i | 0 <= i < |answers| ensures p.vals[i] == answers[i] {
        StoiShow(answers[i]);
        assert Stoi(cmd[i + 1]) == Some(p.vals[i]);
      }
    }
    if p.NotANumber? {
      StoiShow(answers[p.index - 1]);
    }
  }

  /** `main` accepts the command line the service builds for ten answers
      in [0,3], prints their total and exits 0. */
  lemma CommandAccepted(answers: seq<int>)
    requires |answers| == AnswerCount && Scorer.AllInRange(answers)
    ensures Scorer.MainSpec(Command(answers)) == Scorer.Exit(0, Show(Scorer.Score(answers)) + Scorer.Endl, "")
  {
    var cmd := Command(answers);
    assert forall i | 0 <= i < |answers| :: Scorer.InRange(answers[i]);
    CommandParses(answers);
    Scorer.MainAccepts(cmd, answers);
  }

  /** Ten answers in [0,3] come back from the executable as their
      reverse-scored total. */
  lemma PipelineScores(answers: seq<int>)
    requires |answers| == AnswerCount && Scorer.AllInRange(answers)
    ensures Normalise(AsOutcome(Scorer.MainSpec(Command(answers)))) == Scored(Scorer.Score(answers))
  {
    CommandAccepted(answers);
    Scorer.ScoreBounds(answers);
    NormaliseLine(Scorer.Score(answers));
  }

  /** With any answer out of range the executable fails and the service
      reports a process failure, so nothing is stored. */
  lemma PipelineRejects(answers: seq<int>)
    requires |answers| == AnswerCount && !Scorer.AllInRange(answers)
    ensures Normalise(AsOutcome(Scorer.MainSpec(Command(answers)))).Failed?
    ensures Normalise(AsOutcome(Scorer.MainSpec(Command(answers)))).error.ProcessFailure?
  {
    CommandParses(answers);
    assert Scorer.MainSpec(Command(answers)).code == 1;
  }
}
