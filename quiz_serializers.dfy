/** The question payload of `QuestionPublicSerializer`: field validation,
    the True / False answer-count check, creation of a question with its
    answer rows, and the partial update that overwrites existing answer rows
    by position. */
module QuizSerializers {
  import opened Wrappers
  import opened Tables
  import opened Text
  import opened QuizModels

  /** `IncorrectAnswerSerializer`: answer 1 is required outside partial
      updates, answers 2 and 3 are optional. */
  datatype AnswerFields = AnswerFields(answer1: Option<string>, answer2: Option<string>, answer3: Option<string>)

  function OptionList(o: Option<string>): seq<string> {
    if o.Some? then [o.value] else []
  }

  /** `incorrect_answer_fields.values()`: the supplied answers in field order. */
  function Values(f: AnswerFields): (r: seq<string>)
    ensures |r| == |OptionList(f.answer1)| + |OptionList(f.answer2)| + |OptionList(f.answer3)| <= 3
    ensures f.answer1.Some? ==> r[0] == f.answer1.value
    ensures f.answer2.Some? ==> r[|OptionList(f.answer1)|] == f.answer2.value
    ensures f.answer3.Some? ==> r[|r| - 1] == f.answer3.value
    ensures forall s :: s in r <==> f.answer1 == Some(s) || f.answer2 == Some(s) || f.answer3 == Some(s)
  {
    OptionList(f.answer1) + OptionList(f.answer2) + OptionList(f.answer3)
  }

  /** The writable fields of the payload; `None` is an absent key. */
  datatype QuestionPayload = QuestionPayload(
    question: Option<string>,
    difficulty: Option<string>,
    questionType: Option<string>,
    category: Option<CategoryId>,
    correctAnswer: Option<string>,
    answers: Option<AnswerFields>,
    explanation: Option<string>)

  const MaxCorrectAnswer: nat := 200
  const MaxExplanation: nat := 1000

  datatype ErrorKind = Required | Blank | TooLong | NullCharacter | InvalidChoice | DoesNotExist | OnlyOneIncorrectAnswer
  /** One entry of the 400 error body, keyed by field name. */
  datatype FieldError = FieldError(field: string, kind: ErrorKind)

  /** A `CharField`: surrounding whitespace is trimmed, then blank is
      checked; a non-blank value then runs every validator: the length
      bound and the prohibition of null characters. */
  function CharFieldErrors(field: string, value: Option<string>, required: bool, allowBlank: bool, maxLength: Option<nat>)
    : (r: set<FieldError>)
    ensures r <= {FieldError(field, Required), FieldError(field, Blank), FieldError(field, TooLong),
                  FieldError(field, NullCharacter)}
    ensures FieldError(field, Required) in r <==> value.None? && required
    ensures FieldError(field, Blank) in r <==> value.Some? && Strip(value.value) == "" && !allowBlank
    ensures FieldError(field, TooLong) in r <==>
              value.Some? && maxLength.Some? && |Strip(value.value)| > maxLength.value
    ensures FieldError(field, NullCharacter) in r <==> value.Some? && '\0' in Strip(value.value)
    ensures value.None? && !required ==> r == {}
  {
    match value
    case None => if required then {FieldError(field, Required)} else {}
    case Some(s) =>
      var t := Strip(s);
      if t == "" && !allowBlank then {FieldError(field, Blank)}
      else
        (if maxLength.Some? && |t| > maxLength.value then {FieldError(field, TooLong)} else {})
        + (if '\0' in t then {FieldError(field, NullCharacter)} else {})
  }

  /** A `ChoiceField`. */
  function ChoiceFieldErrors(field: string, value: Option<string>, choices: set<string>, required: bool)
    : (r: set<FieldError>)
    ensures r == {} <==> if value.Some? then value.value in choices else !required
  {
    match value
    case None => if required then {FieldError(field, Required)} else {}
    case Some(s) => if s in choices then {} else {FieldError(field, InvalidChoice)}
  }

  function AnswerFieldErrors(f: AnswerFields, partial: bool): set<FieldError> {
    CharFieldErrors("incorrect_answer_1", f.answer1, !partial, false, None)
    + CharFieldErrors("incorrect_answer_2", f.answer2, false, false, None)
    + CharFieldErrors("incorrect_answer_3", f.answer3, false, false, None)
  }

  /** The field-level errors `is_valid` collects before `validate` runs;
      `partial` is a PATCH, where absent keys are not required. */
  function FieldErrors(p: QuestionPayload, cs: seq<Category>, partial: bool): set<FieldError> {
    CharFieldErrors("question", p.question, !partial, false, None)
    + ChoiceFieldErrors("difficulty", p.difficulty, DifficultyChoices, !partial)
    + ChoiceFieldErrors("type", p.questionType, TypeChoices, !partial)
    + (match p.category
       case None => if partial then {} else {FieldError("category", Required)}
       case Some(c) => if c in CategoryIds(cs) then {} else {FieldError("category", DoesNotExist)})
    + CharFieldErrors("correct_answer", p.correctAnswer, !partial, false, Some(MaxCorrectAnswer))
    + (match p.answers
       case None => if partial then {} else {FieldError("incorrect_answer_fields", Required)}
       case Some(f) => AnswerFieldErrors(f, partial))
    + CharFieldErrors("explanation", p.explanation, false, true, Some(MaxExplanation))
  }

  function StripOption(o: Option<string>): Option<string> {
    if o.Some? then Some(Strip(o.value)) else None
  }

  /** The validated data: every `CharField` value trimmed. */
  function Internal(p: QuestionPayload): QuestionPayload {
    p.(question := StripOption(p.question),
       correctAnswer := StripOption(p.correctAnswer),
       explanation := StripOption(p.explanation),
       answers := if p.answers.Some? then
                    Some(AnswerFields(StripOption(p.answers.value.answer1),
                                      StripOption(p.answers.value.answer2),
                                      StripOption(p.answers.value.answer3)))
                  else None)
  }

  datatype ValidateOutcome = Pass | TooManyAnswers | TypeErrorCrash

  /** `QuestionPublicSerializer.validate`: only a True / False payload is
      checked; `len(None)` on a payload without answers is a TypeError. */
  function Validate(d: QuestionPayload): (r: ValidateOutcome)
    ensures r == TooManyAnswers <==>
              d.questionType == Some(TrueFalse) && d.answers.Some? && |Values(d.answers.value)| > 1
    ensures r == TypeErrorCrash <==> d.questionType == Some(TrueFalse) && d.answers.None?
    ensures d.questionType != Some(TrueFalse) ==> r == Pass
  {
    if d.questionType == Some(TrueFalse) then
      if d.answers.None? then TypeErrorCrash
      else if |Values(d.answers.value)| > 1 then TooManyAnswers
      else Pass
    else Pass
  }

  datatype Validation = Accepted(data: QuestionPayload) | Rejected(errors: set<FieldError>) | Crash

  /** `is_valid()`: field errors first; `validate` runs only when there are none. */
  function IsValid(p: QuestionPayload, cs: seq<Category>, partial: bool): (r: Validation)
    ensures r.Accepted? ==> FieldErrors(p, cs, partial) == {} && r.data == Internal(p)
    ensures FieldErrors(p, cs, partial) != {} ==> r == Rejected(FieldErrors(p, cs, partial))
    ensures FieldErrors(p, cs, partial) == {} ==>
              && (r == Accepted(Internal(p)) <==> Validate(Internal(p)) == Pass)
              && (r == Crash <==> Validate(Internal(p)) == TypeErrorCrash)
              && (Validate(Internal(p)) == TooManyAnswers ==>
                    r == Rejected({FieldError("incorrect_answer_fields", OnlyOneIncorrectAnswer)}))
  {
    var errs := FieldErrors(p, cs, partial);
    if errs != {} then Rejected(errs)
    else
      var d := Internal(p);
      match Validate(d)
      case Pass => Accepted(d)
      case TooManyAnswers => Rejected({FieldError("incorrect_answer_fields", OnlyOneIncorrectAnswer)})
      case TypeErrorCrash => Crash
  }

  /** Every key `create` reads is present. */
  predicate Complete(d: QuestionPayload) {
    && d.question.Some? && d.difficulty.Some? && d.questionType.Some?
    && d.category.Some? && d.correctAnswer.Some? && d.answers.Some?
  }

  /** A full (non-partial) payload that passes validation holds every required
      field, a known category, valid choices and one to three answers. */
  lemma AcceptedFullPayload(p: QuestionPayload, cs: seq<Category>)
    requires IsValid(p, cs, false).Accepted?
    ensures var d := IsValid(p, cs, false).data;
            && Complete(d) && d.category.value in CategoryIds(cs)
            && d.difficulty.value in DifficultyChoices && d.questionType.value in TypeChoices
            && 1 <= |Values(d.answers.value)| <= 3
  {
    var errs := FieldErrors(p, cs, false);
    assert FieldError("question", Required) !in errs;
    assert FieldError("correct_answer", Required) !in errs;
    assert FieldError("incorrect_answer_fields", Required) !in errs;
    assert FieldError("incorrect_answer_1", Required) !in errs;
    assert ChoiceFieldErrors("difficulty", p.difficulty, DifficultyChoices, true) == {};
    assert ChoiceFieldErrors("type", p.questionType, TypeChoices, true) == {};
  }

  /** A True / False payload that passes validation has at most one answer. */
  lemma AcceptedTrueFalseHasOneAnswer(p: QuestionPayload, cs: seq<Category>, partial: bool)
    requires IsValid(p, cs, partial).Accepted?
    requires IsValid(p, cs, partial).data.questionType == Some(TrueFalse)
    ensures var d := IsValid(p, cs, partial).data;
            d.answers.Some? && |Values(d.answers.value)| <= 1
  {
  }

  /** The row `Question.objects.create(**validated_data)` inserts, before it
      is given its id. */
  function NewQuestion(d: QuestionPayload, id: QuestionId, user: UserId, now: Time): (q: Question)
    requires Complete(d)
    ensures HasDefaultVerification(q) && Clean(q).None?
    ensures q.id == id && q.createdBy == Some(user) && q.category == d.category.value
    ensures q.question == d.question.value && q.difficulty == d.difficulty.value
    ensures q.questionType == d.questionType.value && q.correctAnswer == d.correctAnswer.value
    ensures q.explanation == (if d.explanation.Some? then d.explanation.value else "")
    ensures q.dateCreated == now
  {
    Question(id, d.question.value, d.difficulty.value, d.questionType.value, Some(user),
             d.correctAnswer.value, if d.explanation.Some? then d.explanation.value else "",
             false, None, None, d.category.value, now)
  }

  /** The `(question, option)` pairs handed to `bulk_create`. */
  function Pending(qid: QuestionId, vals: seq<string>): (r: seq<(QuestionId, string)>)
    ensures |r| == |vals|
    ensures forall k :: 0 <= k < |r| ==> r[k] == (qid, vals[k])
  {
    seq(|vals|, k requires 0 <= k < |vals| => (qid, vals[k]))
  }

  /** The loop of `create` that collects one unsaved answer row per
      supplied value, in order. */
  method PendingRows(qid: QuestionId, vals: seq<string>) returns (pending: seq<(QuestionId, string)>)
    ensures pending == Pending(qid, vals)
  {
    pending := [];
    for k := 0 to |vals|
      invariant pending == Pending(qid, vals[..k])
    {
      pending := pending + [(qid, vals[k])];
    }
    assert vals[..|vals|] == vals;
  }

  /** `values_list("option", flat=True)`. */
  function Options(rows: seq<IncorrectAnswer>): (r: seq<string>)
    ensures |r| == |rows|
    ensures forall k :: 0 <= k < |rows| ==> r[k] == rows[k].option
  {
    seq(|rows|, k requires 0 <= k < |rows| => rows[k].option)
  }

  /** `QuestionPublicSerializer.create`: the question is inserted, then one
      answer row per supplied value, in order, all attached to it. The rows
      go through `bulk_create`, which skips `InCorrectAnswer.clean`, so
      `validate` is the only True / False guard here. */
  method Create(db: QuizDb, d: QuestionPayload, user: UserId, now: Time) returns (id: QuestionId)
    requires db.Valid()
    requires Complete(d) && d.category.value in CategoryIds(db.categories)
    modifies db`questions, db`nextQuestionId, db`answers, db`nextAnswerId
    ensures db.Valid()
    ensures id == old(db.nextQuestionId) && id !in QuestionIds(old(db.questions))
    ensures db.questions == old(db.questions) + [NewQuestion(d, id, user, now)]
    ensures db.answers == old(db.answers) + NewAnswerRows(old(db.nextAnswerId), Pending(id, Values(d.answers.value)))
    ensures Options(AnswersOf(db.answers, id)) == Values(d.answers.value)
    ensures Validate(d) == Pass && d.questionType.value == TrueFalse ==> |AnswersOf(db.answers, id)| <= 1
  {
    var r := db.CreateQuestion(NewQuestion(d, 0, user, now));
    id := r.value;
    assert QuestionIds(db.questions)[|db.questions| - 1] == id;
    var vals := Values(d.answers.value);
    var pending := PendingRows(id, vals);
    ghost var before := db.answers;
    forall i | 0 <= i < |before|
      ensures before[i].question != id
    {
      assert before[i].question in QuestionIds(old(db.questions));
    }
    ghost var start := db.nextAnswerId;
    db.BulkCreateAnswers(pending);
    AnswersOfFreshRows(before, id, start, pending);
  }

  // ===== update ================================================================

  /** The supplied value, or `current` when the key is absent. */
  function Given<T>(supplied: Option<T>, current: T): (r: T)
    ensures supplied.Some? ==> r == supplied.value
    ensures supplied.None? ==> r == current
  {
    if supplied.Some? then supplied.value else current
  }

  /** The `setattr` loop over the supplied keys, with the category assigned
      only when one is supplied. The verification triple is not a payload
      field and is kept. */
  function Patched(q: Question, d: QuestionPayload): (r: Question)
    ensures r.id == q.id && r.createdBy == q.createdBy && r.dateCreated == q.dateCreated
    ensures r.isVerified == q.isVerified && r.verifiedBy == q.verifiedBy && r.dateVerified == q.dateVerified
    ensures d.question.Some? ==> r.question == d.question.value
    ensures d.question.None? ==> r.question == q.question
    ensures d.difficulty.Some? ==> r.difficulty == d.difficulty.value
    ensures d.difficulty.None? ==> r.difficulty == q.difficulty
    ensures d.questionType.Some? ==> r.questionType == d.questionType.value
    ensures d.questionType.None? ==> r.questionType == q.questionType
    ensures d.category.Some? ==> r.category == d.category.value
    ensures d.category.None? ==> r.category == q.category
    ensures d.correctAnswer.Some? ==> r.correctAnswer == d.correctAnswer.value
    ensures d.correctAnswer.None? ==> r.correctAnswer == q.correctAnswer
    ensures d.explanation.Some? ==> r.explanation == d.explanation.value
    ensures d.explanation.None? ==> r.explanation == q.explanation
  {
    q.(question := Given(d.question, q.question),
       difficulty := Given(d.difficulty, q.difficulty),
       questionType := Given(d.questionType, q.questionType),
       category := Given(d.category, q.category),
       correctAnswer := Given(d.correctAnswer, q.correctAnswer),
       explanation := Given(d.explanation, q.explanation))
  }

  /** A payload with no keys leaves the question as it was. */
  lemma PatchedByEmptyPayload(q: Question)
    ensures Patched(q, QuestionPayload(None, None, None, None, None, None, None)) == q
  {
  }

  /** The new options for existing rows, keyed by answer id: row k of `rows`
      gets value k of `vals`. */
  function Overrides(rows: seq<IncorrectAnswer>, vals: seq<string>): (m: map<AnswerId, string>)
    requires |rows| == |vals|
    ensures forall k :: 0 <= k < |rows| ==> rows[k].id in m
    ensures forall a :: a in m ==> exists k :: 0 <= k < |rows| && rows[k].id == a
  {
    if rows == [] then map[]
    else
      var init := Overrides(rows[..|rows| - 1], vals[..|vals| - 1]);
      assert forall a :: a in init ==> exists k :: 0 <= k < |rows| && rows[k].id == a by {
        forall a | a in init
          ensures exists k :: 0 <= k < |rows| && rows[k].id == a
        {
          var k :| 0 <= k < |rows| - 1 && rows[..|rows| - 1][k].id == a;
          assert rows[k].id == a;
        }
      }
      init[rows[|rows| - 1].id := vals[|vals| - 1]]
  }

  /** The answer table after each row whose id is a key of `m` has had its
      option replaced. */
  function OverwriteById(rows: seq<IncorrectAnswer>, m: map<AnswerId, string>): (r: seq<IncorrectAnswer>)
    ensures |r| == |rows| && AnswerIds(r) == AnswerIds(rows)
    ensures forall i :: 0 <= i < |rows| ==> r[i].question == rows[i].question
    ensures forall i :: 0 <= i < |rows| && rows[i].id !in m ==> r[i] == rows[i]
    ensures forall i :: 0 <= i < |rows| && rows[i].id in m ==> r[i].option == m[rows[i].id]
  {
    seq(|rows|, i requires 0 <= i < |rows| =>
      if rows[i].id in m then rows[i].(option := m[rows[i].id]) else rows[i])
  }

  lemma OverwriteNothing(rows: seq<IncorrectAnswer>)
    ensures OverwriteById(rows, map[]) == rows
  {
  }

  /** Writing one more key is the same as overwriting its single row. */
  lemma OverwriteStep(rows: seq<IncorrectAnswer>, m: map<AnswerId, string>, idx: nat, v: string)
    requires forall i, j :: 0 <= i < j < |rows| ==> rows[i].id != rows[j].id
    requires idx < |rows|
    ensures OverwriteById(rows, m[rows[idx].id := v]) ==
            OverwriteById(rows, m)[idx := IncorrectAnswer(rows[idx].id, rows[idx].question, v)]
  {
  }

  /** Extending the overwritten prefix by one row adds that row's key. */
  lemma OverridesSnoc(existing: seq<IncorrectAnswer>, vals: seq<string>, j: nat)
    requires j < |existing| && j < |vals|
    ensures Overrides(existing[..j + 1], vals[..j + 1]) ==
            Overrides(existing[..j], vals[..j])[existing[j].id := vals[j]]
  {
    assert existing[..j + 1][..j] == existing[..j] && vals[..j + 1][..j] == vals[..j];
  }

  /** In a table with unique ids, the row at `p` is found at `p` in any
      table with the same id column. */
  lemma IndexOfUniqueId(start: seq<IncorrectAnswer>, cur: seq<IncorrectAnswer>, p: nat)
    requires forall i, k :: 0 <= i < k < |start| ==> start[i].id != start[k].id
    requires AnswerIds(cur) == AnswerIds(start) && p < |start|
    ensures AnswerIndex(cur, start[p].id) == Some(p)
  {
    assert AnswerIds(cur)[p] == start[p].id;
    var idx := AnswerIndex(cur, start[p].id).value;
    assert AnswerIds(start)[idx] == start[p].id;
  }

  /** One turn of the overwrite loop: saving row `j` of `existing` with
      value `j` extends the overrides by that row. */
  lemma OverwriteLoopStep(start: seq<IncorrectAnswer>, qid: QuestionId, existing: seq<IncorrectAnswer>,
                          vals: seq<string>, j: nat, cur: seq<IncorrectAnswer>)
    requires forall i, k :: 0 <= i < k < |start| ==> start[i].id != start[k].id
    requires existing == AnswersOf(start, qid)
    requires j < |existing| && j < |vals|
    requires cur == OverwriteById(start, Overrides(existing[..j], vals[..j]))
    ensures existing[j].id in AnswerIds(cur)
    ensures var idx := AnswerIndex(cur, existing[j].id).value;
            cur[idx := IncorrectAnswer(existing[j].id, qid, vals[j])] ==
            OverwriteById(start, Overrides(existing[..j + 1], vals[..j + 1]))
  {
    var row := existing[j];
    assert row in start && row.question == qid;
    var p :| 0 <= p < |start| && start[p] == row;
    IndexOfUniqueId(start, cur, p);
    OverwriteStep(start, Overrides(existing[..j], vals[..j]), p, vals[j]);
    OverridesSnoc(existing, vals, j);
  }

  datatype UpdateOutcome = Updated | AnswerIndexError

  /** The loop of `update` over `instance.incorrect_answers.all()`: row
      `idx` gets option `vals[idx]`, and is saved at once; running out of
      values raises IndexError with the earlier rows already saved. */
  method OverwriteAnswers(db: QuizDb, id: QuestionId, vals: seq<string>) returns (r: UpdateOutcome)
    requires db.Valid()
    requires id in QuestionIds(db.questions)
    modifies db`answers, db`nextAnswerId
    ensures db.Valid()
    ensures var existing := AnswersOf(old(db.answers), id);
            var n := if |vals| < |existing| then |vals| else |existing|;
            && (r == AnswerIndexError <==> |vals| < |existing|)
            && db.answers == OverwriteById(old(db.answers), Overrides(existing[..n], vals[..n]))
  {
    var existing := AnswersOf(db.answers, id);
    ghost var start := db.answers;
    var j := 0;
    while j < |existing|
      invariant j <= |existing| && j <= |vals|
      invariant db.Valid()
      invariant db.answers == OverwriteById(start, Overrides(existing[..j], vals[..j]))
    {
      if j >= |vals| {
        return AnswerIndexError;
      }
      OverwriteLoopStep(start, id, existing, vals, j, db.answers);
      var saved := db.SaveIncorrectAnswer(Some(existing[j].id), id, vals[j]);
      j := j + 1;
    }
    r := Updated;
  }

  /** `QuestionPublicSerializer.update` on the stored question `id` with
      validated data `d`. The supplied keys are assigned and the question is
      saved; when answers are supplied, the question's existing answer rows
      are overwritten in order with the supplied values. When fewer values
      than rows are supplied, the loop raises IndexError after the earlier
      rows and the question were already saved; surplus values are ignored
      and no row is added or removed. */
  method Update(db: QuizDb, id: QuestionId, d: QuestionPayload) returns (r: UpdateOutcome)
    requires db.Valid()
    requires id in QuestionIds(db.questions)
    requires d.category.Some? ==> d.category.value in CategoryIds(db.categories)
    modifies db`questions, db`answers, db`nextAnswerId
    ensures db.Valid()
    ensures var i := QuestionIndex(old(db.questions), id).value;
            db.questions == old(db.questions)[i := Patched(old(db.questions)[i], d)]
    ensures d.answers.None? || Values(d.answers.value) == [] ==>
              r == Updated && db.answers == old(db.answers)
    ensures d.answers.Some? && Values(d.answers.value) != [] ==>
              var existing := AnswersOf(old(db.answers), id);
              var vals := Values(d.answers.value);
              var n := if |vals| < |existing| then |vals| else |existing|;
              && (r == AnswerIndexError <==> |vals| < |existing|)
              && db.answers == OverwriteById(old(db.answers), Overrides(existing[..n], vals[..n]))
  {
    var i := QuestionIndex(db.questions, id).value;
    assert VerificationConsistent(db.questions[i]);
    var err := db.SaveQuestion(Patched(db.questions[i], d));
    assert err.None? && QuestionIds(db.questions)[i] == id;
    r := Updated;
    if d.answers.Some? && Values(d.answers.value) != [] {
      r := OverwriteAnswers(db, id, Values(d.answers.value));
    }
  }
}
