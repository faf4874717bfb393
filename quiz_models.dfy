/** The quiz catalogue: categories, questions with their verification
    triple, incorrect answers, the verified / unverified managers and the
    statistics helpers of the `Category` and `Question` models. Database
    tables are sequences of rows in table order; `QuizDb` holds them and its
    methods are the model methods that write rows (`save`, `verify`,
    `unverify`, `objects.create`, `bulk_create`). */
module QuizModels {
  import opened Wrappers
  import opened Tables

  type UserId = nat
  type QuestionId = nat
  type CategoryId = nat
  type AnswerId = nat
  /** A timestamp (`date_created`, `date_verified`, "now"). */
  type Time = int

  const TrueFalse: string := "True / False"
  const MultipleChoice: string := "multiple-choice"
  const DifficultyChoices: set<string> := {"easy", "medium", "hard"}
  const TypeChoices: set<string> := {MultipleChoice, TrueFalse}

  datatype Category = Category(id: CategoryId, name: string, slug: string)

  /** A row of the question table (the image field is not modelled). */
  datatype Question = Question(
    id: QuestionId,
    question: string,
    difficulty: string,
    questionType: string,
    createdBy: Option<UserId>,
    correctAnswer: string,
    explanation: string,
    isVerified: bool,
    dateVerified: Option<Time>,
    verifiedBy: Option<UserId>,
    category: CategoryId,
    dateCreated: Time)

  datatype IncorrectAnswer = IncorrectAnswer(id: AnswerId, question: QuestionId, option: string)

  // ===== The verification triple =============================================

  /** The invariant the `clean` hook guards: a verifier is set exactly when
      the question is verified, and a verified question carries a date. */
  predicate VerificationConsistent(q: Question) {
    && (q.isVerified <==> q.verifiedBy.Some?)
    && (q.isVerified ==> q.dateVerified.Some?)
  }

  datatype CleanError = MissingVerifier | VerifierWithoutFlag | MissingVerificationDate

  /** `Question.clean`: the first failing check names the error. */
  function Clean(q: Question): (r: Option<CleanError>)
    ensures r.None? <==> VerificationConsistent(q)
    ensures r == Some(MissingVerifier) <==> q.isVerified && q.verifiedBy.None?
    ensures r == Some(VerifierWithoutFlag) <==> !q.isVerified && q.verifiedBy.Some?
  {
    if q.isVerified && q.verifiedBy.None? then Some(MissingVerifier)
    else if q.verifiedBy.Some? && !q.isVerified then Some(VerifierWithoutFlag)
    else if q.verifiedBy.Some? && q.isVerified && q.dateVerified.None? then Some(MissingVerificationDate)
    else None
  }

  /** An unverified question without a verifier passes `clean` whatever its date holds. */
  lemma CleanIgnoresDateOfUnverified(q: Question, date: Option<Time>)
    requires !q.isVerified && q.verifiedBy.None?
    ensures Clean(q.(dateVerified := date)).None?
  {
  }

  /** The three fields of a freshly created question. */
  predicate HasDefaultVerification(q: Question) {
    !q.isVerified && q.verifiedBy.None? && q.dateVerified.None?
  }

  /** Every field outside the verification triple is the same. */
  predicate SameContent(a: Question, b: Question) {
    && a.id == b.id && a.question == b.question && a.difficulty == b.difficulty
    && a.questionType == b.questionType && a.createdBy == b.createdBy
    && a.correctAnswer == b.correctAnswer && a.explanation == b.explanation
    && a.category == b.category && a.dateCreated == b.dateCreated
  }

  /** The row `Question.verify(user)` writes at time `now`. */
  function Verified(q: Question, user: UserId, now: Time): (r: Question)
    ensures VerificationConsistent(r) && r.isVerified
    ensures r.verifiedBy == Some(user) && r.dateVerified == Some(now)
    ensures SameContent(q, r)
  {
    q.(isVerified := true, dateVerified := Some(now), verifiedBy := Some(user))
  }

  /** The row `Question.unverify()` writes. */
  function Unverified(q: Question): (r: Question)
    ensures VerificationConsistent(r) && HasDefaultVerification(r)
    ensures SameContent(q, r)
  {
    q.(isVerified := false, dateVerified := None, verifiedBy := None)
  }

  /** Verifying then unverifying a fresh question gives back the fresh question. */
  lemma VerifyThenUnverify(q: Question, user: UserId, now: Time)
    requires HasDefaultVerification(q)
    ensures Unverified(Verified(q, user, now)) == q
  {
  }

  /** Re-verifying overwrites the verifier and the date. */
  lemma ReverifyOverwrites(q: Question, u1: UserId, t1: Time, u2: UserId, t2: Time)
    ensures Verified(Verified(q, u1, t1), u2, t2) == Verified(q, u2, t2)
  {
  }

  // ===== Lookup by primary key ================================================

  function CategoryIds(cs: seq<Category>): seq<CategoryId> {
    seq(|cs|, i requires 0 <= i < |cs| => cs[i].id)
  }

  function QuestionIds(qs: seq<Question>): seq<QuestionId> {
    seq(|qs|, i requires 0 <= i < |qs| => qs[i].id)
  }

  function AnswerIds(rows: seq<IncorrectAnswer>): seq<AnswerId> {
    seq(|rows|, i requires 0 <= i < |rows| => rows[i].id)
  }

  function CategoryIndex(cs: seq<Category>, id: CategoryId): (r: Option<nat>)
    ensures r.Some? <==> id in CategoryIds(cs)
    ensures r.Some? ==> r.value < |cs| && cs[r.value].id == id
  {
    var r := FirstIndex(cs, (c: Category) => c.id == id);
    assert r.Some? ==> CategoryIds(cs)[r.value] == id;
    assert r.None? ==> forall j :: 0 <= j < |cs| ==> CategoryIds(cs)[j] != id;
    r
  }

  function QuestionIndex(qs: seq<Question>, id: QuestionId): (r: Option<nat>)
    ensures r.Some? <==> id in QuestionIds(qs)
    ensures r.Some? ==> r.value < |qs| && qs[r.value].id == id
  {
    var r := FirstIndex(qs, (q: Question) => q.id == id);
    assert r.Some? ==> QuestionIds(qs)[r.value] == id;
    assert r.None? ==> forall j :: 0 <= j < |qs| ==> QuestionIds(qs)[j] != id;
    r
  }

  function AnswerIndex(rows: seq<IncorrectAnswer>, id: AnswerId): (r: Option<nat>)
    ensures r.Some? <==> id in AnswerIds(rows)
    ensures r.Some? ==> r.value < |rows| && rows[r.value].id == id
  {
    var r := FirstIndex(rows, (a: IncorrectAnswer) => a.id == id);
    assert r.Some? ==> AnswerIds(rows)[r.value] == id;
    assert r.None? ==> forall j :: 0 <= j < |rows| ==> AnswerIds(rows)[j] != id;
    r
  }

  /** `question.incorrect_answers.all()`: the answer rows of one question, in table order. */
  function AnswersOf(rows: seq<IncorrectAnswer>, qid: QuestionId): seq<IncorrectAnswer> {
    Filter(rows, (a: IncorrectAnswer) => a.question == qid)
  }

  // ===== Table invariants ====================================================

  ghost predicate CategoriesValid(cs: seq<Category>, nextId: nat) {
    && (forall i :: 0 <= i < |cs| ==> cs[i].id < nextId)
    && (forall i, j :: 0 <= i < j < |cs| ==>
          cs[i].id != cs[j].id && cs[i].name != cs[j].name && cs[i].slug != cs[j].slug)
  }

  ghost predicate QuestionsValid(qs: seq<Question>, cs: seq<Category>, nextId: nat) {
    && (forall i :: 0 <= i < |qs| ==> qs[i].id < nextId)
    && (forall i :: 0 <= i < |qs| ==> VerificationConsistent(qs[i]))
    && (forall i :: 0 <= i < |qs| ==> qs[i].category in CategoryIds(cs))
    && (forall i, j :: 0 <= i < j < |qs| ==> qs[i].id != qs[j].id)
  }

  ghost predicate AnswersValid(rows: seq<IncorrectAnswer>, qs: seq<Question>, nextId: nat) {
    && (forall i :: 0 <= i < |rows| ==> rows[i].id < nextId)
    && (forall i :: 0 <= i < |rows| ==> rows[i].question in QuestionIds(qs))
    && (forall i, j :: 0 <= i < j < |rows| ==> rows[i].id != rows[j].id)
  }

  /** Another category (not `id`) already holds `name` or `slug`. */
  predicate Clashes(cs: seq<Category>, id: CategoryId, name: string, slug: string) {
    exists k | 0 <= k < |cs| :: cs[k].id != id && (cs[k].name == name || cs[k].slug == slug)
  }

  /** The `clean` hook of `InCorrectAnswer`: a new row for a True / False
      question that already has an answer is refused. */
  predicate AnswerRejected(questionType: string, existing: nat, isNew: bool) {
    questionType == TrueFalse && existing >= 1 && isNew
  }

  function NewAnswerRows(start: nat, pending: seq<(QuestionId, string)>): (r: seq<IncorrectAnswer>)
    ensures |r| == |pending|
    ensures forall k :: 0 <= k < |r| ==> r[k] == IncorrectAnswer(start + k, pending[k].0, pending[k].1)
  {
    seq(|pending|, k requires 0 <= k < |pending| => IncorrectAnswer(start + k, pending[k].0, pending[k].1))
  }

  lemma AnswersOfAppend(rows: seq<IncorrectAnswer>, row: IncorrectAnswer, qid: QuestionId)
    ensures |AnswersOf(rows + [row], qid)| == |AnswersOf(rows, qid)| + (if row.question == qid then 1 else 0)
  {
    FilterAppend(rows, [row], (a: IncorrectAnswer) => a.question == qid);
  }

  /** Rows appended for a question no earlier row belongs to are exactly
      that question's answers afterwards. */
  lemma AnswersOfFreshRows(before: seq<IncorrectAnswer>, qid: QuestionId, start: nat, pending: seq<(QuestionId, string)>)
    requires forall i :: 0 <= i < |before| ==> before[i].question != qid
    requires forall k :: 0 <= k < |pending| ==> pending[k].0 == qid
    ensures AnswersOf(before + NewAnswerRows(start, pending), qid) == NewAnswerRows(start, pending)
  {
    var added := NewAnswerRows(start, pending);
    FilterAppend(before, added, (a: IncorrectAnswer) => a.question == qid);
    FilterNone(before, (a: IncorrectAnswer) => a.question == qid);
    FilterAll(added, (a: IncorrectAnswer) => a.question == qid);
  }

  /** Replacing a row by one with the same id keeps the answer invariant. */
  lemma AnswersValidReplace(rows: seq<IncorrectAnswer>, qs: seq<Question>, nextId: nat, i: nat, row: IncorrectAnswer)
    requires AnswersValid(rows, qs, nextId) && i < |rows|
    requires row.id == rows[i].id && row.question in QuestionIds(qs)
    ensures AnswerIds(rows[i := row]) == AnswerIds(rows)
    ensures AnswersValid(rows[i := row], qs, nextId)
  {
    assert AnswerIds(rows[i := row]) == AnswerIds(rows);
  }

  /** Appending a row under the next id keeps the answer invariant. */
  lemma AnswersValidAppend(rows: seq<IncorrectAnswer>, qs: seq<Question>, nextId: nat, row: IncorrectAnswer)
    requires AnswersValid(rows, qs, nextId)
    requires row.id == nextId && row.question in QuestionIds(qs)
    ensures AnswersValid(rows + [row], qs, nextId + 1)
  {
  }

  datatype IntegrityError = UniqueViolation
  datatype AnswerError = TrueFalseAnswerLimit

  /** The catalogue tables of one database. */
  class QuizDb {
    var categories: seq<Category>
    var questions: seq<Question>
    var answers: seq<IncorrectAnswer>
    var nextCategoryId: nat
    var nextQuestionId: nat
    var nextAnswerId: nat

    ghost predicate Valid()
      reads this
    {
      && CategoriesValid(categories, nextCategoryId)
      && QuestionsValid(questions, categories, nextQuestionId)
      && AnswersValid(answers, questions, nextAnswerId)
    }

    constructor ()
      ensures Valid()
      ensures categories == [] && questions == [] && answers == []
    {
      categories, questions, answers := [], [], [];
      nextCategoryId, nextQuestionId, nextAnswerId := 1, 1, 1;
    }

    /** `Category.save`: a blank slug is first derived from the name; a name
        or slug held by another category is refused by the unique constraints. */
    method SaveCategory(id: Option<CategoryId>, name: string, slug: string, slugify: string -> string)
      returns (r: Result<CategoryId, IntegrityError>)
      requires Valid()
      requires id.Some? ==> id.value in CategoryIds(categories)
      modifies this`categories, this`nextCategoryId
      ensures Valid()
      ensures var stored := if slug == "" then slugify(name) else slug;
              var key := if id.Some? then id.value else old(nextCategoryId);
              && (r.Ok? <==> !Clashes(old(categories), key, name, stored))
              && (r.Err? ==> categories == old(categories) && nextCategoryId == old(nextCategoryId))
              && (r.Ok? && id.Some? ==>
                    r.value == key && nextCategoryId == old(nextCategoryId) &&
                    categories == old(categories)[CategoryIndex(old(categories), key).value := Category(key, name, stored)])
              && (r.Ok? && id.None? ==>
                    r.value == key && nextCategoryId == old(nextCategoryId) + 1 &&
                    categories == old(categories) + [Category(key, name, stored)])
    {
      var stored := if slug == "" then slugify(name) else slug;
      var key := if id.Some? then id.value else nextCategoryId;
      if Clashes(categories, key, name, stored) {
        return Err(UniqueViolation);
      }
      var row := Category(key, name, stored);
      if id.Some? {
        var i := CategoryIndex(categories, key).value;
        categories := categories[i := row];
        assert CategoryIds(categories) == CategoryIds(old(categories));
      } else {
        categories := categories + [row];
        nextCategoryId := nextCategoryId + 1;
        assert CategoryIds(categories) == CategoryIds(old(categories)) + [key];
      }
      r := Ok(key);
    }

    /** `Question.save` on a stored row: `clean` runs first, so a rejected
        triple is never written. */
    method SaveQuestion(q: Question) returns (err: Option<CleanError>)
      requires Valid()
      requires q.id in QuestionIds(questions)
      requires q.category in CategoryIds(categories)
      modifies this`questions
      ensures Valid()
      ensures err == Clean(q)
      ensures err.Some? ==> questions == old(questions)
      ensures err.None? ==> questions == old(questions)[QuestionIndex(old(questions), q.id).value := q]
    {
      err := Clean(q);
      if err.None? {
        var i := QuestionIndex(questions, q.id).value;
        questions := questions[i := q];
        assert QuestionIds(questions) == QuestionIds(old(questions));
      }
    }

    /** `Question.objects.create(...)`: `save` on a new row, which takes the next id. */
    method CreateQuestion(q: Question) returns (r: Result<QuestionId, CleanError>)
      requires Valid()
      requires q.category in CategoryIds(categories)
      modifies this`questions, this`nextQuestionId
      ensures Valid()
      ensures r.Err? <==> Clean(q).Some?
      ensures r.Err? ==> r.error == Clean(q).value
      ensures r.Err? ==> questions == old(questions) && nextQuestionId == old(nextQuestionId)
      ensures r.Ok? ==> r.value == old(nextQuestionId) && r.value !in QuestionIds(old(questions))
      ensures r.Ok? ==> questions == old(questions) + [q.(id := r.value)]
      ensures r.Ok? ==> nextQuestionId == old(nextQuestionId) + 1
    {
      var err := Clean(q);
      if err.Some? {
        return Err(err.value);
      }
      var id := nextQuestionId;
      questions := questions + [q.(id := id)];
      nextQuestionId := nextQuestionId + 1;
      assert QuestionIds(questions) == QuestionIds(old(questions)) + [id];
      r := Ok(id);
    }

    /** `Question.verify(user)`: the triple is set and the row saved; `clean`
        always accepts it. Every other field and every other row is kept. */
    method VerifyQuestion(id: QuestionId, user: UserId, now: Time)
      requires Valid()
      requires id in QuestionIds(questions)
      modifies this`questions
      ensures Valid()
      ensures var i := QuestionIndex(old(questions), id).value;
              questions == old(questions)[i := Verified(old(questions)[i], user, now)]
    {
      var i := QuestionIndex(questions, id).value;
      var q := questions[i];
      q := q.(isVerified := true, dateVerified := Some(now), verifiedBy := Some(user));
      var err := SaveQuestion(q);
      assert err.None?;
    }

    /** `Question.unverify()`: the triple is cleared and the row saved. */
    method UnverifyQuestion(id: QuestionId)
      requires Valid()
      requires id in QuestionIds(questions)
      modifies this`questions
      ensures Valid()
      ensures var i := QuestionIndex(old(questions), id).value;
              questions == old(questions)[i := Unverified(old(questions)[i])]
    {
      var i := QuestionIndex(questions, id).value;
      var q := questions[i];
      q := q.(isVerified := false, dateVerified := None, verifiedBy := None);
      var err := SaveQuestion(q);
      assert err.None?;
    }

    /** `InCorrectAnswer.save`: `id == None` is a new row. `clean` refuses a
        new row for a True / False question that already has an answer;
        an existing row is written back in place whatever the type. */
    method SaveIncorrectAnswer(id: Option<AnswerId>, question: QuestionId, option: string)
      returns (r: Result<AnswerId, AnswerError>)
      requires Valid()
      requires question in QuestionIds(questions)
      requires id.Some? ==> id.value in AnswerIds(answers)
      modifies this`answers, this`nextAnswerId
      ensures Valid()
      ensures var owner := questions[QuestionIndex(questions, question).value];
              r.Err? <==> AnswerRejected(owner.questionType, |AnswersOf(old(answers), question)|, id.None?)
      ensures r.Err? ==> answers == old(answers) && nextAnswerId == old(nextAnswerId)
      ensures r.Ok? && id.None? ==>
                && r.value == old(nextAnswerId)
                && answers == old(answers) + [IncorrectAnswer(r.value, question, option)]
                && nextAnswerId == old(nextAnswerId) + 1
      ensures r.Ok? && id.Some? ==>
                && r.value == id.value && nextAnswerId == old(nextAnswerId)
                && answers == old(answers)[AnswerIndex(old(answers), id.value).value :=
                                           IncorrectAnswer(id.value, question, option)]
      ensures var owner := questions[QuestionIndex(questions, question).value];
              r.Ok? && id.None? && owner.questionType == TrueFalse ==> |AnswersOf(answers, question)| == 1
    {
      var owner := questions[QuestionIndex(questions, question).value];
      if AnswerRejected(owner.questionType, |AnswersOf(answers, question)|, id.None?) {
        return Err(TrueFalseAnswerLimit);
      }
      if id.Some? {
        var i := AnswerIndex(answers, id.value).value;
        assert AnswerIds(answers)[i] == id.value;
        AnswersValidReplace(answers, questions, nextAnswerId, i, IncorrectAnswer(id.value, question, option));
        answers := answers[i := IncorrectAnswer(id.value, question, option)];
        r := Ok(id.value);
      } else {
        var row := IncorrectAnswer(nextAnswerId, question, option);
        AnswersValidAppend(answers, questions, nextAnswerId, row);
        answers := answers + [row];
        nextAnswerId := nextAnswerId + 1;
        AnswersOfAppend(old(answers), row, question);
        r := Ok(row.id);
      }
    }

    /** `InCorrectAnswer.objects.bulk_create(rows)`: the rows are inserted with
        fresh ids and WITHOUT running `clean`. */
    method BulkCreateAnswers(pending: seq<(QuestionId, string)>)
      requires Valid()
      requires forall k :: 0 <= k < |pending| ==> pending[k].0 in QuestionIds(questions)
      modifies this`answers, this`nextAnswerId
      ensures Valid()
      ensures answers == old(answers) + NewAnswerRows(old(nextAnswerId), pending)
      ensures nextAnswerId == old(nextAnswerId) + |pending|
    {
      var rows := NewAnswerRows(nextAnswerId, pending);
      answers := answers + rows;
      nextAnswerId := nextAnswerId + |pending|;
    }
  }

  // ===== Managers and statistics =============================================

  predicate IsVerifiedRow(q: Question) {
    q.isVerified
  }

  predicate IsUnverifiedRow(q: Question) {
    !q.isVerified
  }

  /** `Question.verified` (VerifiedManager.get_queryset). */
  function VerifiedRows(qs: seq<Question>): (r: seq<Question>)
    ensures forall q :: q in r <==> q in qs && q.isVerified
  {
    Filter(qs, IsVerifiedRow)
  }

  /** `Question.unverified` (UnVerifiedManager.get_queryset). */
  function UnverifiedRows(qs: seq<Question>): (r: seq<Question>)
    ensures forall q :: q in r <==> q in qs && !q.isVerified
  {
    Filter(qs, IsUnverifiedRow)
  }

  function NoOfAllQuestions(qs: seq<Question>): nat {
    |qs|
  }

  function NoOfVerifiedQuestions(qs: seq<Question>): nat {
    |VerifiedRows(qs)|
  }

  function NoOfUnverifiedQuestions(qs: seq<Question>): nat {
    |UnverifiedRows(qs)|
  }

  /** `no_of_easy_questions` and its two siblings, for difficulty `d`. */
  function NoOfDifficulty(qs: seq<Question>, d: string): (n: nat)
    ensures n <= |qs|
  {
    |Filter(qs, (q: Question) => q.difficulty == d)|
  }

  /** When every stored difficulty is one of the field's choices, the easy,
      medium and hard counts add up to all questions. */
  lemma {:induction false} DifficultyCountsAddUp(qs: seq<Question>)
    requires forall q :: q in qs ==> q.difficulty in DifficultyChoices
    ensures NoOfDifficulty(qs, "easy") + NoOfDifficulty(qs, "medium") + NoOfDifficulty(qs, "hard") == NoOfAllQuestions(qs)
  {
    if qs != [] {
      assert qs[0] in qs;
      DifficultyCountsAddUp(qs[1..]);
    }
  }

  /** Both managers filter on the one boolean, so they split the table. */
  lemma VerifiedPlusUnverified(qs: seq<Question>)
    ensures NoOfVerifiedQuestions(qs) + NoOfUnverifiedQuestions(qs) == NoOfAllQuestions(qs)
  {
    FilterPartition(qs, IsVerifiedRow, IsUnverifiedRow);
  }

  /** `Question.last_created()`: `None` stands for the AttributeError that
      `.first().date_created` raises on an empty table. */
  function LastCreated(qs: seq<Question>): (r: Option<Time>)
    ensures r.None? <==> qs == []
    ensures r.Some? ==> exists q :: q in qs && q.dateCreated == r.value
    ensures forall q :: q in qs ==> r.Some? && q.dateCreated <= r.value
  {
    if qs == [] then None
    else match LastCreated(qs[1..])
      case None => Some(qs[0].dateCreated)
      case Some(t) => Some(if qs[0].dateCreated >= t then qs[0].dateCreated else t)
  }

  /** `Question.last_verified()` on a table whose rows all pass `clean`:
      `None` stands for the AttributeError raised when no row is verified. */
  function LastVerified(qs: seq<Question>): (r: Option<Time>)
    requires forall q :: q in qs ==> VerificationConsistent(q)
    ensures r.None? <==> forall q :: q in qs ==> !q.isVerified
    ensures r.Some? ==> exists q :: q in qs && q.isVerified && q.dateVerified == Some(r.value)
    ensures forall q :: q in qs && q.isVerified && q.dateVerified.Some? ==> r.Some? && q.dateVerified.value <= r.value
  {
    if qs == [] then None
    else
      assert qs[0] in qs && VerificationConsistent(qs[0]);
      var rest := LastVerified(qs[1..]);
      if !qs[0].isVerified then rest
      else match rest
        case None => qs[0].dateVerified
        case Some(t) => Some(if qs[0].dateVerified.value >= t then qs[0].dateVerified.value else t)
  }

  // ----- questions_count_category -------------------------------------------

  /** `category.questions.count()`. */
  function CountInCategory(qs: seq<Question>, cid: CategoryId): nat {
    if qs == [] then 0 else (if qs[0].category == cid then 1 else 0) + CountInCategory(qs[1..], cid)
  }

  /** The dict `questions_count_category` builds with `setdefault`, one
      category at a time in table order. */
  function CategoryCountMap(cs: seq<Category>, qs: seq<Question>): map<string, nat> {
    if cs == [] then map[]
    else
      var m := CategoryCountMap(cs[..|cs| - 1], qs);
      var c := cs[|cs| - 1];
      if c.name in m then m else m[c.name := CountInCategory(qs, c.id)]
  }

  function CategoryNames(cs: seq<Category>): set<string> {
    set c | c in cs :: c.name
  }

  predicate UniqueNames(cs: seq<Category>) {
    forall i, j :: 0 <= i < j < |cs| ==> cs[i].name != cs[j].name
  }

  lemma {:induction false} CategoryCountMapKeys(cs: seq<Category>, qs: seq<Question>)
    ensures CategoryCountMap(cs, qs).Keys == CategoryNames(cs)
  {
    if cs != [] {
      var init := cs[..|cs| - 1];
      CategoryCountMapKeys(init, qs);
      assert cs == init + [cs[|cs| - 1]];
      assert CategoryNames(cs) == CategoryNames(init) + {cs[|cs| - 1].name};
    }
  }

  lemma {:induction false} CategoryCountMapValues(cs: seq<Category>, qs: seq<Question>)
    requires UniqueNames(cs)
    ensures forall c :: c in cs ==> c.name in CategoryCountMap(cs, qs) &&
                                    CategoryCountMap(cs, qs)[c.name] == CountInCategory(qs, c.id)
  {
    if cs != [] {
      var init := cs[..|cs| - 1];
      var last := cs[|cs| - 1];
      CategoryCountMapValues(init, qs);
      CategoryCountMapKeys(init, qs);
      assert last.name !in CategoryNames(init);
      forall c | c in cs
        ensures c.name in CategoryCountMap(cs, qs) && CategoryCountMap(cs, qs)[c.name] == CountInCategory(qs, c.id)
      {
        if c != last {
          assert c in init;
        }
      }
    }
  }

  /** The sum of the per-category counts, category by category. */
  function SumOfCounts(cs: seq<Category>, qs: seq<Question>): nat {
    if cs == [] then 0 else CountInCategory(qs, cs[0].id) + SumOfCounts(cs[1..], qs)
  }

  function CategoriesWithId(cs: seq<Category>, cid: CategoryId): nat {
    if cs == [] then 0 else (if cs[0].id == cid then 1 else 0) + CategoriesWithId(cs[1..], cid)
  }

  lemma {:induction false} SumOfCountsStep(cs: seq<Category>, q: Question, rest: seq<Question>)
    ensures SumOfCounts(cs, [q] + rest) == SumOfCounts(cs, rest) + CategoriesWithId(cs, q.category)
  {
    if cs != [] {
      assert ([q] + rest)[1..] == rest;
      SumOfCountsStep(cs[1..], q, rest);
    }
  }

  lemma {:induction false} UniqueIdCountedOnce(cs: seq<Category>, cid: CategoryId)
    requires forall i, j :: 0 <= i < j < |cs| ==> cs[i].id != cs[j].id
    requires cid in CategoryIds(cs)
    ensures CategoriesWithId(cs, cid) == 1
  {
    if cs[0].id == cid {
      NotPresentCountedZero(cs[1..], cid);
    } else {
      assert cid in CategoryIds(cs[1..]) by {
        var k :| 0 <= k < |cs| && CategoryIds(cs)[k] == cid;
        assert CategoryIds(cs[1..])[k - 1] == cid;
      }
      UniqueIdCountedOnce(cs[1..], cid);
    }
  }

  lemma {:induction false} NotPresentCountedZero(cs: seq<Category>, cid: CategoryId)
    requires forall i :: 0 <= i < |cs| ==> cs[i].id != cid
    ensures CategoriesWithId(cs, cid) == 0
  {
    if cs != [] {
      NotPresentCountedZero(cs[1..], cid);
    }
  }

  /** Every question belongs to exactly one category, so the per-category
      counts add up to the number of questions. */
  lemma {:induction false} CategoryCountsSumToTotal(cs: seq<Category>, qs: seq<Question>)
    requires forall i, j :: 0 <= i < j < |cs| ==> cs[i].id != cs[j].id
    requires forall q :: q in qs ==> q.category in CategoryIds(cs)
    ensures SumOfCounts(cs, qs) == |qs|
  {
    if qs == [] {
      ZeroCountsOfEmpty(cs);
    } else {
      var rest := qs[1..];
      assert qs == [qs[0]] + rest;
      SumOfCountsStep(cs, qs[0], rest);
      UniqueIdCountedOnce(cs, qs[0].category);
      CategoryCountsSumToTotal(cs, rest);
    }
  }

  lemma {:induction false} ZeroCountsOfEmpty(cs: seq<Category>)
    ensures SumOfCounts(cs, []) == 0
  {
    if cs != [] {
      ZeroCountsOfEmpty(cs[1..]);
    }
  }

  /** `Category.questions_count_category()`: one entry per category name,
      valued at that category's question count (zero included). */
  method QuestionsCountCategory(cs: seq<Category>, qs: seq<Question>) returns (m: map<string, nat>)
    ensures m == CategoryCountMap(cs, qs)
    ensures m.Keys == CategoryNames(cs)
    ensures UniqueNames(cs) ==> forall c :: c in cs ==> m[c.name] == CountInCategory(qs, c.id)
  {
    m := map[];
    for i := 0 to |cs|
      invariant m == CategoryCountMap(cs[..i], qs)
    {
      assert cs[..i + 1][..i] == cs[..i];
      if cs[i].name !in m {
        m := m[cs[i].name := CountInCategory(qs, cs[i].id)];
      }
    }
    assert cs[..|cs|] == cs;
    CategoryCountMapKeys(cs, qs);
    if UniqueNames(cs) {
      CategoryCountMapValues(cs, qs);
    }
  }

  // ----- random_all -----------------------------------------------------------

  const OrderFieldsAsc: seq<string> := ["date_created", "category", "difficulty", "type"]
  const OrderFieldsDesc: seq<string> := ["-date_created", "-category", "-difficulty", "-type"]

  /** The two `order_by` keys `random_all` uses, as written: both random
      choices draw from the ascending list. */
  function RandomAllKeysAsWritten(first: nat, second: nat): (keys: seq<string>)
    requires first < 4 && second < 4
    ensures |keys| == 2 && keys[0] in OrderFieldsAsc && keys[1] in OrderFieldsAsc
  {
    [OrderFieldsAsc[first], OrderFieldsAsc[second]]
  }

  /** As written, the descending list is never used. */
  lemma RandomAllNeverDescending(first: nat, second: nat)
    requires first < 4 && second < 4
    ensures forall k :: k in RandomAllKeysAsWritten(first, second) ==> k !in OrderFieldsDesc
  {
  }

  /** The keys evidently intended: an ascending key, then a descending one. */
  function RandomAllKeys(first: nat, second: nat): (keys: seq<string>)
    requires first < 4 && second < 4
    ensures |keys| == 2 && keys[0] in OrderFieldsAsc && keys[1] in OrderFieldsDesc
  {
    [OrderFieldsAsc[first], OrderFieldsDesc[second]]
  }
}
