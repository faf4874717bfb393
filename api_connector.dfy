/** The pure part of the scraper's API connector: the file-extension
    dispatch, the `.json` listing filter and the formatter that turns one
    scraped item into a question payload for the create endpoint. */
module ApiConnector {
  import opened Wrappers
  import opened Tables
  import opened Text
  import opened QuizModels
  import opened QuizSerializers

  const JsonExtension: string := ".json"

  /** What `open(path)` and `json.loads(f.read())` give for a path: the
      decoded document, a ValueError (`JSONDecodeError`, or the
      `UnicodeDecodeError` of the read), or an OSError such as
      `FileNotFoundError`, which is not a ValueError. */
  datatype ReadOutcome<D> = Decoded(data: D) | Undecodable | Unreadable

  /** A connector holding the path and the document decoded from it. */
  datatype JsonConnector<D> = JsonConnector(path: string, data: D)

  /** What `connection_factory` raises. The first two are ValueErrors. */
  datatype FactoryError = InvalidFormat | InvalidJson | FileError

  predicate IsValueError(e: FactoryError) {
    e != FileError
  }

  /** `connection_factory`: only a `.json` path has a handler; the
      constructor then reads and decodes the file, whose failures
      propagate. Any other path is refused without being opened. */
  function ConnectionFactory<D>(path: string, read: string -> ReadOutcome<D>): (r: Result<JsonConnector<D>, FactoryError>)
    ensures r.Ok? <==> EndsWith(path, JsonExtension) && read(path).Decoded?
    ensures r.Ok? ==> r.value == JsonConnector(path, read(path).data)
    ensures !EndsWith(path, JsonExtension) ==> r == Err(InvalidFormat)
    ensures EndsWith(path, JsonExtension) && read(path) == Undecodable ==> r == Err(InvalidJson)
    ensures EndsWith(path, JsonExtension) && read(path) == Unreadable ==> r == Err(FileError)
  {
    if !EndsWith(path, JsonExtension) then Err(InvalidFormat)
    else match read(path)
      case Decoded(data) => Ok(JsonConnector(path, data))
      case Undecodable => Err(InvalidJson)
      case Unreadable => Err(FileError)
  }

  /** `connect_to`: a ValueError of the factory becomes `None` (`Ok(None)`);
      any other exception escapes (`Err`). */
  function ConnectTo<D>(path: string, read: string -> ReadOutcome<D>): (r: Result<Option<JsonConnector<D>>, FactoryError>)
    ensures r.Err? <==> EndsWith(path, JsonExtension) && read(path) == Unreadable
    ensures r == Ok(None) <==> !EndsWith(path, JsonExtension) || read(path) == Undecodable
    ensures r.Ok? && r.value.Some? ==> ConnectionFactory(path, read) == Ok(r.value.value)
    ensures r.Err? ==> !IsValueError(r.error)
  {
    match ConnectionFactory(path, read)
    case Ok(c) => Ok(Some(c))
    case Err(e) => if IsValueError(e) then Ok(None) else Err(e)
  }

  predicate IsJsonName(name: string) {
    EndsWith(name, JsonExtension)
  }

  /** `get_list_of_json_files`: the directory entries that are files
      (`isFile`, a file-system query) and end in `.json`, in listing order. */
  function JsonFiles(entries: seq<string>, isFile: string -> bool): (r: seq<string>)
    ensures forall n :: n in r <==> n in entries && isFile(n) && EndsWith(n, JsonExtension)
  {
    Filter(Filter(entries, isFile), IsJsonName)
  }

  /** A listed file always has a handler: `connect_to` on it either
      connects or fails only because of the file's contents. */
  lemma ListedFilesHaveHandler<D>(entries: seq<string>, isFile: string -> bool, n: string,
                                  read: string -> ReadOutcome<D>)
    requires n in JsonFiles(entries, isFile)
    ensures ConnectionFactory(n, read) != Err(InvalidFormat)
    ensures ConnectTo(n, read) == Ok(None) <==> read(n) == Undecodable
  {
  }

  /** One scraped item; `None` is a missing key. */
  datatype ScrapedItem = ScrapedItem(question: Option<string>, correctAnswer: Option<string>,
                                     explanation: Option<string>, incorrectAnswers: Option<seq<string>>)

  /** The formatter's result: the payload, `None` after a swallowed
      exception, or the TypeError of `len(None)` that escapes. */
  datatype FormatOutcome = Formatted(payload: QuestionPayload) | Swallowed | Raised

  const DifficultyPoolAsWritten: seq<string> := ["eazy", "medium", "hard"]
  const DifficultyPool: seq<string> := ["easy", "medium", "hard"]

  /** `format_data_for_api` with the difficulty already drawn. More than one
      incorrect answer makes a multiple-choice item, which reads answers 1
      to 3; otherwise a True / False item reads answer 1. Reading past the
      end raises IndexError inside the `try`, which is swallowed. */
  function Format(item: ScrapedItem, category: CategoryId, difficulty: string): (r: FormatOutcome)
    ensures item.incorrectAnswers.None? <==> r == Raised
    ensures r.Formatted? ==> var p := r.payload;
              && p.question == item.question && p.correctAnswer == item.correctAnswer
              && p.explanation == item.explanation && p.category == Some(category)
              && p.difficulty == Some(difficulty)
  {
    match item.incorrectAnswers
    case None => Raised
    case Some(answers) =>
      var kind := if |answers| > 1 then MultipleChoice else TrueFalse;
      if |answers| == 0 || (kind == MultipleChoice && |answers| < 3) then Swallowed
      else
        var fields := if kind == MultipleChoice then AnswerFields(Some(answers[0]), Some(answers[1]), Some(answers[2]))
                      else AnswerFields(Some(answers[0]), None, None);
        Formatted(QuestionPayload(item.question, Some(difficulty), Some(kind), Some(category),
                                  item.correctAnswer, Some(fields), item.explanation))
  }

  /** The shape of the formatted answers: the type is multiple-choice
      exactly when there is more than one incorrect answer; a True / False
      item carries only the first answer, a multiple-choice item the first
      three; zero or exactly two answers end in the swallowed IndexError. */
  lemma FormatAnswerShape(item: ScrapedItem, category: CategoryId, difficulty: string)
    requires item.incorrectAnswers.Some?
    ensures var answers := item.incorrectAnswers.value;
            var r := Format(item, category, difficulty);
            && (r == Swallowed <==> |answers| == 0 || |answers| == 2)
            && (r.Formatted? ==> (r.payload.questionType == Some(MultipleChoice) <==> |answers| > 1))
            && (r.Formatted? && |answers| == 1 ==>
                  r.payload.questionType == Some(TrueFalse) &&
                  r.payload.answers == Some(AnswerFields(Some(answers[0]), None, None)))
            && (r.Formatted? && |answers| > 1 ==>
                  r.payload.answers == Some(AnswerFields(Some(answers[0]), Some(answers[1]), Some(answers[2]))) &&
                  Values(r.payload.answers.value) == answers[..3])
  {
    var answers := item.incorrectAnswers.value;
    if |answers| > 2 {
      assert Values(AnswerFields(Some(answers[0]), Some(answers[1]), Some(answers[2]))) == [answers[0], answers[1], answers[2]];
      assert answers[..3] == [answers[0], answers[1], answers[2]];
    }
  }

  /** `format_data_for_api` as written: the difficulty is drawn (`pick`)
      from a list whose first entry is misspelt. */
  function FormatDataForApiAsWritten(item: ScrapedItem, category: CategoryId, pick: nat): (r: FormatOutcome)
    requires pick < 3
    ensures r.Formatted? ==> r.payload.difficulty == Some(DifficultyPoolAsWritten[pick])
  {
    Format(item, category, DifficultyPoolAsWritten[pick])
  }

  /** As written, an item that draws the first difficulty is refused by the
      create endpoint, whose `difficulty` choices do not include "eazy". */
  lemma EazyIsRejected(item: ScrapedItem, category: CategoryId, cs: seq<Category>)
    requires FormatDataForApiAsWritten(item, category, 0).Formatted?
    ensures var p := FormatDataForApiAsWritten(item, category, 0).payload;
            FieldError("difficulty", InvalidChoice) in FieldErrors(p, cs, false)
  {
    var p := FormatDataForApiAsWritten(item, category, 0).payload;
    assert "eazy" !in DifficultyChoices;
    assert ChoiceFieldErrors("difficulty", p.difficulty, DifficultyChoices, true) == {FieldError("difficulty", InvalidChoice)};
  }

  /** The formatter with the evident spelling "easy". */
  function FormatDataForApi(item: ScrapedItem, category: CategoryId, pick: nat): (r: FormatOutcome)
    requires pick < 3
    ensures r.Formatted? ==> r.payload.difficulty == Some(DifficultyPool[pick])
  {
    Format(item, category, DifficultyPool[pick])
  }

  /** Every difficulty the corrected formatter draws passes the endpoint's
      choice check, and its answer type is one the endpoint accepts. */
  lemma FormattedDifficultyIsValid(item: ScrapedItem, category: CategoryId, pick: nat)
    requires pick < 3 && FormatDataForApi(item, category, pick).Formatted?
    ensures var p := FormatDataForApi(item, category, pick).payload;
            && ChoiceFieldErrors("difficulty", p.difficulty, DifficultyChoices, true) == {}
            && ChoiceFieldErrors("type", p.questionType, TypeChoices, true) == {}
  {
    assert DifficultyPool[pick] in DifficultyChoices;
  }
}
