/** The quiz endpoints with logic of their own: the public listing pipeline
    (`get_queryset`), the verification endpoint, the statistics view with
    its one-section selector, and the per-user question statistics. */
module QuizViews {
  import opened Wrappers
  import opened Tables
  import opened Text
  import opened QuizModels
  import opened AuthModels

  // ===== Public listing ========================================================

  /** The query parameters of the listing; `None` is an absent parameter. */
  datatype ListParams = ListParams(limit: Option<string>, category: Option<string>, difficulty: Option<string>,
                                   questionType: Option<string>, search: Option<string>)

  const ListCap: nat := 50

  /** `category__slug`: the slug of the question's category. */
  function SlugOf(cs: seq<Category>, cid: CategoryId): Option<string> {
    match CategoryIndex(cs, cid)
    case None => None
    case Some(i) => Some(cs[i].slug)
  }

  /** The `category`, `difficulty` and `type` filters, combined with AND. */
  predicate MatchesFilters(q: Question, cs: seq<Category>, params: ListParams) {
    && (params.category.Some? ==> SlugOf(cs, q.category) == params.category)
    && (params.difficulty.Some? ==> q.difficulty == params.difficulty.value)
    && (params.questionType.Some? ==> q.questionType == params.questionType.value)
  }

  function FilterBy(cs: seq<Category>, params: ListParams): Question -> bool {
    (q: Question) => MatchesFilters(q, cs, params)
  }

  /** `Q(question__icontains=text) | Q(explanation__icontains=text)`. */
  predicate SearchMatches(q: Question, text: string) {
    ContainsIgnoreCase(q.question, text) || ContainsIgnoreCase(q.explanation, text)
  }

  function SearchBy(text: string): Question -> bool {
    (q: Question) => SearchMatches(q, text)
  }

  /** The `limit` parameter as `int()` parses it. A negative value makes the
      slice raise ValueError, which the view swallows like a parse error:
      both leave the queryset as it was. */
  function LimitOf(params: ListParams): (r: Option<nat>)
    ensures r.Some? ==> params.limit.Some? && ParseInt(params.limit.value) == Some(r.value as int)
    ensures params.limit.Some? && ParseInt(params.limit.value).Some? && ParseInt(params.limit.value).value >= 0 ==> r.Some?
  {
    if params.limit.None? then None
    else match ParseInt(params.limit.value)
      case None => None
      case Some(n) => if n < 0 then None else Some(n as nat)
  }

  /** The search branch: `Question.verified.filter(search_query)`. */
  function SearchResult(qs: seq<Question>, text: string): (r: seq<Question>)
    ensures forall q :: q in r <==> q in qs && q.isVerified && SearchMatches(q, text)
  {
    Filter(VerifiedRows(qs), SearchBy(text))
  }

  function Min(a: nat, b: nat): nat {
    if a <= b then a else b
  }

  /** The filter chain, the optional limit, then the cap of 50. */
  function FilteredListing(cs: seq<Category>, shuffled: seq<Question>, params: ListParams): (r: seq<Question>)
    ensures forall q :: q in r ==> q in shuffled && MatchesFilters(q, cs, params)
    ensures |r| <= ListCap
    ensures LimitOf(params).Some? ==> |r| <= LimitOf(params).value
    ensures LimitOf(params).None? && |Filter(shuffled, FilterBy(cs, params))| <= ListCap ==>
              r == Filter(shuffled, FilterBy(cs, params))
    ensures var filtered := Filter(shuffled, FilterBy(cs, params));
            && |r| <= |filtered| && r == filtered[..|r|]
            && |r| == Min(Min(|filtered|, if LimitOf(params).Some? then LimitOf(params).value else |filtered|), ListCap)
  {
    var filtered := Filter(shuffled, FilterBy(cs, params));
    var limited := match LimitOf(params)
      case None => filtered
      case Some(n) => Take(filtered, n);
    assert forall q :: q in limited ==> q in filtered;
    var r := Take(limited, ListCap);
    assert forall q :: q in r ==> q in limited;
    assert forall q :: q in filtered ==> q in shuffled && FilterBy(cs, params)(q);
    PrefixOfPrefix(filtered, limited, r);
    r
  }

  lemma PermutationMembers(a: seq<Question>, b: seq<Question>)
    requires multiset(a) == multiset(b)
    ensures forall q :: q in a <==> q in b
  {
    forall q
      ensures q in a <==> q in b
    {
      assert q in a <==> q in multiset(a);
      assert q in b <==> q in multiset(b);
    }
  }

  /** `QuestionListCreateView.get_queryset`. `shuffled` is the verified
      table in the order `random_all` produced. With `search`, every other
      parameter is ignored and no cap applies. */
  function GetQueryset(qs: seq<Question>, cs: seq<Category>, shuffled: seq<Question>, params: ListParams): (r: seq<Question>)
    requires multiset(shuffled) == multiset(VerifiedRows(qs))
    ensures forall q :: q in r ==> q in qs && q.isVerified
    ensures params.search.None? ==> forall q :: q in r ==> MatchesFilters(q, cs, params)
    ensures params.search.None? ==> r == FilteredListing(cs, shuffled, params)
    ensures params.search.None? ==> |r| <= ListCap
    ensures params.search.None? && LimitOf(params).Some? ==> |r| <= LimitOf(params).value
    ensures params.search.Some? ==>
              forall q :: q in r <==> q in qs && q.isVerified && SearchMatches(q, params.search.value)
  {
    if params.search.Some? then
      SearchResult(qs, params.search.value)
    else
      PermutationMembers(shuffled, VerifiedRows(qs));
      FilteredListing(cs, shuffled, params)
  }

  /** Counting a value in a filtered table. */
  lemma {:induction false} FilterCount(s: seq<Question>, p: Question -> bool, x: Question)
    ensures multiset(Filter(s, p))[x] == if p(x) then multiset(s)[x] else 0
  {
    if s != [] {
      FilterCount(s[1..], p, x);
      assert s == [s[0]] + s[1..];
      assert multiset(s) == multiset([s[0]]) + multiset(s[1..]);
    }
  }

  /** Filtering commutes with reordering. */
  lemma FilterPermutation(a: seq<Question>, b: seq<Question>, p: Question -> bool)
    requires multiset(a) == multiset(b)
    ensures multiset(Filter(a, p)) == multiset(Filter(b, p))
  {
    forall x
      ensures multiset(Filter(a, p))[x] == multiset(Filter(b, p))[x]
    {
      FilterCount(a, p, x);
      FilterCount(b, p, x);
    }
  }

  /** Without `search` and `limit`, when at most 50 verified questions pass
      the filters, the listing holds every one of them. */
  lemma ListingIsCompleteUnderCap(qs: seq<Question>, cs: seq<Category>, shuffled: seq<Question>, params: ListParams)
    requires multiset(shuffled) == multiset(VerifiedRows(qs))
    requires params.search.None? && LimitOf(params).None?
    requires |Filter(VerifiedRows(qs), FilterBy(cs, params))| <= ListCap
    ensures multiset(GetQueryset(qs, cs, shuffled, params)) == multiset(Filter(VerifiedRows(qs), FilterBy(cs, params)))
  {
    var expected := Filter(VerifiedRows(qs), FilterBy(cs, params));
    var filtered := Filter(shuffled, FilterBy(cs, params));
    FilterPermutation(shuffled, VerifiedRows(qs), FilterBy(cs, params));
    assert |filtered| == |multiset(filtered)| == |multiset(expected)| == |expected|;
  }

  /** With `search`, the limit and filter parameters make no difference. */
  lemma SearchIgnoresOtherParameters(qs: seq<Question>, cs: seq<Category>, shuffled: seq<Question>,
                                     params: ListParams, other: ListParams)
    requires multiset(shuffled) == multiset(VerifiedRows(qs))
    requires params.search.Some? && other.search == params.search
    ensures GetQueryset(qs, cs, shuffled, params) == GetQueryset(qs, cs, shuffled, other)
  {
  }

  // ===== Verification endpoint ===================================================

  datatype Reply = Reply(code: int, status: string)

  /** `QuestionVerification.post`: 404 on an unknown id, else `verify` with
      the requesting user at time `now`. */
  method VerificationPost(db: QuizDb, id: QuestionId, user: UserId, now: Time) returns (r: Reply)
    requires db.Valid()
    modifies db`questions
    ensures db.Valid()
    ensures id !in QuestionIds(old(db.questions)) ==> r == Reply(404, "error") && db.questions == old(db.questions)
    ensures id in QuestionIds(old(db.questions)) ==>
              var i := QuestionIndex(old(db.questions), id).value;
              r == Reply(200, "success") && db.questions == old(db.questions)[i := Verified(old(db.questions)[i], user, now)]
  {
    if id !in QuestionIds(db.questions) {
      return Reply(404, "error");
    }
    db.VerifyQuestion(id, user, now);
    r := Reply(200, "success");
  }

  /** `QuestionVerification.delete`: 404 on an unknown id, else `unverify`. */
  method VerificationDelete(db: QuizDb, id: QuestionId) returns (r: Reply)
    requires db.Valid()
    modifies db`questions
    ensures db.Valid()
    ensures id !in QuestionIds(old(db.questions)) ==> r == Reply(404, "error") && db.questions == old(db.questions)
    ensures id in QuestionIds(old(db.questions)) ==>
              var i := QuestionIndex(old(db.questions), id).value;
              r == Reply(200, "success") && db.questions == old(db.questions)[i := Unverified(old(db.questions)[i])]
  {
    if id !in QuestionIds(db.questions) {
      return Reply(404, "error");
    }
    db.UnverifyQuestion(id);
    r := Reply(200, "success");
  }

  // ===== Statistics ==============================================================

  datatype Section =
    | QuestionSection(all: nat, verified: nat, unverified: nat)
    | DifficultySection(easy: nat, medium: nat, hard: nat)
    | CategorySection(counts: map<string, nat>)
    | UsersSection(totalUsers: nat, totalStaff: nat)
    | ActivitySection(lastCreated: Time, lastVerified: Time)

  const SectionNames: set<string> := {"category", "difficulty", "question", "users", "activity"}

  /** What the category and difficulty counters add up to. */
  lemma CountsOfSections(qs: seq<Question>, cs: seq<Category>)
    ensures CategoryCountMap(cs, qs).Keys == CategoryNames(cs)
    ensures UniqueNames(cs) ==> forall c :: c in cs ==> CategoryCountMap(cs, qs)[c.name] == CountInCategory(qs, c.id)
    ensures (forall q :: q in qs ==> q.difficulty in DifficultyChoices) ==>
              NoOfDifficulty(qs, "easy") + NoOfDifficulty(qs, "medium") + NoOfDifficulty(qs, "hard") == |qs|
  {
    CategoryCountMapKeys(cs, qs);
    if UniqueNames(cs) {
      CategoryCountMapValues(cs, qs);
    }
    if forall q :: q in qs ==> q.difficulty in DifficultyChoices {
      DifficultyCountsAddUp(qs);
    }
  }

  /** The five sections, given the two activity timestamps. */
  function Sections(qs: seq<Question>, cs: seq<Category>, us: seq<User>, created: Time, verified: Time)
    : (r: map<string, Section>)
    ensures r.Keys == SectionNames
    ensures var s := r["question"];
            && s.QuestionSection? && s.all == s.verified + s.unverified && s.all == |qs|
            && s.verified == NoOfVerifiedQuestions(qs) && s.unverified == NoOfUnverifiedQuestions(qs)
    ensures var s := r["difficulty"];
            && s.DifficultySection?
            && s.easy == NoOfDifficulty(qs, "easy") && s.medium == NoOfDifficulty(qs, "medium")
            && s.hard == NoOfDifficulty(qs, "hard")
            && ((forall q :: q in qs ==> q.difficulty in DifficultyChoices) ==> s.easy + s.medium + s.hard == |qs|)
    ensures var s := r["category"];
            && s.CategorySection? && s.counts.Keys == CategoryNames(cs)
            && (UniqueNames(cs) ==> forall c :: c in cs ==> s.counts[c.name] == CountInCategory(qs, c.id))
    ensures var s := r["users"];
            && s.UsersSection? && s.totalStaff <= s.totalUsers && s.totalUsers == |us|
            && s.totalStaff == |Positions(us, IsStaffRow)|
    ensures r["activity"] == ActivitySection(created, verified)
  {
    VerifiedPlusUnverified(qs);
    CountsOfSections(qs, cs);
    map[
      "question" := QuestionSection(NoOfAllQuestions(qs), NoOfVerifiedQuestions(qs), NoOfUnverifiedQuestions(qs)),
      "difficulty" := DifficultySection(NoOfDifficulty(qs, "easy"), NoOfDifficulty(qs, "medium"), NoOfDifficulty(qs, "hard")),
      "category" := CategorySection(CategoryCountMap(cs, qs)),
      "users" := UsersSection(TotalUser(us), TotalStaff(us)),
      "activity" := ActivitySection(created, verified)]
  }

  /** The response `StatisticsView.get` builds before selecting; `None`
      when `last_created` or `last_verified` raises because no question, or
      no verified question, exists. */
  function FullStatistics(qs: seq<Question>, cs: seq<Category>, us: seq<User>): (r: Option<map<string, Section>>)
    requires forall q :: q in qs ==> VerificationConsistent(q)
    ensures r.None? <==> LastCreated(qs).None? || LastVerified(qs).None?
    ensures r.Some? ==> r.value == Sections(qs, cs, us, LastCreated(qs).value, LastVerified(qs).value)
  {
    var created := LastCreated(qs);
    var verified := LastVerified(qs);
    if created.None? || verified.None? then None
    else Some(Sections(qs, cs, us, created.value, verified.value))
  }

  /** The statistics fail exactly when the table has no verified question
      (an empty table included). */
  lemma StatisticsFailWithoutVerified(qs: seq<Question>, cs: seq<Category>, us: seq<User>)
    requires forall q :: q in qs ==> VerificationConsistent(q)
    ensures FullStatistics(qs, cs, us).None? <==> forall q :: q in qs ==> !q.isVerified
  {
  }

  /** The `on` selector: a known section name keeps exactly that entry of the
      full response; an absent or unknown name keeps all five. */
  function Select(full: map<string, Section>, on: Option<string>): (r: map<string, Section>)
    requires full.Keys == SectionNames
    ensures on.Some? && on.value in SectionNames ==> r.Keys == {on.value} && r[on.value] == full[on.value]
    ensures on.None? || on.value !in SectionNames ==> r == full
    ensures forall k :: k in r ==> k in full && r[k] == full[k]
  {
    if on.Some? && on.value in SectionNames then map[on.value := full[on.value]] else full
  }

  /** `StatisticsView.get`: the selector applies only after every section
      was computed, so an empty table fails even for `on=users`. */
  function StatisticsGet(qs: seq<Question>, cs: seq<Category>, us: seq<User>, on: Option<string>)
    : (r: Option<map<string, Section>>)
    requires forall q :: q in qs ==> VerificationConsistent(q)
    ensures r.None? <==> FullStatistics(qs, cs, us).None?
    ensures r.Some? ==> r.value == Select(FullStatistics(qs, cs, us).value, on)
    ensures r.Some? && on.Some? && on.value in SectionNames ==> r.value.Keys == {on.value}
    ensures r.Some? && (on.None? || on.value !in SectionNames) ==> r.value.Keys == SectionNames
    ensures r.Some? && "question" in r.value ==>
              var s := r.value["question"];
              s.QuestionSection? && s.all == s.verified + s.unverified
  {
    match FullStatistics(qs, cs, us)
    case None => None
    case Some(full) => Some(Select(full, on))
  }

  /** `UserQuestionStatView.get`: 404 for an unknown user, otherwise the
      user's all / verified / unverified counts, the last two adding up to
      the first. */
  function UserQuestionStat(qs: seq<Question>, us: seq<User>, id: UserId): (r: Result<(nat, nat, nat), Reply>)
    ensures r.Err? <==> id !in UserIds(us)
    ensures r.Err? ==> r.error == Reply(404, "error")
    ensures r.Ok? ==> r.value.0 == r.value.1 + r.value.2 && r.value.0 == NumberOfQuestions(qs, id)
    ensures r.Ok? ==> r.value.1 == NumberOfVerifiedQuestions(qs, id) && r.value.2 == NumberOfUnverifiedQuestions(qs, id)
  {
    if id !in UserIds(us) then Err(Reply(404, "error"))
    else
      UserCountsAddUp(qs, id);
      Ok((NumberOfQuestions(qs, id), NumberOfVerifiedQuestions(qs, id), NumberOfUnverifiedQuestions(qs, id)))
  }
}
