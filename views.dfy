/** The server side (chat/views.py): the policy search, which narrows the stored policies
    with a chain of Django `Q` filters and shapes the first 50 of them, and the question
    endpoint, which builds its prompt from the user's recent answered questions.

    The ORM is replaced by sequences: the `Policy` table is a `seq<Policy>` in one fixed
    order the model chooses, and the `Question`/`Answer` tables are a `seq<QuestionRow>` in creation order.
    `icontains` is substring containment. */
module Views {
  import opened Wrappers
  import opened Strings
  import opened PyText
  import Buttons

  // ---- policies and the search request ----

  /** A row of the `Policy` table, with the columns the search reads or returns. The
      `age_min`/`age_max` columns may be NULL. */
  datatype Policy = Policy(
    policyId: string,
    title: string,
    description: string,
    keywords: string,
    region: string,
    maritalStatus: string,
    ageMin: Option<int>,
    ageMax: Option<int>,
    educationRequirement: string,
    majorRequirement: string,
    employmentStatus: string,
    specialization: string,
    applicationPeriod: string,
    appUrl: string)

  /** The text columns a `__icontains` lookup can name. */
  datatype Column = Title | Description | Keywords | Region | MaritalStatus
                  | EducationRequirement | MajorRequirement | EmploymentStatus | Specialization

  function ColumnValue(p: Policy, c: Column): string {
    match c
    case Title => p.title
    case Description => p.description
    case Keywords => p.keywords
    case Region => p.region
    case MaritalStatus => p.maritalStatus
    case EducationRequirement => p.educationRequirement
    case MajorRequirement => p.majorRequirement
    case EmploymentStatus => p.employmentStatus
    case Specialization => p.specialization
  }

  /** A tag parameter of the request body: a JSON list, or some other value (`isinstance(...,
      list)` fails). An absent key reads as the default `[]`. */
  datatype TagParam = Tags(items: seq<string>) | NotTags

  /** The fields `search_policy` reads from the request body (`data.get(key, default)`). */
  datatype SearchRequest = SearchRequest(
    query: string,
    excludeClosed: bool,
    region: string,
    maritalStatus: string,
    age: string,
    incomeMin: string,
    incomeMax: string,
    education: TagParam,
    major: TagParam,
    employmentStatus: TagParam,
    specialization: TagParam)

  // ---- Django Q objects ----

  datatype AgeColumn = AgeMin | AgeMax

  /** The field lookups the search uses. */
  datatype Lookup =
    | Icontains(column: Column, text: string)
    | Lte(age: AgeColumn, bound: int)
    | Gte(age: AgeColumn, bound: int)
    | IsNull(age: AgeColumn)
    | Exact(age: AgeColumn, bound: int)

  /** A `Q` object: `Q()` (no condition), one lookup, or a combination with `|` or `&`. */
  datatype Q = NoCondition | Leaf(lookup: Lookup) | Or(left: Q, right: Q) | And(left: Q, right: Q)

  function AgeValue(p: Policy, a: AgeColumn): Option<int> {
    match a
    case AgeMin => p.ageMin
    case AgeMax => p.ageMax
  }

  /** SQL semantics of a lookup: a comparison with NULL is false. */
  predicate Holds(l: Lookup, p: Policy) {
    match l
    case Icontains(c, t) => Contains(ColumnValue(p, c), t)
    case Lte(a, n) => AgeValue(p, a).Some? && AgeValue(p, a).value <= n
    case Gte(a, n) => AgeValue(p, a).Some? && AgeValue(p, a).value >= n
    case IsNull(a) => AgeValue(p, a).None?
    case Exact(a, n) => AgeValue(p, a) == Some(n)
  }

  /** Whether `policies.filter(q)` keeps `p`; `Q()` keeps everything. */
  predicate Eval(q: Q, p: Policy) {
    match q
    case NoCondition => true
    case Leaf(l) => Holds(l, p)
    case Or(a, b) => Eval(a, p) || Eval(b, p)
    case And(a, b) => Eval(a, p) && Eval(b, p)
  }

  /** `a | b`: combining with an empty `Q()` yields the other operand. */
  function QOr(a: Q, b: Q): (r: Q)
    ensures a.NoCondition? ==> r == b
    ensures b.NoCondition? ==> r == a
    ensures !a.NoCondition? && !b.NoCondition? ==> forall p :: Eval(r, p) <==> Eval(a, p) || Eval(b, p)
  {
    if a.NoCondition? then b else if b.NoCondition? then a else Or(a, b)
  }

  /** `a & b`, with the same rule for an empty operand. */
  function QAnd(a: Q, b: Q): (r: Q)
    ensures forall p :: Eval(r, p) <==> Eval(a, p) && Eval(b, p)
  {
    if a.NoCondition? then b else if b.NoCondition? then a else And(a, b)
  }

  /** `policies.filter(q)`: the policies `q` keeps, in their order. */
  function Filter(s: seq<Policy>, q: Q): (r: seq<Policy>)
    ensures |r| <= |s|
  {
    if s == [] then [] else (if Eval(q, s[0]) then [s[0]] else []) + Filter(s[1..], q)
  }

  lemma {:induction false} FilterAppend(a: seq<Policy>, b: seq<Policy>, q: Q)
    ensures Filter(a + b, q) == Filter(a, q) + Filter(b, q)
    decreases |a|
  {
    if a == [] {
      assert a + b == b;
    } else {
      var c := a[1..] + b;
      assert a + b == [a[0]] + c;
      FilterCons(a[0], c, q);
      FilterCons(a[0], a[1..], q);
      assert [a[0]] + a[1..] == a;
      FilterAppend(a[1..], b, q);
    }
  }

  lemma FilterCons(x: Policy, s: seq<Policy>, q: Q)
    ensures Filter([x] + s, q) == (if Eval(q, x) then [x] else []) + Filter(s, q)
  {
    assert ([x] + s)[0] == x && ([x] + s)[1..] == s;
  }

  // ---- the search criteria, each stated directly ----

  /** `region_map`: the codes the server translates to the Korean region name. */
  const RegionMap: map<string, string> := map[
    "seoul" := "서울", "busan" := "부산", "daegu" := "대구",
    "incheon" := "인천", "gwangju" := "광주", "daejeon" := "대전",
    "ulsan" := "울산", "sejong" := "세종", "gyeonggi" := "경기"]

  /** `region_map.get(region, region)`: a code without an entry is used as it is. */
  function RegionName(code: string): (r: string)
    ensures code in RegionMap ==> r == RegionMap[code]
    ensures code !in RegionMap ==> r == code
  {
    if code in RegionMap then RegionMap[code] else code
  }

  const Single := "single"
  const Married := "married"
  const Unmarried := "미혼"
  const IsMarried := "기혼"

  /** (1) A non-empty query must occur in the title, the description or the keywords. */
  predicate QueryOk(query: string, p: Policy) {
    query == "" || Contains(p.title, query) || Contains(p.description, query)
    || Contains(p.keywords, query)
  }

  /** (2) A non-empty region code asks for the region column to contain its name. */
  predicate RegionOk(region: string, p: Policy) {
    region == "" || Contains(p.region, RegionName(region))
  }

  /** (3) 'single' and 'married' keep the policies open to that status or unrestricted;
      any other value does not filter. */
  predicate MaritalOk(status: string, p: Policy) {
    if status == Single then Contains(p.maritalStatus, Unmarried) || Contains(p.maritalStatus, Buttons.NoLimit)
    else if status == Married then Contains(p.maritalStatus, IsMarried) || Contains(p.maritalStatus, Buttons.NoLimit)
    else true
  }

  /** A bound that is NULL or 0 does not restrict. */
  predicate LowerOk(bound: Option<int>, age: int) {
    bound.None? || bound.value == 0 || bound.value <= age
  }

  predicate UpperOk(bound: Option<int>, age: int) {
    bound.None? || bound.value == 0 || bound.value >= age
  }

  /** (4) An age that `int()` accepts must lie within the policy's bounds; an empty or
      malformed age does not filter. */
  predicate AgeOk(age: string, p: Policy) {
    var n := ParseInt(age);
    age == "" || n.None? || (LowerOk(p.ageMin, n.value) && UpperOk(p.ageMax, n.value))
  }

  /** Whether a tag parameter filters: a non-empty list without '제한없음'. */
  predicate TagFilterApplies(t: TagParam) {
    t.Tags? && t.items != [] && Buttons.NoLimit !in t.items
  }

  /** (5)-(8) A tag list that filters asks the column to contain at least one of its tags. */
  predicate TagOk(t: TagParam, c: Column, p: Policy) {
    !TagFilterApplies(t) || exists i :: 0 <= i < |t.items| && Contains(ColumnValue(p, c), t.items[i])
  }

  /** A policy the search keeps: every criterion holds. */
  predicate Matches(req: SearchRequest, p: Policy) {
    && QueryOk(req.query, p)
    && RegionOk(req.region, p)
    && MaritalOk(req.maritalStatus, p)
    && AgeOk(req.age, p)
    && TagOk(req.education, EducationRequirement, p)
    && TagOk(req.major, MajorRequirement, p)
    && TagOk(req.employmentStatus, EmploymentStatus, p)
    && TagOk(req.specialization, Specialization, p)
  }

  /** The criteria in the order the filters are applied. */
  predicate Criterion(req: SearchRequest, k: nat, p: Policy) {
    if k == 0 then QueryOk(req.query, p)
    else if k == 1 then RegionOk(req.region, p)
    else if k == 2 then MaritalOk(req.maritalStatus, p)
    else if k == 3 then AgeOk(req.age, p)
    else if k < 8 then TagOk(TagParamAt(req, k), TagColumnAt(k), p)
    else true
  }

  function TagParamAt(req: SearchRequest, k: nat): TagParam {
    if k == 4 then req.education
    else if k == 5 then req.major
    else if k == 6 then req.employmentStatus
    else req.specialization
  }

  function TagColumnAt(k: nat): Column {
    if k == 4 then EducationRequirement
    else if k == 5 then MajorRequirement
    else if k == 6 then EmploymentStatus
    else Specialization
  }

  const CriteriaCount := 8

  /** Whether `p` passes the first `k` criteria. */
  predicate PassesFirst(req: SearchRequest, k: nat, p: Policy) {
    forall j: nat :: j < k ==> Criterion(req, j, p)
  }

  /** The policies of `s` that pass the first `k` criteria, in their order. */
  function Select(s: seq<Policy>, req: SearchRequest, k: nat): (r: seq<Policy>)
    ensures |r| <= |s|
  {
    if s == [] then [] else (if PassesFirst(req, k, s[0]) then [s[0]] else []) + Select(s[1..], req, k)
  }

  /** The policies the search keeps, in the table's order. */
  function Matching(all: seq<Policy>, req: SearchRequest): seq<Policy> {
    Select(all, req, CriteriaCount)
  }

  lemma PassesAllIffMatches(req: SearchRequest, p: Policy)
    ensures PassesFirst(req, CriteriaCount, p) <==> Matches(req, p)
  {
    if Matches(req, p) {
      forall j: nat | j < CriteriaCount ensures Criterion(req, j, p) {
      }
    } else {
      assert !Criterion(req, 0, p) || !Criterion(req, 1, p) || !Criterion(req, 2, p)
          || !Criterion(req, 3, p) || !Criterion(req, 4, p) || !Criterion(req, 5, p)
          || !Criterion(req, 6, p) || !Criterion(req, 7, p);
    }
  }

  lemma {:induction false} SelectNone(s: seq<Policy>, req: SearchRequest)
    ensures Select(s, req, 0) == s
  {
    if s != [] {
      SelectNone(s[1..], req);
    }
  }

  lemma {:induction false} SelectAppend(a: seq<Policy>, b: seq<Policy>, req: SearchRequest, k: nat)
    ensures Select(a + b, req, k) == Select(a, req, k) + Select(b, req, k)
  {
    if a == [] {
      assert a + b == b;
    } else {
      var head := if PassesFirst(req, k, a[0]) then [a[0]] else [];
      assert (a + b)[0] == a[0] && (a + b)[1..] == a[1..] + b;
      assert Select(a + b, req, k) == head + Select(a[1..] + b, req, k);
      SelectAppend(a[1..], b, req, k);
    }
  }

  /** Filtering the policies that passed `k` criteria with a `Q` that expresses criterion
      `k` gives the policies that pass `k + 1`. */
  lemma {:induction false} FilterStage(s: seq<Policy>, req: SearchRequest, k: nat, q: Q)
    requires forall p :: Eval(q, p) == Criterion(req, k, p)
    ensures Filter(Select(s, req, k), q) == Select(s, req, k + 1)
  {
    if s != [] {
      var head := if PassesFirst(req, k, s[0]) then [s[0]] else [];
      FilterStage(s[1..], req, k, q);
      FilterAppend(head, Select(s[1..], req, k), q);
      assert PassesFirst(req, k + 1, s[0]) <==> PassesFirst(req, k, s[0]) && Criterion(req, k, s[0]);
      if head != [] {
        assert head[1..] == [];
      }
    }
  }

  /** A criterion every policy meets filters nothing. */
  lemma {:induction false} SkipStage(s: seq<Policy>, req: SearchRequest, k: nat)
    requires forall p :: Criterion(req, k, p)
    ensures Select(s, req, k) == Select(s, req, k + 1)
  {
    if s != [] {
      SkipStage(s[1..], req, k);
      assert PassesFirst(req, k + 1, s[0]) <==> PassesFirst(req, k, s[0]);
    }
  }

  // ---- the properties of the search ----

  /** A policy is in the result exactly when it is stored and meets every criterion. */
  lemma {:induction false} MatchingIff(all: seq<Policy>, req: SearchRequest, p: Policy)
    ensures p in Matching(all, req) <==> p in all && Matches(req, p)
  {
    PassesAllIffMatches(req, p);
    if all != [] {
      MatchingIff(all[1..], req, p);
      assert p in all <==> p == all[0] || p in all[1..];
      PassesAllIffMatches(req, all[0]);
    }
  }

  /** In the model's fixed order, the result over a concatenation is the concatenation of
      the results. */
  lemma MatchingAppend(a: seq<Policy>, b: seq<Policy>, req: SearchRequest)
    ensures Matching(a + b, req) == Matching(a, req) + Matching(b, req)
  {
    SelectAppend(a, b, req, CriteriaCount);
  }

  /** A request that names no criterion, or whose tag lists hold '제한없음', keeps every
      policy. */
  lemma {:induction false} OpenRequestKeepsAll(all: seq<Policy>, req: SearchRequest)
    requires req.query == "" && req.region == "" && req.age == ""
    requires req.maritalStatus != Single && req.maritalStatus != Married
    requires !TagFilterApplies(req.education) && !TagFilterApplies(req.major)
    requires !TagFilterApplies(req.employmentStatus) && !TagFilterApplies(req.specialization)
    ensures Matching(all, req) == all
  {
    if all != [] {
      OpenRequestKeepsAll(all[1..], req);
      PassesAllIffMatches(req, all[0]);
    }
  }

  /** A policy open to either marital status is found for 'single' and for 'married'. */
  lemma UnrestrictedMaritalStatus(p: Policy)
    requires p.maritalStatus == Buttons.NoLimit
    ensures MaritalOk(Single, p) && MaritalOk(Married, p)
  {
    ContainsSelfAndEmpty(p.maritalStatus);
  }

  /** The age a browser number field sends is compared against the bounds as a number. */
  lemma AgeOkOfNumeral(n: nat, p: Policy)
    ensures AgeOk(NatToString(n), p) <==> LowerOk(p.ageMin, n) && UpperOk(p.ageMax, n)
  {
    ParseIntOfNatToString(n);
  }

  /** A tag list holding '제한없음' does not filter, whatever else it holds. */
  lemma NoLimitTagBypasses(items: seq<string>, c: Column, p: Policy)
    requires Buttons.NoLimit in items
    ensures TagOk(Tags(items), c, p)
  {
  }

  // ---- the filter chain of search_policy ----

  /** (1) the query filter. */
  method QueryStage(ghost all: seq<Policy>, req: SearchRequest, policies: seq<Policy>) returns (r: seq<Policy>)
    requires policies == Select(all, req, 0)
    ensures r == Select(all, req, 1)
  {
    if req.query != "" {
      var q := QOr(QOr(Leaf(Icontains(Title, req.query)), Leaf(Icontains(Description, req.query))),
                   Leaf(Icontains(Keywords, req.query)));
      FilterStage(all, req, 0, q);
      r := Filter(policies, q);
    } else {
      SkipStage(all, req, 0);
      r := policies;
    }
  }

  /** (2) the region filter. */
  method RegionStage(ghost all: seq<Policy>, req: SearchRequest, policies: seq<Policy>) returns (r: seq<Policy>)
    requires policies == Select(all, req, 1)
    ensures r == Select(all, req, 2)
  {
    if req.region != "" {
      var name := RegionName(req.region);
      var q := Leaf(Icontains(Region, name));
      FilterStage(all, req, 1, q);
      r := Filter(policies, q);
    } else {
      SkipStage(all, req, 1);
      r := policies;
    }
  }

  /** (3) the marital-status filter. */
  method MaritalStage(ghost all: seq<Policy>, req: SearchRequest, policies: seq<Policy>) returns (r: seq<Policy>)
    requires policies == Select(all, req, 2)
    ensures r == Select(all, req, 3)
  {
    r := policies;
    if req.maritalStatus != "" {
      if req.maritalStatus == Single {
        var q := QOr(Leaf(Icontains(MaritalStatus, Unmarried)), Leaf(Icontains(MaritalStatus, Buttons.NoLimit)));
        FilterStage(all, req, 2, q);
        r := Filter(policies, q);
        return;
      } else if req.maritalStatus == Married {
        var q := QOr(Leaf(Icontains(MaritalStatus, IsMarried)), Leaf(Icontains(MaritalStatus, Buttons.NoLimit)));
        FilterStage(all, req, 2, q);
        r := Filter(policies, q);
        return;
      }
    }
    SkipStage(all, req, 2);
  }

  /** (4) the age filter; a `ValueError` from `int()` skips it. */
  method AgeStage(ghost all: seq<Policy>, req: SearchRequest, policies: seq<Policy>) returns (r: seq<Policy>)
    requires policies == Select(all, req, 3)
    ensures r == Select(all, req, 4)
  {
    r := policies;
    if req.age != "" {
      var parsed := ParseInt(req.age);
      if parsed.Some? {
        var age := parsed.value;
        var q := QAnd(QOr(QOr(Leaf(Lte(AgeMin, age)), Leaf(IsNull(AgeMin))), Leaf(Exact(AgeMin, 0))),
                      QOr(QOr(Leaf(Gte(AgeMax, age)), Leaf(IsNull(AgeMax))), Leaf(Exact(AgeMax, 0))));
        forall p ensures Eval(q, p) == Criterion(req, 3, p) {
          assert Criterion(req, 3, p) == (LowerOk(p.ageMin, age) && UpperOk(p.ageMax, age));
        }
        FilterStage(all, req, 3, q);
        r := Filter(policies, q);
        return;
      }
    }
    SkipStage(all, req, 3);
  }

  /** `q = Q()` followed by `q |= Q(column__icontains=tag)` for every tag. */
  method AnyContains(c: Column, tags: seq<string>) returns (q: Q)
    ensures tags == [] ==> q == NoCondition
    ensures tags != [] ==>
      forall p :: Eval(q, p) <==> exists i :: 0 <= i < |tags| && Contains(ColumnValue(p, c), tags[i])
  {
    q := NoCondition;
    var i := 0;
    while i < |tags|
      invariant 0 <= i <= |tags|
      invariant i == 0 ==> q == NoCondition
      invariant i > 0 ==> !q.NoCondition?
      invariant i > 0 ==>
        forall p :: Eval(q, p) <==> exists j :: 0 <= j < i && Contains(ColumnValue(p, c), tags[j])
    {
      q := QOr(q, Leaf(Icontains(c, tags[i])));
      i := i + 1;
    }
  }

  /** (5)-(8) a tag filter, the same block for each of the four lists. */
  method TagStage(ghost all: seq<Policy>, req: SearchRequest, k: nat, policies: seq<Policy>) returns (r: seq<Policy>)
    requires 4 <= k < CriteriaCount && policies == Select(all, req, k)
    ensures r == Select(all, req, k + 1)
  {
    var t := TagParamAt(req, k);
    if t.Tags? && t.items != [] && Buttons.NoLimit !in t.items {
      var q := AnyContains(TagColumnAt(k), t.items);
      FilterStage(all, req, k, q);
      r := Filter(policies, q);
    } else {
      SkipStage(all, req, k);
      r := policies;
    }
  }

  /** One element of the response's `results`. */
  datatype PolicySummary = PolicySummary(
    id: string, title: string, description: string, region: string, period: string, url: string)

  const SummaryLength := 100
  const ResultLimit := 50

  /** The shape of a result: the description cut to its first 100 characters and marked
      with '...', or empty when the policy has none. */
  function Summarize(p: Policy): (r: PolicySummary)
    ensures r.id == p.policyId && r.title == p.title && r.region == p.region
    ensures r.period == p.applicationPeriod && r.url == p.appUrl
    ensures p.description == "" ==> r.description == ""
    ensures p.description != "" ==>
      var n := |r.description| - 3;
      && 0 < n <= SummaryLength && n <= |p.description| && r.description[n..] == "..."
      && r.description[..n] == p.description[..n]
      && (n < SummaryLength ==> n == |p.description|)
  {
    var d := if p.description != "" then Take(p.description, SummaryLength) + "..." else "";
    PolicySummary(p.policyId, p.title, d, p.region, p.applicationPeriod, p.appUrl)
  }

  /** `search_policy` on a well-formed request: the filters in order, then the summaries
      of the first 50 policies left, and their number. */
  method SearchPolicy(all: seq<Policy>, req: SearchRequest) returns (count: nat, results: seq<PolicySummary>)
    ensures count == |results|
    ensures |results| == if |Matching(all, req)| < ResultLimit then |Matching(all, req)| else ResultLimit
    ensures forall i :: 0 <= i < |results| ==> results[i] == Summarize(Matching(all, req)[i])
  {
    SelectNone(all, req);
    var policies := all;
    policies := QueryStage(all, req, policies);
    policies := RegionStage(all, req, policies);
    policies := MaritalStage(all, req, policies);
    policies := AgeStage(all, req, policies);
    policies := TagStage(all, req, 4, policies);
    policies := TagStage(all, req, 5, policies);
    policies := TagStage(all, req, 6, policies);
    policies := TagStage(all, req, 7, policies);
    results := SummarizeAll(Take(policies, ResultLimit));
    count := |results|;
  }

  /** The loop that appends one summary per policy shown. */
  method SummarizeAll(shown: seq<Policy>) returns (results: seq<PolicySummary>)
    ensures |results| == |shown|
    ensures forall i :: 0 <= i < |shown| ==> results[i] == Summarize(shown[i])
  {
    results := [];
    var i := 0;
    while i < |shown|
      invariant 0 <= i <= |shown|
      invariant |results| == i
      invariant forall j :: 0 <= j < i ==> results[j] == Summarize(shown[j])
    {
      results := results + [Summarize(shown[i])];
      i := i + 1;
    }
  }

  // ---- questions, answers and the prompt ----

  /** A `Question` row with its `Answer`, if one exists, in creation order. */
  datatype QuestionRow = QuestionRow(user: nat, content: string, answer: Option<string>)

  /** One element of the `get_recent_conversations` list. */
  datatype Conversation = Conversation(question: string, answer: string)

  /** The questions of `user`, oldest first. */
  function OfUser(store: seq<QuestionRow>, user: nat): (r: seq<QuestionRow>)
    ensures forall q :: q in r ==> q in store && q.user == user
  {
    if store == [] then []
    else OfUser(store[..|store| - 1], user)
         + (if store[|store| - 1].user == user then [store[|store| - 1]] else [])
  }

  function Reverse<T>(s: seq<T>): (r: seq<T>)
    ensures |r| == |s|
    ensures forall i :: 0 <= i < |s| ==> r[i] == s[|s| - 1 - i]
  {
    if s == [] then [] else Reverse(s[1..]) + [s[0]]
  }

  /** The last `n` elements of `s` (all of them when there are fewer). */
  function Latest<T>(s: seq<T>, n: nat): (r: seq<T>)
    ensures |r| == if |s| < n then |s| else n
  {
    if |s| < n then s else s[|s| - n..]
  }

  /** `Question.objects.filter(user=user).order_by("-createdAt")[:limit]`. */
  function NewestFirst(store: seq<QuestionRow>, user: nat, limit: nat): seq<QuestionRow> {
    Take(Reverse(OfUser(store, user)), limit)
  }

  /** The answered questions of `rows`, in order, as conversations. */
  function Answered(rows: seq<QuestionRow>): (r: seq<Conversation>)
    ensures |r| <= |rows|
  {
    if rows == [] then []
    else Answered(rows[..|rows| - 1])
         + (var q := rows[|rows| - 1]; if q.answer.Some? then [Conversation(q.content, q.answer.value)] else [])
  }

  lemma {:induction false} AnsweredAppend(a: seq<QuestionRow>, b: seq<QuestionRow>)
    ensures Answered(a + b) == Answered(a) + Answered(b)
  {
    if b == [] {
      assert a + b == a;
    } else {
      assert (a + b)[..|a + b| - 1] == a + b[..|b| - 1];
      AnsweredAppend(a, b[..|b| - 1]);
    }
  }

  /** Reversing the `limit` newest of a list gives its `limit` latest, oldest first. */
  lemma ReverseNewest<T>(s: seq<T>, n: nat)
    ensures Reverse(Take(Reverse(s), n)) == Latest(s, n)
  {
    var t := Take(Reverse(s), n);
    var r := Reverse(t);
    var l := Latest(s, n);
    assert |r| == |l|;
    forall i | 0 <= i < |r| ensures r[i] == l[i] {
      assert r[i] == t[|t| - 1 - i];
    }
  }

  /** `get_recent_conversations(user, limit)`: the `limit` newest questions of the user,
      walked oldest first, with the unanswered ones skipped. */
  method GetRecentConversations(store: seq<QuestionRow>, user: nat, limit: nat) returns (convs: seq<Conversation>)
    ensures convs == Answered(Latest(OfUser(store, user), limit))
  {
    var questions := NewestFirst(store, user, limit);
    convs := [];
    var i := |questions|;
    while i > 0
      invariant 0 <= i <= |questions|
      invariant convs == Answered(Reverse(questions[i..]))
    {
      i := i - 1;
      var q := questions[i];
      assert questions[i..] == [q] + questions[i + 1..];
      AnsweredAppend(Reverse(questions[i + 1..]), [q]);
      if q.answer.Some? {
        convs := convs + [Conversation(q.content, q.answer.value)];
      }
    }
    assert questions[0..] == questions;
    ReverseNewest(OfUser(store, user), limit);
  }

  /** At most `limit` conversations come back; when every question of the user was
      answered, exactly the `limit` latest (or all, when there are fewer). */
  lemma RecentCount(store: seq<QuestionRow>, user: nat, limit: nat)
    ensures |Answered(Latest(OfUser(store, user), limit))| <= limit
    ensures (forall q :: q in OfUser(store, user) ==> q.answer.Some?) ==>
      |Answered(Latest(OfUser(store, user), limit))| == |Latest(OfUser(store, user), limit)|
  {
    var l := Latest(OfUser(store, user), limit);
    if forall q :: q in OfUser(store, user) ==> q.answer.Some? {
      assert forall q :: q in l ==> q in OfUser(store, user);
      AllAnsweredCount(l);
    }
  }

  lemma {:induction false} AllAnsweredCount(rows: seq<QuestionRow>)
    requires forall q :: q in rows ==> q.answer.Some?
    ensures |Answered(rows)| == |rows|
  {
    if rows != [] {
      assert forall q :: q in rows[..|rows| - 1] ==> q in rows;
      assert rows[|rows| - 1] in rows;
      AllAnsweredCount(rows[..|rows| - 1]);
    }
  }

  /** One previous conversation in the prompt. */
  function Turn(c: Conversation): string {
    "Q: " + c.question + "\n" + "A: " + c.answer + "\n\n"
  }

  /** The previous conversations in the prompt, in order. */
  function History(convs: seq<Conversation>): string {
    if convs == [] then "" else History(convs[..|convs| - 1]) + Turn(convs[|convs| - 1])
  }

  /** The prompt: the history, then the new question awaiting its answer. */
  function Prompt(convs: seq<Conversation>, content: string): string {
    History(convs) + "Q: " + content + "\nA:"
  }

  lemma {:induction false} HistoryAppend(a: seq<Conversation>, b: seq<Conversation>)
    ensures History(a + b) == History(a) + History(b)
  {
    if b == [] {
      assert a + b == a;
    } else {
      assert (a + b)[..|a + b| - 1] == a + b[..|b| - 1];
      HistoryAppend(a, b[..|b| - 1]);
    }
  }

  /** The prompt-building loop of `ask_question`. */
  method BuildPrompt(convs: seq<Conversation>, content: string) returns (prompt: string)
    ensures prompt == Prompt(convs, content)
  {
    prompt := "";
    var i := 0;
    while i < |convs|
      invariant 0 <= i <= |convs|
      invariant prompt == History(convs[..i])
    {
      assert convs[..i + 1][..i] == convs[..i];
      prompt := prompt + "Q: " + convs[i].question + "\n";
      prompt := prompt + "A: " + convs[i].answer + "\n\n";
      i := i + 1;
    }
    assert convs[..i] == convs;
    prompt := prompt + "Q: " + content + "\nA:";
  }

  /** The prompt ends with the new question and begins with the previous conversations. */
  lemma PromptShape(convs: seq<Conversation>, content: string)
    ensures IsPrefix(History(convs), Prompt(convs, content))
    ensures var p := Prompt(convs, content); var tail := "Q: " + content + "\nA:";
      |p| >= |tail| && p[|p| - |tail|..] == tail
  {
    var p := Prompt(convs, content);
    assert p == History(convs) + ("Q: " + content + "\nA:");
  }

  const NoQuestion := "질문이 없습니다."
  const HistoryLimit := 3

  /** The response of `ask_question`: the question and its answer, or an error status. */
  datatype AskResult = Asked(question: string, answer: string) | AskError(status: nat, message: string)

  /** `ask_question` for user `user`, with `content` the `question` form field (None when
      it is absent) and `rag` the answering pipeline. The new question and its answer are
      stored after the answer is produced. */
  method AskQuestion(store: seq<QuestionRow>, user: nat, content: Option<string>, rag: string -> string)
    returns (result: AskResult, stored: seq<QuestionRow>)
    ensures content.None? || content.value == "" ==> result == AskError(400, NoQuestion) && stored == store
    ensures content.Some? && content.value != "" ==>
      var prompt := Prompt(Answered(Latest(OfUser(store, user), HistoryLimit)), content.value);
      && result == Asked(content.value, rag(prompt))
      && stored == store + [QuestionRow(user, content.value, Some(rag(prompt)))]
  {
    if content.None? || content.value == "" {
      return AskError(400, NoQuestion), store;
    }
    var previous := GetRecentConversations(store, user, HistoryLimit);
    var prompt := BuildPrompt(previous, content.value);
    var answer := rag(prompt);
    stored := store + [QuestionRow(user, content.value, Some(answer))];
    result := Asked(content.value, answer);
  }

  /** An answered question is the last conversation of the user's next prompt. */
  lemma AskedIsRemembered(store: seq<QuestionRow>, user: nat, content: string, answer: string)
    ensures var next := store + [QuestionRow(user, content, Some(answer))];
      var h := Answered(Latest(OfUser(next, user), HistoryLimit));
      h != [] && h[|h| - 1] == Conversation(content, answer)
  {
    var row := QuestionRow(user, content, Some(answer));
    var next := store + [row];
    assert next[..|next| - 1] == store;
    var mine := OfUser(next, user);
    assert mine == OfUser(store, user) + [row];
    var l := Latest(mine, HistoryLimit);
    assert l[|l| - 1] == row;
    assert l == l[..|l| - 1] + [row];
    AnsweredAppend(l[..|l| - 1], [row]);
    assert Answered([row]) == [Conversation(content, answer)];
  }
}
