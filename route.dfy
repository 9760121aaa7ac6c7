/**
 * The `POST /api/recommend` handler: normalises a loosely typed request body,
 * runs the three-stage filter cascade over the catalog and asks an optional
 * text generator for an explanation, falling back to a fixed text.
 */
module Route {
  import opened Wrappers
  import opened Js
  import opened Ranking

  /** The decoded JSON body; a field that is absent is `Undefined`. */
  datatype Body = Body(
    providers: JsValue,
    genre: JsValue,
    minYear: JsValue,
    minRating: JsValue,
    mood: JsValue)

  /** The request after normalisation. */
  datatype Request = Request(
    providers: seq<JsValue>,
    genre: Option<JsValue>,
    minYear: real,
    minRating: real,
    mood: string)

  /** What the handler throws before answering. */
  datatype HandlerError =
    /** `body.mood?.trim()` on a mood that is neither nullish nor a string: `trim` is not a function. */
    | MoodNotString

  datatype Response = Response(items: seq<Movie>, explanation: string)

  /** The shape every normalised request has: a present genre is a truthy value other than "Any", and the mood is trimmed. */
  predicate WellFormed(req: Request) {
    && (req.genre.Some? ==> Truthy(req.genre.value) && req.genre.value != Str("Any"))
    && Trim(req.mood) == req.mood
  }

  /** `Array.isArray(v) ? v : []` */
  function ProvidersOf(v: JsValue): (r: seq<JsValue>)
    ensures !v.Arr? ==> r == []
    ensures v.Arr? ==> r == v.elems
  {
    if v.Arr? then v.elems else []
  }

  /** `v && v !== "Any" ? v : null`: a falsy genre or the "Any" sentinel means no genre. */
  function GenreOf(v: JsValue): (r: Option<JsValue>)
    ensures r.None? <==> !Truthy(v) || v == Str("Any")
    ensures r.Some? ==> r.value == v
  {
    if Truthy(v) && v != Str("Any") then Some(v) else None
  }

  /** `typeof v === "number" ? v : 0` */
  function NumberOr0(v: JsValue): (r: real)
    ensures !v.Num? ==> r == 0.0
    ensures v.Num? ==> r == v.n
  {
    if v.Num? then v.n else 0.0
  }

  /**
   * `v?.trim() || ""`: a nullish mood is "", a string mood is trimmed, and any
   * other value throws because it has no `trim` method.
   */
  function MoodOf(v: JsValue): (r: Result<string, HandlerError>)
    ensures r.Failure? <==> !Nullish(v) && !v.Str?
    ensures r.Success? ==> Trim(r.value) == r.value
    ensures Nullish(v) ==> r == Success("")
    ensures v.Str? ==> r == Success(Trim(v.s))
  {
    match v
    case Undefined => Success("")
    case Null => Success("")
    case Str(s) => TrimIdempotent(s); Success(Trim(s))
    case _ => Failure(MoodNotString)
  }

  /** Field normalisation; it throws exactly when the mood cannot be trimmed. */
  function Normalize(body: Body): (r: Result<Request, HandlerError>)
    ensures r.Failure? <==> MoodOf(body.mood).Failure?
    ensures r.Success? ==> WellFormed(r.value)
  {
    match MoodOf(body.mood)
    case Failure(e) => Failure(e)
    case Success(mood) =>
      Success(Request(ProvidersOf(body.providers), GenreOf(body.genre),
                      NumberOr0(body.minYear), NumberOr0(body.minRating), mood))
  }

  /** The body a well-formed request is sent as. */
  function Encode(req: Request): Body {
    Body(Arr(req.providers), req.genre.GetOr(Null), Num(req.minYear), Num(req.minRating), Str(req.mood))
  }

  /** Normalisation loses nothing of a well-formed request: it reads back the request it was sent. */
  lemma NormalizeEncode(req: Request)
    requires WellFormed(req)
    ensures Normalize(Encode(req)) == Success(req)
  {
  }

  /** Normalising is idempotent: a normalised request, sent again, normalises to itself. */
  lemma NormalizeIdempotent(body: Body)
    requires Normalize(body).Success?
    ensures Normalize(Encode(Normalize(body).value)) == Normalize(body)
  {
    NormalizeEncode(Normalize(body).value);
  }

  // ---------------------------------------------------------------------------
  // Filter cascade

  /** `m.providers.some((p) => providers.includes(p))` */
  predicate SharesProvider(m: Movie, providers: seq<JsValue>): (b: bool)
    ensures b ==> |providers| > 0 && |m.providers| > 0
  {
    exists p :: p in m.providers && Str(p) in providers
  }

  /** The four chained filters of the strict stage. */
  predicate MatchesStrict(req: Request, m: Movie): (b: bool)
    // every strict match is also a candidate of the provider-only fallback
    ensures b && |req.providers| > 0 ==> SharesProvider(m, req.providers)
    // a genre that is not a string is never among a film's genres
    ensures b && req.genre.Some? ==> req.genre.value.Str?
  {
    && (|req.providers| == 0 || SharesProvider(m, req.providers))
    && (req.genre.None? || (req.genre.value.Str? && req.genre.value.s in m.genres))
    && m.year as real >= req.minYear
    && m.rating >= req.minRating
  }

  /** The filter a stage applies to the catalog. */
  datatype Criterion = Strict(req: Request) | OnProviders(providers: seq<JsValue>)

  predicate Keeps(c: Criterion, m: Movie) {
    match c
    case Strict(req) => MatchesStrict(req, m)
    case OnProviders(providers) => SharesProvider(m, providers)
  }

  /** `s.filter(...)`: the entries the criterion keeps, in catalog order. */
  function Select(s: seq<Movie>, c: Criterion): (r: seq<Movie>)
    ensures |r| <= |s|
    ensures forall x :: x in r <==> x in s && Keeps(c, x)
  {
    if s == [] then []
    else
      var front, last := s[..|s| - 1], s[|s| - 1];
      assert s == front + [last];
      Select(front, c) + (if Keeps(c, last) then [last] else [])
  }

  /** Stage 1 (strict): every filter applies; the nine best-rated matches. */
  function Stage1(catalog: seq<Movie>, req: Request): (r: seq<Movie>)
    ensures |r| <= 9
    ensures SortedByRating(r)
    ensures forall x :: x in r ==> x in catalog && MatchesStrict(req, x)
  {
    TopRated(Select(catalog, Strict(req)), 9)
  }

  /** Stage 2 (provider-only fallback): the six best-rated entries on a requested provider. */
  function Stage2(catalog: seq<Movie>, providers: seq<JsValue>): (r: seq<Movie>)
    ensures |r| <= 6
    ensures SortedByRating(r)
    ensures forall x :: x in r ==> x in catalog && SharesProvider(x, providers)
  {
    TopRated(Select(catalog, OnProviders(providers)), 6)
  }

  /** Stage 3 (global fallback): the six best-rated entries of the whole catalog. */
  function Stage3(catalog: seq<Movie>): (r: seq<Movie>)
    ensures |r| <= 6 && (|r| == 0 <==> |catalog| == 0)
    ensures SortedByRating(r)
  {
    TopRated(catalog, 6)
  }

  datatype Stage = StrictMatch | ProviderFallback | TopRatedFallback

  /** Which stage supplies the answer. */
  function FiringStage(catalog: seq<Movie>, req: Request): (st: Stage)
    ensures st == StrictMatch <==> |Stage1(catalog, req)| > 0
    ensures st == ProviderFallback <==> |Stage1(catalog, req)| == 0 && |req.providers| > 0 && |Stage2(catalog, req.providers)| > 0
  {
    if |Stage1(catalog, req)| > 0 then StrictMatch
    else if |req.providers| > 0 && |Stage2(catalog, req.providers)| > 0 then ProviderFallback
    else TopRatedFallback
  }

  /** The `items` the handler answers with. */
  function Items(catalog: seq<Movie>, req: Request): (r: seq<Movie>)
    ensures |r| <= 9 && SortedByRating(r)
    ensures forall x :: x in r ==> x in catalog
    ensures |r| == 0 <==> |catalog| == 0
  {
    match FiringStage(catalog, req)
    case StrictMatch => Stage1(catalog, req)
    case ProviderFallback => Stage2(catalog, req.providers)
    case TopRatedFallback => Stage3(catalog)
  }

  /**
   * The cascade: the strict stage answers whenever it finds anything; the
   * provider fallback only when it found nothing and providers were requested;
   * the global top six otherwise. The two fallbacks return at most six entries.
   */
  lemma CascadeOrder(catalog: seq<Movie>, req: Request)
    ensures |Stage1(catalog, req)| > 0 ==> Items(catalog, req) == Stage1(catalog, req)
    ensures |Stage1(catalog, req)| == 0 && |req.providers| > 0 && |Stage2(catalog, req.providers)| > 0
            ==> Items(catalog, req) == Stage2(catalog, req.providers)
    ensures |Stage1(catalog, req)| == 0 && (|req.providers| == 0 || |Stage2(catalog, req.providers)| == 0)
            ==> Items(catalog, req) == TopRated(catalog, 6)
    ensures FiringStage(catalog, req) != StrictMatch ==> |Items(catalog, req)| <= 6
  {
  }

  /**
   * The strict stage is the best-rated part of the matches: nothing that
   * matches and was left out is rated above anything kept.
   */
  lemma Stage1KeepsBest(catalog: seq<Movie>, req: Request, m: Movie)
    requires m in catalog && MatchesStrict(req, m)
    requires multiset(Stage1(catalog, req))[m] < multiset(Select(catalog, Strict(req)))[m]
    ensures forall x :: x in Stage1(catalog, req) ==> x.rating >= m.rating
  {
    var dropped := TopRatedKeepsBest(Select(catalog, Strict(req)), 9);
    assert m in multiset(dropped);
  }

  /** A criterion that keeps no more than another selects no more entries. */
  lemma {:induction false} SelectMonotone(s: seq<Movie>, c1: Criterion, c2: Criterion)
    requires forall m :: Keeps(c1, m) ==> Keeps(c2, m)
    ensures |Select(s, c1)| <= |Select(s, c2)|
  {
    if s != [] {
      SelectMonotone(s[..|s| - 1], c1, c2);
    }
  }

  /** Two criteria that keep the same entries select the same list. */
  lemma {:induction false} SelectSameKeeps(s: seq<Movie>, c1: Criterion, c2: Criterion)
    requires forall m :: Keeps(c1, m) == Keeps(c2, m)
    ensures Select(s, c1) == Select(s, c2)
  {
    if s != [] {
      SelectSameKeeps(s[..|s| - 1], c1, c2);
    }
  }

  /** Raising the minimum rating, all else fixed, never adds strict matches. */
  lemma MinRatingMonotone(catalog: seq<Movie>, req: Request, higher: real)
    requires higher >= req.minRating
    ensures |Stage1(catalog, req.(minRating := higher))| <= |Stage1(catalog, req)|
  {
    SelectMonotone(catalog, Strict(req.(minRating := higher)), Strict(req));
  }

  /** Raising the minimum year, all else fixed, never adds strict matches. */
  lemma MinYearMonotone(catalog: seq<Movie>, req: Request, later: real)
    requires later >= req.minYear
    ensures |Stage1(catalog, req.(minYear := later))| <= |Stage1(catalog, req)|
  {
    SelectMonotone(catalog, Strict(req.(minYear := later)), Strict(req));
  }

  /** The mood only feeds the explanation: it never changes the items. */
  lemma MoodIrrelevant(catalog: seq<Movie>, req: Request, mood: string)
    ensures Items(catalog, req.(mood := mood)) == Items(catalog, req)
  {
    SelectSameKeeps(catalog, Strict(req.(mood := mood)), Strict(req));
  }

  lemma {:induction false} SelectWithRating(s: seq<Movie>, c: Criterion, v: real)
    ensures WithRating(Select(s, c), v) == Select(WithRating(s, v), c)
  {
    if s != [] {
      var front, last := s[..|s| - 1], s[|s| - 1];
      SelectWithRating(front, c, v);
      var kept := if Keeps(c, last) then [last] else [];
      WithRatingAppend(Select(front, c), kept, v);
      var rated := if last.rating == v then [last] else [];
      SelectAppend(WithRating(front, v), rated, c);
    }
  }

  lemma {:induction false} SelectAppend(a: seq<Movie>, b: seq<Movie>, c: Criterion)
    ensures Select(a + b, c) == Select(a, c) + Select(b, c)
    decreases |b|
  {
    if b == [] {
      assert a + b == a;
    } else {
      var b' := b[..|b| - 1];
      assert (a + b)[..|a + b| - 1] == a + b';
      SelectAppend(a, b', c);
    }
  }

  /**
   * Filtering and then stably sorting a catalog that was itself stably sorted
   * gives what filtering and sorting the original gives.
   */
  lemma SortSelectSort(s: seq<Movie>, c: Criterion)
    ensures SortByRating(Select(SortByRating(s), c)) == SortByRating(Select(s, c))
  {
    var lhs, rhs := SortByRating(Select(SortByRating(s), c)), SortByRating(Select(s, c));
    forall v ensures WithRating(lhs, v) == WithRating(rhs, v) {
      SortIsStable(Select(SortByRating(s), c), v);
      SelectWithRating(SortByRating(s), c, v);
      SortIsStable(s, v);
      SelectWithRating(s, c, v);
      SortIsStable(Select(s, c), v);
    }
    SortedUnique(lhs, rhs);
  }

  /**
   * The global fallback sorts the shared catalog in place; every later request
   * still gets exactly the items it would have got from the unsorted catalog.
   */
  lemma SortedCatalogSameItems(catalog: seq<Movie>, req: Request)
    ensures Items(SortByRating(catalog), req) == Items(catalog, req)
  {
    SortSelectSort(catalog, Strict(req));
    SortSelectSort(catalog, OnProviders(req.providers));
    SortOfSorted(SortByRating(catalog));
  }

  // ---------------------------------------------------------------------------
  // Provider names and the explanation

  /** The provider names used in the explanation prompt; anything unrecognised reads as Netflix. */
  function DisplayName(p: JsValue): (name: string)
    ensures name == "Amazon Prime Video" <==> p == Str("prime-video")
    ensures name == "Disney+ Hotstar" <==> p == Str("hotstar")
    ensures name == "Netflix" <==> p != Str("prime-video") && p != Str("hotstar")
  {
    if p == Str("prime-video") then "Amazon Prime Video"
    else if p == Str("hotstar") then "Disney+ Hotstar"
    else "Netflix"
  }

  /** The platforms line of the prompt. */
  function PlatformNames(providers: seq<JsValue>): (names: string)
    ensures |providers| > 0 ==>
      var first := DisplayName(providers[0]);
      |first| <= |names| && names[..|first|] == first
    ensures |providers| == 1 ==> names == DisplayName(providers[0])
  {
    if |providers| == 0 then "any platform"
    else Join(seq(|providers|, i requires 0 <= i < |providers| => DisplayName(providers[i])), ", ")
  }

  /** Every further provider adds ", " and its display name, in request order. */
  lemma PlatformNamesSnoc(providers: seq<JsValue>, p: JsValue)
    requires |providers| > 0
    ensures PlatformNames(providers + [p]) == PlatformNames(providers) + ", " + DisplayName(p)
  {
    var ps := providers + [p];
    var names := seq(|providers|, i requires 0 <= i < |providers| => DisplayName(providers[i]));
    assert seq(|ps|, i requires 0 <= i < |ps| => DisplayName(ps[i])) == names + [DisplayName(p)];
    JoinSnoc(names, DisplayName(p), ", ");
  }

  /** "any platform" stands for exactly the empty provider list: no list of names spells it. */
  lemma AnyPlatformOnlyWhenEmpty(providers: seq<JsValue>)
    ensures PlatformNames(providers) == "any platform" <==> |providers| == 0
  {
    if |providers| > 0 {
      var names := seq(|providers|, i requires 0 <= i < |providers| => DisplayName(providers[i]));
      var first := names[0];
      assert first[0] != 'a';
      assert PlatformNames(providers)[0] == first[0];
    }
  }

  const DefaultExplanation: string :=
    "Here are strong picks based on your filters. We selected well-rated titles and balanced different tones and subgenres. If you refine the platforms, genre, year, or rating, we’ll tailor the list even more."

  /**
   * What the handler hands the text generator: the model settings and the data
   * the prompt embeds. The prompt's fixed wording and the textual item listing
   * are not modelled.
   */
  datatype Prompt = Prompt(
    model: string,
    maxOutputTokens: nat,
    temperature: real,
    mood: string,
    genre: JsValue,
    platforms: string,
    listing: seq<Movie>)

  function BuildPrompt(req: Request, items: seq<Movie>): (p: Prompt)
    ensures p.mood != "" && (p.mood == req.mood || (req.mood == "" && p.mood == "not specified"))
    ensures p.genre == (if req.genre.Some? then req.genre.value else Str("Any"))
    ensures p.listing == items
    ensures p.platforms == PlatformNames(req.providers)
    ensures p.model == "openai/gpt-5-mini" && p.maxOutputTokens == 300 && p.temperature == 0.5
  {
    Prompt("openai/gpt-5-mini", 300, 0.5,
      if req.mood != "" then req.mood else "not specified",
      if req.genre.Some? then req.genre.value else Str("Any"),
      PlatformNames(req.providers),
      items)
  }

  /**
   * A stand-in for the external text generator: it answers successive calls
   * from a script of outcomes (`None` is a call that throws; an exhausted
   * script throws too) and records every prompt it receives.
   */
  class Generator {
    var replies: seq<Option<string>>
    var prompts: seq<Prompt>

    constructor (script: seq<Option<string>>)
      ensures replies == script && prompts == []
    {
      replies := script;
      prompts := [];
    }

    /** The outcome the next call will have. */
    function NextReply(): Option<string>
      reads this
    {
      if replies == [] then None else replies[0]
    }

    method Generate(p: Prompt) returns (reply: Option<string>)
      modifies this
      ensures reply == old(NextReply())
      ensures replies == if old(replies) == [] then [] else old(replies)[1..]
      ensures prompts == old(prompts) + [p]
    {
      reply := NextReply();
      if replies != [] {
        replies := replies[1..];
      }
      prompts := prompts + [p];
    }
  }

  /**
   * The explanation gate: the generator is called once, and only when the
   * flag is exactly "1"; its text is used only when that call succeeds, and
   * every other path yields the default text.
   */
  method Explain(gen: Generator, flag: string, req: Request, items: seq<Movie>) returns (explanation: string)
    modifies gen
    ensures flag != "1" ==> explanation == DefaultExplanation
    ensures flag != "1" ==> unchanged(gen)
    ensures flag == "1" ==> gen.prompts == old(gen.prompts) + [BuildPrompt(req, items)]
    ensures flag == "1" ==> gen.replies == if old(gen.replies) == [] then [] else old(gen.replies)[1..]
    ensures flag == "1" && old(gen.NextReply()).None? ==> explanation == DefaultExplanation
    ensures flag == "1" && old(gen.NextReply()).Some? ==> explanation == old(gen.NextReply()).value
  {
    explanation := DefaultExplanation;
    if flag == "1" {
      var prompt := BuildPrompt(req, items);
      var reply := gen.Generate(prompt);
      match reply
      case Some(text) => explanation := text;
      case None => explanation := DefaultExplanation;
    }
  }

  /** `.filter(...)` yields a fresh array, which `.sort(...)` then orders in place. */
  method SortedCopy(s: seq<Movie>) returns (r: seq<Movie>)
    ensures r == SortByRating(s)
  {
    var buf := new Movie[|s|](i requires 0 <= i < |s| => s[i]);
    assert buf[..] == s;
    SortByRatingInPlace(buf);
    r := buf[..];
  }

  /**
   * Lines 34-53 of the handler: the cascade over the shared, module-level
   * catalog array. The global fallback sorts that array in place, which leaves
   * it a permutation of itself.
   */
  method Recommend(catalog: array<Movie>, req: Request) returns (items: seq<Movie>)
    modifies catalog
    ensures items == Items(old(catalog[..]), req)
    ensures catalog[..] == if FiringStage(old(catalog[..]), req) == TopRatedFallback
                           then SortByRating(old(catalog[..])) else old(catalog[..])
    ensures multiset(catalog[..]) == multiset(old(catalog[..]))
  {
    ghost var original := catalog[..];
    var sorted := SortedCopy(Select(catalog[..], Strict(req)));
    items := Take(sorted, 9);

    if |items| == 0 && |req.providers| != 0 {
      sorted := SortedCopy(Select(catalog[..], OnProviders(req.providers)));
      items := Take(sorted, 6);
    }

    if |items| == 0 {
      SortByRatingInPlace(catalog);
      SortPermutes(original);
      items := Take(catalog[..], 6);
    }
  }

  /**
   * Answering the same request twice gives the same items, in the same order,
   * even though the first answer may have sorted the shared catalog.
   */
  method RepeatedRequestAgrees(catalog: array<Movie>, req: Request) returns (first: seq<Movie>, second: seq<Movie>)
    modifies catalog
    ensures first == second == Items(old(catalog[..]), req)
  {
    ghost var original := catalog[..];
    first := Recommend(catalog, req);
    second := Recommend(catalog, req);
    SortedCatalogSameItems(original, req);
  }

  /** The handler once the body is normalised: rank, then explain. */
  method Answer(catalog: array<Movie>, gen: Generator, req: Request, flag: string) returns (resp: Response)
    modifies catalog, gen
    ensures resp.items == Items(old(catalog[..]), req)
    ensures catalog[..] == if FiringStage(old(catalog[..]), req) == TopRatedFallback
                           then SortByRating(old(catalog[..])) else old(catalog[..])
    ensures multiset(catalog[..]) == multiset(old(catalog[..]))
    ensures flag != "1" ==> resp.explanation == DefaultExplanation && unchanged(gen)
    ensures flag == "1" ==> gen.prompts == old(gen.prompts) + [BuildPrompt(req, resp.items)]
    ensures flag == "1" ==> gen.replies == if old(gen.replies) == [] then [] else old(gen.replies)[1..]
    ensures flag == "1" ==> resp.explanation == old(gen.NextReply()).GetOr(DefaultExplanation)
  {
    var items := Recommend(catalog, req);
    ghost var ranked := catalog[..];
    var explanation := Explain(gen, flag, req, items);
    assert catalog[..] == ranked;
    resp := Response(items, explanation);
  }

  /** The whole handler: normalise, rank, explain. */
  method Post(catalog: array<Movie>, gen: Generator, body: Body, flag: string)
    returns (reply: Result<Response, HandlerError>)
    modifies catalog, gen
    ensures Normalize(body).Failure? ==>
      reply == Failure(MoodNotString) && unchanged(catalog) && unchanged(gen)
    ensures Normalize(body).Success? ==>
      var req := Normalize(body).value;
      && reply.Success?
      && reply.value.items == Items(old(catalog[..]), req)
      && catalog[..] == (if FiringStage(old(catalog[..]), req) == TopRatedFallback
                         then SortByRating(old(catalog[..])) else old(catalog[..]))
      && (flag != "1" ==> reply.value.explanation == DefaultExplanation && unchanged(gen))
      && (flag == "1" ==> gen.prompts == old(gen.prompts) + [BuildPrompt(req, reply.value.items)])
      && (flag == "1" ==> gen.replies == if old(gen.replies) == [] then [] else old(gen.replies)[1..])
      && (flag == "1" ==> reply.value.explanation == old(gen.NextReply()).GetOr(DefaultExplanation))
    ensures multiset(catalog[..]) == multiset(old(catalog[..]))
  {
    var normalized := Normalize(body);
    if normalized.Failure? {
      return Failure(normalized.error);
    }
    var resp := Answer(catalog, gen, normalized.value, flag);
    reply := Success(resp);
  }

  /** A two-film catalog: a Netflix drama rated 8.1 and a Prime Video comedy rated 7.2. */
  const FilmA: Movie := Movie("a", "A", 2012, 8.1, ["Drama"], ["netflix"], "")
  const FilmB: Movie := Movie("b", "B", 2019, 7.2, ["Comedy"], ["prime-video"], "")

  /** A Netflix-only request from 2000 on is answered by the strict stage. */
  lemma ExampleStrictMatch()
    ensures Items([FilmA, FilmB], Request([Str("netflix")], None, 2000.0, 0.0, "")) == [FilmA]
  {
    var netflix := Request([Str("netflix")], None, 2000.0, 0.0, "");
    assert [FilmA, FilmB][..1] == [FilmA];
    assert SharesProvider(FilmA, netflix.providers);
    assert !SharesProvider(FilmB, netflix.providers);
    assert Select([FilmA, FilmB], Strict(netflix)) == [FilmA];
    assert SortByRating([FilmA]) == [FilmA];
  }

  /** A Hotstar-only request finds nothing in either filtered stage and gets the whole catalog, best first. */
  lemma ExampleTopRatedFallback()
    ensures FiringStage([FilmA, FilmB], Request([Str("hotstar")], None, 0.0, 0.0, "")) == TopRatedFallback
    ensures Items([FilmA, FilmB], Request([Str("hotstar")], None, 0.0, 0.0, "")) == [FilmA, FilmB]
  {
    var hotstar := Request([Str("hotstar")], None, 0.0, 0.0, "");
    HotstarSelectsNothing();
    assert Stage1([FilmA, FilmB], hotstar) == [] by {
      assert SortByRating([]) == [];
    }
    assert Stage2([FilmA, FilmB], hotstar.providers) == [];
    assert [FilmA, FilmB][..1] == [FilmA];
    assert SortByRating([FilmA, FilmB]) == Insert([FilmA], FilmB) == [FilmA, FilmB];
  }

  /** Neither film of the two-film catalog is on Hotstar, so both filtered stages select nothing. */
  lemma HotstarSelectsNothing()
    ensures Select([FilmA, FilmB], Strict(Request([Str("hotstar")], None, 0.0, 0.0, ""))) == []
    ensures Select([FilmA, FilmB], OnProviders([Str("hotstar")])) == []
  {
    assert !SharesProvider(FilmA, [Str("hotstar")]) && !SharesProvider(FilmB, [Str("hotstar")]);
    assert [FilmA, FilmB][..1] == [FilmA];
  }

  /**
   * Two requests against the two-film catalog: a Netflix-only request is
   * answered by the strict stage; a Hotstar-only request finds nothing in
   * either filtered stage and gets the whole catalog, best first.
   */
  lemma ExampleCascade()
    ensures Items([FilmA, FilmB], Request([Str("netflix")], None, 2000.0, 0.0, "")) == [FilmA]
    ensures FiringStage([FilmA, FilmB], Request([Str("hotstar")], None, 0.0, 0.0, "")) == TopRatedFallback
    ensures Items([FilmA, FilmB], Request([Str("hotstar")], None, 0.0, 0.0, "")) == [FilmA, FilmB]
  {
    ExampleStrictMatch();
    ExampleTopRatedFallback();
  }
}
