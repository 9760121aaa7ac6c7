/**
 * The client form that builds requests for the handler: its state, the
 * provider checkbox updater, the request it submits and the provider badges
 * it shows on each result.
 */
module Recommender {
  import opened Wrappers
  import opened Js
  import Route

  /** No value occurs twice. */
  predicate NoDuplicates(s: seq<string>) {
    forall i, j :: 0 <= i < j < |s| ==> s[i] != s[j]
  }

  /**
   * `Array.from(new Set(s))`: each value once, kept where it first occurs.
   * The set is built left to right and ignores a value it already holds.
   */
  function Dedup(s: seq<string>): (r: seq<string>)
    ensures NoDuplicates(r)
    ensures forall x :: x in r <==> x in s
  {
    if s == [] then []
    else
      var d, last := Dedup(s[..|s| - 1]), s[|s| - 1];
      assert s == s[..|s| - 1] + [last];
      if last in d then d else d + [last]
  }

  /** The position of the first occurrence of `x` in `s`. */
  function FirstIndex(s: seq<string>, x: string): (k: nat)
    requires x in s
    ensures k < |s| && s[k] == x
    ensures forall i :: 0 <= i < k ==> s[i] != x
  {
    if s[0] == x then 0 else 1 + FirstIndex(s[1..], x)
  }

  lemma {:induction false} FirstIndexExtend(s: seq<string>, y: string, x: string)
    requires x in s
    ensures FirstIndex(s + [y], x) == FirstIndex(s, x)
  {
    if s[0] != x {
      assert (s + [y])[1..] == s[1..] + [y];
      FirstIndexExtend(s[1..], y, x);
    }
  }

  /** `Dedup` lists the values in the order of their first occurrences. */
  lemma {:induction false} DedupFirstOccurrenceOrder(s: seq<string>)
    ensures forall i, j :: 0 <= i < j < |Dedup(s)| ==> FirstIndex(s, Dedup(s)[i]) < FirstIndex(s, Dedup(s)[j])
  {
    if s != [] {
      var front, last := s[..|s| - 1], s[|s| - 1];
      assert s == front + [last];
      var d, r := Dedup(front), Dedup(s);
      assert r == if last in d then d else d + [last];
      DedupFirstOccurrenceOrder(front);
      forall i, j | 0 <= i < j < |r| ensures FirstIndex(s, r[i]) < FirstIndex(s, r[j]) {
        FirstIndexExtend(front, last, r[i]);
        if j < |d| {
          FirstIndexExtend(front, last, r[j]);
          assert FirstIndex(front, d[i]) < FirstIndex(front, d[j]);
        } else {
          assert r[j] == last && last !in front;
          assert FirstIndex(s, last) == |front|;
        }
      }
    }
  }

  /** A list without duplicates is its own deduplication. */
  lemma {:induction false} DedupOfDistinct(s: seq<string>)
    requires NoDuplicates(s)
    ensures Dedup(s) == s
  {
    if s != [] {
      var front := s[..|s| - 1];
      DedupOfDistinct(front);
      assert s == front + [s[|s| - 1]];
    }
  }

  /** `s.filter((p) => p !== id)` */
  function Remove(s: seq<string>, id: string): (r: seq<string>)
    ensures id !in r
    ensures forall x :: x != id ==> (x in r <==> x in s)
  {
    if s == [] then []
    else
      var front, last := s[..|s| - 1], s[|s| - 1];
      assert s == front + [last];
      Remove(front, id) + (if last == id then [] else [last])
  }

  /** Removal never introduces a duplicate. */
  lemma {:induction false} RemoveKeepsDistinct(s: seq<string>, id: string)
    ensures NoDuplicates(s) ==> NoDuplicates(Remove(s, id))
  {
    if s != [] && NoDuplicates(s) {
      var front, last := s[..|s| - 1], s[|s| - 1];
      RemoveKeepsDistinct(front, id);
      assert last !in front;
    }
  }

  /** Removal keeps the order of what stays: it acts piecewise on a concatenation. */
  lemma {:induction false} RemoveAppend(a: seq<string>, b: seq<string>, id: string)
    ensures Remove(a + b, id) == Remove(a, id) + Remove(b, id)
    decreases |b|
  {
    if b == [] {
      assert a + b == a;
    } else {
      var b' := b[..|b| - 1];
      assert (a + b)[..|a + b| - 1] == a + b';
      RemoveAppend(a, b', id);
    }
  }

  /** Removal keeps every other value exactly as often as it occurred. */
  lemma {:induction false} RemoveKeepsCounts(s: seq<string>, id: string, x: string)
    requires x != id
    ensures multiset(Remove(s, id))[x] == multiset(s)[x]
  {
    if s != [] {
      var front := s[..|s| - 1];
      RemoveKeepsCounts(front, id, x);
      assert s == front + [s[|s| - 1]];
    }
  }

  /** Removing a value that does not occur changes nothing. */
  lemma {:induction false} RemoveAbsent(s: seq<string>, id: string)
    requires id !in s
    ensures Remove(s, id) == s
  {
    if s != [] {
      var front := s[..|s| - 1];
      RemoveAbsent(front, id);
      assert s == front + [s[|s| - 1]];
    }
  }

  /** The `toggleProvider` updater: checking adds the id once, unchecking removes it. */
  function Toggled(prev: seq<string>, id: string, checked: bool): (r: seq<string>)
    ensures checked ==> NoDuplicates(r) && forall x :: x in r <==> x in prev || x == id
    ensures !checked ==> id !in r && forall x :: x != id ==> (x in r <==> x in prev)
    ensures NoDuplicates(prev) ==> NoDuplicates(r)
  {
    if checked then Dedup(prev + [id])
    else
      RemoveKeepsDistinct(prev, id);
      Remove(prev, id)
  }

  /**
   * Checking yields the previous providers plus `id`, each exactly once; on a
   * list without duplicates it appends `id` if it was missing and otherwise
   * changes nothing.
   */
  lemma CheckAdds(prev: seq<string>, id: string)
    ensures NoDuplicates(Toggled(prev, id, true)) && id in Toggled(prev, id, true)
    ensures forall x :: x in Toggled(prev, id, true) <==> x in prev || x == id
    ensures NoDuplicates(prev) ==> Toggled(prev, id, true) == if id in prev then prev else prev + [id]
  {
    var s := prev + [id];
    assert s[..|s| - 1] == prev;
    if NoDuplicates(prev) {
      DedupOfDistinct(prev);
    }
  }

  /** Checking the same provider twice is checking it once. */
  lemma CheckIdempotent(prev: seq<string>, id: string)
    ensures Toggled(Toggled(prev, id, true), id, true) == Toggled(prev, id, true)
  {
    CheckAdds(Toggled(prev, id, true), id);
  }

  /** Unchecking removes every occurrence of `id` and keeps everything else, in order. */
  lemma UncheckRemoves(prev: seq<string>, id: string, x: string)
    requires x != id
    ensures id !in Toggled(prev, id, false)
    ensures multiset(Toggled(prev, id, false))[x] == multiset(prev)[x]
  {
    RemoveKeepsCounts(prev, id, x);
  }

  /** Checking then unchecking a provider that was not selected restores the selection. */
  lemma CheckThenUncheck(prev: seq<string>, id: string)
    requires NoDuplicates(prev) && id !in prev
    ensures Toggled(Toggled(prev, id, true), id, false) == prev
  {
    CheckAdds(prev, id);
    RemoveAppend(prev, [id], id);
    RemoveAbsent(prev, id);
    assert Remove([id], id) == [];
  }

  /** The short provider label on a result card; anything unrecognised reads as Netflix. */
  function BadgeLabel(p: string): (badge: string)
    ensures badge == "Prime Video" <==> p == "prime-video"
    ensures badge == "Hotstar" <==> p == "hotstar"
    ensures badge == "Netflix" <==> p != "prime-video" && p != "hotstar"
  {
    if p == "prime-video" then "Prime Video"
    else if p == "hotstar" then "Hotstar"
    else "Netflix"
  }

  /**
   * The badge is the tail of the name the handler uses for the same provider,
   * and both fall back to Netflix for exactly the same identifiers.
   */
  lemma BadgeAgreesWithDisplayName(p: string)
    ensures var name := Route.DisplayName(Str(p)); var badge := BadgeLabel(p);
      |badge| <= |name| && name[|name| - |badge|..] == badge
    ensures BadgeLabel(p) == "Netflix" <==> Route.DisplayName(Str(p)) == "Netflix"
  {
  }

  datatype ProviderOption = ProviderOption(id: string, caption: string)

  /** The platform checkboxes. */
  const ProviderOptions: seq<ProviderOption> := [
    ProviderOption("netflix", "Netflix"),
    ProviderOption("prime-video", "Amazon Prime Video"),
    ProviderOption("hotstar", "Disney+ Hotstar")
  ]

  /** The checkbox labels are the names the handler uses for the same providers. */
  lemma OptionLabelsAreDisplayNames()
    ensures forall o :: o in ProviderOptions ==> Route.DisplayName(Str(o.id)) == o.caption
  {
  }

  /** The request the form submits; numbers are what `Number(...)` made of the field text. */
  datatype RecommendRequest = RecommendRequest(
    providers: seq<string>,
    genre: Option<string>,
    minYear: Option<real>,
    minRating: Option<real>,
    mood: Option<string>)

  /**
   * The request built in `onSubmit`: "Any" becomes no genre, and an empty
   * year, rating or mood field becomes null. `number` is `Number(...)`.
   */
  function BuildRequest(providers: seq<string>, genre: string, minYear: string, minRating: string,
                        mood: string, number: string -> real): (r: RecommendRequest)
    ensures r.providers == providers
    ensures r.genre.None? <==> genre == "Any"
    ensures r.genre.Some? ==> r.genre.value == genre
    ensures r.minYear.None? <==> minYear == ""
    ensures r.minYear.Some? ==> r.minYear.value == number(minYear)
    ensures r.minRating.None? <==> minRating == ""
    ensures r.minRating.Some? ==> r.minRating.value == number(minRating)
    ensures r.mood.None? <==> mood == ""
    ensures r.mood.Some? ==> r.mood.value == mood
  {
    RecommendRequest(
      providers,
      if genre == "Any" then None else Some(genre),
      if minYear != "" then Some(number(minYear)) else None,
      if minRating != "" then Some(number(minRating)) else None,
      if mood != "" then Some(mood) else None)
  }

  function Strs(s: seq<string>): (r: seq<JsValue>)
    ensures |r| == |s| && forall i :: 0 <= i < |s| ==> r[i] == Str(s[i])
  {
    seq(|s|, i requires 0 <= i < |s| => Str(s[i]))
  }

  /** The body the handler decodes from the JSON the form posts; the handler never throws on it. */
  function ToBody(r: RecommendRequest): (body: Route.Body)
    ensures Route.Normalize(body).Success?
  {
    Route.Body(
      Arr(Strs(r.providers)),
      if r.genre.Some? then Str(r.genre.value) else Null,
      if r.minYear.Some? then Num(r.minYear.value) else Null,
      if r.minRating.Some? then Num(r.minRating.value) else Null,
      if r.mood.Some? then Str(r.mood.value) else Null)
  }

  /**
   * What the handler makes of a submitted form: the selected providers, the
   * genre unless it is "Any" or empty, the parsed year and rating or 0 when the
   * field is empty, and the trimmed mood. It never throws on a form request.
   */
  lemma SubmittedRequestNormalizes(providers: seq<string>, genre: string, minYear: string,
                                   minRating: string, mood: string, number: string -> real)
    ensures Route.Normalize(ToBody(BuildRequest(providers, genre, minYear, minRating, mood, number)))
      == Success(Route.Request(
           Strs(providers),
           if genre == "Any" || genre == "" then None else Some(Str(genre)),
           if minYear == "" then 0.0 else number(minYear),
           if minRating == "" then 0.0 else number(minRating),
           Trim(mood)))
  {
    var body := ToBody(BuildRequest(providers, genre, minYear, minRating, mood, number));
    var g := if genre == "Any" || genre == "" then None else Some(Str(genre));
    var y := if minYear == "" then 0.0 else number(minYear);
    var r := if minRating == "" then 0.0 else number(minRating);
    assert Route.MoodOf(body.mood) == Success(Trim(mood)) by {
      if mood == "" {
        assert Trim(mood) == "";
      }
    }
    assert Route.ProvidersOf(body.providers) == Strs(providers);
    assert Route.GenreOf(body.genre) == g;
    assert Route.NumberOr0(body.minYear) == y;
    assert Route.NumberOr0(body.minRating) == r;
  }

  /** The form's state, updated through its setters. */
  class RecommenderForm {
    var selectedProviders: seq<string>
    var selectedGenre: string
    var minYear: string
    var minRating: string
    var mood: string

    /** Every provider checked, any genre, from 2010, rated 7.0 or better, no mood. */
    constructor ()
      ensures selectedProviders == ["netflix", "prime-video", "hotstar"]
      ensures NoDuplicates(selectedProviders)
      ensures selectedGenre == "Any" && minYear == "2010" && minRating == "7.0" && mood == ""
    {
      selectedProviders := ["netflix", "prime-video", "hotstar"];
      selectedGenre := "Any";
      minYear := "2010";
      minRating := "7.0";
      mood := "";
    }

    /** `toggleProvider(id, checked)`; the checkbox passes `true`, `false` or "indeterminate". */
    method ToggleProvider(id: string, checked: JsValue)
      modifies this
      ensures selectedProviders == Toggled(old(selectedProviders), id, Truthy(checked))
      ensures NoDuplicates(old(selectedProviders)) ==> NoDuplicates(selectedProviders)
      ensures selectedGenre == old(selectedGenre) && minYear == old(minYear)
      ensures minRating == old(minRating) && mood == old(mood)
    {
      selectedProviders := Toggled(selectedProviders, id, Truthy(checked));
    }

    method SetGenre(genre: string)
      modifies this
      ensures selectedGenre == genre
      ensures selectedProviders == old(selectedProviders) && minYear == old(minYear)
      ensures minRating == old(minRating) && mood == old(mood)
    {
      selectedGenre := genre;
    }

    method SetMinYear(text: string)
      modifies this
      ensures minYear == text
      ensures selectedProviders == old(selectedProviders) && selectedGenre == old(selectedGenre)
      ensures minRating == old(minRating) && mood == old(mood)
    {
      minYear := text;
    }

    method SetMinRating(text: string)
      modifies this
      ensures minRating == text
      ensures selectedProviders == old(selectedProviders) && selectedGenre == old(selectedGenre)
      ensures minYear == old(minYear) && mood == old(mood)
    {
      minRating := text;
    }

    method SetMood(text: string)
      modifies this
      ensures mood == text
      ensures selectedProviders == old(selectedProviders) && selectedGenre == old(selectedGenre)
      ensures minYear == old(minYear) && minRating == old(minRating)
    {
      mood := text;
    }

    /** `onSubmit`: the request built from the current state. */
    method Submit(number: string -> real) returns (req: RecommendRequest)
      ensures req == BuildRequest(selectedProviders, selectedGenre, minYear, minRating, mood, number)
    {
      req := BuildRequest(selectedProviders, selectedGenre, minYear, minRating, mood, number);
    }
  }

  /**
   * A freshly opened form, submitted as is, asks for every provider (none of
   * them twice), no genre, year 2010 and rating 7.0 (as parsed), with no mood.
   */
  method InitialRequest(number: string -> real) returns (req: RecommendRequest)
    ensures NoDuplicates(req.providers)
    ensures req == RecommendRequest(["netflix", "prime-video", "hotstar"], None, Some(number("2010")), Some(number("7.0")), None)
  {
    var form := new RecommenderForm();
    req := form.Submit(number);
  }
}
