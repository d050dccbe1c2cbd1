/** The local logic of the appraisal pipeline: the request sent to the
    identification model, the query list and the listing annotation of the
    listing search, and the sequencing of the two calls. The two hosted-model
    calls are parameters: each maps the request to what the call returned or
    to the exception it raised. */
module Pipeline {
  import opened Wrappers
  import opened Text
  import opened Price

  // ---------------------------------------------------------------------
  // Records exchanged with the hosted model. A field that may be missing
  // from the decoded JSON object is an `Option`.

  datatype Attributes = Attributes(
    primaryColor: string, material: string, metalFinish: string, closure: string, notableMarkings: string)

  datatype PriceRange = PriceRange(low: real, high: real)

  /** The identification object the first call returns. */
  datatype Identification = Identification(
    brand: Option<string>,
    model: Option<string>,
    category: Option<string>,
    aliases: Option<seq<string>>,
    confidence: Option<real>,
    attributes: Option<Attributes>,
    typicalPriceRangeUsd: Option<PriceRange>,
    estimatedMarketValueUsd: Option<real>,
    suggestedQueries: Option<seq<string>>,
    rationale: Option<string>)

  /** A raised exception: the name of its class and its message. */
  datatype Exception = Exception(typeName: string, message: string)

  /** A block of the user message sent to the identification model;
      `Instructions` is the fixed instruction text. */
  datatype ContentBlock = Instructions | InputText(text: string) | InputImage(imageUrl: string)

  // ---------------------------------------------------------------------
  // identify (api/pipeline.py:128-154)

  const DescriptionHeading: string := "User description:\n"
  const HintHeading: string := "Classifier hint:\n"

  /** The optional text block: present only when the stripped text is not empty. */
  function TextBlock(heading: string, text: string): (r: seq<ContentBlock>)
    ensures |r| <= 1
    ensures r != [] <==> Strip(text) != []
    ensures r != [] ==> r[0] == InputText(heading + Strip(text))
  {
    if Strip(text) != [] then [InputText(heading + Strip(text))] else []
  }

  function ImageBlocks(urls: seq<string>): (r: seq<ContentBlock>)
    ensures |r| == |urls|
    ensures forall i :: 0 <= i < |urls| ==> r[i] == InputImage(urls[i])
  {
    seq(|urls|, i requires 0 <= i < |urls| => InputImage(urls[i]))
  }

  /** The content of the identification request: the instructions, then the
      description and the hint when they are not blank, then one image block
      per data URL, in order. */
  function IdentifyRequest(urls: seq<string>, descriptionText: string, classifierHint: string): (r: seq<ContentBlock>)
    ensures |r| == 1 + |TextBlock(DescriptionHeading, descriptionText)|
                     + |TextBlock(HintHeading, classifierHint)| + |urls|
    ensures r[0] == Instructions
    ensures forall i :: 0 <= i < |urls| ==> r[|r| - |urls| + i] == InputImage(urls[i])
    ensures forall i :: 0 < i < |r| - |urls| ==> r[i].InputText?
    ensures Strip(descriptionText) != [] ==> r[1] == InputText(DescriptionHeading + Strip(descriptionText))
    ensures Strip(classifierHint) != [] ==>
              r[|r| - |urls| - 1] == InputText(HintHeading + Strip(classifierHint))
  {
    [Instructions] + TextBlock(DescriptionHeading, descriptionText)
    + TextBlock(HintHeading, classifierHint) + ImageBlocks(urls)
  }

  /** Builds the request content by appending block after block. */
  method IdentifyContent(urls: seq<string>, descriptionText: string, classifierHint: string)
    returns (content: seq<ContentBlock>)
    ensures content == IdentifyRequest(urls, descriptionText, classifierHint)
  {
    content := [Instructions];
    var description, hint := Strip(descriptionText), Strip(classifierHint);
    if description != [] {
      content := content + [InputText(DescriptionHeading + description)];
    }
    if hint != [] {
      content := content + [InputText(HintHeading + hint)];
    }
    var texts := content;
    assert texts == [Instructions] + TextBlock(DescriptionHeading, descriptionText)
                    + TextBlock(HintHeading, classifierHint);
    for i := 0 to |urls|
      invariant content == texts + ImageBlocks(urls[..i])
    {
      assert ImageBlocks(urls[..i + 1]) == ImageBlocks(urls[..i]) + [InputImage(urls[i])];
      content := content + [InputImage(urls[i])];
    }
    assert urls[..|urls|] == urls;
  }

  /** The identification call: the reply of the model to the request, or the
      exception the call or the decoding of its reply raised. */
  method Identify(urls: seq<string>, descriptionText: string, classifierHint: string,
                  identifyModel: seq<ContentBlock> -> Result<Identification, Exception>)
    returns (r: Result<Identification, Exception>)
    ensures r == identifyModel(IdentifyRequest(urls, descriptionText, classifierHint))
  {
    var content := IdentifyContent(urls, descriptionText, classifierHint);
    r := identifyModel(content);
  }

  // ---------------------------------------------------------------------
  // search_listings (api/pipeline.py:156-194): the query list

  /** Python's `xs[:n]`. */
  function Take<T>(xs: seq<T>, n: nat): (r: seq<T>)
    ensures |r| == if |xs| <= n then |xs| else n
    ensures r == xs[..|r|]
  {
    if |xs| <= n then xs else xs[..n]
  }

  /** The non-empty strings of `xs`, in order (`[q for q in xs if q]`). */
  function NonEmpty(xs: seq<string>): (r: seq<string>)
    ensures |r| <= |xs|
    ensures forall i :: 0 <= i < |r| ==> r[i] != []
    ensures forall x :: x in r <==> x in xs && x != []
  {
    if xs == [] then []
    else if xs[0] == [] then NonEmpty(xs[1..])
    else [xs[0]] + NonEmpty(xs[1..])
  }

  lemma {:induction false} NonEmptyAppend(a: seq<string>, b: seq<string>)
    ensures NonEmpty(a + b) == NonEmpty(a) + NonEmpty(b)
  {
    if a != [] {
      assert (a + b)[1..] == a[1..] + b;
      NonEmptyAppend(a[1..], b);
    } else {
      assert a + b == b;
    }
  }

  lemma {:induction false} NonEmptyKeeps(xs: seq<string>)
    requires forall i :: 0 <= i < |xs| ==> xs[i] != []
    ensures NonEmpty(xs) == xs
  {
    if xs != [] {
      NonEmptyKeeps(xs[1..]);
    }
  }

  function Brand(ident: Identification): string { Strip(ident.brand.GetOr("")) }
  function Model(ident: Identification): string { Strip(ident.model.GetOr("")) }
  function Category(ident: Identification): string { Strip(ident.category.GetOr("")) }
  function Aliases(ident: Identification): seq<string> { ident.aliases.GetOr([]) }

  /** The at most eight suggested queries that survive, in their order. */
  function Suggested(ident: Identification): (r: seq<string>)
    ensures |r| <= 8
    ensures forall x :: x in r <==> x in Take(ident.suggestedQueries.GetOr([]), 8) && x != []
  {
    NonEmpty(Take(ident.suggestedQueries.GetOr([]), 8))
  }

  function PriceQuery(ident: Identification): string {
    Brand(ident) + " \"" + Model(ident) + "\" price"
  }

  function ListingQuery(ident: Identification): string {
    Brand(ident) + " \"" + Model(ident) + "\" " + Category(ident) + " listing"
  }

  /** The alias query uses the first alias as given, without stripping it. */
  function AliasQuery(ident: Identification): string
    requires Aliases(ident) != []
  {
    Brand(ident) + " \"" + Aliases(ident)[0] + "\" " + Category(ident) + " listing"
  }

  /** The two fixed fallbacks, and the alias one when there is an alias.
      None of them is ever empty. */
  function Fallbacks(ident: Identification): (r: seq<string>)
    ensures |r| == if Aliases(ident) != [] then 3 else 2
    ensures r[0] == PriceQuery(ident) && r[1] == ListingQuery(ident)
    ensures Aliases(ident) != [] ==> r[2] == AliasQuery(ident)
    ensures forall i :: 0 <= i < |r| ==> r[i] != []
  {
    var fallbacks := [PriceQuery(ident), ListingQuery(ident)];
    if Aliases(ident) != [] then fallbacks + [AliasQuery(ident)] else fallbacks
  }

  /** The queries the search is asked to run. */
  function Queries(ident: Identification): (q: seq<string>)
    ensures |q| <= 10
    ensures forall i :: 0 <= i < |q| ==> q[i] != []
  {
    Take(NonEmpty(Take(ident.suggestedQueries.GetOr([]), 8) + Fallbacks(ident)), 10)
  }

  /** The query list is the surviving suggestions in order, then the price and
      the listing fallbacks, which are always present, then the alias fallback
      exactly when there is an alias and fewer than eight suggestions survive. */
  lemma QueriesShape(ident: Identification)
    ensures var q, k := Queries(ident), |Suggested(ident)|;
            && k + 2 <= |q| <= k + 3
            && q[..k] == Suggested(ident)
            && q[k] == PriceQuery(ident)
            && q[k + 1] == ListingQuery(ident)
            && (|q| == k + 3 <==> Aliases(ident) != [] && k < 8)
            && (|q| == k + 3 ==> q[k + 2] == AliasQuery(ident))
  {
    var suggested := Take(ident.suggestedQueries.GetOr([]), 8);
    NonEmptyAppend(suggested, Fallbacks(ident));
    NonEmptyKeeps(Fallbacks(ident));
    var all := Suggested(ident) + Fallbacks(ident);
    assert NonEmpty(suggested + Fallbacks(ident)) == all;
  }

  // ---------------------------------------------------------------------
  // search_listings: the search call, the annotation and the fallback record

  /** Whether `parse_price_any` has been applied to a listing yet. */
  datatype Annotation = NotAnnotated | Annotated(price: Option<PriceMatch>)

  datatype Listing = Listing(
    title: Option<string>,
    url: Option<string>,
    source: Option<string>,
    priceText: Option<string>,
    dateText: Option<string>,
    notes: Option<string>,
    parsedPrice: Annotation)

  /** The listings object: the decoded reply of the search model, or the
      fixed record built when the search fails. */
  datatype Listings = Listings(
    queriesUsed: Option<seq<string>>,
    results: Option<seq<Listing>>,
    error: Option<string>)

  /** What the search prompt carries. */
  datatype SearchRequest = SearchRequest(
    brand: string, model: string, category: string, aliases: seq<string>,
    queries: seq<string>, maxResults: int)

  datatype SearchOutcome = Succeeded(data: Listings) | Failed(error: Exception)

  function SearchRequestFor(ident: Identification, maxResults: int): SearchRequest {
    SearchRequest(Brand(ident), Model(ident), Category(ident), Aliases(ident), Queries(ident), maxResults)
  }

  const SearchFailurePrefix: string := "web_search unavailable or failed: "

  function ErrorText(e: Exception): string {
    SearchFailurePrefix + e.typeName + ": " + e.message
  }

  /** The record returned instead of raising when the search fails. */
  function Degraded(queries: seq<string>, e: Exception): (l: Listings)
    ensures l.queriesUsed == Some(queries) && l.results == Some([])
    ensures l.error.Some? && StartsWith(l.error.value, SearchFailurePrefix)
    ensures l.error.value[|SearchFailurePrefix|..] == e.typeName + ": " + e.message
  {
    Listings(Some(queries), Some([]), Some(ErrorText(e)))
  }

  /** Two listings agree on every field the provider filled in. */
  predicate SameExceptPrice(a: Listing, b: Listing) {
    a.title == b.title && a.url == b.url && a.source == b.source
    && a.priceText == b.priceText && a.dateText == b.dateText && a.notes == b.notes
  }

  function Annotate(r: Listing): Listing {
    r.(parsedPrice := Annotated(ParsePrice(r.priceText.GetOr(""))))
  }

  function AnnotateAll(rs: seq<Listing>): seq<Listing> {
    seq(|rs|, i requires 0 <= i < |rs| => Annotate(rs[i]))
  }

  /** The listings object `search_listings` returns for a search outcome. On
      success the reply is kept, and each of its results, in order and
      otherwise unchanged, gets the price parsed from its price text (an
      absent price text reads as empty). On failure the degraded record. */
  function ListingsFor(queries: seq<string>, outcome: SearchOutcome): (l: Listings)
    ensures outcome.Failed? ==> l == Degraded(queries, outcome.error)
    ensures outcome.Succeeded? ==>
              && l.queriesUsed == outcome.data.queriesUsed
              && l.error == outcome.data.error
              && (l.results.Some? <==> outcome.data.results.Some?)
    ensures outcome.Succeeded? && outcome.data.results.Some? ==>
              var before, after := outcome.data.results.value, l.results.value;
              && |after| == |before|
              && forall i :: 0 <= i < |before| ==>
                   && SameExceptPrice(after[i], before[i])
                   && after[i].parsedPrice == Annotated(ParsePrice(before[i].priceText.GetOr("")))
  {
    match outcome
    case Failed(e) => Degraded(queries, e)
    case Succeeded(data) =>
      if data.results.Some? then data.(results := Some(AnnotateAll(data.results.value))) else data
  }

  /** The listing search: builds the queries, calls the search, and annotates
      the results in place, one after the other. */
  method SearchListings(ident: Identification, maxResults: int, searchModel: SearchRequest -> SearchOutcome)
    returns (listings: Listings)
    ensures listings == ListingsFor(Queries(ident), searchModel(SearchRequestFor(ident, maxResults)))
  {
    var queries := Queries(ident);
    var outcome := searchModel(SearchRequest(Brand(ident), Model(ident), Category(ident), Aliases(ident),
                                             queries, maxResults));
    match outcome {
      case Failed(e) =>
        listings := Degraded(queries, e);
      case Succeeded(data) =>
        listings := data;
        if data.results.Some? {
          var results := data.results.value;
          var i := 0;
          while i < |results|
            invariant 0 <= i <= |results| == |data.results.value|
            invariant forall j :: 0 <= j < i ==> results[j] == Annotate(data.results.value[j])
            invariant forall j :: i <= j < |results| ==> results[j] == data.results.value[j]
          {
            var parsed := ParsePriceAny(results[i].priceText.GetOr(""));
            results := results[i := results[i].(parsedPrice := Annotated(parsed))];
            i := i + 1;
          }
          assert results == AnnotateAll(data.results.value);
          listings := data.(results := Some(results));
        }
    }
  }

  // ---------------------------------------------------------------------
  // run (api/pipeline.py:196-199)

  datatype RunOutput = RunOutput(identification: Identification, listings: Listings)

  /** The outcome of `run`: a failed identification is raised and no search
      happens; otherwise the identification and its listings, and a failed
      search still yields a result. */
  function RunOutcome(urls: seq<string>, descriptionText: string, classifierHint: string, maxResults: int,
                      identifyModel: seq<ContentBlock> -> Result<Identification, Exception>,
                      searchModel: SearchRequest -> SearchOutcome): (r: Result<RunOutput, Exception>)
    ensures var id := identifyModel(IdentifyRequest(urls, descriptionText, classifierHint));
            && (id.Failure? ==> r == Failure(id.error))
            && (id.Success? ==> r.Success? && r.value.identification == id.value)
            && (id.Success? ==>
                  r.value.listings == ListingsFor(Queries(id.value), searchModel(SearchRequestFor(id.value, maxResults))))
            && (id.Success? && searchModel(SearchRequestFor(id.value, maxResults)).Failed? ==>
                  r.Success? && r.value.listings.results == Some([]) && r.value.listings.error.Some?)
  {
    match identifyModel(IdentifyRequest(urls, descriptionText, classifierHint))
    case Failure(e) => Failure(e)
    case Success(ident) =>
      Success(RunOutput(ident, ListingsFor(Queries(ident), searchModel(SearchRequestFor(ident, maxResults)))))
  }

  /** Identification, then the listing search for what was identified. */
  method Run(urls: seq<string>, descriptionText: string, classifierHint: string, maxResults: int,
             identifyModel: seq<ContentBlock> -> Result<Identification, Exception>,
             searchModel: SearchRequest -> SearchOutcome)
    returns (r: Result<RunOutput, Exception>)
    ensures r == RunOutcome(urls, descriptionText, classifierHint, maxResults, identifyModel, searchModel)
  {
    var ident := Identify(urls, descriptionText, classifierHint, identifyModel);
    if ident.Failure? {
      return Failure(ident.error);
    }
    var listings := SearchListings(ident.value, maxResults, searchModel);
    r := Success(RunOutput(ident.value, listings));
  }
}
