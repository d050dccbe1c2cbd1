/** The `/predict` endpoint: it accepts one uploaded image, runs the pipeline
    on it and reshapes the outcome for the front end. */
module Api {
  import opened Wrappers
  import opened Text
  import opened Base64
  import opened DataUrl
  import opened Pipeline

  /** The uploaded file: its declared content type, if any, and its bytes. */
  datatype Upload = Upload(contentType: Option<string>, body: seq<byte>)

  /** One entry of `similar_listings`. */
  datatype ListingView = ListingView(id: string, title: string, priceText: string, url: string, source: string)

  datatype Prediction = Prediction(
    predictedPrice: real,
    currency: string,
    confidence: real,
    brand: string,
    model: string,
    category: string,
    similarListings: seq<ListingView>)

  /** A request that fails: an HTTP error raised on purpose, or an exception
      the framework turns into a server error. */
  datatype PredictError = HttpError(status: int, detail: string) | ServerError(error: Exception)

  const ImagePrefix: string := "image/"
  const Rejection: PredictError := HttpError(400, "Upload an image file.")
  const MaxResults: int := 10

  /** The upload is declared as an image: the content type exists and starts
      with `image/`, compared case by case. */
  predicate IsImageType(contentType: Option<string>) {
    contentType.Some? && StartsWith(contentType.value, ImagePrefix)
  }

  /** The media type of the data URL: the content type, or `image/png` when
      it is missing or empty. */
  function MimeOf(contentType: Option<string>): (mime: string)
    ensures contentType.Some? && contentType.value != [] ==> mime == contentType.value
    ensures contentType.None? || contentType.value == [] ==> mime == DefaultMime
  {
    if contentType.Some? && contentType.value != [] then contentType.value else DefaultMime
  }

  function View(i: nat, r: Listing): ListingView {
    ListingView(NatToString(i), r.title.GetOr(""), r.priceText.GetOr(""), r.url.GetOr(""), r.source.GetOr(""))
  }

  /** `similar_listings`: one entry per result, in order, numbered from 0. */
  function SimilarListings(results: seq<Listing>): (v: seq<ListingView>)
    ensures |v| == |results|
    ensures forall i :: 0 <= i < |v| ==> v[i].id == NatToString(i)
    ensures forall i :: 0 <= i < |v| ==>
              && |v[i].id| > 0 && AllDigits(v[i].id) && DecimalValue(v[i].id) == i
              && (v[i].id[0] == '0' ==> v[i].id == "0")
    ensures forall i :: 0 <= i < |v| ==>
              && v[i].title == results[i].title.GetOr("")
              && v[i].priceText == results[i].priceText.GetOr("")
              && v[i].url == results[i].url.GetOr("")
              && v[i].source == results[i].source.GetOr("")
  {
    var v := seq(|results|, i requires 0 <= i < |results| => View(i, results[i]));
    forall i | 0 <= i < |v| ensures AllDigits(v[i].id) && DecimalValue(v[i].id) == i {
      NatToStringValue(i);
    }
    v
  }

  /** No two entries share an id. */
  lemma SimilarListingIdsDistinct(results: seq<Listing>, i: nat, j: nat)
    requires i < |results| && j < |results| && i != j
    ensures SimilarListings(results)[i].id != SimilarListings(results)[j].id
  {
    var v := SimilarListings(results);
    if v[i].id == v[j].id {
      assert DecimalValue(v[i].id) == DecimalValue(v[j].id);
      assert false;
    }
  }

  function KeyError(key: string): Exception {
    Exception("KeyError", "'" + key + "'")
  }

  /** The response built from the pipeline output. The identification fields
      are read in the order the response lists them, and the first missing
      one raises. The listings are the results, or none when there are none. */
  function ShapeResponse(out: RunOutput): (r: Result<Prediction, PredictError>)
    ensures var ident := out.identification;
            r.Success? <==>
              && ident.estimatedMarketValueUsd.Some? && ident.confidence.Some?
              && ident.brand.Some? && ident.model.Some? && ident.category.Some?
    ensures r.Success? ==>
              var ident, p := out.identification, r.value;
              && p.currency == "USD"
              && p.predictedPrice == ident.estimatedMarketValueUsd.value
              && p.confidence == ident.confidence.value
              && p.brand == ident.brand.value
              && p.model == ident.model.value
              && p.category == ident.category.value
              && p.similarListings == SimilarListings(out.listings.results.GetOr([]))
    ensures out.identification.estimatedMarketValueUsd.None? ==>
              r == Failure(ServerError(KeyError("estimated_market_value_usd")))
    ensures r.Failure? ==> r.error.ServerError? && r.error.error.typeName == "KeyError"
  {
    var ident := out.identification;
    if ident.estimatedMarketValueUsd.None? then Failure(ServerError(KeyError("estimated_market_value_usd")))
    else if ident.confidence.None? then Failure(ServerError(KeyError("confidence")))
    else if ident.brand.None? then Failure(ServerError(KeyError("brand")))
    else if ident.model.None? then Failure(ServerError(KeyError("model")))
    else if ident.category.None? then Failure(ServerError(KeyError("category")))
    else
      Success(Prediction(
        ident.estimatedMarketValueUsd.value, "USD", ident.confidence.value,
        ident.brand.value, ident.model.value, ident.category.value,
        SimilarListings(out.listings.results.GetOr([]))))
  }

  /** The data URL the endpoint sends for an upload. */
  function UploadDataUrl(upload: Upload): string {
    BytesToDataUrl(upload.body, MimeOf(upload.contentType))
  }

  /** The endpoint: the content-type check comes first, before the body or
      either model is used; then the pipeline runs on the one image with no
      description and no hint, and its outcome is reshaped. */
  function Predict(upload: Upload,
                   identifyModel: seq<ContentBlock> -> Result<Identification, Exception>,
                   searchModel: SearchRequest -> SearchOutcome): (r: Result<Prediction, PredictError>)
    ensures !IsImageType(upload.contentType) <==> r == Failure(Rejection)
    ensures IsImageType(upload.contentType) ==>
              match RunOutcome([UploadDataUrl(upload)], "", "", MaxResults, identifyModel, searchModel)
              case Failure(e) => r == Failure(ServerError(e))
              case Success(out) => r == ShapeResponse(out)
  {
    if !IsImageType(upload.contentType) then Failure(Rejection)
    else
      var dataUrl := UploadDataUrl(upload);
      match RunOutcome([dataUrl], "", "", MaxResults, identifyModel, searchModel)
      case Failure(e) => Failure(ServerError(e))
      case Success(out) => ShapeResponse(out)
  }

  /** An accepted upload reaches the identification model as the instructions
      and one image, whose data URL carries the declared content type and the
      uploaded bytes unchanged. */
  lemma UploadRequest(upload: Upload)
    requires IsImageType(upload.contentType)
    ensures IdentifyRequest([UploadDataUrl(upload)], "", "") == [Instructions, InputImage(UploadDataUrl(upload))]
    ensures ParseDataUrl(UploadDataUrl(upload)) == Some(DataUrlParts(upload.contentType.value, upload.body))
  {
    assert Strip("") == "";
    ParseBuilt(upload.body, upload.contentType.value);
  }

  /** A rejected upload gets the same answer whatever its bytes and whatever
      the models would have said. */
  lemma RejectionIgnoresBodyAndModels(
    upload: Upload, body: seq<byte>,
    identifyModel: seq<ContentBlock> -> Result<Identification, Exception>,
    identifyModel': seq<ContentBlock> -> Result<Identification, Exception>,
    searchModel: SearchRequest -> SearchOutcome, searchModel': SearchRequest -> SearchOutcome)
    requires !IsImageType(upload.contentType)
    ensures Predict(upload, identifyModel, searchModel)
         == Predict(upload.(body := body), identifyModel', searchModel')
         == Failure(HttpError(400, "Upload an image file."))
  {
  }

  /** When the listing search fails, the response still comes back, with no
      similar listings. */
  lemma DegradedSearchHasNoListings(
    upload: Upload,
    identifyModel: seq<ContentBlock> -> Result<Identification, Exception>,
    searchModel: SearchRequest -> SearchOutcome)
    requires IsImageType(upload.contentType)
    requires var id := identifyModel(IdentifyRequest([UploadDataUrl(upload)], "", ""));
             && id.Success?
             && searchModel(SearchRequestFor(id.value, MaxResults)).Failed?
    requires var ident := identifyModel(IdentifyRequest([UploadDataUrl(upload)], "", "")).value;
             && ident.estimatedMarketValueUsd.Some? && ident.confidence.Some?
             && ident.brand.Some? && ident.model.Some? && ident.category.Some?
    ensures Predict(upload, identifyModel, searchModel).Success?
    ensures Predict(upload, identifyModel, searchModel).value.similarListings == []
  {
    var out := RunOutcome([UploadDataUrl(upload)], "", "", MaxResults, identifyModel, searchModel).value;
    assert out.listings.results == Some([]);
  }

  /** An image upload identified as a Chanel Classic Flap worth 4800 US
      dollars is priced at 4800 US dollars, and there is one similar listing
      per result of the search, numbered by position. */
  lemma ChanelScenario(
    contentType: string, body: seq<byte>, ident: Identification,
    identifyModel: seq<ContentBlock> -> Result<Identification, Exception>,
    searchModel: SearchRequest -> SearchOutcome)
    requires IsImageType(Some(contentType))
    requires ident.brand == Some("Chanel") && ident.model == Some("Classic Flap") && ident.category.Some?
    requires ident.confidence == Some(0.82) && ident.estimatedMarketValueUsd == Some(4800.0)
    requires forall c :: identifyModel(c) == Success(ident)
    requires searchModel(SearchRequestFor(ident, MaxResults)).Succeeded?
    ensures var p := Predict(Upload(Some(contentType), body), identifyModel, searchModel);
            var results := searchModel(SearchRequestFor(ident, MaxResults)).data.results.GetOr([]);
            && p.Success?
            && p.value.predictedPrice == 4800.0 && p.value.currency == "USD"
            && p.value.confidence == 0.82 && p.value.brand == "Chanel"
            && |p.value.similarListings| == |results|
            && forall i :: 0 <= i < |results| ==>
                 p.value.similarListings[i].id == NatToString(i) && DecimalValue(p.value.similarListings[i].id) == i
  {
    var upload := Upload(Some(contentType), body);
    var r := RunOutcome([UploadDataUrl(upload)], "", "", MaxResults, identifyModel, searchModel);
    var data := searchModel(SearchRequestFor(ident, MaxResults)).data;
    assert r == Success(RunOutput(ident, ListingsFor(Queries(ident), Succeeded(data))));
  }
}
