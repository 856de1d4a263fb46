/** src/exchange_changelog/loaders/pipeline.py: `PipelineLoader`, which
    tries a fixed list of loaders in order and returns the first non-empty
    text. Each loader is abstracted to the outcome it has for the URL: a
    failure (an exception it raised) or the text it returned. */
module Pipeline {
  import opened Wrappers

  datatype LoaderKind = Cloudscraper | Httpx | Playwright | Singlefile

  datatype Outcome = Fail | Ok(text: string)

  /** An outcome that ends the chain: a text of non-zero length. */
  predicate Delivers(o: Outcome)
  {
    o.Ok? && |o.text| != 0
  }

  /** The message of the `LoaderError` raised when every loader fails. */
  function LoadFailure(url: string): string
  {
    "Failed to load URL: " + url
  }

  /** The index of the first loader whose outcome delivers text, if any. */
  function FirstDelivering(loaders: seq<LoaderKind>, url: string, attempt: (LoaderKind, string) -> Outcome): (r: Option<nat>)
    ensures r.Some? ==> r.value < |loaders| && Delivers(attempt(loaders[r.value], url))
    ensures r.Some? ==> forall j :: 0 <= j < r.value ==> !Delivers(attempt(loaders[j], url))
    ensures r.None? <==> forall j :: 0 <= j < |loaders| ==> !Delivers(attempt(loaders[j], url))
  {
    if loaders == [] then None
    else if Delivers(attempt(loaders[0], url)) then Some(0)
    else match FirstDelivering(loaders[1..], url, attempt)
      case None => None
      case Some(k) => Some(k + 1)
  }

  predicate Distinct<T(==)>(xs: seq<T>)
  {
    forall i, j :: 0 <= i < j < |xs| ==> xs[i] != xs[j]
  }

  class PipelineLoader {
    var loaders: seq<LoaderKind>

    /** The loaders are tried in the order Cloudscraper, Httpx, Playwright,
        Singlefile. */
    constructor ()
      ensures loaders == [Cloudscraper, Httpx, Playwright, Singlefile]
      ensures Distinct(loaders)
    {
      loaders := [Cloudscraper, Httpx, Playwright, Singlefile];
    }

    /** `PipelineLoader.load`: the loaders are tried in order, each at most
        once; a failure or an empty text moves on to the next loader, the
        first non-empty text is returned and nothing after it is tried, and
        when the list runs out the error names the URL. `invoked` lists the
        loaders called, in the order they were called. */
    method Load(url: string, attempt: (LoaderKind, string) -> Outcome) returns (r: Result<string, string>, invoked: seq<LoaderKind>)
      ensures |invoked| <= |loaders| && invoked == loaders[..|invoked|]
      ensures Distinct(loaders) ==> Distinct(invoked)
      ensures r.Success? ==> |r.value| != 0
      ensures match FirstDelivering(loaders, url, attempt)
        case Some(k) => r == Success(attempt(loaders[k], url).text) && |invoked| == k + 1
        case None => r == Failure(LoadFailure(url)) && invoked == loaders
    {
      invoked := [];
      for i := 0 to |loaders|
        invariant invoked == loaders[..i]
        invariant forall j :: 0 <= j < i ==> !Delivers(attempt(loaders[j], url))
      {
        invoked := invoked + [loaders[i]];
        var o := attempt(loaders[i], url);
        if o.Fail? {
          continue;
        }
        if |o.text| == 0 {
          continue;
        }
        FirstIsLowest(loaders, url, attempt, i);
        return Success(o.text), invoked;
      }
      assert loaders[..|loaders|] == loaders;
      r := Failure(LoadFailure(url));
    }
  }

  /** When loader `i` delivers and none before it does, it is the first
      delivering one. */
  lemma FirstIsLowest(loaders: seq<LoaderKind>, url: string, attempt: (LoaderKind, string) -> Outcome, i: nat)
    requires i < |loaders| && Delivers(attempt(loaders[i], url))
    requires forall j :: 0 <= j < i ==> !Delivers(attempt(loaders[j], url))
    ensures FirstDelivering(loaders, url, attempt) == Some(i)
  {
  }

  /** The text returned depends only on the outcomes up to the first
      delivering loader: changing what a later loader would do changes
      nothing. */
  lemma LaterLoadersIrrelevant(loaders: seq<LoaderKind>, url: string, a: (LoaderKind, string) -> Outcome,
                               b: (LoaderKind, string) -> Outcome, k: nat)
    requires FirstDelivering(loaders, url, a) == Some(k)
    requires forall j :: 0 <= j <= k ==> a(loaders[j], url) == b(loaders[j], url)
    ensures FirstDelivering(loaders, url, b) == Some(k)
  {
    FirstIsLowest(loaders, url, b, k);
  }
}
