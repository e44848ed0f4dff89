/** `fact_check`: the generated response is searched for on the web, and it is kept only when
    some search result contains it; otherwise it is replaced by a fixed notice. Python's `in`
    depends on the result's type: a text result is searched for the response as a substring,
    a record (the search APIs return dictionaries) is searched among its keys. The language
    model may also have produced `None` instead of text. */
module FactCheck {
  import opened Wrappers
  import opened Text

  const NeedsVerification: string := "Response needs verification."

  datatype SearchResult = Snippet(text: string) | Record(keys: seq<string>)

  /** The web search raised, or `None in text` raised a type error. */
  datatype CheckError = SearchFailed | NoneInText

  /** The search backend, queried with the response itself. */
  type Search = Option<string> -> Result<seq<SearchResult>, CheckError>

  /** `response in result` in Python. */
  function In(response: Option<string>, result: SearchResult): Result<bool, CheckError> {
    match (response, result)
    case (Some(s), Snippet(t)) => Success(StrIn(s, t))
    case (Some(s), Record(keys)) => Success(s in keys)
    case (None, Snippet(_)) => Failure(NoneInText)
    case (None, Record(_)) => Success(false)
  }

  /** A result vouches for a text when it contains it. */
  ghost predicate Supports(s: string, result: SearchResult) {
    match result
    case Snippet(t) => Occurs(s, t)
    case Record(keys) => s in keys
  }

  ghost predicate Supported(s: string, results: seq<SearchResult>) {
    exists i :: 0 <= i < |results| && Supports(s, results[i])
  }

  predicate HasSnippet(results: seq<SearchResult>) {
    exists i :: 0 <= i < |results| && results[i].Snippet?
  }

  lemma InMeansSupports(response: Option<string>, result: SearchResult)
    ensures response.Some? ==> In(response, result) == Success(Supports(response.value, result))
  {
    if response.Some? && result.Snippet? {
      StrInIffOccurs(response.value, result.text);
    }
  }

  /** `any(response in result for result in results)`: the first test that holds ends the
      scan, and a test that raises propagates. */
  function AnyIn(response: Option<string>, results: seq<SearchResult>): (r: Result<bool, CheckError>)
    ensures response.Some? ==> r.Success? && (r.value <==> Supported(response.value, results))
    ensures response.None? ==> (r.Failure? <==> HasSnippet(results))
    ensures response.None? && r.Success? ==> !r.value
    decreases |results|
  {
    if |results| == 0 then Success(false)
    else
      InMeansSupports(response, results[0]);
      match In(response, results[0])
      case Failure(e) => Failure(e)
      case Success(true) => Success(true)
      case Success(false) =>
        var rest := AnyIn(response, results[1..]);
        assert forall i :: 1 <= i < |results| ==> results[i] == results[1..][i - 1];
        assert forall i :: 0 <= i < |results[1..]| ==> results[1..][i] == results[i + 1];
        rest
  }

  /** `fact_check(response, search_api)`. */
  function FactCheck(response: Option<string>, search: Search): (r: Result<string, CheckError>)
    ensures search(response).Failure? ==> r.Failure?
    ensures r.Success? ==> r.value == NeedsVerification || Some(r.value) == response
    ensures search(response) == Success([]) ==> r == Success(NeedsVerification)
    ensures search(response).Success? && response.Some? ==> r.Success?
    ensures search(response).Success? && response.Some? && Supported(response.value, search(response).value) ==>
      r.value == response.value
    ensures search(response).Success? && response.Some? && !Supported(response.value, search(response).value) ==>
      r.value == NeedsVerification
    ensures search(response).Success? && response.None? ==> (r.Failure? <==> HasSnippet(search(response).value))
  {
    match search(response)
    case Failure(e) => Failure(e)
    case Success(results) =>
      match AnyIn(response, results)
      case Failure(e) => Failure(e)
      case Success(found) =>
        if found then Success(response.value) else Success(NeedsVerification)
  }
}
