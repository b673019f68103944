/** The checks `fetch_option_chain` makes on the provider's reply once the
    two GET requests have returned (app.py, lines 41-50). The requests
    themselves are not modelled: the status code and the decoded body are
    inputs. */
module MarketData {
  import opened Wrappers
  import opened OptionChain

  datatype FetchError =
    | Blocked(status: int)   // a status other than 200
    | UnexpectedResponse     // a 200 reply whose body has no `records` key

  /** Accepts only a 200 reply whose body has a `records` key, and then
      hands the body back unchanged. The status is checked first. */
  function CheckResponse(status: int, body: Body): (r: Result<Body, FetchError>)
    ensures r.Success? <==> status == 200 && "records" in body
    ensures r.Success? ==> r.value == body
    ensures status != 200 ==> r == Failure(Blocked(status))
    ensures status == 200 && "records" !in body ==> r == Failure(UnexpectedResponse)
  {
    if status != 200 then Failure(Blocked(status))
    else if "records" !in body then Failure(UnexpectedResponse)
    else Success(body)
  }
}
