/**
  The decision logic of the market HTTP handlers `Create`, `GetByQuery`,
  `Update` and `Delete`. JSON decoding, the struct validator and the use cases
  are collaborators whose outcomes are parameters: a body that failed to decode
  is `None`, validation errors are the list the validator returned, and a use
  case's outcome is given by flags. Each handler yields the kind of response it
  builds and the argument it called its use case with, if it called it.
*/
module MarketHandlers {
  import opened Wrappers
  import opened MarketQuery

  /** The response factory calls: `BadRequest(message)`, `ErrorResponseMapper(err)`, `Ok`, `Created`. */
  datatype Response = BadRequest(message: string) | MappedError | Ok | Created

  /** A handler's response and the use-case call it made (`None`: the use case was not invoked). */
  datatype Handled<A> = Handled(response: Response, call: Option<A>)

  /** The `Registro` field of a decoded body, `""` when it is unset. */
  function RegistroOf(body: ViewModel): string
  {
    if "Registro" in body && body["Registro"].StrVal? then body["Registro"].s else ""
  }

  /**
    `Create`: a body that does not decode or does not validate is a bad request and
    the use case is not called; otherwise the use case is called with the body, an
    error from it is mapped, and a market that already existed is `Ok`, not `Created`.
  */
  function Create(body: Option<ViewModel>, validationErrs: seq<string>, useCaseFails: bool, alreadyCreated: bool)
    : (r: Handled<ViewModel>)
    ensures r.call.Some? <==> body.Some? && validationErrs == []
    ensures r.call.Some? ==> r.call.value == body.value
    ensures r.response.BadRequest? <==> r.call.None?
    ensures body.None? ==> r.response == BadRequest("body is required")
    ensures body.Some? && validationErrs != [] ==> r.response == BadRequest(validationErrs[0])
    ensures r.response == MappedError <==> r.call.Some? && useCaseFails
    ensures r.response == Ok <==> r.call.Some? && !useCaseFails && alreadyCreated
    ensures r.response == Created <==> r.call.Some? && !useCaseFails && !alreadyCreated
  {
    if body.None? then Handled(BadRequest("body is required"), None)
    else if validationErrs != [] then Handled(BadRequest(validationErrs[0]), None)
    else
      var call := Some(body.value);
      if useCaseFails then Handled(MappedError, call)
      else if alreadyCreated then Handled(Ok, call)
      else Handled(Created, call)
  }

  /**
    `GetByQuery`: a query the binder refuses is a bad request carrying the binder's
    message, and the use case is not called; otherwise the use case is called with
    the bound filter, and its error is mapped.
  */
  function GetByQuery(fields: FieldTable, query: Query, useCaseFails: bool): (r: Handled<ViewModel>)
    requires ValuesPresent(query)
    ensures r.call.Some? <==> forall i :: 0 <= i < |query| ==> EntryError(fields, query[i]) == None
    ensures r.call.Some? ==> r.call.value == Bind(fields, query).model
    ensures Bind(fields, query).err.Some? ==> r.response == BadRequest(Message(Bind(fields, query).err.value))
    ensures r.response == Ok <==> r.call.Some? && !useCaseFails
    ensures r.response == MappedError <==> r.call.Some? && useCaseFails
  {
    BindErrorIsFirstEntryError(fields, query);
    var b := Bind(fields, query);
    match b.err
    case Some(e) => Handled(BadRequest(Message(e)), None)
    case None => Handled(if useCaseFails then MappedError else Ok, Some(b.model))
  }

  /**
    `Update`: the body must decode and must not set `Registro`; that check comes
    before the `registerCode` path parameter is looked at. Only then is the use
    case called, with the register code and the body.
  */
  function Update(body: Option<ViewModel>, params: map<string, string>, useCaseFails: bool)
    : (r: Handled<(string, ViewModel)>)
    ensures r.call.Some? <==> body.Some? && RegistroOf(body.value) == "" && "registerCode" in params
    ensures r.call.Some? ==> r.call.value == (params["registerCode"], body.value)
    ensures body.None? ==> r.response == BadRequest("body is required")
    ensures body.Some? && RegistroOf(body.value) != "" ==>
      r.response == BadRequest("the field 'registro' is not allowed")
    ensures body.Some? && RegistroOf(body.value) == "" && "registerCode" !in params ==>
      r.response == BadRequest("registerCode is required")
    ensures r.response == Ok <==> r.call.Some? && !useCaseFails
    ensures r.response == MappedError <==> r.call.Some? && useCaseFails
  {
    if body.None? then Handled(BadRequest("body is required"), None)
    else if RegistroOf(body.value) != "" then Handled(BadRequest("the field 'registro' is not allowed"), None)
    else if "registerCode" !in params then Handled(BadRequest("registerCode is required"), None)
    else
      var call := Some((params["registerCode"], body.value));
      if useCaseFails then Handled(MappedError, call) else Handled(Ok, call)
  }

  /**
    `Delete`: without a `registerCode` path parameter it is a bad request and the
    use case is not called; otherwise the use case is called with that code.
  */
  function Delete(params: map<string, string>, useCaseFails: bool): (r: Handled<string>)
    ensures r.call.Some? <==> "registerCode" in params
    ensures r.call.Some? ==> r.call.value == params["registerCode"]
    ensures r.call.None? ==> r.response == BadRequest("registerCode is required")
    ensures r.response == Ok <==> r.call.Some? && !useCaseFails
    ensures r.response == MappedError <==> r.call.Some? && useCaseFails
  {
    if "registerCode" !in params then Handled(BadRequest("registerCode is required"), None)
    else
      var call := Some(params["registerCode"]);
      if useCaseFails then Handled(MappedError, call) else Handled(Ok, call)
  }

  /**
    A body that sets `Registro` is refused the same way whatever the path parameters
    and the use case would do: the `registerCode` check is never reached.
  */
  lemma UpdateRefusesRegistroFirst(body: ViewModel, p1: map<string, string>, p2: map<string, string>, f1: bool, f2: bool)
    requires RegistroOf(body) != ""
    ensures Update(Some(body), p1, f1) == Update(Some(body), p2, f2)
    ensures Update(Some(body), p1, f1).call == None
  {
  }
}
