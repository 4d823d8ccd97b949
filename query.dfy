/** The `name` handler of week2/src/handlers/query.rs: greet the `name` query parameter, or fail with `BadRequest`. */
module Query {
  import opened Wrappers
  import opened AppErrors
  import Text

  /** The JSON body `{"message": ..}`. */
  datatype NameReply = NameReply(message: string)

  const MISSING_NAME := "Query Params not found!"

  function Name(params: map<string, string>): (r: Result<NameReply, AppError>)
    ensures r.Err? <==> "name" !in params
    ensures r.Err? ==> r.error == BadRequest(MISSING_NAME)
    ensures r.Ok? ==> r.value.message == "hello, " + params["name"] + "!"
  {
    if "name" in params then Ok(NameReply(Text.Salutation("hello", params["name"])))
    else Err(BadRequest(MISSING_NAME))
  }

  /** Only the `name` parameter matters: two queries that agree on it get the same result. */
  lemma OtherKeysIgnored(params: map<string, string>, params': map<string, string>)
    requires "name" in params <==> "name" in params'
    requires "name" in params ==> params["name"] == params'["name"]
    ensures Name(params) == Name(params')
  {
  }

  /** Different names get different messages. */
  lemma MessageDeterminesName(params: map<string, string>, params': map<string, string>)
    requires Name(params).Ok? && Name(params) == Name(params')
    ensures params["name"] == params'["name"]
  {
    Text.SalutationInjective("hello", params["name"], params'["name"]);
  }

  /** Through the error mapping, a query without `name` is answered 400 with the message verbatim. */
  lemma MissingNameIsBadRequest(params: map<string, string>)
    requires "name" !in params
    ensures IntoResponse(Name(params).error) == Response(BAD_REQUEST, Message(MISSING_NAME))
  {
  }
}
