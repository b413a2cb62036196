/** How the outcome of one call to the remote scoring service becomes the
    fields written onto a row. The call itself (endpoint, bearer credential,
    JSON body, 10-second timeout) is outside the model: its outcome is given. */
module RemoteAdapter {
  import opened Records

  /** What `res.json()` gives: a JSON object, or an error (a body that does not
      parse, or a JSON value that `dict.update` refuses) with its message. */
  datatype Body = JsonObject(fields: Record) | Unusable(error: string)

  /** The outcome of one request: an HTTP response, or the exception raised by
      the request itself (connection refused, timeout, ...), with its message. */
  datatype Reply = Responded(code: int, body: Body) | Raised(error: string)

  const SuccessCode: int := 200

  const ApiErrorStatus: string := "API Error"
  const ConnectionFailedStatus: string := "Connection Failed"
  const UnknownSeverity: string := "Unknown"
  const CheckApiAdvice: string := "Check API"

  /** The sentinel written when the service answers with any code but 200. */
  const ApiErrorFields: Record := map[
    StatusKey := Text(ApiErrorStatus),
    RiskScoreKey := Null,
    SeverityKey := Text(UnknownSeverity),
    RecommendationKey := Text(CheckApiAdvice)]

  /** The sentinel written when the request or the reading of its body raised. */
  function ConnectionFailedFields(message: string): Record
  {
    map[StatusKey := Text(ConnectionFailedStatus),
        RiskScoreKey := Null,
        SeverityKey := Text(UnknownSeverity),
        RecommendationKey := Text(message)]
  }

  /** The reply is used as the result: status exactly 200 and a JSON object body. */
  predicate Accepted(reply: Reply)
  {
    reply.Responded? && reply.code == SuccessCode && reply.body.JsonObject?
  }

  /** The dictionary the remote branch merges onto a row: the reply's own
      object when it is accepted, otherwise one of the two four-key sentinels,
      told apart by whether the service answered. */
  function RemoteFields(reply: Reply): (fields: Record)
    ensures Accepted(reply) ==> fields == reply.body.fields
    ensures !Accepted(reply) ==> fields.Keys == ResultKeys
    ensures !Accepted(reply) ==> fields[RiskScoreKey] == Null && fields[SeverityKey] == Text(UnknownSeverity)
    ensures !Accepted(reply) ==>
      (fields == ApiErrorFields <==> reply.Responded? && reply.code != SuccessCode)
    ensures !Accepted(reply) && !(reply.Responded? && reply.code != SuccessCode) ==>
      fields == ConnectionFailedFields(if reply.Raised? then reply.error else reply.body.error)
  {
    match reply
    case Raised(message) => ConnectionFailedFields(message)
    case Responded(code, body) =>
      if code == SuccessCode then
        match body
        case JsonObject(fields) => fields
        case Unusable(message) => ConnectionFailedFields(message)
      else ApiErrorFields
  }

  /** Only status 200 counts as success: any other code, 2xx included, gives
      exactly the API Error sentinel, whatever the body holds. */
  lemma OnlyExact200Succeeds(code: int, body: Body)
    ensures code != 200 ==> RemoteFields(Responded(code, body)) == ApiErrorFields
    ensures code == 200 && body.JsonObject? ==> RemoteFields(Responded(code, body)) == body.fields
    ensures RemoteFields(Responded(204, body)) == ApiErrorFields
  {
  }

  /** Any exception inside the try, raised by the request or by `res.json()`,
      gives the Connection Failed sentinel carrying the exception's message. */
  lemma RaisedGivesConnectionFailed(reply: Reply)
    ensures reply.Raised? ==> RemoteFields(reply) == ConnectionFailedFields(reply.error)
    ensures reply.Responded? && reply.code == 200 && reply.body.Unusable?
      ==> RemoteFields(reply) == ConnectionFailedFields(reply.body.error)
  {
  }

  /** Whenever the reply is not accepted, the fields are one of the two
      sentinels: all four keys, no risk score and severity "Unknown". */
  lemma RejectedReplyCarriesAllKeys(reply: Reply)
    requires !Accepted(reply)
    ensures var f := RemoteFields(reply);
      && f.Keys == ResultKeys
      && f[RiskScoreKey] == Null
      && f[SeverityKey] == Text(UnknownSeverity)
      && (f[StatusKey] == Text(ApiErrorStatus) || f[StatusKey] == Text(ConnectionFailedStatus))
      && (f[StatusKey] == Text(ApiErrorStatus) <==> reply.Responded? && reply.code != 200)
  {
  }

  /** An accepted reply is merged verbatim, with no key added or backfilled. */
  lemma AcceptedReplyIsVerbatim(reply: Reply)
    requires Accepted(reply)
    ensures RemoteFields(reply) == reply.body.fields
  {
  }

  /** A 200 reply that omits severity leaves the row without one, or with the
      upload's own severity column: nothing is backfilled, so not every row
      carries the four result fields. */
  lemma AcceptedReplyMayOmitSeverity()
    ensures var row := Update(map["amount" := Number(5.0)],
                              RemoteFields(Responded(200, JsonObject(map[StatusKey := Text("ok")]))));
      SeverityKey !in row && RiskScoreKey !in row && row[StatusKey] == Text("ok")
    ensures Update(map[SeverityKey := Text("csv")], RemoteFields(Responded(200, JsonObject(map[]))))[SeverityKey]
      == Text("csv")
  {
  }

  /** The service answering {"risk_score": 42.5, "severity": "Low", "status": "ok",
      "recommendation": "none"} puts exactly those values on the row. */
  lemma SuccessExampleMergedVerbatim(rowData: Record)
    ensures var reply := map[RiskScoreKey := Number(42.5), SeverityKey := Text("Low"),
                             StatusKey := Text("ok"), RecommendationKey := Text("none")];
      var row := Update(rowData, RemoteFields(Responded(200, JsonObject(reply))));
      && row[RiskScoreKey] == Number(42.5) && row[SeverityKey] == Text("Low")
      && row[StatusKey] == Text("ok") && row[RecommendationKey] == Text("none")
      && forall k :: k in rowData && k !in ResultKeys ==> row[k] == rowData[k]
  {
  }

  /** An HTTP 500 gives exactly the API Error sentinel on the row. */
  lemma ServerErrorExample(rowData: Record, body: Body)
    ensures var row := Update(rowData, RemoteFields(Responded(500, body)));
      && row[StatusKey] == Text("API Error") && row[RiskScoreKey] == Null
      && row[SeverityKey] == Text("Unknown") && row[RecommendationKey] == Text("Check API")
  {
  }
}
