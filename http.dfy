/**
 * What the handlers send back: a status code and a JSON body. Bodies are
 * built from `gin.H` maps, so a JSON object is a map from key to value.
 */
module Http {

  /** A JSON value; `JTime` stands for a `time.Time`, which encodes as an RFC 3339 string. */
  datatype Json =
    | JNull
    | JNum(n: nat)
    | JStr(s: string)
    | JTime(t: nat)
    | JObj(fields: map<string, Json>)
    | JArr(items: seq<Json>)

  datatype Response = Response(status: nat, body: Json)

  /** The outcome of `c.ShouldBindJSON(&req)`: the decoded request, or the binding error's text. */
  datatype Bind<T> = Bound(req: T) | BindError(message: string)

  const StatusOK: nat := 200
  const StatusCreated: nat := 201
  const StatusBadRequest: nat := 400
  const StatusUnauthorized: nat := 401
  const StatusNotFound: nat := 404
  const StatusConflict: nat := 409
  const StatusInternalServerError: nat := 500

  /** `gin.H{"error": message}`. */
  function ErrorBody(message: string): Json
  {
    JObj(map["error" := JStr(message)])
  }

  /** `c.JSON(status, gin.H{"error": message})`. */
  function Failure(status: nat, message: string): Response
  {
    Response(status, ErrorBody(message))
  }

  /** Some object anywhere inside `j` has a field named `key`. */
  predicate MentionsKey(j: Json, key: string)
  {
    match j
    case JObj(m) => key in m || exists k :: k in m && MentionsKey(m[k], key)
    case JArr(xs) => exists i :: 0 <= i < |xs| && MentionsKey(xs[i], key)
    case _ => false
  }

  /** An error body names no field but "error". */
  lemma ErrorBodyMentionsOnlyError(message: string, key: string)
    ensures MentionsKey(ErrorBody(message), key) <==> key == "error"
  {
    var m := map["error" := JStr(message)];
    assert forall k :: k in m ==> !MentionsKey(m[k], key);
  }
}
