/**
 The pure part of the backend's `get_data`: building the query-parameter
 map sent to the city's open-data crime dataset, and turning the dataset's
 reply into the list of records handed back to the caller. The HTTP call
 itself is a parameter (`send`); the URL, the application-token header and
 the diagnostic printing are not modelled.
 */
module Api {
  import opened AsciiText

  /** A value that may be absent; `None` is Python's `None`. */
  datatype Option<T> = None | Some(value: T)

  /** A query-parameter value: the limit is an integer, the rest are text. */
  datatype ParamValue = IntParam(n: int) | TextParam(text: string)

  type Params = map<string, ParamValue>

  const LimitKey := "$limit"
  const OrderKey := "$order"
  const WhereKey := "$where"

  const DefaultLimit := 20

  /** Newest reports first. */
  const NewestFirst := "report_date_time DESC"

  const WherePrefix := "neighborhood = '"
  const WhereSuffix := "'"

  /** Python truthiness of the optional neighbourhood name (`if neighborhood:`). */
  function Truthy(neighborhood: Option<string>): (r: bool)
    ensures !r <==> neighborhood == None || neighborhood == Some("")
  {
    neighborhood.Some? && |neighborhood.value| > 0
  }

  /** Takes the text between the fixed prefix and the closing quote of a
      clause that has the shape `WhereClause` produces. */
  function ParseWhere(clause: string): (name: Option<string>) {
    if |clause| >= |WherePrefix| + |WhereSuffix|
       && clause[..|WherePrefix|] == WherePrefix
       && clause[|clause| - |WhereSuffix|..] == WhereSuffix
    then Some(clause[|WherePrefix|..|clause| - |WhereSuffix|])
    else None
  }

  /** The filter clause for one neighbourhood; the name is upper-cased and
      inserted between the quotes as it is, without escaping. Reading the
      clause back gives exactly the upper-cased name. */
  function WhereClause(name: string): (clause: string)
    ensures ParseWhere(clause) == Some(Upper(name))
  {
    var clause := WherePrefix + Upper(name) + WhereSuffix;
    assert clause[..|WherePrefix|] == WherePrefix;
    assert clause[|clause| - |WhereSuffix|..] == WhereSuffix;
    assert clause[|WherePrefix|..|clause| - |WhereSuffix|] == Upper(name);
    clause
  }

  /** Whatever `ParseWhere` accepts is the prefix, the name and the closing quote. */
  lemma ParseWhereSound(clause: string, name: string)
    requires ParseWhere(clause) == Some(name)
    ensures clause == WherePrefix + name + WhereSuffix
  {
    assert clause == clause[..|WherePrefix|]
                   + clause[|WherePrefix|..|clause| - |WhereSuffix|]
                   + clause[|clause| - |WhereSuffix|..];
  }

  /** The parameter map of one dataset query. */
  function BuildParams(neighborhood: Option<string> := None, limit: int := DefaultLimit): (params: Params)
    ensures params.Keys == {LimitKey, OrderKey} + (if Truthy(neighborhood) then {WhereKey} else {})
    ensures params[LimitKey] == IntParam(limit)
    ensures params[OrderKey] == TextParam(NewestFirst)
    ensures WhereKey in params <==> Truthy(neighborhood)
    ensures WhereKey in params ==>
              params[WhereKey].TextParam? && ParseWhere(params[WhereKey].text) == Some(Upper(neighborhood.value))
  {
    var base := map[LimitKey := IntParam(limit), OrderKey := TextParam(NewestFirst)];
    if Truthy(neighborhood) then
      base[WhereKey := TextParam(WhereClause(neighborhood.value))]
    else base
  }

  /** Called with no arguments, the query asks for the 20 newest reports city-wide. */
  lemma DefaultQuery()
    ensures BuildParams() == map[LimitKey := IntParam(20), OrderKey := TextParam(NewestFirst)]
  {}

  /** Neighbourhood names that differ only in letter case give the same query. */
  lemma NeighborhoodCaseIrrelevant(a: string, b: string, limit: int)
    requires DifferOnlyInCase(a, b)
    ensures BuildParams(Some(a), limit) == BuildParams(Some(b), limit)
  {
    UpperIgnoresCase(a, b);
  }

  /** An empty name is treated like no name at all. */
  lemma EmptyNeighborhoodIsCityWide(limit: int)
    ensures BuildParams(Some(""), limit) == BuildParams(None, limit)
  {}

  /** A quote inside the name is copied into the clause as it is, not escaped. */
  lemma QuoteNotEscaped()
    ensures BuildParams(Some("queen anne's"))[WhereKey] == TextParam("neighborhood = 'QUEEN ANNE'S'")
  {
    assert Upper("queen anne's") == "QUEEN ANNE'S";
  }

  /** A parsed JSON document; numbers keep their textual form. */
  datatype Json =
    | JNull
    | JBool(b: bool)
    | JNumber(literal: string)
    | JString(s: string)
    | JArray(items: seq<Json>)
    | JObject(members: seq<(string, Json)>)

  /** The dataset's reply: an HTTP status code and the parsed body. */
  datatype Reply = Reply(status: int, body: Json)

  const StatusOk := 200

  const NoRecords := JArray([])

  /** What `get_data` returns for a reply: the body on success, otherwise an empty list. */
  function RecordsOf(reply: Reply): (records: Json)
    ensures reply.status == StatusOk ==> records == reply.body
    ensures reply.status != StatusOk ==> records == NoRecords
  {
    if reply.status == StatusOk then reply.body else NoRecords
  }

  /** A failed request cannot be told apart from a successful one that found nothing. */
  lemma FailureLooksEmpty(reply: Reply)
    requires reply.status != StatusOk
    ensures RecordsOf(reply) == RecordsOf(Reply(StatusOk, NoRecords))
  {}

  /** `get_data(neighborhood, limit)`, with the network call `send` as a parameter. */
  function GetData(send: Params -> Reply, neighborhood: Option<string> := None, limit: int := DefaultLimit): (records: Json)
    ensures var reply := send(BuildParams(neighborhood, limit));
            records == (if reply.status == StatusOk then reply.body else NoRecords)
  {
    RecordsOf(send(BuildParams(neighborhood, limit)))
  }

  /** Neighbourhood names that differ only in letter case send the same
      query, so a server that answers a query the same way each time returns
      the same records. */
  lemma GetDataCaseIrrelevant(send: Params -> Reply, a: string, b: string, limit: int)
    requires DifferOnlyInCase(a, b)
    ensures GetData(send, Some(a), limit) == GetData(send, Some(b), limit)
  {
    NeighborhoodCaseIrrelevant(a, b, limit);
  }

  /** A service that never answers 200 yields no records for any query. */
  lemma GetDataFailingServiceIsEmpty(send: Params -> Reply, neighborhood: Option<string>, limit: int)
    requires forall p :: send(p).status != StatusOk
    ensures GetData(send, neighborhood, limit) == NoRecords
  {}
}
