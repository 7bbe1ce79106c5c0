/**
 * The server route that turns the upstream road-fatality payload into chart
 * records: it keeps three of the eleven string fields of each record, decodes
 * the federal-state code through a fixed table and parses the year and the
 * fatality count with `parseInt(…, 10)`.
 */
module TrafficRoute {
  import opened JsNumber
  import opened ParseInt

  /** One upstream record: every field is a string. */
  datatype RawTrafficData = RawTrafficData(
    berichtsjahr: string,
    monatId: string,
    stundeId: string,
    wochentagId: string,
    bundeslandId: string,
    gebietId: string,
    verkehrsartId: string,
    alterGrId: string,
    geschlechtId: string,
    ursacheId: string,
    getoetete: string)

  /** One chart record: the state's name, the year and the number of people killed. */
  datatype TrafficData = TrafficData(bundesland: string, jahr: Num, getotete: Num)

  /**
   * The value of the `verkehrstote` member of the upstream body: absent, an
   * array (whose elements are taken as records, as the route's type cast
   * does), or some other JSON value.
   */
  datatype Member = Absent | RecordArray(records: seq<RawTrafficData>) | NotAnArray

  /**
   * The parsed upstream JSON body, reduced to what the route inspects: its
   * kind, what makes it truthy, and for an object the `verkehrstote` member.
   * A JSON number is never NaN; only whether it is 0 matters here, so an
   * integer stands for it.
   */
  datatype Body =
    | NullBody
    | BooleanBody(b: bool)
    | NumberBody(n: int)
    | StringBody(s: string)
    | ArrayBody
    | ObjectBody(verkehrstote: Member)

  /** `data` used as a condition: null, false, 0 and the empty string are falsy. */
  predicate Truthy(body: Body)
  {
    match body
    case NullBody => false
    case BooleanBody(b) => b
    case NumberBody(n) => n != 0
    case StringBody(s) => s != ""
    case ArrayBody => true
    case ObjectBody(_) => true
  }

  /** `typeof data === 'object'`: true for null, arrays and objects. */
  predicate IsObjectType(body: Body)
  {
    body.NullBody? || body.ArrayBody? || body.ObjectBody?
  }

  /** `data.verkehrstote` for a non-null object: an array has no such member. */
  function VerkehrstoteOf(body: Body): Member
    requires body.ArrayBody? || body.ObjectBody?
  {
    if body.ArrayBody? then Absent else body.verkehrstote
  }

  /** `data && typeof data === 'object' && Array.isArray(data.verkehrstote)`, left to right. */
  predicate Guard(body: Body)
  {
    Truthy(body) && IsObjectType(body) && VerkehrstoteOf(body).RecordArray?
  }

  /** The federal-state codes and the names they stand for. */
  const BundeslandMapping: map<string, string> := map[
    "1" := "Burgenland",
    "2" := "Kärnten",
    "3" := "Niederösterreich",
    "4" := "Oberösterreich",
    "5" := "Salzburg",
    "6" := "Steiermark",
    "7" := "Tirol",
    "8" := "Vorarlberg",
    "9" := "Wien"
  ]

  /** The nine state names the table can produce. */
  const RegionNames: set<string> := {
    "Burgenland", "Kärnten", "Niederösterreich", "Oberösterreich", "Salzburg",
    "Steiermark", "Tirol", "Vorarlberg", "Wien"
  }

  /**
   * `bundeslandMapping[id] || id`: the table's name for a known code; any
   * other code, the empty string included, passes through unchanged.
   */
  function DecodeBundesland(id: string): (r: string)
    ensures id in BundeslandMapping ==> r == BundeslandMapping[id] && r in RegionNames
    ensures r == id <==> id !in BundeslandMapping
  {
    if id in BundeslandMapping && BundeslandMapping[id] != "" then BundeslandMapping[id] else id
  }

  /** The table decodes exactly the codes 1 to 9, each to its state. */
  lemma MappingTable()
    ensures BundeslandMapping.Keys == {"1", "2", "3", "4", "5", "6", "7", "8", "9"}
    ensures DecodeBundesland("1") == "Burgenland" && DecodeBundesland("2") == "Kärnten"
    ensures DecodeBundesland("3") == "Niederösterreich" && DecodeBundesland("4") == "Oberösterreich"
    ensures DecodeBundesland("5") == "Salzburg" && DecodeBundesland("6") == "Steiermark"
    ensures DecodeBundesland("7") == "Tirol" && DecodeBundesland("8") == "Vorarlberg"
    ensures DecodeBundesland("9") == "Wien"
  {
  }

  /** Every state name is the decoding of some code. */
  lemma MappingIsOnto()
    ensures BundeslandMapping.Values == RegionNames
  {
    MappingTable();
    var m := BundeslandMapping;
    forall v | v in RegionNames ensures v in m.Values {
      if v == "Burgenland" { assert m["1"] == v; }
      else if v == "Kärnten" { assert m["2"] == v; }
      else if v == "Niederösterreich" { assert m["3"] == v; }
      else if v == "Oberösterreich" { assert m["4"] == v; }
      else if v == "Salzburg" { assert m["5"] == v; }
      else if v == "Steiermark" { assert m["6"] == v; }
      else if v == "Tirol" { assert m["7"] == v; }
      else if v == "Vorarlberg" { assert m["8"] == v; }
      else { assert m["9"] == v; }
    }
  }

  /** The nine names are pairwise distinct: no two codes decode to the same state. */
  lemma MappingIsInjective()
    ensures |RegionNames| == 9
    ensures forall a, b :: a in BundeslandMapping && b in BundeslandMapping && a != b
                           ==> DecodeBundesland(a) != DecodeBundesland(b)
  {
    MappingTable();
  }

  /** The guard passes exactly for an object whose `verkehrstote` member is an array. */
  lemma GuardAcceptsOnlyRecordArrays(body: Body)
    ensures Guard(body) <==> body.ObjectBody? && body.verkehrstote.RecordArray?
  {
  }

  /** `null` passes the `typeof` test but not the truthiness test before it. */
  lemma NullFailsTheGuard()
    ensures IsObjectType(NullBody) && !Truthy(NullBody) && !Guard(NullBody)
  {
  }

  /** `rawArray`: the `verkehrstote` array when the guard passes, and `[]` otherwise. */
  function RawArray(body: Body): (r: seq<RawTrafficData>)
    ensures body.ObjectBody? && body.verkehrstote.RecordArray? ==> r == body.verkehrstote.records
    ensures !(body.ObjectBody? && body.verkehrstote.RecordArray?) ==> r == []
  {
    if Guard(body) then VerkehrstoteOf(body).records else []
  }

  /**
   * The object literal built for one record: the decoded state (a table
   * name, or the code itself when the table has none) and two parsed
   * numbers, which may be NaN but never `null`.
   */
  function NormalizeRecord(item: RawTrafficData): (r: TrafficData)
    ensures item.bundeslandId in BundeslandMapping ==> r.bundesland in RegionNames
    ensures item.bundeslandId !in BundeslandMapping ==> r.bundesland == item.bundeslandId
    ensures !r.jahr.Null? && !r.getotete.Null?
    ensures (forall k :: 0 <= k < |item.getoetete| ==> !IsDigit(item.getoetete[k])) ==> r.getotete == NaN
  {
    TrafficData(
      DecodeBundesland(item.bundeslandId),
      ParseInt10(item.berichtsjahr),
      ParseInt10(item.getoetete))
  }

  /** `rawArray.map(…)`: one chart record per upstream record, in the same order. */
  function Normalize(items: seq<RawTrafficData>): (r: seq<TrafficData>)
    ensures |r| == |items|
    ensures forall i :: 0 <= i < |items| ==> r[i] == NormalizeRecord(items[i])
  {
    if items == [] then [] else [NormalizeRecord(items[0])] + Normalize(items[1..])
  }

  /** The route's result for a successfully fetched and parsed body. */
  function Route(body: Body): (r: seq<TrafficData>)
    ensures |r| == |RawArray(body)|
    ensures forall i :: 0 <= i < |r| ==> r[i] == NormalizeRecord(RawArray(body)[i])
  {
    Normalize(RawArray(body))
  }

  /**
   * The route yields no records exactly when the guard fails or the array it
   * accepted is empty: every other body, null, a primitive, an array or an
   * object without an array-valued `verkehrstote`, gives `[]`.
   */
  lemma RouteWithoutRecordArray(body: Body)
    ensures Route(body) == [] <==> !Guard(body) || VerkehrstoteOf(body).records == []
  {
  }

  /** Only the state code, the year and the fatality count of a record affect its chart record. */
  lemma OtherFieldsIgnored(a: RawTrafficData, b: RawTrafficData)
    requires a.bundeslandId == b.bundeslandId
    requires a.berichtsjahr == b.berichtsjahr
    requires a.getoetete == b.getoetete
    ensures NormalizeRecord(a) == NormalizeRecord(b)
  {
  }

  /** A record whose year and count are numerals gets their values. */
  lemma {:induction false} NormalizeParsesFields(item: RawTrafficData)
    requires item.berichtsjahr != [] && AllDigits(item.berichtsjahr)
    requires item.getoetete != [] && AllDigits(item.getoetete)
    ensures NormalizeRecord(item).jahr == Val(DigitsValue(item.berichtsjahr))
    ensures NormalizeRecord(item).getotete == Val(DigitsValue(item.getoetete))
    ensures NormalizeRecord(item).bundesland == DecodeBundesland(item.bundeslandId)
  {
    ParseIntOfDigits(item.berichtsjahr);
    ParseIntOfDigits(item.getoetete);
  }

  /** A record whose count does not begin with a digit, a sign or white space gets a NaN count instead of failing. */
  lemma {:induction false} NormalizeUnparsableCount(item: RawTrafficData)
    requires item.getoetete == [] ||
             !(IsDigit(item.getoetete[0]) || IsWhiteSpace(item.getoetete[0]) ||
               item.getoetete[0] == '+' || item.getoetete[0] == '-')
    ensures NormalizeRecord(item).getotete == NaN
  {
    ParseIntWithoutDigits([], [], item.getoetete);
    assert [] + [] + item.getoetete == item.getoetete;
  }

  /**
   * `NextResponse.json(result)` read back with `res.json()`: the page gets
   * the same records, except that JSON cannot hold NaN, so a NaN year or
   * count arrives as `null`.
   */
  function Transmit(records: seq<TrafficData>): (r: seq<TrafficData>)
    ensures |r| == |records|
    ensures forall i :: 0 <= i < |r| ==>
              && r[i].bundesland == records[i].bundesland
              && r[i].jahr == JsonRoundTrip(records[i].jahr)
              && r[i].getotete == JsonRoundTrip(records[i].getotete)
    ensures forall i :: 0 <= i < |r| ==> !r[i].jahr.NaN? && !r[i].getotete.NaN?
  {
    seq(|records|, i requires 0 <= i < |records| =>
      TrafficData(records[i].bundesland, JsonRoundTrip(records[i].jahr), JsonRoundTrip(records[i].getotete)))
  }

  /** A parsed year or count crosses to the page unchanged; one that failed to parse arrives as `null`. */
  lemma TransmitOfRoute(body: Body, i: nat)
    requires i < |Route(body)|
    ensures var sent, got := Route(body)[i], Transmit(Route(body))[i];
            && (got.jahr == sent.jahr <==> sent.jahr.Val?)
            && (got.jahr.Null? <==> sent.jahr.NaN?)
            && (got.getotete == sent.getotete <==> sent.getotete.Val?)
            && (got.getotete.Null? <==> sent.getotete.NaN?)
  {
  }
}
