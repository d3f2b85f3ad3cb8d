/** POST /api/drivers/lookup (app/api/drivers/lookup/route.ts): for every
    queried driver name, in order, the first enabled group that lists it.
    The `driverGroups` collection is passed in as a sequence in the store's
    natural order; `findOne` is "first document satisfying the query". */
module Lookup {
  import opened Types

  /** The request body as parsed: a body that could not be read
      (`request.json()` or `body.drivers` threw), or a body whose `drivers`
      field is, or is not, an array. */
  datatype Request =
    | Unreadable(reason: string)
    | NotAnArray
    | DriverNames(names: seq<string>)

  datatype LookupResult = LookupResult(driver: string, found: bool, config: Option<DriverGroup>)

  datatype Response =
    | Results(results: seq<LookupResult>)
    | Error(status: int, message: string)

  const BadRequestMessage := "drivers must be an array of strings"

  /** The array element matches `name` exactly: bare entries only, since an
      object entry `{name}` is never equal to a string. */
  predicate Lists(g: DriverGroup, name: string) {
    g.drivers.Some? && Plain(name) in g.drivers.value
  }

  /** The document satisfies the query `{ drivers: name, enabled: true }`. */
  predicate MatchesQuery(g: DriverGroup, name: string) {
    g.enabled && Lists(g, name)
  }

  /** `k` is the position of the first document matching the query. */
  ghost predicate IsFirstMatch(collection: seq<DriverGroup>, name: string, k: int) {
    0 <= k < |collection| && MatchesQuery(collection[k], name)
    && forall j :: 0 <= j < k ==> !MatchesQuery(collection[j], name)
  }

  /** The position `findOne` returns, or None when no document matches. */
  function FirstMatch(collection: seq<DriverGroup>, name: string): (r: Option<nat>)
    ensures r.Some? ==> IsFirstMatch(collection, name, r.value)
    ensures r.None? <==> forall k :: 0 <= k < |collection| ==> !MatchesQuery(collection[k], name)
  {
    if collection == [] then None
    else if MatchesQuery(collection[0], name) then Some(0)
    else match FirstMatch(collection[1..], name)
      case None => None
      case Some(k) => Some(k + 1)
  }

  function FindOne(collection: seq<DriverGroup>, name: string): Option<DriverGroup> {
    match FirstMatch(collection, name)
    case None => None
    case Some(k) => Some(collection[k])
  }

  /** The record pushed for one name: `{driver, found: !!group, config: group}`. */
  function Resolve(collection: seq<DriverGroup>, name: string): LookupResult {
    var group := FindOne(collection, name);
    LookupResult(name, group.Some?, group)
  }

  /** What a lookup result for `name` must be, stated without `findOne`:
      the name echoed, `found` exactly when some enabled group lists the
      name, and then `config` is the first such group; otherwise null. */
  ghost predicate Resolves(collection: seq<DriverGroup>, name: string, r: LookupResult) {
    && r.driver == name
    && (r.found <==> exists k :: 0 <= k < |collection| && collection[k].enabled && Lists(collection[k], name))
    && (r.found ==> exists k :: IsFirstMatch(collection, name, k) && r.config == Some(collection[k]))
    && (!r.found ==> r.config == None)
  }

  lemma ResolveCorrect(collection: seq<DriverGroup>, name: string)
    ensures Resolves(collection, name, Resolve(collection, name))
  {
  }

  /** The handler. An unreadable body is the catch-all 500 with the thrown
      message; a non-array `drivers` is 400 before any query is made;
      otherwise one result per name, in input order. */
  method Post(collection: seq<DriverGroup>, request: Request) returns (response: Response)
    ensures request.Unreadable? ==> response == Error(500, request.reason)
    ensures request.NotAnArray? ==> response == Error(400, BadRequestMessage)
    ensures request.DriverNames? ==> response.Results?
    ensures request.DriverNames? ==> |response.results| == |request.names|
    ensures request.DriverNames? ==> forall i :: 0 <= i < |request.names| ==>
              Resolves(collection, request.names[i], response.results[i])
  {
    if request.Unreadable? {
      return Error(500, request.reason);
    }
    if request.NotAnArray? {
      return Error(400, BadRequestMessage);
    }
    var drivers := request.names;
    var results: seq<LookupResult> := [];
    var n := 0;
    while n < |drivers|
      invariant 0 <= n <= |drivers|
      invariant |results| == n
      invariant forall i :: 0 <= i < n ==> results[i] == Resolve(collection, drivers[i])
    {
      var driverName := drivers[n];
      var group := FindOne(collection, driverName);
      results := results + [LookupResult(driverName, group.Some?, group)];
      n := n + 1;
    }
    forall i | 0 <= i < |drivers|
      ensures Resolves(collection, drivers[i], results[i])
    {
      ResolveCorrect(collection, drivers[i]);
    }
    return Results(results);
  }

  /** There is at most one first match. */
  lemma FirstMatchUnique(collection: seq<DriverGroup>, name: string, k: int, k': int)
    requires IsFirstMatch(collection, name, k) && IsFirstMatch(collection, name, k')
    ensures k == k'
  {
  }

  /** The specification admits one result per name, so a name queried twice
      gets two equal, independent results. */
  lemma ResolvesIsFunctional(collection: seq<DriverGroup>, name: string, r: LookupResult, r': LookupResult)
    requires Resolves(collection, name, r) && Resolves(collection, name, r')
    ensures r == r'
  {
    if r.found {
      var k :| IsFirstMatch(collection, name, k) && r.config == Some(collection[k]);
      var k' :| IsFirstMatch(collection, name, k') && r'.config == Some(collection[k']);
      FirstMatchUnique(collection, name, k, k');
    }
  }

  /** A disabled group is never returned, and a returned group lists the
      queried name verbatim (no normalisation or case folding). */
  lemma ConfigIsEnabledAndListsName(collection: seq<DriverGroup>, name: string)
    ensures Resolve(collection, name).config.Some? ==>
              var g := Resolve(collection, name).config.value;
              g in collection && g.enabled && g.drivers.Some? && Plain(name) in g.drivers.value
  {
  }

  /** When exactly one enabled group lists the name, that group is the one returned. */
  lemma {:induction false} UniqueOwnerIsReturned(collection: seq<DriverGroup>, name: string, k: nat)
    requires k < |collection| && MatchesQuery(collection[k], name)
    requires forall j :: 0 <= j < |collection| && j != k ==> !MatchesQuery(collection[j], name)
    ensures Resolve(collection, name) == LookupResult(name, true, Some(collection[k]))
  {
    assert FirstMatch(collection, name).Some?;
  }

  /** Groups placed after the collection never change a name that is
      already found: resolution is first match in collection order. */
  lemma {:induction false} EarlierGroupWins(front: seq<DriverGroup>, back: seq<DriverGroup>, name: string)
    requires Resolve(front, name).found
    ensures Resolve(front + back, name) == Resolve(front, name)
  {
    var k := FirstMatch(front, name).value;
    assert (front + back)[k] == front[k];
    assert forall j :: 0 <= j < k ==> (front + back)[j] == front[j];
  }
}
