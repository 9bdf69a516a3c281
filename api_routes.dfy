/** The shared API description: the routes with their paths and response codes, the error
    bodies, and `buildUrl`, which fills `:key` placeholders of a path from a parameter list. */
module ApiRoutes {
  import opened Wrappers
  import opened Text

  datatype HttpMethod = Get | Post | Put | Delete

  /** A route: its method, its path template and the status codes it may answer with. */
  datatype Route = Route(httpMethod: HttpMethod, path: string, responses: set<int>)

  const ListRoute: Route := Route(Get, "/api/kpi", {200})
  const CreateRoute: Route := Route(Post, "/api/kpi", {201, 400})
  const UpdateRoute: Route := Route(Put, "/api/kpi/:id", {200, 404})
  const DeleteRoute: Route := Route(Delete, "/api/kpi/:id", {204, 404})
  const StatsRoute: Route := Route(Get, "/api/kpi/stats", {200})

  /** The error bodies: a validation error may name the field; the others carry only a message. */
  datatype ApiError =
    | ValidationError(message: string, field: Option<string>)
    | NotFoundError(message: string)
    | InternalError(message: string)

  /** Update and delete address one record through the same path; list and create share theirs. */
  lemma RoutePaths()
    ensures UpdateRoute.path == DeleteRoute.path == "/api/kpi/:id"
    ensures ListRoute.path == CreateRoute.path != UpdateRoute.path
    ensures UpdateRoute.httpMethod != DeleteRoute.httpMethod
  {
  }

  // --- buildUrl ---

  /** A parameter value: a string, or an integer written with `String(n)`. */
  datatype ParamValue = StrParam(s: string) | IntParam(n: int)

  function ValueText(v: ParamValue): string {
    match v
    case StrParam(s) => s
    case IntParam(n) => IntToString(n)
  }

  function Placeholder(key: string): (p: string)
    ensures |p| == |key| + 1 && p[0] == ':'
  {
    ":" + key
  }

  /** One entry's step: the first `:key` is replaced when present, otherwise nothing changes. */
  function Substitute(url: string, key: string, value: ParamValue): string {
    if Includes(url, Placeholder(key)) then ReplaceFirst(url, Placeholder(key), ValueText(value))
    else url
  }

  /** The entries applied in order, each to the previous result. */
  function ApplyEntries(url: string, entries: seq<(string, ParamValue)>): string
    decreases |entries|
  {
    if entries == [] then url
    else ApplyEntries(Substitute(url, entries[0].0, entries[0].1), entries[1..])
  }

  /** `buildUrl(path, params)`, with `params` as its `Object.entries` list (or absent). */
  method BuildUrl(path: string, params: Option<seq<(string, ParamValue)>>) returns (url: string)
    ensures params.None? ==> url == path
    ensures params.Some? ==> url == ApplyEntries(path, params.value)
  {
    url := path;
    if params.Some? {
      var entries := params.value;
      var i := 0;
      while i < |entries|
        invariant 0 <= i <= |entries|
        invariant ApplyEntries(url, entries[i..]) == ApplyEntries(path, entries)
      {
        var key := entries[i].0;
        var value := entries[i].1;
        assert entries[i..][1..] == entries[i + 1..];
        if Includes(url, ":" + key) {
          url := ReplaceFirst(url, ":" + key, ValueText(value));
        }
        i := i + 1;
      }
    }
  }

  /** A key whose placeholder is absent leaves the url as it was. */
  lemma AbsentKeyUnchanged(url: string, key: string, value: ParamValue)
    requires !Includes(url, Placeholder(key))
    ensures Substitute(url, key, value) == url
  {
  }

  /** A key whose placeholder first occurs at `i` has that occurrence, and only that one,
      replaced by the value's text. */
  lemma PresentKeyReplacedOnce(url: string, key: string, value: ParamValue, i: int)
    requires OccursAt(url, Placeholder(key), i)
    requires forall j :: 0 <= j < i ==> !OccursAt(url, Placeholder(key), j)
    ensures Substitute(url, key, value) == url[..i] + ValueText(value) + url[i + |key| + 1..]
  {
    IncludesAt(url, Placeholder(key), i);
    ReplaceFirstAt(url, Placeholder(key), ValueText(value), i);
  }

  /** Applying two lists of entries one after the other is applying their concatenation. */
  lemma {:induction false} ApplyEntriesAppend(url: string, a: seq<(string, ParamValue)>, b: seq<(string, ParamValue)>)
    ensures ApplyEntries(url, a + b) == ApplyEntries(ApplyEntries(url, a), b)
    decreases |a|
  {
    if a == [] {
      assert a + b == b;
    } else {
      assert (a + b)[0] == a[0];
      assert (a + b)[1..] == a[1..] + b;
      ApplyEntriesAppend(Substitute(url, a[0].0, a[0].1), a[1..], b);
    }
  }

  /** Placeholders in a path with no other ':' are filled as expected:
      `buildUrl("/api/kpi/:id", {id: n})` is "/api/kpi/" followed by `String(n)`. */
  lemma RecordUrl(n: int)
    ensures ApplyEntries(UpdateRoute.path, [("id", IntParam(n))]) == "/api/kpi/" + IntToString(n)
  {
    var pre := "/api/kpi/";
    var url := pre + ":id";
    assert UpdateRoute.path == url;
    NoOccurrenceInPrefix(pre, ":id", ":id");
    assert OccursAt(url, ":id", |pre|);
    PresentKeyReplacedOnce(url, "id", IntParam(n), |pre|);
    assert url[..|pre|] == pre;
    assert url[|pre| + 3..] == "";
    var entries := [("id", IntParam(n))];
    assert ApplyEntries(url, entries) == ApplyEntries(Substitute(url, "id", IntParam(n)), entries[1..]);
  }

  /** A parameter the path does not mention is ignored, wherever it appears in the list. */
  lemma UnusedParamIgnored(n: int, team: ParamValue)
    ensures ApplyEntries(UpdateRoute.path, [("team", team), ("id", IntParam(n))]) ==
            ApplyEntries(UpdateRoute.path, [("id", IntParam(n))])
  {
    NotIncludesByChar(UpdateRoute.path, Placeholder("team"), 1);
    var entries := [("team", team), ("id", IntParam(n))];
    assert entries[1..] == [("id", IntParam(n))];
  }
}
