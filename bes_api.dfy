/** The remote inventory client: for each entity, the request it sends and how it turns
    the reply into records. The transport is a parameter: `Server.reply` is what
    `Execute(request)` answers (nothing when the request failed, as BesApi.cs returns
    null), and the typed listings are what `Execute<List<T>>` answers. What the client
    reads from the store (the Site table, and the analysis lookups the store offers) is a
    parameter too.

    Each fetch is stated as a function of the replies; the methods follow the C#
    loops and are proved to compute that function. A fault (an exception in BesApi.cs)
    ends the fetch, and the aggregating overloads with it. */
module BesApi {
  import opened Wrappers
  import opened Lists
  import opened Conversions
  import opened Xml
  import opened Uri
  import opened Entities
  import opened Tables
  import opened BesDb
  import opened Requests

  datatype Server = Server(
    reply: Request -> Option<Document>,
    analyses: Request -> Option<seq<Analysis>>,
    groups: Request -> Option<seq<ComputerGroup>>,
    computers: Request -> Option<seq<Computer>>)

  /** What one fetch can see: the server, the store's Site table, and the store's
      analysis lookups by (SiteID, AnalysisID) and by store ID. */
  datatype Env = Env(
    server: Server,
    sites: seq<Site>,
    analysisInSite: (int, int) -> Option<Analysis>,
    analysisWithID: int -> Option<Analysis>)

  // Reading a reply.

  /** The document a request answered; a failed request is dereferenced as null. */
  function Answered(server: Server, request: Request): (r: Result<Document>)
    ensures r.Ok? <==> server.reply(request).Some?
  {
    Required(server.reply(request), "reply")
  }

  /** `document.Element(name)`, dereferenced. */
  function Top(d: Document, name: string): (r: Result<Element>)
    ensures r.Ok? <==> d.root.name == name
    ensures r.Ok? ==> r.value == d.root
  {
    Required(Root(d, name), name)
  }

  /** `element.Element(name)`, dereferenced. */
  function Sub(e: Element, name: string): (r: Result<Element>)
    ensures r.Ok? <==> Children(e, name) != []
    ensures r.Ok? ==> r.value == Children(e, name)[0]
  {
    Required(Child(e, name), name)
  }

  /** `element.Attribute(name).Value`, dereferenced. */
  function Attr(e: Element, name: string): (r: Result<string>)
    ensures r.Ok? <==> AttributeValue(e, name).Some?
    ensures r.Ok? ==> r.value == AttributeValue(e, name).value
  {
    Required(AttributeValue(e, name), name)
  }

  /** `BESAPI/Query/Result` of a relevance reply. */
  function QueryResult(d: Document): Result<Element> {
    var besapi :- Top(d, "BESAPI");
    var query :- Sub(besapi, "Query");
    Sub(query, "Result")
  }

  /** The answers of one tuple, read by position. */
  function Answers(tuple: Element): seq<Element> {
    Children(tuple, "Answer")
  }

  /** `Elements("Answer").First()`. */
  function FirstAnswer(tuple: Element): (r: Result<Element>)
    ensures r.Ok? <==> Answers(tuple) != []
    ensures r.Ok? ==> r.value == Answers(tuple)[0]
  {
    var a := Answers(tuple);
    if a == [] then Err(NoElements("Answer")) else Ok(a[0])
  }

  /** `Elements("Answer").ElementAt(1)`. */
  function SecondAnswer(tuple: Element): (r: Result<Element>)
    ensures r.Ok? <==> |Answers(tuple)| >= 2
    ensures r.Ok? ==> r.value == Answers(tuple)[1]
  {
    var a := Answers(tuple);
    if |a| < 2 then Err(OutOfRange("Answer")) else Ok(a[1])
  }

  /** `Elements("Answer").Last()`, read only after `First()` has succeeded, so it cannot
      fail. */
  function LastAnswer(tuple: Element): Element
    requires Answers(tuple) != []
  {
    Answers(tuple)[|Answers(tuple)| - 1]
  }

  // Sites.

  /** The type of a site, from the name of its element in the `sites` reply. */
  function SiteTypeOf(elementName: string): string {
    if elementName == "ActionSite" then Master else Lower(RemoveAll(elementName, "Site"))
  }

  /** `<XSite>` for a site kind X (with no capital S of its own, other than the action
      site) gives the type "x" in lower case. */
  lemma SiteTypeOfKind(kind: string)
    requires kind != "Action"
    requires forall i :: 0 <= i < |kind| ==> kind[i] != 'S'
    ensures SiteTypeOf(kind + "Site") == Lower(kind)
  {
    NotActionSite(kind);
    assert "Site"[0] == 'S';
    RemoveAllSuffix(kind, "Site");
  }

  lemma NotActionSite(kind: string)
    requires kind != "Action"
    ensures kind + "Site" != "ActionSite"
  {
    if |kind| == 6 {
      assert forall i :: 0 <= i < 6 ==> kind[i] == (kind + "Site")[i];
      assert (kind + "Site")[..6] != "ActionSite"[..6];
    }
  }

  function SiteOf(u: (), e: Element): (r: Result<Site>)
    ensures r.Ok? <==> Children(e, "Name") != []
    ensures r.Ok? ==> r.value == Site(0, Value(Children(e, "Name")[0]), SiteTypeOf(e.name))
  {
    var name :- Sub(e, "Name");
    Ok(Site(0, Value(name), SiteTypeOf(e.name)))
  }

  /** GetSites: one site per child element of `BESAPI`, in document order, named by its
      `Name` child and typed by the element's name. */
  function SitesOf(server: Server): (r: Result<seq<Site>>)
    ensures r.Ok? ==> server.reply(SitesRequest).Some? && server.reply(SitesRequest).value.root.name == "BESAPI"
    ensures r.Ok? ==>
      var elements := server.reply(SitesRequest).value.root.children;
      && |r.value| == |elements|
      && forall i :: 0 <= i < |elements| ==>
           && r.value[i].Type == SiteTypeOf(elements[i].name)
           && Children(elements[i], "Name") != []
           && r.value[i].Name == Value(Children(elements[i], "Name")[0])
  {
    var doc :- Answered(server, SitesRequest);
    var besapi :- Top(doc, "BESAPI");
    MapAll((), besapi.children, SiteOf)
  }

  method GetSites(server: Server) returns (r: Result<seq<Site>>)
    ensures r == SitesOf(server)
  {
    var doc := Answered(server, SitesRequest);
    if doc.Err? {
      return Err(doc.error);
    }
    var besapi := Top(doc.value, "BESAPI");
    if besapi.Err? {
      return Err(besapi.error);
    }
    r := Collect((), besapi.value.children, SiteOf);
  }

  // Actions.

  /** The site whose Name is `name`, by a query that must match exactly one row. */
  function OnlySiteNamed(sites: seq<Site>, name: string): (r: Result<Site>)
    ensures r.Ok? ==> r.value in sites && r.value.Name == name
    ensures KeysUnique(sites, SiteKey) ==> (r.Ok? <==> !Absent(sites, SiteKey, name))
  {
    var found :- SiteNamed(sites, name);
    if found.None? then Err(NotSingle(name)) else Ok(found.value)
  }

  /** One `[site name, action id, action name]` tuple. */
  function ActionOf(sites: seq<Site>, tuple: Element): (r: Result<Action>)
    ensures r.Ok? ==>
      var a := Answers(tuple);
      && |a| >= 2
      && ParseInt32(Value(a[1])) == Ok(r.value.ActionID)
      && r.value.Name == Value(a[|a| - 1])
      && exists s :: s in sites && s.Name == Value(a[0]) && s.ID == r.value.SiteID
    ensures KeysUnique(sites, SiteKey) ==>
      var a := Answers(tuple);
      (r.Ok? <==> |a| >= 2 && !Absent(sites, SiteKey, Value(a[0])) && ParseInt32(Value(a[1])).Ok?)
  {
    var first :- FirstAnswer(tuple);
    var second :- SecondAnswer(tuple);
    var last := LastAnswer(tuple);
    var site :- OnlySiteNamed(sites, Value(first));
    var id :- ParseInt32(Value(second));
    Ok(Action(id, site.ID, Value(last)))
  }

  /** GetActions: one action per `Tuple` of the reply, in order. */
  function ActionsOf(env: Env): (r: Result<seq<Action>>)
    ensures r.Ok? ==> QueryReply(env.server, Query(ActionsRelevance)).Ok?
    ensures r.Ok? ==>
      var tuples := Children(QueryReply(env.server, Query(ActionsRelevance)).value, "Tuple");
      |r.value| == |tuples| && forall i :: 0 <= i < |tuples| ==> ActionOf(env.sites, tuples[i]) == Ok(r.value[i])
  {
    var result :- QueryReply(env.server, Query(ActionsRelevance));
    MapAll(env.sites, Children(result, "Tuple"), ActionOf)
  }

  /** The `Result` element of the reply to a relevance query. */
  function QueryReply(server: Server, request: Request): Result<Element> {
    var doc :- Answered(server, request);
    QueryResult(doc)
  }

  /** The emptiness check in front of the tuple loops changes nothing: no children, no
      tuples. */
  lemma NoChildrenNoTuples(result: Element)
    requires result.children == []
    ensures Children(result, "Tuple") == []
  {
  }

  method GetActions(env: Env) returns (r: Result<seq<Action>>)
    ensures r == ActionsOf(env)
  {
    var result := QueryReply(env.server, Query(ActionsRelevance));
    if result.Err? {
      return Err(result.error);
    }
    if |result.value.children| > 0 {
      r := Collect(env.sites, Children(result.value, "Tuple"), ActionOf);
    } else {
      NoChildrenNoTuples(result.value);
      r := Ok([]);
    }
  }

  // Action details and results.

  /** `BESAPI/ActionResults` of the reply to `action/{id}/status`. */
  function ActionStatus(server: Server, actionID: int): Result<Element> {
    var doc :- Answered(server, ActionStatusRequest(actionID));
    var besapi :- Top(doc, "BESAPI");
    Sub(besapi, "ActionResults")
  }

  /** GetActionDetail: the ActionID, Status and DateIssued children of the status reply;
      the ID is the one the reply states. */
  function ActionDetailOf(server: Server, action: Action): (r: Result<ActionDetail>)
    ensures r.Ok? ==> ActionStatus(server, action.ActionID).Ok?
    ensures r.Ok? ==>
      var status := ActionStatus(server, action.ActionID).value;
      && Children(status, "ActionID") != [] && Children(status, "Status") != [] && Children(status, "DateIssued") != []
      && ParseInt32(Value(Children(status, "ActionID")[0])) == Ok(r.value.ActionID)
      && r.value.Status == Value(Children(status, "Status")[0])
      && r.value.DateIssued == Value(Children(status, "DateIssued")[0])
  {
    var status :- ActionStatus(server, action.ActionID);
    var idElement :- Sub(status, "ActionID");
    var id :- ParseInt32(Value(idElement));
    var statusElement :- Sub(status, "Status");
    var issued :- Sub(status, "DateIssued");
    Ok(ActionDetail(id, Value(statusElement), Value(issued)))
  }

  /** GetActionDetails: one detail per action, in order. */
  method GetActionDetails(server: Server, actions: seq<Action>) returns (r: Result<seq<ActionDetail>>)
    ensures r == MapAll(server, actions, ActionDetailOf)
  {
    r := Collect(server, actions, ActionDetailOf);
  }

  /** Convert.ToDateTime, kept as the text it was given. */
  function ToDateTime(text: string): DateTime {
    DateTime(text)
  }

  /** A time child that may be absent: null exactly when there is no such child. */
  function OptionalTime(e: Element, name: string): (r: Option<DateTime>)
    ensures r.None? <==> Children(e, name) == []
    ensures r.Some? ==> r.value == ToDateTime(Value(Children(e, name)[0]))
  {
    match Child(e, name)
    case None => None
    case Some(t) => Some(ToDateTime(Value(t)))
  }

  /** One `Computer` element of the status reply. */
  function ActionResultOf(actionID: int, computer: Element): (r: Result<ActionResult>)
    ensures r.Ok? ==> r.value.ActionID == actionID
    ensures r.Ok? ==> AttributeValue(computer, "ID").Some? && ParseInt32(AttributeValue(computer, "ID").value) == Ok(r.value.ComputerID)
    ensures r.Ok? ==> Children(computer, "Status") != [] && r.value.Status == Value(Children(computer, "Status")[0])
    ensures r.Ok? ==>
      && Children(computer, "ApplyCount") != [] && ParseInt32(Value(Children(computer, "ApplyCount")[0])) == Ok(r.value.ApplyCount)
      && Children(computer, "RetryCount") != [] && ParseInt32(Value(Children(computer, "RetryCount")[0])) == Ok(r.value.RetryCount)
      && Children(computer, "LineNumber") != [] && ParseInt32(Value(Children(computer, "LineNumber")[0])) == Ok(r.value.LineNumber)
    ensures r.Ok? ==> r.value.StartTime == OptionalTime(computer, "StartTime") && r.value.EndTime == OptionalTime(computer, "EndTime")
    ensures r.Ok? <==>
      && AttributeValue(computer, "ID").Some? && ParseInt32(AttributeValue(computer, "ID").value).Ok?
      && Children(computer, "Status") != []
      && Children(computer, "ApplyCount") != [] && ParseInt32(Value(Children(computer, "ApplyCount")[0])).Ok?
      && Children(computer, "RetryCount") != [] && ParseInt32(Value(Children(computer, "RetryCount")[0])).Ok?
      && Children(computer, "LineNumber") != [] && ParseInt32(Value(Children(computer, "LineNumber")[0])).Ok?
  {
    var idText :- Attr(computer, "ID");
    var computerID :- ParseInt32(idText);
    var status :- Sub(computer, "Status");
    var apply :- Sub(computer, "ApplyCount");
    var applyCount :- ParseInt32(Value(apply));
    var retry :- Sub(computer, "RetryCount");
    var retryCount :- ParseInt32(Value(retry));
    var line :- Sub(computer, "LineNumber");
    var lineNumber :- ParseInt32(Value(line));
    Ok(ActionResult(actionID, computerID, Value(status), applyCount, retryCount, lineNumber,
                    OptionalTime(computer, "StartTime"), OptionalTime(computer, "EndTime")))
  }

  /** GetActionResults: one result per `Computer` element, each carrying the action's ID. */
  function ActionResultsOf(server: Server, action: Action): (r: Result<seq<ActionResult>>)
    ensures r.Ok? ==> ActionStatus(server, action.ActionID).Ok?
    ensures r.Ok? ==> |r.value| == |Children(ActionStatus(server, action.ActionID).value, "Computer")|
    ensures r.Ok? ==> forall i :: 0 <= i < |r.value| ==> r.value[i].ActionID == action.ActionID
    ensures r.Ok? ==> forall i :: 0 <= i < |r.value| ==>
      ActionResultOf(action.ActionID, Children(ActionStatus(server, action.ActionID).value, "Computer")[i]) == Ok(r.value[i])
  {
    var status :- ActionStatus(server, action.ActionID);
    MapAll(action.ActionID, Children(status, "Computer"), ActionResultOf)
  }

  method GetActionResults(server: Server, action: Action) returns (r: Result<seq<ActionResult>>)
    ensures r == ActionResultsOf(server, action)
  {
    var status := ActionStatus(server, action.ActionID);
    if status.Err? {
      return Err(status.error);
    }
    r := Collect(action.ActionID, Children(status.value, "Computer"), ActionResultOf);
  }

  /** GetActionResults(List): every action's results, concatenated in input order. */
  method GetActionResultsOfActions(server: Server, actions: seq<Action>) returns (r: Result<seq<ActionResult>>)
    ensures r == Gather(server, actions, ActionResultsOf)
  {
    var acc: seq<ActionResult> := [];
    var i := 0;
    while i < |actions|
      invariant 0 <= i <= |actions|
      invariant Gather(server, actions[..i], ActionResultsOf) == Ok(acc)
    {
      GatherStep(server, actions, ActionResultsOf, i, acc);
      var some := GetActionResults(server, actions[i]);
      if some.Err? {
        GatherAbort(server, actions, ActionResultsOf, i + 1);
        return Err(some.error);
      }
      acc := acc + some.value;
      i := i + 1;
    }
    assert actions[..i] == actions;
    return Ok(acc);
  }

  // Analyses.

  /** The listed analyses, each stamped with the site's store ID and otherwise as listed. */
  function Stamped(listed: seq<Analysis>, siteID: int): (r: seq<Analysis>)
    ensures |r| == |listed|
    ensures forall i :: 0 <= i < |r| ==> r[i].SiteID == siteID && r[i].(SiteID := listed[i].SiteID) == listed[i]
  {
    seq(|listed|, i requires 0 <= i < |listed| => listed[i].(SiteID := siteID))
  }

  /** GetAnalyses(Site): the typed listing for the site, every analysis stamped with the
      site's ID. */
  function AnalysesOf(server: Server, site: Site): (r: Result<seq<Analysis>>)
    ensures r.Ok? <==> server.analyses(AnalysesRequest(site)).Some?
    ensures r.Ok? ==> |r.value| == |server.analyses(AnalysesRequest(site)).value|
    ensures r.Ok? ==> forall i :: 0 <= i < |r.value| ==> r.value[i].SiteID == site.ID
    ensures r.Ok? ==> r.value == Stamped(server.analyses(AnalysesRequest(site)).value, site.ID)
  {
    var listed :- Required(server.analyses(AnalysesRequest(site)), "analyses");
    Ok(Stamped(listed, site.ID))
  }

  method GetAnalyses(server: Server, site: Site) returns (r: Result<seq<Analysis>>)
    ensures r == AnalysesOf(server, site)
  {
    var listed := server.analyses(AnalysesRequest(site));
    if listed.None? {
      return Err(NullReference("analyses"));
    }
    var analyses := listed.value;
    var i := 0;
    while i < |analyses|
      invariant 0 <= i <= |analyses| == |listed.value|
      invariant forall j :: 0 <= j < i ==> analyses[j] == listed.value[j].(SiteID := site.ID)
      invariant forall j :: i <= j < |analyses| ==> analyses[j] == listed.value[j]
    {
      analyses := analyses[i := analyses[i].(SiteID := site.ID)];
      i := i + 1;
    }
    assert analyses == Stamped(listed.value, site.ID);
    return Ok(analyses);
  }

  /** GetAnalyses(List): every site's analyses, concatenated in input order. */
  method GetAnalysesOfSites(server: Server, sites: seq<Site>) returns (r: Result<seq<Analysis>>)
    ensures r == Gather(server, sites, AnalysesOf)
  {
    var acc: seq<Analysis> := [];
    var i := 0;
    while i < |sites|
      invariant 0 <= i <= |sites|
      invariant Gather(server, sites[..i], AnalysesOf) == Ok(acc)
    {
      GatherStep(server, sites, AnalysesOf, i, acc);
      var some := GetAnalyses(server, sites[i]);
      if some.Err? {
        GatherAbort(server, sites, AnalysesOf, i + 1);
        return Err(some.error);
      }
      acc := acc + some.value;
      i := i + 1;
    }
    assert sites[..i] == sites;
    return Ok(acc);
  }

  // Analysis properties.

  /** One `Property` element: its ID attribute is the property's sequence number. */
  function PropertyOf(analysisID: int, property: Element): (r: Result<AnalysisProperty>)
    ensures r.Ok? ==> r.value.AnalysisID == analysisID
    ensures r.Ok? ==> AttributeValue(property, "ID").Some? && ParseInt32(AttributeValue(property, "ID").value) == Ok(r.value.SequenceNo)
    ensures r.Ok? ==> AttributeValue(property, "Name") == Some(r.value.Name)
    ensures r.Ok? <==>
      AttributeValue(property, "ID").Some? && ParseInt32(AttributeValue(property, "ID").value).Ok?
      && AttributeValue(property, "Name").Some?
  {
    var idText :- Attr(property, "ID");
    var sequenceNo :- ParseInt32(idText);
    var name :- Attr(property, "Name");
    Ok(AnalysisProperty(0, analysisID, sequenceNo, name))
  }

  /** The `BES/Analysis` element of the analysis reply, with the store's row for the
      analysis it describes. */
  function AnalysisReply(env: Env, analysis: Analysis): (r: Result<(Analysis, Element)>)
    ensures r.Ok? ==> SiteWithID(env.sites, analysis.SiteID).Ok? && SiteWithID(env.sites, analysis.SiteID).value.Some?
    ensures r.Ok? ==> env.analysisInSite(analysis.SiteID, analysis.AnalysisID) == Some(r.value.0)
    ensures r.Ok? ==>
      var request := AnalysisRequest(SiteWithID(env.sites, analysis.SiteID).value.value, r.value.0.AnalysisID);
      && env.server.reply(request).Some?
      && env.server.reply(request).value.root.name == "BES"
      && Children(env.server.reply(request).value.root, "Analysis") != []
      && r.value.1 == Children(env.server.reply(request).value.root, "Analysis")[0]
  {
    var site :- SiteWithID(env.sites, analysis.SiteID);
    var stored := env.analysisInSite(analysis.SiteID, analysis.AnalysisID);
    var s :- Required(site, "site");
    var a :- Required(stored, "analysis");
    var doc :- Answered(env.server, AnalysisRequest(s, a.AnalysisID));
    var bes :- Top(doc, "BES");
    var element :- Sub(bes, "Analysis");
    Ok((a, element))
  }

  /** GetAnalysisProperties(Analysis): one property per `Property` element, each tied to
      the store ID of the analysis, found by its site and its remote ID. */
  function AnalysisPropertiesOf(env: Env, analysis: Analysis): (r: Result<seq<AnalysisProperty>>)
    ensures r.Ok? ==> env.analysisInSite(analysis.SiteID, analysis.AnalysisID).Some?
    ensures r.Ok? ==> SiteWithID(env.sites, analysis.SiteID).Ok? && SiteWithID(env.sites, analysis.SiteID).value.Some?
    ensures r.Ok? ==> forall i :: 0 <= i < |r.value| ==>
      r.value[i].AnalysisID == env.analysisInSite(analysis.SiteID, analysis.AnalysisID).value.ID
    ensures r.Ok? ==> AnalysisReply(env, analysis).Ok?
    ensures r.Ok? ==>
      var (stored, element) := AnalysisReply(env, analysis).value;
      && |r.value| == |Children(element, "Property")|
      && forall i :: 0 <= i < |r.value| ==> PropertyOf(stored.ID, Children(element, "Property")[i]) == Ok(r.value[i])
  {
    var reply :- AnalysisReply(env, analysis);
    MapAll(reply.0.ID, Children(reply.1, "Property"), PropertyOf)
  }

  method GetAnalysisProperties(env: Env, analysis: Analysis) returns (r: Result<seq<AnalysisProperty>>)
    ensures r == AnalysisPropertiesOf(env, analysis)
  {
    var reply := AnalysisReply(env, analysis);
    if reply.Err? {
      return Err(reply.error);
    }
    var (stored, element) := reply.value;
    r := Collect(stored.ID, Children(element, "Property"), PropertyOf);
  }

  /** GetAnalysisProperties(List): every analysis's properties, in input order. */
  method GetAnalysisPropertiesOfAnalyses(env: Env, analyses: seq<Analysis>) returns (r: Result<seq<AnalysisProperty>>)
    ensures r == Gather(env, analyses, AnalysisPropertiesOf)
  {
    var acc: seq<AnalysisProperty> := [];
    var i := 0;
    while i < |analyses|
      invariant 0 <= i <= |analyses|
      invariant Gather(env, analyses[..i], AnalysisPropertiesOf) == Ok(acc)
    {
      GatherStep(env, analyses, AnalysisPropertiesOf, i, acc);
      var some := GetAnalysisProperties(env, analyses[i]);
      if some.Err? {
        GatherAbort(env, analyses, AnalysisPropertiesOf, i + 1);
        return Err(some.error);
      }
      acc := acc + some.value;
      i := i + 1;
    }
    assert analyses[..i] == analyses;
    return Ok(acc);
  }

  // Analysis property results.

  /** One `[computer id, value]` tuple. */
  function PropertyResultOf(propertyID: int, tuple: Element): (r: Result<AnalysisPropertyResult>)
    ensures r.Ok? <==> Answers(tuple) != [] && ParseInt32(Value(Answers(tuple)[0])).Ok?
    ensures r.Ok? ==>
      var a := Answers(tuple);
      && r.value.AnalysisPropertyID == propertyID
      && ParseInt32(Value(a[0])) == Ok(r.value.ComputerID)
      && r.value.Value == Value(a[|a| - 1])
  {
    var a := Answers(tuple);
    if a == [] then Err(NoElements("Answer"))
    else
      var computerID :- ParseInt32(Value(a[0]));
      Ok(AnalysisPropertyResult(propertyID, computerID, Value(a[|a| - 1])))
  }

  /** The relevance query for a property's results: its sequence number and the name of
      its analysis, found by the store ID the property carries. */
  function PropertyResultsQuery(env: Env, property: AnalysisProperty): (r: Result<Request>)
    ensures r.Ok? <==> env.analysisWithID(property.AnalysisID).Some?
    ensures r.Ok? ==> r.value == Query(PropertyResultsRelevance(property.SequenceNo, env.analysisWithID(property.AnalysisID).value.Name))
  {
    var analysis :- Required(env.analysisWithID(property.AnalysisID), "analysis");
    Ok(Query(PropertyResultsRelevance(property.SequenceNo, analysis.Name)))
  }

  /** The `Result` element of the reply to a property's results query. */
  function PropertyResultsReply(env: Env, property: AnalysisProperty): Result<Element> {
    var query :- PropertyResultsQuery(env, property);
    QueryReply(env.server, query)
  }

  /** GetAnalysisPropertyResult: one result per `Tuple`, each tied to the property's ID. */
  function PropertyResultsOf(env: Env, property: AnalysisProperty): (r: Result<seq<AnalysisPropertyResult>>)
    ensures r.Ok? ==> PropertyResultsReply(env, property).Ok?
    ensures r.Ok? ==> |r.value| == |Children(PropertyResultsReply(env, property).value, "Tuple")|
    ensures r.Ok? ==> forall i :: 0 <= i < |r.value| ==> r.value[i].AnalysisPropertyID == property.ID
    ensures r.Ok? ==> forall i :: 0 <= i < |r.value| ==>
      PropertyResultOf(property.ID, Children(PropertyResultsReply(env, property).value, "Tuple")[i]) == Ok(r.value[i])
  {
    var result :- PropertyResultsReply(env, property);
    MapAll(property.ID, Children(result, "Tuple"), PropertyResultOf)
  }

  method GetAnalysisPropertyResult(env: Env, property: AnalysisProperty) returns (r: Result<seq<AnalysisPropertyResult>>)
    ensures r == PropertyResultsOf(env, property)
  {
    var result := PropertyResultsReply(env, property);
    if result.Err? {
      return Err(result.error);
    }
    if |result.value.children| > 0 {
      r := Collect(property.ID, Children(result.value, "Tuple"), PropertyResultOf);
    } else {
      NoChildrenNoTuples(result.value);
      r := Ok([]);
    }
  }

  /** GetAnalysisPropertyResults: every property's results, in input order. */
  method GetAnalysisPropertyResults(env: Env, properties: seq<AnalysisProperty>) returns (r: Result<seq<AnalysisPropertyResult>>)
    ensures r == Gather(env, properties, PropertyResultsOf)
  {
    var acc: seq<AnalysisPropertyResult> := [];
    var i := 0;
    while i < |properties|
      invariant 0 <= i <= |properties|
      invariant Gather(env, properties[..i], PropertyResultsOf) == Ok(acc)
    {
      GatherStep(env, properties, PropertyResultsOf, i, acc);
      var some := GetAnalysisPropertyResult(env, properties[i]);
      if some.Err? {
        GatherAbort(env, properties, PropertyResultsOf, i + 1);
        return Err(some.error);
      }
      acc := acc + some.value;
      i := i + 1;
    }
    assert properties[..i] == properties;
    return Ok(acc);
  }

  // Baselines.

  /** One `Baseline` element of the site content. */
  function BaselineOf(siteID: int, baseline: Element): (r: Result<Baseline>)
    ensures r.Ok? <==>
      Children(baseline, "ID") != [] && ParseInt32(Value(Children(baseline, "ID")[0])).Ok? && Children(baseline, "Name") != []
    ensures r.Ok? ==>
      && r.value.SiteID == siteID
      && ParseInt32(Value(Children(baseline, "ID")[0])) == Ok(r.value.BaselineID)
      && r.value.Name == Value(Children(baseline, "Name")[0])
  {
    var idElement :- Sub(baseline, "ID");
    var id :- ParseInt32(Value(idElement));
    var name :- Sub(baseline, "Name");
    Ok(Baseline(id, siteID, Value(name)))
  }

  /** `BESAPI` of the site-content reply. */
  function SiteContent(server: Server, site: Site): Result<Element> {
    var doc :- Answered(server, SiteContentRequest(site));
    Top(doc, "BESAPI")
  }

  /** GetBaselines(Site): one baseline per `Baseline` element, each carrying the site's ID. */
  function BaselinesOf(server: Server, site: Site): (r: Result<seq<Baseline>>)
    ensures r.Ok? ==> SiteContent(server, site).Ok?
    ensures r.Ok? ==> |r.value| == |Children(SiteContent(server, site).value, "Baseline")|
    ensures r.Ok? ==> forall i :: 0 <= i < |r.value| ==> r.value[i].SiteID == site.ID
    ensures r.Ok? ==> forall i :: 0 <= i < |r.value| ==>
      BaselineOf(site.ID, Children(SiteContent(server, site).value, "Baseline")[i]) == Ok(r.value[i])
  {
    var besapi :- SiteContent(server, site);
    MapAll(site.ID, Children(besapi, "Baseline"), BaselineOf)
  }

  method GetBaselines(server: Server, site: Site) returns (r: Result<seq<Baseline>>)
    ensures r == BaselinesOf(server, site)
  {
    var besapi := SiteContent(server, site);
    if besapi.Err? {
      return Err(besapi.error);
    }
    r := Collect(site.ID, Children(besapi.value, "Baseline"), BaselineOf);
  }

  /** GetBaselines(List): every site's baselines, in input order. */
  method GetBaselinesOfSites(server: Server, sites: seq<Site>) returns (r: Result<seq<Baseline>>)
    ensures r == Gather(server, sites, BaselinesOf)
  {
    var acc: seq<Baseline> := [];
    var i := 0;
    while i < |sites|
      invariant 0 <= i <= |sites|
      invariant Gather(server, sites[..i], BaselinesOf) == Ok(acc)
    {
      GatherStep(server, sites, BaselinesOf, i, acc);
      var some := GetBaselines(server, sites[i]);
      if some.Err? {
        GatherAbort(server, sites, BaselinesOf, i + 1);
        return Err(some.error);
      }
      acc := acc + some.value;
      i := i + 1;
    }
    assert sites[..i] == sites;
    return Ok(acc);
  }

  // Baseline results.

  /** One `Computer` element: the computer's ID is the last segment of its resource URI. */
  function BaselineResultOf(baselineID: int, computer: Element): (r: Result<BaselineResult>)
    ensures r.Ok? <==> AttributeValue(computer, "Resource").Some? && ComputerIdOf(AttributeValue(computer, "Resource").value).Ok?
    ensures r.Ok? ==>
      && r.value.BaselineID == baselineID
      && ComputerIdOf(AttributeValue(computer, "Resource").value) == Ok(r.value.ComputerID)
  {
    var resource :- Attr(computer, "Resource");
    var computerID :- ComputerIdOf(resource);
    Ok(BaselineResult(baselineID, computerID))
  }

  /** `BESAPI` of the reply listing the computers of a baseline, asked of the baseline's
      site as the store records it. */
  function BaselineComputers(env: Env, baseline: Baseline): Result<Element> {
    var site :- SiteWithID(env.sites, baseline.SiteID);
    var s :- Required(site, "site");
    var doc :- Answered(env.server, BaselineComputersRequest(s, baseline.BaselineID));
    Top(doc, "BESAPI")
  }

  /** GetBaselineResults(Baseline): one result per `Computer` element, each carrying the
      baseline's ID. */
  function BaselineResultsOf(env: Env, baseline: Baseline): (r: Result<seq<BaselineResult>>)
    ensures r.Ok? ==> BaselineComputers(env, baseline).Ok?
    ensures r.Ok? ==> |r.value| == |Children(BaselineComputers(env, baseline).value, "Computer")|
    ensures r.Ok? ==> forall i :: 0 <= i < |r.value| ==> r.value[i].BaselineID == baseline.BaselineID
    ensures r.Ok? ==> forall i :: 0 <= i < |r.value| ==>
      BaselineResultOf(baseline.BaselineID, Children(BaselineComputers(env, baseline).value, "Computer")[i]) == Ok(r.value[i])
  {
    var besapi :- BaselineComputers(env, baseline);
    MapAll(baseline.BaselineID, Children(besapi, "Computer"), BaselineResultOf)
  }

  method GetBaselineResults(env: Env, baseline: Baseline) returns (r: Result<seq<BaselineResult>>)
    ensures r == BaselineResultsOf(env, baseline)
  {
    var besapi := BaselineComputers(env, baseline);
    if besapi.Err? {
      return Err(besapi.error);
    }
    var computers := Children(besapi.value, "Computer");
    if |computers| > 0 {
      r := Collect(baseline.BaselineID, computers, BaselineResultOf);
    } else {
      r := Ok([]);
    }
  }

  /** GetBaselineResults(List): every baseline's results, in input order. */
  method GetBaselineResultsOfBaselines(env: Env, baselines: seq<Baseline>) returns (r: Result<seq<BaselineResult>>)
    ensures r == Gather(env, baselines, BaselineResultsOf)
  {
    var acc: seq<BaselineResult> := [];
    var i := 0;
    while i < |baselines|
      invariant 0 <= i <= |baselines|
      invariant Gather(env, baselines[..i], BaselineResultsOf) == Ok(acc)
    {
      GatherStep(env, baselines, BaselineResultsOf, i, acc);
      var some := GetBaselineResults(env, baselines[i]);
      if some.Err? {
        GatherAbort(env, baselines, BaselineResultsOf, i + 1);
        return Err(some.error);
      }
      acc := acc + some.value;
      i := i + 1;
    }
    assert baselines[..i] == baselines;
    return Ok(acc);
  }

  // Computers.

  /** The computer's properties whose Name attribute is "Computer Name". */
  function NameProperties(properties: seq<Element>): (r: seq<Element>)
    ensures |r| <= |properties|
    ensures forall i :: 0 <= i < |r| ==> r[i] in properties && AttributeValue(r[i], "Name") == Some("Computer Name")
    ensures r == [] <==> forall i :: 0 <= i < |properties| ==> AttributeValue(properties[i], "Name") != Some("Computer Name")
  {
    if properties == [] then []
    else if AttributeValue(properties[0], "Name") == Some("Computer Name") then [properties[0]] + NameProperties(properties[1..])
    else NameProperties(properties[1..])
  }

  /** The filter keeps every property named "Computer Name": together with the
      contract above, the kept properties are exactly the named ones. */
  lemma {:induction false} NamePropertiesKeepsMatches(properties: seq<Element>)
    ensures forall i :: 0 <= i < |properties| && AttributeValue(properties[i], "Name") == Some("Computer Name") ==>
      properties[i] in NameProperties(properties)
  {
    if properties != [] {
      NamePropertiesKeepsMatches(properties[1..]);
      assert forall i :: 1 <= i < |properties| ==> properties[i] == properties[1..][i - 1];
    }
  }

  /** When every property is named "Computer Name", the filter keeps them all. */
  lemma {:induction false} NamePropertiesAllNamed(properties: seq<Element>)
    requires forall i :: 0 <= i < |properties| ==> AttributeValue(properties[i], "Name") == Some("Computer Name")
    ensures NameProperties(properties) == properties
  {
    if properties != [] {
      NamePropertiesAllNamed(properties[1..]);
      assert properties == [properties[0]] + properties[1..];
    }
  }

  /** `Where(Name attribute == "Computer Name").Single()`, continued from the properties
      already scanned (`found` is the match among them, if any). Single reads the
      properties in order and stops at a second match, so a property without a Name
      attribute is dereferenced as null only when it is reached. */
  function SingleComputerName(properties: seq<Element>, found: Option<Element>): (r: Result<Element>)
    ensures r.Ok? ==> |NameProperties(properties)| + (if found.Some? then 1 else 0) == 1
    ensures r.Ok? ==> r.value == if found.Some? then found.value else NameProperties(properties)[0]
    ensures (forall i :: 0 <= i < |properties| ==> AttributeValue(properties[i], "Name").Some?) ==>
      (r.Ok? <==> |NameProperties(properties)| + (if found.Some? then 1 else 0) == 1)
    ensures r.Err? && r.error.NullReference? ==>
      exists i :: 0 <= i < |properties| && AttributeValue(properties[i], "Name").None?
  {
    if properties == [] then
      if found.None? then Err(NotSingle("Computer Name")) else Ok(found.value)
    else
      var name :- Attr(properties[0], "Name");
      if name == "Computer Name" then
        if found.Some? then Err(NotSingle("Computer Name"))
        else SingleComputerName(properties[1..], Some(properties[0]))
      else SingleComputerName(properties[1..], found)
  }

  /** The host name of one computer: the value of its single "Computer Name" property in
      the reply to `computer/{id}`. */
  function HostName(server: Server, computerID: int): (r: Result<string>)
    ensures r.Ok? ==> server.reply(ComputerRequest(computerID)).Some?
    ensures r.Ok? ==>
      var root := server.reply(ComputerRequest(computerID)).value.root;
      && root.name == "BESAPI"
      && Children(root, "Computer") != []
      && var names := NameProperties(Children(Children(root, "Computer")[0], "Property"));
         |names| == 1 && r.value == Value(names[0])
  {
    var doc :- Answered(server, ComputerRequest(computerID));
    var besapi :- Top(doc, "BESAPI");
    var computer :- Sub(besapi, "Computer");
    var property :- SingleComputerName(Children(computer, "Property"), None);
    Ok(Value(property))
  }

  /** One listed computer with its name filled in; nothing else about it changes. */
  function ComputerNamed(server: Server, computer: Computer): (r: Result<Computer>)
    ensures r.Ok? <==> HostName(server, computer.ComputerID).Ok?
    ensures r.Ok? ==> r.value == computer.(ComputerName := HostName(server, computer.ComputerID).value)
  {
    var name :- HostName(server, computer.ComputerID);
    Ok(computer.(ComputerName := name))
  }

  /** One turn of GetComputers' loop: a failed host name ends the listing with its fault;
      otherwise naming computer i in place extends the listing by one. */
  lemma NamingStep(server: Server, listed: seq<Computer>, i: nat, computers: seq<Computer>)
    requires i < |listed| == |computers|
    requires MapAll(server, listed[..i], ComputerNamed) == Ok(computers[..i]) && computers[i..] == listed[i..]
    ensures HostName(server, computers[i].ComputerID).Err? ==>
      MapAll(server, listed, ComputerNamed) == Err(HostName(server, computers[i].ComputerID).error)
    ensures HostName(server, computers[i].ComputerID).Ok? ==>
      var named := computers[i := computers[i].(ComputerName := HostName(server, computers[i].ComputerID).value)];
      MapAll(server, listed[..i + 1], ComputerNamed) == Ok(named[..i + 1]) && named[i + 1..] == listed[i + 1..]
  {
    assert computers[i] == listed[i];
    MapAllStep(server, listed, ComputerNamed, i, computers[..i]);
    if HostName(server, computers[i].ComputerID).Err? {
      MapAllAbort(server, listed, ComputerNamed, i + 1);
    } else {
      MapAllInPlace(server, listed, ComputerNamed, i, computers);
    }
  }

  /** GetComputers: the typed listing, every computer named by its own reply, in order. */
  function ComputersOf(server: Server): (r: Result<seq<Computer>>)
    ensures r.Ok? ==> server.computers(ComputersRequest).Some?
    ensures r.Ok? ==> |r.value| == |server.computers(ComputersRequest).value|
    ensures r.Ok? ==> forall i :: 0 <= i < |r.value| ==>
      r.value[i].ComputerID == server.computers(ComputersRequest).value[i].ComputerID
    ensures r.Ok? ==> forall i :: 0 <= i < |r.value| ==>
      ComputerNamed(server, server.computers(ComputersRequest).value[i]) == Ok(r.value[i])
  {
    var listed :- Required(server.computers(ComputersRequest), "computers");
    MapAll(server, listed, ComputerNamed)
  }

  /** GetComputers (BesApi.cs) sets each listed computer's name in place. */
  method GetComputers(server: Server) returns (r: Result<seq<Computer>>)
    ensures r == ComputersOf(server)
  {
    var listed := server.computers(ComputersRequest);
    if listed.None? {
      return Err(NullReference("computers"));
    }
    var computers := listed.value;
    var i := 0;
    while i < |computers|
      invariant 0 <= i <= |computers| == |listed.value|
      invariant MapAll(server, listed.value[..i], ComputerNamed) == Ok(computers[..i])
      invariant computers[i..] == listed.value[i..]
    {
      var name := HostName(server, computers[i].ComputerID);
      NamingStep(server, listed.value, i, computers);
      if name.Err? {
        return Err(name.error);
      }
      computers := computers[i := computers[i].(ComputerName := name.value)];
      i := i + 1;
    }
    assert listed.value[..i] == listed.value && computers[..i] == computers;
    return Ok(computers);
  }

  // Computer groups.

  /** IsManualGroup: the manual flag the server answers for the group; an empty `Result`
      means not manual. The text of the first `Answer` is read by Convert.ToBoolean. */
  function IsManualGroup(server: Server, groupID: int): (r: Result<bool>)
    ensures QueryReply(server, Query(ManualFlagRelevance(groupID))).Err? ==>
      r == Err(QueryReply(server, Query(ManualFlagRelevance(groupID))).error)
    ensures QueryReply(server, Query(ManualFlagRelevance(groupID))).Ok? ==>
      var result := QueryReply(server, Query(ManualFlagRelevance(groupID))).value;
      if result.children == [] then r == Ok(false)
      else if Children(result, "Answer") == [] then r == Err(NullReference("Answer"))
      else r == ParseBool(Value(Children(result, "Answer")[0]))
  {
    var result :- QueryReply(server, Query(ManualFlagRelevance(groupID)));
    if |result.children| > 0 then
      var answer :- Sub(result, "Answer");
      ParseBool(Value(answer))
    else Ok(false)
  }

  /** One listed group: stamped with the store ID of its site when the store has the
      site, and with its manual flag. */
  function GroupOf(ctx: (Server, Option<Site>), group: ComputerGroup): (r: Result<ComputerGroup>)
    ensures r.Ok? <==> IsManualGroup(ctx.0, group.GroupID).Ok?
    ensures r.Ok? ==>
      && r.value.GroupID == group.GroupID && r.value.Name == group.Name
      && r.value.SiteID == (if ctx.1.Some? then ctx.1.value.ID else group.SiteID)
      && r.value.Manual == IsManualGroup(ctx.0, group.GroupID).value
  {
    var (server, dbSite) := ctx;
    var stamped := if dbSite.Some? then group.(SiteID := dbSite.value.ID) else group;
    var manual :- IsManualGroup(server, group.GroupID);
    Ok(stamped.(Manual := manual))
  }

  /** GetComputerGroups(Site): the typed listing for the site, every group stamped by
      GroupOf with the store's row for the site, looked up by name. */
  function ComputerGroupsOf(env: Env, site: Site): (r: Result<seq<ComputerGroup>>)
    ensures r.Ok? ==> SiteNamed(env.sites, site.Name).Ok? && env.server.groups(ComputerGroupsRequest(site)).Some?
    ensures r.Ok? ==> |r.value| == |env.server.groups(ComputerGroupsRequest(site)).value|
    ensures r.Ok? ==> forall i :: 0 <= i < |r.value| ==>
      var listed := env.server.groups(ComputerGroupsRequest(site)).value[i];
      && r.value[i].GroupID == listed.GroupID
      && (SiteNamed(env.sites, site.Name).value.Some? ==> r.value[i].SiteID == SiteNamed(env.sites, site.Name).value.value.ID)
      && (SiteNamed(env.sites, site.Name).value.None? ==> r.value[i].SiteID == listed.SiteID)
    ensures r.Ok? ==> forall i :: 0 <= i < |r.value| ==>
      GroupOf((env.server, SiteNamed(env.sites, site.Name).value), env.server.groups(ComputerGroupsRequest(site)).value[i])
        == Ok(r.value[i])
  {
    var dbSite :- SiteNamed(env.sites, site.Name);
    var listed :- Required(env.server.groups(ComputerGroupsRequest(site)), "groups");
    MapAll((env.server, dbSite), listed, GroupOf)
  }

  /** GetComputerGroups (BesApi.cs) fetches the listing, reads the site from the store, then stamps each
      listed group in place. */
  method GetComputerGroups(env: Env, site: Site) returns (r: Result<seq<ComputerGroup>>)
    ensures r == ComputerGroupsOf(env, site)
  {
    var listed := env.server.groups(ComputerGroupsRequest(site));
    var dbSite := SiteNamed(env.sites, site.Name);
    if dbSite.Err? {
      return Err(dbSite.error);
    }
    if listed.None? {
      return Err(NullReference("groups"));
    }
    r := StampGroups(env.server, dbSite.value, listed.value);
  }

  /** The loop of GetComputerGroups(Site): each listed group gets the store's site ID,
      when there is one, and its manual flag, in place. */
  method StampGroups(server: Server, dbSite: Option<Site>, listed: seq<ComputerGroup>) returns (r: Result<seq<ComputerGroup>>)
    ensures r == MapAll((server, dbSite), listed, GroupOf)
  {
    var ctx := (server, dbSite);
    var groups := listed;
    var i := 0;
    while i < |groups|
      invariant 0 <= i <= |groups| == |listed|
      invariant MapAll(ctx, listed[..i], GroupOf) == Ok(groups[..i])
      invariant groups[i..] == listed[i..]
    {
      assert groups[i] == listed[i];
      MapAllStep(ctx, listed, GroupOf, i, groups[..i]);
      var group := groups[i];
      if dbSite.Some? {
        group := group.(SiteID := dbSite.value.ID);
      }
      var manual := IsManualGroup(server, group.GroupID);
      if manual.Err? {
        MapAllAbort(ctx, listed, GroupOf, i + 1);
        return Err(manual.error);
      }
      group := group.(Manual := manual.value);
      MapAllInPlace(ctx, listed, GroupOf, i, groups);
      groups := groups[i := group];
      i := i + 1;
    }
    assert listed[..i] == listed && groups[..i] == groups;
    return Ok(groups);
  }

  /** GetComputerGroups(): the groups of every site in the store's Site table, in table
      order. */
  method GetAllComputerGroups(env: Env) returns (r: Result<seq<ComputerGroup>>)
    ensures r == Gather(env, env.sites, ComputerGroupsOf)
  {
    var acc: seq<ComputerGroup> := [];
    var i := 0;
    while i < |env.sites|
      invariant 0 <= i <= |env.sites|
      invariant Gather(env, env.sites[..i], ComputerGroupsOf) == Ok(acc)
    {
      GatherStep(env, env.sites, ComputerGroupsOf, i, acc);
      var some := GetComputerGroups(env, env.sites[i]);
      if some.Err? {
        GatherAbort(env, env.sites, ComputerGroupsOf, i + 1);
        return Err(some.error);
      }
      acc := acc + some.value;
      i := i + 1;
    }
    assert env.sites[..i] == env.sites;
    return Ok(acc);
  }

  // Group members.

  /** One `[computer id, computer name]` tuple of the manual-members query. */
  function ManualMemberOf(groupID: int, tuple: Element): (r: Result<ComputerGroupMember>)
    ensures r.Ok? <==> Answers(tuple) != [] && ParseInt32(Value(Answers(tuple)[0])).Ok?
    ensures r.Ok? ==> r.value.GroupID == groupID && ParseInt32(Value(Answers(tuple)[0])) == Ok(r.value.ComputerID)
  {
    var first :- FirstAnswer(tuple);
    var computerID :- ParseInt32(Value(first));
    Ok(ComputerGroupMember(groupID, computerID))
  }

  /** One `Computer` element of the group's computer listing: the ID is the last segment
      of its resource URI. */
  function DynamicMemberOf(groupID: int, computer: Element): (r: Result<ComputerGroupMember>)
    ensures r.Ok? <==> AttributeValue(computer, "Resource").Some? && ComputerIdOf(AttributeValue(computer, "Resource").value).Ok?
    ensures r.Ok? ==>
      r.value.GroupID == groupID && ComputerIdOf(AttributeValue(computer, "Resource").value) == Ok(r.value.ComputerID)
  {
    var resource :- Attr(computer, "Resource");
    var computerID :- ComputerIdOf(resource);
    Ok(ComputerGroupMember(groupID, computerID))
  }

  /** The manual branch: one member per `Tuple` of the relevance reply. */
  function ManualMembersOf(server: Server, groupID: int): (r: Result<seq<ComputerGroupMember>>)
    ensures r.Ok? ==> QueryReply(server, Query(GroupMembersRelevance(groupID))).Ok?
    ensures r.Ok? ==> |r.value| == |Children(QueryReply(server, Query(GroupMembersRelevance(groupID))).value, "Tuple")|
    ensures r.Ok? ==> forall i :: 0 <= i < |r.value| ==> r.value[i].GroupID == groupID
    ensures r.Ok? ==> forall i :: 0 <= i < |r.value| ==>
      ManualMemberOf(groupID, Children(QueryReply(server, Query(GroupMembersRelevance(groupID))).value, "Tuple")[i]) == Ok(r.value[i])
  {
    var result :- QueryReply(server, Query(GroupMembersRelevance(groupID)));
    MapAll(groupID, Children(result, "Tuple"), ManualMemberOf)
  }

  /** `BESAPI` of the reply listing the computers of a group of the given site. */
  function GroupComputers(server: Server, site: Site, groupID: int): Result<Element> {
    var doc :- Answered(server, GroupComputersRequest(site, groupID));
    Top(doc, "BESAPI")
  }

  /** The dynamic branch: one member per `Computer` element of the group's listing. */
  function DynamicMembersOf(server: Server, site: Site, groupID: int): (r: Result<seq<ComputerGroupMember>>)
    ensures r.Ok? ==> GroupComputers(server, site, groupID).Ok?
    ensures r.Ok? ==> |r.value| == |Children(GroupComputers(server, site, groupID).value, "Computer")|
    ensures r.Ok? ==> forall i :: 0 <= i < |r.value| ==> r.value[i].GroupID == groupID
    ensures r.Ok? ==> forall i :: 0 <= i < |r.value| ==>
      DynamicMemberOf(groupID, Children(GroupComputers(server, site, groupID).value, "Computer")[i]) == Ok(r.value[i])
  {
    var besapi :- GroupComputers(server, site, groupID);
    MapAll(groupID, Children(besapi, "Computer"), DynamicMemberOf)
  }

  /** GetGroupMembers(ComputerGroup): nothing when the store has no site with the group's
      SiteID; otherwise the manual or the dynamic listing, by the group's flag. */
  function GroupMembersOf(env: Env, group: ComputerGroup): (r: Result<seq<ComputerGroupMember>>)
    ensures SiteWithID(env.sites, group.SiteID) == Ok(None) ==> r == Ok([])
    ensures r.Ok? ==> forall i :: 0 <= i < |r.value| ==> r.value[i].GroupID == group.GroupID
    ensures SiteWithID(env.sites, group.SiteID).Ok? && SiteWithID(env.sites, group.SiteID).value.Some? ==>
      r == if group.Manual then ManualMembersOf(env.server, group.GroupID)
           else DynamicMembersOf(env.server, SiteWithID(env.sites, group.SiteID).value.value, group.GroupID)
  {
    var dbSite :- SiteWithID(env.sites, group.SiteID);
    if dbSite.None? then Ok([])
    else if group.Manual then ManualMembersOf(env.server, group.GroupID)
    else DynamicMembersOf(env.server, dbSite.value, group.GroupID)
  }

  method GetGroupMembers(env: Env, group: ComputerGroup) returns (r: Result<seq<ComputerGroupMember>>)
    ensures r == GroupMembersOf(env, group)
  {
    var dbSite := SiteWithID(env.sites, group.SiteID);
    if dbSite.Err? {
      return Err(dbSite.error);
    }
    if dbSite.value.None? {
      return Ok([]);
    }
    if group.Manual {
      var result := QueryReply(env.server, Query(GroupMembersRelevance(group.GroupID)));
      if result.Err? {
        return Err(result.error);
      }
      if |result.value.children| > 0 {
        r := Collect(group.GroupID, Children(result.value, "Tuple"), ManualMemberOf);
      } else {
        NoChildrenNoTuples(result.value);
        r := Ok([]);
      }
    } else {
      var besapi := GroupComputers(env.server, dbSite.value.value, group.GroupID);
      if besapi.Err? {
        return Err(besapi.error);
      }
      r := Collect(group.GroupID, Children(besapi.value, "Computer"), DynamicMemberOf);
    }
  }

  /** GetGroupMembers(List): every group's members, in input order. */
  method GetGroupMembersOfGroups(env: Env, groups: seq<ComputerGroup>) returns (r: Result<seq<ComputerGroupMember>>)
    ensures r == Gather(env, groups, GroupMembersOf)
  {
    var acc: seq<ComputerGroupMember> := [];
    var i := 0;
    while i < |groups|
      invariant 0 <= i <= |groups|
      invariant Gather(env, groups[..i], GroupMembersOf) == Ok(acc)
    {
      GatherStep(env, groups, GroupMembersOf, i, acc);
      var some := GetGroupMembers(env, groups[i]);
      if some.Err? {
        GatherAbort(env, groups, GroupMembersOf, i + 1);
        return Err(some.error);
      }
      acc := acc + some.value;
      i := i + 1;
    }
    assert groups[..i] == groups;
    return Ok(acc);
  }
}
