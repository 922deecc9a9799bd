/** Replies as the server writes them, built from the records they describe, and the
    round trips: reading a well-formed reply gives back exactly the records it was
    built from. */
module Replies {
  import opened Wrappers
  import opened Lists
  import opened Conversions
  import opened Xml
  import opened Uri
  import opened Entities
  import opened Tables
  import opened BesDb
  import opened Requests
  import opened BesApi

  // Relevance replies.

  /** One `Tuple` whose `Answer` children hold the given texts, in order. */
  function Tuple(answers: seq<string>): (t: Element)
    ensures t.name == "Tuple"
    ensures Answers(t) == t.children && |t.children| == |answers|
    ensures forall i :: 0 <= i < |answers| ==> Value(t.children[i]) == answers[i]
  {
    var leaves := seq(|answers|, i requires 0 <= i < |answers| => Leaf("Answer", answers[i]));
    NamedAll(leaves, "Answer");
    Element("Tuple", [], "", leaves)
  }

  /** `BESAPI/Query/Result` holding the given elements. */
  function QueryDocument(results: seq<Element>): Document {
    Document(Element("BESAPI", [], "", [Element("Query", [], "", [Element("Result", [], "", results)])]))
  }

  /** The `Result` element of a query document is the one it was built with; all tuples
      in it are read, in order. */
  lemma QueryDocumentResult(tuples: seq<Element>)
    requires forall i :: 0 <= i < |tuples| ==> tuples[i].name == "Tuple"
    ensures QueryResult(QueryDocument(tuples)) == Ok(Element("Result", [], "", tuples))
    ensures Children(Element("Result", [], "", tuples), "Tuple") == tuples
  {
    var result := Element("Result", [], "", tuples);
    var query := Element("Query", [], "", [result]);
    assert Children(QueryDocument(tuples).root, "Query") == [query];
    assert Children(query, "Result") == [result];
    NamedAll(tuples, "Tuple");
  }

  // Actions.

  /** The tuple the actions query answers for one action: site name, ID, name. */
  function ActionTuple(sites: seq<Site>, action: Action): Element
    requires 1 <= action.SiteID <= |sites|
  {
    Tuple([sites[action.SiteID - 1].Name, IntToString(action.ActionID), action.Name])
  }

  /** Reading an action's tuple gives the action back, its SiteID found from the site
      name, when the stored sites are numbered and their names distinct. */
  lemma ActionOfTuple(sites: seq<Site>, action: Action)
    requires Numbered(sites) && KeysUnique(sites, SiteKey)
    requires 1 <= action.SiteID <= |sites| && InInt32(action.ActionID)
    ensures ActionOf(sites, ActionTuple(sites, action)) == Ok(action)
  {
    var site := sites[action.SiteID - 1];
    var t := ActionTuple(sites, action);
    assert SiteNamed(sites, site.Name) == Ok(Some(site));
    ParseIntToString(action.ActionID);
  }

  /** The actions reply listing `actions`, one tuple each, in order. */
  function ActionsReply(sites: seq<Site>, actions: seq<Action>): Document
    requires forall i :: 0 <= i < |actions| ==> 1 <= actions[i].SiteID <= |sites|
  {
    QueryDocument(seq(|actions|, i requires 0 <= i < |actions| => ActionTuple(sites, actions[i])))
  }

  /** The `Result` element of a relevance reply built from tuples. */
  lemma QueryReplyOf(server: Server, request: Request, tuples: seq<Element>)
    requires forall i :: 0 <= i < |tuples| ==> tuples[i].name == "Tuple"
    requires server.reply(request) == Some(QueryDocument(tuples))
    ensures QueryReply(server, request) == Ok(Element("Result", [], "", tuples))
    ensures Children(QueryReply(server, request).value, "Tuple") == tuples
  {
    QueryDocumentResult(tuples);
  }

  /** GetActions reads back every action of the reply, in order. */
  lemma ActionsOfReply(env: Env, actions: seq<Action>)
    requires Numbered(env.sites) && KeysUnique(env.sites, SiteKey)
    requires forall i :: 0 <= i < |actions| ==> 1 <= actions[i].SiteID <= |env.sites| && InInt32(actions[i].ActionID)
    requires env.server.reply(Query(ActionsRelevance)) == Some(ActionsReply(env.sites, actions))
    ensures ActionsOf(env) == Ok(actions)
  {
    var tuples := seq(|actions|, i requires 0 <= i < |actions| => ActionTuple(env.sites, actions[i]));
    QueryReplyOf(env.server, Query(ActionsRelevance), tuples);
    forall i | 0 <= i < |actions|
      ensures ActionOf(env.sites, tuples[i]) == Ok(actions[i])
    {
      ActionOfTuple(env.sites, actions[i]);
    }
    MapAllExact(env.sites, tuples, ActionOf, actions);
  }

  /** An empty `Result` gives no actions. */
  lemma ActionsOfEmptyReply(env: Env)
    requires env.server.reply(Query(ActionsRelevance)) == Some(QueryDocument([]))
    ensures ActionsOf(env) == Ok([])
  {
    QueryDocumentResult([]);
  }

  // Sites.

  /** The `sites` reply entry of a site of kind `kind`: element `<kind>Site` with a `Name`. */
  function SiteElement(kind: string, name: string): Element {
    Element(kind + "Site", [], "", [Leaf("Name", name)])
  }

  /** The type GetSites gives a site of kind `kind`. */
  function KindType(kind: string): string {
    if kind == "Action" then Master else Lower(kind)
  }

  /** Reading a site entry gives its name and the type of its kind. */
  lemma SiteOfElement(kind: string, name: string)
    requires forall i :: 0 <= i < |kind| ==> kind[i] != 'S'
    ensures SiteOf((), SiteElement(kind, name)) == Ok(Site(0, name, KindType(kind)))
  {
    if kind != "Action" {
      SiteTypeOfKind(kind);
    }
    assert Children(SiteElement(kind, name), "Name") == [Leaf("Name", name)];
  }

  /** The `sites` reply listing one entry per (kind, name) pair, in order. */
  function SitesReply(kinds: seq<string>, names: seq<string>): Document
    requires |kinds| == |names|
  {
    Document(Element("BESAPI", [], "", seq(|kinds|, i requires 0 <= i < |kinds| => SiteElement(kinds[i], names[i]))))
  }

  /** GetSites reads one site per entry, in order, typed by its kind. */
  lemma SitesOfReply(server: Server, kinds: seq<string>, names: seq<string>)
    requires |kinds| == |names|
    requires forall i, j :: 0 <= i < |kinds| && 0 <= j < |kinds[i]| ==> kinds[i][j] != 'S'
    requires server.reply(SitesRequest) == Some(SitesReply(kinds, names))
    ensures SitesOf(server) == Ok(seq(|kinds|, i requires 0 <= i < |kinds| => Site(0, names[i], KindType(kinds[i]))))
  {
    var elements := seq(|kinds|, i requires 0 <= i < |kinds| => SiteElement(kinds[i], names[i]));
    var sites := seq(|kinds|, i requires 0 <= i < |kinds| => Site(0, names[i], KindType(kinds[i])));
    forall i | 0 <= i < |kinds|
      ensures SiteOf((), elements[i]) == Ok(sites[i])
    {
      SiteOfElement(kinds[i], names[i]);
    }
    MapAllExact((), elements, SiteOf, sites);
  }

  // Action details and results.

  /** The children a `Computer` element of the status reply has for a result: its four
      fields, then the times it has. */
  function ResultFields(r: ActionResult): seq<Element> {
    Counters(r) + Times(r)
  }

  function Counters(r: ActionResult): seq<Element> {
    [Leaf("Status", r.Status), Leaf("ApplyCount", IntToString(r.ApplyCount)),
     Leaf("RetryCount", IntToString(r.RetryCount)), Leaf("LineNumber", IntToString(r.LineNumber))]
  }

  function Times(r: ActionResult): seq<Element> {
    TimeField("StartTime", r.StartTime) + TimeField("EndTime", r.EndTime)
  }

  /** A time child, present only when there is a time. */
  function TimeField(name: string, t: Option<DateTime>): (f: seq<Element>)
    ensures forall i :: 0 <= i < |f| ==> f[i].name == name
  {
    if t.None? then [] else [Leaf(name, t.value.text)]
  }

  /** The `Computer` element the status reply holds for one result. */
  function ResultElement(r: ActionResult): Element {
    Element("Computer", [Attribute("ID", IntToString(r.ComputerID))], "", ResultFields(r))
  }

  /** A field other than the times is found among the four fields. */
  lemma CounterFound(r: ActionResult, k: nat, name: string)
    requires k < 4 && Counters(r)[k].name == name && name != "StartTime" && name != "EndTime"
    requires forall i :: 0 <= i < 4 && i != k ==> Counters(r)[i].name != name
    ensures Children(ResultElement(r), name) == [Counters(r)[k]]
  {
    NamedConcat(Counters(r), Times(r), name);
    assert Named(Times(r), name) == [];
    NamedOnly(Counters(r), name, k);
  }

  /** The start time is found among the times, and only there. */
  lemma StartTimeFound(r: ActionResult)
    ensures Children(ResultElement(r), "StartTime") == TimeField("StartTime", r.StartTime)
  {
    var starts := TimeField("StartTime", r.StartTime);
    var ends := TimeField("EndTime", r.EndTime);
    NamedConcat(Counters(r), Times(r), "StartTime");
    NamedConcat(starts, ends, "StartTime");
    assert Named(Counters(r), "StartTime") == [];
    assert Named(ends, "StartTime") == [];
    NamedAll(starts, "StartTime");
  }

  /** The end time is found among the times, and only there. */
  lemma EndTimeFound(r: ActionResult)
    ensures Children(ResultElement(r), "EndTime") == TimeField("EndTime", r.EndTime)
  {
    var starts := TimeField("StartTime", r.StartTime);
    var ends := TimeField("EndTime", r.EndTime);
    NamedConcat(Counters(r), Times(r), "EndTime");
    NamedConcat(starts, ends, "EndTime");
    assert Named(Counters(r), "EndTime") == [];
    assert Named(starts, "EndTime") == [];
    NamedAll(ends, "EndTime");
    assert [] + ends == ends;
  }

  /** What ActionResultOf finds in a result's element: each field's child, and each
      time exactly when it was written. */
  lemma ResultElementFields(r: ActionResult)
    ensures var e := ResultElement(r);
      && Attr(e, "ID") == Ok(IntToString(r.ComputerID))
      && Sub(e, "Status") == Ok(Leaf("Status", r.Status))
      && Sub(e, "ApplyCount") == Ok(Leaf("ApplyCount", IntToString(r.ApplyCount)))
      && Sub(e, "RetryCount") == Ok(Leaf("RetryCount", IntToString(r.RetryCount)))
      && Sub(e, "LineNumber") == Ok(Leaf("LineNumber", IntToString(r.LineNumber)))
      && OptionalTime(e, "StartTime") == r.StartTime
      && OptionalTime(e, "EndTime") == r.EndTime
  {
    CounterFound(r, 0, "Status");
    CounterFound(r, 1, "ApplyCount");
    CounterFound(r, 2, "RetryCount");
    CounterFound(r, 3, "LineNumber");
    StartTimeFound(r);
    EndTimeFound(r);
  }

  /** Reading a result's element gives the result back, each time present exactly when it
      was written. */
  lemma ActionResultOfElement(r: ActionResult)
    requires InInt32(r.ComputerID) && InInt32(r.ApplyCount) && InInt32(r.RetryCount) && InInt32(r.LineNumber)
    ensures ActionResultOf(r.ActionID, ResultElement(r)) == Ok(r)
  {
    ResultElementFields(r);
    ParseIntToString(r.ComputerID);
    ParseIntToString(r.ApplyCount);
    ParseIntToString(r.RetryCount);
    ParseIntToString(r.LineNumber);
  }

  /** The header of the status reply: the action's ID, status and issue date. */
  function DetailFields(d: ActionDetail): seq<Element> {
    [Leaf("ActionID", IntToString(d.ActionID)), Leaf("Status", d.Status), Leaf("DateIssued", d.DateIssued)]
  }

  /** The `Computer` elements of a status reply, one per result. */
  function ResultElements(results: seq<ActionResult>): (es: seq<Element>)
    ensures |es| == |results|
    ensures forall i :: 0 <= i < |results| ==> es[i] == ResultElement(results[i]) && es[i].name == "Computer"
  {
    seq(|results|, i requires 0 <= i < |results| => ResultElement(results[i]))
  }

  /** The `ActionResults` element: the header, then one `Computer` element per result. */
  function StatusElement(d: ActionDetail, results: seq<ActionResult>): Element {
    Element("ActionResults", [], "", DetailFields(d) + ResultElements(results))
  }

  /** The reply to `action/{id}/status`. */
  function StatusReply(d: ActionDetail, results: seq<ActionResult>): Document {
    Document(Element("BESAPI", [], "", [StatusElement(d, results)]))
  }

  /** The `ActionResults` element of a status reply is the one it was built with. */
  lemma StatusOfReply(server: Server, actionID: int, d: ActionDetail, results: seq<ActionResult>)
    requires server.reply(ActionStatusRequest(actionID)) == Some(StatusReply(d, results))
    ensures ActionStatus(server, actionID) == Ok(StatusElement(d, results))
  {
    var root := StatusReply(d, results).root;
    assert Children(root, "ActionResults") == root.children;
  }

  /** The `Computer` elements of the status element are those it was built with. */
  lemma StatusComputers(d: ActionDetail, results: seq<ActionResult>)
    ensures Children(StatusElement(d, results), "Computer") == ResultElements(results)
  {
    var computers := ResultElements(results);
    NamedConcat(DetailFields(d), computers, "Computer");
    assert Named(DetailFields(d), "Computer") == [];
    NamedAll(computers, "Computer");
    assert [] + computers == computers;
  }

  /** A header field of the status reply is found before the computers, and only there. */
  lemma DetailFieldFound(d: ActionDetail, computers: seq<Element>, k: nat, name: string)
    requires k < 3 && DetailFields(d)[k].name == name && name != "Computer"
    requires forall i :: 0 <= i < 3 && i != k ==> DetailFields(d)[i].name != name
    requires forall i :: 0 <= i < |computers| ==> computers[i].name == "Computer"
    ensures Named(DetailFields(d) + computers, name) == [DetailFields(d)[k]]
  {
    NamedConcat(DetailFields(d), computers, name);
    assert Named(computers, name) == [];
    NamedOnly(DetailFields(d), name, k);
  }

  /** GetActionDetail reads the header of the status reply back. */
  lemma ActionDetailOfReply(server: Server, action: Action, d: ActionDetail, results: seq<ActionResult>)
    requires InInt32(d.ActionID)
    requires server.reply(ActionStatusRequest(action.ActionID)) == Some(StatusReply(d, results))
    ensures ActionDetailOf(server, action) == Ok(d)
  {
    var computers := ResultElements(results);
    StatusOfReply(server, action.ActionID, d, results);
    DetailFieldFound(d, computers, 0, "ActionID");
    DetailFieldFound(d, computers, 1, "Status");
    DetailFieldFound(d, computers, 2, "DateIssued");
    ParseIntToString(d.ActionID);
  }

  /** GetActionResults reads back every result of the status reply, in order. */
  lemma ActionResultsOfReply(server: Server, action: Action, d: ActionDetail, results: seq<ActionResult>)
    requires forall i :: 0 <= i < |results| ==>
      && results[i].ActionID == action.ActionID
      && InInt32(results[i].ComputerID) && InInt32(results[i].ApplyCount)
      && InInt32(results[i].RetryCount) && InInt32(results[i].LineNumber)
    requires server.reply(ActionStatusRequest(action.ActionID)) == Some(StatusReply(d, results))
    ensures ActionResultsOf(server, action) == Ok(results)
  {
    var computers := ResultElements(results);
    StatusOfReply(server, action.ActionID, d, results);
    StatusComputers(d, results);
    forall i | 0 <= i < |results|
      ensures ActionResultOf(action.ActionID, computers[i]) == Ok(results[i])
    {
      ActionResultOfElement(results[i]);
    }
    MapAllExact(action.ActionID, computers, ActionResultOf, results);
  }

  // Analysis properties and their results.

  /** The `Property` element the analysis reply holds for a property. */
  function PropertyElement(p: AnalysisProperty): Element {
    Element("Property", [Attribute("ID", IntToString(p.SequenceNo)), Attribute("Name", p.Name)], "", [])
  }

  /** Reading a property's element gives its sequence number and name; the store gives
      it its own ID later, so it is read with ID 0. */
  lemma PropertyOfElement(p: AnalysisProperty)
    requires p.ID == 0 && InInt32(p.SequenceNo)
    ensures PropertyOf(p.AnalysisID, PropertyElement(p)) == Ok(p)
  {
    var e := PropertyElement(p);
    assert e.attributes[0].name == "ID" && e.attributes[1].name == "Name";
    assert AttributeValue(e, "ID") == Some(IntToString(p.SequenceNo));
    assert AttributeValue(e, "Name") == Some(p.Name);
    ParseIntToString(p.SequenceNo);
  }

  /** The tuple the property-results query answers for one result: computer ID, value. */
  function PropertyResultTuple(r: AnalysisPropertyResult): Element {
    Tuple([IntToString(r.ComputerID), r.Value])
  }

  /** Reading a result's tuple gives the result back. */
  lemma PropertyResultOfTuple(r: AnalysisPropertyResult)
    requires InInt32(r.ComputerID)
    ensures PropertyResultOf(r.AnalysisPropertyID, PropertyResultTuple(r)) == Ok(r)
  {
    ParseIntToString(r.ComputerID);
  }

  function PropertyResultTuples(results: seq<AnalysisPropertyResult>): (ts: seq<Element>)
    ensures |ts| == |results|
    ensures forall i :: 0 <= i < |results| ==> ts[i] == PropertyResultTuple(results[i]) && ts[i].name == "Tuple"
  {
    seq(|results|, i requires 0 <= i < |results| => PropertyResultTuple(results[i]))
  }

  /** GetAnalysisPropertyResult reads back every result of the reply to the query for
      the property's sequence number and its analysis's name, in order. */
  lemma PropertyResultsOfReply(env: Env, property: AnalysisProperty, analysis: Analysis, results: seq<AnalysisPropertyResult>)
    requires env.analysisWithID(property.AnalysisID) == Some(analysis)
    requires forall i :: 0 <= i < |results| ==> results[i].AnalysisPropertyID == property.ID && InInt32(results[i].ComputerID)
    requires env.server.reply(Query(PropertyResultsRelevance(property.SequenceNo, analysis.Name)))
      == Some(QueryDocument(PropertyResultTuples(results)))
    ensures PropertyResultsOf(env, property) == Ok(results)
  {
    var tuples := PropertyResultTuples(results);
    QueryReplyOf(env.server, Query(PropertyResultsRelevance(property.SequenceNo, analysis.Name)), tuples);
    forall i | 0 <= i < |results|
      ensures PropertyResultOf(property.ID, tuples[i]) == Ok(results[i])
    {
      PropertyResultOfTuple(results[i]);
    }
    MapAllExact(property.ID, tuples, PropertyResultOf, results);
  }

  // Baselines and their results.

  /** The `Baseline` element the site content holds for a baseline. */
  function BaselineElement(b: Baseline): Element {
    Element("Baseline", [], "", [Leaf("ID", IntToString(b.BaselineID)), Leaf("Name", b.Name)])
  }

  /** Reading a baseline's element, in the content of its site, gives the baseline back. */
  lemma BaselineOfElement(b: Baseline)
    requires InInt32(b.BaselineID)
    ensures BaselineOf(b.SiteID, BaselineElement(b)) == Ok(b)
  {
    var e := BaselineElement(b);
    assert Children(e, "ID") == [e.children[0]];
    assert Children(e, "Name") == [e.children[1]];
    ParseIntToString(b.BaselineID);
  }

  /** A `Computer` element whose resource URI is that of computer `id` on `host`. */
  function ResourceElement(host: string, id: int): Element {
    Element("Computer", [Attribute("Resource", ComputerResource(host, id))], "", [])
  }

  /** Reading a computer's resource URI gives its ID as the baseline result's computer. */
  lemma BaselineResultOfResource(baselineID: int, host: string, id: int)
    requires host != [] && Avoids(host, {'/', '?', '#'}) && InInt32(id)
    ensures BaselineResultOf(baselineID, ResourceElement(host, id)) == Ok(BaselineResult(baselineID, id))
  {
    ComputerIdOfResource(host, id);
    assert AttributeValue(ResourceElement(host, id), "Resource") == Some(ComputerResource(host, id));
  }

  // Group members.

  /** The tuple the manual-members query answers for one computer: ID, name. */
  function MemberTuple(id: int, name: string): Element {
    Tuple([IntToString(id), name])
  }

  lemma ManualMemberOfTuple(groupID: int, id: int, name: string)
    requires InInt32(id)
    ensures ManualMemberOf(groupID, MemberTuple(id, name)) == Ok(ComputerGroupMember(groupID, id))
  {
    ParseIntToString(id);
  }

  lemma DynamicMemberOfResource(groupID: int, host: string, id: int)
    requires host != [] && Avoids(host, {'/', '?', '#'}) && InInt32(id)
    ensures DynamicMemberOf(groupID, ResourceElement(host, id)) == Ok(ComputerGroupMember(groupID, id))
  {
    ComputerIdOfResource(host, id);
    assert AttributeValue(ResourceElement(host, id), "Resource") == Some(ComputerResource(host, id));
  }

  /** The manual and the dynamic path read the same computer as the same member: one by
      the first answer of its tuple, the other by the last segment of its URI. */
  lemma MemberPathsAgree(groupID: int, host: string, id: int, name: string)
    requires host != [] && Avoids(host, {'/', '?', '#'}) && InInt32(id)
    ensures ManualMemberOf(groupID, MemberTuple(id, name)) == DynamicMemberOf(groupID, ResourceElement(host, id))
  {
    ManualMemberOfTuple(groupID, id, name);
    DynamicMemberOfResource(groupID, host, id);
  }

  // The manual flag.

  /** The reply to the manual-flag query: one `Answer`, the flag as Boolean.ToString prints it. */
  function ManualFlagReply(manual: bool): Document {
    QueryDocument([Leaf("Answer", BoolToString(manual))])
  }

  /** IsManualGroup reads the flag back. */
  lemma IsManualGroupOfReply(server: Server, groupID: int, manual: bool)
    requires server.reply(Query(ManualFlagRelevance(groupID))) == Some(ManualFlagReply(manual))
    ensures IsManualGroup(server, groupID) == Ok(manual)
  {
    var answer := Leaf("Answer", BoolToString(manual));
    var result := Element("Result", [], "", [answer]);
    var query := Element("Query", [], "", [result]);
    assert Children(ManualFlagReply(manual).root, "Query") == [query];
    assert Children(query, "Result") == [result];
    assert Children(result, "Answer") == [answer];
    ParseBoolToString(manual);
  }

  /** An empty `Result` means the group is not manual. */
  lemma IsManualGroupOfEmptyReply(server: Server, groupID: int)
    requires server.reply(Query(ManualFlagRelevance(groupID))) == Some(QueryDocument([]))
    ensures IsManualGroup(server, groupID) == Ok(false)
  {
    QueryDocumentResult([]);
  }

  // Computer names.

  /** A `Property` element of a computer, named by its Name attribute. */
  function Property(name: string, value: string): Element {
    Element("Property", [Attribute("Name", name)], value, [])
  }

  /** The reply to `computer/{id}`: the "Computer Name" property, then any others. */
  function ComputerReply(hostName: string, others: seq<Element>): Document {
    Document(Element("BESAPI", [], "", [Element("Computer", [], "", [Property("Computer Name", hostName)] + others)]))
  }

  /** Once the computer-name property is found, properties named otherwise leave it the
      single one. */
  lemma {:induction false} NoOtherComputerName(others: seq<Element>, found: Element)
    requires forall i :: 0 <= i < |others| ==>
      AttributeValue(others[i], "Name").Some? && AttributeValue(others[i], "Name") != Some("Computer Name")
    ensures SingleComputerName(others, Some(found)) == Ok(found)
  {
    if others != [] {
      NoOtherComputerName(others[1..], found);
    }
  }

  /** A computer-name property first, followed by properties named otherwise, is the one
      the extractor takes. */
  lemma SingleComputerNameFirst(hostName: string, others: seq<Element>)
    requires forall i :: 0 <= i < |others| ==>
      AttributeValue(others[i], "Name").Some? && AttributeValue(others[i], "Name") != Some("Computer Name")
    ensures SingleComputerName([Property("Computer Name", hostName)] + others, None) == Ok(Property("Computer Name", hostName))
  {
    var first := Property("Computer Name", hostName);
    var properties := [first] + others;
    assert properties[0] == first && properties[1..] == others;
    NoOtherComputerName(others, first);
  }

  lemma HostNameOfReply(server: Server, computerID: int, hostName: string, others: seq<Element>)
    requires forall i :: 0 <= i < |others| ==> others[i].name == "Property"
    requires forall i :: 0 <= i < |others| ==>
      AttributeValue(others[i], "Name").Some? && AttributeValue(others[i], "Name") != Some("Computer Name")
    requires server.reply(ComputerRequest(computerID)) == Some(ComputerReply(hostName, others))
    ensures HostName(server, computerID) == Ok(hostName)
  {
    var first := Property("Computer Name", hostName);
    var properties := [first] + others;
    var computer := Element("Computer", [], "", properties);
    var doc := ComputerReply(hostName, others);
    assert Answered(server, ComputerRequest(computerID)) == Ok(doc);
    assert Top(doc, "BESAPI") == Ok(doc.root);
    assert Children(doc.root, "Computer") == [computer];
    assert Sub(doc.root, "Computer") == Ok(computer);
    NamedAll(properties, "Property");
    assert Children(computer, "Property") == properties;
    SingleComputerNameFirst(hostName, others);
    assert SingleComputerName(Children(computer, "Property"), None) == Ok(first);
    assert Value(first) == hostName + ValueOfAll([]) == hostName;
  }
}
