/** The requests the extractor sends: a REST resource template whose `{name}` segments
    are filled in by AddUrlSegment, or a relevance expression sent to the generic
    `query` resource. A segment whose name was never bound is left in the path as
    `{name}`. */
module Requests {
  import opened Wrappers
  import opened Conversions
  import opened Entities

  /** One '/'-separated piece of a resource template. */
  datatype Part = Lit(text: string) | Slot(name: string)

  datatype Request =
    | Rest(template: seq<Part>, bindings: map<string, string>)
    | Query(relevance: Relevance)

  /** The relevance queries the extractor sends, with the values String.Format fills in. */
  datatype Relevance =
    | ActionsRelevance
    | PropertyResultsRelevance(sequenceNo: int, analysisName: string)
    | GroupMembersRelevance(groupID: int)
    | ManualFlagRelevance(groupID: int)

  function Piece(p: Part, bindings: map<string, string>): string {
    match p
    case Lit(t) => t
    case Slot(n) => if n in bindings then bindings[n] else "{" + n + "}"
  }

  /** The pieces of a template with its bindings filled in. */
  function Pieces(parts: seq<Part>, bindings: map<string, string>): (r: seq<string>)
    ensures |r| == |parts| && forall i :: 0 <= i < |parts| ==> r[i] == Piece(parts[i], bindings)
  {
    seq(|parts|, i requires 0 <= i < |parts| => Piece(parts[i], bindings))
  }

  /** Every template segment of the request is bound. */
  predicate Complete(r: Request) {
    r.Rest? ==> forall i :: 0 <= i < |r.template| && r.template[i].Slot? ==> r.template[i].name in r.bindings
  }

  /** The segments of a request's path, which RestSharp joins with '/'. */
  function PathSegments(r: Request): seq<string>
    requires r.Rest?
  {
    Pieces(r.template, r.bindings)
  }

  const Master: string := "master"

  // The direct resources.

  const SitesRequest: Request := Rest([Lit("sites")], map[])

  const ComputersRequest: Request := Rest([Lit("computers")], map[])

  /** `action/{id}/status`, read by both GetActionDetail and GetActionResults. */
  function ActionStatusRequest(actionID: int): Request {
    Rest([Lit("action"), Slot("id"), Lit("status")], map["id" := IntToString(actionID)])
  }

  function ComputerRequest(computerID: int): Request {
    Rest([Lit("computer"), Slot("id")], map["id" := IntToString(computerID)])
  }

  /** A site-scoped listing `<kind>/{sitetype}/{site}<suffix>`; for the master action site
      the template drops `{site}` and only `sitetype` is bound. */
  function SiteScoped(kind: string, suffix: seq<Part>, site: Site): Request {
    if site.Type == Master then
      Rest([Lit(kind), Slot("sitetype")] + suffix, map["sitetype" := site.Type])
    else
      Rest([Lit(kind), Slot("sitetype"), Slot("site")] + suffix, map["sitetype" := site.Type, "site" := site.Name])
  }

  function AnalysesRequest(site: Site): Request {
    SiteScoped("analyses", [], site)
  }

  function SiteContentRequest(site: Site): Request {
    SiteScoped("site", [Lit("content")], site)
  }

  function ComputerGroupsRequest(site: Site): Request {
    SiteScoped("computergroups", [], site)
  }

  /** `analysis/{sitetype}/{site}/{analysisid}`: no special case for the master site. */
  function AnalysisRequest(site: Site, analysisID: int): Request {
    Rest([Lit("analysis"), Slot("sitetype"), Slot("site"), Slot("analysisid")],
         map["sitetype" := site.Type, "site" := site.Name, "analysisid" := IntToString(analysisID)])
  }

  /** `computergroup/{sitetype}/{site}/{id}/computers`: no special case for the master site. */
  function GroupComputersRequest(site: Site, groupID: int): Request {
    Rest([Lit("computergroup"), Slot("sitetype"), Slot("site"), Slot("id"), Lit("computers")],
         map["sitetype" := site.Type, "site" := site.Name, "id" := IntToString(groupID)])
  }

  const BaselineComputersTemplate: seq<Part> :=
    [Lit("fixlet"), Slot("sitetype"), Slot("site"), Slot("baselineid"), Lit("computers")]

  /** The baseline-computers request as the master branch writes it: the template still
      holds `{site}` but only `sitetype` and `baselineid` are bound. */
  function BaselineComputersRequestAsWritten(site: Site, baselineID: int): Request {
    if site.Type == Master then
      Rest(BaselineComputersTemplate, map["sitetype" := site.Type, "baselineid" := IntToString(baselineID)])
    else
      Rest(BaselineComputersTemplate, map["sitetype" := site.Type, "site" := site.Name, "baselineid" := IntToString(baselineID)])
  }

  /** The baseline-computers request with the master branch shaped as the other
      site-scoped listings: `fixlet/{sitetype}/{baselineid}/computers`. */
  function BaselineComputersRequest(site: Site, baselineID: int): Request {
    if site.Type == Master then
      Rest([Lit("fixlet"), Slot("sitetype"), Slot("baselineid"), Lit("computers")],
           map["sitetype" := site.Type, "baselineid" := IntToString(baselineID)])
    else BaselineComputersRequestAsWritten(site, baselineID)
  }

  // The relevance queries' text.

  /** String.Format for templates whose only braces are `{n}` placeholders with a single
      digit n below the number of arguments: each placeholder becomes its argument. */
  function StringFormat(template: string, args: seq<string>): (r: string)
    ensures '{' !in template ==> r == template
  {
    if template == [] then []
    else if |template| >= 3 && template[0] == '{' && IsDigit(template[1]) && template[2] == '}'
      && ((template[1] - '0') as int) < |args|
    then args[(template[1] - '0') as int] + StringFormat(template[3..], args)
    else [template[0]] + StringFormat(template[1..], args)
  }

  const ActionsTemplate: string :=
    "(((name of it) of site of it) of source fixlets of it, id of it, name of it) of BES Actions"

  // Each template with a placeholder is written as its literal pieces around `{n}`;
  // the pieces are split into short literals so that their characters stay cheap to inspect.

  const PropertyResultsHead: string :=
    "((id of it) of " + "computer of it, " + "values of it) " + "of results from " + "(BES Computers) " + "of BES " + "Properties " + "whose ((source " + "id of it = "
  const PropertyResultsMiddle: string := ") and (name of source " + "analysis of it = \""
  const PropertyResultsTail: string := "\"))"

  const PropertyResultsTemplate: string :=
    PropertyResultsHead + ("{0}" + (PropertyResultsMiddle + ("{1}" + PropertyResultsTail)))

  const GroupMembersHead: string :=
    "((id of it, name of it) " + "of members of it) " + "of BES Computer Group " + "whose (id of it = "
  const ClosingParen: string := ")"

  const GroupMembersTemplate: string := GroupMembersHead + ("{0}" + ClosingParen)

  const ManualFlagHead: string := "(manual flag of it) " + "of BES computer groups " + "whose (id of it = "

  const ManualFlagTemplate: string := ManualFlagHead + ("{0}" + ClosingParen)

  /** The text of a relevance query, as sent in the `relevance` query parameter. */
  function RelevanceText(q: Relevance): string {
    match q
    case ActionsRelevance => ActionsTemplate
    case PropertyResultsRelevance(sequenceNo, analysisName) =>
      StringFormat(PropertyResultsTemplate, [IntToString(sequenceNo), analysisName])
    case GroupMembersRelevance(groupID) => StringFormat(GroupMembersTemplate, [IntToString(groupID)])
    case ManualFlagRelevance(groupID) => StringFormat(ManualFlagTemplate, [IntToString(groupID)])
  }

  /** Text without braces passes through String.Format unchanged, whatever follows it. */
  lemma {:induction false} StringFormatPlain(plain: string, rest: string, args: seq<string>)
    requires '{' !in plain
    ensures StringFormat(plain + rest, args) == plain + StringFormat(rest, args)
    decreases |plain|
  {
    if plain != [] {
      var t := plain + rest;
      assert t[0] == plain[0] && t[0] != '{';
      assert t[1..] == plain[1..] + rest;
      assert StringFormat(t, args) == [plain[0]] + StringFormat(t[1..], args);
      assert '{' !in plain[1..];
      StringFormatPlain(plain[1..], rest, args);
      assert plain == [plain[0]] + plain[1..];
      assert [plain[0]] + (plain[1..] + StringFormat(rest, args)) == plain + StringFormat(rest, args);
    } else {
      assert plain + rest == rest;
    }
  }

  /** A placeholder `{n}` with n below the number of arguments becomes argument n. */
  lemma StringFormatSlot(n: nat, rest: string, args: seq<string>)
    requires n < 10 && n < |args|
    ensures StringFormat(['{', ('0' as int + n) as char, '}'] + rest, args) == args[n] + StringFormat(rest, args)
  {
    var t := ['{', ('0' as int + n) as char, '}'] + rest;
    assert t[0] == '{' && t[2] == '}' && t[3..] == rest;
    assert IsDigit(t[1]) && (t[1] - '0') as int == n;
  }

  /** Literal text, argument 0 in place of `{0}`, and literal text again. */
  lemma FormatOneSlot(head: string, tail: string, arg: string)
    requires '{' !in head && '{' !in tail
    ensures StringFormat(head + ("{0}" + tail), [arg]) == head + (arg + tail)
  {
    assert "{0}" == ['{', ('0' as int + 0) as char, '}'];
    StringFormatPlain(head, "{0}" + tail, [arg]);
    StringFormatSlot(0, tail, [arg]);
  }

  /** Literal text around `{0}` and `{1}`: each placeholder becomes its argument. */
  lemma FormatTwoSlots(head: string, middle: string, tail: string, first: string, second: string)
    requires '{' !in head && '{' !in middle && '{' !in tail
    ensures StringFormat(head + ("{0}" + (middle + ("{1}" + tail))), [first, second])
      == head + (first + (middle + (second + tail)))
  {
    var args := [first, second];
    assert "{0}" == ['{', ('0' as int + 0) as char, '}'];
    assert "{1}" == ['{', ('0' as int + 1) as char, '}'];
    StringFormatPlain(head, "{0}" + (middle + ("{1}" + tail)), args);
    StringFormatSlot(0, middle + ("{1}" + tail), args);
    StringFormatPlain(middle, "{1}" + tail, args);
    StringFormatSlot(1, tail, args);
  }

  // None of the literal pieces holds a brace, so each placeholder is the only one.

  lemma ManualFlagHeadBraceless()
    ensures '{' !in ManualFlagHead && '{' !in ClosingParen
  {
  }

  lemma GroupMembersHeadBraceless()
    ensures '{' !in GroupMembersHead
  {
  }

  lemma PropertyResultsHeadBraceless()
    ensures '{' !in PropertyResultsHead
  {
  }

  lemma PropertyResultsRestBraceless()
    ensures '{' !in PropertyResultsMiddle && '{' !in PropertyResultsTail
  {
  }

  /** The manual-flag query for group g is the C# template with g's decimal text in place of `{0}`. */
  lemma ManualFlagText(groupID: int)
    ensures RelevanceText(ManualFlagRelevance(groupID)) == ManualFlagHead + (IntToString(groupID) + ClosingParen)
  {
    ManualFlagHeadBraceless();
    FormatOneSlot(ManualFlagHead, ClosingParen, IntToString(groupID));
  }

  /** The group-members query for group g is the C# template with g's decimal text in place of `{0}`. */
  lemma GroupMembersText(groupID: int)
    ensures RelevanceText(GroupMembersRelevance(groupID)) == GroupMembersHead + (IntToString(groupID) + ClosingParen)
  {
    ManualFlagHeadBraceless();
    GroupMembersHeadBraceless();
    FormatOneSlot(GroupMembersHead, ClosingParen, IntToString(groupID));
  }

  /** The property-results query carries the property's sequence number in place of `{0}`
      and the analysis name, between quotes, in place of `{1}`. */
  lemma PropertyResultsText(sequenceNo: int, analysisName: string)
    ensures RelevanceText(PropertyResultsRelevance(sequenceNo, analysisName))
      == PropertyResultsHead + (IntToString(sequenceNo) + (PropertyResultsMiddle + (analysisName + PropertyResultsTail)))
  {
    PropertyResultsHeadBraceless();
    PropertyResultsRestBraceless();
    FormatTwoSlots(PropertyResultsHead, PropertyResultsMiddle, PropertyResultsTail, IntToString(sequenceNo), analysisName);
  }

  // What the requests look like.

  /** The three site-scoped listings: for the master site the path is `<kind>/master`
      with no site name; for any other site it is `<kind>/<type>/<name>`; either way
      every segment is bound. */
  lemma SiteScopedShape(kind: string, suffix: seq<Part>, site: Site)
    requires forall i :: 0 <= i < |suffix| ==> suffix[i].Lit?
    ensures Complete(SiteScoped(kind, suffix, site))
    ensures site.Type == Master ==> PathSegments(SiteScoped(kind, suffix, site)) == [kind, Master] + Pieces(suffix, map[])
    ensures site.Type != Master ==>
      PathSegments(SiteScoped(kind, suffix, site)) == [kind, site.Type, site.Name] + Pieces(suffix, map[])
  {
  }

  lemma AnalysesRequestShape(site: Site)
    ensures Complete(AnalysesRequest(site))
    ensures site.Type == Master ==> PathSegments(AnalysesRequest(site)) == ["analyses", "master"]
    ensures site.Type != Master ==> PathSegments(AnalysesRequest(site)) == ["analyses", site.Type, site.Name]
  {
    SiteScopedShape("analyses", [], site);
  }

  lemma ComputerGroupsRequestShape(site: Site)
    ensures Complete(ComputerGroupsRequest(site))
    ensures site.Type == Master ==> PathSegments(ComputerGroupsRequest(site)) == ["computergroups", "master"]
    ensures site.Type != Master ==> PathSegments(ComputerGroupsRequest(site)) == ["computergroups", site.Type, site.Name]
  {
    SiteScopedShape("computergroups", [], site);
  }

  lemma SiteContentRequestShape(site: Site)
    ensures Complete(SiteContentRequest(site))
    ensures site.Type == Master ==> PathSegments(SiteContentRequest(site)) == ["site", "master", "content"]
    ensures site.Type != Master ==> PathSegments(SiteContentRequest(site)) == ["site", site.Type, site.Name, "content"]
  {
    SiteScopedShape("site", [Lit("content")], site);
  }

  /** The baseline-computers request as written leaves `{site}` unbound for the master
      site, so the path names a site called `{site}`. */
  lemma BaselineComputersAsWrittenMaster(site: Site, baselineID: int)
    requires site.Type == Master
    ensures !Complete(BaselineComputersRequestAsWritten(site, baselineID))
    ensures PathSegments(BaselineComputersRequestAsWritten(site, baselineID))
      == ["fixlet", "master", "{site}", IntToString(baselineID), "computers"]
  {
    var r := BaselineComputersRequestAsWritten(site, baselineID);
    assert r.template[2] == Slot("site") && "site" !in r.bindings;
    assert Piece(Slot("site"), r.bindings) == "{site}";
  }

  /** The corrected baseline-computers request binds every segment: for the master site
      the path is `fixlet/master/<id>/computers`; for any other site it is the request
      as written, `fixlet/<type>/<name>/<id>/computers`. */
  lemma BaselineComputersRequestShape(site: Site, baselineID: int)
    ensures Complete(BaselineComputersRequest(site, baselineID))
    ensures site.Type == Master ==>
      PathSegments(BaselineComputersRequest(site, baselineID)) == ["fixlet", "master", IntToString(baselineID), "computers"]
    ensures site.Type != Master ==>
      BaselineComputersRequest(site, baselineID) == BaselineComputersRequestAsWritten(site, baselineID)
    ensures site.Type != Master ==>
      PathSegments(BaselineComputersRequest(site, baselineID))
        == ["fixlet", site.Type, site.Name, IntToString(baselineID), "computers"]
  {
  }

  /** The two listings without a master special case bind every segment and always
      carry the site name. */
  lemma SiteNamedRequestsShape(site: Site, id: int)
    ensures Complete(AnalysisRequest(site, id)) && Complete(GroupComputersRequest(site, id))
    ensures PathSegments(AnalysisRequest(site, id)) == ["analysis", site.Type, site.Name, IntToString(id)]
    ensures PathSegments(GroupComputersRequest(site, id))
      == ["computergroup", site.Type, site.Name, IntToString(id), "computers"]
  {
  }
}
