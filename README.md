# WPMGMT.BESScraper extractor core, in Dafny

WPMGMT.BESScraper copies the inventory of a BigFix (BES) systems-management server into
SQL tables. It has two halves. `BesApi` sends REST and session-relevance requests to the
server and turns the XML replies into records. `BesDb` stores those records with
insert-if-absent semantics, keyed on each table's natural key.

This project models both halves:

- **The client** (`bes_api.dfy`). The transport is a parameter. `Server.reply` is what
  `Execute(request)` answers: a document, or nothing when the request failed. The typed
  listings (`analyses`, `groups`, `computers`) are what `Execute<List<T>>` answers. What
  the client reads from the store is a parameter too: the Site table and the analysis
  lookups.
  - Each fetch is a function of the replies.
  - The fetch methods keep the `foreach` loops of BesApi.cs. Each is proved to compute its
    function.
  - A null dereference, a failed `Int32.Parse` or a `Single()` that throws becomes a
    `Fault` that ends the fetch. It also ends the aggregating overload that called it.
- **The requests** (`requests.dfy`). These are the REST resource templates with their
  `AddUrlSegment` bindings, the master-site special cases and the text of the relevance
  queries.
- **The store** (`bes_db.dfy`). This is a class with one sequence of rows per table.
  - Each `Select*` is a function that reads `Count() > 0 ? Single() : null`. It gives
    `Ok(None)`, `Ok(Some(row))`, or `Err(NotSingle)` when several rows share the key.
  - Each `Insert*` is a check-then-write method.
  - Each bulk `Insert*s` is a loop over it.
  - The Site table's identity column is modelled: a written site gets ID = its position.
- **Supporting pieces.** These are:
  - the XML tree, with `Element(name)`, `Elements(name)`, `Attribute(name)` and `Value` (`xml.dfy`);
  - `Uri.Segments` of an absolute URI (`uri.dfy`);
  - `Int32.Parse` (`Convert.ToInt32`), `Boolean.Parse` (`Convert.ToBoolean`), ASCII
    `ToLower` and `String.Replace(x, "")` (`conversions.dfy`);
  - the generic insert-if-absent table (`tables.dfy`);
  - the generic list traversals (`lists.dfy`): `MapAll` is one result per item and
    `Gather` is `AddRange` over items.
- **Round trips** (`replies.dfy`). This file builds the replies a server would send for
  given records and proves that they are read back. For sites, actions, action details,
  action results, property results, host names and the manual flag the whole reply is
  read back. For analysis properties, baselines, baseline results and group members the
  round trip is stated for one element or one tuple; the list functions state that each
  record is the reading of its element.

## Model

| member | source | states |
|---|---|---|
| BesApi.SiteTypeOfKind | WPMGMT.BESScraper/API/BesApi.cs:603-610 | an element `<XSite>` other than `ActionSite` gets the type X with "Site" removed and lower-cased |
| BesApi.SiteOf | WPMGMT.BESScraper/API/BesApi.cs:601-611 | a site entry is read exactly when it has a `Name` child; the site carries that name and the type of its element name ("master" for `ActionSite`) |
| BesApi.SitesOf | WPMGMT.BESScraper/API/BesApi.cs:587-615 | GetSites gives one site per child of `BESAPI`, in document order, with the name and the type of that child |
| BesApi.GetSites | WPMGMT.BESScraper/API/BesApi.cs:587-615 | the loop computes `SitesOf` |
| Replies.SitesOfReply | WPMGMT.BESScraper/API/BesApi.cs:601-612 | a `sites` reply built from (kind, name) pairs is read back as exactly those sites, in order, each typed by its kind |
| Replies.SiteOfElement | WPMGMT.BESScraper/API/BesApi.cs:603-610 | one site entry is read back as its name and the type of its kind |
| BesApi.NoChildrenNoTuples | WPMGMT.BESScraper/API/BesApi.cs:82 | the "Result is not empty" test in front of each tuple loop changes nothing: an empty Result has no tuples |
| BesApi.OnlySiteNamed | WPMGMT.BESScraper/API/BesApi.cs:99 | the `Single()` site lookup succeeds only with a site of that name; with unique names it succeeds exactly when one is stored |
| BesApi.ActionOf | WPMGMT.BESScraper/API/BesApi.cs:94-102 | an action tuple reads the ID from the second answer, the name from the last and the SiteID from the stored site named by the first; with unique site names it fails exactly when there are fewer than two answers, the site is unknown or the ID does not parse |
| BesApi.ActionsOf | WPMGMT.BESScraper/API/BesApi.cs:64-107 | GetActions gives one action per `Tuple`, in order, each the reading of its tuple |
| BesApi.GetActions | WPMGMT.BESScraper/API/BesApi.cs:64-107 | the loop computes `ActionsOf` |
| Replies.ActionOfTuple | WPMGMT.BESScraper/API/BesApi.cs:94-102 | the tuple (site name, ID, name) of an action is read back as that action |
| Replies.ActionsOfReply | WPMGMT.BESScraper/API/BesApi.cs:82-106 | a reply of action tuples is read back as exactly those actions, in order |
| Replies.ActionsOfEmptyReply | WPMGMT.BESScraper/API/BesApi.cs:82-106 | an empty Result gives no actions |
| BesApi.ActionDetailOf | WPMGMT.BESScraper/API/BesApi.cs:109-126 | GetActionDetail reads the ActionID, Status and DateIssued children of `ActionResults`; the ID is the one the reply states |
| BesApi.GetActionDetails | WPMGMT.BESScraper/API/BesApi.cs:128-138 | one detail per action, in input order; the first fault ends the list |
| Replies.ActionDetailOfReply | WPMGMT.BESScraper/API/BesApi.cs:114-123 | a status reply built from a detail is read back as that detail |
| BesApi.OptionalTime | WPMGMT.BESScraper/API/BesApi.cs:174-176 | a start or end time is null exactly when its child element is absent |
| BesApi.ActionResultOf | WPMGMT.BESScraper/API/BesApi.cs:166-177 | a `Computer` element gives a result carrying the action's ID, the parsed `ID` attribute, the `Status` child, the parsed `ApplyCount`, `RetryCount` and `LineNumber` children, and each time's text, null exactly when its child is absent; it fails exactly when the attribute, the `Status` child or a counter is missing or a number does not parse |
| BesApi.ActionResultsOf | WPMGMT.BESScraper/API/BesApi.cs:140-181 | GetActionResults gives one result per `Computer` element of the status reply, in order, each the reading of its element with the action's ActionID |
| BesApi.GetActionResults | WPMGMT.BESScraper/API/BesApi.cs:140-181 | the loop computes `ActionResultsOf` |
| BesApi.GetActionResultsOfActions | WPMGMT.BESScraper/API/BesApi.cs:183-193 | the per-action lists are concatenated in input order |
| Replies.ResultElementFields | WPMGMT.BESScraper/API/BesApi.cs:168-176 | each field of a result's `Computer` element is found where the parser looks for it, and a missing time reads as null |
| Replies.ActionResultOfElement | WPMGMT.BESScraper/API/BesApi.cs:166-177 | the `Computer` element of a result is read back as that result |
| Replies.StatusComputers | WPMGMT.BESScraper/API/BesApi.cs:152 | the `Computer` children of a status reply are the result elements, whatever detail fields precede them |
| Replies.ActionResultsOfReply | WPMGMT.BESScraper/API/BesApi.cs:146-180 | a status reply built from results is read back as exactly those results, in order |
| BesApi.Stamped | WPMGMT.BESScraper/API/BesApi.cs:225-228 | every listed analysis gets the site's ID, and nothing else of it changes |
| BesApi.AnalysesOf | WPMGMT.BESScraper/API/BesApi.cs:207-231 | GetAnalyses(site) succeeds exactly when the listing is answered, and gives the listed analyses, in order, each with the site's ID and otherwise as listed |
| BesApi.GetAnalyses | WPMGMT.BESScraper/API/BesApi.cs:207-231 | the in-place stamping loop computes `AnalysesOf` |
| BesApi.GetAnalysesOfSites | WPMGMT.BESScraper/API/BesApi.cs:195-205 | the per-site lists are concatenated in input order |
| BesApi.PropertyOf | WPMGMT.BESScraper/API/BesApi.cs:269-273 | a `Property` element gives the analysis's store ID, the parsed `ID` attribute as sequence number and the `Name` attribute; it fails exactly when an attribute is missing or the ID does not parse |
| BesApi.AnalysisReply | WPMGMT.BESScraper/API/BesApi.cs:252-263 | the properties request is sent only for a stored site and the store's analysis record; it is `analysis/<type>/<name>/<stored AnalysisID>` and the element read is the first `Analysis` child of its `BES` root |
| BesApi.AnalysisPropertiesOf | WPMGMT.BESScraper/API/BesApi.cs:245-277 | GetAnalysisProperties gives one property per `Property` element of that `Analysis` element, in order, each the reading of its element with the store ID of the analysis |
| BesApi.GetAnalysisProperties | WPMGMT.BESScraper/API/BesApi.cs:245-277 | the loop computes `AnalysisPropertiesOf` |
| BesApi.GetAnalysisPropertiesOfAnalyses | WPMGMT.BESScraper/API/BesApi.cs:233-243 | the per-analysis lists are concatenated in input order |
| Replies.PropertyOfElement | WPMGMT.BESScraper/API/BesApi.cs:269-273 | a property's element is read back as that property |
| BesApi.PropertyResultsQuery | WPMGMT.BESScraper/API/BesApi.cs:308-317 | the relevance query is formatted with the sequence number and the name of the property's analysis, and needs that analysis |
| BesApi.PropertyResultOf | WPMGMT.BESScraper/API/BesApi.cs:330-332 | a property-result tuple reads the computer ID from the first answer and the value from the last, tied to the property's ID |
| BesApi.PropertyResultsOf | WPMGMT.BESScraper/API/BesApi.cs:295-337 | GetAnalysisPropertyResult gives one result per `Tuple` of the answer to the property's relevance query, in order, each the reading of its tuple tied to the property's ID |
| BesApi.GetAnalysisPropertyResult | WPMGMT.BESScraper/API/BesApi.cs:295-337 | the loop computes `PropertyResultsOf` |
| BesApi.GetAnalysisPropertyResults | WPMGMT.BESScraper/API/BesApi.cs:279-292 | the per-property lists are concatenated in input order |
| Replies.PropertyResultOfTuple | WPMGMT.BESScraper/API/BesApi.cs:330-332 | a result's tuple (computer ID, value) is read back as that result |
| Replies.PropertyResultsOfReply | WPMGMT.BESScraper/API/BesApi.cs:319-336 | a reply of result tuples is read back as exactly those results, in order |
| BesApi.BaselineOf | WPMGMT.BESScraper/API/BesApi.cs:377-381 | a `Baseline` element gives the parsed `ID` child, the site's ID and the `Name` child; it fails exactly when a child is missing or the ID does not parse |
| BesApi.BaselinesOf | WPMGMT.BESScraper/API/BesApi.cs:352-386 | GetBaselines(site) gives one baseline per `Baseline` element of the site content, in order, each the reading of its element with the site's ID |
| BesApi.GetBaselines | WPMGMT.BESScraper/API/BesApi.cs:352-386 | the loop computes `BaselinesOf` |
| BesApi.GetBaselinesOfSites | WPMGMT.BESScraper/API/BesApi.cs:339-350 | the per-site lists are concatenated in input order |
| Replies.BaselineOfElement | WPMGMT.BESScraper/API/BesApi.cs:377-381 | a baseline's element is read back as that baseline |
| BesApi.BaselineResultOf | WPMGMT.BESScraper/API/BesApi.cs:431-432 | a baseline result's computer ID is the integer in the last path segment of the `Resource` URI; it fails exactly when the attribute is missing or that segment does not parse |
| BesApi.BaselineResultsOf | WPMGMT.BESScraper/API/BesApi.cs:400-437 | GetBaselineResults gives one result per `Computer` element of the baseline-computers reply, in order, each the reading of its `Resource` with the baseline's ID |
| BesApi.GetBaselineResults | WPMGMT.BESScraper/API/BesApi.cs:400-437 | the loop computes `BaselineResultsOf` |
| BesApi.GetBaselineResultsOfBaselines | WPMGMT.BESScraper/API/BesApi.cs:388-398 | the per-baseline lists are concatenated in input order |
| Replies.BaselineResultOfResource | WPMGMT.BESScraper/API/BesApi.cs:431-432 | the resource URI `https://host/api/computer/<id>` is read back as computer `id` |
| Uri.ComputerIdOfResource | WPMGMT.BESScraper/API/BesApi.cs:431-432 | parsing the last segment of `https://host/api/computer/<id>` gives back `id` |
| Uri.ComputerResourceLastSegment | WPMGMT.BESScraper/API/BesApi.cs:431-432 | the last path segment of a computer resource URI is its ID's text |
| Uri.LastSegment | WPMGMT.BESScraper/API/BesApi.cs:432 | `Segments.Last()` of a path ending in `/s` is `s` |
| Uri.PathOfBuilt | WPMGMT.BESScraper/API/BesApi.cs:431 | the path of `scheme://host/path` is `/path` |
| BesApi.NameProperties | WPMGMT.BESScraper/API/BesApi.cs:454-455 | the `Where` keeps only properties named "Computer Name", taken from the input, and keeps none exactly when none has that name |
| BesApi.NamePropertiesKeepsMatches | WPMGMT.BESScraper/API/BesApi.cs:454-455 | every property named "Computer Name" is kept by the `Where` |
| BesApi.NamePropertiesAllNamed | WPMGMT.BESScraper/API/BesApi.cs:454-455 | a list whose properties are all named "Computer Name" passes the `Where` unchanged |
| BesApi.SingleComputerName | WPMGMT.BESScraper/API/BesApi.cs:454-455 | `Single()` succeeds exactly when one property is named "Computer Name" and gives that one; a property without a Name attribute is a null dereference |
| BesApi.HostName | WPMGMT.BESScraper/API/BesApi.cs:450-455 | a host name is read only from an answered `computer/{id}` request whose `BESAPI` root has a `Computer` child; exactly one property of the first `Computer` is named "Computer Name" and the host name is its value |
| BesApi.ComputerNamed | WPMGMT.BESScraper/API/BesApi.cs:450-456 | a listed computer keeps its ID and gets the host name its reply gives |
| BesApi.ComputersOf | WPMGMT.BESScraper/API/BesApi.cs:439-460 | GetComputers gives one computer per listed computer, in order, each the listed computer with its ID and the host name its own reply gives |
| BesApi.GetComputers | WPMGMT.BESScraper/API/BesApi.cs:439-460 | the in-place naming loop computes `ComputersOf` |
| Replies.SingleComputerNameFirst | WPMGMT.BESScraper/API/BesApi.cs:454-455 | a "Computer Name" property followed only by properties named otherwise is the one `Single()` takes |
| Replies.HostNameOfReply | WPMGMT.BESScraper/API/BesApi.cs:453-455 | the host name is read back from a computer reply that holds it |
| BesApi.IsManualGroup | WPMGMT.BESScraper/API/BesApi.cs:617-667 | a failed query is that fault; an empty Result gives false; otherwise a Result without an `Answer` is a null dereference, and the flag is `Convert.ToBoolean` of the first `Answer` |
| Replies.IsManualGroupOfReply | WPMGMT.BESScraper/API/BesApi.cs:636-639 | a reply carrying the flag is read back as that flag |
| Replies.IsManualGroupOfEmptyReply | WPMGMT.BESScraper/API/BesApi.cs:636-640 | an empty Result gives false |
| BesApi.GroupOf | WPMGMT.BESScraper/API/BesApi.cs:499-508 | a listed group keeps its ID and name, takes the stored site's ID when that site exists (its own otherwise) and takes the manual flag its query gives |
| BesApi.ComputerGroupsOf | WPMGMT.BESScraper/API/BesApi.cs:475-511 | GetComputerGroups(site) gives one group per listed group, in order, each the reading of the listed group with the stored site (its own SiteID when the site is not stored) |
| BesApi.StampGroups | WPMGMT.BESScraper/API/BesApi.cs:499-508 | the in-place loop gives every listed group its reading, in order |
| BesApi.GetComputerGroups | WPMGMT.BESScraper/API/BesApi.cs:475-511 | the method computes `ComputerGroupsOf` |
| BesApi.GetAllComputerGroups | WPMGMT.BESScraper/API/BesApi.cs:462-473 | the groups of every stored site are concatenated in table order |
| BesApi.ManualMemberOf | WPMGMT.BESScraper/API/BesApi.cs:556-557 | a manual group's member is the parsed first answer of its tuple |
| BesApi.DynamicMemberOf | WPMGMT.BESScraper/API/BesApi.cs:577-578 | a dynamic group's member is the integer in the last path segment of the `Resource` URI |
| BesApi.ManualMembersOf | WPMGMT.BESScraper/API/BesApi.cs:536-559 | the manual branch gives one member per `Tuple` of the members query, in order, each the reading of its tuple with the group's ID |
| BesApi.DynamicMembersOf | WPMGMT.BESScraper/API/BesApi.cs:563-580 | the dynamic branch gives one member per `Computer` element of the group's computers reply, in order, each the reading of its `Resource` with the group's ID |
| BesApi.GroupMembersOf | WPMGMT.BESScraper/API/BesApi.cs:525-585 | a group whose site is not stored has no members; otherwise a manual group takes the relevance branch and any other the resource branch; every member carries the group's ID |
| BesApi.GetGroupMembers | WPMGMT.BESScraper/API/BesApi.cs:525-585 | the method computes `GroupMembersOf` |
| BesApi.GetGroupMembersOfGroups | WPMGMT.BESScraper/API/BesApi.cs:513-523 | the per-group lists are concatenated in input order |
| Replies.ManualMemberOfTuple | WPMGMT.BESScraper/API/BesApi.cs:556-557 | a member tuple (id, name) is read back as that member |
| Replies.DynamicMemberOfResource | WPMGMT.BESScraper/API/BesApi.cs:577-578 | a member's resource URI is read back as that member |
| Replies.MemberPathsAgree | WPMGMT.BESScraper/API/BesApi.cs:534-580 | the manual and the dynamic branch read the same member from the two encodings of one computer |
| Lists.GatherConcat | WPMGMT.BESScraper/API/BesApi.cs:183-193 | an aggregation over two lists joined is the two aggregations joined |
| Lists.MapAllFirstFault | WPMGMT.BESScraper/API/BesApi.cs:128-138 | a per-item loop stops with the fault of the first failing item |
| Lists.Collect | WPMGMT.BESScraper/API/BesApi.cs:128-138 | the `foreach`/`Add` loop computes one result per item, in order |
| Requests.SiteScopedShape | WPMGMT.BESScraper/API/BesApi.cs:212-221 | a master site's listing is `<kind>/master`; any other is `<kind>/<type>/<name>`; every segment is bound |
| Requests.AnalysesRequestShape | WPMGMT.BESScraper/API/BesApi.cs:212-221 | the analyses request is `analyses/master` or `analyses/<type>/<name>` |
| Requests.SiteContentRequestShape | WPMGMT.BESScraper/API/BesApi.cs:360-369 | the site-content request is `site/master/content` or `site/<type>/<name>/content` |
| Requests.ComputerGroupsRequestShape | WPMGMT.BESScraper/API/BesApi.cs:480-489 | the computer-groups request is `computergroups/master` or `computergroups/<type>/<name>` |
| Requests.SiteNamedRequestsShape | WPMGMT.BESScraper/API/BesApi.cs:258-261 | the analysis and group-computers requests always carry type and name and bind every segment |
| Requests.BaselineComputersAsWrittenMaster | WPMGMT.BESScraper/API/BesApi.cs:416-421 | for a master site the request as written leaves `{site}` unbound, so the path reads `fixlet/master/{site}/<id>/computers` |
| Requests.BaselineComputersRequestShape | WPMGMT.BESScraper/API/BesApi.cs:410-421 | the corrected request binds every segment: `fixlet/master/<id>/computers`, or the request as written for any other site |
| Requests.StringFormat | WPMGMT.BESScraper/API/BesApi.cs:317 | a template with no placeholder is sent unchanged |
| Requests.StringFormatPlain | WPMGMT.BESScraper/API/BesApi.cs:317 | `String.Format` copies brace-free text and goes on with what follows |
| Requests.StringFormatSlot | WPMGMT.BESScraper/API/BesApi.cs:317 | `String.Format` replaces a placeholder `{n}` by argument n |
| Requests.FormatOneSlot | WPMGMT.BESScraper/API/BesApi.cs:543 | literal text, `{0}` and literal text format to the text with the argument in between |
| Requests.FormatTwoSlots | WPMGMT.BESScraper/API/BesApi.cs:317 | literal text around `{0}` and `{1}` formats to that text with the two arguments in place |
| Requests.ManualFlagText | WPMGMT.BESScraper/API/BesApi.cs:627-631 | the manual-flag query for a group is `(manual flag of it) of BES computer groups whose (id of it = <id>)` |
| Requests.GroupMembersText | WPMGMT.BESScraper/API/BesApi.cs:539-543 | the members query for a group is `((id of it, name of it) of members of it) of BES Computer Group whose (id of it = <id>)` |
| Requests.PropertyResultsText | WPMGMT.BESScraper/API/BesApi.cs:308-317 | the property-results query carries the property's sequence number as the source id and the analysis name between quotes, in the C# template |
| Conversions.ParseIntToString | WPMGMT.BESScraper/API/BesApi.cs:121 | `Int32.Parse` of a 32-bit integer's text gives the integer back |
| Conversions.ParseInt32 | WPMGMT.BESScraper/API/BesApi.cs:121 | a parsed integer is within the 32-bit range |
| Conversions.PaddedNumbers | WPMGMT.BESScraper/API/BesApi.cs:121 | `Int32.Parse` accepts NUL characters after a number's trailing white space ("12 \0" is 12) and rejects a NUL before it |
| Conversions.TrimStartDropsWhite | WPMGMT.BESScraper/API/BesApi.cs:121 | the leading trim drops exactly the padding at the front: what remains is a suffix that starts with no padding |
| Conversions.TrimEndDropsWhite | WPMGMT.BESScraper/API/BesApi.cs:121 | the trailing trim drops exactly the padding at the back: what remains is a prefix that ends with no padding |
| Conversions.ParseBool | WPMGMT.BESScraper/API/BesApi.cs:638 | `Convert.ToBoolean` gives true or false exactly for the text "true" or "false" in any letter case once the white space (`Char.IsWhiteSpace`) and NUL characters around it are trimmed, and throws otherwise |
| Conversions.FlagBeforeNoBreakSpace | WPMGMT.BESScraper/API/BesApi.cs:638 | a no-break space after "True" is trimmed, so the flag reads as true |
| Conversions.FlagBeforeNul | WPMGMT.BESScraper/API/BesApi.cs:638 | a NUL after "false" is trimmed, so the flag reads as false |
| Conversions.ParseBoolToString | WPMGMT.BESScraper/API/BesApi.cs:638 | `Convert.ToBoolean` reads back "True" and "False" |
| Conversions.Lower | WPMGMT.BESScraper/API/BesApi.cs:609 | lower-casing keeps the length and maps each character |
| Conversions.LowerIdempotent | WPMGMT.BESScraper/API/BesApi.cs:609 | lower-casing twice is lower-casing once |
| Conversions.RemoveAllSuffix | WPMGMT.BESScraper/API/BesApi.cs:609 | removing "Site" from `XSite` gives X when X holds no 'S' |
| Tables.Select | WPMGMT.BESScraper/API/BesDb.cs:22-90 | a lookup is null exactly when no row has the key, the row when one has it, and `Single()`'s exception exactly when two have it; with unique keys it never throws |
| Tables.InsertIfAbsent | WPMGMT.BESScraper/API/BesDb.cs:97-177 | the row is appended exactly when no row has its key; afterwards its key is present and unique keys stay unique |
| Tables.InsertIdempotent | WPMGMT.BESScraper/API/BesDb.cs:97-177 | inserting the same row twice leaves the table as inserting it once |
| Tables.InsertAllExtends | WPMGMT.BESScraper/API/BesDb.cs:107-185 | a bulk insert only appends input rows; the rows already there stay in place |
| Tables.InsertAllCoversKeys | WPMGMT.BESScraper/API/BesDb.cs:107-185 | after a bulk insert the key of every input row is present |
| Tables.InsertAllKeepsKeysUnique | WPMGMT.BESScraper/API/BesDb.cs:107-185 | a bulk insert keeps the natural key unique |
| Tables.InsertAllPresent | WPMGMT.BESScraper/API/BesDb.cs:107-185 | rows whose keys are all present insert nothing |
| Tables.InsertAllIdempotent | WPMGMT.BESScraper/API/BesDb.cs:107-185 | repeating a bulk insert inserts nothing more |
| BesDb.Store.constructor | WPMGMT.BESScraper/API/BesDb.cs:13-17 | a store attaches to the five tables as they stand, whatever earlier runs wrote into them |
| BesDb.Store.SelectAction | WPMGMT.BESScraper/API/BesDb.cs:22-30 | null exactly when no action has the ID, otherwise the action with it; never throws on a valid store |
| BesDb.Store.SelectActionDetail | WPMGMT.BESScraper/API/BesDb.cs:32-40 | null exactly when no detail has the ActionID, otherwise the detail with it; never throws on a valid store |
| BesDb.Store.SelectActionResult | WPMGMT.BESScraper/API/BesDb.cs:42-50 | null exactly when no result has the (ComputerID, ActionID) pair, otherwise the result with both; never throws on a valid store |
| BesDb.Store.SelectComputer | WPMGMT.BESScraper/API/BesDb.cs:52-60 | null exactly when no computer has the ID, otherwise the computer with it; never throws on a valid store |
| BesDb.Store.SelectComputerByName | WPMGMT.BESScraper/API/BesDb.cs:62-70 | null exactly when no computer has the name; throws exactly when two computers share it |
| BesDb.Store.SelectSite | WPMGMT.BESScraper/API/BesDb.cs:72-80 | null exactly when no site has the ID; on a valid store, the site at that position |
| BesDb.Store.SelectSiteByName | WPMGMT.BESScraper/API/BesDb.cs:82-90 | null exactly when no site has the name, otherwise the site with it; never throws on a valid store |
| BesDb.Store.SelectSites | WPMGMT.BESScraper/API/BesDb.cs:92-95 | all sites, with unique names and IDs 1, 2, … on a valid store |
| BesDb.Store.InsertAction | WPMGMT.BESScraper/API/BesDb.cs:97-105 | the action is appended exactly when `SelectAction` finds nothing; no other table changes; a valid store stays valid |
| BesDb.Store.InsertActions | WPMGMT.BESScraper/API/BesDb.cs:107-113 | the loop inserts each action in list order; on a valid table it never throws and keeps the keys unique; a valid store stays valid |
| BesDb.Store.InsertActionDetail | WPMGMT.BESScraper/API/BesDb.cs:115-123 | the detail is appended exactly when `SelectActionDetail` finds nothing; no other table changes; a valid store stays valid |
| BesDb.Store.InsertActionDetails | WPMGMT.BESScraper/API/BesDb.cs:125-131 | the loop inserts each detail in list order; on a valid table it never throws and keeps the keys unique; a valid store stays valid |
| BesDb.Store.InsertActionResult | WPMGMT.BESScraper/API/BesDb.cs:133-141 | the result is appended exactly when no result has its (ComputerID, ActionID) pair; no other table changes; a valid store stays valid |
| BesDb.Store.InsertActionResults | WPMGMT.BESScraper/API/BesDb.cs:143-149 | the loop inserts each result in list order; on a valid table it never throws and keeps the keys unique; a valid store stays valid |
| BesDb.Store.InsertComputer | WPMGMT.BESScraper/API/BesDb.cs:151-159 | the computer is appended exactly when `SelectComputer` finds nothing; no other table changes; a valid store stays valid |
| BesDb.Store.InsertComputers | WPMGMT.BESScraper/API/BesDb.cs:161-167 | the loop inserts each computer in list order; on a valid table it never throws and keeps the keys unique; a valid store stays valid |
| BesDb.Store.InsertSite | WPMGMT.BESScraper/API/BesDb.cs:169-177 | the site is appended, with the next identity value, exactly when no site has its name; no other table changes; a valid store stays valid |
| BesDb.Store.InsertSites | WPMGMT.BESScraper/API/BesDb.cs:179-185 | the loop inserts each site in list order and keeps the store valid |
| BesDb.SiteWithID | WPMGMT.BESScraper/API/BesDb.cs:72-80 | on numbered rows, the site with an ID is the one at that position |
| BesDb.SiteNamed | WPMGMT.BESScraper/API/BesDb.cs:82-90 | null exactly when no site has the name; never throws with unique names |
| BesDb.AddSiteKeepsValid | WPMGMT.BESScraper/API/BesDb.cs:169-177 | inserting a site keeps the IDs consecutive and the names unique, and the name is present afterwards |
| BesDb.AddSiteByNameOnly | WPMGMT.BESScraper/API/BesDb.cs:171 | a site whose name is stored is not inserted, whatever its type |
| BesDb.AddSiteIdempotent | WPMGMT.BESScraper/API/BesDb.cs:169-177 | inserting the same site twice leaves the table as inserting it once |
| BesDb.AddSitesKeepsValid | WPMGMT.BESScraper/API/BesDb.cs:179-185 | a bulk site insert keeps the IDs consecutive and the names unique |
| BesDb.AddSitesCoversNames | WPMGMT.BESScraper/API/BesDb.cs:179-185 | after a bulk site insert every input name is present |
| BesDb.AddSitesIdempotent | WPMGMT.BESScraper/API/BesDb.cs:179-185 | repeating a bulk site insert inserts nothing more |
| BesDb.ResultsOfTwoComputers | WPMGMT.BESScraper/API/BesDb.cs:133-141 | two results of one action on different computers are both stored |

## Left out

- HTTP transport, authentication and the certificate-validation override
  (`Execute`, `Execute<T>`, the `RestClient` setup; BesApi.cs:35-45 and 669-716). These
  are network I/O through a library. A reply is a parameter (`Server`), and a failed
  request, which `Execute` turns into null, is a missing reply.
- RestSharp's typed deserialisation (`Execute<List<Analysis>>` and the like). Its lists
  are given as `Server.analyses`, `Server.groups` and `Server.computers`. When a list is
  null, the dereference is a fault.
- XML and URI parsing. A reply is already a tree. `Uri` is modelled only as far as the
  path of an absolute `scheme://authority/path` URI and its `Segments`.
- `Convert.ToDateTime` keeps the text of the time. Calendar parsing and culture are not
  modelled.
- `ToLower` is ASCII only. Culture-specific casing is not modelled.
- Conversions.ParseBool compares letter case on ASCII letters only. The ordinal
  case-insensitive comparison of `Boolean.Parse` would also match non-ASCII letters that
  upper-case to a letter of "TRUE" or "FALSE"; those are not modelled.
- `String.Format` is modelled only for `{digit}` placeholders, which are the only ones
  the queries use.
- Logging (`logger`, `Console.WriteLine`) has no behaviour to state.
- SQL text, Dapper, `SqlConnection` and connection strings are replaced by in-memory
  tables. `SelectAnalysis` is not part of the store's file. The client takes it as the
  lookups `Env.analysisInSite` and `Env.analysisWithID`.
- The store's surrogate IDs are modelled for the Site table only, as positions. The
  other tables are keyed by the server's IDs.
- BesDb.Store.InsertAction and the other single inserts return `Result<bool>`, and the
  bulk inserts return `Result<nat>`. The C# methods return nothing. The value reports
  whether a row was written (how many, for a bulk insert). `Err` is the exception the
  lookup's `Single()` throws on a table that already holds duplicate keys.
- Concurrency between a `Select` and the following insert is not modelled: the code
  runs them one after the other on one connection.
- `GetAction(int id)` (BesApi.cs:49-52) is not modelled. It only filters the GetActions
  list by `ID`, a field the server never fills.
- Ambiguity in a site's element name: `SiteTypeOf` removes every "Site" substring, as
  `Replace` does. The round trips assume a kind with no capital S. BesApi.SiteTypeOfKind
  and Replies.SitesOfReply state only that case.
- BesApi.BaselineResultsOf and BesApi.GetBaselineResults send the corrected request for a
  master site (`fixlet/master/<id>/computers`), not the request BesApi.cs:416-421 builds,
  which leaves `{site}` unbound. What the server answers to that path is not known, so the
  model follows the evidently intended request; the Findings table states both.
- BesApi.ActionResultOf keeps the text of `StartTime` and `EndTime`. `Convert.ToDateTime`
  (BesApi.cs:159, 163, 174 and 176) throws on text that is not a date; the model accepts
  any text there.
- BesDb.Store.SelectComputerByName, BesDb.Store.SelectSiteByName and BesApi.OnlySiteNamed
  compare names exactly. The SQL lookups (BesDb.cs:64 and 84, BesApi.cs:99) compare under
  the database's collation, which is usually case-insensitive and ignores trailing spaces.
- BesDb.Store.SelectSites and BesApi.GetAllComputerGroups give the sites in insertion
  order. The SQL `SELECT *` (BesDb.cs:92-95, BesApi.cs:467) has no `ORDER BY`, so the
  database may return them in any order.

## Findings

| source | as written | input that shows it | evidently intended | confidence | as-written member | corrected member |
|---|---|---|---|---|---|---|
| WPMGMT.BESScraper/API/BesApi.cs:416-421 | for the master site the baseline-computers request keeps the template `fixlet/{sitetype}/{site}/{baselineid}/computers` but binds only `sitetype` and `baselineid` | a baseline of a site whose Type is "master" | the master branch drops `{site}`, as the analyses, site-content and computer-groups requests do: `fixlet/master/<id>/computers` | medium; not executed | Requests.BaselineComputersAsWrittenMaster | Requests.BaselineComputersRequestShape |
