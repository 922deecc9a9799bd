/** The store gateway: five tables held in memory in insertion order. Every lookup is
    a point query by natural key that answers the row, nothing, or the exception
    `Single()` throws when several rows match. Every insert writes only when that
    lookup finds nothing. Every bulk insert applies the single insert to each record
    in list order, and an exception ends the loop. */
module BesDb {
  import opened Wrappers
  import opened Entities
  import opened Tables

  /** The Site table's identity column: the store numbers sites 1, 2, 3, ... in the
      order they were written, and never deletes one. */
  predicate Numbered(rows: seq<Site>) {
    forall i :: 0 <= i < |rows| ==> rows[i].ID == i + 1
  }

  /** The surrogate ID a site gets when it is written: the identity column's next value. */
  function Stored(rows: seq<Site>, site: Site): (s: Site)
    ensures s.Name == site.Name && s.Type == site.Type
    ensures Numbered(rows) ==> Numbered(rows + [s])
  {
    var s := site.(ID := |rows| + 1);
    assert forall i :: 0 <= i < |rows| ==> (rows + [s])[i] == rows[i];
    s
  }

  /** InsertSite on a table of rows: written, with its new ID, when no site has its name. */
  function AddSite(rows: seq<Site>, site: Site): seq<Site> {
    InsertIfAbsent(rows, SiteKey, Stored(rows, site))
  }

  /** InsertSites on a table of rows: AddSite applied to each site in list order. */
  function AddSites(rows: seq<Site>, xs: seq<Site>): seq<Site> {
    if xs == [] then rows else AddSite(AddSites(rows, xs[..|xs| - 1]), xs[|xs| - 1])
  }

  /** Numbered sites have distinct IDs. */
  lemma NumberedIDsUnique(rows: seq<Site>)
    requires Numbered(rows)
    ensures KeysUnique(rows, SiteIDKey)
  {
  }

  /** SelectSite(int) on a numbered table: the site at that position, or nothing. */
  function SiteWithID(rows: seq<Site>, id: int): (r: Result<Option<Site>>)
    ensures r == Ok(None) <==> Absent(rows, SiteIDKey, id)
    ensures r.Ok? && r.value.Some? ==> r.value.value in rows && r.value.value.ID == id
    ensures Numbered(rows) ==> r == (if 1 <= id <= |rows| then Ok(Some(rows[id - 1])) else Ok(None))
  {
    if Numbered(rows) then NumberedIDsUnique(rows); Select(rows, SiteIDKey, id)
    else Select(rows, SiteIDKey, id)
  }

  /** SelectSite(string). */
  function SiteNamed(rows: seq<Site>, name: string): (r: Result<Option<Site>>)
    ensures r == Ok(None) <==> Absent(rows, SiteKey, name)
    ensures r.Ok? && r.value.Some? ==> r.value.value in rows && r.value.value.Name == name
    ensures KeysUnique(rows, SiteKey) ==> r.Ok?
  {
    Select(rows, SiteKey, name)
  }

  /** Adding a site keeps the table numbered and its names distinct, and afterwards a
      site of that name is in it. */
  lemma AddSiteKeepsValid(rows: seq<Site>, site: Site)
    requires Numbered(rows) && KeysUnique(rows, SiteKey)
    ensures Numbered(AddSite(rows, site)) && KeysUnique(AddSite(rows, site), SiteKey)
    ensures !Absent(AddSite(rows, site), SiteKey, site.Name)
  {
    var s := Stored(rows, site);
    assert SiteKey(s) == site.Name;
  }

  /** A site whose name is already stored is not written, whatever its Type. */
  lemma AddSiteByNameOnly(rows: seq<Site>, site: Site)
    requires !Absent(rows, SiteKey, site.Name)
    ensures AddSite(rows, site) == rows
  {
    assert SiteKey(Stored(rows, site)) == site.Name;
  }

  /** The bulk site insert keeps the table numbered with distinct names. */
  lemma {:induction false} AddSitesKeepsValid(rows: seq<Site>, xs: seq<Site>)
    requires Numbered(rows) && KeysUnique(rows, SiteKey)
    ensures Numbered(AddSites(rows, xs)) && KeysUnique(AddSites(rows, xs), SiteKey)
  {
    if xs != [] {
      AddSitesKeepsValid(rows, xs[..|xs| - 1]);
      AddSiteKeepsValid(AddSites(rows, xs[..|xs| - 1]), xs[|xs| - 1]);
    }
  }

  /** The bulk site insert only appends. */
  lemma {:induction false} AddSitesExtends(rows: seq<Site>, xs: seq<Site>)
    ensures rows <= AddSites(rows, xs)
  {
    if xs != [] {
      AddSitesExtends(rows, xs[..|xs| - 1]);
    }
  }

  /** After the bulk site insert, every input site's name is in the table. */
  lemma {:induction false} AddSitesCoversNames(rows: seq<Site>, xs: seq<Site>)
    ensures forall j :: 0 <= j < |xs| ==> !Absent(AddSites(rows, xs), SiteKey, xs[j].Name)
  {
    if xs != [] {
      var init := xs[..|xs| - 1];
      AddSitesCoversNames(rows, init);
      var before := AddSites(rows, init);
      var last := xs[|xs| - 1];
      assert SiteKey(Stored(before, last)) == last.Name;
      forall j | 0 <= j < |xs|
        ensures !Absent(AddSites(rows, xs), SiteKey, xs[j].Name)
      {
        if j < |xs| - 1 {
          assert xs[j] == init[j];
          var i :| 0 <= i < |before| && SiteKey(before[i]) == xs[j].Name;
          assert AddSites(rows, xs)[i] == before[i];
        }
      }
    }
  }

  /** Sites whose names are all stored already write nothing. */
  lemma {:induction false} AddSitesPresent(rows: seq<Site>, xs: seq<Site>)
    requires forall j :: 0 <= j < |xs| ==> !Absent(rows, SiteKey, xs[j].Name)
    ensures AddSites(rows, xs) == rows
  {
    if xs != [] {
      AddSitesPresent(rows, xs[..|xs| - 1]);
      AddSiteByNameOnly(rows, xs[|xs| - 1]);
    }
  }

  /** Re-running the bulk site insert with the same sites writes nothing more. */
  lemma AddSitesIdempotent(rows: seq<Site>, xs: seq<Site>)
    ensures AddSites(AddSites(rows, xs), xs) == AddSites(rows, xs)
  {
    AddSitesCoversNames(rows, xs);
    AddSitesPresent(AddSites(rows, xs), xs);
  }

  /** Writing the same site twice leaves the table as writing it once. */
  lemma AddSiteIdempotent(rows: seq<Site>, site: Site)
    ensures AddSite(AddSite(rows, site), site) == AddSite(rows, site)
  {
    assert SiteKey(Stored(rows, site)) == site.Name;
    AddSiteByNameOnly(AddSite(rows, site), site);
  }

  /** Action results are told apart by computer as well as by action: two results of one
      action on two computers are both written. */
  lemma ResultsOfTwoComputers(rows: seq<ActionResult>, a: ActionResult, b: ActionResult)
    requires a.ActionID == b.ActionID && a.ComputerID != b.ComputerID
    requires Absent(rows, ActionResultKey, ActionResultKey(a)) && Absent(rows, ActionResultKey, ActionResultKey(b))
    ensures InsertIfAbsent(InsertIfAbsent(rows, ActionResultKey, a), ActionResultKey, b) == rows + [a, b]
  {
    var once := InsertIfAbsent(rows, ActionResultKey, a);
    assert once == rows + [a];
    assert ActionResultKey(a) != ActionResultKey(b);
    assert Absent(once, ActionResultKey, ActionResultKey(b)) by {
      assert forall i :: 0 <= i < |once| ==> once[i] == a || once[i] == rows[i];
    }
    assert once + [b] == rows + [a, b];
  }

  /** The store: one sequence of rows per table. */
  class Store {
    var actions: seq<Action>
    var actionDetails: seq<ActionDetail>
    var actionResults: seq<ActionResult>
    var computers: seq<Computer>
    var sites: seq<Site>

    /** What insert-if-absent maintains: no natural key twice in any table, so every
        lookup's `Single()` succeeds; and the sites numbered by their identity column.
        Computer names are not a key: two computers may share one. */
    ghost predicate Valid()
      reads this
    {
      && KeysUnique(actions, ActionKey)
      && KeysUnique(actionDetails, ActionDetailKey)
      && KeysUnique(actionResults, ActionResultKey)
      && KeysUnique(computers, ComputerKey)
      && KeysUnique(sites, SiteKey)
      && Numbered(sites)
    }

    /** A store attached to the tables as they stand, with whatever earlier runs wrote
        into them, duplicates included: opening the connection empties nothing. */
    constructor (actions0: seq<Action>, actionDetails0: seq<ActionDetail>, actionResults0: seq<ActionResult>,
                 computers0: seq<Computer>, sites0: seq<Site>)
      ensures actions == actions0 && actionDetails == actionDetails0 && actionResults == actionResults0
      ensures computers == computers0 && sites == sites0
    {
      actions, actionDetails, actionResults, computers, sites := actions0, actionDetails0, actionResults0, computers0, sites0;
    }

    function SelectAction(actionID: int): (r: Result<Option<Action>>)
      reads this
      ensures r == Ok(None) <==> Absent(actions, ActionKey, actionID)
      ensures r.Ok? && r.value.Some? ==> r.value.value in actions && r.value.value.ActionID == actionID
      ensures Valid() ==> r.Ok?
    {
      Select(actions, ActionKey, actionID)
    }

    function SelectActionDetail(actionID: int): (r: Result<Option<ActionDetail>>)
      reads this
      ensures r == Ok(None) <==> Absent(actionDetails, ActionDetailKey, actionID)
      ensures r.Ok? && r.value.Some? ==> r.value.value in actionDetails && r.value.value.ActionID == actionID
      ensures Valid() ==> r.Ok?
    {
      Select(actionDetails, ActionDetailKey, actionID)
    }

    function SelectActionResult(computerID: int, actionID: int): (r: Result<Option<ActionResult>>)
      reads this
      ensures r == Ok(None) <==> Absent(actionResults, ActionResultKey, (computerID, actionID))
      ensures r.Ok? && r.value.Some? ==>
        && r.value.value in actionResults
        && r.value.value.ComputerID == computerID
        && r.value.value.ActionID == actionID
      ensures Valid() ==> r.Ok?
    {
      Select(actionResults, ActionResultKey, (computerID, actionID))
    }

    function SelectComputer(computerID: int): (r: Result<Option<Computer>>)
      reads this
      ensures r == Ok(None) <==> Absent(computers, ComputerKey, computerID)
      ensures r.Ok? && r.value.Some? ==> r.value.value in computers && r.value.value.ComputerID == computerID
      ensures Valid() ==> r.Ok?
    {
      Select(computers, ComputerKey, computerID)
    }

    /** By name, which is not a key: two computers of the same name make `Single()` throw. */
    function SelectComputerByName(computerName: string): (r: Result<Option<Computer>>)
      reads this
      ensures r == Ok(None) <==> Absent(computers, ComputerNameKey, computerName)
      ensures r.Ok? && r.value.Some? ==> r.value.value in computers && r.value.value.ComputerName == computerName
      ensures r.Err? <==> exists i, j :: 0 <= i < j < |computers| && computers[i].ComputerName == computerName && computers[j].ComputerName == computerName
    {
      Select(computers, ComputerNameKey, computerName)
    }

    function SelectSite(id: int): (r: Result<Option<Site>>)
      reads this
      ensures r == Ok(None) <==> Absent(sites, SiteIDKey, id)
      ensures r.Ok? && r.value.Some? ==> r.value.value in sites && r.value.value.ID == id
      ensures Valid() ==> r == (if 1 <= id <= |sites| then Ok(Some(sites[id - 1])) else Ok(None))
    {
      SiteWithID(sites, id)
    }

    function SelectSiteByName(name: string): (r: Result<Option<Site>>)
      reads this
      ensures r == Ok(None) <==> Absent(sites, SiteKey, name)
      ensures r.Ok? && r.value.Some? ==> r.value.value in sites && r.value.value.Name == name
      ensures Valid() ==> r.Ok?
    {
      SiteNamed(sites, name)
    }

    /** Every site row, in the order the store wrote them. */
    function SelectSites(): (r: seq<Site>)
      reads this
      ensures r == sites
      ensures Valid() ==> KeysUnique(r, SiteKey) && forall i :: 0 <= i < |r| ==> r[i].ID == i + 1
    {
      sites
    }

    /** Writes the action unless one with its ActionID is stored; answers whether it wrote. */
    method InsertAction(action: Action) returns (r: Result<bool>)
      modifies this`actions
      ensures actions == InsertIfAbsent(old(actions), ActionKey, action)
      ensures r.Ok? <==> old(SelectAction(action.ActionID)).Ok?
      ensures r == Ok(true) <==> Absent(old(actions), ActionKey, action.ActionID)
      ensures KeysUnique(old(actions), ActionKey) ==> r.Ok?
      ensures old(Valid()) ==> Valid()
    {
      var found := SelectAction(action.ActionID);
      if found.Err? {
        return Err(found.error);
      }
      if found.value.None? {
        actions := actions + [action];
        return Ok(true);
      }
      return Ok(false);
    }

    /** InsertAction on each action in order; answers how many were written. */
    method InsertActions(xs: seq<Action>) returns (r: Result<nat>)
      modifies this`actions
      ensures r.Ok? ==> actions == InsertAll(old(actions), ActionKey, xs)
      ensures r.Ok? ==> |actions| == |old(actions)| + r.value
      ensures r.Err? ==> exists k :: 0 <= k < |xs| && actions == InsertAll(old(actions), ActionKey, xs[..k])
      ensures KeysUnique(old(actions), ActionKey) ==> r.Ok? && KeysUnique(actions, ActionKey)
      ensures old(Valid()) ==> Valid()
    {
      var i, n := 0, 0;
      while i < |xs|
        invariant 0 <= i <= |xs|
        invariant actions == InsertAll(old(actions), ActionKey, xs[..i])
        invariant |actions| == |old(actions)| + n
        invariant KeysUnique(old(actions), ActionKey) ==> KeysUnique(actions, ActionKey)
        invariant old(Valid()) ==> Valid()
      {
        var step := InsertAction(xs[i]);
        if step.Err? {
          return Err(step.error);
        }
        assert xs[..i + 1][..i] == xs[..i];
        if step.value {
          n := n + 1;
        }
        i := i + 1;
      }
      assert xs[..i] == xs;
      return Ok(n);
    }

    method InsertActionDetail(detail: ActionDetail) returns (r: Result<bool>)
      modifies this`actionDetails
      ensures actionDetails == InsertIfAbsent(old(actionDetails), ActionDetailKey, detail)
      ensures r.Ok? <==> old(SelectActionDetail(detail.ActionID)).Ok?
      ensures r == Ok(true) <==> Absent(old(actionDetails), ActionDetailKey, detail.ActionID)
      ensures KeysUnique(old(actionDetails), ActionDetailKey) ==> r.Ok?
      ensures old(Valid()) ==> Valid()
    {
      var found := SelectActionDetail(detail.ActionID);
      if found.Err? {
        return Err(found.error);
      }
      if found.value.None? {
        actionDetails := actionDetails + [detail];
        return Ok(true);
      }
      return Ok(false);
    }

    method InsertActionDetails(xs: seq<ActionDetail>) returns (r: Result<nat>)
      modifies this`actionDetails
      ensures r.Ok? ==> actionDetails == InsertAll(old(actionDetails), ActionDetailKey, xs)
      ensures r.Ok? ==> |actionDetails| == |old(actionDetails)| + r.value
      ensures r.Err? ==> exists k :: 0 <= k < |xs| && actionDetails == InsertAll(old(actionDetails), ActionDetailKey, xs[..k])
      ensures KeysUnique(old(actionDetails), ActionDetailKey) ==> r.Ok? && KeysUnique(actionDetails, ActionDetailKey)
      ensures old(Valid()) ==> Valid()
    {
      var i, n := 0, 0;
      while i < |xs|
        invariant 0 <= i <= |xs|
        invariant actionDetails == InsertAll(old(actionDetails), ActionDetailKey, xs[..i])
        invariant |actionDetails| == |old(actionDetails)| + n
        invariant KeysUnique(old(actionDetails), ActionDetailKey) ==> KeysUnique(actionDetails, ActionDetailKey)
        invariant old(Valid()) ==> Valid()
      {
        var step := InsertActionDetail(xs[i]);
        if step.Err? {
          return Err(step.error);
        }
        assert xs[..i + 1][..i] == xs[..i];
        if step.value {
          n := n + 1;
        }
        i := i + 1;
      }
      assert xs[..i] == xs;
      return Ok(n);
    }

    /** Deduplicates on the pair (ComputerID, ActionID). */
    method InsertActionResult(result: ActionResult) returns (r: Result<bool>)
      modifies this`actionResults
      ensures actionResults == InsertIfAbsent(old(actionResults), ActionResultKey, result)
      ensures r.Ok? <==> old(SelectActionResult(result.ComputerID, result.ActionID)).Ok?
      ensures r == Ok(true) <==> Absent(old(actionResults), ActionResultKey, (result.ComputerID, result.ActionID))
      ensures KeysUnique(old(actionResults), ActionResultKey) ==> r.Ok?
      ensures old(Valid()) ==> Valid()
    {
      var found := SelectActionResult(result.ComputerID, result.ActionID);
      if found.Err? {
        return Err(found.error);
      }
      if found.value.None? {
        actionResults := actionResults + [result];
        return Ok(true);
      }
      return Ok(false);
    }

    method InsertActionResults(xs: seq<ActionResult>) returns (r: Result<nat>)
      modifies this`actionResults
      ensures r.Ok? ==> actionResults == InsertAll(old(actionResults), ActionResultKey, xs)
      ensures r.Ok? ==> |actionResults| == |old(actionResults)| + r.value
      ensures r.Err? ==> exists k :: 0 <= k < |xs| && actionResults == InsertAll(old(actionResults), ActionResultKey, xs[..k])
      ensures KeysUnique(old(actionResults), ActionResultKey) ==> r.Ok? && KeysUnique(actionResults, ActionResultKey)
      ensures old(Valid()) ==> Valid()
    {
      var i, n := 0, 0;
      while i < |xs|
        invariant 0 <= i <= |xs|
        invariant actionResults == InsertAll(old(actionResults), ActionResultKey, xs[..i])
        invariant |actionResults| == |old(actionResults)| + n
        invariant KeysUnique(old(actionResults), ActionResultKey) ==> KeysUnique(actionResults, ActionResultKey)
        invariant old(Valid()) ==> Valid()
      {
        var step := InsertActionResult(xs[i]);
        if step.Err? {
          return Err(step.error);
        }
        assert xs[..i + 1][..i] == xs[..i];
        if step.value {
          n := n + 1;
        }
        i := i + 1;
      }
      assert xs[..i] == xs;
      return Ok(n);
    }

    method InsertComputer(computer: Computer) returns (r: Result<bool>)
      modifies this`computers
      ensures computers == InsertIfAbsent(old(computers), ComputerKey, computer)
      ensures r.Ok? <==> old(SelectComputer(computer.ComputerID)).Ok?
      ensures r == Ok(true) <==> Absent(old(computers), ComputerKey, computer.ComputerID)
      ensures KeysUnique(old(computers), ComputerKey) ==> r.Ok?
      ensures old(Valid()) ==> Valid()
    {
      var found := SelectComputer(computer.ComputerID);
      if found.Err? {
        return Err(found.error);
      }
      if found.value.None? {
        computers := computers + [computer];
        return Ok(true);
      }
      return Ok(false);
    }

    method InsertComputers(xs: seq<Computer>) returns (r: Result<nat>)
      modifies this`computers
      ensures r.Ok? ==> computers == InsertAll(old(computers), ComputerKey, xs)
      ensures r.Ok? ==> |computers| == |old(computers)| + r.value
      ensures r.Err? ==> exists k :: 0 <= k < |xs| && computers == InsertAll(old(computers), ComputerKey, xs[..k])
      ensures KeysUnique(old(computers), ComputerKey) ==> r.Ok? && KeysUnique(computers, ComputerKey)
      ensures old(Valid()) ==> Valid()
    {
      var i, n := 0, 0;
      while i < |xs|
        invariant 0 <= i <= |xs|
        invariant computers == InsertAll(old(computers), ComputerKey, xs[..i])
        invariant |computers| == |old(computers)| + n
        invariant KeysUnique(old(computers), ComputerKey) ==> KeysUnique(computers, ComputerKey)
        invariant old(Valid()) ==> Valid()
      {
        var step := InsertComputer(xs[i]);
        if step.Err? {
          return Err(step.error);
        }
        assert xs[..i + 1][..i] == xs[..i];
        if step.value {
          n := n + 1;
        }
        i := i + 1;
      }
      assert xs[..i] == xs;
      return Ok(n);
    }

    /** Writes the site, numbered by the identity column, unless a site of its name is
        stored; the Type plays no part in the check. */
    method InsertSite(site: Site) returns (r: Result<bool>)
      modifies this`sites
      ensures sites == AddSite(old(sites), site)
      ensures r.Ok? <==> old(SelectSiteByName(site.Name)).Ok?
      ensures r == Ok(true) <==> Absent(old(sites), SiteKey, site.Name)
      ensures KeysUnique(old(sites), SiteKey) ==> r.Ok?
      ensures r == Ok(true) ==> sites[|sites| - 1] == site.(ID := |sites|)
      ensures old(Valid()) ==> Valid()
    {
      if Valid() {
        AddSiteKeepsValid(sites, site);
      }
      var found := SelectSiteByName(site.Name);
      if found.Err? {
        assert SiteKey(Stored(sites, site)) == site.Name;
        return Err(found.error);
      }
      if found.value.None? {
        sites := sites + [site.(ID := |sites| + 1)];
        return Ok(true);
      }
      assert SiteKey(Stored(sites, site)) == site.Name;
      return Ok(false);
    }

    method InsertSites(xs: seq<Site>) returns (r: Result<nat>)
      modifies this`sites
      ensures r.Ok? ==> sites == AddSites(old(sites), xs)
      ensures r.Ok? ==> |sites| == |old(sites)| + r.value
      ensures r.Err? ==> exists k :: 0 <= k < |xs| && sites == AddSites(old(sites), xs[..k])
      ensures KeysUnique(old(sites), SiteKey) ==> r.Ok?
      ensures old(Valid()) ==> Valid()
    {
      var i, n := 0, 0;
      while i < |xs|
        invariant 0 <= i <= |xs|
        invariant sites == AddSites(old(sites), xs[..i])
        invariant |sites| == |old(sites)| + n
        invariant KeysUnique(old(sites), SiteKey) ==> KeysUnique(sites, SiteKey)
        invariant old(Valid()) ==> Valid()
      {
        ghost var before := sites;
        var step := InsertSite(xs[i]);
        if step.Err? {
          return Err(step.error);
        }
        assert xs[..i + 1][..i] == xs[..i];
        if old(Valid()) {
          AddSiteKeepsValid(before, xs[i]);
        }
        if step.value {
          n := n + 1;
        }
        i := i + 1;
      }
      assert xs[..i] == xs;
      return Ok(n);
    }
  }
}
