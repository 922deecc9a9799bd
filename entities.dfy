/** The records the extractor reads from the server and writes to the store
    (the classes of the WPMGMT.BESScraper.Model namespace), as values, with the
    natural key each store table deduplicates on. */
module Entities {
  import opened Wrappers

  /** Converted by Convert.ToDateTime; the calendar text itself is kept. */
  datatype DateTime = DateTime(text: string)

  /** `ID` is the store's surrogate key; the server names a site only by Name and Type. */
  datatype Site = Site(ID: int, Name: string, Type: string)

  datatype Action = Action(ActionID: int, SiteID: int, Name: string)

  datatype ActionDetail = ActionDetail(ActionID: int, Status: string, DateIssued: string)

  datatype ActionResult = ActionResult(
    ActionID: int,
    ComputerID: int,
    Status: string,
    ApplyCount: int,
    RetryCount: int,
    LineNumber: int,
    StartTime: Option<DateTime>,
    EndTime: Option<DateTime>)

  /** `ID` is the store's surrogate key; `AnalysisID` is only unique within a site. */
  datatype Analysis = Analysis(ID: int, AnalysisID: int, SiteID: int, Name: string)

  /** `AnalysisID` is the store ID of the analysis; `SequenceNo` is the server's ordinal. */
  datatype AnalysisProperty = AnalysisProperty(ID: int, AnalysisID: int, SequenceNo: int, Name: string)

  datatype AnalysisPropertyResult = AnalysisPropertyResult(AnalysisPropertyID: int, ComputerID: int, Value: string)

  datatype Baseline = Baseline(BaselineID: int, SiteID: int, Name: string)

  datatype BaselineResult = BaselineResult(BaselineID: int, ComputerID: int)

  datatype Computer = Computer(ComputerID: int, ComputerName: string)

  datatype ComputerGroup = ComputerGroup(GroupID: int, SiteID: int, Name: string, Manual: bool)

  datatype ComputerGroupMember = ComputerGroupMember(GroupID: int, ComputerID: int)

  // Natural keys of the store's tables.

  function ActionKey(a: Action): int { a.ActionID }

  function ActionDetailKey(d: ActionDetail): int { d.ActionID }

  function ActionResultKey(r: ActionResult): (int, int) { (r.ComputerID, r.ActionID) }

  function ComputerKey(c: Computer): int { c.ComputerID }

  function ComputerNameKey(c: Computer): string { c.ComputerName }

  function SiteKey(s: Site): string { s.Name }

  function SiteIDKey(s: Site): int { s.ID }
}
