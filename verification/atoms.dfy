/** The campaign record and the initial values of the shared store (frontend/app/atoms.ts). */
module Atoms {
  import opened Wrappers

  /** A campaign's status; the source types it as the string union "Active" | "Paused". */
  datatype Status = Active | Paused

  /** The string the source stores and compares for a status. */
  function StatusName(s: Status): (name: string)
    ensures name == "Active" || name == "Paused"
    ensures (s == Active) == (name == "Active")
  {
    match s
    case Active => "Active"
    case Paused => "Paused"
  }

  /** Reads a status string back; the inverse of `StatusName`. */
  function ParseStatus(name: string): (s: Option<Status>)
    ensures s.Some? <==> name == "Active" || name == "Paused"
    ensures s == Some(Active) <==> name == "Active"
  {
    if name == "Active" then Some(Active)
    else if name == "Paused" then Some(Paused)
    else None
  }

  lemma StatusNameRoundTrip(s: Status)
    ensures ParseStatus(StatusName(s)) == Some(s)
  {
  }

  /** Two different statuses never share a name, so comparing names compares statuses. */
  lemma StatusNameInjective(s: Status, t: Status)
    ensures StatusName(s) == StatusName(t) <==> s == t
  {
  }

  /**
    One campaign. The source types every number as a JavaScript `number`; ids, clicks
    and impressions are integers (the backend declares them `int` and accepts any sign),
    so they are `int` here. `cost` is a decimal amount, modelled as an exact `real`.
   */
  datatype Campaign = Campaign(
    id: int,
    name: string,
    status: Status,
    clicks: int,
    cost: real,
    impressions: int,
    color: string)

  /** The four process-wide atoms. */
  datatype Store = Store(campaigns: seq<Campaign>, darkMode: bool, modalOpen: bool, loading: bool)

  /** The store before anything has been fetched: no campaigns, light theme, modal closed, loading. */
  function InitialStore(): (st: Store)
    ensures |st.campaigns| == 0
    ensures !st.darkMode && !st.modalOpen && st.loading
  {
    Store([], false, false, true)
  }
}
