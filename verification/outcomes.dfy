/** Failure-carrying results for the dashboard's data pipeline.
    Each failure corresponds to an exception the script would raise. */
module Outcomes {

  datatype Option<+T> = None | Some(value: T)

  datatype Failure =
    /** The state-name lookup found no state, so reading `.abbr` fails. */
    | UnknownState(raw: string)
    /** An enabled checkbox names a conference that is not a dictionary key. */
    | MissingConference(name: string)
    /** The `built` column is empty, so its minimum cannot be made an integer. */
    | NoBuiltYears

  datatype Result<+T> = Ok(value: T) | Err(error: Failure)
}
