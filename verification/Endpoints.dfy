/**
  What the endpoint resolver and the recording store have in common.
 */
module Endpoints {

  datatype Origin = Origin(scheme: string, host: string, port: int)

  /** A call to MergeRecordings that the resolver issues for a collapse. */
  datatype MergeRequest = MergeRequest(origin: Origin, sourcePrefixes: seq<string>, targetPrefix: string)
}
