/**
  The v1 endpoint table of ossapi/endpoints.py: for each endpoint its URL
  extension, the groups of parameters of which at least one must be given
  in full, and the parameters it accepts at all.
 */
module Endpoints {
  datatype Endpoint = Endpoint(extension: string, required: seq<seq<string>>, possible: seq<string>)

  const GetBeatmaps := Endpoint("get_beatmaps", [["since"], ["s"], ["b"], ["u"], ["h"]],
    ["since", "s", "b", "u", "h", "type", "m", "a", "limit", "mods"])
  const GetMatch := Endpoint("get_match", [["mp"]], ["mp"])
  const GetScores := Endpoint("get_scores", [["b"]], ["b", "u", "m", "mods", "type", "limit"])
  const GetReplay := Endpoint("get_replay", [["b", "u"], ["s"]], ["b", "u", "m", "s", "type", "mods"])
  const GetUser := Endpoint("get_user", [["u"]], ["u", "m", "type", "event_days"])
  const GetUserBest := Endpoint("get_user_best", [["u"]], ["m", "u", "limit", "type"])
  const GetUserRecent := Endpoint("get_user_recent", [["u"]], ["m", "u", "limit", "type"])

  const All: seq<Endpoint> := [GetBeatmaps, GetMatch, GetScores, GetReplay, GetUser, GetUserBest, GetUserRecent]

  /** Every required group names only parameters the endpoint accepts. */
  predicate GroupsPossible(ep: Endpoint) {
    forall i, j :: 0 <= i < |ep.required| && 0 <= j < |ep.required[i]| ==> ep.required[i][j] in ep.possible
  }

  /** The table is consistent: each endpoint has a required group, and its groups are acceptable parameters. */
  lemma TableConsistent()
    ensures forall e :: e in All ==> e.required != [] && GroupsPossible(e)
  {
  }

  /** No two endpoints share a URL extension. */
  lemma ExtensionsDistinct()
    ensures forall i, j :: 0 <= i < j < |All| ==> All[i].extension != All[j].extension
  {
  }

  /** The user-best and user-recent endpoints differ only in their extension. */
  lemma BestAndRecentAlike()
    ensures GetUserBest.required == GetUserRecent.required
    ensures GetUserBest.possible == GetUserRecent.possible
    ensures GetUserBest.extension != GetUserRecent.extension
  {
  }
}
