/**
  The v1 client of ossapi/ossapi.py: parameter validation against the
  endpoint table, and the request URL, which is the base URL with the
  extension and key followed by `&key=value` for every parameter that is
  not `None`. Parameter values are given as `str()` would render them;
  `None` is `Option.None`.
 */
module V1 {
  import opened Wrappers
  import opened Dicts
  import opened Endpoints

  type Params = Dict<Option<string>>

  datatype V1Error =
      /** No required group is present in full. */
    | MissingRequired(required: seq<seq<string>>)
      /** A parameter the endpoint does not accept. */
    | UnexpectedParameter(key: string)

  /** Every parameter of the group is given (a `None` value counts as given). */
  predicate GroupGiven(group: seq<string>, params: Params) {
    forall j :: 0 <= j < |group| ==> HasKey(params, group[j])
  }

  /** The loop of `_check_parameters` that raises `any_group_satisfied`. */
  function AnyGroupGiven(required: seq<seq<string>>, params: Params): (b: bool)
    ensures b <==> exists i :: 0 <= i < |required| && GroupGiven(required[i], params)
    decreases |required|
  {
    if required == [] then false
    else
      var rest := AnyGroupGiven(required[1..], params);
      assert rest <==> exists i :: 1 <= i < |required| && GroupGiven(required[i], params) by {
        if rest {
          var i :| 0 <= i < |required[1..]| && GroupGiven(required[1..][i], params);
          assert GroupGiven(required[i + 1], params);
        }
      }
      GroupGiven(required[0], params) || rest
  }

  /** The position of the first parameter the endpoint does not accept. */
  function FirstUnexpected(params: Params, possible: seq<string>): (r: Option<nat>)
    ensures r.Some? ==> r.value < |params| && params[r.value].0 !in possible
    ensures r.Some? ==> forall j :: 0 <= j < r.value ==> params[j].0 in possible
    ensures r.None? <==> forall j :: 0 <= j < |params| ==> params[j].0 in possible
  {
    if params == [] then None
    else if params[0].0 !in possible then Some(0)
    else
      match FirstUnexpected(params[1..], possible)
      case None => None
      case Some(i) => Some(i + 1)
  }

  /**
    `_check_parameters`: some required group must be given in full, and then
    every parameter must be one the endpoint accepts. The missing-group
    error is raised first.
   */
  function CheckParameters(ep: Endpoint, params: Params): (r: Result<(), V1Error>)
    ensures r.Ok? <==>
      (exists i :: 0 <= i < |ep.required| && GroupGiven(ep.required[i], params)) &&
      (forall j :: 0 <= j < |params| ==> params[j].0 in ep.possible)
    ensures (forall i :: 0 <= i < |ep.required| ==> !GroupGiven(ep.required[i], params)) ==>
      r == Err(MissingRequired(ep.required))
    ensures r.Err? && r.error.UnexpectedParameter? ==> HasKey(params, r.error.key) && r.error.key !in ep.possible
  {
    if !AnyGroupGiven(ep.required, params) then Err(MissingRequired(ep.required))
    else match FirstUnexpected(params, ep.possible)
      case Some(i) =>
        assert Keys(params)[i] == params[i].0;
        Err(UnexpectedParameter(params[i].0))
      case None => Ok(())
  }

  /** The text `_extend_url` appends for one parameter: nothing for `None`. */
  function Piece(e: (string, Option<string>)): string {
    match e.1
    case None => ""
    case Some(v) => "&" + e.0 + "=" + v
  }

  /** `_extend_url(url, params)`: `&key=value` appended for each non-`None` parameter, in order. */
  function ExtendUrl(url: string, params: Params): (r: string)
    ensures url <= r
    ensures |r| == |url| + |Query(params)|
    decreases |params|
  {
    if params == [] then url else ExtendUrl(url + Piece(params[0]), params[1..])
  }

  /** The query text of a parameter dict, as one string. */
  function Query(params: Params): string
    decreases |params|
  {
    if params == [] then "" else Piece(params[0]) + Query(params[1..])
  }

  /** The URL is the given one with the query appended: the original is a prefix of the result. */
  lemma {:induction false} ExtendUrlAppends(url: string, params: Params)
    ensures ExtendUrl(url, params) == url + Query(params)
    ensures url <= ExtendUrl(url, params)
    decreases |params|
  {
    if params != [] {
      var p := Piece(params[0]);
      var q := Query(params[1..]);
      ExtendUrlAppends(url + p, params[1..]);
      assert ExtendUrl(url, params) == (url + p) + q;
      assert Query(params) == p + q;
      assert (url + p) + q == url + (p + q);
    }
    assert (url + Query(params))[..|url|] == url;
  }

  /** The parameters that are not `None`, with their values. */
  function Present(params: Params): (r: Dict<string>)
    ensures |r| <= |params|
    decreases |params|
  {
    if params == [] then []
    else match params[0].1
      case None => Present(params[1..])
      case Some(v) => [(params[0].0, v)] + Present(params[1..])
  }

  /** `Ossapi.get_*`: validate, then build `https://osu.ppy.sh/api/<extension>?k=<key>` and extend it. */
  function RequestUrl(ep: Endpoint, apiKey: string, params: Params): (r: Result<string, V1Error>)
    ensures r.Ok? <==> CheckParameters(ep, params).Ok?
    ensures r.Ok? ==> "https://osu.ppy.sh/api/" + ep.extension + "?k=" + apiKey <= r.value
  {
    var _ :- CheckParameters(ep, params);
    var base := "https://osu.ppy.sh/api/" + ep.extension + "?k=" + apiKey;
    ExtendUrlAppends(base, params);
    Ok(ExtendUrl(base, params))
  }

  // ---------------------------------------------------------------------
  // Reading a query back
  // ---------------------------------------------------------------------

  /** Position of the first `c` in `s`, or `|s|`. */
  function Find(s: string, c: char): (i: nat)
    ensures i <= |s|
    ensures i < |s| ==> s[i] == c
    ensures forall j :: 0 <= j < i ==> s[j] != c
  {
    if s == [] then 0 else if s[0] == c then 0 else 1 + Find(s[1..], c)
  }

  /** Splits `&k=v&k=v...` back into its pairs; stops at anything malformed. */
  function ParseQuery(q: string): Dict<string>
    decreases |q|
  {
    if q == [] || q[0] != '&' then []
    else
      var body := q[1..];
      var e := Find(body, '=');
      if e == |body| then []
      else
        var tail := body[e + 1..];
        var a := Find(tail, '&');
        [(body[..e], tail[..a])] + ParseQuery(tail[a..])
  }

  /** Parameters whose keys have no `&` or `=` and whose values have no `&`; nothing is escaped. */
  predicate Unambiguous(params: Params) {
    forall i :: 0 <= i < |params| && params[i].1.Some? ==>
      '&' !in params[i].0 && '=' !in params[i].0 && '&' !in params[i].1.value
  }

  /** The first `c` in `a + b` is where `b` begins, when `a` has none and `b` starts with one (or is empty). */
  lemma FindStops(a: string, b: string, c: char)
    requires c !in a
    requires b == [] || b[0] == c
    ensures Find(a + b, c) == |a|
  {
    var s := a + b;
    var i := Find(s, c);
    assert forall j :: 0 <= j < |a| ==> s[j] == a[j];
    if b != [] {
      assert s[|a|] == c;
    }
  }

  /** One step of `ParseQuery`, with the split points named. */
  lemma ParseStep(q: string, e: nat, a: nat)
    requires q != [] && q[0] == '&'
    requires e < |q| - 1 && Find(q[1..], '=') == e
    requires a <= |q| - e - 2 && Find(q[e + 2..], '&') == a
    ensures ParseQuery(q) == [(q[1..e + 1], q[e + 2..e + 2 + a])] + ParseQuery(q[e + 2 + a..])
  {
    assert q[1..][..e] == q[1..e + 1];
    assert q[1..][e + 1..] == q[e + 2..];
    assert q[e + 2..][..a] == q[e + 2..e + 2 + a];
    assert q[e + 2..][a..] == q[e + 2 + a..];
  }

  lemma ParseOne(k: string, v: string, rest: string)
    requires '&' !in k && '=' !in k && '&' !in v
    requires rest == [] || rest[0] == '&'
    ensures ParseQuery("&" + k + "=" + v + rest) == [(k, v)] + ParseQuery(rest)
  {
    var q := "&" + k + "=" + v + rest;
    var e := |k|;
    var a := |v|;
    assert q[1..] == k + ("=" + v + rest);
    FindStops(k, "=" + v + rest, '=');
    assert q[e + 2..] == v + rest;
    FindStops(v, rest, '&');
    ParseStep(q, e, a);
    assert q[1..e + 1] == k;
    assert q[e + 2..e + 2 + a] == v;
    assert q[e + 2 + a..] == rest;
  }

  /**
    The query can be read back: parsing it yields exactly the parameters
    that are not `None`, in order, provided keys and values never contain
    the separators, since the client escapes nothing.
   */
  lemma {:induction false} QueryRoundTrip(params: Params)
    requires Unambiguous(params)
    ensures ParseQuery(Query(params)) == Present(params)
    decreases |params|
  {
    if params != [] {
      assert Unambiguous(params[1..]) by {
        assert forall i :: 0 <= i < |params[1..]| ==> params[1..][i] == params[i + 1];
      }
      QueryRoundTrip(params[1..]);
      var rest := Query(params[1..]);
      assert rest == [] || rest[0] == '&' by {
        QueryStartsWithSeparator(params[1..]);
      }
      match params[0].1
      case None =>
        assert Query(params) == "" + rest == rest;
      case Some(v) =>
        assert '&' !in params[0].0 && '=' !in params[0].0 && '&' !in v;
        ParseOne(params[0].0, v, rest);
        assert Query(params) == "&" + params[0].0 + "=" + v + rest;
    }
  }

  lemma {:induction false} QueryStartsWithSeparator(params: Params)
    ensures Query(params) == [] || Query(params)[0] == '&'
    decreases |params|
  {
    if params != [] {
      QueryStartsWithSeparator(params[1..]);
    }
  }

  // ---------------------------------------------------------------------
  // The table's requirements, per endpoint
  // ---------------------------------------------------------------------

  /** Every key given is one the endpoint accepts. */
  predicate OnlyPossible(ep: Endpoint, params: Params) {
    forall j :: 0 <= j < |params| ==> params[j].0 in ep.possible
  }

  lemma SingleGiven(k: string, params: Params)
    ensures GroupGiven([k], params) <==> HasKey(params, k)
  {
    assert [k][0] == k;
  }

  lemma PairGiven(a: string, b: string, params: Params)
    ensures GroupGiven([a, b], params) <==> HasKey(params, a) && HasKey(params, b)
  {
    assert [a, b][0] == a && [a, b][1] == b;
  }

  /** A replay is found either by beatmap and user together, or by score id. */
  lemma ReplayRequirement(params: Params)
    requires OnlyPossible(GetReplay, params)
    ensures CheckParameters(GetReplay, params).Ok? <==>
      (HasKey(params, "b") && HasKey(params, "u")) || HasKey(params, "s")
  {
    PairGiven("b", "u", params);
    SingleGiven("s", params);
  }

  /** Beatmaps can be looked up by any one of five keys. */
  lemma BeatmapsRequirement(params: Params)
    requires OnlyPossible(GetBeatmaps, params)
    ensures CheckParameters(GetBeatmaps, params).Ok? <==>
      HasKey(params, "since") || HasKey(params, "s") || HasKey(params, "b") || HasKey(params, "u") || HasKey(params, "h")
  {
    var r := GetBeatmaps.required;
    assert r == [["since"], ["s"], ["b"], ["u"], ["h"]];
    forall i | 0 <= i < |r|
      ensures GroupGiven(r[i], params) <==> HasKey(params, r[i][0])
    {
      SingleGiven(r[i][0], params);
    }
  }

  /** A match request takes exactly one parameter, `mp`, and must have it. */
  lemma MatchRequirement(params: Params)
    ensures CheckParameters(GetMatch, params).Ok? <==>
      HasKey(params, "mp") && forall j :: 0 <= j < |params| ==> params[j].0 == "mp"
  {
    SingleGiven("mp", params);
  }

  /** Any key outside the accepted ones is rejected, whatever else is given. */
  lemma UnknownKeyRejected(ep: Endpoint, params: Params, j: nat)
    requires j < |params| && params[j].0 !in ep.possible
    ensures CheckParameters(ep, params).Err?
  {
  }

  /** The user-best and user-recent requests accept and reject exactly the same parameters. */
  lemma BestAndRecentChecked(params: Params)
    ensures CheckParameters(GetUserBest, params) == CheckParameters(GetUserRecent, params)
  {
    BestAndRecentAlike();
  }

  /**
    A parameter given as `None` satisfies a required group, yet is left out
    of the URL: a user request with `u` set to `None` is sent with no user.
   */
  lemma NoneSatisfiesButIsDropped(apiKey: string)
    ensures RequestUrl(GetUser, apiKey, [("u", None)]) == Ok("https://osu.ppy.sh/api/get_user?k=" + apiKey)
  {
    var params: Params := [("u", None)];
    assert Keys(params)[0] == "u";
    SingleGiven("u", params);
    assert GetUser.required[0] == ["u"];
    assert CheckParameters(GetUser, params) == Ok(());
    var base := "https://osu.ppy.sh/api/" + GetUser.extension + "?k=" + apiKey;
    assert base == "https://osu.ppy.sh/api/get_user?k=" + apiKey;
    assert Piece(params[0]) == "";
    assert ExtendUrl(base, params) == ExtendUrl(base + "", []) == base;
  }

  /** A complete request: the user endpoint with a user and a mode. */
  lemma UserRequestExample(apiKey: string)
    ensures RequestUrl(GetUser, apiKey, [("u", Some("tybug2")), ("m", Some("0"))])
      == Ok("https://osu.ppy.sh/api/get_user?k=" + apiKey + "&u=tybug2&m=0")
  {
    var params: Params := [("u", Some("tybug2")), ("m", Some("0"))];
    assert CheckParameters(GetUser, params) == Ok(()) by {
      assert Keys(params)[0] == "u";
      SingleGiven("u", params);
      assert GetUser.required[0] == ["u"];
      assert OnlyPossible(GetUser, params);
    }
    assert Query(params) == "&u=tybug2&m=0" by {
      assert Query(params[1..]) == "&m=0" + Query([]);
      assert Query(params) == "&u=tybug2" + Query(params[1..]);
    }
    var base := "https://osu.ppy.sh/api/" + GetUser.extension + "?k=" + apiKey;
    assert base == "https://osu.ppy.sh/api/get_user?k=" + apiKey;
    ExtendUrlAppends(base, params);
  }
}
