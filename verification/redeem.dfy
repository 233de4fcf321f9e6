/** The friend-invite redemption request: the URL the plugin builds from
    the session id, the Steam id and the invite token, and how the three
    query values are read back out of it. */
module Redeem {
  import opened Wrappers
  import opened Text

  const RedeemEndpoint: string := "https://steamcommunity.com/invites/ajaxredeem?sessionid="
  const SteamIdParam: string := "&steamid_user="
  const InviteTokenParam: string := "&invite_token="

  /** The three values carried by a redemption request. */
  datatype RedeemQuery = RedeemQuery(sessionId: string, steamId: string, inviteToken: string)

  /** The interpolated string of line 244 of the plugin. */
  function RedeemUrl(sessionId: string, steamId: string, inviteToken: string): (url: string)
    ensures RedeemEndpoint <= url
    ensures |url| == |RedeemEndpoint| + |sessionId| + |SteamIdParam| + |steamId| + |InviteTokenParam| + |inviteToken|
  {
    RedeemEndpoint + (sessionId + (SteamIdParam + (steamId + (InviteTokenParam + inviteToken))))
  }

  /** What follows the literal `word` at the start of `s`, if `s` starts
      with it. */
  function After(s: string, word: string): (r: Option<string>)
    ensures r.Some? <==> word <= s
    ensures r.Some? ==> s == word + r.value
  {
    if word <= s then Some(s[|word|..]) else None
  }

  /** A query value: everything up to the first `&`, and what follows it. */
  function SplitValue(s: string): (r: (string, string))
    ensures s == r.0 + r.1 && AllIn(r.0, NotAmpersand)
    ensures |r.1| > 0 ==> r.1[0] == '&'
  {
    var n := RunLength(s, NotAmpersand);
    (s[..n], s[n..])
  }

  /** Reads a redemption URL as the endpoint does: `sessionid` up to the
      first `&`, then `steamid_user` up to the next `&`, then `invite_token`
      to the end. */
  function ParseRedeemUrl(url: string): (q: Option<RedeemQuery>)
    ensures q.Some? ==> AllIn(q.value.sessionId, NotAmpersand) && AllIn(q.value.steamId, NotAmpersand)
  {
    match After(url, RedeemEndpoint)
    case None => None
    case Some(afterEndpoint) =>
      var (sessionId, afterSession) := SplitValue(afterEndpoint);
      match After(afterSession, SteamIdParam)
      case None => None
      case Some(afterName) =>
        var (steamId, afterId) := SplitValue(afterName);
        match After(afterId, InviteTokenParam)
        case None => None
        case Some(inviteToken) => Some(RedeemQuery(sessionId, steamId, inviteToken))
  }

  /** A literal at the front is read back off. */
  lemma AfterPrefix(word: string, rest: string)
    ensures After(word + rest, word) == Some(rest)
  {
    assert (word + rest)[..|word|] == word;
    assert (word + rest)[|word|..] == rest;
  }

  /** Splitting `x + rest` at its first `&` gives back `x` when `x` has no
      `&` and `rest` starts with one. */
  lemma SplitAtAmpersand(x: string, rest: string)
    requires AllIn(x, NotAmpersand)
    requires |rest| > 0 && rest[0] == '&'
    ensures SplitValue(x + rest) == (x, rest)
  {
    assert forall j :: 0 <= j < |x| ==> (x + rest)[j] == x[j];
    assert (x + rest)[|x|] == rest[0];
    RunLengthIsUnique(x + rest, NotAmpersand, |x|);
    assert (x + rest)[..|x|] == x;
    assert (x + rest)[|x|..] == rest;
  }

  /** Round trip: the session id and the Steam id can be read back from the
      URL whenever neither holds an `&`; the token is everything after. */
  lemma RedeemUrlRoundTrip(sessionId: string, steamId: string, inviteToken: string)
    requires AllIn(sessionId, NotAmpersand) && AllIn(steamId, NotAmpersand)
    ensures ParseRedeemUrl(RedeemUrl(sessionId, steamId, inviteToken))
            == Some(RedeemQuery(sessionId, steamId, inviteToken))
  {
    var tokenPart := InviteTokenParam + inviteToken;
    var idPart := SteamIdParam + (steamId + tokenPart);
    AfterPrefix(RedeemEndpoint, sessionId + idPart);
    SplitAtAmpersand(sessionId, idPart);
    AfterPrefix(SteamIdParam, steamId + tokenPart);
    SplitAtAmpersand(steamId, tokenPart);
    AfterPrefix(InviteTokenParam, inviteToken);
  }

  /** The URL determines the request: two requests built from
      ampersand-free session and Steam ids are equal only when all three
      values are. */
  lemma RedeemUrlIsInjective(s1: string, id1: string, t1: string, s2: string, id2: string, t2: string)
    requires AllIn(s1, NotAmpersand) && AllIn(id1, NotAmpersand)
    requires AllIn(s2, NotAmpersand) && AllIn(id2, NotAmpersand)
    requires RedeemUrl(s1, id1, t1) == RedeemUrl(s2, id2, t2)
    ensures s1 == s2 && id1 == id2 && t1 == t2
  {
    RedeemUrlRoundTrip(s1, id1, t1);
    RedeemUrlRoundTrip(s2, id2, t2);
  }
}
