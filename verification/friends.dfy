/** `AddToFriends`: fetch the invite page, read the profile link from the
    `.persona_level_btn` element, extract the Steam id from it and the
    invite token from the invite link, build the redemption URL with the
    bot's `sessionid` cookie, fetch it, and report `(success, steamId)`.
    Every failure is a value, never an exception. */
module Friends {
  import opened Wrappers
  import opened Text
  import opened Patterns
  import opened Redeem

  /** `HttpStatusCode.OK`. */
  const StatusOk: int := 200

  /** The one element of a page the plugin looks at: its `href`, if any. */
  datatype Element = Element(href: Option<string>)

  /** A parsed page, reduced to the first element matching the
      `.persona_level_btn` selector, if any. */
  datatype Document = Document(personaLevelButton: Option<Element>)

  /** `HtmlDocumentResponse`: a status code and possibly-null content. */
  datatype HtmlResponse = HtmlResponse(status: int, content: Option<Document>)

  /** Which of the plugin's logged failure branches an attempt ended in,
      in the order the checks are made. */
  datatype Failure =
    | PageNotLoaded      // lines 198-202
    | NoProfileButton    // lines 210-214
    | BlankHref          // lines 216-220
    | NoSteamId          // lines 223-227
    | NoInviteToken      // lines 231-235
    | NoSessionId        // lines 238-242
    | RedeemNoResponse   // lines 246-250
    | RedeemBadStatus    // lines 251-255

  /** The outcome of one attempt: the `(bool, string)` pair the plugin
      returns, the redemption URL it requested (if it got that far) and the
      failure branch it took (if any). */
  datatype Attempt = Attempt(success: bool, steamId: string, redeemUrl: Option<string>, failure: Option<Failure>)

  function Fail(f: Failure): Attempt {
    Attempt(false, "", None, Some(f))
  }

  /** Not null, non-null content, status 200. */
  predicate ResponseOk(r: Option<HtmlResponse>) {
    r.Some? && r.value.content.Some? && r.value.status == StatusOk
  }

  /** The `.persona_level_btn` element of a page that loaded. */
  function ProfileButton(page: Option<HtmlResponse>): (e: Option<Element>)
    ensures e.Some? ==> ResponseOk(page)
  {
    if ResponseOk(page) then page.value.content.value.personaLevelButton else None
  }

  /** The `href` of that element. */
  function ProfileHref(page: Option<HtmlResponse>): (h: Option<string>)
    ensures h.Some? ==> ProfileButton(page).Some?
  {
    match ProfileButton(page)
    case Some(e) => e.href
    case None => None
  }

  /** The Steam id carried by the profile link of a loaded page. */
  function PageSteamId(page: Option<HtmlResponse>): (id: Option<string>)
    ensures id.Some? ==> ProfileHref(page).Some?
  {
    if IsNullOrWhiteSpace(ProfileHref(page)) then None else ExtractSteamId(ProfileHref(page).value)
  }

  /** The Steam id of a page is the id its profile link is for, and every
      id the profile link is for is the page's. */
  lemma PageSteamIdIsProfileId(page: Option<HtmlResponse>)
    ensures PageSteamId(page).Some? ==> IsProfileLinkFor(ProfileHref(page).value, PageSteamId(page).value)
    ensures forall id :: ProfileHref(page).Some? && IsProfileLinkFor(ProfileHref(page).value, id) ==>
              PageSteamId(page) == Some(id)
  {
    if ProfileHref(page).Some? {
      var h := ProfileHref(page).value;
      ExtractSteamIdIsCorrect(h);
      if ExtractSteamId(h).Some? {
        SteamIdLinkIsNotBlank(h);
      }
    }
  }

  /** The redemption URL called for by an invite link, the page it leads to
      and a `sessionid` cookie: the one built from the cookie, the Steam id
      of the page's profile link and the link's invite token, when all three
      are there. */
  function RedeemTarget(inviteLink: string, page: Option<HtmlResponse>, sessionCookie: Option<string>): Option<string> {
    var steamId := PageSteamId(page);
    var token := ExtractInviteToken(inviteLink);
    if steamId.Some? && token.Some? && !IsNullOrEmpty(sessionCookie)
    then Some(RedeemUrl(sessionCookie.value, steamId.value, token.value))
    else None
  }

  // ------------------------------------------------------------ the attempt

  /** How far the checks before the redemption request got: stopped in a
      failure branch, or ready to request `url` on behalf of `steamId`. */
  datatype Prepared = Stopped(failure: Failure) | Ready(steamId: string, url: string)

  /** Lines 196-244 of the plugin: the six checks made before the
      redemption request, given the invite page `page` the first request
      returned. */
  function PrepareRedemption(inviteLink: string, page: Option<HtmlResponse>, sessionCookie: Option<string>): (p: Prepared)
    ensures p.Ready? ==> IsNumericId(p.steamId)
  {
    if page.None? || page.value.content.None? || page.value.status != StatusOk then Stopped(PageNotLoaded)
    else
      var button := page.value.content.value.personaLevelButton;
      if button.None? then Stopped(NoProfileButton)
      else
        var profileLink := button.value.href;
        if IsNullOrWhiteSpace(profileLink) then Stopped(BlankHref)
        else
          var steamId := ExtractSteamId(profileLink.value);
          if steamId.None? then Stopped(NoSteamId)
          else
            var token := ExtractInviteToken(inviteLink);
            if token.None? then Stopped(NoInviteToken)
            else if IsNullOrEmpty(sessionCookie) then Stopped(NoSessionId)
            else Ready(steamId.value, RedeemUrl(sessionCookie.value, steamId.value, token.value))
  }

  /** Lines 244-257 of the plugin: the outcome of an attempt whose checks
      ended in `p`, where `response` is what the redemption request
      returned (not consulted when no request was made). */
  function Conclude(p: Prepared, response: Option<HtmlResponse>): (r: Attempt)
    ensures p.Stopped? ==> r == Fail(p.failure)
    ensures p.Ready? ==> r.redeemUrl == Some(p.url)
    ensures p.Ready? ==> r.failure in {None, Some(RedeemNoResponse), Some(RedeemBadStatus)}
    ensures p.Ready? && response.None? ==> r.failure == Some(RedeemNoResponse)
    ensures r.success <==> p.Ready? && ResponseOk(response)
    ensures r.success ==> r.steamId == p.steamId
  {
    match p
    case Stopped(f) => Fail(f)
    case Ready(steamId, url) =>
      if response.None? then Attempt(false, "", Some(url), Some(RedeemNoResponse))
      else if response.value.content.None? || response.value.status != StatusOk then
        Attempt(false, "", Some(url), Some(RedeemBadStatus))
      else Attempt(true, steamId, Some(url), None)
  }

  /** `AddToFriends(bot, inviteLink)` with the bot's web handler replaced
      by `fetch` (what a GET of a URL returns, null when every attempt
      failed) and its cookie store by `sessionCookie` (the `sessionid`
      cookie for steamcommunity.com). */
  function AddToFriends(inviteLink: string, fetch: string -> Option<HtmlResponse>, sessionCookie: Option<string>): (r: Attempt)
    ensures !r.success ==> r.steamId == "" && r.failure.Some?
    ensures r.success ==> r.failure.None? && IsNumericId(r.steamId)
  {
    var p := PrepareRedemption(inviteLink, fetch(inviteLink), sessionCookie);
    Conclude(p, if p.Ready? then fetch(p.url) else None)
  }

  /** The six checks let the request through exactly when the redemption
      URL is called for, and then request that URL for the Steam id of the
      page's profile link. */
  lemma PreparedIsRedeemTarget(inviteLink: string, page: Option<HtmlResponse>, sessionCookie: Option<string>)
    ensures PrepareRedemption(inviteLink, page, sessionCookie).Ready? <==> RedeemTarget(inviteLink, page, sessionCookie).Some?
    ensures PrepareRedemption(inviteLink, page, sessionCookie).Ready? ==>
              && Some(PrepareRedemption(inviteLink, page, sessionCookie).url) == RedeemTarget(inviteLink, page, sessionCookie)
              && Some(PrepareRedemption(inviteLink, page, sessionCookie).steamId) == PageSteamId(page)
  {
  }

  /** The redemption URL an attempt requests is the one its inputs call
      for, and it is requested exactly when the attempt gets past the six
      checks before the request. */
  lemma AttemptRequestsRedeemTarget(inviteLink: string, fetch: string -> Option<HtmlResponse>, sessionCookie: Option<string>)
    ensures var r := AddToFriends(inviteLink, fetch, sessionCookie);
            && r.redeemUrl == RedeemTarget(inviteLink, fetch(inviteLink), sessionCookie)
            && (r.redeemUrl.Some? <==> r.failure.None? || r.failure == Some(RedeemNoResponse) || r.failure == Some(RedeemBadStatus))
  {
    PreparedIsRedeemTarget(inviteLink, fetch(inviteLink), sessionCookie);
  }

  /** An attempt succeeds exactly when the response to its redemption
      request is a loaded page, and the Steam id it reports is then the one
      of the invite page's profile link. */
  lemma AttemptSucceedsOnLoadedRedeemPage(inviteLink: string, fetch: string -> Option<HtmlResponse>, sessionCookie: Option<string>)
    ensures var r := AddToFriends(inviteLink, fetch, sessionCookie);
            && (r.success <==> r.redeemUrl.Some? && ResponseOk(fetch(r.redeemUrl.value)))
            && (r.success ==> PageSteamId(fetch(inviteLink)) == Some(r.steamId))
  {
    PreparedIsRedeemTarget(inviteLink, fetch(inviteLink), sessionCookie);
  }

  // ------------------------------------------------- the order of the checks

  /** The checks of `AddToFriends`, in the order the plugin makes them. */
  const CheckOrder: seq<Failure> := [PageNotLoaded, NoProfileButton, BlankHref, NoSteamId,
                                     NoInviteToken, NoSessionId, RedeemNoResponse, RedeemBadStatus]

  /** For each of the six checks before the request, whether the inputs
      fail it, judged on its own: each looks at the value it needs, and a
      value that could not be obtained at all fails it. */
  function EarlyChecks(inviteLink: string, page: Option<HtmlResponse>, sessionCookie: Option<string>): (flags: seq<bool>)
    ensures |flags| == 6
  {
    [ !ResponseOk(page),
      ProfileButton(page).None?,
      IsNullOrWhiteSpace(ProfileHref(page)),
      PageSteamId(page).None?,
      ExtractInviteToken(inviteLink).None?,
      IsNullOrEmpty(sessionCookie) ]
  }

  /** For each check of `CheckOrder`, whether the inputs fail it, judged on
      its own; the last two look at the response to the redemption URL the
      inputs call for. */
  function CheckFailures(inviteLink: string, fetch: string -> Option<HtmlResponse>, sessionCookie: Option<string>): (flags: seq<bool>)
    ensures |flags| == |CheckOrder|
  {
    var page := fetch(inviteLink);
    var target := RedeemTarget(inviteLink, page, sessionCookie);
    EarlyChecks(inviteLink, page, sessionCookie)
      + [ target.None? || fetch(target.value).None?,
          target.None? || !ResponseOk(fetch(target.value)) ]
  }

  /** The position of the first `true` at or after `k`. */
  function FirstTrue(flags: seq<bool>, k: nat): (first: Option<nat>)
    requires k <= |flags|
    ensures first.Some? ==> k <= first.value < |flags|
    decreases |flags| - k
  {
    if k == |flags| then None
    else if flags[k] then Some(k)
    else FirstTrue(flags, k + 1)
  }

  /** `FirstTrue` finds a `true` when there is one, and the one it finds has
      only `false` before it. */
  lemma {:induction false} FirstTrueIsFirst(flags: seq<bool>, k: nat)
    requires k <= |flags|
    ensures FirstTrue(flags, k).None? <==> forall j :: k <= j < |flags| ==> !flags[j]
    ensures FirstTrue(flags, k).Some? ==>
              var j := FirstTrue(flags, k).value;
              k <= j < |flags| && flags[j] && forall i :: k <= i < j ==> !flags[i]
    decreases |flags| - k
  {
    if k < |flags| && !flags[k] {
      FirstTrueIsFirst(flags, k + 1);
    }
  }

  /** A `true` in the first part is found before anything appended; with
      none there, the search goes on into the appended part. */
  lemma {:induction false} FirstTrueOfAppend(a: seq<bool>, b: seq<bool>, k: nat)
    requires k <= |a|
    ensures FirstTrue(a, k).Some? ==> FirstTrue(a + b, k) == FirstTrue(a, k)
    ensures FirstTrue(a, k).None? ==> FirstTrue(a + b, k) == FirstTrue(a + b, |a|)
    decreases |a| - k
  {
    if k < |a| {
      assert (a + b)[k] == a[k];
      if !a[k] {
        FirstTrueOfAppend(a, b, k + 1);
      }
    }
  }

  /** The six checks before the request short-circuit in order: preparing
      the request stops at the first of them the inputs fail. */
  lemma PrepareStopsAtFirstFailingCheck(inviteLink: string, page: Option<HtmlResponse>, sessionCookie: Option<string>)
    ensures var first := FirstTrue(EarlyChecks(inviteLink, page, sessionCookie), 0);
            if first.Some? then PrepareRedemption(inviteLink, page, sessionCookie) == Stopped(CheckOrder[first.value])
            else PrepareRedemption(inviteLink, page, sessionCookie).Ready?
  {
    var flags := EarlyChecks(inviteLink, page, sessionCookie);
    if PageSteamId(page).None? {
      PageChecks(inviteLink, page, sessionCookie);
    } else {
      assert !flags[0] && !flags[1] && !flags[2] && !flags[3];
      assert FirstTrue(flags, 0) == FirstTrue(flags, 1) == FirstTrue(flags, 2) == FirstTrue(flags, 3) == FirstTrue(flags, 4);
      LinkAndSessionChecks(inviteLink, page, sessionCookie);
    }
  }

  /** The fifth and sixth checks, on the invite link and the cookie, once
      the page has given a Steam id. */
  lemma LinkAndSessionChecks(inviteLink: string, page: Option<HtmlResponse>, sessionCookie: Option<string>)
    requires PageSteamId(page).Some?
    ensures var first := FirstTrue(EarlyChecks(inviteLink, page, sessionCookie), 4);
            if first.Some? then PrepareRedemption(inviteLink, page, sessionCookie) == Stopped(CheckOrder[first.value])
            else PrepareRedemption(inviteLink, page, sessionCookie).Ready?
  {
    var flags := EarlyChecks(inviteLink, page, sessionCookie);
    if ExtractInviteToken(inviteLink).None? {
      assert flags[4];
    } else if IsNullOrEmpty(sessionCookie) {
      assert !flags[4] && flags[5];
      assert FirstTrue(flags, 4) == FirstTrue(flags, 5);
    } else {
      assert !flags[4] && !flags[5];
      assert FirstTrue(flags, 4) == FirstTrue(flags, 5) == FirstTrue(flags, 6);
    }
  }

  /** The first four checks, on the invite page, when one of them fails. */
  lemma PageChecks(inviteLink: string, page: Option<HtmlResponse>, sessionCookie: Option<string>)
    requires PageSteamId(page).None?
    ensures var first := FirstTrue(EarlyChecks(inviteLink, page, sessionCookie), 0);
            first.Some? && PrepareRedemption(inviteLink, page, sessionCookie) == Stopped(CheckOrder[first.value])
  {
    var flags := EarlyChecks(inviteLink, page, sessionCookie);
    if !ResponseOk(page) {
      assert flags[0];
    } else if ProfileButton(page).None? {
      assert !flags[0] && flags[1];
      assert FirstTrue(flags, 0) == FirstTrue(flags, 1);
    } else if IsNullOrWhiteSpace(ProfileHref(page)) {
      assert !flags[0] && !flags[1] && flags[2];
      assert FirstTrue(flags, 0) == FirstTrue(flags, 1) == FirstTrue(flags, 2);
    } else {
      assert !flags[0] && !flags[1] && !flags[2] && flags[3];
      assert FirstTrue(flags, 0) == FirstTrue(flags, 1) == FirstTrue(flags, 2) == FirstTrue(flags, 3);
    }
  }

  /** The checks short-circuit in order: the failure an attempt ends in is
      the first failing check of `CheckOrder`, each check judged on its own. */
  lemma AttemptStopsAtFirstFailingCheck(inviteLink: string, fetch: string -> Option<HtmlResponse>, sessionCookie: Option<string>)
    ensures var first := FirstTrue(CheckFailures(inviteLink, fetch, sessionCookie), 0);
            AddToFriends(inviteLink, fetch, sessionCookie).failure
              == if first.Some? then Some(CheckOrder[first.value]) else None
  {
    var page := fetch(inviteLink);
    var early := EarlyChecks(inviteLink, page, sessionCookie);
    var flags := CheckFailures(inviteLink, fetch, sessionCookie);
    var late := flags[6..];
    assert flags == early + late;
    FirstTrueOfAppend(early, late, 0);
    PrepareStopsAtFirstFailingCheck(inviteLink, page, sessionCookie);
    if FirstTrue(early, 0).None? {
      // The last two checks, on the response to the redemption request.
      PreparedIsRedeemTarget(inviteLink, page, sessionCookie);
      var response := fetch(PrepareRedemption(inviteLink, page, sessionCookie).url);
      if response.None? {
        assert flags[6];
      } else if !ResponseOk(response) {
        assert !flags[6] && flags[7];
        assert FirstTrue(flags, 6) == FirstTrue(flags, 7);
      } else {
        assert !flags[6] && !flags[7];
        assert FirstTrue(flags, 6) == FirstTrue(flags, 7) == FirstTrue(flags, 8);
      }
    }
  }

  /** The redemption URL is requested exactly when the six checks that
      precede the request all pass. */
  lemma AttemptRequestsOnlyAfterSixChecks(inviteLink: string, fetch: string -> Option<HtmlResponse>, sessionCookie: Option<string>)
    ensures var flags := CheckFailures(inviteLink, fetch, sessionCookie);
            AddToFriends(inviteLink, fetch, sessionCookie).redeemUrl.Some? <==> forall k :: 0 <= k < 6 ==> !flags[k]
  {
    var page := fetch(inviteLink);
    var early := EarlyChecks(inviteLink, page, sessionCookie);
    var flags := CheckFailures(inviteLink, fetch, sessionCookie);
    assert forall k :: 0 <= k < 6 ==> flags[k] == early[k];
    PrepareStopsAtFirstFailingCheck(inviteLink, page, sessionCookie);
    FirstTrueIsFirst(early, 0);
    assert AddToFriends(inviteLink, fetch, sessionCookie).redeemUrl.Some?
       <==> PrepareRedemption(inviteLink, page, sessionCookie).Ready?;
  }

  /** The attempt succeeds exactly when every check passes. */
  lemma AttemptSucceedsOnlyIfAllChecksPass(inviteLink: string, fetch: string -> Option<HtmlResponse>, sessionCookie: Option<string>)
    ensures var flags := CheckFailures(inviteLink, fetch, sessionCookie);
            AddToFriends(inviteLink, fetch, sessionCookie).success <==> forall k :: 0 <= k < |flags| ==> !flags[k]
  {
    var flags := CheckFailures(inviteLink, fetch, sessionCookie);
    AttemptStopsAtFirstFailingCheck(inviteLink, fetch, sessionCookie);
    FirstTrueIsFirst(flags, 0);
  }

  // ------------------------------------------------------ what is requested

  /** An attempt reads the network only at the invite link and, when it
      gets that far, at its redemption URL: two networks that agree there
      give the same attempt. In particular the redemption response is never
      consulted when an earlier check fails. */
  lemma AttemptReadsOnlyRequestedUrls(inviteLink: string, fetch: string -> Option<HtmlResponse>,
                                      other: string -> Option<HtmlResponse>, sessionCookie: Option<string>)
    requires other(inviteLink) == fetch(inviteLink)
    requires AddToFriends(inviteLink, fetch, sessionCookie).redeemUrl.Some? ==>
               other(AddToFriends(inviteLink, fetch, sessionCookie).redeemUrl.value)
                 == fetch(AddToFriends(inviteLink, fetch, sessionCookie).redeemUrl.value)
    ensures AddToFriends(inviteLink, other, sessionCookie) == AddToFriends(inviteLink, fetch, sessionCookie)
  {
    assert PrepareRedemption(inviteLink, other(inviteLink), sessionCookie)
        == PrepareRedemption(inviteLink, fetch(inviteLink), sessionCookie);
  }

  /** The redemption request names the bot's session, the Steam id the
      profile link is for, and the invite link's token, each readable back
      from the URL (given a session id without `&`, as Steam's are). */
  lemma RedemptionRequestCarriesIds(inviteLink: string, page: Option<HtmlResponse>, sessionCookie: Option<string>)
    requires PrepareRedemption(inviteLink, page, sessionCookie).Ready?
    requires sessionCookie.Some? ==> AllIn(sessionCookie.value, NotAmpersand)
    ensures var p := PrepareRedemption(inviteLink, page, sessionCookie);
            && IsProfileLinkFor(ProfileHref(page).value, p.steamId)
            && exists code, token ::
                 && IsInviteLinkFor(inviteLink, code, token)
                 && ParseRedeemUrl(p.url) == Some(RedeemQuery(sessionCookie.value, p.steamId, token))
  {
    var p := PrepareRedemption(inviteLink, page, sessionCookie);
    var token := ExtractInviteToken(inviteLink).value;
    ExtractSteamIdIsCorrect(ProfileHref(page).value);
    var code := InviteMatchIsSound(inviteLink);
    assert AllIn(p.steamId, NotAmpersand);
    RedeemUrlRoundTrip(sessionCookie.value, p.steamId, token);
    assert IsInviteLinkFor(inviteLink, code, token);
  }

  // --------------------------------------------------------------- examples

  /** `https://s.team/p/abc-de/XyZ` */
  const ExampleInvite: string := InvitePrefix + "abc-de/XyZ"
  /** `https://steamcommunity.com/profiles/12345/xyz/` */
  const ExampleProfile: string := ProfilePrefix + "12345/xyz/"
  const ExampleSession: string := "0123abcd"

  /** The invite page of the example: it links to `ExampleProfile`. */
  const ExamplePage: Option<HtmlResponse> := Some(HtmlResponse(StatusOk, Some(Document(Some(Element(Some(ExampleProfile)))))))

  /** A network on which the invite link answers with `ExamplePage` and
      every other URL answers with `redeem`. */
  function ExampleNetwork(redeem: Option<HtmlResponse>): string -> Option<HtmlResponse> {
    u => if u == ExampleInvite then ExamplePage else redeem
  }

  lemma ExampleProfileIsRecognised()
    ensures ExtractSteamId(ExampleProfile) == Some("12345")
  {
    var p := |ProfilePrefix|;
    assert ExampleProfile[0..p] == ProfilePrefix;
    assert ExampleProfile[p..p + 5] == "12345";
    assert ExampleProfile[p + 5] == '/' && ExampleProfile[p + 6] == 'x';
    ProfileLinkIsMatched(ExampleProfile, "12345");
  }

  lemma ExampleInviteIsRecognised()
    ensures ExtractInviteToken(ExampleInvite) == Some("XyZ")
  {
    var q := |InvitePrefix|;
    assert ExampleInvite[0..q] == InvitePrefix;
    assert ExampleInvite[q..q + 6] == "abc-de";
    assert ExampleInvite[q + 6] == '/';
    assert ExampleInvite[q + 7..q + 10] == "XyZ";
    InviteLinkIsMatched(ExampleInvite, "abc-de", "XyZ");
  }

  /** The worked example, first stage: the checks pass and the request
      for Steam id 12345 and token XyZ is prepared. */
  lemma ExamplePreparation()
    ensures PrepareRedemption(ExampleInvite, ExamplePage, Some(ExampleSession))
            == Ready("12345", RedeemUrl(ExampleSession, "12345", "XyZ"))
  {
    ExampleProfileIsRecognised();
    ExampleInviteIsRecognised();
    SteamIdLinkIsNotBlank(ExampleProfile);
    assert !IsNullOrEmpty(Some(ExampleSession));
  }

  /** The worked example: the attempt requests the redemption URL built
      from the session, Steam id 12345 and token XyZ, and its outcome is
      decided by the redemption response alone. */
  lemma ExampleAttempt(redeem: Option<HtmlResponse>)
    ensures var r := AddToFriends(ExampleInvite, ExampleNetwork(redeem), Some(ExampleSession));
            && r.redeemUrl == Some(RedeemUrl(ExampleSession, "12345", "XyZ"))
            && (r.success <==> ResponseOk(redeem))
            && (r.success ==> r.steamId == "12345")
            && (redeem.None? ==> r == Attempt(false, "", r.redeemUrl, Some(RedeemNoResponse)))
            && (redeem.Some? && !ResponseOk(redeem) ==> r == Attempt(false, "", r.redeemUrl, Some(RedeemBadStatus)))
  {
    ExamplePreparation();
    var url := RedeemUrl(ExampleSession, "12345", "XyZ");
    assert url != ExampleInvite by {
      assert |url| != |ExampleInvite|;
    }
    assert ExampleNetwork(redeem)(ExampleInvite) == ExamplePage;
    assert ExampleNetwork(redeem)(url) == redeem;
  }
}
