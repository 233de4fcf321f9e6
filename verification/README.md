# ASFFriendManager: the invite-redemption command, modelled in Dafny

ASFFriendManager is an ArchiSteamFarm (ASF) plugin. Its one working command,
`ADDFRIENDBYINVITE <bots> <inviteLink>`, makes every selected bot accept a Steam
friend invite. For each bot, `AddToFriends` does the following:

1. Fetch the invite page.
2. Read the profile link from its `.persona_level_btn` element.
3. Extract the numeric Steam id from that link with `SteamIDRegex`.
4. Extract the invite token from the invite link with `InviteTokenRegex`.
5. Build the `ajaxredeem` URL with the bot's `sessionid` cookie and fetch it.

`OnBotCommand` validates the caller and the arguments, runs the per-bot attempts
and folds their `(success, steamID)` results into one reply.

The model is pure and functional. The network, the HTML parser, the cookie store
and `Bot.GetBots` are abstract inputs.

| file | module | what it holds |
|---|---|---|
| `wrappers.dfy` | `Wrappers` | `Option`, standing for a nullable reference |
| `text.dfy` | `Text` | the regex character classes, maximal runs (`RunLength`, `RunIsWord`), `IsNullOrEmpty`, `IsNullOrWhiteSpace`, `ToUpperInvariant` |
| `patterns.dfy` | `Patterns` | the greedy scan the two regexes share (prefix, a class run, `/`, a letter run, an optional `/`); the two regexes as matchers returning `Success` and `Groups`; declarative descriptions of profile and invite links, with both directions proved |
| `redeem.dfy` | `Redeem` | the redemption URL and a reader for its three query values (the round trip) |
| `friends.dfy` | `Friends` | `AddToFriends` in two stages, the six checks up to the redemption request (`PrepareRedemption`) and the outcome of that request (`Conclude`); the order of its checks; what it requests |
| `command.dfy` | `Command` | argument and access validation, the launch order, the aggregation loop, `OnBotCommand` |

Each attempt records which failure branch it took (`Attempt.failure`). The source
reports that branch only through its log, and the model needs it to state the
order of the checks. Apart from that field, an attempt is the source's
`(bool, string)` pair plus the redemption URL it requested, if any.

Three facts about the command shape the model:

- **Access level.** The command needs `EAccess.FamilySharing` or higher.
- **Result order.** Results are read in launch order, as `Utilities.InParallel`
  returns them.
- **Launch order.** The launch order is the enumeration order of the bot
  `HashSet`, which nothing fixes. `LaunchOrder` picks it nondeterministically.
  The contracts of `FanOut`, `AddFriendForBots` and `OnBotCommand` hold for
  every order.

## Model

| member | source | states |
|---|---|---|
| `Text.RunLength` | ASFFriendManager/ASFFriendManagerPlugin.cs:260-264 | a greedy class run takes the maximal prefix of class characters: every character before the returned length is in the class, and the next one (if any) is not |
| `Text.ToUpperInvariant` | ASFFriendManager/ASFFriendManagerPlugin.cs:67 | upper casing keeps the length, leaves no lower-case ASCII letter, and changes no character other than a lower-case ASCII letter |
| `Text.ToUpperInvariantIsIdempotent` | ASFFriendManager/ASFFriendManagerPlugin.cs:67 | upper casing an upper-cased word changes nothing |
| `Text.IsNullOrWhiteSpaceExamples` | ASFFriendManager/ASFFriendManagerPlugin.cs:216 | null, empty and all-space strings (no-break space included) are blank, a string holding a letter is not, and every null-or-empty string is blank |
| `Text.RunIsWord` | ASFFriendManager/ASFFriendManagerPlugin.cs:260-264 | the run a greedy class repetition consumes at a position is a word of the link made only of class characters, followed by the end or by a character outside the class |
| `Patterns.Scan` | ASFFriendManager/ASFFriendManagerPlugin.cs:260-264 | a successful scan of either pattern has two non-empty runs, and its match ends inside the link, after the prefix, both runs and the slash between them |
| `Patterns.ScanIsSound` | ASFFriendManager/ASFFriendManagerPlugin.cs:260-264 | what a successful scan reports is a link of the pattern's shape: the prefix, a non-empty class run of the reported length, `/`, and a maximal non-empty letter run of the reported length; the match then ends after one more `/` when one follows, and right after the letters otherwise |
| `Patterns.ScanIsComplete` | ASFFriendManager/ASFFriendManagerPlugin.cs:260-264 | every link of the pattern's shape is scanned successfully and the scan reports its two runs, provided the class excludes `/` (true of both `[0-9]` and `[a-zA-Z-]`) |
| `Patterns.MatchSteamId` | ASFFriendManager/ASFFriendManagerPlugin.cs:221-223 | a successful `SteamIDRegex` match has exactly two groups, so the `Groups.Count < 2` test never fires; the whole match is a non-empty start-anchored prefix of the link, longer than the captured id; a failed match is `Match.Empty` |
| `Patterns.ExtractSteamId` | ASFFriendManager/ASFFriendManagerPlugin.cs:221-228 | an extracted id is a non-empty string of ASCII digits |
| `Patterns.ExtractSteamIdIsCorrect` | ASFFriendManager/ASFFriendManagerPlugin.cs:260-261 | extraction succeeds exactly for profile links (the prefix, at least one digit, `/`, then an ASCII letter), and the id it returns is the one the link is a profile link for |
| `Patterns.ProfileMatchIsSound` | ASFFriendManager/ASFFriendManagerPlugin.cs:260-261 | a successful profile match captures an id the link is the profile link of |
| `Patterns.ProfileWholeMatch` | ASFFriendManager/ASFFriendManagerPlugin.cs:260-261 | group 0 of a successful profile match is the start of the link through the prefix, the id, `/` and the maximal letter run, plus the optional trailing `/` when one is there |
| `Patterns.ProfileLinkIsMatched` | ASFFriendManager/ASFFriendManagerPlugin.cs:260-261 | every profile link is matched, and the id it is for is the captured group |
| `Patterns.ProfileLinkIsShaped` | ASFFriendManager/ASFFriendManagerPlugin.cs:260-261 | a profile link has the shape the scan reads, with the maximal letter run after the id |
| `Patterns.ProfileIdIsUnique` | ASFFriendManager/ASFFriendManagerPlugin.cs:260-261 | a link is the profile link of at most one id (the digit run is maximal) |
| `Patterns.SteamIdIgnoresAppendedText` | ASFFriendManager/ASFFriendManagerPlugin.cs:260-261 | the profile pattern has no end anchor: appending any text to a link an id was extracted from leaves the id unchanged |
| `Patterns.SteamIdLinkIsNotBlank` | ASFFriendManager/ASFFriendManagerPlugin.cs:216-222 | a link an id can be extracted from always passes the `IsNullOrWhiteSpace` check before it |
| `Patterns.MatchInviteToken` | ASFFriendManager/ASFFriendManagerPlugin.cs:229-231 | a successful `InviteTokenRegex` match has exactly two groups, and its whole match is a non-empty start-anchored prefix of the link, longer than the captured token; a failed match is `Match.Empty` |
| `Patterns.ExtractInviteToken` | ASFFriendManager/ASFFriendManagerPlugin.cs:229-236 | an extracted token is a non-empty string of ASCII letters |
| `Patterns.ExtractInviteTokenIsCorrect` | ASFFriendManager/ASFFriendManagerPlugin.cs:263-264 | extraction succeeds exactly for invite links (the prefix, a non-empty run of letters and hyphens, `/`, then a maximal run of at least one letter), and it returns that letter run |
| `Patterns.InviteMatchIsSound` | ASFFriendManager/ASFFriendManagerPlugin.cs:263-264 | a successful invite match captures the token of an invite link, with an invite code that the lemma returns |
| `Patterns.InviteWholeMatch` | ASFFriendManager/ASFFriendManagerPlugin.cs:263-264 | group 0 of a successful invite match is the start of the link through the prefix, the invite code, `/` and the token, plus the optional trailing `/` when one is there |
| `Patterns.InviteLinkIsMatched` | ASFFriendManager/ASFFriendManagerPlugin.cs:263-264 | every invite link is matched, and its token is the captured group |
| `Patterns.InviteTokenIsUnique` | ASFFriendManager/ASFFriendManagerPlugin.cs:263-264 | an invite link carries at most one token, whatever invite code it is read with |
| `Patterns.InviteTokenIgnoresAppendedText` | ASFFriendManager/ASFFriendManagerPlugin.cs:263-264 | the invite pattern has no end anchor: appending text that does not start with an ASCII letter leaves the extracted token unchanged |
| `Patterns.AppendedLetterExtendsInviteToken` | ASFFriendManager/ASFFriendManagerPlugin.cs:263-264 | the restriction above is needed: a letter appended directly after the token becomes part of it (`X` becomes `Xy`) |
| `Redeem.RedeemUrl` | ASFFriendManager/ASFFriendManagerPlugin.cs:244 | the redemption URL starts with the `ajaxredeem?sessionid=` endpoint, and its length is that of the endpoint, the two parameter names and the three values |
| `Redeem.RedeemUrlRoundTrip` | ASFFriendManager/ASFFriendManagerPlugin.cs:244 | reading the URL back gives the session id, the Steam id and the token it was built from, when neither of the first two contains `&` |
| `Redeem.RedeemUrlIsInjective` | ASFFriendManager/ASFFriendManagerPlugin.cs:244 | with ampersand-free session and Steam ids, two redemption URLs are equal only when all three values are |
| `Friends.PageSteamId` | ASFFriendManager/ASFFriendManagerPlugin.cs:209-228 | a page yields a Steam id only when its `.persona_level_btn` element has an `href` |
| `Friends.PageSteamIdIsProfileId` | ASFFriendManager/ASFFriendManagerPlugin.cs:209-228 | the Steam id a page yields is the id its `href` is a profile link for, and whenever the `href` is a profile link for some id, the page yields exactly that id |
| `Friends.PrepareRedemption` | ASFFriendManager/ASFFriendManagerPlugin.cs:196-244 | when the six checks before the redemption request pass, the Steam id the attempt goes on with is a non-empty digit string |
| `Friends.PreparedIsRedeemTarget` | ASFFriendManager/ASFFriendManagerPlugin.cs:209-244 | the six checks pass exactly when the page yields a Steam id, the invite link a token and the cookie store a non-empty session id; the URL prepared is then the one built from those three, and the id is the page's |
| `Friends.Conclude` | ASFFriendManager/ASFFriendManagerPlugin.cs:244-257 | an attempt stopped by a check fails with that check's failure; otherwise it has requested the prepared URL and can end only in success, "no response" (when the response is null) or "bad status"; it succeeds exactly when the response is loaded with status 200, reporting the prepared Steam id |
| `Friends.AddToFriends` | ASFFriendManager/ASFFriendManagerPlugin.cs:193-258 | every failure is exactly `(false, "")` with a recorded failure branch; a success records none and carries a non-empty digit string |
| `Friends.AttemptRequestsRedeemTarget` | ASFFriendManager/ASFFriendManagerPlugin.cs:237-245 | the URL an attempt requests is the one built from the page's Steam id, the link's token and the session id, and a URL is requested exactly when the attempt succeeds or fails at the redemption step |
| `Friends.AttemptSucceedsOnLoadedRedeemPage` | ASFFriendManager/ASFFriendManagerPlugin.cs:245-257 | an attempt succeeds exactly when it requested a URL and the response is loaded with status 200, and it then reports the Steam id of the invite page's profile link |
| `Friends.FirstTrueIsFirst` | ASFFriendManager/ASFFriendManagerPlugin.cs:198-255 | the scan finds a failing check whenever there is one, and every check before the one it finds passes |
| `Friends.FirstTrueOfAppend` | ASFFriendManager/ASFFriendManagerPlugin.cs:198-255 | the first failing check of a list of checks is in its first part when that part has one, and otherwise in the rest |
| `Friends.PrepareStopsAtFirstFailingCheck` | ASFFriendManager/ASFFriendManagerPlugin.cs:198-242 | the six checks before the request, in the order page loaded with status 200, button present, `href` not blank, id extracted, token extracted, `sessionid` set: preparation stops with the first one that fails, and is ready when none does |
| `Friends.AttemptStopsAtFirstFailingCheck` | ASFFriendManager/ASFFriendManagerPlugin.cs:198-255 | each check is judged on its own, in this order: the six above, then redeem answered, redeem OK. The failure an attempt reports is the first check in that order that fails, and it has none when all pass |
| `Friends.AttemptRequestsOnlyAfterSixChecks` | ASFFriendManager/ASFFriendManagerPlugin.cs:198-245 | the redemption URL is requested exactly when the six checks before it pass |
| `Friends.AttemptSucceedsOnlyIfAllChecksPass` | ASFFriendManager/ASFFriendManagerPlugin.cs:198-257 | the attempt succeeds exactly when all eight checks pass |
| `Friends.AttemptReadsOnlyRequestedUrls` | ASFFriendManager/ASFFriendManagerPlugin.cs:197-245 | the attempt depends on the network only through the invite page and, when it requests one, the redemption URL; in particular the redemption response is never consulted after an earlier failure |
| `Friends.RedemptionRequestCarriesIds` | ASFFriendManager/ASFFriendManagerPlugin.cs:221-244 | when the session id has no `&`, a prepared redemption URL reads back as the bot's session id, the id the page's profile link is for, and the token of the invite link |
| `Friends.ExampleProfileIsRecognised` | ASFFriendManager/ASFFriendManagerPlugin.cs:260-261 | `https://steamcommunity.com/profiles/12345/xyz/` yields id `12345` |
| `Friends.ExampleInviteIsRecognised` | ASFFriendManager/ASFFriendManagerPlugin.cs:263-264 | `https://s.team/p/abc-de/XyZ` yields token `XyZ` |
| `Friends.ExamplePreparation` | ASFFriendManager/ASFFriendManagerPlugin.cs:196-244 | an invite page linking to that profile, that invite link and a session cookie pass the six checks, ready to request the URL for id `12345` and token `XyZ` |
| `Friends.ExampleAttempt` | ASFFriendManager/ASFFriendManagerPlugin.cs:193-257 | for that invite link and profile link, the attempt requests the redemption URL for id `12345` and token `XyZ`; it succeeds with `12345` exactly when the redemption response is OK; a null response gives `(false, "")` in the "no response" branch, and a response without content or with another status gives `(false, "")` in the "bad status" branch |
| `Command.Validate` | ASFFriendManager/ASFFriendManagerPlugin.cs:67-83 | checks in order: an unrecognised name or access below `FamilySharing` gives null; fewer than 3 args gives `"args count is wrong"`; an empty selector gives `"bot names are empty"`; a null or empty bot set gives `"fail"`; the command goes on exactly when none of these applies, with the non-empty bot set of `args[1]` and the link `args[2]` |
| `Command.CommandNameIgnoresCase` | ASFFriendManager/ASFFriendManagerPlugin.cs:67-69 | a word selects the command exactly when it has 17 characters and each one is the matching letter of `ADDFRIENDBYINVITE` in upper or lower ASCII case |
| `Command.DotlessIDoesNotSelectCommand` | ASFFriendManager/ASFFriendManagerPlugin.cs:67-69 | `ADDFRıENDBYINVITE`, with a dotless i (U+0131), does not select the command: invariant upper casing keeps that character |
| `Command.LongSNeverSelectsCommand` | ASFFriendManager/ASFFriendManagerPlugin.cs:67-69 | no word holding a long s (U+017F) selects the command, whichever way that character is upper-cased, since the name has no `S` |
| `Command.LowerCaseSelectsCommand` | ASFFriendManager/ASFFriendManagerPlugin.cs:67-69 | `addfriendbyinvite` in lower case selects the command |
| `Command.ValidateTooFewArgsExample` | ASFFriendManager/ASFFriendManagerPlugin.cs:67-73 | `addfriendbyinvite bot1` from an `Operator` is answered with `"args count is wrong"` |
| `Command.ValidateNoBotsExample` | ASFFriendManager/ASFFriendManagerPlugin.cs:79-83 | a selector that resolves to no bot is answered with `"fail"` |
| `Command.ValidateNoAccessExample` | ASFFriendManager/ASFFriendManagerPlugin.cs:67-98 | below `FamilySharing` a well-formed command still gives the null reply |
| `Command.LaunchOrder` | ASFFriendManager/ASFFriendManagerPlugin.cs:86 | the launch order lists every selected bot exactly once |
| `Command.Aggregate` | ASFFriendManager/ASFFriendManagerPlugin.cs:84-96 | the loop returns `"false"` if any entry failed or the list is empty, and otherwise the Steam id of the last entry |
| `Command.AggregateOfSuccessesIsSteamId` | ASFFriendManager/ASFFriendManagerPlugin.cs:84-96 | when every entry is a success carrying a Steam id, the reply is a Steam id, never `"false"` and never empty |
| `Command.AggregateExamples` | ASFFriendManager/ASFFriendManagerPlugin.cs:87-96 | three results where the second fails give `"false"`; three successes give the id of the last entry |
| `Command.SteamIdReplyIsDistinct` | ASFFriendManager/ASFFriendManagerPlugin.cs:72-96 | a Steam id reply never equals `"false"`, `"fail"`, `"bot names are empty"` or `"args count is wrong"` |
| `Command.FanOut` | ASFFriendManager/ASFFriendManagerPlugin.cs:86-96 | whatever the launch order: if any bot fails the reply is `"false"`, and if all succeed it is the Steam id of one of the bots |
| `Command.AddFriendForBots` | ASFFriendManager/ASFFriendManagerPlugin.cs:84-96 | with `AddToFriends` as every bot's attempt: if any bot fails the reply is `"false"`, and if all succeed it is a non-empty digit string, the id one of the bots resolved |
| `Command.OnBotCommand` | ASFFriendManager/ASFFriendManagerPlugin.cs:63-100 | a validation reply is returned as is; otherwise the reply is `"false"` when any selected bot's attempt fails, and when all succeed it is a non-empty digit string equal to the id one of the selected bots resolved |

## Left out

- The HTTP fetches (`UrlGetToHtmlDocumentWithSession`, with `maxTries: 2`) are host I/O. The model has an abstract `fetch` in their place: per bot, a function from URL to optional response.
- AngleSharp parsing and `QuerySelector` are a library. The page is reduced to the first `.persona_level_btn` element and its `href`.
- The cookie-container lookup is host state. The model takes the `sessionid` cookie as an optional string per bot.
- `Bot.GetBots` selector syntax belongs to the host. It is an abstract function from the selector to an optional set of bot names.
- `Utilities.InParallel` concurrency and `Task.Delay(5)` are scheduling and timing. Results form a sequence in launch order.
- `new Uri(...)` is .NET URI parsing. The model does not include the exception it throws on a malformed invite link, or its normalisation and escaping of either URL. An invite link is used as given, and the redemption URL is the plain interpolated string.
- Exceptions from the host are not modelled, for example an empty `args`. `Validate` and `OnBotCommand` require `args` to be non-empty, since the source reads `args[0]` unguarded.
- Logging is left out. `Attempt.failure` stands for which error line would be logged, not for its text.
- The lifecycle hooks are host plumbing or constant answers: `OnLoaded`, `OnBotInit`, `OnBotInitModules` (which pauses the bot), `OnBotDestroy`, `OnBotDisconnected`, `OnBotLoggedOn`, `OnBotFriendRequest`, `OnBotMessage` and `OnBotTradeOffer`.
- `Name`, the reflection-based `Version` and `CustomIsEnabledField` are metadata.
- Text.UpperInvariant: it upper-cases only the ASCII letters and keeps every other character. .NET upper-cases many non-ASCII characters (`é` becomes `É`), but the result is only compared with the all-ASCII command name. The only non-ASCII characters whose invariant upper case is an ASCII letter are the dotless i (U+0131) and the long s (U+017F). .NET keeps U+0131, and U+017F becomes at most `S`, a letter the name does not contain. So ASCII-only upper casing decides the name test exactly as .NET does (`DotlessIDoesNotSelectCommand`, `LongSNeverSelectsCommand`).
