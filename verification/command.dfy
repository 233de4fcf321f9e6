/** `OnBotCommand`: recognise `ADDFRIENDBYINVITE <bots> <inviteLink>`,
    check the caller's access and the arguments, run `AddToFriends` for
    every selected bot, and fold the per-bot results into one reply. */
module Command {
  import opened Wrappers
  import opened Text
  import opened Friends

  /** ASF's `EAccess`, in increasing order of privilege (`NoAccess` is
      `EAccess.None`). */
  datatype Access = NoAccess | FamilySharing | Operator | Master | Owner

  function Level(a: Access): nat {
    match a
    case NoAccess => 0
    case FamilySharing => 1
    case Operator => 2
    case Master => 3
    case Owner => 4
  }

  const CommandName: string := "ADDFRIENDBYINVITE"

  const ArgsCountIsWrong: string := "args count is wrong"
  const BotNamesAreEmpty: string := "bot names are empty"
  const NoBotsFound: string := "fail"
  const Failed: string := "false"

  /** `args[0].ToUpperInvariant()` selects the `ADDFRIENDBYINVITE` case. */
  predicate IsAddFriendCommand(word: string) {
    ToUpperInvariant(word) == CommandName
  }

  /** What the validation part of the command decides: reply at once
      (`None` is the null reply that lets ASF report an unknown command),
      or go on with a set of bots and an invite link. */
  datatype Decision = Reply(text: Option<string>) | Dispatch(bots: set<string>, inviteLink: string)

  /** Lines 67-83 and 97-98 of the plugin. `getBots` stands for
      `Bot.GetBots`, which resolves a bot-name selector to a possibly-null
      set of bots (named here by their unique names). `args` is never empty
      when ASF calls the plugin; the source indexes `args[0]` unguarded. */
  function Validate(access: Access, args: seq<string>, getBots: string -> Option<set<string>>): (d: Decision)
    requires |args| >= 1
    ensures d == Reply(None) <==> !IsAddFriendCommand(args[0]) || Level(access) < Level(FamilySharing)
    ensures d == Reply(Some(ArgsCountIsWrong)) <==>
              IsAddFriendCommand(args[0]) && Level(access) >= Level(FamilySharing) && |args| < 3
    ensures d == Reply(Some(BotNamesAreEmpty)) <==>
              IsAddFriendCommand(args[0]) && Level(access) >= Level(FamilySharing) && |args| >= 3 && args[1] == ""
    ensures d == Reply(Some(NoBotsFound)) <==>
              IsAddFriendCommand(args[0]) && Level(access) >= Level(FamilySharing) && |args| >= 3 && args[1] != ""
              && (getBots(args[1]).None? || getBots(args[1]).value == {})
    ensures d.Dispatch? <==>
              && IsAddFriendCommand(args[0]) && Level(access) >= Level(FamilySharing)
              && |args| >= 3 && args[1] != ""
              && getBots(args[1]).Some? && getBots(args[1]).value != {}
    ensures d.Dispatch? ==>
              && |args| >= 3 && args[1] != ""
              && getBots(args[1]) == Some(d.bots) && d.bots != {}
              && d.inviteLink == args[2]
  {
    if !(IsAddFriendCommand(args[0]) && Level(access) >= Level(FamilySharing)) then Reply(None)
    else if |args| < 3 then Reply(Some(ArgsCountIsWrong))
    else
      var botNames := args[1];
      if IsNullOrEmpty(Some(botNames)) then Reply(Some(BotNamesAreEmpty))
      else
        var bots := getBots(botNames);
        if bots.None? || |bots.value| == 0 then Reply(Some(NoBotsFound))
        else Dispatch(bots.value, args[2])
  }

  // ------------------------------------------------------------- the fan-out

  /** One entry of the `(bool success, string steamID)` result list. */
  datatype FriendResult = FriendResult(success: bool, steamId: string)

  /** The attempt of one bot, with that bot's view of the network and of
      its own `sessionid` cookie. */
  function BotAttempt(bot: string, inviteLink: string, fetch: string -> string -> Option<HtmlResponse>,
                      cookies: string -> Option<string>): Attempt
  {
    AddToFriends(inviteLink, fetch(bot), cookies(bot))
  }

  /** The `(bool, string)` pair `AddToFriends` returns for an attempt. */
  function ResultOf(a: Attempt): FriendResult {
    FriendResult(a.success, a.steamId)
  }

  /** The order in which `bots.Select(...)` launches the attempts: the
      enumeration order of the bot set, which the model leaves open. */
  method LaunchOrder(bots: set<string>) returns (order: seq<string>)
    ensures |order| == |bots|
    ensures forall b :: b in order <==> b in bots
    ensures forall i, j :: 0 <= i < j < |order| ==> order[i] != order[j]
  {
    order := [];
    var rest := bots;
    while rest != {}
      invariant rest <= bots
      invariant forall b :: b in order <==> b in bots && b !in rest
      invariant forall i, j :: 0 <= i < j < |order| ==> order[i] != order[j]
      invariant |order| + |rest| == |bots|
      decreases |rest|
    {
      var b :| b in rest;
      order := order + [b];
      rest := rest - {b};
    }
  }

  /** The reply the result list calls for: `"false"` when any entry failed
      (or there is none), otherwise the Steam id of the last entry. */
  function AggregateReply(results: seq<FriendResult>): string {
    if exists i :: 0 <= i < |results| && !results[i].success then Failed
    else if |results| == 0 then Failed
    else results[|results| - 1].steamId
  }

  /** Lines 84-96 of the plugin: scan the results in launch order, keep
      the latest Steam id, and stop with `"false"` at the first failure. */
  method Aggregate(results: seq<FriendResult>) returns (reply: string)
    ensures reply == AggregateReply(results)
  {
    var friendSteamId := Failed;
    var i := 0;
    while i < |results|
      invariant 0 <= i <= |results|
      invariant forall j :: 0 <= j < i ==> results[j].success
      invariant friendSteamId == if i == 0 then Failed else results[i - 1].steamId
    {
      friendSteamId := results[i].steamId;
      if !results[i].success {
        return Failed;
      }
      i := i + 1;
    }
    reply := friendSteamId;
  }

  /** Lines 86-96 of the plugin for a set of bots, whatever the launch
      order: run `attempt` for every bot, then aggregate. The reply is
      `"false"` as soon as any bot fails, and otherwise the Steam id some
      bot resolved. */
  method FanOut(bots: set<string>, attempt: string -> FriendResult) returns (reply: string)
    requires bots != {}
    ensures (exists b :: b in bots && !attempt(b).success) ==> reply == Failed
    ensures (forall b :: b in bots ==> attempt(b).success) ==>
              exists b :: b in bots && reply == attempt(b).steamId
  {
    var order := LaunchOrder(bots);
    var results := seq(|order|, i requires 0 <= i < |order| => attempt(order[i]));
    reply := Aggregate(results);
    if exists b :: b in bots && !attempt(b).success {
      var b :| b in bots && !attempt(b).success;
      var i :| 0 <= i < |order| && order[i] == b;
      assert !results[i].success;
    } else {
      var last := order[|order| - 1];
      assert last in bots;
      assert forall i :: 0 <= i < |results| ==> results[i].success by {
        forall i | 0 <= i < |results|
          ensures results[i].success
        {
          assert order[i] in bots;
        }
      }
    }
  }

  /** Lines 84-96 of the plugin with `AddToFriends` as the attempt: every
      bot tries the invite link; the reply is `"false"` as soon as one
      fails, and otherwise the Steam id one of them resolved. */
  method AddFriendForBots(bots: set<string>, inviteLink: string, fetch: string -> string -> Option<HtmlResponse>,
                          cookies: string -> Option<string>)
    returns (reply: string)
    requires bots != {}
    ensures (exists b :: b in bots && !BotAttempt(b, inviteLink, fetch, cookies).success) ==> reply == Failed
    ensures (forall b :: b in bots ==> BotAttempt(b, inviteLink, fetch, cookies).success) ==>
              IsNumericId(reply) && exists b :: b in bots && reply == BotAttempt(b, inviteLink, fetch, cookies).steamId
  {
    var attempt := b => ResultOf(BotAttempt(b, inviteLink, fetch, cookies));
    reply := FanOut(bots, attempt);
    if forall b :: b in bots ==> BotAttempt(b, inviteLink, fetch, cookies).success {
      var b :| b in bots && reply == attempt(b).steamId;
      assert BotAttempt(b, inviteLink, fetch, cookies).success;
    }
  }

  /** The whole command. `fetch(bot)(url)` is what a GET of `url` through
      `bot`'s web handler returns, `cookies(bot)` is `bot`'s `sessionid`
      cookie; `Bot.GetBots` is `getBots`. */
  method OnBotCommand(access: Access, args: seq<string>, getBots: string -> Option<set<string>>,
                      fetch: string -> string -> Option<HtmlResponse>, cookies: string -> Option<string>)
    returns (reply: Option<string>)
    requires |args| >= 1
    ensures Validate(access, args, getBots).Reply? ==> reply == Validate(access, args, getBots).text
    ensures Validate(access, args, getBots).Dispatch? ==>
              var d := Validate(access, args, getBots);
              (exists b :: b in d.bots && !BotAttempt(b, d.inviteLink, fetch, cookies).success) ==> reply == Some(Failed)
    ensures Validate(access, args, getBots).Dispatch? ==>
              var d := Validate(access, args, getBots);
              (forall b :: b in d.bots ==> BotAttempt(b, d.inviteLink, fetch, cookies).success) ==>
                reply.Some? && IsNumericId(reply.value)
                && exists b :: b in d.bots && reply.value == BotAttempt(b, d.inviteLink, fetch, cookies).steamId
  {
    var decision := Validate(access, args, getBots);
    if decision.Reply? {
      return decision.text;
    }
    var text := AddFriendForBots(decision.bots, decision.inviteLink, fetch, cookies);
    reply := Some(text);
  }

  // ---------------------------------------------------------------- lemmas

  /** The characters `ToUpperInvariant` maps to the upper-case ASCII letter
      `u`: `u` itself and its lower-case form. */
  predicate SpellsLetter(c: char, u: char)
    requires 'A' <= u <= 'Z'
  {
    c == u || c == (u as int + 32) as char
  }

  lemma UpperInvariantOfLetter(c: char, u: char)
    requires 'A' <= u <= 'Z'
    ensures UpperInvariant(c) == u <==> SpellsLetter(c, u)
  {
  }

  /** The command name is matched case-insensitively: a word selects the
      command exactly when each of its characters spells the corresponding
      letter of `ADDFRIENDBYINVITE` in either case. */
  lemma CommandNameIgnoresCase(word: string)
    ensures IsAddFriendCommand(word) <==>
              |word| == |CommandName|
              && forall k :: 0 <= k < |word| ==> 'A' <= CommandName[k] <= 'Z' && SpellsLetter(word[k], CommandName[k])
  {
    assert forall k :: 0 <= k < |CommandName| ==> 'A' <= CommandName[k] <= 'Z';
    if |word| == |CommandName| {
      forall k | 0 <= k < |word|
        ensures UpperInvariant(word[k]) == CommandName[k] <==> SpellsLetter(word[k], CommandName[k])
      {
        UpperInvariantOfLetter(word[k], CommandName[k]);
      }
      if forall k :: 0 <= k < |word| ==> SpellsLetter(word[k], CommandName[k]) {
        assert ToUpperInvariant(word) == CommandName;
      }
    }
  }

  /** A successful reply is a Steam id, which none of the fixed replies
      is: the caller can always tell them apart. */
  lemma SteamIdReplyIsDistinct(s: string)
    requires IsNumericId(s)
    ensures s != Failed && s != NoBotsFound && s != BotNamesAreEmpty && s != ArgsCountIsWrong
  {
    assert Failed[0] == 'f' && NoBotsFound[0] == 'f';
    assert BotNamesAreEmpty[0] == 'b' && ArgsCountIsWrong[0] == 'a';
  }

  /** When every entry comes from a successful attempt, the aggregated reply
      is a Steam id: never `"false"` and never empty. */
  lemma AggregateOfSuccessesIsSteamId(results: seq<FriendResult>)
    requires |results| > 0
    requires forall i :: 0 <= i < |results| ==> results[i].success && IsNumericId(results[i].steamId)
    ensures IsNumericId(AggregateReply(results))
    ensures AggregateReply(results) != Failed && AggregateReply(results) != ""
  {
    SteamIdReplyIsDistinct(AggregateReply(results));
  }

  /** The fan-out examples: three bots where the second fails give
      `"false"`; three successes give the id of the last entry, whichever
      bot that was. */
  lemma AggregateExamples()
    ensures AggregateReply([FriendResult(true, "1"), FriendResult(false, ""), FriendResult(true, "3")]) == Failed
    ensures AggregateReply([FriendResult(true, "1"), FriendResult(true, "2"), FriendResult(true, "3")]) == "3"
  {
    var mixed := [FriendResult(true, "1"), FriendResult(false, ""), FriendResult(true, "3")];
    assert !mixed[1].success;
  }

  /** The command name in lower case selects the command. */
  lemma LowerCaseSelectsCommand()
    ensures IsAddFriendCommand("addfriendbyinvite")
  {
    var word := "addfriendbyinvite";
    assert forall k :: 0 <= k < |word| ==> UpperInvariant(word[k]) == CommandName[k];
  }

  /** A dotless i (U+0131) in place of an `i` does not select the command:
      invariant upper casing keeps it. */
  lemma DotlessIDoesNotSelectCommand()
    ensures !IsAddFriendCommand("ADDFR\U{131}ENDBYINVITE")
  {
    var word := "ADDFR\U{131}ENDBYINVITE";
    assert ToUpperInvariant(word)[5] == '\U{131}' != CommandName[5];
  }

  /** A word holding a long s (U+017F) never selects the command, whatever
      its upper case: the name has no `S`. */
  lemma LongSNeverSelectsCommand(word: string, k: nat)
    requires k < |word| && word[k] == '\U{17F}'
    ensures !IsAddFriendCommand(word)
  {
    if |word| == |CommandName| {
      assert ToUpperInvariant(word)[k] == '\U{17F}';
      assert forall j :: 0 <= j < |CommandName| ==> CommandName[j] != '\U{17F}';
    }
  }

  /** A command with only two tokens is answered with `"args count is wrong"`. */
  lemma ValidateTooFewArgsExample(getBots: string -> Option<set<string>>)
    ensures Validate(Operator, ["addfriendbyinvite", "bot1"], getBots) == Reply(Some(ArgsCountIsWrong))
  {
    LowerCaseSelectsCommand();
  }

  /** A selector that names no bot is answered with `"fail"`. */
  lemma ValidateNoBotsExample(getBots: string -> Option<set<string>>)
    requires getBots("nobody") == Some({})
    ensures Validate(Operator, ["ADDFRIENDBYINVITE", "nobody", "https://s.team/p/ab/X"], getBots) == Reply(Some(NoBotsFound))
  {
    CommandNameIgnoresCase(CommandName);
  }

  /** Below `FamilySharing` the command is not recognised at all. */
  lemma ValidateNoAccessExample(getBots: string -> Option<set<string>>)
    ensures Validate(NoAccess, ["ADDFRIENDBYINVITE", "bot1", "https://s.team/p/ab/X"], getBots) == Reply(None)
  {
  }
}
