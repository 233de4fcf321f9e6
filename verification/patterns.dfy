/** The two generated regular expressions of the plugin, written out as
    matchers over `seq<char>`:

      SteamIDRegex      ^https://steamcommunity\.com/profiles/([0-9]+)\/[a-zA-Z]+\/?
      InviteTokenRegex  ^https:\/\/s\.team\/p\/[a-zA-Z-]+\/([a-zA-Z]+)\/?

    Both have the same shape: anchored at the start only, a fixed prefix, a
    run of one class, a slash, a run of ASCII letters and an optional
    slash. Each class run is followed by a character outside its class, so
    backtracking never picks a shorter run: the greedy runs below are the
    maximal ones. */
module Patterns {
  import opened Wrappers
  import opened Text

  const ProfilePrefix: string := "https://steamcommunity.com/profiles/"
  const InvitePrefix: string := "https://s.team/p/"

  /** What `Regex.Match` returns, reduced to `Success` and the values of
      `Groups` (group 0 is the whole match, group 1 the capture). */
  datatype RegexMatch = RegexMatch(success: bool, groups: seq<string>)

  /** `Match.Empty`: the failed match, which carries only group 0. */
  const NoMatch: RegexMatch := RegexMatch(false, [""])

  /** The length of the optional trailing `\/?` at the start of `s`. */
  function OptionalSlash(s: string): (n: nat)
    ensures n <= |s|
  {
    if |s| > 0 && s[0] == '/' then 1 else 0
  }

  /** `\/?` tried at position `e` of `link` ends at `end`: it takes a
      slash when one is there, and nothing otherwise. */
  predicate OptionalSlashAt(link: string, e: nat, end: nat) {
    if e < |link| && link[e] == '/' then end == e + 1 else end == e
  }

  // ------------------------------------------------------ the common shape

  /** Where a successful match of `prefix`, `[cls]+`, `/`, `[a-zA-Z]+`, `\/?`
      puts its pieces: the lengths of the two runs and the end of the match. */
  datatype Spans = Spans(first: nat, second: nat, end: nat)

  /** `link` reads `prefix`, then `a` (a run of `cls`), a slash, then `b`
      (a run of letters that is not followed by another letter). */
  predicate Shaped(link: string, prefix: string, cls: CharClass, a: string, b: string) {
    var slash := |prefix| + |a|;
    var end := slash + 1 + |b|;
    && |a| > 0 && AllIn(a, cls)
    && |b| > 0 && AllIn(b, Letters)
    && HasAt(link, 0, prefix)
    && HasAt(link, |prefix|, a)
    && slash < |link| && link[slash] == '/'
    && HasAt(link, slash + 1, b)
    && (end < |link| ==> !IsAsciiLetter(link[end]))
  }

  /** The greedy left-to-right scan both patterns perform. */
  function Scan(link: string, prefix: string, cls: CharClass): (r: Option<Spans>)
    ensures r.Some? ==> 0 < r.value.first && 0 < r.value.second
    ensures r.Some? ==> |prefix| + r.value.first + 1 + r.value.second <= r.value.end <= |link|
  {
    if !HasAt(link, 0, prefix) then None
    else
      var rest := link[|prefix|..];
      var n := RunLength(rest, cls);
      if n == 0 || n == |rest| || rest[n] != '/' then None
      else
        var tail := rest[n + 1..];
        var t := RunLength(tail, Letters);
        if t == 0 then None
        else Some(Spans(n, t, |prefix| + n + 1 + t + OptionalSlash(tail[t..])))
  }

  /** The positions a successful scan reports, read back as runs. */
  lemma ScanSpans(link: string, prefix: string, cls: CharClass)
    requires Scan(link, prefix, cls).Some?
    ensures var sp := Scan(link, prefix, cls).value;
            && HasAt(link, 0, prefix)
            && sp.first == RunLength(link[|prefix|..], cls)
            && link[|prefix| + sp.first] == '/'
            && sp.second == RunLength(link[|prefix| + sp.first + 1..], Letters)
  {
    var p := |prefix|;
    var n := Scan(link, prefix, cls).value.first;
    assert link[p..][n + 1..] == link[p + n + 1..];
  }

  /** The runs a successful scan reports are runs of their classes. */
  lemma ScanRunsAreInClass(link: string, prefix: string, cls: CharClass)
    requires Scan(link, prefix, cls).Some?
    ensures var sp := Scan(link, prefix, cls).value;
            var start := |prefix| + sp.first + 1;
            && AllIn(link[|prefix|..|prefix| + sp.first], cls)
            && AllIn(link[start..start + sp.second], Letters)
  {
    var n := Scan(link, prefix, cls).value.first;
    ScanSpans(link, prefix, cls);
    var a := RunIsWord(link, |prefix|, cls);
    var b := RunIsWord(link, |prefix| + n + 1, Letters);
  }

  /** What a successful scan has read: the two runs, of the reported
      lengths, in a link of the right shape. */
  lemma ScanIsSound(link: string, prefix: string, cls: CharClass) returns (a: string, b: string)
    requires Scan(link, prefix, cls).Some?
    ensures |a| == Scan(link, prefix, cls).value.first
    ensures |b| == Scan(link, prefix, cls).value.second
    ensures Shaped(link, prefix, cls, a, b)
    ensures OptionalSlashAt(link, |prefix| + |a| + 1 + |b|, Scan(link, prefix, cls).value.end)
  {
    var sp := Scan(link, prefix, cls).value;
    ScanSpans(link, prefix, cls);
    a, b := RunsAreShaped(link, prefix, cls, sp.first, sp.second);
  }

  lemma RunsAreShaped(link: string, prefix: string, cls: CharClass, n: nat, t: nat) returns (a: string, b: string)
    requires HasAt(link, 0, prefix) && |prefix| < |link|
    requires n == RunLength(link[|prefix|..], cls) && 0 < n
    requires |prefix| + n < |link| && link[|prefix| + n] == '/'
    requires t == RunLength(link[|prefix| + n + 1..], Letters) && 0 < t
    ensures |a| == n && |b| == t
    ensures Shaped(link, prefix, cls, a, b)
  {
    a := RunIsWord(link, |prefix|, cls);
    b := RunIsWord(link, |prefix| + n + 1, Letters);
  }

  /** Every link of the right shape is scanned, with the runs it holds. */
  lemma ScanIsComplete(link: string, prefix: string, cls: CharClass, a: string, b: string)
    requires !InClass('/', cls)
    requires Shaped(link, prefix, cls, a, b)
    ensures Scan(link, prefix, cls).Some?
    ensures Scan(link, prefix, cls).value.first == |a|
    ensures Scan(link, prefix, cls).value.second == |b|
  {
    ShapedRuns(link, prefix, cls, a, b);
    assert link[|prefix|..][|a| + 1..] == link[|prefix| + |a| + 1..];
  }

  /** The runs of a link of the right shape are the maximal ones. */
  lemma ShapedRuns(link: string, prefix: string, cls: CharClass, a: string, b: string)
    requires !InClass('/', cls)
    requires Shaped(link, prefix, cls, a, b)
    ensures RunLength(link[|prefix|..], cls) == |a|
    ensures link[|prefix|..][|a|] == '/'
    ensures RunLength(link[|prefix| + |a| + 1..], Letters) == |b|
  {
    RunAt(link, |prefix|, a, cls);
    RunAt(link, |prefix| + |a| + 1, b, Letters);
  }

  /** Appending text that does not start with a letter keeps the shape. */
  lemma ShapedAfterAppend(link: string, suffix: string, prefix: string, cls: CharClass, a: string, b: string)
    requires Shaped(link, prefix, cls, a, b)
    requires |suffix| > 0 ==> !IsAsciiLetter(suffix[0])
    ensures Shaped(link + suffix, prefix, cls, a, b)
  {
    var slash := |prefix| + |a|;
    var end := slash + 1 + |b|;
    HasAtAfterAppend(link, suffix, 0, prefix);
    HasAtAfterAppend(link, suffix, |prefix|, a);
    HasAtAfterAppend(link, suffix, slash + 1, b);
    assert (link + suffix)[slash] == link[slash];
    if end < |link + suffix| {
      if end < |link| {
        assert (link + suffix)[end] == link[end];
      } else {
        assert (link + suffix)[end] == suffix[0];
      }
    }
  }

  // ---------------------------------------------------------------- profile

  /** `link` is a profile link whose id is `id`: the prefix, the digits
      of `id`, a slash, then at least one ASCII letter. */
  predicate IsProfileLinkFor(link: string, id: string) {
    var slash := |ProfilePrefix| + |id|;
    && IsNumericId(id)
    && HasAt(link, 0, ProfilePrefix)
    && HasAt(link, |ProfilePrefix|, id)
    && slash + 1 < |link|
    && link[slash] == '/'
    && IsAsciiLetter(link[slash + 1])
  }

  /** `SteamIDRegex().Match(link)`: group 1 is the run of digits. */
  function MatchSteamId(link: string): (m: RegexMatch)
    ensures m.success ==> |m.groups| == 2 && m.groups[0] <= link && |m.groups[0]| > |m.groups[1]| > 0
    ensures !m.success ==> m == NoMatch
  {
    match Scan(link, ProfilePrefix, Digits)
    case None => NoMatch
    case Some(sp) =>
      var p := |ProfilePrefix|;
      RegexMatch(true, [link[..sp.end], link[p..p + sp.first]])
  }

  /** Lines 221-228 of the plugin: match, give up when `!match.Success ||
      match.Groups.Count < 2`, else take group 1. */
  function ExtractSteamId(link: string): (r: Option<string>)
    ensures r.Some? ==> IsNumericId(r.value)
  {
    var m := MatchSteamId(link);
    if !m.success || |m.groups| < 2 then None
    else
      ScanRunsAreInClass(link, ProfilePrefix, Digits);
      Some(m.groups[1])
  }

  /** The extracted id is exactly the id `link` is a profile link for, and
      there is none when extraction fails. */
  lemma ExtractSteamIdIsCorrect(link: string)
    ensures ExtractSteamId(link).Some? ==> IsProfileLinkFor(link, ExtractSteamId(link).value)
    ensures forall id :: IsProfileLinkFor(link, id) ==> ExtractSteamId(link) == Some(id)
  {
    if ExtractSteamId(link).Some? {
      ProfileMatchIsSound(link);
    }
    forall id | IsProfileLinkFor(link, id)
      ensures ExtractSteamId(link) == Some(id)
    {
      ProfileLinkIsMatched(link, id);
    }
  }

  /** A successful match captures an id the link is the profile link of. */
  lemma ProfileMatchIsSound(link: string)
    requires MatchSteamId(link).success
    ensures IsProfileLinkFor(link, MatchSteamId(link).groups[1])
  {
    var id, letters := ScanIsSound(link, ProfilePrefix, Digits);
    assert link[|ProfilePrefix| + |id| + 1] == letters[0];
    assert MatchSteamId(link).groups[1] == id;
  }

  /** The whole match (group 0) of a profile link runs from its start over
      the prefix, the id, the slash and the letters, plus one more slash
      when one follows. */
  lemma ProfileWholeMatch(link: string) returns (letters: string)
    requires MatchSteamId(link).success
    ensures var m := MatchSteamId(link);
            && Shaped(link, ProfilePrefix, Digits, m.groups[1], letters)
            && m.groups[0] == link[..|m.groups[0]|]
            && OptionalSlashAt(link, |ProfilePrefix| + |m.groups[1]| + 1 + |letters|, |m.groups[0]|)
  {
    var id;
    id, letters := ScanIsSound(link, ProfilePrefix, Digits);
    assert MatchSteamId(link).groups[1] == id;
  }

  /** Every profile link is matched, and its id is captured. */
  lemma ProfileLinkIsMatched(link: string, id: string)
    requires IsProfileLinkFor(link, id)
    ensures MatchSteamId(link).success && MatchSteamId(link).groups[1] == id
  {
    var letters := ProfileLinkIsShaped(link, id);
    ScanIsComplete(link, ProfilePrefix, Digits, id, letters);
  }

  /** A profile link has the common shape, with the maximal run of letters
      after the id. */
  lemma ProfileLinkIsShaped(link: string, id: string) returns (letters: string)
    requires IsProfileLinkFor(link, id)
    ensures Shaped(link, ProfilePrefix, Digits, id, letters)
  {
    var slash := |ProfilePrefix| + |id|;
    letters := RunIsWord(link, slash + 1, Letters);
  }

  /** A link is the profile link of at most one id. */
  lemma ProfileIdIsUnique(link: string, a: string, b: string)
    requires IsProfileLinkFor(link, a) && IsProfileLinkFor(link, b)
    ensures a == b
  {
    ProfileLinkIsMatched(link, a);
    ProfileLinkIsMatched(link, b);
  }

  /** The profile pattern has no end anchor: any text appended to a
      matching profile link leaves the extracted id unchanged. */
  lemma SteamIdIgnoresAppendedText(link: string, suffix: string)
    requires ExtractSteamId(link).Some?
    ensures ExtractSteamId(link + suffix) == ExtractSteamId(link)
  {
    ProfileMatchIsSound(link);
    var id := ExtractSteamId(link).value;
    var p := |ProfilePrefix|;
    HasAtAfterAppend(link, suffix, 0, ProfilePrefix);
    HasAtAfterAppend(link, suffix, p, id);
    assert (link + suffix)[p + |id|] == link[p + |id|];
    assert (link + suffix)[p + |id| + 1] == link[p + |id| + 1];
    ProfileLinkIsMatched(link + suffix, id);
  }

  /** A link an id can be extracted from is never blank: it holds the
      digits of the id. */
  lemma SteamIdLinkIsNotBlank(link: string)
    requires ExtractSteamId(link).Some?
    ensures !IsNullOrWhiteSpace(Some(link))
  {
    ProfileMatchIsSound(link);
    var id := ExtractSteamId(link).value;
    assert link[|ProfilePrefix|] == link[|ProfilePrefix|..|ProfilePrefix| + |id|][0] == id[0];
  }

  // ----------------------------------------------------------------- invite

  /** `link` is an invite link with invite code `code` (letters and
      hyphens) and invite token `token`: the prefix, the code, a slash,
      then the token as a maximal run of ASCII letters. */
  predicate IsInviteLinkFor(link: string, code: string, token: string) {
    Shaped(link, InvitePrefix, LettersOrHyphen, code, token)
  }

  /** `InviteTokenRegex().Match(link)`: group 1 is the run of letters
      after the invite code. */
  function MatchInviteToken(link: string): (m: RegexMatch)
    ensures m.success ==> |m.groups| == 2 && m.groups[0] <= link && |m.groups[0]| > |m.groups[1]| > 0
    ensures !m.success ==> m == NoMatch
  {
    match Scan(link, InvitePrefix, LettersOrHyphen)
    case None => NoMatch
    case Some(sp) =>
      var start := |InvitePrefix| + sp.first + 1;
      RegexMatch(true, [link[..sp.end], link[start..start + sp.second]])
  }

  /** Lines 229-236 of the plugin: match, give up when `!Success ||
      Groups.Count < 2`, else take group 1. */
  function ExtractInviteToken(link: string): (r: Option<string>)
    ensures r.Some? ==> |r.value| > 0 && AllIn(r.value, Letters)
  {
    var m := MatchInviteToken(link);
    if !m.success || |m.groups| < 2 then None
    else
      ScanRunsAreInClass(link, InvitePrefix, LettersOrHyphen);
      Some(m.groups[1])
  }

  /** The extracted token is exactly the token of `link` as an invite link,
      and there is none when extraction fails. */
  lemma ExtractInviteTokenIsCorrect(link: string)
    ensures ExtractInviteToken(link).Some? ==> exists code :: IsInviteLinkFor(link, code, ExtractInviteToken(link).value)
    ensures forall code, token :: IsInviteLinkFor(link, code, token) ==> ExtractInviteToken(link) == Some(token)
  {
    if ExtractInviteToken(link).Some? {
      var code := InviteMatchIsSound(link);
    }
    forall code, token | IsInviteLinkFor(link, code, token)
      ensures ExtractInviteToken(link) == Some(token)
    {
      InviteLinkIsMatched(link, code, token);
    }
  }

  /** A successful match captures the token of an invite link, whose
      invite code is returned. */
  lemma InviteMatchIsSound(link: string) returns (code: string)
    requires MatchInviteToken(link).success
    ensures IsInviteLinkFor(link, code, MatchInviteToken(link).groups[1])
  {
    var token;
    code, token := ScanIsSound(link, InvitePrefix, LettersOrHyphen);
    assert MatchInviteToken(link).groups[1] == token;
  }

  /** The whole match (group 0) of an invite link runs from its start over
      the prefix, the code, the slash and the token, plus one more slash
      when one follows. */
  lemma InviteWholeMatch(link: string) returns (code: string)
    requires MatchInviteToken(link).success
    ensures var m := MatchInviteToken(link);
            && IsInviteLinkFor(link, code, m.groups[1])
            && m.groups[0] == link[..|m.groups[0]|]
            && OptionalSlashAt(link, |InvitePrefix| + |code| + 1 + |m.groups[1]|, |m.groups[0]|)
  {
    var token;
    code, token := ScanIsSound(link, InvitePrefix, LettersOrHyphen);
    assert MatchInviteToken(link).groups[1] == token;
  }

  /** Every invite link is matched, and its token is captured. */
  lemma InviteLinkIsMatched(link: string, code: string, token: string)
    requires IsInviteLinkFor(link, code, token)
    ensures MatchInviteToken(link).success && MatchInviteToken(link).groups[1] == token
  {
    ScanIsComplete(link, InvitePrefix, LettersOrHyphen, code, token);
  }

  /** A link carries at most one invite token. */
  lemma InviteTokenIsUnique(link: string, c1: string, t1: string, c2: string, t2: string)
    requires IsInviteLinkFor(link, c1, t1) && IsInviteLinkFor(link, c2, t2)
    ensures t1 == t2
  {
    InviteLinkIsMatched(link, c1, t1);
    InviteLinkIsMatched(link, c2, t2);
  }

  /** The invite pattern has no end anchor: appending text that does not
      start with an ASCII letter leaves the extracted token unchanged. */
  lemma InviteTokenIgnoresAppendedText(link: string, suffix: string)
    requires ExtractInviteToken(link).Some?
    requires |suffix| > 0 ==> !IsAsciiLetter(suffix[0])
    ensures ExtractInviteToken(link + suffix) == ExtractInviteToken(link)
  {
    var code := InviteMatchIsSound(link);
    var token := ExtractInviteToken(link).value;
    ShapedAfterAppend(link, suffix, InvitePrefix, LettersOrHyphen, code, token);
    InviteLinkIsMatched(link + suffix, code, token);
  }

  /** The restriction above is needed: a letter appended right after the
      token becomes part of it. */
  lemma AppendedLetterExtendsInviteToken()
    ensures ExtractInviteToken("https://s.team/p/ab/X") == Some("X")
    ensures ExtractInviteToken("https://s.team/p/ab/X" + "y") == Some("Xy")
  {
    var short := "https://s.team/p/ab/X";
    var long := short + "y";
    var p := |InvitePrefix|;
    assert short[0..p] == InvitePrefix;
    assert long[0..p] == InvitePrefix;
    assert short[p..p + 2] == "ab";
    assert long[p..p + 2] == "ab";
    assert short[p + 3..p + 4] == "X";
    assert long[p + 3..p + 5] == "Xy";
    InviteLinkIsMatched(short, "ab", "X");
    InviteLinkIsMatched(long, "ab", "Xy");
  }
}
