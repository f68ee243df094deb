/** The request rules of the Flask server (src/app.py): user-agent
    classification, the routing of the front page, and the validation of
    the statistics endpoint's bounds. */
module WebApp {
  import opened Wrappers
  import opened Database

  predicate StartsWith(s: string, prefix: string)
  {
    |prefix| <= |s| && s[..|prefix|] == prefix
  }

  /** Python's `sub in s` on strings. */
  predicate Contains(s: string, sub: string)
  {
    StartsWith(s, sub) || (|s| > 0 && Contains(s[1..], sub))
  }

  /** `sub in s` holds exactly when sub occurs at some position of s. */
  lemma {:induction false} ContainsAt(s: string, sub: string, i: nat)
    requires i + |sub| <= |s| && s[i..i + |sub|] == sub
    ensures Contains(s, sub)
  {
    if i > 0 {
      assert s[1..][i - 1..i - 1 + |sub|] == s[i..i + |sub|];
      ContainsAt(s[1..], sub, i - 1);
    } else {
      assert s[..|sub|] == s[0..|sub|];
    }
  }

  /** A string lacking one of the letters of sub does not contain it. */
  lemma {:induction false} NotContains(s: string, sub: string, j: nat)
    requires j < |sub| && forall i :: 0 <= i < |s| ==> s[i] != sub[j]
    ensures !Contains(s, sub)
  {
    if |sub| <= |s| {
      assert s[..|sub|][j] == s[j];
    }
    if |s| > 0 {
      NotContains(s[1..], sub, j);
    }
  }

  lemma {:induction false} ContainsShorter(s: string, sub: string)
    requires |s| < |sub|
    ensures !Contains(s, sub)
  {
    if |s| > 0 {
      ContainsShorter(s[1..], sub);
    }
  }

  const IPAD: string := "iPad"
  const MOBILE_PATTERNS: seq<string> := ["Mobile", "Android", "iPhone", "iPod", "BlackBerry", "Windows Phone"]

  /** `any(pattern in ua for pattern in patterns)`. */
  function AnyContained(ua: string, patterns: seq<string>): (r: bool)
    ensures r <==> exists k :: 0 <= k < |patterns| && Contains(ua, patterns[k])
  {
    if patterns == [] then false
    else Contains(ua, patterns[0]) || AnyContained(ua, patterns[1..])
  }

  /** The User-Agent header, "" when it is missing. */
  function UserAgent(header: Option<string>): string
  {
    if header.Some? then header.value else ""
  }

  /** is_mobile_user_agent; iPads get the desktop page. */
  function IsMobileUserAgent(header: Option<string>): bool
  {
    var ua := UserAgent(header);
    if Contains(ua, IPAD) then false else AnyContained(ua, MOBILE_PATTERNS)
  }

  /** A user agent is mobile exactly when it does not mention iPad and
      mentions one of the mobile patterns; without the header it is not. */
  lemma IsMobileUserAgentSpec(header: Option<string>)
    ensures IsMobileUserAgent(header) <==>
              !Contains(UserAgent(header), IPAD)
              && exists k :: 0 <= k < |MOBILE_PATTERNS| && Contains(UserAgent(header), MOBILE_PATTERNS[k])
    ensures header.None? ==> !IsMobileUserAgent(header)
  {
    if header.None? {
      forall k | 0 <= k < |MOBILE_PATTERNS|
        ensures !Contains("", MOBILE_PATTERNS[k])
      {
        ContainsShorter("", MOBILE_PATTERNS[k]);
      }
    }
  }

  lemma ContainsMiddle(a: string, b: string, c: string)
    ensures Contains(a + b + c, b)
  {
    assert (a + b + c)[|a|..|a| + |b|] == b;
    ContainsAt(a + b + c, b, |a|);
  }

  /** Whatever else it says ("Mobile" included), a user agent that
      mentions iPad is not mobile. */
  lemma IPadIsNeverMobile(before: string, after: string)
    ensures !IsMobileUserAgent(Some(before + IPAD + after))
  {
    ContainsMiddle(before, IPAD, after);
  }

  /** Any mention of a mobile pattern without iPad is mobile. */
  lemma PatternIsMobile(before: string, k: nat, after: string)
    requires k < |MOBILE_PATTERNS|
    requires !Contains(before + MOBILE_PATTERNS[k] + after, IPAD)
    ensures IsMobileUserAgent(Some(before + MOBILE_PATTERNS[k] + after))
  {
    ContainsMiddle(before, MOBILE_PATTERNS[k], after);
  }

  datatype Page = Redirect(location: string) | StaticFile(name: string)

  /** The front page: mobile browsers are sent to /mobile. */
  function Index(header: Option<string>): (p: Page)
    ensures p == Redirect("/mobile") <==> IsMobileUserAgent(header)
    ensures !IsMobileUserAgent(header) ==> p == StaticFile("index.html")
  {
    if IsMobileUserAgent(header) then Redirect("/mobile") else StaticFile("index.html")
  }

  /** The statistics endpoint's answer: 400 with an error, or the bounds in
      milliseconds and the statistics. */
  datatype StatsResponse = BadRequest(error: string) | StatsOk(startMs: int, endMs: int, stats: DbStats)

  function Status(r: StatsResponse): int
  {
    if r.BadRequest? then 400 else 200
  }

  /** api_stats; a bound that is missing or does not parse is None. */
  function ApiStats(rows: seq<DbRow>, start: Option<int>, end: Option<int>): StatsResponse
  {
    if start.None? || end.None? then BadRequest("start and end are required")
    else
      var s, e := start.value, end.value;
      var s', e' := if e < s then e else s, if e < s then s else e;
      StatsOk(MsOf(s'), MsOf(e'), GetStats(rows, s', e'))
  }

  /** Status 400 exactly when a bound is missing; otherwise the statistics
      are those of the window from the smaller to the larger bound, so that
      swapping the arguments changes nothing. */
  lemma ApiStatsSpec(rows: seq<DbRow>, start: Option<int>, end: Option<int>)
    ensures Status(ApiStats(rows, start, end)) == 400 <==> start.None? || end.None?
    ensures start.Some? && end.Some? ==>
              var lo := if start.value <= end.value then start.value else end.value;
              var hi := if start.value <= end.value then end.value else start.value;
              && lo <= hi
              && ApiStats(rows, start, end) == StatsOk(MsOf(lo), MsOf(hi), GetStats(rows, lo, hi))
              && ApiStats(rows, start, end).startMs <= ApiStats(rows, start, end).endMs
    ensures ApiStats(rows, start, end) == ApiStats(rows, end, start)
  {
    if start.Some? && end.Some? {
      var lo := if start.value <= end.value then start.value else end.value;
      var hi := if start.value <= end.value then end.value else start.value;
      MsOfMonotone(lo, hi);
    }
  }
}
