/** `friendlyError` in renderer/renderer.js: turns the diagnostic text of a
    rejected download into one of ten fixed user-facing messages. */
module ErrorMessages {
  import opened Wrappers
  import opened JsStrings

  const UnknownError := "Unknown error occurred."
  const PrivateVideo := "This video is private."
  const Unavailable := "Video is unavailable or has been removed."
  const LoginRequired := "This content requires login to access."
  const ConnectionTimedOut := "Connection timed out. Check your internet."
  const NetworkError := "Network error. Check your internet connection."
  const UnsupportedUrl := "This URL or site is not supported."
  const DownloadTimedOut := "Download timed out after 10 minutes."
  const TooManyRequests := "Too many requests. Please wait and try again."
  const DownloadFailed := "Download failed. The video may be unavailable."

  /** The eight diagnostic markers and their messages, in the order the
      classifier tests them. */
  const Rules: seq<(string, string)> := [
    ("Private video", PrivateVideo),
    ("unavailable", Unavailable),
    ("Sign in", LoginRequired),
    ("ETIMEDOUT", ConnectionTimedOut),
    ("ENOTFOUND", NetworkError),
    ("Unsupported URL", UnsupportedUrl),
    ("timed out", DownloadTimedOut),
    ("429", TooManyRequests)
  ]

  /** Every message the classifier can produce. */
  const AllMessages: set<string> := {
    UnknownError, PrivateVideo, Unavailable, LoginRequired, ConnectionTimedOut,
    NetworkError, UnsupportedUrl, DownloadTimedOut, TooManyRequests, DownloadFailed
  }

  /** `friendlyError(msg)`: `msg` is `err.message`, which may be absent. */
  function FriendlyError(msg: Option<string>): (r: string)
    ensures r in AllMessages
  {
    if msg.None? || msg.value == "" then UnknownError
    else if Includes(msg.value, "Private video") then PrivateVideo
    else if Includes(msg.value, "unavailable") then Unavailable
    else if Includes(msg.value, "Sign in") then LoginRequired
    else if Includes(msg.value, "ETIMEDOUT") then ConnectionTimedOut
    else if Includes(msg.value, "ENOTFOUND") then NetworkError
    else if Includes(msg.value, "Unsupported URL") then UnsupportedUrl
    else if Includes(msg.value, "timed out") then DownloadTimedOut
    else if Includes(msg.value, "429") then TooManyRequests
    else DownloadFailed
  }

  // ------------------------------------------------ reference definition

  /** A first-match classifier driven by a rule table: the message of the first
      rule whose marker occurs in `m`, or `default` when none does. */
  function FirstMatch(m: string, rules: seq<(string, string)>, default: string): (r: string)
    ensures r == default || exists k :: 0 <= k < |rules| && r == rules[k].1
    decreases |rules|
  {
    if rules == [] then default
    else if Includes(m, rules[0].0) then rules[0].1
    else FirstMatch(m, rules[1..], default)
  }

  /** The rule messages are pairwise different and different from `default`. */
  predicate DistinctMessages(rules: seq<(string, string)>, default: string) {
    && (forall i :: 0 <= i < |rules| ==> rules[i].1 != default)
    && (forall i, j :: 0 <= i < j < |rules| ==> rules[i].1 != rules[j].1)
  }

  /** With distinct messages, rule `i`'s message is chosen exactly when its
      marker occurs and no earlier marker does. */
  lemma {:induction false} FirstMatchPicks(m: string, rules: seq<(string, string)>, default: string, i: nat)
    requires i < |rules| && DistinctMessages(rules, default)
    ensures FirstMatch(m, rules, default) == rules[i].1
        <==> Includes(m, rules[i].0) && forall j :: 0 <= j < i ==> !Includes(m, rules[j].0)
    decreases |rules|
  {
    if i == 0 {
      if !Includes(m, rules[0].0) {
        var r := FirstMatch(m, rules[1..], default);
        if r != default {
          var k :| 0 <= k < |rules[1..]| && r == rules[1..][k].1;
          assert rules[1..][k] == rules[k + 1];
        }
      }
    } else {
      var tail := rules[1..];
      assert DistinctMessages(tail, default) by {
        forall a, b | 0 <= a < b < |tail| ensures tail[a].1 != tail[b].1 {
          assert tail[a] == rules[a + 1] && tail[b] == rules[b + 1];
        }
      }
      FirstMatchPicks(m, tail, default, i - 1);
      assert tail[i - 1] == rules[i];
      if Includes(m, rules[0].0) {
        assert rules[0].1 != rules[i].1;
        assert !(forall j :: 0 <= j < i ==> !Includes(m, rules[j].0)) by {
          assert 0 <= 0 < i;
        }
      } else {
        assert FirstMatch(m, rules, default) == FirstMatch(m, tail, default);
        assert (forall j :: 0 <= j < i ==> !Includes(m, rules[j].0))
          <==> (forall j :: 0 <= j < i - 1 ==> !Includes(m, tail[j].0)) by {
          forall j | 0 < j < i ensures rules[j] == tail[j - 1] { }
        }
      }
    }
  }

  /** With distinct messages, `default` is chosen exactly when no marker occurs. */
  lemma {:induction false} FirstMatchDefault(m: string, rules: seq<(string, string)>, default: string)
    requires DistinctMessages(rules, default)
    ensures FirstMatch(m, rules, default) == default
        <==> forall j :: 0 <= j < |rules| ==> !Includes(m, rules[j].0)
    decreases |rules|
  {
    if rules != [] {
      var tail := rules[1..];
      assert DistinctMessages(tail, default) by {
        forall a, b | 0 <= a < b < |tail| ensures tail[a].1 != tail[b].1 {
          assert tail[a] == rules[a + 1] && tail[b] == rules[b + 1];
        }
      }
      FirstMatchDefault(m, tail, default);
      forall j | 0 < j < |rules| ensures rules[j] == tail[j - 1] { }
    }
  }

  lemma RulesDistinct()
    ensures DistinctMessages(Rules, DownloadFailed)
    ensures forall i :: 0 <= i < |Rules| ==> Rules[i].1 != UnknownError
  {
  }

  // ------------------------------------------------ properties of friendlyError

  lemma FirstMatchCons(m: string, rule: (string, string), rules: seq<(string, string)>, default: string)
    ensures FirstMatch(m, [rule] + rules, default)
         == if Includes(m, rule.0) then rule.1 else FirstMatch(m, rules, default)
  {
    assert ([rule] + rules)[1..] == rules;
  }

  /** The if-chain is the table-driven first-match classifier over `Rules`. */
  lemma FriendlyErrorIsFirstMatch(m: string)
    requires m != ""
    ensures FriendlyError(Some(m)) == FirstMatch(m, Rules, DownloadFailed)
  {
    var d := DownloadFailed;
    var r8: seq<(string, string)> := [("429", TooManyRequests)];
    var r7 := [("timed out", DownloadTimedOut)] + r8;
    var r6 := [("Unsupported URL", UnsupportedUrl)] + r7;
    var r5 := [("ENOTFOUND", NetworkError)] + r6;
    var r4 := [("ETIMEDOUT", ConnectionTimedOut)] + r5;
    var r3 := [("Sign in", LoginRequired)] + r4;
    var r2 := [("unavailable", Unavailable)] + r3;
    var r1 := [("Private video", PrivateVideo)] + r2;
    assert r1 == Rules;
    FirstMatchCons(m, ("429", TooManyRequests), [], d);
    assert [("429", TooManyRequests)] + [] == r8;
    FirstMatchCons(m, ("timed out", DownloadTimedOut), r8, d);
    FirstMatchCons(m, ("Unsupported URL", UnsupportedUrl), r7, d);
    FirstMatchCons(m, ("ENOTFOUND", NetworkError), r6, d);
    FirstMatchCons(m, ("ETIMEDOUT", ConnectionTimedOut), r5, d);
    FirstMatchCons(m, ("Sign in", LoginRequired), r4, d);
    FirstMatchCons(m, ("unavailable", Unavailable), r3, d);
    FirstMatchCons(m, ("Private video", PrivateVideo), r2, d);
  }

  /** An absent or empty message, and only such a message, gives the
      unknown-error message. */
  lemma FriendlyErrorUnknown(msg: Option<string>)
    ensures FriendlyError(msg) == UnknownError <==> msg == None || msg == Some("")
  {
  }

  /** First match wins: a non-empty message gets rule `i`'s message exactly when
      it contains rule `i`'s marker and none of the markers checked before it. */
  lemma FriendlyErrorPriority(m: string, i: nat)
    requires m != "" && i < |Rules|
    ensures FriendlyError(Some(m)) == Rules[i].1
        <==> Includes(m, Rules[i].0) && forall j :: 0 <= j < i ==> !Includes(m, Rules[j].0)
  {
    FriendlyErrorIsFirstMatch(m);
    RulesDistinct();
    FirstMatchPicks(m, Rules, DownloadFailed, i);
  }

  /** The generic failure message appears exactly when a message is present and
      contains none of the eight markers. */
  lemma FriendlyErrorGeneric(msg: Option<string>)
    ensures FriendlyError(msg) == DownloadFailed
        <==> msg.Some? && msg.value != "" && forall j :: 0 <= j < |Rules| ==> !Includes(msg.value, Rules[j].0)
  {
    if msg.Some? && msg.value != "" {
      FriendlyErrorIsFirstMatch(msg.value);
      RulesDistinct();
      FirstMatchDefault(msg.value, Rules, DownloadFailed);
    }
  }

  /** A diagnostic mentioning both a removed video and HTTP 429 is reported as
      unavailable, not as rate limiting, because the unavailable test comes first. */
  lemma UnavailableBeatsRateLimit()
    ensures FriendlyError(Some("video unavailable (error 429)")) == Unavailable
  {
    var m := "video unavailable (error 429)";
    assert forall k :: 0 <= k < 11 ==> m[6 + k] == "unavailable"[k];
    assert m[6..6 + |"unavailable"|] == "unavailable";
    IncludesAt(m, "unavailable", 6);
    assert forall k :: 0 <= k < 3 ==> m[25 + k] == "429"[k];
    assert m[25..25 + |"429"|] == "429";
    IncludesAt(m, "429", 25);
    assert 'P' !in m;
    NotIncludedWithoutFirstChar(m, "Private video");
  }
}
