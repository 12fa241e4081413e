/**
 * The gate `openChat` puts in front of every state change: the typed text is
 * trimmed, lower-cased and matched against `^[a-z0-9_]+$` (case-insensitive),
 * and the popout chat URL is built from the accepted name.
 * Trimming and lower-casing are modelled on ASCII.
 */
module ChannelName {
  import opened Wrappers

  /** ASCII whitespace and line terminators, as `String.prototype.trim` strips them. */
  predicate IsSpace(ch: char)
  {
    ch == ' ' || ch == '\t' || ch == '\n' || ch == '\r' || ch == '\U{B}' || ch == '\U{C}'
  }

  predicate AllSpace(s: string)
  {
    forall i :: 0 <= i < |s| ==> IsSpace(s[i])
  }

  /** Leading whitespace removed: a suffix of `s` that does not start with whitespace. */
  function TrimStart(s: string): (r: string)
    ensures |r| <= |s| && r == s[|s| - |r|..]
    ensures AllSpace(s[..|s| - |r|])
    ensures r == [] || !IsSpace(r[0])
  {
    if s != [] && IsSpace(s[0]) then TrimStart(s[1..]) else s
  }

  /** Trailing whitespace removed: a prefix of `s` that does not end with whitespace. */
  function TrimEnd(s: string): (r: string)
    ensures |r| <= |s| && r == s[..|r|]
    ensures AllSpace(s[|r|..])
    ensures r == [] || !IsSpace(r[|r| - 1])
  {
    if s != [] && IsSpace(s[|s| - 1]) then
      var r := TrimEnd(s[..|s| - 1]);
      SpacesExtendRight(s, |r|);
      r
    else s
  }

  lemma SpacesExtendRight(s: string, k: nat)
    requires k < |s| && IsSpace(s[|s| - 1]) && AllSpace(s[..|s| - 1][k..])
    ensures AllSpace(s[k..])
  {
    forall i | k <= i < |s| - 1 ensures IsSpace(s[i]) {
      assert s[..|s| - 1][k..][i - k] == s[i];
    }
  }

  /** `s.trim()`: nothing is left exactly when `s` is all whitespace. */
  function Trim(s: string): (r: string)
    ensures r == [] <==> AllSpace(s)
    ensures r == [] || (!IsSpace(r[0]) && !IsSpace(r[|r| - 1]))
  {
    TrimEnd(TrimStart(s))
  }

  /** ASCII `toLowerCase` of one character. */
  function LowerChar(ch: char): char
  {
    if 'A' <= ch <= 'Z' then (ch as int + 32) as char else ch
  }

  /** `s.toLowerCase()` on ASCII: same length, every upper-case letter lowered, nothing else touched. */
  function Lower(s: string): (r: string)
    ensures |r| == |s|
    ensures forall i :: 0 <= i < |r| ==> !('A' <= r[i] <= 'Z')
    ensures forall i :: 0 <= i < |s| && !('A' <= s[i] <= 'Z') ==> r[i] == s[i]
    ensures forall i :: 0 <= i < |s| && 'A' <= s[i] <= 'Z' ==>
              'a' <= r[i] <= 'z' && r[i] as int - s[i] as int == 'a' as int - 'A' as int
  {
    seq(|s|, i requires 0 <= i < |s| => LowerChar(s[i]))
  }

  /** One character of the class `[a-z0-9_]` under the `i` flag. */
  predicate IsNameChar(ch: char)
  {
    'a' <= ch <= 'z' || 'A' <= ch <= 'Z' || '0' <= ch <= '9' || ch == '_'
  }

  /** `/^[a-z0-9_]+$/i.test(s)` */
  predicate MatchesChannelPattern(s: string)
  {
    |s| > 0 && forall i :: 0 <= i < |s| ==> IsNameChar(s[i])
  }

  /** A name as `openChat` stores it: non-empty, only `a-z`, digits and `_`. */
  predicate IsNormalName(s: string)
  {
    |s| > 0 && forall i :: 0 <= i < |s| ==> ('a' <= s[i] <= 'z' || '0' <= s[i] <= '9' || s[i] == '_')
  }

  /** Why `openChat` turns the input down: nothing left after trimming, or a character outside the class. */
  datatype Rejection = EmptyInput | InvalidName

  /** The validation steps of `openChat`, in their order. */
  function Validate(input: string): (r: Result<string, Rejection>)
    ensures r == Failure(EmptyInput) <==> AllSpace(input)
    ensures r.Success? ==> IsNormalName(r.value)
  {
    var channel := Lower(Trim(input));
    LowerKeepsClass(Trim(input));
    if channel == [] then Failure(EmptyInput)
    else if !MatchesChannelPattern(channel) then Failure(InvalidName)
    else Success(channel)
  }

  const PopoutPrefix: string := "https://www.twitch.tv/popout/"
  const ChatPath: string := "/chat?popout="
  const DarkPopout: string := "&darkpopout"

  /** The navigation target built at the end of `openChat`. */
  function PopoutUrl(channel: string, theme: string): string
  {
    PopoutPrefix + channel + ChatPath + (if theme == "dark" then DarkPopout else "")
  }

  /** Everything before the first `/`. */
  function UpToSlash(s: string): (r: string)
    ensures |r| <= |s| && r == s[..|r|]
    ensures '/' !in r
  {
    if s == [] || s[0] == '/' then [] else [s[0]] + UpToSlash(s[1..])
  }

  /** Reads the channel back out of a popout URL, if it is one: the inverse the URL is checked against (the script itself never reads a URL). */
  function ChannelOfUrl(url: string): Option<string>
  {
    if |url| >= |PopoutPrefix| && url[..|PopoutPrefix|] == PopoutPrefix
    then Some(UpToSlash(url[|PopoutPrefix|..]))
    else None
  }

  /** Whether a URL asks for the dark popout. */
  predicate IsDarkUrl(url: string)
  {
    |url| >= |DarkPopout| && url[|url| - |DarkPopout|..] == DarkPopout
  }

  /** Lower-casing an already lower-cased text changes nothing. */
  lemma LowerIdempotent(s: string)
    ensures Lower(Lower(s)) == Lower(s)
  {
    var r := Lower(s);
    assert forall i :: 0 <= i < |r| ==> Lower(r)[i] == r[i];
  }

  /** Lower-casing keeps every character in or out of the name class and of whitespace. */
  lemma LowerKeepsClass(s: string)
    ensures MatchesChannelPattern(Lower(s)) <==> MatchesChannelPattern(s)
    ensures MatchesChannelPattern(s) ==> IsNormalName(Lower(s))
  {
    forall i | 0 <= i < |s| ensures IsNameChar(Lower(s)[i]) <==> IsNameChar(s[i]) {
      LowerCharKeepsClass(s[i]);
    }
    if MatchesChannelPattern(s) {
      forall i | 0 <= i < |s|
        ensures 'a' <= Lower(s)[i] <= 'z' || '0' <= Lower(s)[i] <= '9' || Lower(s)[i] == '_'
      {
        LowerCharKeepsClass(s[i]);
      }
    }
  }

  lemma LowerCharKeepsClass(ch: char)
    ensures IsNameChar(LowerChar(ch)) <==> IsNameChar(ch)
    ensures IsSpace(LowerChar(ch)) <==> IsSpace(ch)
    ensures IsNameChar(ch) ==> ('a' <= LowerChar(ch) <= 'z' || '0' <= LowerChar(ch) <= '9' || LowerChar(ch) == '_')
  {
  }

  /** Trimming a name with only whitespace around it gives the name back. */
  lemma TrimPadded(before: string, name: string, after: string)
    requires AllSpace(before) && AllSpace(after)
    requires name != [] && !IsSpace(name[0]) && !IsSpace(name[|name| - 1])
    ensures Trim(before + name + after) == name
  {
    var s := before + name + after;
    TrimStartPadded(before, name + after);
    assert s == before + (name + after);
    TrimEndPadded(name, after);
  }

  lemma {:induction false} TrimStartPadded(before: string, rest: string)
    requires AllSpace(before)
    requires rest != [] && !IsSpace(rest[0])
    ensures TrimStart(before + rest) == rest
    decreases |before|
  {
    if before != [] {
      var s := before + rest;
      assert s[0] == before[0] && s[1..] == before[1..] + rest;
      assert TrimStart(s) == TrimStart(s[1..]);
      TrimStartPadded(before[1..], rest);
    } else {
      assert before + rest == rest;
    }
  }

  lemma {:induction false} TrimEndPadded(rest: string, after: string)
    requires AllSpace(after)
    requires rest != [] && !IsSpace(rest[|rest| - 1])
    ensures TrimEnd(rest + after) == rest
    decreases |after|
  {
    if after != [] {
      var s := rest + after;
      assert s[..|s| - 1] == rest + after[..|after| - 1];
      TrimEndPadded(rest, after[..|after| - 1]);
    } else {
      assert rest + after == rest;
    }
  }

  /**
   * Completeness: a name of `[A-Za-z0-9_]` with whitespace around it is
   * accepted, and what is kept is the name lower-cased.
   */
  lemma ValidateAcceptsPadded(before: string, name: string, after: string)
    requires AllSpace(before) && AllSpace(after)
    requires MatchesChannelPattern(name)
    ensures Validate(before + name + after) == Success(Lower(name))
  {
    LowerCharKeepsClass(name[0]);
    LowerCharKeepsClass(name[|name| - 1]);
    TrimPadded(before, name, after);
    forall i | 0 <= i < |name| ensures IsNameChar(Lower(name)[i]) {
      LowerCharKeepsClass(name[i]);
    }
  }

  /** Where the trimmed text sits in the input: everything around it is whitespace. */
  lemma TrimBounds(input: string) returns (start: nat, end: nat)
    ensures start <= end <= |input| && input[start..end] == Trim(input)
    ensures AllSpace(input[..start]) && AllSpace(input[end..])
  {
    start, end := InfixBounds(input, TrimStart(input), Trim(input));
  }

  /** A prefix of a suffix of `input`, with whitespace around it, located in `input`. */
  lemma InfixBounds(input: string, t: string, r: string) returns (start: nat, end: nat)
    requires |t| <= |input| && t == input[|input| - |t|..] && AllSpace(input[..|input| - |t|])
    requires |r| <= |t| && r == t[..|r|] && AllSpace(t[|r|..])
    ensures start <= end <= |input| && input[start..end] == r
    ensures AllSpace(input[..start]) && AllSpace(input[end..])
  {
    start := |input| - |t|;
    end := start + |r|;
    assert input[end..] == t[|r|..];
  }

  /** Input whose trimmed text matches the pattern is whitespace around one run of name characters. */
  lemma TrimmedNameShape(input: string)
    requires MatchesChannelPattern(Trim(input))
    ensures forall i :: 0 <= i < |input| ==> IsSpace(input[i]) || IsNameChar(input[i])
    ensures forall i, j, k :: 0 <= i < j < k < |input| && !IsSpace(input[i]) && !IsSpace(input[k])
              ==> !IsSpace(input[j])
  {
    var start, end := TrimBounds(input);
    PaddedRunShape(input, start, end);
  }

  /** Whitespace, then a run of name characters, then whitespace: no space between two non-spaces. */
  lemma PaddedRunShape(input: string, start: nat, end: nat)
    requires start <= end <= |input|
    requires AllSpace(input[..start]) && AllSpace(input[end..])
    requires MatchesChannelPattern(input[start..end])
    ensures forall i :: 0 <= i < |input| ==> IsSpace(input[i]) || IsNameChar(input[i])
    ensures forall i, j, k :: 0 <= i < j < k < |input| && !IsSpace(input[i]) && !IsSpace(input[k])
              ==> !IsSpace(input[j])
  {
    forall i | 0 <= i < |input|
      ensures start <= i < end ==> IsNameChar(input[i]) && !IsSpace(input[i])
      ensures !(start <= i < end) ==> IsSpace(input[i])
    {
      if i < start {
        assert input[..start][i] == input[i];
      } else if i >= end {
        assert input[end..][i - end] == input[i];
      } else {
        assert input[start..end][i - start] == input[i];
      }
    }
  }

  /**
   * Soundness: accepted input is at most whitespace around one run of
   * `[A-Za-z0-9_]` characters, so any other character, or whitespace
   * between two non-blank characters, is rejected.
   */
  lemma ValidateAcceptsOnlyPadded(input: string)
    requires Validate(input).Success?
    ensures Validate(input).value == Lower(Trim(input))
    ensures forall i :: 0 <= i < |input| ==> IsSpace(input[i]) || IsNameChar(input[i])
    ensures forall i, j, k :: 0 <= i < j < k < |input| && !IsSpace(input[i]) && !IsSpace(input[k])
              ==> !IsSpace(input[j])
  {
    LowerKeepsClass(Trim(input));
    TrimmedNameShape(input);
  }

  /** A name already in the stored form passes the gate unchanged. */
  lemma ValidateNormal(name: string)
    requires IsNormalName(name)
    ensures Validate(name) == Success(name)
  {
    assert [] + name + [] == name;
    assert Lower(name) == name;
    ValidateAcceptsPadded([], name, []);
  }

  /** Re-validating an accepted name (a recent-channel button does this) accepts it unchanged. */
  lemma ValidateIdempotent(input: string)
    requires Validate(input).Success?
    ensures Validate(Validate(input).value) == Validate(input)
  {
    ValidateNormal(Validate(input).value);
  }

  /**
   * Names the gate lets through unchanged. The literals come in as parameters
   * pinned by `requires`, which keeps the solver from unfolding `Validate`
   * over constant strings.
   */
  lemma ValidateAcceptsExamples(shroud: string, user: string)
    requires shroud == "shroud" && user == "user_123"
    ensures Validate(shroud) == Success(shroud)
    ensures Validate(user) == Success(user)
  {
    assert IsNormalName(shroud) by {
      forall i | 0 <= i < |shroud| ensures 'a' <= shroud[i] <= 'z' { }
    }
    assert IsNormalName(user) by {
      forall i | 0 <= i < |user| ensures 'a' <= user[i] <= 'z' || '0' <= user[i] <= '9' || user[i] == '_' { }
    }
    ValidateNormal(shroud);
    ValidateNormal(user);
  }

  /** Input whose trimmed text holds a character outside the class is an invalid name. */
  lemma ValidateRejectsForeign(input: string, i: nat)
    requires i < |Trim(input)| && !IsNameChar(Trim(input)[i])
    ensures Validate(input) == Failure(InvalidName)
  {
    LowerKeepsClass(Trim(input));
  }

  /** A space inside the name is turned down (the literal is pinned as above). */
  lemma ValidateRejectsInnerSpace(spaced: string)
    requires spaced == "a b"
    ensures Validate(spaced) == Failure(InvalidName)
  {
    assert [] + spaced + [] == spaced;
    TrimPadded([], spaced, []);
    ValidateRejectsForeign(spaced, 1);
  }

  /** Nothing, or only whitespace, is reported as empty input. */
  lemma ValidateRejectsBlank()
    ensures Validate("") == Failure(EmptyInput)
    ensures Validate(" \t") == Failure(EmptyInput)
  {
  }

  lemma {:induction false} UpToSlashStops(name: string, rest: string)
    requires '/' !in name
    requires rest == [] || rest[0] == '/'
    ensures UpToSlash(name + rest) == name
  {
    if name == [] {
      assert name + rest == rest;
    } else {
      assert (name + rest)[1..] == name[1..] + rest;
      UpToSlashStops(name[1..], rest);
    }
  }

  lemma AppendParts(p: string, s: string)
    ensures (p + s)[..|p|] == p && (p + s)[|p|..] == s
  {
  }

  /** The channel reads back out of the URL it was put in. */
  lemma PopoutUrlRoundTrip(channel: string, theme: string)
    requires MatchesChannelPattern(channel)
    ensures ChannelOfUrl(PopoutUrl(channel, theme)) == Some(channel)
  {
    var tail := ChatPath + (if theme == "dark" then DarkPopout else "");
    assert PopoutUrl(channel, theme) == PopoutPrefix + (channel + tail);
    AppendParts(PopoutPrefix, channel + tail);
    assert '/' !in channel;
    assert tail[0] == ChatPath[0] == '/';
    UpToSlashStops(channel, tail);
  }

  /** The URL asks for the dark popout exactly when the theme is "dark". */
  lemma PopoutUrlTheme(channel: string, theme: string)
    ensures IsDarkUrl(PopoutUrl(channel, theme)) <==> theme == "dark"
  {
    var head := PopoutPrefix + channel;
    if theme == "dark" {
      assert PopoutUrl(channel, theme) == (head + ChatPath) + DarkPopout;
      AppendParts(head + ChatPath, DarkPopout);
    } else {
      var url := PopoutUrl(channel, theme);
      assert url == (head + ChatPath[..2]) + ChatPath[2..];
      AppendParts(head + ChatPath[..2], ChatPath[2..]);
      assert url[|url| - |DarkPopout|..] == ChatPath[2..];
      assert ChatPath[2..][0] != DarkPopout[0];
    }
  }
}
