/** How the plugin reads scopes, prefixes, origins, audiences and numbers. */
module Readings {
  import opened Wrappers
  import opened Claims
  import opened Tokens
  import opened Plugin

  // ---------- Scopes ----------

  /** A non-empty run of characters none of which is a space. */
  predicate Word(w: string) {
    w != "" && forall i | 0 <= i < |w| :: !IsSpace(w[i])
  }

  function Joined(words: seq<string>): string {
    if words == [] then "" else words[0] + " " + Joined(words[1..])
  }

  lemma {:induction false} FieldsReadsWord(w: string, rest: string, read: string)
    requires forall i | 0 <= i < |w| :: !IsSpace(w[i])
    ensures FieldsFrom(w + rest, read) == FieldsFrom(rest, read + w)
    decreases |w|
  {
    if w == "" {
      assert w + rest == rest && read + w == read;
    } else {
      assert (w + rest)[0] == w[0] && (w + rest)[1..] == w[1..] + rest;
      FieldsReadsWord(w[1..], rest, read + [w[0]]);
      assert read + [w[0]] + w[1..] == read + w;
    }
  }

  /** Words joined by spaces are read back. */
  lemma {:induction false} FieldsReadsJoined(words: seq<string>)
    requires forall i | 0 <= i < |words| :: Word(words[i])
    ensures Fields(Joined(words)) == words
  {
    if words != [] {
      var w, rest := words[0], Joined(words[1..]);
      assert Word(w);
      assert Joined(words) == w + (" " + rest);
      FieldsReadsWord(w, " " + rest, "");
      assert "" + w == w && (" " + rest)[0] == ' ' && (" " + rest)[1..] == rest;
      FieldsReadsJoined(words[1..]);
      assert words == [w] + words[1..];
    }
  }

  /** With scopes written as words, the plugin asks exactly that every required word is granted. */
  lemma ScopesAreWordSets(granted: seq<string>, required: seq<string>)
    requires forall i | 0 <= i < |granted| :: Word(granted[i])
    requires forall i | 0 <= i < |required| :: Word(required[i])
    ensures Grants(Joined(granted), Joined(required)) <==> forall w | w in required :: w in granted
  {
    FieldsReadsJoined(granted);
    FieldsReadsJoined(required);
  }

  // ---------- Public base ----------

  predicate Slashes(s: string) {
    forall i | 0 <= i < |s| :: s[i] == '/'
  }

  /** Trimming removes trailing slashes, all of them, and nothing else. */
  lemma {:induction false} TrimRightTrims(s: string)
    ensures var t := TrimRight(s);
      |t| <= |s| && t == s[..|t|] && Slashes(s[|t|..]) && (t != "" ==> t[|t| - 1] != '/')
  {
    if s != "" && s[|s| - 1] == '/' {
      var init := s[..|s| - 1];
      TrimRightTrims(init);
      var t := TrimRight(init);
      assert s[..|t|] == init[..|t|];
      forall i | 0 <= i < |s[|t|..]| ensures s[|t|..][i] == '/' {
        if i < |init[|t|..]| { assert s[|t|..][i] == init[|t|..][i]; }
      }
    }
  }

  /** Forwarded headers win over the request's host, and HTTPS is assumed without them. */
  lemma OriginsRead(proto: string, forwarded: string, host: string, path: string)
    ensures Origin(Request("", "", host, path)) == "https://" + host
    ensures forwarded != "" ==> Origin(Request("", forwarded, host, path)) == "https://" + forwarded
    ensures proto != "" ==> Origin(Request(proto, "", host, path)) == proto + "://" + host
    ensures proto != "" && forwarded != "" ==> Origin(Request(proto, forwarded, host, path)) == proto + "://" + forwarded
  {}

  // ---------- Claims ----------

  /** The audience is one text or a list with the text among its items; nothing else names an audience. */
  lemma AudienceIsNamed(aud: Value, target: string)
    ensures AudContains(Some(aud), target) <==>
      aud == Str(target) || (aud.Arr? && exists i :: 0 <= i < |aud.items| && aud.items[i] == Str(target))
    ensures !AudContains(None, target)
  {}

  /** Cutting keeps the sign: a negative number loses its fraction just like its opposite. */
  lemma CutsTowardZero(m: nat, p: nat)
    requires p > 0
    ensures Cut(m, p) == m / p && Cut(-(m as int), p) == -(m / p)
  {}

  /** A number with decimals is cut, a whole one is not. */
  lemma NumbersAreCut(m: int, digits: nat)
    requires digits > 0
    ensures Truncated(Num(m, -(digits as int))) == Cut(m, Pow10(digits))
    ensures Truncated(Num(m, 0)) == m
  {
    assert Pow10(0) == 1;
  }
}
