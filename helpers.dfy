/** The converter's small string helpers: the date wrappers, the tweet-text
    line-break rewrite, the two URL builders and the external-link builder,
    each with the function or lemma that undoes or characterises it. */
module Helpers {
  import opened Records

  /** Layout of `created_at` in the export. */
  const SourceLayout: string := "Mon Jan 2 15:04:05 -0700 2006"
  /** Layout of every date the pages show. */
  const DisplayLayout: string := "2006-01-02 15:04:05"
  /** Dates are shown in the fixed zone Asia/Tokyo, UTC+9. */
  const JSTOffset: int := 9 * 60 * 60

  const UserURLBase: string := "https://twitter.com/intent/user?user_id="
  const TweetURLBase: string := "https://twitter.com/twitter/status/"

  /** What a newline in tweet text becomes. */
  const LineBreak: string := "<br>"

  const LinkOpen: string := "<a href=\""
  const LinkMiddle: string := "\" rel=\"noreferrer noopener\" target=\"_blank\">"
  const LinkClose: string := "</a>"

  // ---------------------------------------------------------------------------
  // Dates

  /** twitterTimeParse: parse with the export's layout, then move to UTC+9. */
  function TwitterTimeParse(lib: TimeLib, datetime: string): (t: Instant)
    ensures t.offsetSeconds == JSTOffset
    ensures t.unixSeconds == lib.parse(SourceLayout, datetime).unixSeconds
  {
    lib.parse(SourceLayout, datetime).(offsetSeconds := JSTOffset)
  }

  /** twitterTimeFormat: the parsed date written in the display layout. */
  function TwitterTimeFormat(lib: TimeLib, datetime: string): string
  {
    lib.format(TwitterTimeParse(lib, datetime), DisplayLayout)
  }

  /** The shown date depends only on the instant parsed, not on the zone it was written in. */
  lemma FormatOnlyByInstant(lib: TimeLib, a: string, b: string)
    requires lib.parse(SourceLayout, a).unixSeconds == lib.parse(SourceLayout, b).unixSeconds
    ensures TwitterTimeFormat(lib, a) == TwitterTimeFormat(lib, b)
  {
  }

  // ---------------------------------------------------------------------------
  // Tweet text

  function CountNewlines(s: string): nat
  {
    if s == [] then 0 else (if s[0] == '\n' then 1 else 0) + CountNewlines(s[1..])
  }

  /** tweetTextTrim: every '\n' replaced by "<br>", everything else kept in order. */
  function TweetTextTrim(text: string): (r: string)
    ensures '\n' !in r
    ensures |r| == |text| + 3 * CountNewlines(text)
  {
    if text == [] then []
    else (if text[0] == '\n' then LineBreak else [text[0]]) + TweetTextTrim(text[1..])
  }

  /** Text without a newline is shown exactly as it is. */
  lemma {:induction false} TrimWithoutNewline(text: string)
    requires '\n' !in text
    ensures TweetTextTrim(text) == text
  {
    if text != [] {
      assert '\n' !in text[1..] by {
        forall i | 0 <= i < |text[1..]| ensures text[1..][i] != '\n' {
          assert text[1..][i] == text[i + 1];
        }
      }
      TrimWithoutNewline(text[1..]);
    }
  }

  /** The rewrite works character by character, so it distributes over concatenation. */
  lemma {:induction false} TrimConcat(a: string, b: string)
    ensures TweetTextTrim(a + b) == TweetTextTrim(a) + TweetTextTrim(b)
  {
    if a == [] {
      assert a + b == b;
    } else {
      assert (a + b)[0] == a[0];
      assert (a + b)[1..] == a[1..] + b;
      TrimConcat(a[1..], b);
    }
  }

  predicate StartsWithBreak(s: string)
  {
    |s| >= |LineBreak| && s[..|LineBreak|] == LineBreak
  }

  /** No "<br>" occurs anywhere in s. */
  predicate HasNoBreak(s: string)
  {
    forall i :: 0 <= i < |s| ==> !StartsWithBreak(s[i..])
  }

  /** Reads the page text back: every "<br>", left to right, becomes a newline. */
  function RestoreNewlines(s: string): string
  {
    if s == [] then []
    else if StartsWithBreak(s) then "\n" + RestoreNewlines(s[|LineBreak|..])
    else [s[0]] + RestoreNewlines(s[1..])
  }

  /** A newline-free stretch at the front of the text is shown unchanged. */
  lemma TrimFrontUnchanged(s: string, m: nat)
    requires m <= |s| && '\n' !in s[..m]
    ensures TweetTextTrim(s) == s[..m] + TweetTextTrim(s[m..])
  {
    assert s == s[..m] + s[m..];
    TrimConcat(s[..m], s[m..]);
    TrimWithoutNewline(s[..m]);
  }

  /** The rewritten text starts with "<br>" only where the original text had
      a newline or a literal "<br>" at that point. */
  lemma TrimKeepsNoBreakAtFront(s: string)
    requires s != [] && s[0] != '\n' && !StartsWithBreak(s)
    ensures !StartsWithBreak(TweetTextTrim(s))
  {
    var t := TweetTextTrim(s);
    // m: length of the newline-free stretch at the front of s, at most 4.
    var first := FirstIndex(s, '\n');
    var m := if first < 4 then first else 4;
    assert '\n' !in s[..m] by {
      forall j | 0 <= j < m ensures s[..m][j] != '\n' { assert s[..m][j] == s[j]; }
    }
    TrimFrontUnchanged(s, m);
    if m == 4 {
      assert t[..4] == s[..4];
    } else if m < |s| {
      // s[m] is a newline, so t[m] opens a "<br>" of its own.
      NewlineFront(s[m..]);
      assert t[m] == '<';
      assert LineBreak[m] != '<';
    }
  }

  lemma NewlineFront(s: string)
    requires s != [] && s[0] == '\n'
    ensures TweetTextTrim(s)[0] == '<'
  {
  }

  /** Round trip: text that holds no literal "<br>" is recovered from its rewrite. */
  lemma {:induction false} RestoreAfterTrim(s: string)
    requires HasNoBreak(s)
    ensures RestoreNewlines(TweetTextTrim(s)) == s
  {
    if s != [] {
      assert HasNoBreak(s[1..]) by {
        forall i | 0 <= i < |s[1..]| ensures !StartsWithBreak(s[1..][i..]) {
          assert s[1..][i..] == s[i + 1..];
        }
      }
      assert s[0..] == s;
      var rest := TweetTextTrim(s[1..]);
      if s[0] == '\n' {
        assert TweetTextTrim(s) == LineBreak + rest;
        assert (LineBreak + rest)[|LineBreak|..] == rest;
      } else {
        TrimKeepsNoBreakAtFront(s);
        assert TweetTextTrim(s) == [s[0]] + rest;
        assert ([s[0]] + rest)[1..] == rest;
      }
      RestoreAfterTrim(s[1..]);
    }
  }

  /** Without that condition the rewrite loses information: a newline and a
      literal "<br>" are shown alike. */
  lemma TrimMergesNewlineAndBreak()
    ensures TweetTextTrim("\n") == TweetTextTrim(LineBreak)
  {
    TrimWithoutNewline(LineBreak);
  }

  // ---------------------------------------------------------------------------
  // URLs

  /** The part of url after base, when url starts with base. */
  function StripBase(base: string, url: string): (r: Option<string>)
    ensures r.Some? <==> |base| <= |url| && url[..|base|] == base
    ensures r.Some? ==> base + r.value == url
  {
    if |base| <= |url| && url[..|base|] == base then
      assert url == url[..|base|] + url[|base|..];
      Some(url[|base|..])
    else None
  }

  /** makeUserURL: the profile URL of a user id. */
  function MakeUserURL(id: string): (r: string)
    ensures StripBase(UserURLBase, r) == Some(id)
  {
    var r := UserURLBase + id;
    assert r[..|UserURLBase|] == UserURLBase && r[|UserURLBase|..] == id;
    r
  }

  /** makeTweetURL: the permalink of a tweet id. */
  function MakeTweetURL(id: string): (r: string)
    ensures StripBase(TweetURLBase, r) == Some(id)
  {
    var r := TweetURLBase + id;
    assert r[..|TweetURLBase|] == TweetURLBase && r[|TweetURLBase|..] == id;
    r
  }

  /** Every URL that starts with the profile base is the profile URL of exactly one id. */
  lemma UserURLOnly(url: string, id: string)
    ensures StripBase(UserURLBase, url) == Some(id) <==> MakeUserURL(id) == url
  {
  }

  /** Every URL that starts with the permalink base is the permalink of exactly one id. */
  lemma TweetURLOnly(url: string, id: string)
    ensures StripBase(TweetURLBase, url) == Some(id) <==> MakeTweetURL(id) == url
  {
  }

  // ---------------------------------------------------------------------------
  // External link


  /** Index of the first c in s, or |s| when there is none. */
  function FirstIndex(s: string, c: char): (k: nat)
    ensures k <= |s|
    ensures k < |s| ==> s[k] == c
    ensures forall j :: 0 <= j < k ==> s[j] != c
  {
    if s == [] then 0
    else if s[0] == c then 0
    else 1 + FirstIndex(s[1..], c)
  }

  /** The part of s before suffix, when s ends with suffix. */
  function StripSuffix(suffix: string, s: string): (r: Option<string>)
    ensures r.Some? <==> |suffix| <= |s| && s[|s| - |suffix|..] == suffix
    ensures r.Some? ==> r.value + suffix == s
  {
    if |suffix| <= |s| && s[|s| - |suffix|..] == suffix then
      assert s == s[..|s| - |suffix|] + s[|s| - |suffix|..];
      Some(s[..|s| - |suffix|])
    else None
  }

  /** Splits the inside of an anchor at its first '"' into href and text. */
  function ParseLinkInner(inner: string): (r: Option<(string, string)>)
    ensures r.Some? ==> '"' !in r.value.0 && r.value.0 + (LinkMiddle + r.value.1) == inner
  {
    var k := FirstIndex(inner, '"');
    match StripBase(LinkMiddle, inner[k..])
    case None => None
    case Some(text) =>
      var href := inner[..k];
      assert '"' !in href by {
        forall j | 0 <= j < |href| ensures href[j] != '"' { assert href[j] == inner[j]; }
      }
      assert inner == href + inner[k..];
      Some((href, text))
  }

  /** Reads an anchor back as (href, text): the href ends at the first '"'. */
  function ParseExtLink(a: string): (r: Option<(string, string)>)
    ensures r.Some? ==> '"' !in r.value.0
    ensures r.Some? ==> LinkOpen + ((r.value.0 + (LinkMiddle + r.value.1)) + LinkClose) == a
  {
    match StripBase(LinkOpen, a)
    case None => None
    case Some(body) =>
      match StripSuffix(LinkClose, body)
      case None => None
      case Some(inner) => ParseLinkInner(inner)
  }

  lemma StripBaseOf(base: string, rest: string)
    ensures StripBase(base, base + rest) == Some(rest)
  {
    assert (base + rest)[..|base|] == base;
    assert (base + rest)[|base|..] == rest;
  }

  lemma StripSuffixOf(suffix: string, rest: string)
    ensures StripSuffix(suffix, rest + suffix) == Some(rest)
  {
    assert (rest + suffix)[|rest|..] == suffix;
    assert (rest + suffix)[..|rest|] == rest;
  }

  lemma ParseLinkInnerOf(href: string, text: string)
    requires '"' !in href
    ensures ParseLinkInner(href + (LinkMiddle + text)) == Some((href, text))
  {
    var inner := href + (LinkMiddle + text);
    assert LinkMiddle[0] == '"';
    assert inner[|href|] == (LinkMiddle + text)[0];
    FirstIndexAt(inner, '"', |href|);
    assert inner[..|href|] == href;
    assert inner[|href|..] == LinkMiddle + text;
    StripBaseOf(LinkMiddle, text);
  }

  /** extLink: an anchor that opens href in a new tab, showing text. When href
      holds no '"', the anchor reads back into exactly its parts. */
  function ExtLink(href: string, text: string): (r: string)
    ensures '"' !in href ==> ParseExtLink(r) == Some((href, text))
  {
    // grouped as ParseExtLink takes it apart
    var inner := href + (LinkMiddle + text);
    var r := LinkOpen + (inner + LinkClose);
    if '"' in href then r
    else
      StripBaseOf(LinkOpen, inner + LinkClose);
      StripSuffixOf(LinkClose, inner);
      ParseLinkInnerOf(href, text);
      r
  }

  lemma FirstIndexAt(s: string, c: char, k: nat)
    requires k < |s| && s[k] == c
    requires forall j :: 0 <= j < k ==> s[j] != c
    ensures FirstIndex(s, c) == k
  {
  }

  /** extLink escapes nothing: a '"' in href makes two different links print the same. */
  lemma ExtLinkAmbiguousWithQuote()
    ensures ExtLink("a" + LinkMiddle + "b", "c") == ExtLink("a", "b" + LinkMiddle + "c")
  {
    MiddleShifts("a", "b", "c");
  }

  /** Text after a LinkMiddle in href can equally be read as the start of the shown text. */
  lemma MiddleShifts(x: string, y: string, z: string)
    ensures ExtLink(x + LinkMiddle + y, z) == ExtLink(x, y + LinkMiddle + z)
  {
    assert (x + LinkMiddle + y) + (LinkMiddle + z) == x + (LinkMiddle + (y + LinkMiddle + z));
  }
}
