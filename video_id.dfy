/**
 * The video-ID extractor `get_video_id`: a `re.search` for the fixed pattern
 * `(?:v=|\/)([0-9A-Za-z_-]{11})` followed by `match.group(1)`, or the
 * `ValueError("Invalid YouTube URL")` when nothing matches.
 *
 * The search is modelled as the left-to-right scan that `re.search` performs
 * for this one pattern: try each start position in turn, at each position try
 * the alternative `v=` and then `/`, and require eleven ID characters after it.
 * The declarative predicates `MatchesAt` and `MatchStartsAt` say what a match
 * is, independently of the scan.
 */
module VideoId {
  import opened Wrappers

  /** The repetition count `{11}` of the capture group. */
  const IdLength: nat := 11

  /** The message of the `ValueError` raised when the pattern does not match. */
  const InvalidUrlMessage: string := "Invalid YouTube URL"

  /** The character class `[0-9A-Za-z_-]` (ASCII ranges, literal `_` and `-`). */
  predicate IsIdChar(c: char) {
    ('0' <= c <= '9') || ('A' <= c <= 'Z') || ('a' <= c <= 'z') || c == '_' || c == '-'
  }

  predicate AllIdChars(s: string) {
    forall k :: 0 <= k < |s| ==> IsIdChar(s[k])
  }

  /** A match of the whole pattern starts at position `p` of `url` and captures `id`. */
  ghost predicate MatchesAt(url: string, p: int, id: string) {
    0 <= p <= |url| && |id| == IdLength && AllIdChars(id) &&
    (("v=" + id) <= url[p..] || ("/" + id) <= url[p..])
  }

  /** Some match of the pattern starts at position `p`. */
  ghost predicate MatchStartsAt(url: string, p: int) {
    exists id :: MatchesAt(url, p, id)
  }

  /** No match starts at any position in `[lo, hi)`. */
  ghost predicate NoMatchIn(url: string, lo: int, hi: int) {
    forall q :: lo <= q < hi ==> !MatchStartsAt(url, q)
  }

  /** What `re.search` returns: where the match starts and what group 1 captured. */
  datatype Match = Match(start: nat, group: string)

  /** Checks that `n` ID characters follow position `j`, one character at a time. */
  function IdCharsFrom(s: string, j: nat, n: nat): (ok: bool)
    requires j <= |s|
    ensures ok <==> (j + n <= |s| && forall k :: j <= k < j + n ==> IsIdChar(s[k]))
    decreases n
  {
    if n == 0 then true
    else if j == |s| || !IsIdChar(s[j]) then false
    else IdCharsFrom(s, j + 1, n - 1)
  }

  /** The first alternative, `v=` and eleven ID characters, is found at position `i`. */
  predicate QueryIdAt(url: string, i: nat) {
    i + 2 <= |url| && url[i] == 'v' && url[i + 1] == '=' && IdCharsFrom(url, i + 2, IdLength)
  }

  /** The second alternative, `/` and eleven ID characters, is found at position `i`. */
  predicate PathIdAt(url: string, i: nat) {
    i + 1 <= |url| && url[i] == '/' && IdCharsFrom(url, i + 1, IdLength)
  }

  /** Matches the pattern at start position `i`, trying `v=` before `/`. */
  function TryAt(url: string, i: nat): (g: Option<string>)
    requires i <= |url|
    ensures g.Some? ==> MatchesAt(url, i, g.value)
    ensures g.None? ==> !MatchStartsAt(url, i)
  {
    if QueryIdAt(url, i) then
      var id := url[i + 2..i + 2 + IdLength];
      assert ("v=" + id) == url[i..][..2 + IdLength];
      Some(id)
    else if PathIdAt(url, i) then
      var id := url[i + 1..i + 1 + IdLength];
      assert ("/" + id) == url[i..][..1 + IdLength];
      Some(id)
    else
      MatchFoundByChecks(url, i);
      None
  }

  /** Every match starting at `i` is seen by one of the two character checks. */
  lemma MatchFoundByChecks(url: string, i: nat)
    requires i <= |url|
    ensures MatchStartsAt(url, i) ==> QueryIdAt(url, i) || PathIdAt(url, i)
  {
    if MatchStartsAt(url, i) {
      var id :| MatchesAt(url, i, id);
      if ("v=" + id) <= url[i..] {
        assert url[i] == ("v=" + id)[0] && url[i + 1] == ("v=" + id)[1];
        forall k | i + 2 <= k < i + 2 + IdLength ensures IsIdChar(url[k]) {
          assert url[k] == ("v=" + id)[k - i] == id[k - i - 2];
        }
        assert QueryIdAt(url, i);
      } else {
        assert url[i] == ("/" + id)[0];
        forall k | i + 1 <= k < i + 1 + IdLength ensures IsIdChar(url[k]) {
          assert url[k] == ("/" + id)[k - i] == id[k - i - 1];
        }
        assert PathIdAt(url, i);
      }
    }
  }

  /** `re.search` from position `i` on: the leftmost match starting at or after `i`. */
  function SearchFrom(url: string, i: nat): (m: Option<Match>)
    requires i <= |url|
    ensures m.Some? ==> i <= m.value.start <= |url| && MatchesAt(url, m.value.start, m.value.group)
    ensures m.Some? ==> NoMatchIn(url, i, m.value.start)
    ensures m.None? ==> NoMatchIn(url, i, |url| + 1)
    decreases |url| - i
  {
    match TryAt(url, i)
    case Some(id) => Some(Match(i, id))
    case None => if i == |url| then None else SearchFrom(url, i + 1)
  }

  /** `re.search(pattern, url)`. */
  function Search(url: string): (m: Option<Match>)
    ensures m.Some? ==> MatchesAt(url, m.value.start, m.value.group) && NoMatchIn(url, 0, m.value.start)
    ensures m.None? <==> NoMatchIn(url, 0, |url| + 1)
  {
    var m := SearchFrom(url, 0);
    if m.Some? then
      assert MatchStartsAt(url, m.value.start);
      m
    else
      m
  }

  /** `get_video_id(url)`: group 1 of the leftmost match, or the invalid-URL error. */
  function GetVideoId(url: string): (r: Result<string>)
    ensures r.Ok? ==> |r.value| == IdLength && AllIdChars(r.value)
    ensures r.Ok? ==> exists p :: MatchesAt(url, p, r.value) && NoMatchIn(url, 0, p)
    ensures r.Err? <==> NoMatchIn(url, 0, |url| + 1)
    ensures r.Err? ==> r.message == InvalidUrlMessage
  {
    match Search(url)
    case Some(m) => Ok(m.group)
    case None => Err(InvalidUrlMessage)
  }

  /** At one start position the pattern captures at most one ID: the alternatives begin with different characters. */
  lemma MatchUnique(url: string, p: int, id1: string, id2: string)
    requires MatchesAt(url, p, id1) && MatchesAt(url, p, id2)
    ensures id1 == id2
  {
    var s := url[p..];
    if ("v=" + id1) <= s {
      assert ("v=" + id2) <= s by { assert ("/" + id2)[0] == '/' != 'v' == s[0]; }
      assert id1 == ("v=" + id1)[2..] == s[2..2 + IdLength] == ("v=" + id2)[2..] == id2;
    } else {
      assert ("/" + id2) <= s by { assert ("v=" + id2)[0] == 'v' != '/' == s[0]; }
      assert id1 == ("/" + id1)[1..] == s[1..1 + IdLength] == ("/" + id2)[1..] == id2;
    }
  }

  /**
   * Leftmost-match characterization: when a match capturing `id` starts at `p`
   * and no match starts before `p`, `get_video_id` returns exactly `id`.
   */
  lemma GetVideoIdLeftmost(url: string, p: int, id: string)
    requires MatchesAt(url, p, id) && NoMatchIn(url, 0, p)
    ensures GetVideoId(url) == Ok(id)
  {
    match Search(url)
    case None =>
      assert MatchStartsAt(url, p);
    case Some(m) =>
      if m.start < p {
        assert MatchStartsAt(url, m.start);
      } else if m.start > p {
        assert MatchStartsAt(url, p);
      } else {
        MatchUnique(url, p, id, m.group);
      }
  }

  /** A match can only start at a `v` or a `/`. */
  lemma MarkerNeeded(url: string, q: int)
    requires 0 <= q
    ensures (q >= |url| || (url[q] != 'v' && url[q] != '/')) ==> !MatchStartsAt(url, q)
  {
    if MatchStartsAt(url, q) {
      var id :| MatchesAt(url, q, id);
      if ("v=" + id) <= url[q..] {
        assert url[q] == ("v=" + id)[0];
      } else {
        assert url[q] == ("/" + id)[0];
      }
    }
  }

  /** No match starts at a position that is not a `v` when a non-ID character follows within eleven characters. */
  lemma BlockedAfter(url: string, q: int, k: int)
    requires 0 <= q < k <= q + IdLength && k < |url|
    ensures (url[q] != 'v' && !IsIdChar(url[k])) ==> !MatchStartsAt(url, q)
  {
    if MatchStartsAt(url, q) && url[q] != 'v' {
      var id :| MatchesAt(url, q, id);
      assert url[q] != ("v=" + id)[0];
      assert url[k] == ("/" + id)[k - q] == id[k - q - 1];
    }
  }

  /** The pattern is unanchored on the right: `v=` followed by a longer run yields its first eleven characters. */
  lemma LongRunYieldsPrefix(run: string)
    requires |run| >= IdLength && AllIdChars(run)
    ensures GetVideoId("v=" + run) == Ok(run[..IdLength])
  {
    var url := "v=" + run;
    var id := run[..IdLength];
    assert ("v=" + id) == url[0..][..2 + IdLength];
    GetVideoIdLeftmost(url, 0, id);
  }

  /** A URL with no `v` and no `/` at all is invalid. */
  lemma UnmarkedUrlFails(url: string)
    requires forall q :: 0 <= q < |url| ==> url[q] != 'v' && url[q] != '/'
    ensures GetVideoId(url) == Err(InvalidUrlMessage)
  {
    forall q | 0 <= q < |url| + 1 ensures !MatchStartsAt(url, q) {
      MarkerNeeded(url, q);
    }
  }

  /** No match starts in a stretch of the URL that holds no `v` and no `/`. */
  lemma UnmarkedNoMatch(url: string, lo: int, hi: int)
    requires 0 <= lo <= hi <= |url|
    requires forall q :: lo <= q < hi ==> url[q] != 'v' && url[q] != '/'
    ensures NoMatchIn(url, lo, hi)
  {
    forall q | lo <= q < hi ensures !MatchStartsAt(url, q) {
      MarkerNeeded(url, q);
    }
  }

  /** Before its `v=` parameter, a standard watch URL holds no match: every `/` there is followed by a non-ID character. */
  lemma WatchPrefixNoMatch(tail: string)
    ensures NoMatchIn("https://www.youtube.com/watch?" + tail, 0, 30)
  {
    var url := "https://www.youtube.com/watch?" + tail;
    SchemeNoMatch("www.youtube.com/watch?" + tail);
    assert url == "https://" + ("www.youtube.com/watch?" + tail);
    UnmarkedNoMatch(url, 8, 23);
    BlockedAfter(url, 23, 29);
    UnmarkedNoMatch(url, 24, 30);
  }

  /** The scheme `https://` holds no match when a non-ID character comes within the next four characters. */
  lemma SchemeNoMatch(rest: string)
    requires |rest| >= 4 && !IsIdChar(rest[3])
    ensures NoMatchIn("https://" + rest, 0, 8)
  {
    var url := "https://" + rest;
    UnmarkedNoMatch(url, 0, 6);
    BlockedAfter(url, 6, 7);
    BlockedAfter(url, 7, 11);
  }

  /** A standard watch URL yields its `v=` parameter, whatever follows the ID. */
  lemma WatchUrlYieldsId(id: string, rest: string)
    requires |id| == IdLength && AllIdChars(id)
    ensures GetVideoId("https://www.youtube.com/watch?v=" + id + rest) == Ok(id)
  {
    var tail := "v=" + id + rest;
    var url := "https://www.youtube.com/watch?" + tail;
    assert url == "https://www.youtube.com/watch?v=" + id + rest;
    WatchPrefixNoMatch(tail);
    assert ("v=" + id) == url[30..][..2 + IdLength];
    GetVideoIdLeftmost(url, 30, id);
  }

  /** The example watch URL yields `dQw4w9WgXcQ`. */
  lemma WatchUrlExample()
    ensures GetVideoId("https://www.youtube.com/watch?v=dQw4w9WgXcQ") == Ok("dQw4w9WgXcQ")
  {
    WatchUrlYieldsId("dQw4w9WgXcQ", "");
    assert "https://www.youtube.com/watch?v=" + "dQw4w9WgXcQ" + "" == "https://www.youtube.com/watch?v=dQw4w9WgXcQ";
  }

  /** A leading path segment of eleven ID characters wins over a later `v=` parameter: the match is the leftmost one. */
  lemma EarlierPathSegmentWins(a: string, b: string)
    requires |a| == IdLength && AllIdChars(a)
    ensures GetVideoId("/" + a + "?v=" + b) == Ok(a)
  {
    var url := "/" + a + "?v=" + b;
    assert ("/" + a) == url[0..][..1 + IdLength];
    GetVideoIdLeftmost(url, 0, a);
  }

  /** Of two `v=` parameters, the first one's ID is returned: the match is the leftmost one. */
  lemma EarlierQueryWins(a: string, b: string)
    requires |a| == IdLength && AllIdChars(a)
    ensures GetVideoId("v=" + a + "&v=" + b) == Ok(a)
  {
    var url := "v=" + a + "&v=" + b;
    assert ("v=" + a) == url[0..][..2 + IdLength];
    GetVideoIdLeftmost(url, 0, a);
  }
}
