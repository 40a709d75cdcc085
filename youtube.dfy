/** youtube_api.py: YouTubeAPI.get_video_id, which pulls the video id out of
    a watch, short-link or Shorts URL and otherwise takes the input to be the
    id itself. */
module YouTube {
  import opened Wrappers
  import opened Text

  /** One of the search patterns: a literal marker followed by the group
      ([^stop]+). */
  datatype Pattern = Pattern(marker: string, stop: char)

  /** r'v=([^&]+)' */
  const WatchPattern := Pattern("v=", '&')
  /** r'youtu\.be/([^?]+)': the dot is escaped, so it is a literal dot. */
  const ShortLinkPattern := Pattern("youtu.be/", '?')
  /** r'shorts/([^?]+)' */
  const ShortsPattern := Pattern("shorts/", '?')

  /** The patterns in the order get_video_id tries them. */
  const Patterns: seq<Pattern> := [WatchPattern, ShortLinkPattern, ShortsPattern]

  /** The pattern matches url at p: the marker occurs there and is followed
      by at least one character other than the stop character. */
  predicate MatchesAt(url: string, pat: Pattern, p: nat) {
    OccursAt(url, pat.marker, p) && p + |pat.marker| < |url| && url[p + |pat.marker|] != pat.stop
  }

  /** No character from i up to, not including, j is the stop character. */
  predicate NoStopBetween(s: string, stop: char, i: nat, j: nat) {
    forall k :: i <= k < j && k < |s| ==> s[k] != stop
  }

  /** Where the greedy [^stop]+ that starts at i ends. */
  function RunEnd(s: string, stop: char, i: nat): (j: nat)
    requires i <= |s|
    ensures i <= j <= |s| && NoStopBetween(s, stop, i, j)
    ensures j == |s| || s[j] == stop
    decreases |s| - i
  {
    if i < |s| && s[i] != stop then RunEnd(s, stop, i + 1) else i
  }

  /** The leftmost position from p on at which the pattern matches. */
  function FirstMatch(url: string, pat: Pattern, p: nat): (r: Option<nat>)
    ensures r.Some? ==> p <= r.value && MatchesAt(url, pat, r.value)
    ensures r.Some? ==> forall q :: p <= q < r.value ==> !MatchesAt(url, pat, q)
    ensures r.None? ==> forall q :: p <= q ==> !MatchesAt(url, pat, q)
    decreases |url| - p
  {
    if p >= |url| then None
    else if MatchesAt(url, pat, p) then Some(p)
    else FirstMatch(url, pat, p + 1)
  }

  /** re.search(pattern, url).group(1), or None when the search fails. */
  function Search(url: string, pat: Pattern): (r: Option<string>)
    ensures r.None? <==> forall p :: !MatchesAt(url, pat, p)
    ensures r.Some? ==> r.value != [] && pat.stop !in r.value && Contains(url, r.value)
  {
    match FirstMatch(url, pat, 0)
    case None => None
    case Some(p) =>
      var i := p + |pat.marker|;
      var id := url[i..RunEnd(url, pat.stop, i)];
      assert OccursAt(url, id, i);
      Some(id)
  }

  /** A run of non-stop characters from i that ends at j, where the text
      ends or a stop character follows, is the one RunEnd finds. */
  lemma {:induction false} RunEndAt(s: string, stop: char, i: nat, j: nat)
    requires i <= j <= |s| && NoStopBetween(s, stop, i, j)
    requires j == |s| || s[j] == stop
    ensures RunEnd(s, stop, i) == j
    decreases j - i
  {
    if i < j {
      RunEndAt(s, stop, i + 1, j);
    }
  }

  /** A match at p with none from i up to p is the one FirstMatch finds. */
  lemma {:induction false} FirstMatchAt(url: string, pat: Pattern, i: nat, p: nat)
    requires i <= p && MatchesAt(url, pat, p)
    requires forall q: nat :: i <= q < p ==> !MatchesAt(url, pat, q)
    ensures FirstMatch(url, pat, i) == Some(p)
    decreases p - i
  {
    if i < p {
      FirstMatchAt(url, pat, i + 1, p);
    }
  }

  /** The leftmost match decides the group: it is the whole run of non-stop
      characters right after that match's marker. */
  lemma SearchFound(url: string, pat: Pattern, p: nat, j: nat)
    requires MatchesAt(url, pat, p)
    requires forall q: nat :: q < p ==> !MatchesAt(url, pat, q)
    requires p + |pat.marker| <= j <= |url| && NoStopBetween(url, pat.stop, p + |pat.marker|, j)
    requires j == |url| || url[j] == pat.stop
    ensures Search(url, pat) == Some(url[p + |pat.marker|..j])
  {
    FirstMatchAt(url, pat, 0, p);
    var i := p + |pat.marker|;
    RunEndAt(url, pat.stop, i, j);
    assert Search(url, pat) == Some(url[i..RunEnd(url, pat.stop, i)]);
  }

  /** The for loop over the patterns with its early return; the url itself
      when none matches. */
  function FirstPatternId(url: string, pats: seq<Pattern>): (id: string)
    ensures Contains(url, id)
    ensures id != [] || id == url
    decreases |pats|
  {
    if pats == [] then
      assert OccursAt(url, url, 0);
      url
    else match Search(url, pats[0])
      case Some(id) => id
      case None => FirstPatternId(url, pats[1..])
  }

  /** get_video_id */
  function GetVideoId(url: string): (id: string)
    ensures Contains(url, id)
    ensures id != [] <==> url != []
  {
    FirstPatternId(url, Patterns)
  }

  /** Some position matches the pattern. */
  ghost predicate Matches(url: string, pat: Pattern) {
    exists p :: MatchesAt(url, pat, p)
  }

  /** The patterns are tried in order and the first that matches anywhere
      wins, wherever the markers of the later ones stand; a group from the
      watch pattern holds no '&', one from the other two no '?'. With no
      match the url comes back unchanged. */
  lemma VideoIdPrecedence(url: string)
    ensures var id := GetVideoId(url);
      && (Matches(url, WatchPattern) ==>
            Search(url, WatchPattern) == Some(id) && '&' !in id)
      && (!Matches(url, WatchPattern) && Matches(url, ShortLinkPattern) ==>
            Search(url, ShortLinkPattern) == Some(id) && '?' !in id)
      && (!Matches(url, WatchPattern) && !Matches(url, ShortLinkPattern) && Matches(url, ShortsPattern) ==>
            Search(url, ShortsPattern) == Some(id) && '?' !in id)
      && (!Matches(url, WatchPattern) && !Matches(url, ShortLinkPattern) && !Matches(url, ShortsPattern) ==>
            id == url)
  {
    var id := GetVideoId(url);
    var rest1 := Patterns[1..];
    var rest2 := rest1[1..];
    assert Patterns[0] == WatchPattern && rest1[0] == ShortLinkPattern && rest2[0] == ShortsPattern;
    assert rest2[1..] == [];
    var w := Search(url, WatchPattern);
    var l := Search(url, ShortLinkPattern);
    var h := Search(url, ShortsPattern);
    assert id == if w.Some? then w.value else FirstPatternId(url, rest1);
    assert FirstPatternId(url, rest1) == if l.Some? then l.value else FirstPatternId(url, rest2);
    assert FirstPatternId(url, rest2) == if h.Some? then h.value else url;
  }

  /** No match can start before p when the first character of the marker
      does not occur there. */
  lemma MarkerAbsentBefore(url: string, pat: Pattern, p: nat)
    requires pat.marker != [] && p <= |url| && pat.marker[0] !in url[..p]
    ensures forall q: nat :: q < p ==> !MatchesAt(url, pat, q)
  {
    forall q: nat | q < p ensures !MatchesAt(url, pat, q) {
      if q + |pat.marker| <= |url| {
        assert url[q..q + |pat.marker|][0] == url[..p][q];
      }
    }
  }

  /** In "youtu.be/a?v=b" the watch pattern first matches at the "v=" of
      the query, and its group is "b". */
  lemma WatchParameterGroup()
    ensures MatchesAt("youtu.be/a?v=b", WatchPattern, 11)
    ensures Search("youtu.be/a?v=b", WatchPattern) == Some("b")
  {
    var url := "youtu.be/a?v=b";
    assert url[11..13] == "v=";
    assert url[..11] == "youtu.be/a?";
    MarkerAbsentBefore(url, WatchPattern, 11);
    SearchFound(url, WatchPattern, 11, 14);
    assert url[11 + 2..14] == "b";
  }

  /** A short link whose query carries "v=": the watch pattern is tried
      first, so its group is taken although "youtu.be/" comes earlier. */
  lemma ShortLinkWithWatchParameter()
    ensures GetVideoId("youtu.be/a?v=b") == "b"
  {
    WatchParameterGroup();
    VideoIdPrecedence("youtu.be/a?v=b");
  }
}
