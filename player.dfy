/** The skit player (player.py): the SkitPlayer window's state without its
    Tk widgets, the loader that rebuilds the clip list from the generator's
    file names, and the transport controls with the playback loop. */
module Player {
  import opened Wrappers
  import opened Text
  import opened Numerals
  import opened SkitScript

  /** One element of audio_files: a dict with 'file', 'character', 'text'
      and 'index'. */
  datatype AudioEntry = AudioEntry(file: string, character: string, text: string, index: nat)

  /** The two groups of the pattern (\d+)_(.+)\.wav, the first as int(). */
  datatype WavName = WavName(index: nat, character: string)

  /** f.endswith('.wav') */
  predicate EndsWithWav(f: string) {
    |f| >= 4 && f[|f| - 4..] == ".wav"
  }

  /** ".wav" occurs in s at index q. */
  predicate WavAt(s: string, q: nat) {
    q + 4 <= |s| && s[q..q + 4] == ".wav"
  }

  /** Length of the run of digits s starts with. */
  function DigitRun(s: string): (d: nat)
    ensures d <= |s| && AllDigits(s[..d])
    ensures d == |s| || !IsDigit(s[d])
    decreases |s|
  {
    if s == [] || !IsDigit(s[0]) then 0
    else
      var d := DigitRun(s[1..]);
      assert s[..d + 1] == [s[0]] + s[1..][..d];
      d + 1
  }

  /** The largest q with 1 <= q <= p at which ".wav" occurs in s. */
  function LastWavUpTo(s: string, p: int): (r: Option<nat>)
    ensures r.Some? ==> 1 <= r.value <= p && WavAt(s, r.value)
    ensures r.Some? ==> forall q: nat :: r.value < q <= p ==> !WavAt(s, q)
    ensures r.None? ==> forall q: nat :: 1 <= q <= p ==> !WavAt(s, q)
    decreases p
  {
    if p < 1 then None
    else if WavAt(s, p) then Some(p)
    else LastWavUpTo(s, p - 1)
  }

  /** Where the greedy (.+) before \.wav ends: the last occurrence of ".wav"
      that has at least one character in front of it. */
  function LastWav(s: string): (r: Option<nat>)
    ensures r.Some? ==> 1 <= r.value && WavAt(s, r.value)
    ensures r.Some? ==> forall q: nat :: r.value < q ==> !WavAt(s, q)
    ensures r.None? ==> forall q: nat :: 1 <= q ==> !WavAt(s, q)
  {
    LastWavUpTo(s, |s| - 4)
  }

  /** s up to its first newline: the part `.` can match. */
  function FirstLine(s: string): (r: string)
    ensures '\n' !in r && |r| <= |s| && r == s[..|r|]
    ensures |r| == |s| || s[|r|] == '\n'
  {
    s[..IndexOf(s, '\n')]
  }

  /** re.match(r'(\d+)_(.+)\.wav', name): anchored at the start only. The
      digit run must be followed by "_"; the greedy (.+) then reaches the
      last ".wav" that comes before any newline. */
  function ParseWavName(name: string): (r: Option<WavName>)
    ensures r.Some? ==>
      var d := DigitRun(name);
      var c := r.value.character;
      && 1 <= d
      && c != [] && '\n' !in c
      && d + 1 + |c| + 4 <= |name|
      && name[..d + 1 + |c| + 4] == name[..d] + "_" + c + ".wav"
      && r.value.index == ParseDecimal(name[..d])
  {
    var d := DigitRun(name);
    if d == 0 || d == |name| || name[d] != '_' then None
    else
      var body := FirstLine(name[d + 1..]);
      match LastWav(body)
      case None => None
      case Some(q) =>
        assert name[d + 1..][..q + 4] == body[..q + 4];
        assert name[..d + 1 + q + 4] == name[..d] + "_" + body[..q] + ".wav";
        Some(WavName(ParseDecimal(name[..d]), body[..q]))
  }

  /** In a middle followed by ".wav", with no newline, the greedy group
      reaches the final ".wav". */
  lemma WavTail(c: string)
    requires c != [] && '\n' !in c
    ensures FirstLine(c + ".wav") == c + ".wav"
    ensures LastWav(c + ".wav") == Some(|c|)
  {
    var body := c + ".wav";
    assert '\n' !in body;
    assert WavAt(body, |c|);
  }

  /** A name made of a digit run, "_", a non-empty middle without newlines
      and ".wav" parses back to the digits' value and the middle. */
  lemma ParseWavNameOf(digits: string, c: string)
    requires digits != [] && AllDigits(digits)
    requires c != [] && '\n' !in c
    ensures ParseWavName(digits + "_" + c + ".wav") == Some(WavName(ParseDecimal(digits), c))
  {
    var name := digits + "_" + c + ".wav";
    var rest := "_" + c + ".wav";
    assert name == digits + rest;
    DigitRunOf(digits, rest);
    var d := |digits|;
    assert DigitRun(name) == d;
    assert name[d] == '_';
    var body := c + ".wav";
    assert name[d + 1..] == body;
    WavTail(c);
    assert FirstLine(name[d + 1..]) == body;
    assert body[..|c|] == c;
    assert name[..d] == digits;
  }

  lemma {:induction false} DigitRunOf(digits: string, rest: string)
    requires AllDigits(digits)
    requires rest == [] || !IsDigit(rest[0])
    ensures DigitRun(digits + rest) == |digits|
    decreases |digits|
  {
    if digits == [] {
      assert digits + rest == rest;
    } else {
      assert (digits + rest)[1..] == digits[1..] + rest;
      DigitRunOf(digits[1..], rest);
    }
  }

  /** The text shown for a loaded clip until a script supplies it:
      f"（セリフ {index + 1}）". */
  function Placeholder(index: nat): string {
    "（セリフ " + Decimal(index + 1) + "）"
  }

  /** The placeholder numbers the clips from 1: the digits inside it read
      back as index + 1. */
  lemma PlaceholderNumber(index: nat)
    ensures var s := Placeholder(index);
      var d := |s| - 6;
      && 1 <= d && s[..5] == "（セリフ " && s[5 + d..] == "）"
      && AllDigits(s[5..5 + d]) && ParseDecimal(s[5..5 + d]) == index + 1
  {
    var digits := Decimal(index + 1);
    ParseDecimalOfDecimal(index + 1);
    var s := Placeholder(index);
    assert s == "（セリフ " + digits + "）";
    assert |s| - 6 == |digits|;
    assert s[..5] == "（セリフ ";
    assert s[5..5 + |digits|] == digits;
    assert s[5 + |digits|..] == "）";
  }

  /** The entry load_audio_files builds for a file name that matched. */
  function LoadedEntry(folder: string, name: string, w: WavName): AudioEntry {
    AudioEntry(JoinPath(folder, name), w.character, Placeholder(w.index), w.index)
  }

  /** [f for f in listing if f.endswith('.wav')] */
  function WavNames(listing: seq<string>): (names: seq<string>)
    ensures forall f :: f in names <==> f in listing && EndsWithWav(f)
    ensures |names| <= |listing|
    decreases |listing|
  {
    if listing == [] then []
    else
      var rest := WavNames(listing[1..]);
      assert forall f :: f in listing <==> f == listing[0] || f in listing[1..];
      if EndsWithWav(listing[0]) then [listing[0]] + rest else rest
  }

  /** The filter keeps every copy of a .wav name and nothing else. */
  lemma {:induction false} WavNamesCounts(listing: seq<string>)
    ensures var names := WavNames(listing);
      forall f :: multiset(names)[f] == if EndsWithWav(f) then multiset(listing)[f] else 0
    decreases |listing|
  {
    if listing != [] {
      WavNamesCounts(listing[1..]);
      assert listing == [listing[0]] + listing[1..];
    }
  }

  /** The .wav names of the listing after files.sort(). */
  function WavFiles(listing: seq<string>): (files: seq<string>)
    ensures Sorted(files)
    ensures multiset(files) == multiset(WavNames(listing))
    ensures forall f :: f in files <==> f in listing && EndsWithWav(f)
  {
    var names := WavNames(listing);
    var files := Sort(names);
    assert forall f :: f in files <==> f in multiset(files);
    assert forall f :: f in names <==> f in multiset(names);
    files
  }

  /** What the pattern makes of each name. */
  function Matches(names: seq<string>): (ms: seq<Option<WavName>>)
    ensures |ms| == |names|
    ensures forall k :: 0 <= k < |names| ==> ms[k] == ParseWavName(names[k])
  {
    seq(|names|, k requires 0 <= k < |names| => ParseWavName(names[k]))
  }

  /** The entries for the first n names, given what the pattern made of
      each: the names that matched, in the order of the names. */
  function LoadedAmong(folder: string, names: seq<string>, ms: seq<Option<WavName>>, n: nat): (entries: seq<AudioEntry>)
    requires n <= |names| == |ms|
    ensures |entries| <= n
  {
    if n == 0 then []
    else
      var before := LoadedAmong(folder, names, ms, n - 1);
      match ms[n - 1]
      case None => before
      case Some(w) => before + [LoadedEntry(folder, names[n - 1], w)]
  }

  /** The list load_audio_files builds from the sorted names. */
  function LoadedFrom(folder: string, names: seq<string>): (entries: seq<AudioEntry>)
    ensures |entries| <= |names|
  {
    LoadedAmong(folder, names, Matches(names), |names|)
  }

  /** Name k matched and its entry is e. */
  predicate Produces(folder: string, names: seq<string>, ms: seq<Option<WavName>>, k: nat, e: AudioEntry)
    requires |names| == |ms|
  {
    k < |ms| && ms[k].Some? && e == LoadedEntry(folder, names[k], ms[k].value)
  }

  /** The membership of the first n entries, by induction on n. */
  lemma {:induction false} LoadedAmongProduces(folder: string, names: seq<string>, ms: seq<Option<WavName>>, n: nat, e: AudioEntry)
    requires n <= |names| == |ms|
    ensures e in LoadedAmong(folder, names, ms, n) <==> exists k :: 0 <= k < n && Produces(folder, names, ms, k, e)
    decreases n
  {
    if n > 0 {
      LoadedAmongProduces(folder, names, ms, n - 1, e);
      var before := LoadedAmong(folder, names, ms, n - 1);
      if Produces(folder, names, ms, n - 1, e) {
        assert LoadedAmong(folder, names, ms, n) == before + [e];
      } else if ms[n - 1].Some? {
        var x := LoadedEntry(folder, names[n - 1], ms[n - 1].value);
        assert LoadedAmong(folder, names, ms, n) == before + [x];
      }
    }
  }

  /** An entry is among the first n exactly when one of the first n names
      matched and produced it. */
  lemma LoadedAmongMembership(folder: string, names: seq<string>, ms: seq<Option<WavName>>, n: nat, e: AudioEntry)
    requires n <= |names| == |ms|
    ensures e in LoadedAmong(folder, names, ms, n) <==>
      exists k :: 0 <= k < n && ms[k].Some? && e == LoadedEntry(folder, names[k], ms[k].value)
  {
    LoadedAmongProduces(folder, names, ms, n, e);
    if exists k :: 0 <= k < n && Produces(folder, names, ms, k, e) {
      var k :| 0 <= k < n && Produces(folder, names, ms, k, e);
      assert ms[k].Some? && e == LoadedEntry(folder, names[k], ms[k].value);
    }
    if exists k :: 0 <= k < n && ms[k].Some? && e == LoadedEntry(folder, names[k], ms[k].value) {
      var k :| 0 <= k < n && ms[k].Some? && e == LoadedEntry(folder, names[k], ms[k].value);
      assert Produces(folder, names, ms, k, e);
    }
  }

  /** A loaded entry comes from a name in the list that matched. */
  lemma LoadedFromMembership(folder: string, names: seq<string>, e: AudioEntry)
    ensures e in LoadedFrom(folder, names) <==>
      exists k :: 0 <= k < |names| && ParseWavName(names[k]).Some? &&
        e == LoadedEntry(folder, names[k], ParseWavName(names[k]).value)
  {
    var ms := Matches(names);
    LoadedAmongMembership(folder, names, ms, |names|, e);
  }

  /** When each of the first n names matches, entry k comes from name k. */
  lemma LoadedAmongAll(folder: string, names: seq<string>, ms: seq<Option<WavName>>, n: nat)
    requires n <= |names| == |ms|
    requires forall k :: 0 <= k < n ==> ms[k].Some?
    ensures var entries := LoadedAmong(folder, names, ms, n);
      && |entries| == n
      && forall k :: 0 <= k < n ==> entries[k] == LoadedEntry(folder, names[k], ms[k].value)
  {
    LoadedAmongIndices(folder, names, ms, n);
    AllMatchedIndices(ms, n);
  }

  /** When every name matches, entry k comes from name k. */
  lemma LoadedFromAll(folder: string, names: seq<string>)
    requires forall k :: 0 <= k < |names| ==> ParseWavName(names[k]).Some?
    ensures |LoadedFrom(folder, names)| == |names|
    ensures forall k :: 0 <= k < |names| ==>
      LoadedFrom(folder, names)[k] == LoadedEntry(folder, names[k], ParseWavName(names[k]).value)
  {
    LoadedAmongAll(folder, names, Matches(names), |names|);
  }

  /** The positions among the first n of the names that matched, in order. */
  function MatchedIndices(ms: seq<Option<WavName>>, n: nat): (idx: seq<nat>)
    requires n <= |ms|
    ensures |idx| <= n
    ensures forall i :: 0 <= i < |idx| ==> idx[i] < n && ms[idx[i]].Some?
  {
    if n == 0 then []
    else
      var before := MatchedIndices(ms, n - 1);
      if ms[n - 1].Some? then before + [n - 1] else before
  }

  /** The matching positions are increasing, and none is left out. */
  lemma {:induction false} MatchedIndicesOrdered(ms: seq<Option<WavName>>, n: nat)
    requires n <= |ms|
    ensures var idx := MatchedIndices(ms, n);
      && (forall i, j :: 0 <= i < j < |idx| ==> idx[i] < idx[j])
      && (forall k :: 0 <= k < n && ms[k].Some? ==> k in idx)
    decreases n
  {
    if n > 0 {
      MatchedIndicesOrdered(ms, n - 1);
    }
  }

  /** When each of the first n names matches, the i-th match is name i. */
  lemma {:induction false} AllMatchedIndices(ms: seq<Option<WavName>>, n: nat)
    requires n <= |ms|
    requires forall k :: 0 <= k < n ==> ms[k].Some?
    ensures var idx := MatchedIndices(ms, n);
      |idx| == n && forall i :: 0 <= i < n ==> idx[i] == i
    decreases n
  {
    if n > 0 {
      AllMatchedIndices(ms, n - 1);
      assert MatchedIndices(ms, n) == MatchedIndices(ms, n - 1) + [n - 1];
    }
  }

  /** Entry i of the list comes from the i-th name that matched. */
  lemma {:induction false} LoadedAmongIndices(folder: string, names: seq<string>, ms: seq<Option<WavName>>, n: nat)
    requires n <= |names| == |ms|
    ensures var entries := LoadedAmong(folder, names, ms, n);
      var idx := MatchedIndices(ms, n);
      && |entries| == |idx|
      && (forall i :: 0 <= i < |idx| ==> entries[i] == LoadedEntry(folder, names[idx[i]], ms[idx[i]].value))
    decreases n
  {
    if n > 0 {
      LoadedAmongIndices(folder, names, ms, n - 1);
      var before := LoadedAmong(folder, names, ms, n - 1);
      var earlier := MatchedIndices(ms, n - 1);
      match ms[n - 1]
      case None =>
        assert LoadedAmong(folder, names, ms, n) == before;
        assert MatchedIndices(ms, n) == earlier;
      case Some(w) =>
        var entries := before + [LoadedEntry(folder, names[n - 1], w)];
        var idx := earlier + [n - 1];
        assert LoadedAmong(folder, names, ms, n) == entries;
        assert MatchedIndices(ms, n) == idx;
        forall i | 0 <= i < |idx| ensures entries[i] == LoadedEntry(folder, names[idx[i]], ms[idx[i]].value) {
          if i < |earlier| {
            assert entries[i] == before[i] && idx[i] == earlier[i];
          }
        }
    }
  }

  /** load_audio_files keeps the sorted order: the names the entries come
      from are in ascending code-point order. */
  lemma LoadedInNameOrder(folder: string, listing: seq<string>)
    ensures var files := WavFiles(listing);
      var idx := MatchedIndices(Matches(files), |files|);
      forall i, j :: 0 <= i < j < |idx| ==> LexLe(files[idx[i]], files[idx[j]])
  {
    var files := WavFiles(listing);
    var ms := Matches(files);
    var idx := MatchedIndices(ms, |files|);
    MatchedIndicesOrdered(ms, |files|);
    forall i, j | 0 <= i < j < |idx| ensures LexLe(files[idx[i]], files[idx[j]]) {
      SortedPairs(files, idx[i], idx[j]);
    }
  }

  /** Which character portrait highlight_character lights up. */
  datatype Side = SideA | SideB | Neither

  /** The A side is checked first: a name containing ずんだもん or "A"; then
      the B side: 四国めたん or "B"; otherwise neither. */
  function HighlightCharacter(character: string): (side: Side)
    ensures side == SideA <==> Contains(character, "ずんだもん") || Contains(character, "A")
    ensures side == SideB <==>
      !Contains(character, "ずんだもん") && !Contains(character, "A") &&
      (Contains(character, "四国めたん") || Contains(character, "B"))
  {
    if Contains(character, "ずんだもん") || Contains(character, "A") then SideA
    else if Contains(character, "四国めたん") || Contains(character, "B") then SideB
    else Neither
  }

  /** A string does not contain a text whose first character it lacks. */
  lemma FirstCharAbsent(s: string, t: string)
    requires t != [] && t[0] !in s
    ensures !Contains(s, t)
  {
    forall p: nat | p <= |s| ensures !OccursAt(s, t, p) {
      if p + |t| <= |s| {
        assert s[p..p + |t|][0] == s[p];
      }
    }
  }

  /** Every string contains itself. */
  lemma ContainsSelf(s: string)
    ensures Contains(s, s)
  {
    assert OccursAt(s, s, 0);
  }

  /** The generator's three voices: ずんだもん lights side A, 四国めたん
      side B and 春日部つむぎ neither. */
  lemma HighlightSpeakers()
    ensures HighlightCharacter("ずんだもん") == SideA
    ensures HighlightCharacter("四国めたん") == SideB
    ensures HighlightCharacter("春日部つむぎ") == Neither
  {
    ContainsSelf("ずんだもん");
    ContainsSelf("四国めたん");
    FirstCharAbsent("四国めたん", "ずんだもん");
    FirstCharAbsent("四国めたん", "A");
    FirstCharAbsent("春日部つむぎ", "ずんだもん");
    FirstCharAbsent("春日部つむぎ", "A");
    FirstCharAbsent("春日部つむぎ", "四国めたん");
    FirstCharAbsent("春日部つむぎ", "B");
  }

  /** What ParseLine made of each line. */
  function Speeches(lines: seq<string>): (ps: seq<Option<Speech>>)
    requires NoNewlines(lines)
    ensures |ps| == |lines|
    ensures forall k :: 0 <= k < |lines| ==> ps[k] == ParseLine(lines[k])
  {
    seq(|lines|, k requires 0 <= k < |lines| => ParseLine(lines[k]))
  }

  /** The texts of the first n lines that match the line pattern, in order,
      whatever their speaker. */
  function MatchedTexts(ps: seq<Option<Speech>>, n: nat): (texts: seq<string>)
    requires n <= |ps|
    ensures |texts| <= n
  {
    if n == 0 then []
    else
      var before := MatchedTexts(ps, n - 1);
      match ps[n - 1]
      case None => before
      case Some(sp) => before + [sp.text]
  }

  /** The texts set_skit_text hands out, one per matching line of the
      stripped script. */
  function ScriptTexts(script: string): seq<string> {
    var lines := ScriptLines(script);
    MatchedTexts(Speeches(lines), |lines|)
  }

  /** Entry k takes text k when there is one; the rest keep theirs. */
  function WithTexts(entries: seq<AudioEntry>, texts: seq<string>): (r: seq<AudioEntry>)
    ensures |r| == |entries|
    ensures forall k :: 0 <= k < |entries| ==>
      r[k] == if k < |texts| then entries[k].(text := texts[k]) else entries[k]
  {
    seq(|entries|, k requires 0 <= k < |entries| =>
      if k < |texts| then entries[k].(text := texts[k]) else entries[k])
  }

  /** One text more changes one entry more, while there are entries left. */
  lemma WithTextsSnoc(entries: seq<AudioEntry>, texts: seq<string>, t: string)
    requires |texts| < |entries|
    ensures var before := WithTexts(entries, texts);
      WithTexts(entries, texts + [t]) == before[|texts| := before[|texts|].(text := t)]
  {
  }

  /** Texts beyond the last entry change nothing. */
  lemma WithTextsBeyond(entries: seq<AudioEntry>, texts: seq<string>, t: string)
    requires |texts| >= |entries|
    ensures WithTexts(entries, texts + [t]) == WithTexts(entries, texts)
  {
  }

  /** How a clip handed to play_audio ended, as seen by the playback loop.
      Pause and stop are the user's buttons, pressed on the UI thread. */
  datatype Action = Pause | Stop

  datatype ClipOutcome =
    | Played                  // the clip ran to its end undisturbed
    | Cut(action: Action)     // pressed while the clip played: the poll sees
                              // is_playing cleared, stops it and returns False
    | During(action: Action)  // pressed while play_audio ran, which still
                              // returned True: winsound and the silent wait
                              // cannot be cut off, and pygame misses a press
                              // that comes after its last poll
    | PlayedThen(action: Action)  // pressed in the pause after the position
                              // moved on, before the loop condition is checked
    | Raised                  // play_audio raised (pygame could not load the
                              // file): the thread ends there

  /** Every clip from i up to j ran to its end undisturbed. */
  predicate AllPlayed(outcome: nat -> ClipOutcome, i: nat, j: nat) {
    forall k :: i <= k < j ==> outcome(k).Played?
  }

  /** The first clip from i on that did not run undisturbed, or n. */
  function FirstStop(outcome: nat -> ClipOutcome, i: nat, n: nat): (j: nat)
    requires i <= n
    ensures i <= j <= n && AllPlayed(outcome, i, j)
    ensures j < n ==> !outcome(j).Played?
    decreases n - i
  {
    if i == n || !outcome(i).Played? then i else FirstStop(outcome, i + 1, n)
  }

  lemma {:induction false} FirstStopAt(outcome: nat -> ClipOutcome, i: nat, n: nat, j: nat)
    requires i <= j <= n && AllPlayed(outcome, i, j)
    requires j < n ==> !outcome(j).Played?
    ensures FirstStop(outcome, i, n) == j
    decreases j - i
  {
    if i < j {
      FirstStopAt(outcome, i + 1, n, j);
    }
  }

  /** The position after the loop has handled clip j. A stop during a clip
      that play_audio did not cut off rewinds to 0 before the loop adds 1. */
  function AfterClip(c: ClipOutcome, j: nat): nat {
    match c
    case Played => j + 1
    case Cut(a) => if a == Stop then 0 else j
    case During(a) => if a == Stop then 1 else j + 1
    case PlayedThen(a) => if a == Stop then 0 else j + 1
    case Raised => j
  }

  /** The position when the loop ends, j being the first clip that did not
      run undisturbed (n when all did). */
  function LoopExit(outcome: nat -> ClipOutcome, j: nat, n: nat): nat {
    if j == n then n else AfterClip(outcome(j), j)
  }

  /** on_playback_finished rewinds only a position past the last clip. */
  function Finished(i: nat, n: nat): (r: nat)
    ensures r < n || r == 0
    ensures i < n ==> r == i
    ensures i >= n ==> r == 0
  {
    if i >= n then 0 else i
  }

  /** As written, a stop pressed while a clip that play_audio does not cut
      off is playing leaves the player on the second clip, not the first:
      stop_playback rewinds to 0, then the loop still adds 1 for the clip
      that ran out, and on_playback_finished keeps 1 when there are two or
      more clips. With PlaybackLoop's contract this is where the run ends. */
  lemma StopDuringUncutClip(start: nat, j: nat, n: nat)
    requires start <= j < n && 2 <= n
    ensures var outcome := (k: nat) => if k == j then During(Stop) else Played;
      && FirstStop(outcome, start, n) == j
      && Finished(LoopExit(outcome, j, n), n) == 1
  {
    var outcome := (k: nat) => if k == j then During(Stop) else Played;
    FirstStopAt(outcome, start, n, j);
  }

  /** The loop step with the flag checked again after play_audio returns, as
      a stop evidently intends: a press during the clip ends the loop before
      the position moves on. */
  function RecheckedAfterClip(c: ClipOutcome, j: nat): (r: nat)
    ensures c.Played? ==> r == j + 1
    ensures !c.During? ==> r == AfterClip(c, j)
  {
    match c
    case During(a) => if a == Stop then 0 else j
    case _ => AfterClip(c, j)
  }

  /** With the flag checked again, every stop rewinds the player to the first
      clip, whenever it is pressed and whatever the back end. */
  lemma RecheckedStopRewinds(c: ClipOutcome, j: nat, n: nat)
    requires c.Cut? || c.During? || c.PlayedThen?
    requires c.action == Stop
    ensures Finished(RecheckedAfterClip(c, j), n) == 0
  {
  }

  class SkitPlayer {
    var audioDir: string
    var skitText: string
    var audioFiles: seq<AudioEntry>
    var currentIndex: nat
    var isPlaying: bool

    /** The position is one of the clips, or 0 when there are none. */
    predicate Valid()
      reads this
    {
      currentIndex < |audioFiles| || currentIndex == 0
    }

    /** A player for the clips in audioDir, whose listing is given; an empty
        audioDir loads nothing. The script text is only stored. */
    constructor (audioDir: string, skitText: string, listing: seq<string>)
      ensures this.audioDir == audioDir && this.skitText == skitText
      ensures audioFiles == if audioDir == [] then [] else LoadedFrom(audioDir, WavFiles(listing))
      ensures currentIndex == 0 && !isPlaying && Valid()
    {
      this.audioDir := audioDir;
      this.skitText := skitText;
      audioFiles := [];
      currentIndex := 0;
      isPlaying := false;
      new;
      if audioDir != [] {
        LoadAudioFiles(audioDir, listing);
      }
    }

    /** Rebuilds the clip list from the .wav names of the folder's listing,
        in sorted order, and goes back to the first clip. */
    method LoadAudioFiles(folder: string, listing: seq<string>)
      modifies this
      ensures audioDir == folder && audioFiles == LoadedFrom(folder, WavFiles(listing))
      ensures currentIndex == 0 && Valid()
      ensures isPlaying == old(isPlaying) && skitText == old(skitText)
    {
      audioDir := folder;
      audioFiles := [];
      var files := WavFiles(listing);
      ghost var ms := Matches(files);
      for k := 0 to |files|
        invariant audioFiles == LoadedAmong(folder, files, ms, k)
        invariant audioDir == folder && isPlaying == old(isPlaying) && skitText == old(skitText)
      {
        var m := ParseWavName(files[k]);
        assert m == ms[k];
        if m.Some? {
          var entry := AudioEntry(JoinPath(folder, files[k]), m.value.character, Placeholder(m.value.index), m.value.index);
          audioFiles := audioFiles + [entry];
        }
      }
      currentIndex := 0;
      assert audioFiles == LoadedFrom(folder, files);
    }

    /** Hands the texts of the script's matching lines to the entries in
        order; an empty script changes nothing. */
    method SetSkitText(script: string)
      modifies this
      ensures audioFiles == if script == [] then old(audioFiles) else WithTexts(old(audioFiles), ScriptTexts(script))
      ensures audioDir == old(audioDir) && skitText == old(skitText)
      ensures currentIndex == old(currentIndex) && isPlaying == old(isPlaying)
    {
      if script == [] {
        return;
      }
      AssignTexts(ScriptLines(script));
    }

    /** The loop of set_skit_text over the lines, with its line_index
        counter: the k-th matching line goes to entry k while there is one. */
    method AssignTexts(lines: seq<string>)
      requires NoNewlines(lines)
      modifies this
      ensures audioFiles == WithTexts(old(audioFiles), MatchedTexts(Speeches(lines), |lines|))
      ensures audioDir == old(audioDir) && skitText == old(skitText)
      ensures currentIndex == old(currentIndex) && isPlaying == old(isPlaying)
    {
      ghost var ps := Speeches(lines);
      var lineIndex := 0;
      for k := 0 to |lines|
        invariant |audioFiles| == |old(audioFiles)|
        invariant audioFiles == WithTexts(old(audioFiles), MatchedTexts(ps, k))
        invariant lineIndex == if |MatchedTexts(ps, k)| < |audioFiles| then |MatchedTexts(ps, k)| else |audioFiles|
        invariant audioDir == old(audioDir) && skitText == old(skitText)
        invariant currentIndex == old(currentIndex) && isPlaying == old(isPlaying)
      {
        var m := ParseLine(lines[k]);
        assert m == ps[k];
        ghost var texts := MatchedTexts(ps, k);
        if m.Some? {
          assert MatchedTexts(ps, k + 1) == texts + [m.value.text];
          if lineIndex < |audioFiles| {
            assert lineIndex == |texts|;
            WithTextsSnoc(old(audioFiles), texts, m.value.text);
            audioFiles := audioFiles[lineIndex := audioFiles[lineIndex].(text := m.value.text)];
            lineIndex := lineIndex + 1;
          } else {
            WithTextsBeyond(old(audioFiles), texts, m.value.text);
          }
        } else {
          assert MatchedTexts(ps, k + 1) == texts;
        }
      }
    }

    /** Moves back one clip, unless at the first. */
    method PrevLine()
      modifies this
      ensures currentIndex == if old(currentIndex) > 0 then old(currentIndex) - 1 else old(currentIndex)
      ensures audioFiles == old(audioFiles) && isPlaying == old(isPlaying)
      ensures audioDir == old(audioDir) && skitText == old(skitText)
      ensures old(Valid()) ==> Valid()
    {
      if currentIndex > 0 {
        currentIndex := currentIndex - 1;
      }
    }

    /** Moves on one clip, unless at the last. */
    method NextLine()
      modifies this
      ensures currentIndex == if old(currentIndex) < |audioFiles| - 1 then old(currentIndex) + 1 else old(currentIndex)
      ensures audioFiles == old(audioFiles) && isPlaying == old(isPlaying)
      ensures audioDir == old(audioDir) && skitText == old(skitText)
      ensures old(Valid()) ==> Valid()
    {
      if currentIndex < |audioFiles| - 1 {
        currentIndex := currentIndex + 1;
      }
    }

    /** Jumps to the clip picked in the list; selection holds positions of
        the list box, which shows one row per clip. */
    method OnLineSelect(selection: seq<nat>)
      modifies this
      ensures currentIndex == if selection == [] then old(currentIndex) else selection[0]
      ensures audioFiles == old(audioFiles) && isPlaying == old(isPlaying)
      ensures audioDir == old(audioDir) && skitText == old(skitText)
      ensures old(Valid()) && (selection == [] || selection[0] < |audioFiles|) ==> Valid()
    {
      if selection != [] {
        currentIndex := selection[0];
      }
    }

    /** Clears the playing flag and keeps the position. */
    method PausePlayback()
      modifies this
      ensures !isPlaying && currentIndex == old(currentIndex)
      ensures audioFiles == old(audioFiles) && audioDir == old(audioDir) && skitText == old(skitText)
    {
      isPlaying := false;
    }

    /** Clears the playing flag and rewinds to the first clip. */
    method StopPlayback()
      modifies this
      ensures !isPlaying && currentIndex == 0 && Valid()
      ensures audioFiles == old(audioFiles) && audioDir == old(audioDir) && skitText == old(skitText)
    {
      isPlaying := false;
      currentIndex := 0;
    }

    /** Sets the playing flag, or with no clips warns and changes nothing.
        The playback thread it starts is PlaybackLoop. */
    method StartPlayback() returns (warned: bool)
      modifies this
      ensures warned <==> audioFiles == []
      ensures isPlaying == if warned then old(isPlaying) else true
      ensures currentIndex == old(currentIndex)
      ensures audioFiles == old(audioFiles) && audioDir == old(audioDir) && skitText == old(skitText)
    {
      if audioFiles == [] {
        return true;
      }
      isPlaying := true;
      return false;
    }

    /** The play/pause button: pauses while playing, starts otherwise. */
    method TogglePlay() returns (warned: bool)
      modifies this
      ensures old(isPlaying) ==> !isPlaying && !warned
      ensures !old(isPlaying) ==> (warned <==> audioFiles == []) && (isPlaying <==> !warned)
      ensures currentIndex == old(currentIndex)
      ensures audioFiles == old(audioFiles) && audioDir == old(audioDir) && skitText == old(skitText)
    {
      if isPlaying {
        PausePlayback();
        warned := false;
      } else {
        warned := StartPlayback();
      }
    }

    /** A press of pause or stop. */
    method Press(action: Action)
      modifies this
      ensures !isPlaying
      ensures currentIndex == if action == Stop then 0 else old(currentIndex)
      ensures audioFiles == old(audioFiles) && audioDir == old(audioDir) && skitText == old(skitText)
    {
      match action
      case Pause => PausePlayback();
      case Stop => StopPlayback();
    }

    /** Plays one clip, during which pause or stop may be pressed: returns
        False when the press cut the clip off, True when the clip ran to its
        end. An exception from the backend is reported as False too; the
        caller tells it apart by the outcome. */
    method PlayAudio(outcome: ClipOutcome) returns (completed: bool)
      modifies this
      ensures completed <==> !outcome.Cut? && !outcome.Raised?
      ensures outcome.Cut? || outcome.During? ==>
        !isPlaying && currentIndex == (if outcome.action == Stop then 0 else old(currentIndex))
      ensures !outcome.Cut? && !outcome.During? ==> isPlaying == old(isPlaying) && currentIndex == old(currentIndex)
      ensures audioFiles == old(audioFiles) && audioDir == old(audioDir) && skitText == old(skitText)
    {
      match outcome
      case Cut(a) =>
        Press(a);
        return false;
      case During(a) =>
        Press(a);
        return true;
      case Raised =>
        return false;
      case _ =>
        return true;
    }

    /** Ends a playback run: clears the flag and rewinds a position that ran
        past the last clip. */
    method OnPlaybackFinished()
      modifies this
      ensures !isPlaying && currentIndex == Finished(old(currentIndex), |audioFiles|) && Valid()
      ensures audioFiles == old(audioFiles) && audioDir == old(audioDir) && skitText == old(skitText)
    {
      isPlaying := false;
      if currentIndex >= |audioFiles| {
        currentIndex := 0;
      }
    }

    /** One pass of the loop body: clip i is handed to play_audio and, when
        it was not cut off, the position moves past it; a press that came
        with the clip then takes effect. */
    method PlayClip(clip: ClipOutcome) returns (completed: bool)
      requires isPlaying
      modifies this
      ensures completed <==> !clip.Cut? && !clip.Raised?
      ensures isPlaying <==> clip.Played? || clip.Raised?
      ensures currentIndex == AfterClip(clip, old(currentIndex))
      ensures audioFiles == old(audioFiles) && audioDir == old(audioDir) && skitText == old(skitText)
    {
      completed := PlayAudio(clip);
      if completed {
        currentIndex := currentIndex + 1;
        if clip.PlayedThen? {
          Press(clip.action);
        }
      }
    }

    /** The while loop of playback_loop: clips are handed to play_audio from
        the current position on until the flag is cleared, the clips run
        out, or play_audio reports a cut. raised says the last clip's
        playback raised, which ends the thread there. */
    method RunClips(outcome: nat -> ClipOutcome) returns (played: seq<AudioEntry>, raised: bool)
      modifies this
      ensures audioFiles == old(audioFiles) && audioDir == old(audioDir) && skitText == old(skitText)
      ensures var n := |audioFiles|;
        var start := old(currentIndex);
        if old(isPlaying) && start < n then
          var j := FirstStop(outcome, start, n);
          && played == audioFiles[start..if j == n then n else j + 1]
          && currentIndex == LoopExit(outcome, j, n)
          && (raised <==> j < n && outcome(j).Raised?)
          && (raised ==> isPlaying)
          && (j == n ==> isPlaying)
        else
          played == [] && currentIndex == start && !raised && isPlaying == old(isPlaying)
    {
      played := [];
      ghost var start := currentIndex;
      ghost var n := |audioFiles|;
      ghost var stop := currentIndex;
      raised := false;
      while isPlaying && currentIndex < |audioFiles|
        invariant audioFiles == old(audioFiles) && audioDir == old(audioDir) && skitText == old(skitText)
        invariant !raised
        invariant !(old(isPlaying) && start < n) ==> currentIndex == start && played == [] && isPlaying == old(isPlaying)
        invariant old(isPlaying) && start < n && isPlaying ==>
          start <= currentIndex <= n && AllPlayed(outcome, start, currentIndex) &&
          played == audioFiles[start..currentIndex]
        invariant old(isPlaying) && start < n && !isPlaying ==>
          start <= stop < n && AllPlayed(outcome, start, stop) && !outcome(stop).Played? &&
          !outcome(stop).Raised? &&
          played == audioFiles[start..stop + 1] && currentIndex == AfterClip(outcome(stop), stop)
        decreases isPlaying, n - currentIndex
      {
        stop := currentIndex;
        played := played + [audioFiles[currentIndex]];
        var clip := outcome(currentIndex);
        var completed := PlayClip(clip);
        if !completed {
          raised := clip.Raised?;
          break;
        }
      }
      if old(isPlaying) && start < n {
        ghost var j := if isPlaying && !raised then n else stop;
        FirstStopAt(outcome, start, n, j);
        assert played == audioFiles[start..if j == n then n else j + 1];
      }
    }

    /** The playback thread, run to its end, followed by the finishing
        callback it schedules. outcome(k) says how clip k ends; played are
        the clips handed to play_audio, in order. A clip whose playback
        raises ends the thread before the callback is scheduled, so the
        playing flag stays set. */
    method PlaybackLoop(outcome: nat -> ClipOutcome) returns (played: seq<AudioEntry>)
      modifies this
      ensures audioFiles == old(audioFiles) && audioDir == old(audioDir) && skitText == old(skitText)
      ensures Valid()
      ensures var n := |audioFiles|;
        var start := old(currentIndex);
        if old(isPlaying) && start < n then
          var j := FirstStop(outcome, start, n);
          && played == audioFiles[start..if j == n then n else j + 1]
          && if j < n && outcome(j).Raised? then isPlaying && currentIndex == j
             else !isPlaying && currentIndex == Finished(LoopExit(outcome, j, n), n)
        else
          played == [] && !isPlaying && currentIndex == Finished(start, n)
    {
      var raised;
      played, raised := RunClips(outcome);
      if !raised {
        OnPlaybackFinished();
      }
    }
  }
}
