/** How the generator's output (voicevox_api.py) and the player's loader
    (player.py) fit together: the file names one writes are the names the
    other parses, and the texts the player hands to the clips. */
module Pipeline {
  import opened Wrappers
  import opened Text
  import opened Numerals
  import opened SkitScript
  import opened Voicevox
  import opened Player

  /** The name f"{i:03d}_{character}.wav" loads back as index i and the
      character, for any name without a newline. */
  lemma GeneratedNameLoads(i: nat, c: string)
    requires c != [] && '\n' !in c
    ensures ParseWavName(WavFileName(i, c)) == Some(WavName(i, c))
  {
    ParseWavNameOf(Pad3(i), c);
  }

  /** The generator's voices are names the loader can read back. */
  lemma SpeakerNamesLoadable(c: string)
    requires c in SpeakerIds
    ensures c != [] && '\n' !in c
  {
  }

  /** Two strings that agree before position k and differ there compare
      like their characters at k. */
  lemma {:induction false} LexLtAt(a: string, b: string, k: nat)
    requires k < |a| && k < |b| && a[..k] == b[..k] && a[k] < b[k]
    ensures LexLt(a, b)
    decreases k
  {
    if k > 0 {
      assert a[0] == a[..k][0] && b[0] == b[..k][0];
      assert a[1..][..k - 1] == a[..k][1..] && b[1..][..k - 1] == b[..k][1..];
      LexLtAt(a[1..], b[1..], k - 1);
    }
  }

  /** A number below 1000 is its hundreds, tens and units digits. */
  lemma ThreeDigits(i: nat)
    requires i < 1000
    ensures i / 100 < 10 && i == 100 * (i / 100) + 10 * (i / 10 % 10) + i % 10
  {
    assert i / 10 / 10 == i / 100;
  }

  /** Below 1000 the three digits of a smaller index come first in the
      string order: a position where the padded numerals first differ. */
  lemma Pad3FirstDifference(i: nat, j: nat) returns (k: nat)
    requires i < j < 1000
    ensures k < 3 && Pad3(i)[..k] == Pad3(j)[..k] && Pad3(i)[k] < Pad3(j)[k]
  {
    Pad3Digits(i);
    Pad3Digits(j);
    ThreeDigits(i);
    ThreeDigits(j);
    var a, b := Pad3(i), Pad3(j);
    if i / 100 != j / 100 {
      k := 0;
    } else if i / 10 % 10 != j / 10 % 10 {
      assert a[..1] == b[..1];
      k := 1;
    } else {
      assert a[..2] == b[..2];
      k := 2;
    }
  }

  /** With indices below 1000, sorting the generated names sorts them by
      index, whatever the characters. */
  lemma NameOrderIsIndexOrder(i: nat, c: string, j: nat, d: string)
    requires i < j < 1000
    ensures LexLt(WavFileName(i, c), WavFileName(j, d))
  {
    var k := Pad3FirstDifference(i, j);
    var a := WavFileName(i, c);
    var b := WavFileName(j, d);
    assert a[..k] == Pad3(i)[..k] && a[k] == Pad3(i)[k];
    assert b[..k] == Pad3(j)[..k] && b[k] == Pad3(j)[k];
    LexLtAt(a, b, k);
  }

  lemma Pad3Of1000()
    ensures Pad3(1000) == "1000"
  {
    assert Decimal(1) == "1";
    assert Decimal(10) == Decimal(1) + "0";
    assert Decimal(100) == Decimal(10) + "0";
    assert Decimal(1000) == Decimal(100) + "0";
    DecimalLength(1000);
  }

  /** From index 1000 on the numerals have four digits and the order breaks:
      the clip of line 1000 sorts before the clip of line 101. */
  lemma NameOrderPast999(c: string)
    ensures LexLt(WavFileName(1000, c), WavFileName(101, c))
  {
    Pad3Of1000();
    Pad3Digits(101);
    var a := WavFileName(1000, c);
    var b := WavFileName(101, c);
    assert a[..2] == "10" == b[..2];
    assert a[2] == '0' && b[2] == '1';
    LexLtAt(a, b, 2);
  }

  /** The names the generator writes for utterances us, in order. */
  function GeneratedNames(us: seq<Utterance>): (names: seq<string>)
    ensures |names| == |us|
    ensures forall k :: 0 <= k < |us| ==> names[k] == WavFileName(us[k].line, us[k].character)
  {
    seq(|us|, k requires 0 <= k < |us| => WavFileName(us[k].line, us[k].character))
  }

  /** The utterances are in increasing line order below line 1000, and
      each has one of the generator's voices. */
  predicate Generated(us: seq<Utterance>) {
    && (forall j, k :: 0 <= j < k < |us| ==> us[j].line < us[k].line)
    && (forall k :: 0 <= k < |us| ==> us[k].line < 1000 && us[k].character in SpeakerIds)
  }

  lemma GeneratedNamesSorted(us: seq<Utterance>)
    requires Generated(us)
    ensures Sorted(GeneratedNames(us))
  {
    var names := GeneratedNames(us);
    forall k | 0 < k < |names| ensures LexLe(names[k - 1], names[k]) {
      NameOrderIsIndexOrder(us[k - 1].line, us[k - 1].character, us[k].line, us[k].character);
    }
  }

  /** A listing of .wav names only is kept whole by the filter. */
  lemma {:induction false} WavNamesOfWavs(listing: seq<string>)
    requires forall k :: 0 <= k < |listing| ==> EndsWithWav(listing[k])
    ensures WavNames(listing) == listing
    decreases |listing|
  {
    if listing != [] {
      var rest := listing[1..];
      assert forall k :: 0 <= k < |rest| ==> rest[k] == listing[k + 1];
      WavNamesOfWavs(rest);
      assert EndsWithWav(listing[0]);
      assert listing == [listing[0]] + rest;
    }
  }

  /** Whatever order the folder is listed in, the loader's filter and sort
      give back the generated names in script order. */
  lemma GeneratedListingSorts(us: seq<Utterance>, listing: seq<string>)
    requires Generated(us)
    requires multiset(listing) == multiset(GeneratedNames(us))
    ensures WavFiles(listing) == GeneratedNames(us)
  {
    var names := GeneratedNames(us);
    forall k | 0 <= k < |listing| ensures EndsWithWav(listing[k]) {
      assert listing[k] in multiset(names);
      var j :| 0 <= j < |names| && names[j] == listing[k];
      assert listing[k][|listing[k]| - 4..] == ".wav";
    }
    WavNamesOfWavs(listing);
    GeneratedNamesSorted(us);
    SortedUnique(Sort(listing), names);
  }

  /** Every generated name parses back to its line and character. */
  lemma GeneratedNamesParse(us: seq<Utterance>)
    requires Generated(us)
    ensures forall k :: 0 <= k < |us| ==>
      ParseWavName(GeneratedNames(us)[k]) == Some(WavName(us[k].line, us[k].character))
  {
    forall k | 0 <= k < |us|
      ensures ParseWavName(GeneratedNames(us)[k]) == Some(WavName(us[k].line, us[k].character))
    {
      SpeakerNamesLoadable(us[k].character);
      GeneratedNameLoads(us[k].line, us[k].character);
    }
  }

  /** A folder that holds exactly the generated clips, listed in any order,
      loads one entry per utterance in script order, each naming the file
      the generator wrote, its character, its line as index and the
      placeholder text. */
  lemma GeneratedFolderLoads(folder: string, us: seq<Utterance>, listing: seq<string>)
    requires Generated(us)
    requires multiset(listing) == multiset(GeneratedNames(us))
    ensures var entries := LoadedFrom(folder, WavFiles(listing));
      && |entries| == |us|
      && forall k :: 0 <= k < |us| ==>
        entries[k] == AudioEntry(FilePath(folder, us[k]), us[k].character, Placeholder(us[k].line), us[k].line)
  {
    GeneratedListingSorts(us, listing);
    GeneratedNamesParse(us);
    LoadedFromAll(folder, GeneratedNames(us));
  }

  /** The clips of a script of at most 1000 lines, written to a folder that
      holds nothing else, load in script order. */
  lemma ScriptClipsLoad(script: string, folder: string, listing: seq<string>)
    requires |ScriptLines(script)| <= 1000
    requires multiset(listing) == multiset(GeneratedNames(Utterances(script)))
    ensures var us := Utterances(script);
      var entries := LoadedFrom(folder, WavFiles(listing));
      && |entries| == |us|
      && forall k :: 0 <= k < |us| ==>
        entries[k] == AudioEntry(FilePath(folder, us[k]), us[k].character, Placeholder(us[k].line), us[k].line)
  {
    var us := Utterances(script);
    UtterancesOrdered(script);
    forall k | 0 <= k < |us| ensures us[k].line < 1000 && us[k].character in SpeakerIds {
      UtteranceOfScript(script, us[k]);
    }
    GeneratedFolderLoads(folder, us, listing);
  }

  /** A script of two lines, the first not starting and the second not
      ending with whitespace, is split into those two lines. */
  lemma TwoScriptLines(first: string, second: string)
    requires first != [] && second != [] && !IsSpace(first[0]) && !IsSpace(second[|second| - 1])
    requires '\n' !in first && '\n' !in second
    ensures ScriptLines(first + "\n" + second) == [first, second]
  {
    var script := first + "\n" + second;
    assert script[0] == first[0] && script[|script| - 1] == second[|second| - 1];
    assert Strip(script) == script;
    SplitAtSeparator(first, '\n', second);
    SplitWithout(second, '\n');
  }

  /** A title line before a line of a voice: the generator keeps only the
      second line, as line 1, while set_skit_text hands out both texts in
      order, the title's first. */
  lemma TitleBeforeSpeech(title: string, speech: string, t: string, x: string, c: string, y: string)
    requires '\n' !in title && '\n' !in speech
    requires ParseLine(title) == Some(Speech(t, x)) && t !in SpeakerIds
    requires ParseLine(speech) == Some(Speech(c, y)) && c in SpeakerIds
    ensures var lines := [title, speech];
      && KeptAmong(Selections(lines), 2) == [Utterance(1, c, y)]
      && MatchedTexts(Speeches(lines), 2) == [x, y]
  {
    var lines := [title, speech];
    var sel := Selections(lines);
    assert sel[0] == None && sel[1] == Some(Utterance(1, c, y));
    assert KeptAmong(sel, 1) == [];
    var ps := Speeches(lines);
    assert ps[0] == Some(Speech(t, x)) && ps[1] == Some(Speech(c, y));
    assert MatchedTexts(ps, 1) == [x];
  }

  /** A line "name:text" whose parts have no whitespace at their ends, and
      whose name holds no colon after its first character, parses to
      exactly those parts. */
  lemma TrimmedLineParses(name: string, text: string)
    requires name != [] && text != []
    requires forall j :: 1 <= j < |name| ==> !IsColon(name[j])
    requires '\n' !in name && '\n' !in text
    requires !IsSpace(name[0]) && !IsSpace(name[|name| - 1])
    requires !IsSpace(text[0]) && !IsSpace(text[|text| - 1])
    ensures ParseLine(name + ":" + text) == Some(Speech(name, text))
  {
    ParseLineShape(name, ':', text);
    StripSliceKept(name, 0, |name|);
    StripSliceKept(text, 0, |text|);
    assert name[0..|name|] == name && text[0..|text|] == text;
    assert name + ":" + text == name + [':'] + text;
  }

  /** What the pattern makes of the two lines of the script below. */
  lemma TitleScriptLinesParse()
    ensures ParseLine("T:x") == Some(Speech("T", "x"))
    ensures ParseLine("ずんだもん:y") == Some(Speech("ずんだもん", "y"))
  {
    TrimmedLineParses("T", "x");
    assert "T" + ":" + "x" == "T:x";
    TrimmedLineParses("ずんだもん", "y");
    assert "ずんだもん" + ":" + "y" == "ずんだもん:y";
  }

  /** The script of the finding below: a title line, then a line of
      ずんだもん. */
  function TitleScript(): string {
    "T:x" + "\n" + "ずんだもん:y"
  }

  /** set_skit_text as written: a matching line whose label is not a voice
      (the title "T:x") produces no clip but still takes the first clip's
      place, so the clip of line 1 is shown the title's text. */
  lemma TitleLineTakesFirstClip(folder: string)
    ensures Utterances(TitleScript()) == [Utterance(1, "ずんだもん", "y")]
    ensures var e := LoadedEntry(folder, WavFileName(1, "ずんだもん"), WavName(1, "ずんだもん"));
      WithTexts([e], ScriptTexts(TitleScript()))[0].text == "x"
  {
    var lines := ["T:x", "ずんだもん:y"];
    TwoScriptLines("T:x", "ずんだもん:y");
    assert ScriptLines(TitleScript()) == lines;
    TitleScriptLinesParse();
    TitleBeforeSpeech("T:x", "ずんだもん:y", "T", "x", "ずんだもん", "y");
    assert ScriptTexts(TitleScript()) == ["x", "y"];
    assert Utterances(TitleScript()) == KeptAmong(Selections(lines), 2);
  }

  /** The text a clip is evidently meant to show: that of the script line
      its index names, when that line matches; otherwise its own. */
  function TextOfLine(lines: seq<string>, e: AudioEntry): string
    requires NoNewlines(lines)
  {
    if e.index < |lines| && ParseLine(lines[e.index]).Some? then ParseLine(lines[e.index]).value.text
    else e.text
  }

  /** set_skit_text with each clip looking up its own line. */
  function IndexedTexts(entries: seq<AudioEntry>, script: string): (r: seq<AudioEntry>)
    ensures |r| == |entries|
    ensures forall k :: 0 <= k < |entries| ==>
      r[k] == entries[k].(text := TextOfLine(ScriptLines(script), entries[k]))
  {
    var lines := ScriptLines(script);
    seq(|entries|, k requires 0 <= k < |entries| => entries[k].(text := TextOfLine(lines, entries[k])))
  }

  /** A clip whose index is the line of one of the script's utterances
      is given that utterance's text by the lookup. */
  lemma TextOfUtteranceLine(script: string, u: Utterance, e: AudioEntry)
    requires u in Utterances(script) && e.index == u.line
    ensures TextOfLine(ScriptLines(script), e) == u.text
  {
    UtteranceOfScript(script, u);
  }

  /** Looked up by index, every clip the generator made from a script shows
      the text of its own line, whatever lines without a voice come
      before it. */
  lemma IndexedTextOfGenerated(folder: string, script: string, u: Utterance)
    requires u in Utterances(script)
    ensures var e := LoadedEntry(folder, WavFileName(u.line, u.character), WavName(u.line, u.character));
      IndexedTexts([e], script)[0].text == u.text
  {
    TextOfUtteranceLine(script, u, LoadedEntry(folder, WavFileName(u.line, u.character), WavName(u.line, u.character)));
  }

  /** For the title script above, the lookup by index gives the clip its
      own line's text. */
  lemma TitleLineIndexed(folder: string)
    ensures var e := LoadedEntry(folder, WavFileName(1, "ずんだもん"), WavName(1, "ずんだもん"));
      IndexedTexts([e], TitleScript())[0].text == "y"
  {
    TitleLineTakesFirstClip(folder);
    IndexedTextOfGenerated(folder, TitleScript(), Utterance(1, "ずんだもん", "y"));
  }

  /** With the lookup by index, every clip loaded from the folder of a
      generated script shows the text of its own line. */
  lemma IndexedTextsOfFolder(script: string, folder: string, listing: seq<string>)
    requires |ScriptLines(script)| <= 1000
    requires multiset(listing) == multiset(GeneratedNames(Utterances(script)))
    ensures var us := Utterances(script);
      var entries := IndexedTexts(LoadedFrom(folder, WavFiles(listing)), script);
      && |entries| == |us|
      && forall k :: 0 <= k < |us| ==>
        entries[k] == AudioEntry(FilePath(folder, us[k]), us[k].character, us[k].text, us[k].line)
  {
    var us := Utterances(script);
    var loaded := LoadedFrom(folder, WavFiles(listing));
    ScriptClipsLoad(script, folder, listing);
    forall k | 0 <= k < |us| ensures TextOfLine(ScriptLines(script), loaded[k]) == us[k].text {
      TextOfUtteranceLine(script, us[k], loaded[k]);
    }
  }
}
