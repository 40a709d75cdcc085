/** The "label: text" line format of a skit script, which the generator
    (voicevox_api.py) and the player (player.py) both read with the pattern
    ^(.+?)[:：]\s*(.+)$ applied to each piece of script.strip().split("\n"). */
module SkitScript {
  import opened Wrappers
  import opened Text

  /** The ASCII colon or the full-width colon U+FF1A. */
  predicate IsColon(c: char) {
    c == ':' || c == '：'
  }

  /** The pattern can split line at a colon at index k: the lazy (.+?) needs
      at least one character before it and (.+) at least one after it. */
  predicate SplitsAt(line: string, k: nat) {
    1 <= k && k + 1 < |line| && IsColon(line[k])
  }

  /** No colon lies from index i up to, not including, j. */
  predicate NoColonBetween(line: string, i: nat, j: nat) {
    forall k :: i <= k < j && k < |line| ==> !IsColon(line[k])
  }

  function SplitPointFrom(line: string, from: nat): (r: Option<nat>)
    requires 1 <= from
    ensures r.Some? ==> from <= r.value && SplitsAt(line, r.value)
    ensures r.Some? ==> NoColonBetween(line, from, r.value)
    ensures r.None? ==> forall j :: from <= j ==> !SplitsAt(line, j)
    decreases |line| - from
  {
    if from + 1 >= |line| then None
    else if IsColon(line[from]) then Some(from)
    else SplitPointFrom(line, from + 1)
  }

  /** Where the lazy label group ends: the first colon at index 1 or later,
      provided something follows it. */
  function SplitPoint(line: string): (r: Option<nat>)
    ensures r.Some? ==> SplitsAt(line, r.value)
    ensures r.Some? ==> NoColonBetween(line, 1, r.value)
    ensures r.None? <==> forall j :: !SplitsAt(line, j)
  {
    SplitPointFrom(line, 1)
  }

  /** What the (.+) group captures after \s* has taken the whitespace that
      follows the colon: everything from the first non-space character, or,
      when nothing but whitespace follows, the last character (the greedy
      \s* gives one back so that (.+) can match). */
  function RegexRemainder(rest: string): (g: string)
    requires rest != []
    ensures g != [] && Strip(g) == Strip(rest)
  {
    var a := SkipSpaces(rest, 0, |rest|);
    if a < |rest| then
      assert AllSpace(rest[..a]) by {
        assert forall i :: 0 <= i < a ==> rest[..a][i] == rest[i];
      }
      assert rest == rest[..a] + rest[a..];
      StripLeadingSpaces(rest[..a], rest[a..]);
      rest[a..]
    else
      assert AllSpace(rest);
      assert AllSpace(rest[|rest| - 1..]);
      rest[|rest| - 1..]
  }

  /** One "speaker: line" pair, both stripped. */
  datatype Speech = Speech(speaker: string, text: string)

  /** re.match(r'^(.+?)[:：]\s*(.+)$', line) followed by group(1).strip()
      and group(2).strip(). Lines never hold a newline here: every caller
      passes a piece of a split on "\n", and `.` does not match one. The
      stripped groups are computed on the line itself; ParseLineGroups
      shows that they are the groups the pattern captures. */
  function ParseLine(line: string): (r: Option<Speech>)
    requires '\n' !in line
    ensures r.Some? <==> exists k :: SplitsAt(line, k)
  {
    match SplitPoint(line)
    case None => None
    case Some(k) => Some(Speech(StripRange(line, 0, k), StripRange(line, k + 1, |line|)))
  }

  /** A line that matches yields its two groups stripped: the label before
      the first colon that can split it, and what (.+) captures after the
      whitespace that follows that colon; the latter is also the stripped
      rest of the line. */
  lemma ParseLineGroups(line: string)
    requires '\n' !in line && ParseLine(line).Some?
    ensures var k := SplitPoint(line).value;
      && ParseLine(line).value.speaker == Strip(line[..k])
      && ParseLine(line).value.text == Strip(RegexRemainder(line[k + 1..]))
      && ParseLine(line).value.text == Strip(line[k + 1..])
  {
    var k := SplitPoint(line).value;
    StripRangePrefix(line, k);
    StripRangeSuffix(line, k + 1);
    assert Strip(RegexRemainder(line[k + 1..])) == Strip(line[k + 1..]);
  }

  predicate NoNewlines(lines: seq<string>) {
    forall k :: 0 <= k < |lines| ==> '\n' !in lines[k]
  }

  /** script.strip().split("\n"): the lines the pattern is applied to. */
  function ScriptLines(script: string): (lines: seq<string>)
    ensures |lines| >= 1 && NoNewlines(lines)
    ensures Join(lines, '\n') == Strip(script)
  {
    JoinSplit(Strip(script), '\n');
    Split(Strip(script), '\n')
  }

  /** A script of whitespace only is one empty line. */
  lemma BlankScriptLines(script: string)
    requires AllSpace(script)
    ensures ScriptLines(script) == [[]]
  {
  }

  /** A line made of a name with no colon after its first character, a
      colon and a non-empty text is split at that colon. */
  lemma ParseLineShape(name: string, colon: char, text: string)
    requires name != [] && text != [] && IsColon(colon)
    requires forall j :: 1 <= j < |name| ==> !IsColon(name[j])
    requires '\n' !in name && '\n' !in text
    ensures ParseLine(name + [colon] + text) == Some(Speech(Strip(name), Strip(text)))
  {
    var line := name + [colon] + text;
    assert SplitsAt(line, |name|);
    assert line[|name|] == colon;
    assert forall j :: 1 <= j < |name| ==> !IsColon(line[j]) by {
      forall j | 1 <= j < |name| ensures !IsColon(line[j]) {
        assert line[j] == name[j];
      }
    }
    var k := SplitPoint(line).value;
    assert IsColon(line[k]);
    assert k == |name|;
    assert line[..|name|] == name && line[|name| + 1..] == text;
    ParseLineGroups(line);
  }
}
