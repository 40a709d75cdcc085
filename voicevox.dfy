/** voicevox_api.py: the client of the VOICEVOX speech-synthesis service
    and the generator that turns a skit script into one .wav file per line.

    The HTTP transport is abstracted: a Service gives, for each call, how
    that call ended (a status code with the decoded body, or an exception
    with its message). Every function that talks to the service also reports
    the requests it sends, so that "no call" and "no later call" can be
    stated. */
module Voicevox {
  import opened Wrappers
  import opened Text
  import opened Numerals
  import opened SkitScript

  /** SPEAKER_IDS: the characters the generator can voice and their
      VOICEVOX speaker ids. */
  const SpeakerIds: map<string, nat> := map["ずんだもん" := 3, "四国めたん" := 2, "春日部つむぎ" := 8]

  newtype byte = x: int | 0 <= x < 256

  type Audio = seq<byte>

  /** The JSON structure /audio_query returns and /synthesis takes back. */
  datatype AudioQuery = AudioQuery(json: string)

  /** How one request ended: a response (status code and decoded body) or
      an exception raised by the HTTP client, with str(e). */
  datatype Reply<T> = Response(status: nat, body: T) | Raised(message: string)

  /** The service: GET /version, POST /audio_query with text and speaker,
      POST /synthesis with speaker and a query. Replies are per call: the
      first argument is the number of requests the client sent before this
      one, so the same request can time out once and succeed later. */
  datatype Service = Service(
    version: Reply<string>,
    audioQuery: (nat, string, nat) -> Reply<AudioQuery>,
    synthesis: (nat, AudioQuery, nat) -> Reply<Audio>)

  datatype Request =
    | AudioQueryRequest(text: string, speaker: nat)
    | SynthesisRequest(query: AudioQuery, speaker: nat)

  /** The {"success": ..., "error": ...} dictionaries of the source. */
  datatype Result<T> = Success(value: T) | Failure(error: string)

  /** A call's result together with the requests it sent, in order. */
  datatype Exchange = Exchange(result: Result<Audio>, sent: seq<Request>)

  function StatusError(status: nat): string {
    "Status " + Decimal(status)
  }

  /** The status code can be read back from a "Status N" error. */
  lemma StatusErrorInjective(a: nat, b: nat)
    requires StatusError(a) == StatusError(b)
    ensures a == b
  {
    assert Decimal(a) == StatusError(a)[7..] == StatusError(b)[7..] == Decimal(b);
    ParseDecimalOfDecimal(a);
    ParseDecimalOfDecimal(b);
  }

  /** is_available: true exactly when /version answers 200; an exception
      gives false, never an error. */
  function IsAvailable(svc: Service): (up: bool)
    ensures up <==> svc.version.Response? && svc.version.status == 200
  {
    match svc.version
    case Response(status, _) => status == 200
    case Raised(_) => false
  }

  /** get_audio_query: the decoded query on 200, otherwise "Status N" or the
      exception text. A 200 whose body is not JSON raises inside the same
      try, so the service reports it as Raised. */
  function GetAudioQuery(svc: Service, call: nat, text: string, speakerId: nat): (r: Result<AudioQuery>)
    ensures var reply := svc.audioQuery(call, text, speakerId);
      && (r.Success? <==> reply.Response? && reply.status == 200)
      && (r.Success? ==> r.value == reply.body)
      && (reply.Response? && reply.status != 200 ==> r == Failure(StatusError(reply.status)))
      && (reply.Raised? ==> r == Failure(reply.message))
  {
    match svc.audioQuery(call, text, speakerId)
    case Response(status, query) =>
      if status == 200 then Success(query) else Failure(StatusError(status))
    case Raised(message) => Failure(message)
  }

  /** synthesize: the audio bytes on 200, otherwise "Status N" or the
      exception text. */
  function Synthesize(svc: Service, call: nat, query: AudioQuery, speakerId: nat): (r: Result<Audio>)
    ensures var reply := svc.synthesis(call, query, speakerId);
      && (r.Success? <==> reply.Response? && reply.status == 200)
      && (r.Success? ==> r.value == reply.body)
      && (reply.Response? && reply.status != 200 ==> r == Failure(StatusError(reply.status)))
      && (reply.Raised? ==> r == Failure(reply.message))
  {
    match svc.synthesis(call, query, speakerId)
    case Response(status, audio) =>
      if status == 200 then Success(audio) else Failure(StatusError(status))
    case Raised(message) => Failure(message)
  }

  function UnknownCharacter(name: string): string {
    "Unknown character: " + name
  }

  /** text_to_speech, made after `call` earlier requests: look the character
      up, ask for a query, then hand that very query to /synthesis for the
      same speaker as the next call. */
  function TextToSpeech(svc: Service, call: nat, text: string, name: string): (x: Exchange)
    ensures |x.sent| <= 2
    ensures x.sent == [] <==> name !in SpeakerIds
    ensures x.result.Success? ==> |x.sent| == 2
  {
    if name !in SpeakerIds then Exchange(Failure(UnknownCharacter(name)), [])
    else
      var id := SpeakerIds[name];
      match GetAudioQuery(svc, call, text, id)
      case Failure(e) => Exchange(Failure(e), [AudioQueryRequest(text, id)])
      case Success(query) =>
        Exchange(Synthesize(svc, call + 1, query, id), [AudioQueryRequest(text, id), SynthesisRequest(query, id)])
  }

  /** The two-phase protocol of text_to_speech: an unknown character fails
      before any request; otherwise /audio_query is asked first, a failed
      query is returned as it is with nothing sent after it, and a good query
      goes unmodified to /synthesis with the same speaker id. */
  lemma TextToSpeechProtocol(svc: Service, call: nat, text: string, name: string)
    ensures var x := TextToSpeech(svc, call, text, name);
      && (name !in SpeakerIds ==> x == Exchange(Failure(UnknownCharacter(name)), []))
      && (name in SpeakerIds ==>
        var id := SpeakerIds[name];
        var q := GetAudioQuery(svc, call, text, id);
        && (q.Failure? ==> x == Exchange(Failure(q.error), [AudioQueryRequest(text, id)]))
        && (q.Success? ==> x == Exchange(Synthesize(svc, call + 1, q.value, id),
                                         [AudioQueryRequest(text, id), SynthesisRequest(q.value, id)])))
  {
  }

  /** text_to_speech succeeds exactly when the character is known and both
      requests are answered 200; the audio is then the body of the
      /synthesis reply to the query /audio_query returned. */
  lemma TextToSpeechSucceeds(svc: Service, call: nat, text: string, name: string)
    ensures var x := TextToSpeech(svc, call, text, name);
      x.result.Success? <==>
        && name in SpeakerIds
        && var qr := svc.audioQuery(call, text, SpeakerIds[name]);
        && qr.Response? && qr.status == 200
        && var sr := svc.synthesis(call + 1, qr.body, SpeakerIds[name]);
        && sr.Response? && sr.status == 200
        && x.result.value == sr.body
  {
  }

  /** A service that times out on the first call and answers 200 from then
      on: the first attempt at a line fails with the exception's text, and
      the very same request made later is voiced. */
  lemma RetryAfterTimeout(text: string, name: string, audio: Audio)
    requires name in SpeakerIds
    ensures var svc := Service(Raised("timeout"),
        (call: nat, t: string, id: nat) => if call == 0 then Raised("timeout") else Response(200, AudioQuery(t)),
        (call: nat, q: AudioQuery, id: nat) => Response(200, audio));
      && TextToSpeech(svc, 0, text, name).result == Failure("timeout")
      && TextToSpeech(svc, 1, text, name).result == Success(audio)
  {
  }

  /** One line of the script the generator voices: its 0-based position in
      script.strip().split("\n") and its stripped speaker and text. */
  datatype Utterance = Utterance(line: nat, character: string, text: string)

  /** What line i contributes, given what the pattern made of it: an
      utterance when it parsed and its speaker is a key of SPEAKER_IDS,
      nothing otherwise. */
  function Keep(parsed: Option<Speech>, i: nat): (u: Option<Utterance>)
    ensures u.Some? <==> parsed.Some? && parsed.value.speaker in SpeakerIds
    ensures u.Some? ==> u.value == Utterance(i, parsed.value.speaker, parsed.value.text)
  {
    match parsed
    case None => None
    case Some(speech) =>
      if speech.speaker in SpeakerIds then Some(Utterance(i, speech.speaker, speech.text))
      else None
  }

  /** Every selection that holds an utterance holds the one of its own line. */
  predicate Indexed(sel: seq<Option<Utterance>>) {
    forall i :: 0 <= i < |sel| && sel[i].Some? ==> sel[i].value.line == i
  }

  /** What each line of a script contributes, in order. */
  function Selections(lines: seq<string>): (sel: seq<Option<Utterance>>)
    requires NoNewlines(lines)
    ensures |sel| == |lines| && Indexed(sel)
    ensures forall i :: 0 <= i < |lines| ==> sel[i] == Keep(ParseLine(lines[i]), i)
  {
    seq(|lines|, i requires 0 <= i < |lines| => Keep(ParseLine(lines[i]), i))
  }

  /** The utterances among the first n lines, in script order. */
  function KeptAmong(sel: seq<Option<Utterance>>, n: nat): (us: seq<Utterance>)
    requires n <= |sel|
    ensures |us| <= n
    decreases n
  {
    if n == 0 then []
    else
      var us := KeptAmong(sel, n - 1);
      match sel[n - 1]
      case None => us
      case Some(u) => us + [u]
  }

  /** The utterances of a whole script. */
  function Utterances(script: string): (us: seq<Utterance>)
    ensures |us| <= |ScriptLines(script)|
  {
    var sel := Selections(ScriptLines(script));
    KeptAmong(sel, |sel|)
  }

  /** An utterance is kept exactly when its own line selects it. */
  lemma {:induction false} KeptAmongMembership(sel: seq<Option<Utterance>>, n: nat, u: Utterance)
    requires n <= |sel| && Indexed(sel)
    ensures u in KeptAmong(sel, n) <==> u.line < n && sel[u.line] == Some(u)
    decreases n
  {
    if n > 0 {
      KeptAmongMembership(sel, n - 1, u);
    }
  }

  /** The kept utterances come from the first n lines, in line order. */
  lemma {:induction false} KeptAmongOrdered(sel: seq<Option<Utterance>>, n: nat)
    requires n <= |sel| && Indexed(sel)
    ensures forall k :: 0 <= k < |KeptAmong(sel, n)| ==> KeptAmong(sel, n)[k].line < n
    ensures forall j, k :: 0 <= j < k < |KeptAmong(sel, n)| ==>
      KeptAmong(sel, n)[j].line < KeptAmong(sel, n)[k].line
    decreases n
  {
    if n > 0 {
      KeptAmongOrdered(sel, n - 1);
      var prev := KeptAmong(sel, n - 1);
      if sel[n - 1].Some? {
        var u := sel[n - 1].value;
        assert u.line == n - 1;
        var us := prev + [u];
        assert KeptAmong(sel, n) == us;
        forall j, k | 0 <= j < k < |us|
          ensures us[j].line < us[k].line
        {
          assert us[j] == prev[j];
          if k < |prev| {
            assert us[k] == prev[k];
          }
        }
      } else {
        assert KeptAmong(sel, n) == prev;
      }
    }
  }

  /** The utterances among fewer lines are a prefix of those among more. */
  lemma {:induction false} KeptAmongPrefix(sel: seq<Option<Utterance>>, m: nat, n: nat)
    requires m <= n <= |sel|
    ensures var short := KeptAmong(sel, m);
      |short| <= |KeptAmong(sel, n)| && KeptAmong(sel, n)[..|short|] == short
    decreases n - m
  {
    if m < n {
      KeptAmongPrefix(sel, m, n - 1);
    }
  }

  /** The utterances among the first n lines of a script start its list. */
  lemma UtterancesPrefix(script: string, n: nat)
    requires n <= |ScriptLines(script)|
    ensures var short := KeptAmong(Selections(ScriptLines(script)), n);
      |short| <= |Utterances(script)| && Utterances(script)[..|short|] == short
  {
    var sel := Selections(ScriptLines(script));
    KeptAmongPrefix(sel, n, |sel|);
  }

  /** The utterances of a script are in line order. */
  lemma UtterancesOrdered(script: string)
    ensures var us := Utterances(script);
      forall j, k :: 0 <= j < k < |us| ==> us[j].line < us[k].line
  {
    var sel := Selections(ScriptLines(script));
    assert Indexed(sel);
    KeptAmongOrdered(sel, |sel|);
  }

  /** An utterance of the script, in the terms of the line it comes from. */
  lemma UtteranceOfScript(script: string, u: Utterance)
    ensures var lines := ScriptLines(script);
      u in Utterances(script) <==>
        && u.line < |lines|
        && u.character in SpeakerIds
        && ParseLine(lines[u.line]) == Some(Speech(u.character, u.text))
  {
    var lines := ScriptLines(script);
    var sel := Selections(lines);
    KeptAmongMembership(sel, |sel|, u);
  }

  /** A blank script has no utterances. */
  lemma BlankScriptHasNoUtterances(script: string)
    requires AllSpace(script)
    ensures Utterances(script) == []
  {
    BlankScriptLines(script);
    assert ParseLine([]) == None by {
      assert forall j :: !SplitsAt([], j);
    }
  }

  /** text_to_speech applied to each utterance, in order, each call made
      after the requests of the ones before it. */
  function Voicings(svc: Service, us: seq<Utterance>): (xs: seq<Exchange>)
    ensures |xs| == |us|
    decreases |us|
  {
    if us == [] then []
    else
      var xs := Voicings(svc, us[..|us| - 1]);
      var u := us[|us| - 1];
      xs + [TextToSpeech(svc, |SentBy(xs)|, u.text, u.character)]
  }

  predicate AllVoiced(xs: seq<Exchange>) {
    forall k :: 0 <= k < |xs| ==> xs[k].result.Success?
  }

  /** The position of the first exchange that failed. */
  function FirstFailure(xs: seq<Exchange>): (r: Option<nat>)
    ensures r.None? <==> AllVoiced(xs)
    ensures r.Some? ==> r.value < |xs| && xs[r.value].result.Failure?
    ensures r.Some? ==> AllVoiced(xs[..r.value])
    decreases |xs|
  {
    if xs == [] then None
    else if xs[0].result.Failure? then Some(0)
    else
      match FirstFailure(xs[1..])
      case None => None
      case Some(k) =>
        assert xs[..k + 1] == [xs[0]] + xs[1..][..k];
        Some(k + 1)
  }

  /** f"{i:03d}_{character}.wav" */
  function WavFileName(i: nat, character: string): string {
    Pad3(i) + "_" + character + ".wav"
  }

  /** A clip's name is at least three digits that read back as its line,
      then "_", the character and ".wav". */
  lemma WavFileNameShape(i: nat, character: string)
    ensures var name := WavFileName(i, character);
      var d := |name| - |character| - 5;
      && 3 <= d && AllDigits(name[..d]) && ParseDecimal(name[..d]) == i
      && name[d..] == "_" + character + ".wav"
  {
    var p := Pad3(i);
    var name := p + "_" + character + ".wav";
    assert name[..|p|] == p && name[|p|..] == "_" + character + ".wav";
  }

  /** One element of the generator's result list. */
  datatype AudioFile = AudioFile(file: string, character: string, text: string)

  /** A file the generator wrote, with its contents. */
  datatype WrittenFile = WrittenFile(path: string, audio: Audio)

  function FilePath(dir: string, u: Utterance): string {
    JoinPath(dir, WavFileName(u.line, u.character))
  }

  /** The result entries for the given utterances, in the same order. */
  function Entries(dir: string, us: seq<Utterance>): (files: seq<AudioFile>)
    ensures |files| == |us|
    ensures forall k :: 0 <= k < |us| ==>
      files[k] == AudioFile(FilePath(dir, us[k]), us[k].character, us[k].text)
  {
    seq(|us|, k requires 0 <= k < |us| => AudioFile(FilePath(dir, us[k]), us[k].character, us[k].text))
  }

  /** The files written for the given utterances, voiced by xs. */
  function Writes(dir: string, us: seq<Utterance>, xs: seq<Exchange>): (written: seq<WrittenFile>)
    requires |xs| == |us| && AllVoiced(xs)
    ensures |written| == |us|
    ensures forall k :: 0 <= k < |us| ==> written[k] == WrittenFile(FilePath(dir, us[k]), xs[k].result.value)
  {
    seq(|us|, k requires 0 <= k < |us| => WrittenFile(FilePath(dir, us[k]), xs[k].result.value))
  }

  /** The requests the exchanges sent, in order. */
  function SentBy(xs: seq<Exchange>): seq<Request>
    decreases |xs|
  {
    if xs == [] then [] else SentBy(xs[..|xs| - 1]) + xs[|xs| - 1].sent
  }

  lemma EntriesSnoc(dir: string, us: seq<Utterance>, u: Utterance)
    ensures Entries(dir, us + [u]) == Entries(dir, us) + [AudioFile(FilePath(dir, u), u.character, u.text)]
  {
  }

  lemma WritesSnoc(dir: string, us: seq<Utterance>, xs: seq<Exchange>, u: Utterance, x: Exchange)
    requires |xs| == |us| && AllVoiced(xs) && x.result.Success?
    ensures AllVoiced(xs + [x])
    ensures Writes(dir, us + [u], xs + [x]) == Writes(dir, us, xs) + [WrittenFile(FilePath(dir, u), x.result.value)]
  {
  }

  lemma VoicingsSnoc(svc: Service, us: seq<Utterance>, u: Utterance)
    ensures var xs := Voicings(svc, us);
      Voicings(svc, us + [u]) == xs + [TextToSpeech(svc, |SentBy(xs)|, u.text, u.character)]
  {
    assert (us + [u])[..|us|] == us;
  }

  /** When every exchange before position k succeeded and the one at k
      failed, k is the first failure. */
  lemma {:induction false} FirstFailureAt(xs: seq<Exchange>, k: nat)
    requires k < |xs| && AllVoiced(xs[..k]) && xs[k].result.Failure?
    ensures FirstFailure(xs) == Some(k)
    decreases k
  {
    if k > 0 {
      assert xs[0] == xs[..k][0];
      assert xs[1..][..k - 1] == xs[..k][1..];
      FirstFailureAt(xs[1..], k - 1);
    }
  }

  /** FirstFailure keeps its answer when more exchanges follow. */
  lemma FirstFailureSnoc(xs: seq<Exchange>, x: Exchange)
    requires FirstFailure(xs).Some?
    ensures FirstFailure(xs + [x]) == FirstFailure(xs)
  {
    var k := FirstFailure(xs).value;
    assert (xs + [x])[..k] == xs[..k];
    FirstFailureAt(xs + [x], k);
  }

  /** f"Line {i+1}: {error}" */
  function LineError(line: nat, error: string): string {
    "Line " + Decimal(line + 1) + ": " + error
  }

  /** The error names the line 1-based: the digits after "Line " read back
      as line + 1, and ": " and the error follow them. */
  lemma LineErrorNumber(line: nat, error: string)
    ensures var msg := LineError(line, error);
      var d := |msg| - |error| - 7;
      && 1 <= d && msg[..5] == "Line "
      && AllDigits(msg[5..5 + d]) && ParseDecimal(msg[5..5 + d]) == line + 1
      && msg[5 + d..] == ": " + error
  {
    var digits := Decimal(line + 1);
    ParseDecimalOfDecimal(line + 1);
    var msg := LineError(line, error);
    assert msg == "Line " + digits + (": " + error);
    assert |msg| - |error| - 7 == |digits|;
    assert msg[..5] == "Line ";
    assert msg[5..5 + |digits|] == digits;
    assert msg[5 + |digits|..] == ": " + error;
  }

  /** Where a generator run stands: the result entries, the files written
      and the requests sent so far, and the error message that ended it, if
      one did. */
  datatype Run = Run(files: seq<AudioFile>, written: seq<WrittenFile>, sent: seq<Request>, failure: Option<string>)

  /** What generate_skit_audio returns once a run is over. */
  function Verdict(run: Run): Result<seq<AudioFile>> {
    match run.failure
    case None => Success(run.files)
    case Some(e) => Failure(e)
  }

  /** One pass of the generator's loop: a stopped run stays as it is, a
      skipped line changes nothing, and a kept line is voiced, then either
      ends the run with its line number in the error or is written out and
      listed. */
  function RunStep(svc: Service, dir: string, run: Run, keep: Option<Utterance>): Run {
    if run.failure.Some? then run
    else match keep
      case None => run
      case Some(u) =>
        var x := TextToSpeech(svc, |run.sent|, u.text, u.character);
        if x.result.Failure? then
          run.(sent := run.sent + x.sent, failure := Some(LineError(u.line, x.result.error)))
        else
          Run(run.files + [AudioFile(FilePath(dir, u), u.character, u.text)],
              run.written + [WrittenFile(FilePath(dir, u), x.result.value)],
              run.sent + x.sent, None)
  }

  /** The generator's loop over the first n lines. */
  function RunOver(svc: Service, dir: string, sel: seq<Option<Utterance>>, n: nat): Run
    requires n <= |sel|
    decreases n
  {
    if n == 0 then Run([], [], [], None)
    else RunStep(svc, dir, RunOver(svc, dir, sel, n - 1), sel[n - 1])
  }

  /** Once a run has failed, the remaining lines change nothing. */
  lemma {:induction false} RunOverStopped(svc: Service, dir: string, sel: seq<Option<Utterance>>, m: nat, n: nat)
    requires m <= n <= |sel|
    requires RunOver(svc, dir, sel, m).failure.Some?
    ensures RunOver(svc, dir, sel, n) == RunOver(svc, dir, sel, m)
    decreases n - m
  {
    if m < n {
      RunOverStopped(svc, dir, sel, m, n - 1);
    }
  }

  /** The declarative account of a run over utterances us voiced by xs: with
      no failure, every utterance is listed and written and all requests are
      sent; with a first failure at k, the utterances before k are listed
      and written, the requests up to and including k's are sent, and the
      error names k's line. */
  function Outcome(dir: string, us: seq<Utterance>, xs: seq<Exchange>): Run
    requires |xs| == |us|
  {
    match FirstFailure(xs)
    case None => Run(Entries(dir, us), Writes(dir, us, xs), SentBy(xs), None)
    case Some(k) =>
      Run(Entries(dir, us[..k]), Writes(dir, us[..k], xs[..k]), SentBy(xs[..k]) + xs[k].sent,
          Some(LineError(us[k].line, xs[k].result.error)))
  }

  lemma PrefixOfSnoc<T>(s: seq<T>, a: T, k: nat)
    requires k <= |s|
    ensures (s + [a])[..k] == s[..k]
  {
  }

  lemma OutcomeAfterFailure(dir: string, us: seq<Utterance>, xs: seq<Exchange>, u: Utterance, x: Exchange)
    requires |xs| == |us| && FirstFailure(xs).Some?
    ensures Outcome(dir, us + [u], xs + [x]) == Outcome(dir, us, xs)
  {
    var k := FirstFailure(xs).value;
    FirstFailureSnoc(xs, x);
    PrefixOfSnoc(us, u, k);
    PrefixOfSnoc(xs, x, k);
  }

  lemma OutcomeFailing(dir: string, us: seq<Utterance>, xs: seq<Exchange>, u: Utterance, x: Exchange)
    requires |xs| == |us| && AllVoiced(xs) && x.result.Failure?
    ensures Outcome(dir, us + [u], xs + [x])
      == Run(Entries(dir, us), Writes(dir, us, xs), SentBy(xs) + x.sent, Some(LineError(u.line, x.result.error)))
  {
    assert (xs + [x])[..|xs|] == xs;
    assert (us + [u])[..|us|] == us;
    FirstFailureAt(xs + [x], |xs|);
  }

  lemma OutcomeVoiced(dir: string, us: seq<Utterance>, xs: seq<Exchange>, u: Utterance, x: Exchange)
    requires |xs| == |us| && AllVoiced(xs) && x.result.Success?
    ensures Outcome(dir, us + [u], xs + [x])
      == Run(Entries(dir, us) + [AudioFile(FilePath(dir, u), u.character, u.text)],
             Writes(dir, us, xs) + [WrittenFile(FilePath(dir, u), x.result.value)],
             SentBy(xs) + x.sent, None)
  {
    EntriesSnoc(dir, us, u);
    WritesSnoc(dir, us, xs, u, x);
    assert (xs + [x])[..|xs|] == xs;
  }

  /** One more kept utterance takes the declarative outcome along with the
      loop's step. */
  lemma RunStepOutcome(svc: Service, dir: string, us: seq<Utterance>, u: Utterance)
    ensures RunStep(svc, dir, Outcome(dir, us, Voicings(svc, us)), Some(u))
      == Outcome(dir, us + [u], Voicings(svc, us + [u]))
  {
    var xs := Voicings(svc, us);
    var x := TextToSpeech(svc, |SentBy(xs)|, u.text, u.character);
    var run := Outcome(dir, us, xs);
    VoicingsSnoc(svc, us, u);
    assert Outcome(dir, us + [u], Voicings(svc, us + [u])) == Outcome(dir, us + [u], xs + [x]);
    if FirstFailure(xs).Some? {
      assert RunStep(svc, dir, run, Some(u)) == run;
      OutcomeAfterFailure(dir, us, xs, u, x);
    } else {
      assert run == Run(Entries(dir, us), Writes(dir, us, xs), SentBy(xs), None);
      if x.result.Failure? {
        assert RunStep(svc, dir, run, Some(u))
          == Run(Entries(dir, us), Writes(dir, us, xs), SentBy(xs) + x.sent, Some(LineError(u.line, x.result.error)));
        OutcomeFailing(dir, us, xs, u, x);
      } else {
        assert RunStep(svc, dir, run, Some(u))
          == Run(Entries(dir, us) + [AudioFile(FilePath(dir, u), u.character, u.text)],
                 Writes(dir, us, xs) + [WrittenFile(FilePath(dir, u), x.result.value)],
                 SentBy(xs) + x.sent, None);
        OutcomeVoiced(dir, us, xs, u, x);
      }
    }
  }

  /** A skipped line changes neither the loop's run nor the utterances. */
  lemma RunOverSkip(svc: Service, dir: string, sel: seq<Option<Utterance>>, n: nat)
    requires 0 < n <= |sel| && sel[n - 1].None?
    requires var us := KeptAmong(sel, n - 1);
      RunOver(svc, dir, sel, n - 1) == Outcome(dir, us, Voicings(svc, us))
    ensures var us := KeptAmong(sel, n);
      RunOver(svc, dir, sel, n) == Outcome(dir, us, Voicings(svc, us))
  {
    assert KeptAmong(sel, n) == KeptAmong(sel, n - 1);
    assert RunOver(svc, dir, sel, n) == RunOver(svc, dir, sel, n - 1);
  }

  /** A kept line takes the loop's run and the declarative outcome along
      together. */
  lemma RunOverKeep(svc: Service, dir: string, sel: seq<Option<Utterance>>, n: nat)
    requires 0 < n <= |sel| && sel[n - 1].Some?
    requires var us := KeptAmong(sel, n - 1);
      RunOver(svc, dir, sel, n - 1) == Outcome(dir, us, Voicings(svc, us))
    ensures var us := KeptAmong(sel, n);
      RunOver(svc, dir, sel, n) == Outcome(dir, us, Voicings(svc, us))
  {
    var us := KeptAmong(sel, n - 1);
    var u := sel[n - 1].value;
    assert KeptAmong(sel, n) == us + [u];
    RunStepOutcome(svc, dir, us, u);
  }

  /** One more line, skipped or kept, takes the loop's run and the
      declarative outcome along together. */
  lemma RunOverNext(svc: Service, dir: string, sel: seq<Option<Utterance>>, n: nat)
    requires 0 < n <= |sel|
    requires var us := KeptAmong(sel, n - 1);
      RunOver(svc, dir, sel, n - 1) == Outcome(dir, us, Voicings(svc, us))
    ensures var us := KeptAmong(sel, n);
      RunOver(svc, dir, sel, n) == Outcome(dir, us, Voicings(svc, us))
  {
    if sel[n - 1].None? {
      RunOverSkip(svc, dir, sel, n);
    } else {
      RunOverKeep(svc, dir, sel, n);
    }
  }

  /** The loop's run over the first n lines is the declarative outcome for
      the utterances among them. */
  lemma {:induction false} RunOverOutcome(svc: Service, dir: string, sel: seq<Option<Utterance>>, n: nat)
    requires n <= |sel|
    ensures var us := KeptAmong(sel, n);
      RunOver(svc, dir, sel, n) == Outcome(dir, us, Voicings(svc, us))
    decreases n
  {
    if n == 0 {
      assert Voicings(svc, []) == [];
      assert Entries(dir, []) == [] && Writes(dir, [], []) == [];
    } else {
      RunOverOutcome(svc, dir, sel, n - 1);
      RunOverNext(svc, dir, sel, n);
    }
  }

  /** The body of generate_skit_audio's loop for line i of the script:
      parse it, skip it or voice it, and on success write the clip and list
      it. An error comes back with the requests it sent. */
  method GenerateLine(svc: Service, outputDir: string, line: string, i: nat,
                      files: seq<AudioFile>, written: seq<WrittenFile>, sent: seq<Request>)
    returns (files': seq<AudioFile>, written': seq<WrittenFile>, sent': seq<Request>, error: Option<string>)
    requires '\n' !in line
    ensures Run(files', written', sent', error)
      == RunStep(svc, outputDir, Run(files, written, sent, None), Keep(ParseLine(line), i))
  {
    files', written', sent', error := files, written, sent, None;
    var parsed := ParseLine(line);
    if parsed.None? {
      return;
    }
    var character := parsed.value.speaker;
    var text := parsed.value.text;
    if character !in SpeakerIds {
      return;
    }
    ghost var u := Utterance(i, character, text);
    assert Keep(parsed, i) == Some(u);
    var x := TextToSpeech(svc, |sent|, text, character);
    if x.result.Failure? {
      sent' := sent + x.sent;
      error := Some(LineError(i, x.result.error));
      return;
    }
    var path := JoinPath(outputDir, WavFileName(i, character));
    written' := written + [WrittenFile(path, x.result.value)];
    files' := files + [AudioFile(path, character, text)];
    sent' := sent + x.sent;
  }

  /** The loop of generate_skit_audio over the lines of the script. */
  method GenerateLines(svc: Service, lines: seq<string>, outputDir: string)
    returns (r: Result<seq<AudioFile>>, written: seq<WrittenFile>, sent: seq<Request>)
    requires NoNewlines(lines)
    ensures var run := RunOver(svc, outputDir, Selections(lines), |lines|);
      r == Verdict(run) && written == run.written && sent == run.sent
  {
    ghost var sel := Selections(lines);
    var files: seq<AudioFile> := [];
    written, sent := [], [];
    for i := 0 to |lines|
      invariant RunOver(svc, outputDir, sel, i) == Run(files, written, sent, None)
    {
      assert Keep(ParseLine(lines[i]), i) == sel[i];
      var error;
      files, written, sent, error := GenerateLine(svc, outputDir, lines[i], i, files, written, sent);
      if error.Some? {
        r := Failure(error.value);
        RunOverStopped(svc, outputDir, sel, i + 1, |lines|);
        return;
      }
    }
    r := Success(files);
  }

  /** generate_skit_audio: voice every kept line of script.strip().split("\n")
      in script order, writing each clip as it comes; the first failure ends
      the run, and the files already written stay. */
  method GenerateSkitAudio(svc: Service, script: string, outputDir: string)
    returns (r: Result<seq<AudioFile>>, written: seq<WrittenFile>, sent: seq<Request>)
    ensures var lines := ScriptLines(script);
      var run := RunOver(svc, outputDir, Selections(lines), |lines|);
      r == Verdict(run) && written == run.written && sent == run.sent
  {
    r, written, sent := GenerateLines(svc, ScriptLines(script), outputDir);
  }

  /** What a whole generator run does, in terms of the script's utterances
      and their exchanges with the service. */
  lemma GeneratedOutcome(svc: Service, script: string, outputDir: string)
    ensures var lines := ScriptLines(script);
      var us := Utterances(script);
      RunOver(svc, outputDir, Selections(lines), |lines|) == Outcome(outputDir, us, Voicings(svc, us))
  {
    var sel := Selections(ScriptLines(script));
    RunOverOutcome(svc, outputDir, sel, |sel|);
  }

  /** For a blank script the generator reports success with no files: it
      sends no request and writes nothing. */
  lemma BlankScriptSucceeds(svc: Service, script: string, outputDir: string)
    requires AllSpace(script)
    ensures var lines := ScriptLines(script);
      var run := RunOver(svc, outputDir, Selections(lines), |lines|);
      run == Run([], [], [], None) && Verdict(run) == Success([])
  {
    BlankScriptHasNoUtterances(script);
    GeneratedOutcome(svc, script, outputDir);
    assert Voicings(svc, []) == [];
  }
}
