# Skit voice generation and playback, modelled in Dafny

The comedy analyzer can voice a two-character comedy skit. It has two parts.

The generator, `VoicevoxAPI.generate_skit_audio`, works as follows:
- It strips the script and splits it into lines.
- It reads each line as `label: text`, with an ASCII or full-width colon, and skips a line whose label is not one of the three VOICEVOX voices in `SPEAKER_IDS`.
- It voices every other line through the two-phase VOICEVOX protocol: `/audio_query`, then `/synthesis`.
- It writes each clip as `{i:03d}_{character}.wav`, where `i` is the line's position in the script.
- It stops at the first failure, with a `Line {i+1}: …` error.

The player, `SkitPlayer`, works as follows:
- It lists a folder's `.wav` files in sorted order and parses each name back with `(\d+)_(.+)\.wav`.
- It can hand the script's texts to the clips (`set_skit_text`).
- It plays the clips one after another on a playback thread, with play/pause, stop, previous, next and list selection.
- It highlights the speaking character.

`YouTubeAPI.get_video_id` extracts a video id from a watch, short-link or Shorts URL.

The project is organised as follows:

| file | module | contents |
|---|---|---|
| `wrappers.dfy` | `Wrappers` | `Option` |
| `numerals.dfy` | `Numerals` | `str(n)`, `f"{n:03d}"`, `int(digits)` |
| `text.dfy` | `Text` | `str.strip`, `str.split`/`join`, `os.path.join` as `posixpath.join`, `in`, string order, `list.sort` |
| `skit_script.dfy` | `SkitScript` | the line pattern `^(.+?)[:：]\s*(.+)$` and the script's lines |
| `voicevox.dfy` | `Voicevox` | the service client and the generator |
| `player.dfy` | `Player` | the loader, the texts, and the `SkitPlayer` class with its transport controls and playback loop |
| `youtube.dfy` | `YouTube` | `get_video_id` |
| `pipeline.dfy` | `Pipeline` | how the generator's output and the player's input fit together |

How things are modelled:
- **The VOICEVOX service** is a value of type `Service`. It gives, for each call, either a status code with a decoded body or the message of an exception. A call is known by the number of requests the client sent before it, so the same text can time out once and be answered later. The generator's functions also return the requests they sent, so that "no request" and "no request after the failing line" can be stated.
- **Files:** written files are an append-only log of `(path, bytes)`. A folder listing is a sequence of names in whatever order the system returns them.
- **Playback thread:** the loop runs sequentially. The outcome of clip `k` is a parameter `outcome(k)` with five cases:
  - the clip ran to its end (`Played`);
  - a pause or stop cut the clip off: pygame's poll saw the flag cleared and `play_audio` returned False (`Cut`);
  - a pause or stop came while `play_audio` ran, but it still returned True: winsound and the silent wait cannot be cut off, and pygame misses a press after its last poll (`During`);
  - the clip ended and a pause or stop came in the pause before the loop's next test (`PlayedThen`);
  - `pygame.mixer.music.load` raised, which ends the thread with the playing flag still set (`Raised`).

  The finishing callback runs after the loop, unless the thread ended by an exception.
- **The line pattern** needs no regular-expression engine. A line matches exactly when a colon stands at index 1 or later with at least one character after it. The first such colon ends the lazy label. `ParseLineGroups` shows that the stripped groups are the stripped label and the stripped rest of the line.

The generator writes nothing but the clips. A blank script succeeds with no clips. A clip's number is its line's position in the script, so skipped lines leave gaps in the numbering. An error names the line counted from 1, as `Line {i+1}`.

## Model

| member | source | states |
|---|---|---|
| Voicevox.IsAvailable | voicevox_api.py:17-23 | true exactly when `/version` answers 200; an exception gives false, never an error |
| Voicevox.GetAudioQuery | voicevox_api.py:25-38 | succeeds exactly on status 200, with the decoded query; otherwise fails with "Status N", or with the exception's text |
| Voicevox.Synthesize | voicevox_api.py:40-55 | succeeds exactly on status 200, with the audio bytes; otherwise fails with "Status N", or with the exception's text |
| Voicevox.StatusErrorInjective | voicevox_api.py:36 | different status codes give different "Status N" errors |
| Voicevox.TextToSpeech | voicevox_api.py:57-69 | at most two requests; none exactly when the name is not a key of `SPEAKER_IDS`; a success took both requests |
| Voicevox.TextToSpeechProtocol | voicevox_api.py:57-69 | an unknown character fails with "Unknown character: name" before any request; a failed query is returned as it is, and no synthesis request follows; a good query goes unchanged to `/synthesis` with the same speaker id |
| Voicevox.TextToSpeechSucceeds | voicevox_api.py:57-69 | success exactly when the name is a key of `SPEAKER_IDS` and both requests are answered 200; the audio is then the body of the synthesis reply |
| Voicevox.RetryAfterTimeout | voicevox_api.py:25-69 | replies are per call: with a service whose first query times out, a text fails with "timeout" on the first call and is voiced on the next |
| SkitScript.SplitPoint | voicevox_api.py:84 | where the lazy label ends: a colon at index 1 or later with a character after it, with no colon between index 1 and it; none exactly when no colon qualifies |
| SkitScript.RegexRemainder | voicevox_api.py:84 | what `\s*(.+)` captures after the colon is non-empty, and strips to the same text as the rest of the line |
| SkitScript.ParseLine | voicevox_api.py:84-89 | a line matches exactly when a colon stands at index 1 or later with at least one character after it |
| SkitScript.ParseLineGroups | voicevox_api.py:84-89 | the speaker is the stripped text before the first such colon; the text is the stripped capture of `(.+)`, which equals the stripped rest of the line |
| SkitScript.ParseLineShape | voicevox_api.py:84-89 | `name + colon + text`, with no colon in the name after its first character, parses to the stripped name and the stripped text |
| SkitScript.ScriptLines | voicevox_api.py:79 | the lines hold no newline, there is at least one, and joined with "\n" they give the stripped script back |
| SkitScript.BlankScriptLines | voicevox_api.py:79 | a whitespace-only script is a single empty line |
| Text.Strip | voicevox_api.py:88-89 | the result has no whitespace at either end; it is empty exactly when the input is all whitespace |
| Text.StripUnique | voicevox_api.py:88-89 | whitespace around a text with non-space ends is exactly what `strip` removes |
| Text.StripIdempotent | voicevox_api.py:88-89 | stripping twice is stripping once |
| Text.JoinSplit | voicevox_api.py:79 | joining the pieces of a split gives the string back |
| Text.SplitJoin | voicevox_api.py:79 | splitting a join of separator-free pieces gives the pieces back |
| Text.SplitCount | voicevox_api.py:79 | a split has one more piece than there are separators |
| Text.LexLeTotal | player.py:212 | string order compares any two names |
| Text.LexLeAntisymmetric | player.py:212 | two names that are each at most the other are equal |
| Text.LexLeTransitive | player.py:212 | string order is transitive |
| Text.Sort | player.py:212 | `sorted` gives an ordered permutation of its input |
| Text.SortedUnique | player.py:212 | two ordered permutations of the same names are equal, so the listing's order does not matter |
| Text.SortSorted | player.py:212 | sorting an ordered list changes nothing |
| Numerals.Pad3 | voicevox_api.py:100 | at least three digits, read back as n; exactly three when n < 1000, and `str(n)` itself, with no leading zero, from 1000 on |
| Numerals.ParseDecimalOfDecimal | voicevox_api.py:97 | `int(str(n)) == n` |
| Numerals.ParseDecimalLeadingZeros | player.py:220 | `int()` ignores leading zeros |
| Voicevox.Keep | voicevox_api.py:84-92 | a line yields an utterance exactly when it matches and its stripped label is a key of `SPEAKER_IDS`; the utterance then carries that line's position, the stripped label and the stripped text |
| Voicevox.Utterances | voicevox_api.py:79-92 | at most one utterance per script line |
| Voicevox.UtteranceOfScript | voicevox_api.py:79-92 | an utterance belongs to the script exactly when its line exists, its character is a voice, and its line parses to that character and text |
| Voicevox.UtterancesOrdered | voicevox_api.py:82-92 | the utterances are in strictly increasing line order |
| Voicevox.UtterancesPrefix | voicevox_api.py:82-92 | the utterances of the first n lines start the script's list |
| Voicevox.BlankScriptHasNoUtterances | voicevox_api.py:79-92 | a blank script yields no utterance |
| Voicevox.WavFileNameShape | voicevox_api.py:100 | a clip's name is at least three digits that read back as its line's position, then "_", the character and ".wav" |
| Voicevox.LineErrorNumber | voicevox_api.py:97 | the error is "Line ", the digits of the line's number counted from 1, ": ", then the failed exchange's error |
| Voicevox.FirstFailure | voicevox_api.py:95-97 | the position of the first failed exchange: every exchange before it succeeded; none exactly when all succeeded |
| Voicevox.RunOverStopped | voicevox_api.py:95-97 | once a line has failed, no later line changes the run: no request, no file, no entry |
| Voicevox.RunOverOutcome | voicevox_api.py:82-111 | the loop's result is the declarative outcome: with no failure, one entry and one file per utterance in order, and all requests; with a first failure at k, the entries and files of the utterances before k, the requests up to k's, and k's line number in the error |
| Voicevox.GeneratedOutcome | voicevox_api.py:71-111 | the same, for a whole script |
| Voicevox.BlankScriptSucceeds | voicevox_api.py:79-111 | for a blank script the run succeeds with an empty list of files, sends no request and writes nothing |
| Voicevox.GenerateLine | voicevox_api.py:83-109 | one pass of the loop body is one step of the run |
| Voicevox.GenerateLines | voicevox_api.py:80-111 | the loop returns the run's verdict, the files it wrote and the requests it sent |
| Voicevox.GenerateSkitAudio | voicevox_api.py:71-111 | the same, on the stripped and split script |
| Player.DigitRun | player.py:218 | the length of the leading run of digits, which `(\d+)` takes whole |
| Player.LastWav | player.py:218 | the greedy `(.+)` ends at the last ".wav" that has a character before it |
| Player.ParseWavName | player.py:218-221 | a name that matches is digits, "_", a non-empty middle without a newline, and ".wav", and the index is the digits' value |
| Player.ParseWavNameOf | player.py:218-221 | digits, "_", a middle without a newline, and ".wav" parse back to the digits' value and the middle |
| Player.WavNames | player.py:211 | keeps exactly the names that end with ".wav" |
| Player.WavNamesCounts | player.py:211 | keeps every copy of each ".wav" name and drops every other name |
| Player.WavFiles | player.py:211-212 | the kept names, sorted: an ordered permutation of them, holding exactly the listing's ".wav" names |
| Player.PlaceholderNumber | player.py:225 | the placeholder is "（セリフ ", the digits of index + 1, and "）" |
| Player.LoadedFrom | player.py:214-227 | the loop makes at most one entry per sorted name |
| Player.LoadedFromMembership | player.py:214-227 | an entry is loaded exactly when some name matched and produced it, with the placeholder text "（セリフ index+1）" |
| Player.LoadedFromAll | player.py:214-227 | when every name matches, entry k comes from name k |
| Player.LoadedAmongIndices | player.py:214-227 | entry i comes from the i-th name that matched |
| Player.LoadedInNameOrder | player.py:211-227 | the entries' names are in ascending string order |
| Player.HighlightCharacter | player.py:280-291 | side A exactly when the name contains ずんだもん or "A"; side B exactly when it does not but contains 四国めたん or "B" |
| Player.HighlightSpeakers | player.py:280-291 | ずんだもん lights A, 四国めたん lights B, and 春日部つむぎ lights neither |
| Player.WithTextsSnoc | player.py:244-246 | the next matching line rewrites the next entry's text only, while entries remain |
| Player.WithTextsBeyond | player.py:244-246 | a matching line after the last entry changes nothing |
| Player.FirstStop | player.py:347-355 | the first clip that did not run undisturbed: all before it did |
| Player.Finished | player.py:368-369 | the position after the finishing callback is a clip, or 0: a position on a clip is kept, and a position past the last clip goes back to 0 |
| Player.StopDuringUncutClip | player.py:336-358 | a stop pressed during clip j, which `play_audio` does not cut off, ends the run at j and leaves the player on clip 1, not 0 |
| Player.RecheckedAfterClip | player.py:354-358 | the loop step with the flag checked again after `play_audio`: it agrees with the step as written except for a press during an uncut clip, and a clip played undisturbed still moves the position on by one |
| Player.RecheckedStopRewinds | player.py:336-343 | with that step, a stop rewinds the player to the first clip whenever it is pressed |
| Player.SkitPlayer.constructor | player.py:24-47 | stores the folder and the script, starts stopped at 0, and loads the folder when one is given |
| Player.SkitPlayer.LoadAudioFiles | player.py:205-232 | the clip list is the entries of the folder's sorted .wav names that match; position 0; the playing flag and the script are untouched |
| Player.SkitPlayer.SetSkitText | player.py:234-248 | an empty script changes nothing; otherwise entry k gets the text of the k-th matching line while there are entries; nothing else changes |
| Player.SkitPlayer.AssignTexts | player.py:239-246 | the loop with its `line_index` counter does the same; the number of entries is kept |
| Player.SkitPlayer.PrevLine | player.py:372-376 | moves back one clip only from a position above 0; a valid position stays valid |
| Player.SkitPlayer.NextLine | player.py:378-382 | moves on one clip only while before the last; a valid position stays valid |
| Player.SkitPlayer.OnLineSelect | player.py:384-389 | jumps to the first selected row, or stays where it is |
| Player.SkitPlayer.PausePlayback | player.py:329-334 | clears the playing flag and keeps the position |
| Player.SkitPlayer.StopPlayback | player.py:336-343 | clears the playing flag and rewinds to 0 |
| Player.SkitPlayer.StartPlayback | player.py:318-327 | with no clips it warns and changes nothing; otherwise it sets the playing flag |
| Player.SkitPlayer.TogglePlay | player.py:311-316 | pauses while playing, starts otherwise |
| Player.SkitPlayer.PlayAudio | player.py:293-309 | returns false exactly when the clip was cut off or could not be loaded; a pause or stop pressed while it ran has taken effect (flag cleared, and a stop rewinds to 0), whether or not it cut the clip off; otherwise nothing changes |
| Player.SkitPlayer.OnPlaybackFinished | player.py:364-370 | clears the playing flag; a position past the last clip goes back to 0, and any other position is kept |
| Player.SkitPlayer.PlayClip | player.py:347-359 | one pass of the loop: a clip for which `play_audio` returned true moves the position on by one, even after a stop rewound it to 0; a cut clip leaves it where the press put it; the flag stays set only for a clip played undisturbed or one that raised |
| Player.SkitPlayer.RunClips | player.py:347-358 | the clips handed to `play_audio` run from the start position up to and including the first one not played undisturbed; the position is where that clip left it; the loop ended by an exception exactly when that clip raised; the flag is still set then, and also when the clips ran out; a loop that does not start changes nothing |
| Player.SkitPlayer.PlaybackLoop | player.py:345-362 | the same clips are played; when the last of them raised, the thread ends with the flag set and the position on that clip; otherwise the finishing callback clears the flag and rewinds a position past the last clip; a loop that does not start still runs the callback; the position stays valid |
| Text.JoinPath | player.py:215 | the path ends with the name, and starts with the folder unless the name is absolute; the generator joins its clip paths the same way (voicevox_api.py:101) |
| YouTube.FirstMatch | youtube_api.py:11 | the leftmost position where the marker is followed by a character other than the stop character |
| YouTube.Search | youtube_api.py:9-13 | no group exactly when no position matches; a group is non-empty, has no stop character, and occurs in the URL |
| YouTube.SearchFound | youtube_api.py:9-13 | the group is the maximal run of non-stop characters after the leftmost match |
| YouTube.GetVideoId | youtube_api.py:8-14 | the result occurs in the URL, and is non-empty exactly when the URL is |
| YouTube.VideoIdPrecedence | youtube_api.py:9-14 | the first pattern that matches anywhere wins, in the order `v=`, `youtu.be/`, `shorts/`; a `v=` group has no '&', and the others have no '?'; with no match the URL comes back unchanged |
| YouTube.ShortLinkWithWatchParameter | youtube_api.py:9-13 | in "youtu.be/a?v=b" the `v=` group "b" wins, although "youtu.be/" comes first |
| Pipeline.GeneratedNameLoads | player.py:218-221 | the generator's name `{i:03d}_{c}.wav` loads back as index i and character c |
| Pipeline.NameOrderIsIndexOrder | player.py:210-212 | below 1000, name order is index order, whatever the characters |
| Pipeline.NameOrderPast999 | player.py:210-212 | the clip of line 1000 sorts before the clip of line 101 |
| Pipeline.GeneratedListingSorts | player.py:211-212 | a folder holding exactly the generated clips, listed in any order, sorts back into script order |
| Pipeline.GeneratedFolderLoads | player.py:205-229 | such a folder loads one entry per utterance, in order: the written path, the character, the line as index, and the placeholder text |
| Pipeline.ScriptClipsLoad | player.py:205-229 | the same for the clips of a script of at most 1000 lines |
| Pipeline.TrimmedLineParses | voicevox_api.py:84-89 | `name:text`, with non-space ends, no newline, and no colon after the name's first character, parses to that name and that text |
| Pipeline.TitleScriptLinesParse | voicevox_api.py:84-89 | both lines of the title script parse: "T:x" to T and x, "ずんだもん:y" to ずんだもん and y |
| Pipeline.TitleBeforeSpeech | player.py:239-246 | a title line before a voiced line: the generator keeps only line 1, while `set_skit_text` hands out both texts, the title's first |
| Pipeline.TitleLineTakesFirstClip | player.py:239-246 | for "T:x\nずんだもん:y", the only clip, `001_ずんだもん.wav`, is given the text "x" |
| Pipeline.IndexedTexts | player.py:234-246 | the lookup by index keeps every entry, and gives each the text of the line its index names |
| Pipeline.IndexedTextOfGenerated | player.py:234-246 | with that lookup, a clip the generator made shows its own line's text |
| Pipeline.IndexedTextsOfFolder | player.py:234-246 | with that lookup, every clip loaded from a generated folder shows its own line's text, path, character and index |
| Pipeline.TitleLineIndexed | player.py:234-246 | for the title script, the lookup gives the clip the text "y" |

## Left out

- HTTP transport: the base URL, the `requests` calls, JSON encoding and decoding, and the 2, 30 and 60 second timeouts. Each call's reply is an input. A 200 whose body is not JSON raises inside the same `try`, so it is a `Raised` reply.
- The filesystem: `os.makedirs`, opening and writing files, and `os.listdir`. These become a log of written files and a listing parameter.
- Voicevox.GenerateSkitAudio: assumes that `os.makedirs` and every file write succeed. An `OSError` from `os.makedirs` (an empty `output_dir`, say) or from `open`/`write` (voicevox_api.py:76, 102-103) escapes the method uncaught; that path, and the clips already written when it happens, are not modelled.
- Player.SkitPlayer.LoadAudioFiles: assumes `os.listdir` succeeds. A missing folder raises from `load_audio_files` and is not modelled.
- Text.JoinPath: models `posixpath.join`. On Windows, where the winsound back end is used, `os.path.join` is `ntpath.join`, which also treats `\\` and drive letters as separators and roots; that variant is not modelled.
- Tk: `setup_ui`, `update_line_list`, `update_display`, the labels and button configuration, the message box (the warning is the `warned` result), `browse_folder`'s dialog, and `run`.
- Threads and audio: `threading.Thread`, `window.after`, `time.sleep`, and the pygame and winsound back ends.
  - A clip's playback is reduced to its outcome.
  - The finishing callback runs right after the loop, not later on the UI thread.
- Player.SkitPlayer.PlaybackLoop: presses of previous, next, list selection or play while the loop runs are not modelled. Only a pause or a stop, seen through a clip's outcome, acts on the loop.
- Player.SkitPlayer.constructor: `audio_dir=None` and `skit_text=None` are modelled as empty strings. `set_skit_text(None)` is the empty-script case.
- `YouTubeAPI.fetch_transcript` and the transcript library: they are a wrapper around a foreign call.
- `main.py`, `database.py` and `gemini_api.py`: they are user interface, storage and prompt text, outside the skit pipeline.
- Unicode digits: `\d` and `int()` also accept non-ASCII decimal digits. The model uses ASCII digits only.
- Whitespace is Python's `str.isspace` set, written out. It is what `strip()` removes and what `\s` matches.
- Numerals.ParseDecimal: `int()` also accepts surrounding whitespace, a sign and underscores. `(\d+)` never hands it any of those, so they are not modelled.

## Findings

| source | as written | input that shows it | evidently intended | confidence | as-written member | corrected member |
|---|---|---|---|---|---|---|
| player.py:354-358 | `playback_loop` adds 1 to the position whenever `play_audio` returns True, even when `stop_playback` rewound it to 0 while the clip played; winsound and the silent wait (player.py:303-308) always return True | three clips, playback started at the third clip (index 2), Stop pressed while it plays under winsound: the player ends on index 1, the second clip | Stop rewinds to the first clip | medium, not executed | Player.StopDuringUncutClip | Player.RecheckedStopRewinds |
| player.py:242-246 | every line that matches the pattern takes the next clip, whatever its speaker, while the generator makes clips only for the three voices | the script "T:x\nずんだもん:y": the only clip is `001_ずんだもん.wav`, and it is given the title's text "x" instead of "y" | each clip shows the text of the script line its file number names | medium, not executed | Pipeline.TitleLineTakesFirstClip | Pipeline.IndexedTextsOfFolder |
