# Mid2Text core in Dafny

Mid2Text turns MIDI note data into a compact text format for a note-block music
format. Its core, the `mid_text_converter` crate, is modelled here.

- **Tick codec and stream merger** (`utils.rs`). A stream is read left to right with a
  running tick counter. The digit `n` adds `2n` ticks, `.` adds one tick, and every
  other character is an event at the current tick. `tick_to_string` writes a gap
  greedily: `9` (18 ticks) as often as it fits, then at most one digit `1`..`8`, then
  at most one `.`. `merge_string` decodes every stream (`parse_track`), stable-sorts
  all events by tick and writes them back as one stream (`serialize_events`).
- **Tracks and instruments** (`instruments.rs`). A `Track` is a list of notes. Merging
  one into another appends it and stable-sorts by start. `midi_to_notes` builds a track
  from a MIDI file. Per sub-track, it pairs every `NoteOn` with the first `NoteOff` of
  the same key still in a pool, and starts the note at the counter divided by 12. An
  `Instruments` value is a track tagged with one of eleven kinds. Two instruments merge
  only when their kinds agree. `to_text` writes a sorted track as a stream: for each
  note, the gap since the previous note, then the note's token. A Pling token is an
  optional `+`/`-` octave shift and a pitch character. Every other kind writes its own
  one-character prefix and then the pitch character.
- **Song** (`song.rs`). A list of instruments. `to_text` writes every instrument. The
  first instrument that fails stops the song with its error. Otherwise the streams are
  merged.

Files:

| file | module | models |
|---|---|---|
| `wrappers.dfy` | `Wrappers` | `Option` and `Result` |
| `seqs.dfy` | `Seqs` | small sequence facts |
| `sorting.dfy` | `Sorting` | the stable sort by key (`sort_by`, `sort_by_key`) and a stable two-way merge |
| `note.dfy` | `NoteModel` | notes and the pitch character mapping (`note.rs` is not part of this model) |
| `utils.dfy` | `Utils` | `tick_to_string`, `parse_track`, `serialize_events`, `merge_string` |
| `utils_examples.dfy` | `UtilsExamples` | the fixed cases of the tests of `utils.rs` |
| `midi.dfy` | `MidiModel` | the MIDI events and the note pairing of `midi_to_notes`, as functions |
| `instruments.dfy` | `InstrumentModel` | `Track`, `InstrumentKind`, `Instruments`, `InstrumentError` |
| `song.dfy` | `SongModel` | `Song` |

The state the source changes in place is modelled as classes:

- the notes of a `Track`;
- the track an `Instruments` value holds;
- the instrument list of a `Song`.

Each loop of the source is a method with its invariants:

- `tick_to_string`;
- `parse_track`;
- both loops of `serialize_events`;
- `merge_string`;
- `midi_to_notes`, with its pool search;
- `to_text`;
- `track_to_string`;
- `Song::to_text`.

Each such method is proved equal to a specification function:

- `Gap`;
- `Decode`;
- `Encode`;
- `MergeText`;
- `MidiNotes`;
- `Render`;
- `SongText`.

The properties are lemmas about those functions.

Paths below are relative to the repository root.

## Model

| member | source | states |
|---|---|---|
| `Utils.TickToString` | mid_text_converter/src/utils.rs:1-28 | the loop writes exactly `Gap(ticks)`: 18-tick `9`s, then one digit for the even rest, then `.` for an odd tick |
| `Utils.Gap` | mid_text_converter/src/utils.rs:1-28 | the text of a gap is empty exactly for 0 ticks, so the `.` fallback of lines 23-25 never fires |
| `Utils.GapIsTime` | mid_text_converter/src/utils.rs:8-21 | a gap text is `9`s, at most one digit `1`..`8`, then at most one `.`; it holds only digits and periods |
| `Utils.GapRoundTrip` | mid_text_converter/src/utils.rs:1-44 | reading a gap text back adds exactly `d` ticks and fires no event |
| `Utils.GapShapeCanonical` | mid_text_converter/src/utils.rs:8-21 | every text of gap shape is the gap of its own weight, so the gap writing is the only canonical one |
| `UtilsExamples.GapExamples` | mid_text_converter/src/utils.rs:89-98 | gaps 0, 1, 2, 3, 4 and 38 are `""`, `.`, `1`, `1.`, `2` and `991` |
| `Utils.ParseTrack` | mid_text_converter/src/utils.rs:31-48 | the loop returns `Decode(track)` |
| `Utils.DecodeChars` | mid_text_converter/src/utils.rs:36-45 | one event per non-time character, in string order, carrying that character |
| `Utils.DecodeAt` | mid_text_converter/src/utils.rs:36-44 | the event of character `i` is at the ticks added by the characters before it |
| `Utils.DecodeSorted` | mid_text_converter/src/utils.rs:31-48 | event ticks never decrease and never pass the stream's total time |
| `Utils.DecodeNoTimeChars` | mid_text_converter/src/utils.rs:37-44 | digits and periods never become events |
| `Utils.DecodeEmptyIff` | mid_text_converter/src/utils.rs:31-48 | a stream has no events exactly when it holds only digits and periods |
| `Utils.DecodePayloadOnly` | mid_text_converter/src/utils.rs:31-48 | a stream without time characters puts all its events on tick 0 |
| `Utils.DecodeAppend` | mid_text_converter/src/utils.rs:31-48 | reading `a + b` is reading `a`, then reading `b` moved by the time of `a` |
| `Utils.SerializeEvents` | mid_text_converter/src/utils.rs:50-75 | the nested loops write exactly `Encode(events, 0)`; no events give `""` |
| `Utils.WriteRun` | mid_text_converter/src/utils.rs:66-69 | the inner loop writes the run of events on one tick: every event it takes is on that tick, and it stops at the first event of another tick or at the end |
| `Utils.RunOnAll` | mid_text_converter/src/utils.rs:66 | the run `RunOn` that `WriteRun` promises holds exactly when every event in it is on the run's tick |
| `Utils.EncodeDecodes` | mid_text_converter/src/utils.rs:50-75 | sorted events without time characters, written from `last`, read back as themselves |
| `Utils.EncodeAppend` | mid_text_converter/src/utils.rs:50-75 | writing `a + b` writes `a`, then `b` from the tick `a` ends on |
| `Utils.MergeString` | mid_text_converter/src/utils.rs:30-87 | the merge returns `MergeText(tracks)`, which reads back as the stable sort by tick of all input events |
| `Utils.MergeDecodes` | mid_text_converter/src/utils.rs:77-86 | the merged stream reads back as the stable sort by tick of the concatenated event lists |
| `Utils.MergeKeepsEvents` | mid_text_converter/src/utils.rs:77-86 | the merged events are sorted, a permutation of all input events, and keep input order on every tick |
| `Utils.AllEventsOnTick` | mid_text_converter/src/utils.rs:79-82 | on every tick the events of an earlier stream come before those of a later one |
| `Utils.MergeAddsStream` | mid_text_converter/src/utils.rs:77-86 | adding a stream merges its events stably after the sorted events of the earlier streams |
| `Utils.MergeTwoStreams` | mid_text_converter/src/utils.rs:77-86 | merging two streams writes the stable merge of their event lists |
| `Utils.MergeThreeStreams` | mid_text_converter/src/utils.rs:77-86 | merging three streams merges the first two, then the third |
| `Utils.MergeWithoutEvents` | mid_text_converter/src/utils.rs:51-53 | no streams, or streams of time characters only, merge to `""` |
| `Utils.MergeDropsTrailingTime` | mid_text_converter/src/utils.rs:50-75 | time after a stream's last event does not show in the merge |
| `Utils.MergeSingle` | mid_text_converter/src/utils.rs:77-86 | merging one stream rewrites its own events |
| `Utils.MergeIdempotent` | mid_text_converter/src/utils.rs:77-86 | merging a merged stream again gives it back |
| `Utils.MergeCommutesOnEvents` | mid_text_converter/src/utils.rs:77-86 | swapping two streams keeps the multiset of merged events |
| `UtilsExamples.DecodeExampleG` | mid_text_converter/src/utils.rs:103 | `G4I4K` reads as `G`, `I`, `K` on ticks 0, 8, 16 |
| `UtilsExamples.DecodeExampleShiftedG` | mid_text_converter/src/utils.rs:103 | `2G4I4K` reads as `G`, `I`, `K` on ticks 4, 12, 20 |
| `UtilsExamples.MergeExampleTwoStreams` | mid_text_converter/src/utils.rs:102-105 | `["G4I4K", "2G4I4K"]` merges to `G2G2I2I2K2K` |
| `UtilsExamples.MergeExampleTrailing` | mid_text_converter/src/utils.rs:107-110 | `["G4I4K", "2G4I4KA"]` merges to `G2G2I2I2K2KA` |
| `UtilsExamples.MergeExampleThreeStreams` | mid_text_converter/src/utils.rs:112-115 | `["AA@.A", "BB1B", "CCC"]` merges to `AA@BBCCC.A.B` |
| `Sorting.SortBy` | mid_text_converter/src/utils.rs:84 | the sort keeps the length; what it sorts to is stated by the `SortBy` lemmas below |
| `Sorting.SortByPermutation` | mid_text_converter/src/utils.rs:84 | the sort keeps every element: a permutation |
| `Sorting.SortBySorted` | mid_text_converter/src/utils.rs:84 | the sort's keys never decrease |
| `Sorting.SortByStable` | mid_text_converter/src/utils.rs:84 | elements with equal keys keep their input order |
| `Sorting.SortByOfSorted` | mid_text_converter/src/utils.rs:84 | a sorted sequence is left as it is |
| `Sorting.SortedUnique` | mid_text_converter/src/utils.rs:84 | two sorted sequences with the same elements per key, in the same order, are equal |
| `Sorting.SortByIsStableSort` | mid_text_converter/src/instruments.rs:18 | the sort is a stable sort, and every stable sort of the input is this one |
| `Sorting.InsertPermutation` | mid_text_converter/src/utils.rs:84 | inserting adds exactly the new element |
| `Sorting.InsertSorted` | mid_text_converter/src/utils.rs:84 | inserting into a sorted sequence keeps it sorted |
| `Sorting.InsertStable` | mid_text_converter/src/utils.rs:84 | the inserted element goes before the elements of equal key |
| `Sorting.WithKeyAppend` | mid_text_converter/src/utils.rs:81 | the elements of one key in `a + b` are those of `a`, then those of `b` |
| `Sorting.SortByAppend` | mid_text_converter/src/utils.rs:81-84 | sorting `a + b` is the stable merge of the sorted parts |
| `Sorting.MergeSorted` | mid_text_converter/src/utils.rs:84 | the stable merge of sorted sequences is sorted |
| `Sorting.MergeWithKey` | mid_text_converter/src/utils.rs:84 | on each key the stable merge holds the left elements, then the right ones |
| `Sorting.MergeLeftRun` | mid_text_converter/src/utils.rs:84 | left elements no later than the right head stay in front of the merge |
| `NoteModel.KeyToChar` | mid_text_converter/src/instruments.rs:172-187 | a key maps to a pitch character exactly when it is in the band 54..78 or folding is on; otherwise the error carries the key |
| `NoteModel.Fold` | mid_text_converter/src/instruments.rs:172-187 | folding moves a key by whole octaves into the band, by as few octaves as it can |
| `NoteModel.ToChar` | mid_text_converter/src/instruments.rs:172-218 | a note's character exists exactly when folding is on or its key is in the band, where it is the key's own character; otherwise the error carries the key |
| `NoteModel.KeyToCharPitch` | mid_text_converter/src/instruments.rs:172-187 | the character keeps the key's pitch class, and a key of the band is its own pitch |
| `NoteModel.PitchCharRoundTrip` | mid_text_converter/src/instruments.rs:172-187 | every pitch character comes from exactly one key of the band |
| `NoteModel.KeyToCharFolds` | mid_text_converter/src/instruments.rs:172-187 | a folded mapping is the plain mapping of the folded key |
| `NoteModel.KeyToCharExamples` | mid_text_converter/src/instruments.rs:225-270 | keys 60, 62, 64 are `G`, `I`, `K`; 103, 89, 88, 101 fold to `N`, `X`, `W`, `X`; 127 fails unfolded |
| `InstrumentModel.Track.constructor` | mid_text_converter/src/instruments.rs:12-14 | a new track has no notes |
| `InstrumentModel.Track.Merge` | mid_text_converter/src/instruments.rs:16-19 | the notes become the stable sort by start of the old notes followed by the other's |
| `InstrumentModel.MergedNotes` | mid_text_converter/src/instruments.rs:16-19 | merged notes: summed length, a permutation, sorted by start, own notes first on equal starts, and no other order fits |
| `InstrumentModel.MergeInOrder` | mid_text_converter/src/instruments.rs:16-19 | a track that starts no earlier than the end of this one is appended as it is |
| `InstrumentModel.Track.MidiToNotes` | mid_text_converter/src/instruments.rs:21-81 | the loop over the sub-tracks builds exactly `MidiNotes(midi)` in a fresh track |
| `InstrumentModel.Track.PairTrack` | mid_text_converter/src/instruments.rs:44-73 | the loop over one filtered sub-track produces `PairNotes` of the sub-track against itself |
| `InstrumentModel.Track.Position` | mid_text_converter/src/instruments.rs:55-65 | the pool search returns the first `NoteOff` of the key, if any |
| `MidiModel.NoteMessages` | mid_text_converter/src/instruments.rs:22-36 | keeps only `NoteOn` and `NoteOff` events, keeps every one of them, and never lengthens the sub-track; a one-event sub-track keeps its event exactly when it is a note event, which with `NoteMessagesAppend` fixes the order |
| `MidiModel.NoteMessagesIdempotent` | mid_text_converter/src/instruments.rs:22-36 | filtering twice is filtering once |
| `MidiModel.NoteMessagesAppend` | mid_text_converter/src/instruments.rs:22-36 | the filter distributes over concatenation |
| `MidiModel.FirstNoteOff` | mid_text_converter/src/instruments.rs:55-65 | the index of the first `NoteOff` of the key in the pool; none exactly when there is no such event |
| `MidiModel.PairNotesCounts` | mid_text_converter/src/instruments.rs:44-69 | per key, the notes number exactly the smaller of the `NoteOn`s and the `NoteOff`s in the pool: none pairs twice, and a `NoteOn` with a `NoteOff` left always yields a note |
| `MidiModel.PairNotesFromNoteOns` | mid_text_converter/src/instruments.rs:46-66 | every note comes from a `NoteOn` with its key, at the sum of the deltas up to that event divided by 12 |
| `MidiModel.PairNotesSorted` | mid_text_converter/src/instruments.rs:46-67 | the notes of a sub-track are sorted by start |
| `MidiModel.SubTrackIgnoresOthers` | mid_text_converter/src/instruments.rs:22-36 | the other events of a sub-track do not change its notes |
| `MidiModel.MidiNotesSorted` | mid_text_converter/src/instruments.rs:75-80 | the notes of a file are sorted by start |
| `MidiModel.MidiNotesCollects` | mid_text_converter/src/instruments.rs:75-77 | each sub-track adds exactly its notes, after the earlier notes on equal starts |
| `MidiModel.SilentSubTrack` | mid_text_converter/src/instruments.rs:40-43 | a sub-track without note events leaves the notes unchanged |
| `MidiModel.EarlierNoteOffPairs` | mid_text_converter/src/instruments.rs:44-69 | a `NoteOff` that comes before its `NoteOn` still pairs with it, because the pool is the whole sub-track |
| `MidiModel.OtherDeltaDropped` | mid_text_converter/src/instruments.rs:22-49 | the delta of a filtered-out event does not move the notes after it |
| `InstrumentModel.FixedPrefix` | mid_text_converter/src/instruments.rs:192-201 | every kind but Pling writes one prefix character that is not a time character, pitch, `+` or `-` |
| `InstrumentModel.FixedPrefixInjective` | mid_text_converter/src/instruments.rs:192-201 | distinct kinds write distinct prefixes |
| `InstrumentModel.PlingToken` | mid_text_converter/src/instruments.rs:172-188 | a Pling note can be written exactly with relative moves or for keys 30..102; otherwise the error carries the key |
| `InstrumentModel.PlingTokenShape` | mid_text_converter/src/instruments.rs:172-188 | `+` exactly for keys from 78, `-` exactly for keys up to 54, then one pitch character of the key's pitch class |
| `InstrumentModel.FixedToken` | mid_text_converter/src/instruments.rs:213-218 | a fixed-prefix note can be written exactly with relative moves or inside the band |
| `InstrumentModel.FixedTokenShape` | mid_text_converter/src/instruments.rs:213-218 | a fixed-prefix token is the prefix, then one pitch character of the key's pitch class |
| `InstrumentModel.TokenHasNoTime` | mid_text_converter/src/instruments.rs:174-217 | no token holds a digit or a period, so tokens never read as time |
| `InstrumentModel.Instruments.Merge` | mid_text_converter/src/instruments.rs:136-159 | same kinds: `Ok` and the stable sort of both tracks' notes; different kinds: `MergeDifferentInstrumentTypes` and the notes unchanged |
| `InstrumentModel.Instruments.TrackToString` | mid_text_converter/src/instruments.rs:205-221 | the loop over a sorted track writes `Render` with the given prefix, ending at the first failing note |
| `InstrumentModel.Instruments.PlingParts` | mid_text_converter/src/instruments.rs:172-188 | the octave shift and the character chosen for a Pling note make up its token |
| `InstrumentModel.Instruments.ToText` | mid_text_converter/src/instruments.rs:161-203 | the text of a sorted track is `InstrumentText` for the instrument's kind |
| `InstrumentModel.Render` | mid_text_converter/src/instruments.rs:205-221 | per note, the gap since the previous note and the token; the first failing note's error |
| `InstrumentModel.RenderOk` | mid_text_converter/src/instruments.rs:205-221 | a track can be written exactly when every note's token can |
| `InstrumentModel.RenderError` | mid_text_converter/src/instruments.rs:205-221 | a failing track fails with the error of its first failing note |
| `InstrumentModel.InstrumentTextOk` | mid_text_converter/src/instruments.rs:161-221 | an instrument can be written exactly when relative moves are on or every key is in range (30..102 for Pling, 54..78 otherwise); an error names a key of the track |
| `InstrumentModel.RenderDecodes` | mid_text_converter/src/instruments.rs:205-221 | a written track reads back as each token's characters at its note's start, in note order |
| `InstrumentModel.InstrumentTextDecodes` | mid_text_converter/src/instruments.rs:161-203 | an instrument's text reads back from tick 0 as its notes' tokens at their starts |
| `InstrumentModel.EncodeTextEvents` | mid_text_converter/src/instruments.rs:205-221 | the events of a written track, written back by the merger, give the same text |
| `InstrumentModel.InstrumentTextCanonical` | mid_text_converter/src/instruments.rs:161-203 | merging one instrument's text on its own gives it back |
| `InstrumentModel.TextEventsWithin` | mid_text_converter/src/instruments.rs:205-221 | a track's events lie within the range of its notes' starts |
| `InstrumentModel.TextEventsEnds` | mid_text_converter/src/instruments.rs:205-221 | a written track's events start on its first note and end on its last |
| `InstrumentModel.RenderOneTickApart` | mid_text_converter/src/instruments.rs:205-221 | notes on consecutive ticks are written as their tokens joined by single periods |
| `InstrumentModel.PlingTokenExamples` | mid_text_converter/src/instruments.rs:225-270 | the Pling tokens of the tests: `G`, `I`, `K`, `+N`, `+X`, `+W` |
| `InstrumentModel.PlingExample` | mid_text_converter/src/instruments.rs:225-235 | Pling `[60@0, 62@1, 127@2]` with relative moves is `G.I.+N` |
| `InstrumentModel.PlingMergeOrder` | mid_text_converter/src/instruments.rs:237-266 | the merged tracks of the merge test are the two tracks one after the other |
| `InstrumentModel.PlingMergeExample` | mid_text_converter/src/instruments.rs:250-253 | the first merged Pling track is `G.I.K.+X` |
| `InstrumentModel.PlingMergeShiftedExample` | mid_text_converter/src/instruments.rs:266-269 | the second merged Pling track is `G.I.+W.+X` |
| `SongModel.Song.constructor` | mid_text_converter/src/song.rs:10-12 | a new song has no instruments and `end` 0 |
| `SongModel.Song.AddTrack` | mid_text_converter/src/song.rs:14-16 | the instrument is appended; the earlier ones and `end` are unchanged |
| `SongModel.Song.ToText` | mid_text_converter/src/song.rs:18-25 | the loop computes `SongText` of the instruments' kinds and notes: the first error, or the merge of all texts in order |
| `SongModel.TextsOk` | mid_text_converter/src/song.rs:20-22 | all texts can be written exactly when each instrument's can |
| `SongModel.TextsValues` | mid_text_converter/src/song.rs:20-22 | the texts are the instruments' texts, one per instrument, in order |
| `SongModel.TextsError` | mid_text_converter/src/song.rs:21 | a failure is the error of the first instrument that fails, all earlier ones succeeding |
| `SongModel.SongTextOk` | mid_text_converter/src/song.rs:18-25 | a song succeeds exactly when every instrument does, always with relative moves, and fails with the first failing instrument's error |
| `SongModel.SongTextDecodes` | mid_text_converter/src/song.rs:18-25 | a song reads back as the stable sort by tick of all instruments' events: sorted, a permutation, earlier instruments first on each tick |
| `SongModel.EmptySongText` | mid_text_converter/src/song.rs:18-24 | a song without instruments is `""` |
| `SongModel.SingleSongText` | mid_text_converter/src/song.rs:18-25 | a song of one instrument is that instrument's text, or its error |
| `SongModel.ConsecutiveParts` | mid_text_converter/src/song.rs:18-25 | when the second instrument starts no earlier than the first one's last note, the song is the first text, then the second track written on from that note |
| `SongModel.SongExample` | mid_text_converter/src/song.rs:41-60 | Flute `[60@0, 62@1]` and Pling `[112@2, 125@3]` with relative moves give `@G.@I.+W.+X` |
| `SongModel.SongScenario` | mid_text_converter/src/song.rs:41-60 | the test's steps, performed with the `Track` and `Song` methods, are proved to return `Ok("@G.@I.+W.+X")` |

## Left out

- `note.rs` is not part of this model. `NoteModel.KeyToChar` gives the band 54..78 the characters `A`..`Y`. With folding, a key moves by whole octaves into the band. This mapping is chosen to agree with what the callers show: the 54/78 boundaries and the two-octave shifts of the Pling branch (instruments.rs:172-187), and every character the tests pin (instruments.rs:225-270, song.rs:41-60). The crate's own mapping may differ outside those values.
- Sorting.SortBy: its own contract states only that the length is kept. Being sorted, a permutation and stable are separate lemmas (`SortBySorted`, `SortByPermutation`, `SortByStable`, `SortByIsStableSort`). Keeping them out of the recursive function's contract keeps each proof small.
- Instruments::new: the `Instruments` datatype's constructor stands for `Instruments::new` (instruments.rs:119-133). It is a plain tagging match with nothing to prove.
- The source's `Instruments` is an enum with one variant per kind. The model pairs an `InstrumentKind` with a `Track`, so "same variant" is "same kind".
- Rust's `sort_by`/`sort_by_key` are modelled by `Sorting.SortBy`, an insertion sort. `SortByIsStableSort` shows that every stable sort gives the same result, so the choice of algorithm does not show.
- MIDI parsing (`midly::Smf::parse`), reading files, the file-based test `test_mid_to_track` (song.rs:62-98) and the command-line tool are left out. `midi_to_notes` works on an abstract file: sub-tracks of `(delta, kind)` events, where the kind is `NoteOn(key)`, `NoteOff(key)` or anything else.
- Velocity is not modelled. A `NoteOn` of velocity 0 is a `NoteOn`, as the code matches on the kind alone.
- `midi_to_notes` filters out the other events before it adds up the deltas. Their deltas are lost, and the model keeps that (`MidiModel.OtherDeltaDropped`).
- Integers are unbounded. The u32 wrap-around of `current_time` and `current_tick` is not modelled.
- Instruments.TrackToString, Instruments.ToText: require the track to be sorted by start. On a track that is not sorted, `note.start_timing - current_time` underflows a `u32`. `Elapsed` clamps that case to 0 only so that `Render` is total.
- Song.ToText: requires every instrument's track to be sorted, for the same reason.
- Formatting failures of `write!` and the boxing into `Box<dyn Error>` are left out. The only error kept is the pitch mapping's `InvalidKey`.
- The `end` field of `Song` is kept but nothing reads it, as in the source.
- `Default for Song` (song.rs:28-32) is `Song::new` and is not modelled separately.
- The fourth case of `test_merge_string` (utils.rs:117-120), with its 48-digit runs of `9`, is not worked out as a fixed case. `Utils.MergeDecodes` and `Utils.MergeKeepsEvents` cover it.
- `mid_to_track` (song.rs:65-71) calls `Track::midi_to_track`, a name `instruments.rs` does not define. The function it means is `midi_to_notes`, modelled as `InstrumentModel.Track.MidiToNotes`.
- The tests build their tracks with `Track::push` (song.rs:46-51), which `instruments.rs` does not define. `SongModel.SongScenario` appends to the track's notes directly, as `track.0.push` does in `instruments.rs`.
