/**
 * The song of `song.rs`: instruments added one after another and written as one merged
 * stream. Every instrument writes its own stream, the first failing instrument stops the
 * song with its error, and otherwise the streams are merged by `merge_string`.
 */
module SongModel {
  import opened Wrappers
  import opened Sorting
  import opened Utils
  import opened NoteModel
  import opened InstrumentModel
  import opened Seqs

  /** What writing needs of an instrument: its kind and the notes its track holds. */
  datatype Part = Part(kind: InstrumentKind, notes: seq<Note>)

  /** The text of one part, as `Instruments::to_text` writes it. */
  function PartText(p: Part, relativeMove: bool): Result<string, NoteError> {
    InstrumentText(p.kind, p.notes, relativeMove)
  }

  /** The tracks the instruments refer to. */
  function TracksOf(ins: seq<Instruments>): set<Track> {
    set i | 0 <= i < |ins| :: ins[i].track
  }

  /** The kinds and current notes of the instruments, in order. */
  function PartsOf(ins: seq<Instruments>): (ps: seq<Part>)
    reads TracksOf(ins)
    ensures |ps| == |ins|
    ensures forall i :: 0 <= i < |ins| ==> ps[i] == Part(ins[i].kind, ins[i].track.notes)
  {
    seq(|ins|, i reads TracksOf(ins) requires 0 <= i < |ins| => Part(ins[i].kind, ins[i].track.notes))
  }

  /**
   * The streams of the parts in order, or the error of the first part that cannot be
   * written: the parts after it are not written.
   */
  function Texts(parts: seq<Part>, relativeMove: bool): Result<seq<string>, NoteError> {
    if |parts| == 0 then Ok([])
    else
      match Texts(parts[..|parts| - 1], relativeMove)
      case Err(e) => Err(e)
      case Ok(ts) =>
        match PartText(parts[|parts| - 1], relativeMove)
        case Err(e) => Err(e)
        case Ok(t) => Ok(ts + [t])
  }

  /** `Song::to_text` on the parts: the merge of all streams, or the first error. */
  function SongText(parts: seq<Part>, relativeMove: bool): Result<string, NoteError> {
    match Texts(parts, relativeMove)
    case Err(e) => Err(e)
    case Ok(ts) => Ok(MergeText(ts))
  }

  /** The events of every part's text, part after part. */
  function SongEvents(parts: seq<Part>, relativeMove: bool): seq<Event> {
    if |parts| == 0 then []
    else
      var p := parts[|parts| - 1];
      SongEvents(parts[..|parts| - 1], relativeMove) + TextEvents(StyleOf(p.kind), p.notes, relativeMove)
  }

  /** Every part's notes are sorted by start, as the writing loops need. */
  predicate AllSorted(parts: seq<Part>) {
    forall i :: 0 <= i < |parts| ==> SortedBy(parts[i].notes, StartOf)
  }

  // ---------------------------------------------------------------------------
  // The song
  // ---------------------------------------------------------------------------

  /** `Song`: the instruments in the order they were added, and the unused `end` tick. */
  class Song {
    var tracks: seq<Instruments>
    var end: nat

    /** `Song::new`: no instruments, `end` at 0. */
    constructor ()
      ensures tracks == [] && end == 0
    {
      tracks := [];
      end := 0;
    }

    /** `Song::add_track`: the instrument goes after all earlier ones. */
    method AddTrack(track: Instruments)
      modifies this
      ensures tracks == old(tracks) + [track] && end == old(end)
    {
      tracks := tracks + [track];
    }

    /**
     * `Song::to_text`: writes every instrument in order, stops at the first one that
     * fails with its error, and merges the streams.
     */
    method ToText(relativeMove: bool) returns (r: Result<string, NoteError>)
      requires forall i :: 0 <= i < |tracks| ==> SortedBy(tracks[i].track.notes, StartOf)
      ensures r == SongText(PartsOf(tracks), relativeMove)
    {
      ghost var parts := PartsOf(tracks);
      var t: seq<string> := [];
      assert parts[..0] == [];
      for k := 0 to |tracks|
        invariant Texts(parts[..k], relativeMove) == Ok(t)
      {
        var text := tracks[k].ToText(relativeMove);
        TextsStep(parts, k, relativeMove, t, text);
        if text.Err? {
          assert SongText(parts, relativeMove) == Err(text.error);
          assert PartsOf(tracks) == parts;
          return Err(text.error);
        }
        t := t + [text.value];
      }
      assert parts[..|tracks|] == parts;
      var merged := MergeString(t);
      assert SongText(parts, relativeMove) == Ok(merged);
      assert PartsOf(tracks) == parts;
      return Ok(merged);
    }
  }

  // ---------------------------------------------------------------------------
  // Writing the parts
  // ---------------------------------------------------------------------------

  /** Once a prefix of the parts fails, the whole song fails with the same error. */
  lemma {:induction false} TextsErrorStays(parts: seq<Part>, k: nat, relativeMove: bool)
    requires k <= |parts| && Texts(parts[..k], relativeMove).Err?
    ensures Texts(parts, relativeMove) == Texts(parts[..k], relativeMove)
    decreases |parts|
  {
    if k < |parts| {
      var init := parts[..|parts| - 1];
      assert init[..k] == parts[..k];
      TextsErrorStays(init, k, relativeMove);
    } else {
      assert parts[..k] == parts;
    }
  }

  /** One step of the writing loop of `to_text`. */
  lemma TextsStep(parts: seq<Part>, k: nat, relativeMove: bool, t: seq<string>, text: Result<string, NoteError>)
    requires k < |parts| && Texts(parts[..k], relativeMove) == Ok(t)
    requires text == PartText(parts[k], relativeMove)
    ensures text.Ok? ==> Texts(parts[..k + 1], relativeMove) == Ok(t + [text.value])
    ensures text.Err? ==> Texts(parts, relativeMove) == Err(text.error)
  {
    var pre := parts[..k + 1];
    assert pre[..k] == parts[..k] && pre[k] == parts[k];
    if text.Err? {
      TextsErrorStays(parts, k + 1, relativeMove);
    }
  }

  /** The parts can all be written exactly when each of them can. */
  lemma {:induction false} TextsOk(parts: seq<Part>, relativeMove: bool)
    ensures Texts(parts, relativeMove).Ok? <==> forall i :: 0 <= i < |parts| ==> PartText(parts[i], relativeMove).Ok?
    decreases |parts|
  {
    if |parts| > 0 {
      var n := |parts| - 1;
      var init := parts[..n];
      TextsOk(init, relativeMove);
      assert forall i :: 0 <= i < n ==> init[i] == parts[i];
      if Texts(init, relativeMove).Err? {
        var i :| 0 <= i < n && PartText(init[i], relativeMove).Err?;
        assert PartText(parts[i], relativeMove).Err?;
      }
    }
  }

  /** The streams of a song that can be written are the parts' texts in order. */
  lemma {:induction false} TextsValues(parts: seq<Part>, relativeMove: bool)
    requires Texts(parts, relativeMove).Ok?
    ensures |Texts(parts, relativeMove).value| == |parts|
    ensures forall i :: 0 <= i < |parts| ==> PartText(parts[i], relativeMove) == Ok(Texts(parts, relativeMove).value[i])
    decreases |parts|
  {
    if |parts| > 0 {
      var n := |parts| - 1;
      var init := parts[..n];
      TextsLast(parts, relativeMove);
      TextsValues(init, relativeMove);
      var ts, t := Texts(init, relativeMove).value, PartText(parts[n], relativeMove).value;
      forall i | 0 <= i < |parts| ensures PartText(parts[i], relativeMove) == Ok((ts + [t])[i]) {
        if i < n {
          assert init[i] == parts[i];
        }
      }
    }
  }

  /** The streams of a song that can be written end with the text of its last part. */
  lemma TextsLast(parts: seq<Part>, relativeMove: bool)
    requires |parts| > 0 && Texts(parts, relativeMove).Ok?
    ensures Texts(parts[..|parts| - 1], relativeMove).Ok? && PartText(parts[|parts| - 1], relativeMove).Ok?
    ensures Texts(parts, relativeMove).value
         == Texts(parts[..|parts| - 1], relativeMove).value + [PartText(parts[|parts| - 1], relativeMove).value]
  {
  }

  /** A failing song fails with the error of its first part that cannot be written. */
  lemma {:induction false} TextsError(parts: seq<Part>, relativeMove: bool)
    requires Texts(parts, relativeMove).Err?
    ensures exists i :: 0 <= i < |parts| && PartText(parts[i], relativeMove) == Err(Texts(parts, relativeMove).error)
                        && forall j :: 0 <= j < i ==> PartText(parts[j], relativeMove).Ok?
    decreases |parts|
  {
    var init := parts[..|parts| - 1];
    assert forall i :: 0 <= i < |init| ==> init[i] == parts[i];
    if Texts(init, relativeMove).Err? {
      TextsError(init, relativeMove);
      var i :| 0 <= i < |init| && PartText(init[i], relativeMove) == Err(Texts(init, relativeMove).error)
               && forall j :: 0 <= j < i ==> PartText(init[j], relativeMove).Ok?;
      assert PartText(parts[i], relativeMove) == Err(Texts(parts, relativeMove).error);
    } else {
      TextsOk(init, relativeMove);
      assert PartText(parts[|parts| - 1], relativeMove) == Err(Texts(parts, relativeMove).error);
    }
  }

  /**
   * A song can be written exactly when each instrument can: always with relative moves,
   * and otherwise when every key fits its instrument's range. A failure carries the
   * error of the first instrument that cannot be written.
   */
  lemma SongTextOk(parts: seq<Part>, relativeMove: bool)
    ensures SongText(parts, relativeMove).Ok? <==> forall i :: 0 <= i < |parts| ==> PartText(parts[i], relativeMove).Ok?
    ensures relativeMove ==> SongText(parts, relativeMove).Ok?
    ensures SongText(parts, relativeMove).Err? ==>
              exists i :: 0 <= i < |parts| && PartText(parts[i], relativeMove) == Err(SongText(parts, relativeMove).error)
                          && forall j :: 0 <= j < i ==> PartText(parts[j], relativeMove).Ok?
  {
    TextsOk(parts, relativeMove);
    if relativeMove {
      forall i | 0 <= i < |parts| ensures PartText(parts[i], relativeMove).Ok? {
        InstrumentTextOk(parts[i].kind, parts[i].notes, relativeMove);
      }
    }
    if SongText(parts, relativeMove).Err? {
      TextsError(parts, relativeMove);
    }
  }

  /** The streams read back as the parts' events, stream after stream. */
  lemma {:induction false} TextsEvents(parts: seq<Part>, relativeMove: bool)
    requires AllSorted(parts) && Texts(parts, relativeMove).Ok?
    ensures AllEvents(Texts(parts, relativeMove).value) == SongEvents(parts, relativeMove)
    decreases |parts|
  {
    if |parts| > 0 {
      var init := parts[..|parts| - 1];
      var p := parts[|parts| - 1];
      assert forall i :: 0 <= i < |init| ==> init[i] == parts[i];
      TextsEvents(init, relativeMove);
      var ts := Texts(parts, relativeMove).value;
      assert ts == Texts(init, relativeMove).value + [PartText(p, relativeMove).value];
      assert ts[..|ts| - 1] == Texts(init, relativeMove).value;
      InstrumentTextDecodes(p.kind, p.notes, relativeMove);
    }
  }

  /**
   * A written song reads back as the events of all instruments, instrument after
   * instrument, stably sorted by tick: sorted, none lost or added, and on every tick the
   * earlier instruments' characters first.
   */
  lemma SongTextDecodes(parts: seq<Part>, relativeMove: bool, tick: int)
    requires AllSorted(parts) && SongText(parts, relativeMove).Ok?
    ensures Decode(SongText(parts, relativeMove).value) == SortBy(SongEvents(parts, relativeMove), TickOf)
    ensures SortedBy(Decode(SongText(parts, relativeMove).value), TickOf)
    ensures multiset(Decode(SongText(parts, relativeMove).value)) == multiset(SongEvents(parts, relativeMove))
    ensures WithKey(Decode(SongText(parts, relativeMove).value), TickOf, tick) == WithKey(SongEvents(parts, relativeMove), TickOf, tick)
  {
    var ts := Texts(parts, relativeMove).value;
    TextsEvents(parts, relativeMove);
    MergeDecodes(ts);
    MergeKeepsEvents(ts, tick);
  }

  /** A song without instruments is the empty text. */
  lemma EmptySongText(relativeMove: bool)
    ensures SongText([], relativeMove) == Ok("")
  {
    MergeWithoutEvents([]);
  }

  /** A song of one instrument is that instrument's text. */
  lemma SingleSongText(p: Part, relativeMove: bool)
    requires SortedBy(p.notes, StartOf)
    ensures SongText([p], relativeMove) == PartText(p, relativeMove)
  {
    var t := PartText(p, relativeMove);
    assert [p][..0] == [];
    assert Texts([p][..0], relativeMove) == Ok([]);
    if t.Ok? {
      assert [] + [t.value] == [t.value];
      assert Texts([p], relativeMove) == Ok([t.value]);
      InstrumentTextCanonical(p.kind, p.notes, relativeMove);
    }
  }

  /**
   * Two instruments that play one after the other, the second starting no earlier than the
   * first one's last note, are written one after the other: the first text, then the second
   * track written on from the first one's last note.
   */
  lemma ConsecutiveParts(p: Part, q: Part, relativeMove: bool)
    requires SortedBy(p.notes, StartOf) && SortedBy(q.notes, StartOf)
    requires |p.notes| > 0 && |q.notes| > 0 && p.notes[|p.notes| - 1].start <= q.notes[0].start
    requires PartText(p, relativeMove).Ok? && PartText(q, relativeMove).Ok?
    ensures Render(StyleOf(q.kind), q.notes, p.notes[|p.notes| - 1].start, relativeMove).Ok?
    ensures SongText([p, q], relativeMove)
         == Ok(PartText(p, relativeMove).value + Render(StyleOf(q.kind), q.notes, p.notes[|p.notes| - 1].start, relativeMove).value)
  {
    var a, b := PartText(p, relativeMove).value, PartText(q, relativeMove).value;
    TwoTexts(p, q, relativeMove);
    MergeTwoStreams(a, b);
    ConsecutiveEventsMerge(p, q, relativeMove);
    ConsecutiveEncode(p, q, relativeMove);
  }

  /** Two parts that can both be written give their two texts. */
  lemma TwoTexts(p: Part, q: Part, relativeMove: bool)
    requires PartText(p, relativeMove).Ok? && PartText(q, relativeMove).Ok?
    ensures Texts([p, q], relativeMove) == Ok([PartText(p, relativeMove).value, PartText(q, relativeMove).value])
  {
    var a, b := PartText(p, relativeMove).value, PartText(q, relativeMove).value;
    assert [p, q][..1] == [p] && [p][..0] == [];
    assert [] + [a] == [a] && [a] + [b] == [a, b];
    assert Texts([p], relativeMove) == Ok([a]);
  }

  /** The events of two consecutive instruments, written in order. */
  lemma ConsecutiveEncode(p: Part, q: Part, relativeMove: bool)
    requires SortedBy(p.notes, StartOf) && SortedBy(q.notes, StartOf)
    requires |p.notes| > 0 && |q.notes| > 0 && p.notes[|p.notes| - 1].start <= q.notes[0].start
    requires PartText(p, relativeMove).Ok? && PartText(q, relativeMove).Ok?
    ensures Render(StyleOf(q.kind), q.notes, p.notes[|p.notes| - 1].start, relativeMove).Ok?
    ensures Encode(TextEvents(StyleOf(p.kind), p.notes, relativeMove) + TextEvents(StyleOf(q.kind), q.notes, relativeMove), 0)
         == PartText(p, relativeMove).value + Render(StyleOf(q.kind), q.notes, p.notes[|p.notes| - 1].start, relativeMove).value
  {
    var last := p.notes[|p.notes| - 1].start;
    var ea := TextEvents(StyleOf(p.kind), p.notes, relativeMove);
    var eb := TextEvents(StyleOf(q.kind), q.notes, relativeMove);
    EncodeAppend(ea, eb, 0);
    TextEventsEnds(StyleOf(p.kind), p.notes, 0, relativeMove);
    EncodeTextEvents(StyleOf(p.kind), p.notes, 0, relativeMove);
    RenderOk(StyleOf(q.kind), q.notes, 0, relativeMove);
    RenderOk(StyleOf(q.kind), q.notes, last, relativeMove);
    EncodeTextEvents(StyleOf(q.kind), q.notes, last, relativeMove);
  }

  /** The events of the earlier instrument all come before those of the later one. */
  lemma ConsecutiveEventsMerge(p: Part, q: Part, relativeMove: bool)
    requires SortedBy(p.notes, StartOf) && SortedBy(q.notes, StartOf)
    requires |p.notes| > 0 && |q.notes| > 0 && p.notes[|p.notes| - 1].start <= q.notes[0].start
    requires PartText(p, relativeMove).Ok? && PartText(q, relativeMove).Ok?
    ensures StableMerge(Decode(PartText(p, relativeMove).value), Decode(PartText(q, relativeMove).value), TickOf)
         == TextEvents(StyleOf(p.kind), p.notes, relativeMove) + TextEvents(StyleOf(q.kind), q.notes, relativeMove)
  {
    var last := p.notes[|p.notes| - 1].start;
    var ea := TextEvents(StyleOf(p.kind), p.notes, relativeMove);
    var eb := TextEvents(StyleOf(q.kind), q.notes, relativeMove);
    InstrumentTextDecodes(p.kind, p.notes, relativeMove);
    InstrumentTextDecodes(q.kind, q.notes, relativeMove);
    assert forall i :: 0 <= i < |p.notes| ==> 0 <= p.notes[i].start <= last by {
      forall i | 0 <= i < |p.notes| ensures p.notes[i].start <= last {
        if i < |p.notes| - 1 {
          assert StartOf(p.notes[i]) <= StartOf(p.notes[|p.notes| - 1]);
        }
      }
    }
    TextEventsWithin(StyleOf(p.kind), p.notes, relativeMove, 0, last);
    TextEventsEnds(StyleOf(q.kind), q.notes, 0, relativeMove);
    MergeLeftRun(ea, [], eb, TickOf);
    AppendEmpty(ea);
  }

  // ---------------------------------------------------------------------------
  // The fixed case of the test of `song.rs`
  // ---------------------------------------------------------------------------

  /** The instruments' parts, read from their tracks. */
  lemma PartsOfTwo(x: Instruments, y: Instruments)
    ensures PartsOf([x, y]) == [Part(x.kind, x.track.notes), Part(y.kind, y.track.notes)]
  {
  }

  /** The test of `song.rs`: the tracks are filled note by note and written with relative moves. */
  method SongScenario() returns (r: Result<string, NoteError>)
    ensures r == Ok("@G.@I.+W.+X")
  {
    var song := new Song();
    var track1 := new Track();
    track1.notes := track1.notes + [Note(60, 0)];
    track1.notes := track1.notes + [Note(62, 1)];
    var track2 := new Track();
    track2.notes := track2.notes + [Note(112, 2)];
    track2.notes := track2.notes + [Note(125, 3)];
    var flute, pling := Instruments(Flute, track1), Instruments(Pling, track2);
    song.AddTrack(flute);
    song.AddTrack(pling);
    ScenarioPieces();
    assert song.tracks == [flute, pling];
    r := song.ToText(true);
    ScenarioText(flute, pling);
  }

  /** The instruments of the test, read from their tracks, give the text the test expects. */
  lemma ScenarioText(flute: Instruments, pling: Instruments)
    requires flute.kind == Flute && flute.track.notes == [Note(60, 0), Note(62, 1)]
    requires pling.kind == Pling && pling.track.notes == [Note(112, 2), Note(125, 3)]
    ensures SongText(PartsOf([flute, pling]), true) == Ok("@G.@I.+W.+X")
  {
    PartsOfTwo(flute, pling);
    SongExample();
  }

  lemma ScenarioPieces()
    ensures [] + [Note(60, 0)] + [Note(62, 1)] == [Note(60, 0), Note(62, 1)]
    ensures [] + [Note(112, 2)] + [Note(125, 3)] == [Note(112, 2), Note(125, 3)]
    ensures SortedBy([Note(60, 0), Note(62, 1)], StartOf) && SortedBy([Note(112, 2), Note(125, 3)], StartOf)
  {
  }

  /**
   * The Flute and Pling tracks of the test: the Pling plays after the Flute, so its text
   * follows the Flute's, written on from tick 1.
   */
  lemma SongExample()
    ensures SongText([Part(Flute, [Note(60, 0), Note(62, 1)]), Part(Pling, [Note(112, 2), Note(125, 3)])], true)
         == Ok("@G.@I.+W.+X")
  {
    var flute, pling := Part(Flute, [Note(60, 0), Note(62, 1)]), Part(Pling, [Note(112, 2), Note(125, 3)]);
    ScenarioPieces();
    FluteExample();
    InstrumentTextOk(Pling, pling.notes, true);
    ConsecutiveParts(flute, pling, true);
    PlingFromTickOne();
    SongPieces();
  }

  /** The Pling track of the test, written on from the Flute's last note at tick 1. */
  lemma PlingFromTickOne()
    ensures Render(OctaveShift, [Note(112, 2), Note(125, 3)], 1, true) == Ok(".+W.+X")
  {
    PlingTokenExamples();
    RenderOneTickApart(OctaveShift, [Note(112, 2), Note(125, 3)], 1, 2, true, ["+W", "+X"]);
    assert Dotted(["+W", "+X"][1..]) == "+X";
    assert "." + Dotted(["+W", "+X"]) == ".+W.+X";
  }

  /** `[60@0, 62@1]` on the Flute, with relative moves. */
  lemma FluteExample()
    ensures InstrumentText(Flute, [Note(60, 0), Note(62, 1)], true) == Ok("@G.@I")
  {
    KeyToCharExamples();
    FlutePieces();
    RenderOneTickApart(Fixed(Some("@")), [Note(60, 0), Note(62, 1)], 0, 0, true, ["@G", "@I"]);
  }

  lemma FlutePieces()
    ensures "@" + ['G'] == "@G" && "@" + ['I'] == "@I"
    ensures "" + Dotted(["@G", "@I"]) == "@G.@I"
  {
    assert Dotted(["@G", "@I"][1..]) == "@I";
  }

  lemma SongPieces()
    ensures "@G.@I" + ".+W.+X" == "@G.@I.+W.+X"
  {
  }
}
