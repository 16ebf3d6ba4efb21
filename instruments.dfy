/**
 * Tracks and instruments of `instruments.rs`.
 *
 * A `Track` is a list of notes that `Merge` extends in place (append, then a stable sort
 * by start). `MidiToNotes` builds a track from a MIDI file. An `Instruments` value is a
 * track tagged with one of eleven kinds; two of them merge only when the kinds agree.
 * `ToText` writes a track sorted by start as a stream: per note, the gap since the
 * previous note (`Utils.Gap`), then the note's token. Pling tokens carry a `+` or `-`
 * octave prefix; every other kind writes its own fixed prefix before the pitch character.
 */
module InstrumentModel {
  import opened Wrappers
  import opened Sorting
  import opened Utils
  import opened NoteModel
  import opened MidiModel
  import opened Seqs

  class Track {
    var notes: seq<Note>

    /** `Track::new`: no notes. */
    constructor ()
      ensures notes == []
    {
      notes := [];
    }

    /** `Track::merge`: appends the other track's notes, then stable-sorts by start. */
    method Merge(other: Track)
      modifies this
      ensures notes == SortBy(old(notes) + old(other.notes), StartOf)
    {
      var appended := notes + other.notes;
      notes := SortBy(appended, StartOf);
    }

    /** `Track::midi_to_notes`: the notes of every sub-track, merged sub-track by sub-track. */
    static method MidiToNotes(midi: Smf) returns (result: Track)
      ensures fresh(result)
      ensures result.notes == MidiNotes(midi)
    {
      result := new Track();
      for k := 0 to |midi|
        invariant fresh(result)
        invariant result.notes == MidiNotes(midi[..k])
      {
        assert midi[..k + 1][..k] == midi[..k];
        var track := NoteMessages(midi[k]);
        if |track| > 0 {
          var t := PairTrack(track);
          if |t.notes| > 0 {
            result.Merge(t);
          }
        }
      }
      assert midi[..|midi|] == midi;
    }

    /**
     * The loop over one filtered sub-track: the time counter, the pool of unpaired
     * events and the notes found so far.
     */
    static method PairTrack(track: seq<TrackEvent>) returns (t: Track)
      ensures fresh(t)
      ensures t.notes == PairNotes(track, track, 0)
    {
      var pool := track;
      t := new Track();
      var currentTime: nat := 0;
      ghost var whole := PairNotes(track, track, 0);
      assert track[0..] == track;
      AppendEmpty(whole);
      for i := 0 to |track|
        invariant fresh(t)
        invariant t.notes + PairNotes(track[i..], pool, currentTime) == whole
      {
        var now := currentTime + track[i].delta;
        match track[i].kind {
          case NoteOn(key) =>
            var index := Position(pool, key);
            if index.Some? {
              PairHit(track, i, pool, currentTime, now, key, index.value, t.notes, whole);
              t.notes := t.notes + [Note(key, now / 12)];
              pool := RemoveAt(pool, index.value);
            } else {
              PairSkip(track, i, pool, currentTime, now, t.notes, whole);
            }
          case _ =>
            PairSkip(track, i, pool, currentTime, now, t.notes, whole);
        }
        currentTime := now;
      }
      AppendEmpty(t.notes);
    }

    /** The search of the pool: the position of the first `NoteOff` of `key`. */
    static method Position(pool: seq<TrackEvent>, key: Key) returns (index: Option<nat>)
      ensures index == FirstNoteOff(pool, key)
    {
      var i := 0;
      while i < |pool|
        invariant i <= |pool|
        invariant forall j :: 0 <= j < i ==> pool[j].kind != NoteOff(key)
      {
        if pool[i].kind == NoteOff(key) {
          return Some(i);
        }
        i := i + 1;
      }
      return None;
    }
  }

  /**
   * What `Track::merge` (and the same-kind `Instruments::merge`) produces: all notes of
   * both tracks, sorted by start, with notes of equal start in the order "this track's,
   * in their order, then the other's, in their order", and only that order.
   */
  lemma MergedNotes(mine: seq<Note>, theirs: seq<Note>, r: seq<Note>)
    ensures |SortBy(mine + theirs, StartOf)| == |mine| + |theirs|
    ensures multiset(SortBy(mine + theirs, StartOf)) == multiset(mine) + multiset(theirs)
    ensures SortedBy(SortBy(mine + theirs, StartOf), StartOf)
    ensures forall k :: WithKey(SortBy(mine + theirs, StartOf), StartOf, k)
                        == WithKey(mine, StartOf, k) + WithKey(theirs, StartOf, k)
    ensures SortedBy(r, StartOf)
            && (forall k :: WithKey(r, StartOf, k) == WithKey(mine, StartOf, k) + WithKey(theirs, StartOf, k))
            ==> r == SortBy(mine + theirs, StartOf)
  {
    SortByIsStableSort(mine + theirs, StartOf, r);
    forall k ensures WithKey(mine + theirs, StartOf, k) == WithKey(mine, StartOf, k) + WithKey(theirs, StartOf, k) {
      WithKeyAppend(mine, theirs, StartOf, k);
    }
  }

  /** Merging a track whose notes all start no earlier than this track's last note appends. */
  lemma MergeInOrder(mine: seq<Note>, theirs: seq<Note>)
    requires SortedBy(mine, StartOf) && SortedBy(theirs, StartOf)
    requires forall i, j :: 0 <= i < |mine| && 0 <= j < |theirs| ==> mine[i].start <= theirs[j].start
    ensures SortBy(mine + theirs, StartOf) == mine + theirs
  {
    assert SortedBy(mine + theirs, StartOf) by {
      forall i, j | 0 <= i < j < |mine + theirs|
        ensures StartOf((mine + theirs)[i]) <= StartOf((mine + theirs)[j])
      {
        if j < |mine| {
        } else if i >= |mine| {
          assert (mine + theirs)[i] == theirs[i - |mine|];
        } else {
          assert (mine + theirs)[j] == theirs[j - |mine|];
        }
      }
    }
    SortByOfSorted(mine + theirs, StartOf);
  }

  // ---------------------------------------------------------------------------
  // Instrument kinds
  // ---------------------------------------------------------------------------

  datatype InstrumentKind =
    | Pling | Hat | Snare | BassDrum | Bass | Bell | Chime | Flute | Guitar | Harp | Xylophone

  datatype InstrumentError = MergeDifferentInstrumentTypes

  /** The prefix `to_text` gives `track_to_string` for every kind but `Pling`. */
  function FixedPrefix(kind: InstrumentKind): (p: string)
    requires kind != Pling
    ensures |p| == 1 && !IsTimeChar(p[0]) && !IsPitchChar(p[0]) && p[0] != '+' && p[0] != '-'
  {
    match kind
    case Hat => "!"
    case Snare => "?"
    case BassDrum => "="
    case Bass => "\\"
    case Bell => "/"
    case Chime => "_"
    case Flute => "@"
    case Guitar => ":"
    case Harp => ";"
    case Xylophone => ","
  }

  /** Distinct kinds write distinct prefixes, so the prefix tells the kind. */
  lemma FixedPrefixInjective(a: InstrumentKind, b: InstrumentKind)
    requires a != Pling && b != Pling
    ensures FixedPrefix(a) == FixedPrefix(b) <==> a == b
  {
  }

  // ---------------------------------------------------------------------------
  // Tokens and streams
  // ---------------------------------------------------------------------------

  /** How a kind writes a note: Pling's octave shifts, or a fixed optional prefix. */
  datatype Style = OctaveShift | Fixed(prefix: Option<string>)

  function StyleOf(kind: InstrumentKind): Style {
    if kind == Pling then OctaveShift else Fixed(Some(FixedPrefix(kind)))
  }

  /** `p` followed by the character `c`, or the error of `c`. */
  function Prefixed(p: string, c: Result<char, NoteError>): (r: Result<string, NoteError>)
    ensures r.Ok? <==> c.Ok?
    ensures r.Err? ==> r.error == c.error
  {
    if c.Err? then Err(c.error) else Ok(p + [c.value])
  }

  /**
   * A Pling note: a key from 78 up is written `+` and the character of `key - 24`, a
   * key up to 54 is written `-` and the character of `key + 24`, other keys plainly.
   * Without relative moves the shifted forms are only used for 78..102 and 30..54.
   */
  function PlingToken(key: Key, relativeMove: bool): (r: Result<string, NoteError>)
    ensures r.Ok? <==> relativeMove || 30 <= key <= 102
    ensures r.Err? ==> r.error == InvalidKey(key)
  {
    if relativeMove then
      if key >= 78 then Prefixed("+", KeyToChar(key - 24, relativeMove))
      else if key <= 54 then Prefixed("-", KeyToChar(key + 24, relativeMove))
      else Prefixed("", ToChar(Note(key, 0), relativeMove))
    else
      if key >= 78 && key <= 102 then Prefixed("+", KeyToChar(key - 24, relativeMove))
      else if key <= 54 && key >= 30 then Prefixed("-", KeyToChar(key + 24, relativeMove))
      else Prefixed("", ToChar(Note(key, 0), relativeMove))
  }

  /** A note of a fixed-prefix kind: the prefix, if any, then the pitch character. */
  function FixedToken(prefix: Option<string>, key: Key, relativeMove: bool): (r: Result<string, NoteError>)
    ensures r.Ok? <==> relativeMove || InBand(key)
    ensures r.Err? ==> r.error == InvalidKey(key)
  {
    Prefixed(if prefix.Some? then prefix.value else "", ToChar(Note(key, 0), relativeMove))
  }

  /**
   * A Pling token is one pitch character, after `+` exactly for keys from 78 up and
   * after `-` exactly for keys up to 54; the character keeps the key's pitch class, and
   * a key strictly inside the band is written as its own character.
   */
  lemma PlingTokenShape(key: Key, relativeMove: bool)
    requires PlingToken(key, relativeMove).Ok?
    ensures var t := PlingToken(key, relativeMove).value;
      && 1 <= |t| <= 2 && IsPitchChar(t[|t| - 1])
      && (|t| == 2 ==> t[0] == '+' || t[0] == '-')
      && (PitchOf(t[|t| - 1]) - key) % 12 == 0
      && (t[0] == '+' <==> key >= BandHigh)
      && (t[0] == '-' <==> key <= BandLow)
      && (BandLow < key < BandHigh ==> t == [(key + 11) as char])
  {
    if key >= 78 {
      KeyToCharPitch(key - 24, relativeMove);
    } else if key <= 54 {
      KeyToCharPitch(key + 24, relativeMove);
    } else {
      KeyToCharPitch(key, relativeMove);
    }
  }

  /** A fixed-prefix token is the prefix, if any, then one pitch character. */
  lemma FixedTokenShape(prefix: Option<string>, key: Key, relativeMove: bool)
    requires FixedToken(prefix, key, relativeMove).Ok?
    ensures var t := FixedToken(prefix, key, relativeMove).value;
      && |t| >= 1 && IsPitchChar(t[|t| - 1])
      && (PitchOf(t[|t| - 1]) - key) % 12 == 0
      && t[..|t| - 1] == (if prefix.Some? then prefix.value else "")
  {
    var p := if prefix.Some? then prefix.value else "";
    KeyToCharPitch(key, relativeMove);
    assert (p + [ToChar(Note(key, 0), relativeMove).value])[..|p|] == p;
  }

  function Token(style: Style, key: Key, relativeMove: bool): Result<string, NoteError> {
    match style
    case OctaveShift => PlingToken(key, relativeMove)
    case Fixed(p) => FixedToken(p, key, relativeMove)
  }

  /** The notes start at `prev` or later and in order of start. */
  predicate StartsFrom(notes: seq<Note>, prev: nat) {
    SortedBy(notes, StartOf) && forall i :: 0 <= i < |notes| ==> prev <= notes[i].start
  }

  lemma StartsFromTail(notes: seq<Note>, prev: nat)
    requires |notes| > 0 && StartsFrom(notes, prev)
    ensures StartsFrom(notes[1..], notes[0].start)
  {
    assert forall i :: 0 <= i < |notes[1..]| ==> notes[1..][i] == notes[i + 1];
  }

  /** `r` with `s` written in front of it, when it is a text. */
  function Prepend(s: string, r: Result<string, NoteError>): Result<string, NoteError> {
    if r.Ok? then Ok(s + r.value) else r
  }

  /** `a` followed by `b`; the error of `a`, else of `b`, wins. */
  function Then(a: Result<string, NoteError>, b: Result<string, NoteError>): Result<string, NoteError> {
    if a.Err? then a else Prepend(a.value, b)
  }

  /**
   * The ticks from `prev` to `start`. On a sorted track (`StartsFrom`) this is the
   * plain difference the writing loops compute; the clamp only keeps the function total.
   */
  function Elapsed(start: nat, prev: nat): nat {
    if start >= prev then start - prev else 0
  }

  /** The text of note `n` when the previous note started at `prev`: the gap, then the token. */
  function NoteText(style: Style, n: Note, prev: nat, relativeMove: bool): Result<string, NoteError> {
    var token := Token(style, n.key, relativeMove);
    if token.Err? then Err(token.error) else Ok(Gap(Elapsed(n.start, prev)) + token.value)
  }

  /**
   * The text of `notes` when the previous note started at `prev`: the gap to each note,
   * then its token. The first token that fails makes the whole text fail with its error.
   */
  function Render(style: Style, notes: seq<Note>, prev: nat, relativeMove: bool): Result<string, NoteError>
    decreases |notes|
  {
    if |notes| == 0 then Ok("")
    else Then(NoteText(style, notes[0], prev, relativeMove), Render(style, notes[1..], notes[0].start, relativeMove))
  }

  /** `Render` of the notes from index `i` on, read by index as the writing loops do. */
  function RenderFrom(style: Style, notes: seq<Note>, i: nat, prev: nat, relativeMove: bool): Result<string, NoteError>
    requires i <= |notes|
    decreases |notes| - i
  {
    if i == |notes| then Ok("")
    else Then(NoteText(style, notes[i], prev, relativeMove), RenderFrom(style, notes, i + 1, notes[i].start, relativeMove))
  }

  /** Reading by index and reading the suffix give the same text. */
  lemma {:induction false} RenderFromSuffix(style: Style, notes: seq<Note>, i: nat, prev: nat, relativeMove: bool)
    requires i <= |notes|
    ensures RenderFrom(style, notes, i, prev, relativeMove) == Render(style, notes[i..], prev, relativeMove)
    decreases |notes| - i
  {
    if i < |notes| {
      RenderFromSuffix(style, notes, i + 1, notes[i].start, relativeMove);
      var s := notes[i..];
      assert s[0] == notes[i] && s[1..] == notes[i + 1..];
    } else {
      assert notes[i..] == [];
    }
  }

  lemma PrependTwice(a: string, b: string, r: Result<string, NoteError>)
    ensures Prepend(a, Prepend(b, r)) == Prepend(a + b, r)
  {
    if r.Ok? {
      AppendAssoc(a, b, r.value);
    }
  }

  lemma PrependEmpty(s: string, r: Result<string, NoteError>)
    ensures Prepend("", r) == r
    ensures Prepend(s, Ok("")) == Ok(s)
  {
    AppendEmpty(s);
    if r.Ok? {
      AppendEmpty(r.value);
    }
  }

  /** Writing the first note with a known token before a known rest. */
  lemma RenderStep(style: Style, notes: seq<Note>, prev: nat, relativeMove: bool, token: string, rest: string)
    requires |notes| > 0 && Token(style, notes[0].key, relativeMove) == Ok(token)
    requires Render(style, notes[1..], notes[0].start, relativeMove) == Ok(rest)
    ensures Render(style, notes, prev, relativeMove) == Ok(Gap(Elapsed(notes[0].start, prev)) + token + rest)
  {
  }

  /**
   * One step of the writing loops: with `result` written for the notes before `i`,
   * writing note `i` appends its gap and token, or ends the text with its error.
   */
  lemma WriteNoteStep(style: Style, notes: seq<Note>, i: nat, prev: nat, relativeMove: bool,
                      result: string, whole: Result<string, NoteError>, d: nat, token: Result<string, NoteError>)
    requires i < |notes| && d == Elapsed(notes[i].start, prev) && token == Token(style, notes[i].key, relativeMove)
    requires whole == Prepend(result, RenderFrom(style, notes, i, prev, relativeMove))
    ensures token.Err? ==> whole == Err(token.error)
    ensures token.Ok? ==>
              whole == Prepend(result + (Gap(d) + token.value), RenderFrom(style, notes, i + 1, notes[i].start, relativeMove))
  {
    if token.Ok? {
      PrependTwice(result, Gap(d) + token.value, RenderFrom(style, notes, i + 1, notes[i].start, relativeMove));
    }
  }

  /** `WriteNoteStep` for a fixed-prefix kind, with the pieces `track_to_string` writes. */
  lemma FixedAdvance(prefix: Option<string>, notes: seq<Note>, i: nat, prev: nat, relativeMove: bool,
                     result: string, whole: Result<string, NoteError>, d: nat, gap: string, ch: Result<char, NoteError>)
    requires i < |notes| && d == Elapsed(notes[i].start, prev) && gap == Gap(d) && ch == ToChar(notes[i], relativeMove)
    requires whole == Prepend(result, RenderFrom(Fixed(prefix), notes, i, prev, relativeMove))
    ensures ch.Err? ==> whole == Err(ch.error)
    ensures ch.Ok? && prefix.Some? ==>
              whole == Prepend(result + gap + prefix.value + [ch.value], RenderFrom(Fixed(prefix), notes, i + 1, notes[i].start, relativeMove))
    ensures ch.Ok? && prefix.None? ==>
              whole == Prepend(result + gap + [ch.value], RenderFrom(Fixed(prefix), notes, i + 1, notes[i].start, relativeMove))
  {
    var p := if prefix.Some? then prefix.value else "";
    var token := Token(Fixed(prefix), notes[i].key, relativeMove);
    assert token == Prefixed(p, ch);
    WriteNoteStep(Fixed(prefix), notes, i, prev, relativeMove, result, whole, d, token);
    if ch.Ok? {
      AppendAssoc(result, gap, p + [ch.value]);
      AppendAssoc(result + gap, p, [ch.value]);
      if prefix.None? {
        AppendEmpty(result + gap);
      }
    }
  }

  /** `WriteNoteStep` for Pling, with the shift and character `to_text` chose. */
  lemma PlingAdvance(notes: seq<Note>, i: nat, prev: nat, relativeMove: bool, result: string,
                     whole: Result<string, NoteError>, d: nat, gap: string, shift: string, ch: Result<char, NoteError>)
    requires i < |notes| && d == Elapsed(notes[i].start, prev) && gap == Gap(d)
    requires PlingToken(notes[i].key, relativeMove) == Prefixed(shift, ch)
    requires whole == Prepend(result, RenderFrom(OctaveShift, notes, i, prev, relativeMove))
    ensures ch.Err? ==> whole == Err(ch.error)
    ensures ch.Ok? ==>
              whole == Prepend(result + gap + shift + [ch.value], RenderFrom(OctaveShift, notes, i + 1, notes[i].start, relativeMove))
  {
    var token := Token(OctaveShift, notes[i].key, relativeMove);
    WriteNoteStep(OctaveShift, notes, i, prev, relativeMove, result, whole, d, token);
    if ch.Ok? {
      AppendAssoc(result, gap, shift + [ch.value]);
      AppendAssoc(result + gap, shift, [ch.value]);
    }
  }

  /** A text can be written exactly when the token of every note can. */
  lemma {:induction false} RenderOk(style: Style, notes: seq<Note>, prev: nat, relativeMove: bool)
    ensures Render(style, notes, prev, relativeMove).Ok?
            <==> forall i :: 0 <= i < |notes| ==> Token(style, notes[i].key, relativeMove).Ok?
    decreases |notes|
  {
    if |notes| > 0 {
      RenderOk(style, notes[1..], notes[0].start, relativeMove);
      assert forall i :: 0 <= i < |notes[1..]| ==> notes[1..][i] == notes[i + 1];
    }
  }

  /** A text fails with the error of its first note whose token fails. */
  lemma {:induction false} RenderError(style: Style, notes: seq<Note>, prev: nat, relativeMove: bool)
    requires Render(style, notes, prev, relativeMove).Err?
    ensures exists i :: 0 <= i < |notes| && Token(style, notes[i].key, relativeMove) == Err(Render(style, notes, prev, relativeMove).error)
                        && forall j :: 0 <= j < i ==> Token(style, notes[j].key, relativeMove).Ok?
    decreases |notes|
  {
    var e := Render(style, notes, prev, relativeMove).error;
    if Token(style, notes[0].key, relativeMove).Ok? {
      RenderError(style, notes[1..], notes[0].start, relativeMove);
      var i :| 0 <= i < |notes[1..]| && Token(style, notes[1..][i].key, relativeMove) == Err(e)
               && forall j :: 0 <= j < i ==> Token(style, notes[1..][j].key, relativeMove).Ok?;
      assert notes[1..][i] == notes[i + 1];
      forall j | 0 <= j < i + 1 ensures Token(style, notes[j].key, relativeMove).Ok? {
        if j > 0 {
          assert notes[1..][j - 1] == notes[j];
        }
      }
    }
  }

  /** The text an instrument of `kind` writes for the sorted `notes`. */
  function InstrumentText(kind: InstrumentKind, notes: seq<Note>, relativeMove: bool): Result<string, NoteError>
  {
    Render(StyleOf(kind), notes, 0, relativeMove)
  }

  /** Which tracks can be written: Pling fails only without relative moves outside 30..102. */
  lemma InstrumentTextOk(kind: InstrumentKind, notes: seq<Note>, relativeMove: bool)
    ensures kind == Pling ==>
              (InstrumentText(kind, notes, relativeMove).Ok?
               <==> relativeMove || forall i :: 0 <= i < |notes| ==> 30 <= notes[i].key <= 102)
    ensures kind != Pling ==>
              (InstrumentText(kind, notes, relativeMove).Ok?
               <==> relativeMove || forall i :: 0 <= i < |notes| ==> InBand(notes[i].key))
    ensures InstrumentText(kind, notes, relativeMove).Err? ==>
              exists i :: 0 <= i < |notes| && InstrumentText(kind, notes, relativeMove).error == InvalidKey(notes[i].key)
  {
    var r := InstrumentText(kind, notes, relativeMove);
    RenderOk(StyleOf(kind), notes, 0, relativeMove);
    if r.Err? {
      RenderError(StyleOf(kind), notes, 0, relativeMove);
      var i :| 0 <= i < |notes| && Token(StyleOf(kind), notes[i].key, relativeMove) == Err(r.error);
      assert r.error == InvalidKey(notes[i].key);
    }
  }

  /** The events a token stands for: each of its characters at the note's start. */
  function TokenEvents(token: string, tick: nat): (es: seq<Event>)
    ensures |es| == |token|
    ensures forall i :: 0 <= i < |es| ==> es[i] == Event(tick, token[i])
  {
    seq(|token|, i requires 0 <= i < |token| => Event(tick, token[i]))
  }

  /** The events of all tokens of `notes`, in note order. */
  function TextEvents(style: Style, notes: seq<Note>, relativeMove: bool): seq<Event> {
    if |notes| == 0 then []
    else
      var token := Token(style, notes[0].key, relativeMove);
      (if token.Ok? then TokenEvents(token.value, notes[0].start) else [])
      + TextEvents(style, notes[1..], relativeMove)
  }

  /** No prefix character reads as time. */
  predicate ValidStyle(style: Style) {
    style.Fixed? && style.prefix.Some? ==> forall i :: 0 <= i < |style.prefix.value| ==> !IsTimeChar(style.prefix.value[i])
  }

  lemma TokenHasNoTime(style: Style, key: Key, relativeMove: bool)
    requires ValidStyle(style) && Token(style, key, relativeMove).Ok?
    ensures forall i :: 0 <= i < |Token(style, key, relativeMove).value| ==> !IsTimeChar(Token(style, key, relativeMove).value[i])
  {
    var t := Token(style, key, relativeMove).value;
    match style {
      case OctaveShift => PlingTokenShape(key, relativeMove);
      case Fixed(p) => FixedTokenShape(p, key, relativeMove);
    }
    forall i | 0 <= i < |t| ensures !IsTimeChar(t[i]) {
      if i < |t| - 1 && style.Fixed? {
        assert t[i] == t[..|t| - 1][i];
      }
    }
  }

  /** A non-empty text is the gap to the first note, its token, then the rest. */
  lemma RenderCons(style: Style, notes: seq<Note>, prev: nat, relativeMove: bool)
    requires |notes| > 0 && Render(style, notes, prev, relativeMove).Ok?
    ensures Token(style, notes[0].key, relativeMove).Ok?
    ensures Render(style, notes[1..], notes[0].start, relativeMove).Ok?
    ensures Render(style, notes, prev, relativeMove).value
            == Gap(Elapsed(notes[0].start, prev)) + Token(style, notes[0].key, relativeMove).value
               + Render(style, notes[1..], notes[0].start, relativeMove).value
  {
  }

  /** Reading a gap of `d`, a token and the rest, relative to `prev`. */
  lemma ShiftDecodeStep(d: nat, prev: nat, token: string, rest: string)
    requires forall i :: 0 <= i < |token| ==> !IsTimeChar(token[i])
    ensures Shift(Decode(Gap(d) + token + rest), prev)
            == TokenEvents(token, d + prev) + Shift(Decode(rest), d + prev)
  {
    DecodePayloadOnly(token);
    DecodeGapThenPayload(d, token, rest);
    var head := Decode(token);
    ShiftAppend(Shift(head, d), Shift(Decode(rest), d), prev);
    ShiftShift(head, d, prev);
    ShiftShift(Decode(rest), d, prev);
    assert Shift(head, d + prev) == TokenEvents(token, d + prev);
  }

  /**
   * Reading a written track back: the stream decodes, relative to `prev`, to every
   * token's characters at its note's start, in note order.
   */
  lemma {:induction false} RenderDecodes(style: Style, notes: seq<Note>, prev: nat, relativeMove: bool)
    requires ValidStyle(style) && StartsFrom(notes, prev)
    requires Render(style, notes, prev, relativeMove).Ok?
    ensures Shift(Decode(Render(style, notes, prev, relativeMove).value), prev) == TextEvents(style, notes, relativeMove)
    decreases |notes|
  {
    if |notes| == 0 {
      assert Render(style, notes, prev, relativeMove).value == "";
    } else {
      RenderCons(style, notes, prev, relativeMove);
      StartsFromTail(notes, prev);
      var n := notes[0];
      RenderDecodes(style, notes[1..], n.start, relativeMove);
      TokenHasNoTime(style, n.key, relativeMove);
      DecodeStep(Render(style, notes, prev, relativeMove).value, Elapsed(n.start, prev), prev, n.start,
                 Token(style, n.key, relativeMove).value, Render(style, notes[1..], n.start, relativeMove).value,
                 TextEvents(style, notes[1..], relativeMove));
      TextEventsCons(style, notes, relativeMove);
    }
  }

  /** `ShiftDecodeStep` with the rest already read back. */
  lemma DecodeStep(text: string, d: nat, prev: nat, t: nat, token: string, rest: string, tail: seq<Event>)
    requires text == Gap(d) + token + rest && t == d + prev
    requires forall i :: 0 <= i < |token| ==> !IsTimeChar(token[i])
    requires Shift(Decode(rest), t) == tail
    ensures Shift(Decode(text), prev) == TokenEvents(token, t) + tail
  {
    ShiftDecodeStep(d, prev, token, rest);
  }

  lemma TextEventsCons(style: Style, notes: seq<Note>, relativeMove: bool)
    requires |notes| > 0 && Token(style, notes[0].key, relativeMove).Ok?
    ensures TextEvents(style, notes, relativeMove)
            == TokenEvents(Token(style, notes[0].key, relativeMove).value, notes[0].start) + TextEvents(style, notes[1..], relativeMove)
  {
  }

  /** The written text of an instrument, read back from tick 0. */
  lemma InstrumentTextDecodes(kind: InstrumentKind, notes: seq<Note>, relativeMove: bool)
    requires SortedBy(notes, StartOf)
    requires InstrumentText(kind, notes, relativeMove).Ok?
    ensures Decode(InstrumentText(kind, notes, relativeMove).value) == TextEvents(StyleOf(kind), notes, relativeMove)
  {
    RenderDecodes(StyleOf(kind), notes, 0, relativeMove);
    var es := Decode(InstrumentText(kind, notes, relativeMove).value);
    assert Shift(es, 0) == es;
  }


  /** Characters on one tick, written from that tick: the characters alone. */
  lemma {:induction false} EncodeSameTick(token: string, tick: nat)
    ensures Encode(TokenEvents(token, tick), tick) == token
    decreases |token|
  {
    if |token| > 0 {
      var es := TokenEvents(token, tick);
      assert es[1..] == TokenEvents(token[1..], tick);
      EncodeSameTick(token[1..], tick);
      EncodeHead(es, tick, Event(tick, token[0]), es[1..]);
      assert EventText(Event(tick, token[0]), tick) == [token[0]];
      HeadTail(token);
    }
  }

  /** A token on tick `tick`, written from `last`: the gap, then the token. */
  lemma EncodeToken(token: string, tick: nat, last: nat)
    requires |token| > 0 && last <= tick
    ensures Encode(TokenEvents(token, tick), last) == Gap(tick - last) + token
    ensures EndTick(TokenEvents(token, tick), last) == tick
  {
    var es := TokenEvents(token, tick);
    assert es[1..] == TokenEvents(token[1..], tick);
    EncodeHead(es, last, Event(tick, token[0]), es[1..]);
    EncodeSameTick(token[1..], tick);
    assert GapBefore(Event(tick, token[0]), last) == Gap(tick - last);
    AppendAssoc(Gap(tick - last), [token[0]], token[1..]);
    HeadTail(token);
  }

  /** A token that can be written is not empty. */
  lemma TokenNotEmpty(style: Style, key: Key, relativeMove: bool)
    requires Token(style, key, relativeMove).Ok?
    ensures |Token(style, key, relativeMove).value| > 0
  {
    match style {
      case OctaveShift => PlingTokenShape(key, relativeMove);
      case Fixed(p) => FixedTokenShape(p, key, relativeMove);
    }
  }

  /**
   * A written track is in the canonical form `serialize_events` writes: writing its
   * events back from `prev` gives the same text.
   */
  lemma {:induction false} EncodeTextEvents(style: Style, notes: seq<Note>, prev: nat, relativeMove: bool)
    requires StartsFrom(notes, prev)
    requires Render(style, notes, prev, relativeMove).Ok?
    ensures Encode(TextEvents(style, notes, relativeMove), prev) == Render(style, notes, prev, relativeMove).value
    decreases |notes|
  {
    if |notes| > 0 {
      var n := notes[0];
      RenderCons(style, notes, prev, relativeMove);
      StartsFromTail(notes, prev);
      EncodeTextEvents(style, notes[1..], n.start, relativeMove);
      var token := Token(style, n.key, relativeMove).value;
      TokenNotEmpty(style, n.key, relativeMove);
      TextEventsCons(style, notes, relativeMove);
      EncodeAppend(TokenEvents(token, n.start), TextEvents(style, notes[1..], relativeMove), prev);
      EncodeToken(token, n.start, prev);
    }
  }

  /** The events of a track lie within the range of its notes' starts. */
  lemma {:induction false} TextEventsWithin(style: Style, notes: seq<Note>, relativeMove: bool, lo: nat, hi: nat)
    requires forall i :: 0 <= i < |notes| ==> lo <= notes[i].start <= hi
    ensures forall i :: 0 <= i < |TextEvents(style, notes, relativeMove)| ==> lo <= TextEvents(style, notes, relativeMove)[i].tick <= hi
    decreases |notes|
  {
    if |notes| > 0 {
      assert forall i :: 0 <= i < |notes[1..]| ==> notes[1..][i] == notes[i + 1];
      TextEventsWithin(style, notes[1..], relativeMove, lo, hi);
    }
  }

  /** The events of a written track begin on its first note and end on its last. */
  lemma {:induction false} TextEventsEnds(style: Style, notes: seq<Note>, prev: nat, relativeMove: bool)
    requires |notes| > 0 && Render(style, notes, prev, relativeMove).Ok?
    ensures |TextEvents(style, notes, relativeMove)| > 0
    ensures TextEvents(style, notes, relativeMove)[0].tick == notes[0].start
    ensures EndTick(TextEvents(style, notes, relativeMove), prev) == notes[|notes| - 1].start
    decreases |notes|
  {
    RenderCons(style, notes, prev, relativeMove);
    var token := Token(style, notes[0].key, relativeMove).value;
    TokenNotEmpty(style, notes[0].key, relativeMove);
    TextEventsCons(style, notes, relativeMove);
    var head := TokenEvents(token, notes[0].start);
    var tail := TextEvents(style, notes[1..], relativeMove);
    if |notes| == 1 {
      assert tail == [];
      AppendEmpty(head);
    } else {
      TextEventsEnds(style, notes[1..], notes[0].start, relativeMove);
      assert (head + tail)[|head + tail| - 1] == tail[|tail| - 1];
    }
  }

  /** Merging the text of one instrument on its own gives that text back. */
  lemma InstrumentTextCanonical(kind: InstrumentKind, notes: seq<Note>, relativeMove: bool)
    requires SortedBy(notes, StartOf)
    requires InstrumentText(kind, notes, relativeMove).Ok?
    ensures MergeText([InstrumentText(kind, notes, relativeMove).value]) == InstrumentText(kind, notes, relativeMove).value
  {
    MergeSingle(InstrumentText(kind, notes, relativeMove).value);
    InstrumentTextDecodes(kind, notes, relativeMove);
    EncodeTextEvents(StyleOf(kind), notes, 0, relativeMove);
  }
  // ---------------------------------------------------------------------------
  // Tagged tracks
  // ---------------------------------------------------------------------------

  /** `Instruments`: a track tagged with its kind (`Instruments::new` is the constructor). */
  datatype Instruments = Instruments(kind: InstrumentKind, track: Track) {

    /**
     * `Instruments::merge`: with the same kind, merges the other's notes into this
     * track and succeeds; with different kinds, fails and changes nothing.
     */
    method Merge(other: Instruments) returns (r: Result<(), InstrumentError>)
      modifies track
      ensures kind == other.kind ==> r == Ok(()) && track.notes == SortBy(old(track.notes) + old(other.track.notes), StartOf)
      ensures kind != other.kind ==> r == Err(MergeDifferentInstrumentTypes) && track.notes == old(track.notes)
    {
      if kind == other.kind {
        track.Merge(other.track);
        return Ok(());
      }
      return Err(MergeDifferentInstrumentTypes);
    }

    /** `Instruments::track_to_string`: the gap to each note, the prefix, the pitch character. */
    static method TrackToString(track: Track, prefix: Option<string>, relativeMove: bool)
      returns (r: Result<string, NoteError>)
      requires SortedBy(track.notes, StartOf)
      ensures r == Render(Fixed(prefix), track.notes, 0, relativeMove)
    {
      var notes := track.notes;
      var result := "";
      var currentTime: nat := 0;
      ghost var whole := RenderFrom(Fixed(prefix), notes, 0, 0, relativeMove);
      RenderFromSuffix(Fixed(prefix), notes, 0, 0, relativeMove);
      assert notes[0..] == notes;
      PrependEmpty(result, whole);
      for i := 0 to |notes|
        invariant currentTime == if i == 0 then 0 else notes[i - 1].start
        invariant whole == Prepend(result, RenderFrom(Fixed(prefix), notes, i, currentTime, relativeMove))
      {
        var note := notes[i];
        assert i > 0 ==> StartOf(notes[i - 1]) <= StartOf(note);
        var ticks := note.start - currentTime;
        var gap := TickToString(ticks);
        var ch := ToChar(note, relativeMove);
        FixedAdvance(prefix, notes, i, currentTime, relativeMove, result, whole, ticks, gap, ch);
        currentTime := note.start;
        result := result + gap;
        if ch.Err? {
          return Err(ch.error);
        }
        if prefix.Some? {
          result := result + prefix.value + [ch.value];
        } else {
          result := result + [ch.value];
        }
      }
      PrependEmpty(result, whole);
      return Ok(result);
    }

    /**
     * The branch of `to_text` that picks a Pling note's octave shift and character:
     * its token is the shift followed by the character.
     */
    static method PlingParts(note: Note, relativeMove: bool) returns (shift: string, ch: Result<char, NoteError>)
      ensures PlingToken(note.key, relativeMove) == Prefixed(shift, ch)
      ensures shift == "" || shift == "+" || shift == "-"
    {
      var key := note.key;
      if relativeMove {
        if key >= 78 {
          shift, ch := "+", KeyToChar(key - 24, relativeMove);
        } else if key <= 54 {
          shift, ch := "-", KeyToChar(key + 24, relativeMove);
        } else {
          shift, ch := "", ToChar(note, relativeMove);
        }
      } else {
        if key >= 78 && key <= 102 {
          shift, ch := "+", KeyToChar(key - 24, relativeMove);
        } else if key <= 54 && key >= 30 {
          shift, ch := "-", KeyToChar(key + 24, relativeMove);
        } else {
          shift, ch := "", ToChar(note, relativeMove);
        }
      }
    }

    /** `Instruments::to_text`: the stream of this instrument's sorted track. */
    method ToText(relativeMove: bool) returns (r: Result<string, NoteError>)
      requires SortedBy(track.notes, StartOf)
      ensures r == InstrumentText(kind, track.notes, relativeMove)
    {
      if kind != Pling {
        r := TrackToString(track, Some(FixedPrefix(kind)), relativeMove);
        return;
      }
      var notes := track.notes;
      var result := "";
      var currentTime: nat := 0;
      ghost var whole := RenderFrom(OctaveShift, notes, 0, 0, relativeMove);
      RenderFromSuffix(OctaveShift, notes, 0, 0, relativeMove);
      assert notes[0..] == notes;
      PrependEmpty(result, whole);
      for i := 0 to |notes|
        invariant currentTime == if i == 0 then 0 else notes[i - 1].start
        invariant whole == Prepend(result, RenderFrom(OctaveShift, notes, i, currentTime, relativeMove))
      {
        var note := notes[i];
        assert i > 0 ==> StartOf(notes[i - 1]) <= StartOf(note);
        var ticks := note.start - currentTime;
        var gap := TickToString(ticks);
        var shift, ch := PlingParts(note, relativeMove);
        PlingAdvance(notes, i, currentTime, relativeMove, result, whole, ticks, gap, shift, ch);
        currentTime := note.start;
        result := result + gap;
        if ch.Err? {
          return Err(ch.error);
        }
        result := result + shift + [ch.value];
      }
      PrependEmpty(result, whole);
      return Ok(result);
    }
  }

  // ---------------------------------------------------------------------------
  // Fixed cases
  // ---------------------------------------------------------------------------

  /** The Pling tokens of the tests. */
  lemma PlingTokenExamples()
    ensures PlingToken(60, true) == Ok("G") && PlingToken(62, true) == Ok("I")
    ensures PlingToken(64, true) == Ok("K")
    ensures PlingToken(127, true) == Ok("+N") && PlingToken(113, true) == Ok("+X")
    ensures PlingToken(112, true) == Ok("+W") && PlingToken(125, true) == Ok("+X")
  {
    KeyToCharExamples();
    assert "" + ['G'] == "G" && "" + ['I'] == "I" && "" + ['K'] == "K";
    assert "+" + ['N'] == "+N" && "+" + ['X'] == "+X" && "+" + ['W'] == "+W";
  }

  /** The notes start on consecutive ticks from `first`. */
  predicate OneTickApart(notes: seq<Note>, first: nat) {
    forall i :: 0 <= i < |notes| ==> notes[i].start == first + i
  }

  /** The tokens joined by `.`, one tick each. */
  function Dotted(tokens: seq<string>): string
    decreases |tokens|
  {
    if |tokens| == 0 then ""
    else if |tokens| == 1 then tokens[0]
    else tokens[0] + "." + Dotted(tokens[1..])
  }

  /**
   * Notes one tick apart are written as their tokens joined by single dots, after one
   * more dot when the first note is a tick later than the previous one.
   */
  lemma {:induction false} RenderOneTickApart(style: Style, notes: seq<Note>, prev: nat, first: nat, relativeMove: bool, tokens: seq<string>)
    requires first == prev || first == prev + 1
    requires OneTickApart(notes, first) && |tokens| == |notes|
    requires forall i :: 0 <= i < |notes| ==> Token(style, notes[i].key, relativeMove) == Ok(tokens[i])
    ensures Render(style, notes, prev, relativeMove)
            == Ok((if first == prev + 1 && |notes| > 0 then "." else "") + Dotted(tokens))
    decreases |notes|
  {
    if |notes| == 0 {
      assert "" + Dotted(tokens) == "";
    } else {
      var tail := notes[1..];
      assert forall i :: 0 <= i < |tail| ==> tail[i] == notes[i + 1] && tokens[1..][i] == tokens[i + 1];
      assert OneTickApart(tail, first + 1);
      RenderOneTickApart(style, tail, first, first + 1, relativeMove, tokens[1..]);
      assert notes[0].start == first;
      var rest := (if |tail| > 0 then "." else "") + Dotted(tokens[1..]);
      RenderStep(style, notes, prev, relativeMove, tokens[0], rest);
      assert Gap(Elapsed(first, prev)) == if first == prev + 1 then "." else "";
      DottedCons(if first == prev + 1 then "." else "", tokens);
    }
  }

  lemma DottedCons(lead: string, tokens: seq<string>)
    requires |tokens| > 0
    ensures lead + tokens[0] + ((if |tokens| > 1 then "." else "") + Dotted(tokens[1..])) == lead + Dotted(tokens)
  {
    var rest := Dotted(tokens[1..]);
    if |tokens| == 1 {
      assert rest == "";
      AppendEmpty(rest);
      AppendEmpty(tokens[0]);
      assert Dotted(tokens) == tokens[0];
    } else {
      AppendAssoc(lead, tokens[0], "." + rest);
      AppendAssoc(tokens[0], ".", rest);
      assert Dotted(tokens) == tokens[0] + "." + rest;
    }
  }

  /** Pling notes on ticks 0, 1, 2, ... are written as their tokens joined by dots. */
  lemma PlingOneTickApart(notes: seq<Note>, tokens: seq<string>)
    requires OneTickApart(notes, 0) && |tokens| == |notes|
    requires forall i :: 0 <= i < |notes| ==> PlingToken(notes[i].key, true) == Ok(tokens[i])
    ensures InstrumentText(Pling, notes, true) == Ok(Dotted(tokens))
  {
    RenderOneTickApart(OctaveShift, notes, 0, 0, true, tokens);
    assert "" + Dotted(tokens) == Dotted(tokens);
  }

  /** `[60@0, 62@1, 127@2]` on Pling, with relative moves. */
  lemma PlingExample()
    ensures InstrumentText(Pling, [Note(60, 0), Note(62, 1), Note(127, 2)], true) == Ok("G.I.+N")
  {
    PlingTokenExamples();
    var tokens := ["G", "I", "+N"];
    assert Dotted(tokens[2..]) == "+N";
    assert Dotted(tokens[1..]) == "I.+N";
    assert Dotted(tokens) == "G.I.+N";
    PlingOneTickApart([Note(60, 0), Note(62, 1), Note(127, 2)], tokens);
  }

  /** The Pling merges of the tests: tracks in time order merge by appending. */
  lemma PlingMergeOrder()
    ensures SortBy([Note(60, 0), Note(62, 1)] + [Note(64, 2), Note(113, 3)], StartOf)
            == [Note(60, 0), Note(62, 1), Note(64, 2), Note(113, 3)]
    ensures SortBy([Note(60, 0), Note(62, 1)] + [Note(112, 2), Note(125, 3)], StartOf)
            == [Note(60, 0), Note(62, 1), Note(112, 2), Note(125, 3)]
  {
    MergeInOrder([Note(60, 0), Note(62, 1)], [Note(64, 2), Note(113, 3)]);
    MergeInOrder([Note(60, 0), Note(62, 1)], [Note(112, 2), Note(125, 3)]);
  }

  /** The text of the first merged Pling track. */
  lemma PlingMergeExample()
    ensures InstrumentText(Pling, [Note(60, 0), Note(62, 1), Note(64, 2), Note(113, 3)], true) == Ok("G.I.K.+X")
  {
    PlingTokenExamples();
    var tokens := ["G", "I", "K", "+X"];
    assert Dotted(tokens[3..]) == "+X";
    assert Dotted(tokens[2..]) == "K.+X";
    assert Dotted(tokens[1..]) == "I.K.+X";
    assert Dotted(tokens) == "G.I.K.+X";
    PlingOneTickApart([Note(60, 0), Note(62, 1), Note(64, 2), Note(113, 3)], tokens);
  }

  /** The text of the second merged Pling track, with two shifted notes. */
  lemma PlingMergeShiftedExample()
    ensures InstrumentText(Pling, [Note(60, 0), Note(62, 1), Note(112, 2), Note(125, 3)], true) == Ok("G.I.+W.+X")
  {
    PlingTokenExamples();
    var tokens := ["G", "I", "+W", "+X"];
    assert Dotted(tokens[3..]) == "+X";
    assert Dotted(tokens[2..]) == "+W.+X";
    assert Dotted(tokens[1..]) == "I.+W.+X";
    assert Dotted(tokens) == "G.I.+W.+X";
    PlingOneTickApart([Note(60, 0), Note(62, 1), Note(112, 2), Note(125, 3)], tokens);
  }
}
