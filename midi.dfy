/**
 * The note extraction of `Track::midi_to_notes` (`instruments.rs`), as functions over
 * an abstract MIDI file: a sequence of sub-tracks, each a sequence of events with the
 * delta time since the previous event and a kind (`NoteOn`, `NoteOff` or anything else).
 *
 * Per sub-track, the events that are not `NoteOn`/`NoteOff` are dropped first; the time
 * counter then adds the deltas of the remaining events only. Every `NoteOn` of key `k`
 * looks for the first `NoteOff` of key `k` in a pool that starts as the whole filtered
 * sub-track; when there is one, a note at `counter / 12` is emitted and that `NoteOff`
 * leaves the pool.
 */
module MidiModel {
  import opened Wrappers
  import opened Sorting
  import opened NoteModel
  import opened Seqs

  datatype MidiMessage = NoteOn(key: Key) | NoteOff(key: Key) | Other

  datatype TrackEvent = TrackEvent(delta: nat, kind: MidiMessage)

  /** A parsed MIDI file: its sub-tracks. */
  type Smf = seq<seq<TrackEvent>>

  predicate IsNoteMessage(e: TrackEvent) {
    e.kind.NoteOn? || e.kind.NoteOff?
  }

  /** The `NoteOn` and `NoteOff` events of a sub-track, in order. */
  function NoteMessages(track: seq<TrackEvent>): (r: seq<TrackEvent>)
    ensures |r| <= |track|
    ensures forall i :: 0 <= i < |r| ==> IsNoteMessage(r[i])
    ensures forall i :: 0 <= i < |r| ==> r[i] in track
    ensures forall i :: 0 <= i < |track| && IsNoteMessage(track[i]) ==> track[i] in r
    ensures |track| == 1 ==> r == (if IsNoteMessage(track[0]) then track else [])
  {
    if |track| == 0 then []
    else (if IsNoteMessage(track[0]) then [track[0]] else []) + NoteMessages(track[1..])
  }

  /** The position of the first `NoteOff` of `key` in `pool`, if there is one. */
  function FirstNoteOff(pool: seq<TrackEvent>, key: Key): (r: Option<nat>)
    ensures r.Some? ==> r.value < |pool| && pool[r.value].kind == NoteOff(key)
    ensures r.Some? ==> forall j :: 0 <= j < r.value ==> pool[j].kind != NoteOff(key)
    ensures r.None? <==> forall j :: 0 <= j < |pool| ==> pool[j].kind != NoteOff(key)
  {
    if |pool| == 0 then None
    else if pool[0].kind == NoteOff(key) then Some(0)
    else match FirstNoteOff(pool[1..], key)
      case None => None
      case Some(j) => Some(j + 1)
  }

  function RemoveAt<T>(s: seq<T>, i: nat): (r: seq<T>)
    requires i < |s|
    ensures |r| == |s| - 1
  {
    s[..i] + s[i + 1..]
  }

  /**
   * The notes emitted for `events` when the counter stands at `time` and `pool` holds
   * the events not yet paired.
   */
  function PairNotes(events: seq<TrackEvent>, pool: seq<TrackEvent>, time: nat): seq<Note>
    decreases |events|
  {
    if |events| == 0 then []
    else
      var now := time + events[0].delta;
      Emitted(events[0], pool, now) + PairNotes(events[1..], PoolAfter(events[0], pool), now)
  }

  /** The note an event emits at counter `now`: a `NoteOn` whose key has a `NoteOff` in the pool. */
  function Emitted(e: TrackEvent, pool: seq<TrackEvent>, now: nat): seq<Note> {
    match e.kind
    case NoteOn(key) => if FirstNoteOff(pool, key).Some? then [Note(key, now / 12)] else []
    case _ => []
  }

  /** An event emits nothing, or the note of its key at the counter. */
  lemma EmittedShape(e: TrackEvent, pool: seq<TrackEvent>, now: nat)
    ensures Emitted(e, pool, now) == [] || (e.kind.NoteOn? && Emitted(e, pool, now) == [Note(e.kind.key, now / 12)])
  {
  }

  /** The pool after an event: the `NoteOff` a `NoteOn` pairs with leaves it. */
  function PoolAfter(e: TrackEvent, pool: seq<TrackEvent>): seq<TrackEvent> {
    match e.kind
    case NoteOn(key) =>
      (match FirstNoteOff(pool, key)
       case Some(i) => RemoveAt(pool, i)
       case None => pool)
    case _ => pool
  }

  /** One event of the pairing loop: a `NoteOn` whose `NoteOff` is still in the pool. */
  lemma PairHit(events: seq<TrackEvent>, i: nat, pool: seq<TrackEvent>, time: nat, now: nat,
                key: Key, j: nat, notes: seq<Note>, whole: seq<Note>)
    requires i < |events| && now == time + events[i].delta && events[i].kind == NoteOn(key)
    requires FirstNoteOff(pool, key) == Some(j)
    requires notes + PairNotes(events[i..], pool, time) == whole
    ensures (notes + [Note(key, now / 12)]) + PairNotes(events[i + 1..], RemoveAt(pool, j), now) == whole
  {
    PairNotesUnfold(events, i, pool, time);
    AppendAssoc(notes, [Note(key, now / 12)], PairNotes(events[i + 1..], RemoveAt(pool, j), now));
  }

  /** One event of the pairing loop that emits nothing. */
  lemma PairSkip(events: seq<TrackEvent>, i: nat, pool: seq<TrackEvent>, time: nat, now: nat,
                 notes: seq<Note>, whole: seq<Note>)
    requires i < |events| && now == time + events[i].delta
    requires !(events[i].kind.NoteOn? && FirstNoteOff(pool, events[i].kind.key).Some?)
    requires notes + PairNotes(events[i..], pool, time) == whole
    ensures notes + PairNotes(events[i + 1..], pool, now) == whole
  {
    PairNotesUnfold(events, i, pool, time);
    Silent(events[i], pool, now);
    AppendEmpty(PairNotes(events[i + 1..], pool, now));
  }

  /** An event that is not a `NoteOn` with a partner leaves no note and the pool as it was. */
  lemma Silent(e: TrackEvent, pool: seq<TrackEvent>, now: nat)
    requires !(e.kind.NoteOn? && FirstNoteOff(pool, e.kind.key).Some?)
    ensures Emitted(e, pool, now) == [] && PoolAfter(e, pool) == pool
  {
  }

  /** `PairNotes` of the suffix at `i`, one event taken. */
  lemma PairNotesUnfold(events: seq<TrackEvent>, i: nat, pool: seq<TrackEvent>, time: nat)
    requires i < |events|
    ensures PairNotes(events[i..], pool, time)
         == Emitted(events[i], pool, time + events[i].delta)
            + PairNotes(events[i + 1..], PoolAfter(events[i], pool), time + events[i].delta)
  {
    SuffixCons(events, i);
  }

  /** The notes of one sub-track: its note events, paired against themselves. */
  function SubTrackNotes(track: seq<TrackEvent>): seq<Note> {
    var events := NoteMessages(track);
    PairNotes(events, events, 0)
  }

  /**
   * The notes of a whole file: each sub-track's notes, when there are some, are merged
   * (appended, then stable-sorted by start) into the notes of the sub-tracks before it.
   */
  function MidiNotes(midi: Smf): seq<Note> {
    if |midi| == 0 then []
    else
      var acc := MidiNotes(midi[..|midi| - 1]);
      var t := SubTrackNotes(midi[|midi| - 1]);
      if t == [] then acc else SortBy(acc + t, StartOf)
  }

  // ---------------------------------------------------------------------------
  // Properties of the pairing
  // ---------------------------------------------------------------------------

  /** The sum of the deltas of `events`. */
  function DeltaSum(events: seq<TrackEvent>): nat {
    if |events| == 0 then 0 else events[0].delta + DeltaSum(events[1..])
  }

  function CountOn(events: seq<TrackEvent>, key: Key): nat {
    if |events| == 0 then 0
    else (if events[0].kind == NoteOn(key) then 1 else 0) + CountOn(events[1..], key)
  }

  function CountOff(events: seq<TrackEvent>, key: Key): nat {
    if |events| == 0 then 0
    else (if events[0].kind == NoteOff(key) then 1 else 0) + CountOff(events[1..], key)
  }

  function CountKey(notes: seq<Note>, key: Key): nat {
    if |notes| == 0 then 0
    else (if notes[0].key == key then 1 else 0) + CountKey(notes[1..], key)
  }

  lemma {:induction false} CountOffAppend(a: seq<TrackEvent>, b: seq<TrackEvent>, key: Key)
    ensures CountOff(a + b, key) == CountOff(a, key) + CountOff(b, key)
  {
    if |a| == 0 {
      assert a + b == b;
    } else {
      assert (a + b)[1..] == a[1..] + b;
      CountOffAppend(a[1..], b, key);
    }
  }

  /** Removing the paired `NoteOff` takes exactly one `NoteOff` of its key from the pool. */
  lemma CountOffRemove(pool: seq<TrackEvent>, i: nat, key: Key)
    requires i < |pool|
    ensures CountOff(pool, key)
            == CountOff(RemoveAt(pool, i), key) + (if pool[i].kind == NoteOff(key) then 1 else 0)
  {
    assert pool == pool[..i] + ([pool[i]] + pool[i + 1..]);
    CountOffAppend(pool[..i], [pool[i]] + pool[i + 1..], key);
    CountOffAppend([pool[i]], pool[i + 1..], key);
    CountOffAppend(pool[..i], pool[i + 1..], key);
    assert [pool[i]][1..] == [];
  }

  /**
   * Every `NoteOn` yields at most one note, and every `NoteOff` of the pool is used by
   * at most one note; and a `NoteOn` whose key still has a `NoteOff` in the pool always
   * yields one. So, per key, the notes number exactly the smaller of the `NoteOn`s and
   * the `NoteOff`s in the pool.
   */
  lemma {:induction false} PairNotesCounts(events: seq<TrackEvent>, pool: seq<TrackEvent>, time: nat, key: Key)
    ensures CountKey(PairNotes(events, pool, time), key) <= CountOn(events, key)
    ensures CountKey(PairNotes(events, pool, time), key) <= CountOff(pool, key)
    ensures CountKey(PairNotes(events, pool, time), key)
            == if CountOn(events, key) <= CountOff(pool, key) then CountOn(events, key) else CountOff(pool, key)
    decreases |events|
  {
    if |events| > 0 {
      var now := time + events[0].delta;
      var lead, pool' := Emitted(events[0], pool, now), PoolAfter(events[0], pool);
      PairNotesCounts(events[1..], pool', now, key);
      CountKeyAppend(lead, PairNotes(events[1..], pool', now), key);
      PairCountStep(events[0], pool, now, key);
    }
  }

  /**
   * One event of the pairing, counted for `key`: a `NoteOn` of `key` with a `NoteOff` of
   * `key` left in the pool yields one note of `key` and takes one such `NoteOff`; any
   * other event yields no note of `key` and leaves those `NoteOff`s alone.
   */
  lemma PairCountStep(e: TrackEvent, pool: seq<TrackEvent>, now: nat, key: Key)
    ensures var c := if e.kind == NoteOn(key) && CountOff(pool, key) > 0 then 1 else 0;
      CountKey(Emitted(e, pool, now), key) == c && CountOff(PoolAfter(e, pool), key) == CountOff(pool, key) - c
  {
    match e.kind
    case NoteOn(k) =>
      match FirstNoteOff(pool, k) {
        case Some(i) =>
          CountOffRemove(pool, i, key);
          assert Emitted(e, pool, now) == [Note(k, now / 12)];
          assert [Note(k, now / 12)][1..] == [];
        case None =>
          if k == key {
            CountOffNone(pool, key);
          }
      }
    case _ =>
  }

  lemma {:induction false} CountKeyAppend(a: seq<Note>, b: seq<Note>, key: Key)
    ensures CountKey(a + b, key) == CountKey(a, key) + CountKey(b, key)
    decreases |a|
  {
    if |a| == 0 {
      AppendEmpty(b);
    } else {
      TailAppend(a, b);
      CountKeyAppend(a[1..], b, key);
    }
  }

  lemma {:induction false} CountOffNone(pool: seq<TrackEvent>, key: Key)
    requires forall j :: 0 <= j < |pool| ==> pool[j].kind != NoteOff(key)
    ensures CountOff(pool, key) == 0
  {
    if |pool| > 0 {
      assert forall j :: 0 <= j < |pool[1..]| ==> pool[1..][j] == pool[j + 1];
      CountOffNone(pool[1..], key);
    }
  }

  /**
   * `n` was started by a `NoteOn` of its key in `events`, and its start is the counter
   * after that event (from `time`), divided by 12.
   */
  predicate FromNoteOn(events: seq<TrackEvent>, time: nat, n: Note) {
    exists i :: 0 <= i < |events| && events[i].kind == NoteOn(n.key)
                && n.start == (time + DeltaSum(events[..i + 1])) / 12
  }

  lemma FromNoteOnHead(events: seq<TrackEvent>, time: nat, key: Key)
    requires |events| > 0 && events[0].kind == NoteOn(key)
    ensures FromNoteOn(events, time, Note(key, (time + events[0].delta) / 12))
  {
    assert events[..1][1..] == [];
    assert DeltaSum(events[..1]) == events[0].delta;
  }

  lemma FromNoteOnTail(events: seq<TrackEvent>, time: nat, n: Note)
    requires |events| > 0 && FromNoteOn(events[1..], time + events[0].delta, n)
    ensures FromNoteOn(events, time, n)
  {
    var i :| 0 <= i < |events[1..]| && events[1..][i].kind == NoteOn(n.key)
             && n.start == (time + events[0].delta + DeltaSum(events[1..][..i + 1])) / 12;
    assert events[i + 1] == events[1..][i];
    assert events[..i + 2][1..] == events[1..][..i + 1];
    assert DeltaSum(events[..i + 2]) == events[0].delta + DeltaSum(events[1..][..i + 1]);
  }

  /**
   * Every emitted note comes from a `NoteOn` of its key: its start is the counter
   * reached at that `NoteOn` (the starting counter plus the deltas up to and including
   * it), divided by 12.
   */
  lemma {:induction false} PairNotesFromNoteOns(events: seq<TrackEvent>, pool: seq<TrackEvent>, time: nat)
    ensures forall j :: 0 <= j < |PairNotes(events, pool, time)| ==> FromNoteOn(events, time, PairNotes(events, pool, time)[j])
    decreases |events|
  {
    var r := PairNotes(events, pool, time);
    if |events| > 0 {
      var now := time + events[0].delta;
      var lead, pool' := Emitted(events[0], pool, now), PoolAfter(events[0], pool);
      var rest := PairNotes(events[1..], pool', now);
      PairNotesFromNoteOns(events[1..], pool', now);
      forall j | 0 <= j < |r| ensures FromNoteOn(events, time, r[j]) {
        if j < |lead| {
          FromNoteOnHead(events, time, events[0].kind.key);
        } else {
          assert r[j] == rest[j - |lead|];
          FromNoteOnTail(events, time, r[j]);
        }
      }
    }
  }

  /** Notes come out in the order of their `NoteOn`s, so they are sorted by start. */
  lemma {:induction false} PairNotesSorted(events: seq<TrackEvent>, pool: seq<TrackEvent>, time: nat)
    ensures SortedBy(PairNotes(events, pool, time), StartOf)
    ensures forall j :: 0 <= j < |PairNotes(events, pool, time)| ==> time / 12 <= PairNotes(events, pool, time)[j].start
    decreases |events|
  {
    if |events| > 0 {
      var now := time + events[0].delta;
      var lead, pool' := Emitted(events[0], pool, now), PoolAfter(events[0], pool);
      PairNotesSorted(events[1..], pool', now);
      var rest := PairNotes(events[1..], pool', now);
      assert time / 12 <= now / 12;
      EmittedShape(events[0], pool, now);
      if lead == [] {
        AppendEmpty(rest);
      } else {
        var n := Note(events[0].kind.key, now / 12);
        SortedCons(n, rest, StartOf);
        AboveCons(n, rest, StartOf, time / 12);
      }
    }
  }

  /** Only `NoteOn` and `NoteOff` events matter: the other events are filtered out. */
  lemma SubTrackIgnoresOthers(track: seq<TrackEvent>)
    ensures SubTrackNotes(track) == SubTrackNotes(NoteMessages(track))
  {
    NoteMessagesIdempotent(track);
  }

  lemma {:induction false} NoteMessagesIdempotent(track: seq<TrackEvent>)
    ensures NoteMessages(NoteMessages(track)) == NoteMessages(track)
  {
    if |track| > 0 {
      NoteMessagesIdempotent(track[1..]);
      var head := if IsNoteMessage(track[0]) then [track[0]] else [];
      NoteMessagesAppend(head, NoteMessages(track[1..]));
      assert head == [] || head[1..] == [];
    }
  }

  lemma {:induction false} NoteMessagesAppend(a: seq<TrackEvent>, b: seq<TrackEvent>)
    ensures NoteMessages(a + b) == NoteMessages(a) + NoteMessages(b)
  {
    if |a| == 0 {
      assert a + b == b;
    } else {
      assert (a + b)[1..] == a[1..] + b;
      NoteMessagesAppend(a[1..], b);
    }
  }

  /** The notes of the file are sorted by start, and the merge keeps earlier sub-tracks first on ties. */
  lemma {:induction false} MidiNotesSorted(midi: Smf)
    ensures SortedBy(MidiNotes(midi), StartOf)
  {
    if |midi| > 0 {
      var acc := MidiNotes(midi[..|midi| - 1]);
      var t := SubTrackNotes(midi[|midi| - 1]);
      if t != [] {
        SortBySorted(acc + t, StartOf);
      } else {
        MidiNotesSorted(midi[..|midi| - 1]);
      }
    }
  }

  /**
   * No note is lost or duplicated across sub-tracks, and on equal starts the notes keep
   * the order of their sub-tracks.
   */
  lemma {:induction false} MidiNotesCollects(midi: Smf, midi': Smf, k: int)
    requires |midi| > 0 && midi' == midi[..|midi| - 1]
    ensures multiset(MidiNotes(midi)) == multiset(MidiNotes(midi')) + multiset(SubTrackNotes(midi[|midi| - 1]))
    ensures WithKey(MidiNotes(midi), StartOf, k)
            == WithKey(MidiNotes(midi'), StartOf, k) + WithKey(SubTrackNotes(midi[|midi| - 1]), StartOf, k)
  {
    var acc := MidiNotes(midi');
    var t := SubTrackNotes(midi[|midi| - 1]);
    if t == [] {
      assert acc + t == acc;
    } else {
      SortByPermutation(acc + t, StartOf);
      SortByStable(acc + t, StartOf, k);
    }
    WithKeyAppend(acc, t, StartOf, k);
  }

  // ---------------------------------------------------------------------------
  // Fixed cases
  // ---------------------------------------------------------------------------

  /**
   * The pool is the whole sub-track, so a `NoteOff` that comes before its `NoteOn`
   * pairs with it: the `NoteOn` at counter 24 uses the `NoteOff` at counter 0.
   */
  lemma EarlierNoteOffPairs()
    ensures SubTrackNotes([TrackEvent(0, NoteOff(60)), TrackEvent(24, NoteOn(60)), TrackEvent(12, NoteOff(60))])
            == [Note(60, 2)]
  {
    EarlierMessages();
    EarlierPairing();
  }

  lemma EarlierMessages()
    ensures NoteMessages([TrackEvent(0, NoteOff(60)), TrackEvent(24, NoteOn(60)), TrackEvent(12, NoteOff(60))])
         == [TrackEvent(0, NoteOff(60)), TrackEvent(24, NoteOn(60)), TrackEvent(12, NoteOff(60))]
  {
    var events := [TrackEvent(0, NoteOff(60)), TrackEvent(24, NoteOn(60)), TrackEvent(12, NoteOff(60))];
    assert events[1..] == [TrackEvent(24, NoteOn(60)), TrackEvent(12, NoteOff(60))];
    assert events[1..][1..] == [TrackEvent(12, NoteOff(60))];
  }

  lemma EarlierPairing()
    ensures PairNotes([TrackEvent(0, NoteOff(60)), TrackEvent(24, NoteOn(60)), TrackEvent(12, NoteOff(60))],
                      [TrackEvent(0, NoteOff(60)), TrackEvent(24, NoteOn(60)), TrackEvent(12, NoteOff(60))], 0)
         == [Note(60, 2)]
  {
    var events := [TrackEvent(0, NoteOff(60)), TrackEvent(24, NoteOn(60)), TrackEvent(12, NoteOff(60))];
    assert FirstNoteOff(events, 60) == Some(0);
    assert RemoveAt(events, 0) == events[1..];
    assert events[1..][1..] == [TrackEvent(12, NoteOff(60))];
  }

  /**
   * The delta of a filtered-out event is not counted: the `NoteOn` after an `Other`
   * event of delta 120 starts at tick 0, not at 120 / 12.
   */
  lemma OtherDeltaDropped()
    ensures SubTrackNotes([TrackEvent(120, Other), TrackEvent(0, NoteOn(60)), TrackEvent(12, NoteOff(60))])
            == [Note(60, 0)]
  {
    OtherMessages();
    OtherPairing();
  }

  lemma OtherMessages()
    ensures NoteMessages([TrackEvent(120, Other), TrackEvent(0, NoteOn(60)), TrackEvent(12, NoteOff(60))])
         == [TrackEvent(0, NoteOn(60)), TrackEvent(12, NoteOff(60))]
  {
    var events := [TrackEvent(120, Other), TrackEvent(0, NoteOn(60)), TrackEvent(12, NoteOff(60))];
    assert events[1..] == [TrackEvent(0, NoteOn(60)), TrackEvent(12, NoteOff(60))];
    assert events[1..][1..] == [TrackEvent(12, NoteOff(60))];
  }

  lemma OtherPairing()
    ensures PairNotes([TrackEvent(0, NoteOn(60)), TrackEvent(12, NoteOff(60))],
                      [TrackEvent(0, NoteOn(60)), TrackEvent(12, NoteOff(60))], 0)
         == [Note(60, 0)]
  {
    var notes := [TrackEvent(0, NoteOn(60)), TrackEvent(12, NoteOff(60))];
    assert notes[1..] == [TrackEvent(12, NoteOff(60))];
    assert FirstNoteOff(notes[1..], 60) == Some(0);
    assert FirstNoteOff(notes, 60) == Some(1);
  }

  /** A sub-track with no note events contributes nothing. */
  lemma SilentSubTrack(midi: Smf, track: seq<TrackEvent>)
    requires forall i :: 0 <= i < |track| ==> !IsNoteMessage(track[i])
    ensures MidiNotes(midi + [track]) == MidiNotes(midi)
  {
    NoteMessagesNone(track);
    assert (midi + [track])[..|midi + [track]| - 1] == midi;
  }

  lemma {:induction false} NoteMessagesNone(track: seq<TrackEvent>)
    requires forall i :: 0 <= i < |track| ==> !IsNoteMessage(track[i])
    ensures NoteMessages(track) == []
  {
    if |track| > 0 {
      assert forall i :: 0 <= i < |track[1..]| ==> track[1..][i] == track[i + 1];
      NoteMessagesNone(track[1..]);
    }
  }
}
