/**
 * The tick codec and the stream merger of `utils.rs`.
 *
 * A stream is a string read left to right with a running tick counter: the digit `n`
 * adds `2 * n` ticks, `'.'` adds one tick, and every other character is an event fired
 * at the current tick. `TickToString` writes a tick gap as `'9'` (18 ticks) repeated,
 * then at most one digit `'1'..'8'`, then at most one `'.'`. `MergeString` decodes
 * every stream, stable-sorts all events by tick and writes them back as one stream.
 */
module Utils {
  import opened Sorting
  import opened Seqs

  /** An event of a decoded stream: the character fired at an absolute tick. */
  datatype Event = Event(tick: nat, ch: char)

  function TickOf(e: Event): int {
    e.tick
  }

  /** Digits and periods advance time; every other character is an event. */
  predicate IsTimeChar(c: char) {
    '0' <= c <= '9' || c == '.'
  }

  /** The ticks one character adds to the running counter. */
  function Weight(c: char): nat {
    if '0' <= c <= '9' then 2 * (c as int - '0' as int)
    else if c == '.' then 1
    else 0
  }

  function DigitChar(n: nat): char
    requires n <= 9
  {
    ('0' as int + n) as char
  }

  // ---------------------------------------------------------------------------
  // Decoding (`parse_track`)
  // ---------------------------------------------------------------------------

  /** The tick counter after reading all of `s`. */
  function TimeWeight(s: string): nat {
    if |s| == 0 then 0 else TimeWeight(s[..|s| - 1]) + Weight(s[|s| - 1])
  }

  /** The events of stream `s`, each at the counter reached before it. */
  function Decode(s: string): seq<Event> {
    if |s| == 0 then []
    else
      var init, c := s[..|s| - 1], s[|s| - 1];
      Decode(init) + (if IsTimeChar(c) then [] else [Event(TimeWeight(init), c)])
  }

  /** The event characters of `s`, in order. */
  function Payload(s: string): (p: string)
    ensures forall i :: 0 <= i < |p| ==> !IsTimeChar(p[i])
  {
    if |s| == 0 then []
    else Payload(s[..|s| - 1]) + (if IsTimeChar(s[|s| - 1]) then [] else [s[|s| - 1]])
  }

  /** The events `es`, every one moved `d` ticks later. */
  function Shift(es: seq<Event>, d: nat): (r: seq<Event>)
    ensures |r| == |es|
    ensures forall i :: 0 <= i < |es| ==> r[i] == Event(es[i].tick + d, es[i].ch)
  {
    seq(|es|, i requires 0 <= i < |es| => Event(es[i].tick + d, es[i].ch))
  }

  lemma ShiftAppend(a: seq<Event>, b: seq<Event>, d: nat)
    ensures Shift(a + b, d) == Shift(a, d) + Shift(b, d)
  {
  }

  lemma ShiftSingle(e: Event, d: nat)
    ensures Shift([e], d) == [Event(e.tick + d, e.ch)]
  {
    var r := Shift([e], d);
    assert |r| == 1 && r[0] == Event(e.tick + d, e.ch);
  }

  lemma ShiftShift(a: seq<Event>, d1: nat, d2: nat)
    ensures Shift(Shift(a, d1), d2) == Shift(a, d1 + d2)
  {
  }

  /** Reads the stream left to right, as `parse_track` in `merge_string` does. */
  method ParseTrack(track: string) returns (events: seq<Event>)
    ensures events == Decode(track)
  {
    events := [];
    var currentTick: nat := 0;
    var i := 0;
    while i < |track|
      invariant 0 <= i <= |track|
      invariant currentTick == TimeWeight(track[..i])
      invariant events == Decode(track[..i])
    {
      var c := track[i];
      if '0' <= c <= '9' {
        var digit := c as int - '0' as int;
        currentTick := currentTick + digit * 2;
      } else if c == '.' {
        currentTick := currentTick + 1;
      } else {
        events := events + [Event(currentTick, c)];
      }
      assert track[..i + 1][..i] == track[..i];
      i := i + 1;
    }
    assert track[..|track|] == track;
  }

  /** Decoding a concatenation decodes the second part from where the first ends. */
  lemma {:induction false} DecodeAppend(a: string, b: string)
    ensures TimeWeight(a + b) == TimeWeight(a) + TimeWeight(b)
    ensures Decode(a + b) == Decode(a) + Shift(Decode(b), TimeWeight(a))
    decreases |b|
  {
    if |b| == 0 {
      AppendEmpty(a);
      AppendEmpty(Decode(a));
      assert Shift(Decode(b), TimeWeight(a)) == [];
    } else {
      var b', c := b[..|b| - 1], b[|b| - 1];
      AppendDropLast(a, b);
      DecodeAppend(a, b');
      var w := TimeWeight(a);
      var tail := if IsTimeChar(c) then [] else [Event(TimeWeight(b'), c)];
      assert Decode(b) == Decode(b') + tail;
      assert Decode(a + b) == Decode(a + b') + (if IsTimeChar(c) then [] else [Event(TimeWeight(a + b'), c)]);
      assert Shift(tail, w) == if IsTimeChar(c) then [] else [Event(TimeWeight(a + b'), c)];
      ShiftAppend(Decode(b'), tail, w);
      AppendAssoc(Decode(a), Shift(Decode(b'), w), Shift(tail, w));
    }
  }

  /** Decoding yields one event per event character, in order. */
  lemma {:induction false} DecodeChars(s: string)
    ensures |Decode(s)| == |Payload(s)|
    ensures forall i :: 0 <= i < |Payload(s)| ==> Decode(s)[i].ch == Payload(s)[i]
  {
    if |s| > 0 {
      DecodeChars(s[..|s| - 1]);
    }
  }

  /** Decoded ticks never decrease and never pass the final counter. */
  lemma {:induction false} DecodeSorted(s: string)
    ensures SortedBy(Decode(s), TickOf)
    ensures forall i :: 0 <= i < |Decode(s)| ==> Decode(s)[i].tick <= TimeWeight(s)
  {
    if |s| > 0 {
      DecodeSorted(s[..|s| - 1]);
    }
  }

  /** The event for character `s[i]` fires at the counter reached by `s[..i]`. */
  lemma DecodeAt(s: string, i: nat)
    requires i < |s| && !IsTimeChar(s[i])
    ensures |Payload(s[..i])| < |Decode(s)|
    ensures Decode(s)[|Payload(s[..i])|] == Event(TimeWeight(s[..i]), s[i])
  {
    assert s == s[..i + 1] + s[i + 1..];
    DecodeAppend(s[..i + 1], s[i + 1..]);
    assert s[..i + 1][..i] == s[..i];
    DecodeChars(s[..i]);
  }

  /** A stream has no events exactly when it holds only digits and periods. */
  lemma {:induction false} DecodeEmptyIff(s: string)
    ensures Decode(s) == [] <==> forall i :: 0 <= i < |s| ==> IsTimeChar(s[i])
  {
    if |s| > 0 {
      DecodeEmptyIff(s[..|s| - 1]);
      assert forall i :: 0 <= i < |s| - 1 ==> s[..|s| - 1][i] == s[i];
    }
  }

  /** Digits and periods never become events. */
  lemma DecodeNoTimeChars(s: string)
    ensures forall i :: 0 <= i < |Decode(s)| ==> !IsTimeChar(Decode(s)[i].ch)
  {
    DecodeChars(s);
  }

  /** A string of event characters only decodes to events at tick 0. */
  lemma {:induction false} DecodePayloadOnly(s: string)
    requires forall i :: 0 <= i < |s| ==> !IsTimeChar(s[i])
    ensures TimeWeight(s) == 0
    ensures Decode(s) == seq(|s|, i requires 0 <= i < |s| => Event(0, s[i]))
  {
    if |s| > 0 {
      assert forall i :: 0 <= i < |s| - 1 ==> s[..|s| - 1][i] == s[i];
      DecodePayloadOnly(s[..|s| - 1]);
    }
  }

  // ---------------------------------------------------------------------------
  // Encoding a gap (`tick_to_string`)
  // ---------------------------------------------------------------------------

  predicate IsMidDigit(c: char) {
    '1' <= c <= '8'
  }

  /** `'9'`*, then at most one digit `'1'..'8'`, then at most one `'.'`. */
  predicate GapShape(s: string)
    decreases |s|
  {
    if |s| == 0 then true
    else if s[0] == '9' then GapShape(s[1..])
    else
      || (|s| == 1 && (IsMidDigit(s[0]) || s[0] == '.'))
      || (|s| == 2 && IsMidDigit(s[0]) && s[1] == '.')
  }

  /** The text that stands for a gap of `d` ticks. */
  function Gap(d: nat): (g: string)
    ensures g == [] <==> d == 0
    decreases d
  {
    if d >= 18 then "9" + Gap(d - 18)
    else (if d >= 2 then [DigitChar(d / 2)] else []) + (if d % 2 == 1 then "." else "")
  }

  /** The text of a gap has gap shape and holds only digits and periods. */
  lemma {:induction false} GapIsTime(d: nat)
    ensures GapShape(Gap(d))
    ensures forall i :: 0 <= i < |Gap(d)| ==> IsTimeChar(Gap(d)[i])
    decreases d
  {
    if d >= 18 {
      GapIsTime(d - 18);
      var rest := Gap(d - 18);
      assert ("9" + rest)[1..] == rest;
      assert forall i :: 0 < i < |"9" + rest| ==> ("9" + rest)[i] == rest[i - 1];
    }
  }

  /** Writes a tick gap, as `tick_to_string` does. */
  method TickToString(ticks: nat) returns (result: string)
    ensures result == Gap(ticks)
  {
    result := "";
    if ticks == 0 {
      return "";
    }
    var remaining := ticks;
    while remaining >= 18
      invariant result + Gap(remaining) == Gap(ticks)
    {
      assert Gap(remaining) == "9" + Gap(remaining - 18);
      AppendAssoc(result, "9", Gap(remaining - 18));
      result := result + "9";
      remaining := remaining - 18;
    }
    ghost var digits: string := if remaining >= 2 then [DigitChar(remaining / 2)] else [];
    ghost var dot: string := if remaining % 2 == 1 then "." else "";
    assert Gap(remaining) == digits + dot;
    AppendAssoc(result, digits, dot);
    if remaining >= 2 {
      var digit := remaining / 2;
      result := result + [DigitChar(digit)];
      remaining := remaining % 2;
    } else {
      AppendEmpty(result);
    }
    assert result + dot == Gap(ticks);
    if remaining == 1 {
      result := result + ".";
    } else {
      AppendEmpty(result);
    }
    if |result| == 0 {
      result := result + ".";
    }
  }

  /** The counter after a concatenation is the sum of the counters of its parts. */
  lemma {:induction false} TimeWeightAppend(a: string, b: string)
    ensures TimeWeight(a + b) == TimeWeight(a) + TimeWeight(b)
    decreases |b|
  {
    if |b| == 0 {
      AppendEmpty(a);
    } else {
      AppendDropLast(a, b);
      TimeWeightAppend(a, b[..|b| - 1]);
    }
  }

  lemma TimeWeightChar(c: char)
    ensures TimeWeight([c]) == Weight(c)
  {
    assert [c][..0] == [];
  }

  /** Round trip: reading the text of a gap of `d` ticks advances the counter by `d`. */
  lemma {:induction false} GapRoundTrip(d: nat)
    ensures TimeWeight(Gap(d)) == d
    ensures Decode(Gap(d)) == []
    decreases d
  {
    GapIsTime(d);
    DecodeEmptyIff(Gap(d));
    if d >= 18 {
      GapRoundTrip(d - 18);
      TimeWeightAppend("9", Gap(d - 18));
      TimeWeightChar('9');
    } else {
      var digit: string := if d >= 2 then [DigitChar(d / 2)] else [];
      var dot: string := if d % 2 == 1 then "." else "";
      assert Gap(d) == digit + dot;
      TimeWeightAppend(digit, dot);
      if d >= 2 {
        TimeWeightChar(DigitChar(d / 2));
      }
      if d % 2 == 1 {
        TimeWeightChar('.');
      }
    }
  }

  /** Every string of gap shape is the text of its own tick count: the encoding is canonical. */
  lemma {:induction false} GapShapeCanonical(s: string)
    requires GapShape(s)
    ensures s == Gap(TimeWeight(s))
    decreases |s|
  {
    if |s| == 0 {
    } else if s[0] == '9' {
      GapShapeCanonical(s[1..]);
      NineThenGap(s);
    } else if |s| == 1 {
      SingleGapChar(s);
    } else {
      DigitThenDot(s);
    }
  }

  /** A leading `'9'` in front of the text of a gap is the text of a gap 18 ticks longer. */
  lemma NineThenGap(s: string)
    requires |s| > 0 && s[0] == '9' && s[1..] == Gap(TimeWeight(s[1..]))
    ensures s == Gap(TimeWeight(s))
  {
    HeadTail(s);
    assert [s[0]] == "9";
    TimeWeightAppend("9", s[1..]);
    TimeWeightChar('9');
    GapNine(TimeWeight(s), TimeWeight(s[1..]));
  }

  lemma GapNine(d: nat, w: nat)
    requires d == w + 18
    ensures Gap(d) == "9" + Gap(w)
  {
  }

  /** A single digit `'1'..'8'` or a single `'.'` is the text of its own gap. */
  lemma SingleGapChar(s: string)
    requires |s| == 1 && (IsMidDigit(s[0]) || s[0] == '.')
    ensures s == Gap(TimeWeight(s))
  {
    assert s == [s[0]];
    TimeWeightChar(s[0]);
    if IsMidDigit(s[0]) {
      var k := s[0] as int - '0' as int;
      assert DigitChar(k) == s[0];
      assert (2 * k) / 2 == k && (2 * k) % 2 == 0;
      assert Gap(2 * k) == [DigitChar(k)] + "";
    } else {
      assert Gap(1) == [] + ".";
    }
  }

  /** A digit `'1'..'8'` followed by `'.'` is the text of its own gap. */
  lemma DigitThenDot(s: string)
    requires |s| == 2 && IsMidDigit(s[0]) && s[1] == '.'
    ensures s == Gap(TimeWeight(s))
  {
    var k := s[0] as int - '0' as int;
    assert s == [s[0]] + ".";
    TimeWeightAppend([s[0]], ".");
    TimeWeightChar(s[0]);
    TimeWeightChar('.');
    assert DigitChar(k) == s[0];
    assert (2 * k + 1) / 2 == k && (2 * k + 1) % 2 == 1;
    assert Gap(2 * k + 1) == [DigitChar(k)] + ".";
  }

  // ---------------------------------------------------------------------------
  // Writing events back (`serialize_events`)
  // ---------------------------------------------------------------------------

  /**
   * The text for `events` when the counter stands at `last`: before each event, the gap
   * to its tick if that tick is later, then its character. A run of events on one tick
   * thus gets one gap followed by all their characters.
   */
  function Encode(events: seq<Event>, last: nat): string
    decreases |events|
  {
    if |events| == 0 then ""
    else EventText(events[0], last) + Encode(events[1..], events[0].tick)
  }

  /** The gap to an event, if it is later than `last`, and its character. */
  function EventText(e: Event, last: nat): string {
    GapBefore(e, last) + [e.ch]
  }

  /** The gap to an event, if it is later than `last`. */
  function GapBefore(e: Event, last: nat): string {
    if e.tick > last then Gap(e.tick - last) else ""
  }

  /** The tick the counter stands at after writing `events` from `last`. */
  function EndTick(events: seq<Event>, last: nat): nat {
    if |events| == 0 then last else events[|events| - 1].tick
  }

  /** Writing two runs of events one after the other writes them together. */
  lemma {:induction false} EncodeAppend(a: seq<Event>, b: seq<Event>, last: nat)
    ensures Encode(a + b, last) == Encode(a, last) + Encode(b, EndTick(a, last))
    decreases |a|
  {
    if |a| == 0 {
      assert a + b == b;
      AppendEmpty(Encode(b, last));
    } else {
      EncodeAppend(a[1..], b, a[0].tick);
      EncodeAppendStep(a, b, last);
    }
  }

  /** One event of `EncodeAppend`: the first event of `a` is written first either way. */
  lemma EncodeAppendStep(a: seq<Event>, b: seq<Event>, last: nat)
    requires |a| > 0
    requires Encode(a[1..] + b, a[0].tick) == Encode(a[1..], a[0].tick) + Encode(b, EndTick(a[1..], a[0].tick))
    ensures Encode(a + b, last) == Encode(a, last) + Encode(b, EndTick(a, last))
  {
    EndTickTail(a, last);
    TailAppend(a, b);
    EncodeHead(a + b, last, a[0], a[1..] + b);
    EncodeHead(a, last, a[0], a[1..]);
    AppendAssoc(EventText(a[0], last), Encode(a[1..], a[0].tick), Encode(b, EndTick(a, last)));
  }

  lemma EndTickTail(a: seq<Event>, last: nat)
    requires |a| > 0
    ensures EndTick(a[1..], a[0].tick) == EndTick(a, last)
  {
  }

  /** `Encode` of a non-empty run, given its first event and the rest. */
  lemma EncodeHead(events: seq<Event>, last: nat, e: Event, rest: seq<Event>)
    requires |events| > 0 && events[0] == e && events[1..] == rest
    ensures Encode(events, last) == EventText(e, last) + Encode(rest, e.tick)
  {
  }

  /** `Encode` of the events from index `i` on, read by index as the writer's loop does. */
  function EncodeFrom(events: seq<Event>, i: nat, last: nat): string
    requires i <= |events|
    decreases |events| - i
  {
    if i == |events| then ""
    else EventText(events[i], last) + EncodeFrom(events, i + 1, events[i].tick)
  }

  /** Reading by index and reading the suffix give the same text. */
  lemma {:induction false} EncodeFromSuffix(events: seq<Event>, i: nat, last: nat)
    requires i <= |events|
    ensures EncodeFrom(events, i, last) == Encode(events[i..], last)
    decreases |events| - i
  {
    if i < |events| {
      EncodeFromSuffix(events, i + 1, events[i].tick);
      var s := events[i..];
      assert s[0] == events[i] && s[1..] == events[i + 1..];
    } else {
      assert events[i..] == [];
    }
  }

  /** The text of an event: the gap to it, if any, then its text once the counter is there. */
  lemma EventTextResync(e: Event, last: nat)
    ensures EventText(e, last) == GapBefore(e, last) + EventText(e, e.tick)
  {
    assert EventText(e, e.tick) == "" + [e.ch];
    AppendEmpty([e.ch]);
    if e.tick <= last {
      AppendEmpty(EventText(e, e.tick));
    }
  }

  /** The writer may move the counter to the next event's tick first. */
  lemma EncodeFromResync(events: seq<Event>, i: nat, last: nat)
    requires i < |events|
    ensures EncodeFrom(events, i, last)
            == GapBefore(events[i], last) + EncodeFrom(events, i, events[i].tick)
  {
    var e := events[i];
    var rest := EncodeFrom(events, i + 1, e.tick);
    EventTextResync(e, last);
    AppendAssoc(GapBefore(e, last), EventText(e, e.tick), rest);
  }

  lemma GapBeforeLater(e: Event, last: nat, d: nat, gap: string)
    requires e.tick > last && d == e.tick - last && gap == Gap(d)
    ensures GapBefore(e, last) == gap
  {
  }

  /** The step of the writer that moves the counter to the tick of `events[i]`. */
  lemma WriteGapStep(events: seq<Event>, i: nat, last: nat, before: string, after: string, whole: string)
    requires i < |events| && before + EncodeFrom(events, i, last) == whole
    requires after == before + GapBefore(events[i], last)
    ensures after + EncodeFrom(events, i, events[i].tick) == whole
  {
    EncodeFromResync(events, i, last);
    AppendAssoc(before, GapBefore(events[i], last), EncodeFrom(events, i, events[i].tick));
  }

  /** The step of the writer that writes an event on the current tick. */
  lemma WriteCharStep(events: seq<Event>, i: nat, tick: nat, before: string, whole: string)
    requires i < |events| && events[i].tick == tick
    requires before + EncodeFrom(events, i, tick) == whole
    ensures (before + [events[i].ch]) + EncodeFrom(events, i + 1, tick) == whole
  {
    var rest := EncodeFrom(events, i + 1, tick);
    assert EncodeFrom(events, i, tick) == EventText(events[i], tick) + rest;
    assert EventText(events[i], tick) == "" + [events[i].ch];
    AppendEmpty([events[i].ch]);
    AppendAssoc(before, [events[i].ch], rest);
  }

  /** The events at `lo..hi` are all on `tick` (checked from the end, one event at a time). */
  predicate RunOn(events: seq<Event>, lo: nat, hi: nat, tick: nat)
    requires lo <= hi <= |events|
    decreases hi - lo
  {
    lo == hi || (events[hi - 1].tick == tick && RunOn(events, lo, hi - 1, tick))
  }

  /** `RunOn` says that every event of the run is on its tick. */
  lemma {:induction false} RunOnAll(events: seq<Event>, lo: nat, hi: nat, tick: nat)
    requires lo <= hi <= |events|
    ensures RunOn(events, lo, hi, tick) <==> forall j :: lo <= j < hi ==> events[j].tick == tick
    decreases hi - lo
  {
    if lo < hi {
      RunOnAll(events, lo, hi - 1, tick);
    }
  }


  /** One turn of the inner loop: the run grows by `events[i]`, whose character is written. */
  lemma RunStep(events: seq<Event>, start: nat, i: nat, tick: nat, before: string, whole: string)
    requires start <= i < |events| && events[i].tick == tick
    requires RunOn(events, start, i, tick) && before + EncodeFrom(events, i, tick) == whole
    ensures RunOn(events, start, i + 1, tick)
    ensures (before + [events[i].ch]) + EncodeFrom(events, i + 1, tick) == whole
  {
    WriteCharStep(events, i, tick, before, whole);
  }

  /**
   * The inner loop of `serialize_events`: writes the characters of the run of events on
   * `tick` that starts at `start`, and returns the index after the run.
   */
  method WriteRun(events: seq<Event>, start: nat, tick: nat, before: string, ghost whole: string)
    returns (i: nat, result: string)
    requires start < |events| && events[start].tick == tick
    requires before + EncodeFrom(events, start, tick) == whole
    ensures start < i <= |events| && (i < |events| ==> events[i].tick != tick)
    ensures RunOn(events, start, i, tick)
    ensures result + EncodeFrom(events, i, tick) == whole
  {
    i, result := start, before;
    while i < |events| && events[i].tick == tick
      invariant start <= i <= |events|
      invariant RunOn(events, start, i, tick)
      invariant result + EncodeFrom(events, i, tick) == whole
      decreases |events| - i
    {
      RunStep(events, start, i, tick, result, whole);
      result := result + [events[i].ch];
      i := i + 1;
    }
  }

  /** Writes the events as one stream, as `serialize_events` does. */
  method SerializeEvents(events: seq<Event>) returns (result: string)
    ensures result == Encode(events, 0)
  {
    if |events| == 0 {
      return "";
    }
    result := "";
    var lastTick: nat := 0;
    var i := 0;
    ghost var whole := EncodeFrom(events, 0, 0);
    AppendEmpty(whole);
    while i < |events|
      invariant 0 <= i <= |events|
      invariant result + EncodeFrom(events, i, lastTick) == whole
      decreases |events| - i
    {
      var currentTick := events[i].tick;
      ghost var before := result;
      if currentTick > lastTick {
        var gap := TickToString(currentTick - lastTick);
        GapBeforeLater(events[i], lastTick, currentTick - lastTick, gap);
        result := result + gap;
      } else {
        AppendEmpty(result);
        assert GapBefore(events[i], lastTick) == "";
      }
      WriteGapStep(events, i, lastTick, before, result, whole);
      i, result := WriteRun(events, i, currentTick, result, whole);
      lastTick := currentTick;
    }
    AppendEmpty(result);
    EncodeFromSuffix(events, 0, 0);
    assert events[0..] == events;
  }

  /** Reading a gap, one event character and the rest of a stream. */
  lemma DecodeGapThenEvent(d: nat, c: char, rest: string)
    requires !IsTimeChar(c)
    ensures TimeWeight(Gap(d) + [c] + rest) == d + TimeWeight(rest)
    ensures Decode(Gap(d) + [c] + rest) == [Event(d, c)] + Shift(Decode(rest), d)
  {
    GapRoundTrip(d);
    DecodeChar(c);
    DecodeAppend(Gap(d), [c]);
    ShiftSingle(Event(0, c), d);
    AppendEmpty(Shift(Decode([c]), d));
    assert Decode(Gap(d) + [c]) == [Event(d, c)];
    DecodeAppend(Gap(d) + [c], rest);
  }

  /** A single event character is an event at tick 0. */
  lemma DecodeChar(c: char)
    requires !IsTimeChar(c)
    ensures TimeWeight([c]) == 0 && Decode([c]) == [Event(0, c)]
  {
    assert [c][..0] == [];
  }

  /** Reading a gap, a run of event characters and the rest of a stream. */
  lemma DecodeGapThenPayload(d: nat, p: string, rest: string)
    requires forall i :: 0 <= i < |p| ==> !IsTimeChar(p[i])
    ensures Decode(Gap(d) + p + rest) == Shift(Decode(p), d) + Shift(Decode(rest), d)
  {
    GapRoundTrip(d);
    DecodePayloadOnly(p);
    DecodeAppend(Gap(d), p);
    assert Decode(Gap(d) + p) == Shift(Decode(p), d);
    assert TimeWeight(Gap(d) + p) == d;
    DecodeAppend(Gap(d) + p, rest);
  }

  /**
   * Round trip of the writer: sorted events of event characters, all at or after `last`,
   * are read back exactly (relative to `last`).
   */
  lemma {:induction false} EncodeDecodes(events: seq<Event>, last: nat)
    requires SortedBy(events, TickOf)
    requires |events| > 0 ==> last <= events[0].tick
    requires forall i :: 0 <= i < |events| ==> !IsTimeChar(events[i].ch)
    ensures Shift(Decode(Encode(events, last)), last) == events
    decreases |events|
  {
    if |events| > 0 {
      SortedSuffix(events, 1, TickOf);
      assert forall i :: 0 <= i < |events[1..]| ==> events[1..][i] == events[i + 1];
      EncodeDecodes(events[1..], events[0].tick);
      EncodeDecodesStep(events, last);
    } else {
      assert Encode(events, last) == "";
      assert Decode("") == [];
      assert Shift([], last) == [];
    }
  }

  /** The step of `EncodeDecodes`: the first event, in front of the rest read back. */
  lemma EncodeDecodesStep(events: seq<Event>, last: nat)
    requires |events| > 0 && last <= events[0].tick && !IsTimeChar(events[0].ch)
    requires Shift(Decode(Encode(events[1..], events[0].tick)), events[0].tick) == events[1..]
    ensures Shift(Decode(Encode(events, last)), last) == events
  {
    EncodeCons(events, last);
    ReadBackStep(Encode(events, last), events[0].tick - last, events[0].ch, Encode(events[1..], events[0].tick), last, events[0].tick, events[1..]);
    HeadTail(events);
  }

  /** Reading back a gap, an event character and a rest that reads back as `expected`. */
  lemma ReadBackStep(text: string, d: nat, c: char, rest: string, last: nat, t: nat, expected: seq<Event>)
    requires text == Gap(d) + [c] + rest && !IsTimeChar(c)
    requires t == d + last && Shift(Decode(rest), t) == expected
    ensures Shift(Decode(text), last) == [Event(t, c)] + expected
  {
    DecodeGapThenEvent(d, c, rest);
    ShiftCons(d, c, Decode(rest), last, t, expected);
  }

  /** The text of events starting at or after `last`: the gap, the first character, the rest. */
  lemma EncodeCons(events: seq<Event>, last: nat)
    requires |events| > 0 && last <= events[0].tick
    ensures Encode(events, last) == Gap(events[0].tick - last) + [events[0].ch] + Encode(events[1..], events[0].tick)
  {
    EventTextGap(events[0], last);
  }

  /** The text of an event at or after `last`: the gap to it, then its character. */
  lemma EventTextGap(e: Event, last: nat)
    requires last <= e.tick
    ensures EventText(e, last) == Gap(e.tick - last) + [e.ch]
  {
    if e.tick == last {
      assert Gap(0) == "";
    }
  }

  /** Shifting an event at `d` and events already shifted by `d`. */
  lemma ShiftCons(d: nat, c: char, es: seq<Event>, last: nat, t: nat, expected: seq<Event>)
    requires t == d + last && Shift(es, t) == expected
    ensures Shift([Event(d, c)] + Shift(es, d), last) == [Event(t, c)] + expected
  {
    ShiftAppend([Event(d, c)], Shift(es, d), last);
    ShiftShift(es, d, last);
    ShiftSingle(Event(d, c), last);
  }

  // ---------------------------------------------------------------------------
  // Merging streams (`merge_string`)
  // ---------------------------------------------------------------------------

  /** The events of all streams, stream after stream. */
  function AllEvents(tracks: seq<string>): seq<Event> {
    if |tracks| == 0 then []
    else AllEvents(tracks[..|tracks| - 1]) + Decode(tracks[|tracks| - 1])
  }

  /** The merged stream: all events, stably sorted by tick, written back. */
  function MergeText(tracks: seq<string>): string {
    Encode(SortBy(AllEvents(tracks), TickOf), 0)
  }

  /** Merges encoded streams into one, as `merge_string` does. */
  method MergeString(tracks: seq<string>) returns (merged: string)
    ensures merged == MergeText(tracks)
    ensures Decode(merged) == SortBy(AllEvents(tracks), TickOf)
  {
    var allEvents: seq<Event> := [];
    for k := 0 to |tracks|
      invariant allEvents == AllEvents(tracks[..k])
    {
      var events := ParseTrack(tracks[k]);
      assert tracks[..k + 1][..k] == tracks[..k];
      allEvents := allEvents + events;
    }
    assert tracks[..|tracks|] == tracks;
    allEvents := SortBy(allEvents, TickOf);
    merged := SerializeEvents(allEvents);
    MergeDecodes(tracks);
  }

  lemma AllEventsOfOne(s: string)
    ensures AllEvents([s]) == Decode(s)
  {
    assert [s][..0] == [];
  }

  lemma AllEventsOfTwo(a: string, b: string)
    ensures AllEvents([a, b]) == Decode(a) + Decode(b)
  {
    assert [a, b][..1] == [a];
    AllEventsOfOne(a);
  }

  /**
   * Adding a stream to a merge: the sorted events so far are merged stably with the events
   * of the new stream, which come after the old ones on equal ticks.
   */
  lemma MergeAddsStream(tracks: seq<string>, more: string)
    ensures SortBy(AllEvents(tracks + [more]), TickOf)
         == StableMerge(SortBy(AllEvents(tracks), TickOf), Decode(more), TickOf)
  {
    assert (tracks + [more])[..|tracks|] == tracks;
    SortByAppend(AllEvents(tracks), Decode(more), TickOf);
    DecodeSorted(more);
    SortByOfSorted(Decode(more), TickOf);
  }

  /** Merging two streams interleaves their events by tick, the first stream's first on a tie. */
  lemma MergeTwoStreams(a: string, b: string)
    ensures MergeText([a, b]) == Encode(StableMerge(Decode(a), Decode(b), TickOf), 0)
  {
    assert [a] + [b] == [a, b];
    MergeAddsStream([a], b);
    AllEventsOfOne(a);
    DecodeSorted(a);
    SortByOfSorted(Decode(a), TickOf);
  }

  /** Merging three streams merges the first two, then merges in the third. */
  lemma MergeThreeStreams(a: string, b: string, c: string)
    ensures MergeText([a, b, c]) == Encode(StableMerge(StableMerge(Decode(a), Decode(b), TickOf), Decode(c), TickOf), 0)
  {
    assert [a, b] + [c] == [a, b, c];
    assert [a] + [b] == [a, b];
    MergeAddsStream([a, b], c);
    MergeAddsStream([a], b);
    AllEventsOfOne(a);
    DecodeSorted(a);
    SortByOfSorted(Decode(a), TickOf);
  }

  /** No event of any stream is a digit or a period. */
  lemma {:induction false} AllEventsNoTimeChars(tracks: seq<string>)
    ensures forall i :: 0 <= i < |AllEvents(tracks)| ==> !IsTimeChar(AllEvents(tracks)[i].ch)
  {
    if |tracks| > 0 {
      AllEventsNoTimeChars(tracks[..|tracks| - 1]);
      DecodeNoTimeChars(tracks[|tracks| - 1]);
    }
  }

  /** The merged stream reads back as the stable sort by tick of all input events. */
  lemma MergeDecodes(tracks: seq<string>)
    ensures Decode(MergeText(tracks)) == SortBy(AllEvents(tracks), TickOf)
  {
    var all := AllEvents(tracks);
    var sorted := SortBy(all, TickOf);
    SortBySorted(all, TickOf);
    SortByPermutation(all, TickOf);
    AllEventsNoTimeChars(tracks);
    forall i | 0 <= i < |sorted| ensures !IsTimeChar(sorted[i].ch) {
      assert sorted[i] in multiset(sorted);
      assert sorted[i] in multiset(all);
    }
    EncodeDecodes(sorted, 0);
    assert Shift(Decode(MergeText(tracks)), 0) == Decode(MergeText(tracks));
  }

  /**
   * What a merge keeps: the output reads back sorted by tick, as a permutation of all input
   * events (none lost or duplicated), and the events on any one tick keep their input order,
   * so events of earlier streams come first.
   */
  lemma MergeKeepsEvents(tracks: seq<string>, tick: int)
    ensures SortedBy(Decode(MergeText(tracks)), TickOf)
    ensures multiset(Decode(MergeText(tracks))) == multiset(AllEvents(tracks))
    ensures WithKey(Decode(MergeText(tracks)), TickOf, tick) == WithKey(AllEvents(tracks), TickOf, tick)
  {
    MergeDecodes(tracks);
    SortBySorted(AllEvents(tracks), TickOf);
    SortByPermutation(AllEvents(tracks), TickOf);
    SortByStable(AllEvents(tracks), TickOf, tick);
  }

  /** Streams given later contribute their events after earlier ones on every tick. */
  lemma {:induction false} AllEventsOnTick(tracks: seq<string>, more: string, tick: int)
    ensures WithKey(AllEvents(tracks + [more]), TickOf, tick)
         == WithKey(AllEvents(tracks), TickOf, tick) + WithKey(Decode(more), TickOf, tick)
  {
    assert (tracks + [more])[..|tracks|] == tracks;
    WithKeyAppend(AllEvents(tracks), Decode(more), TickOf, tick);
  }

  /** No streams, or streams of digits and periods only, merge to the empty string. */
  lemma {:induction false} MergeWithoutEvents(tracks: seq<string>)
    requires forall i, j :: 0 <= i < |tracks| && 0 <= j < |tracks[i]| ==> IsTimeChar(tracks[i][j])
    ensures AllEvents(tracks) == []
    ensures MergeText(tracks) == ""
  {
    if |tracks| > 0 {
      assert forall i :: 0 <= i < |tracks| - 1 ==> tracks[..|tracks| - 1][i] == tracks[i];
      MergeWithoutEvents(tracks[..|tracks| - 1]);
      DecodeEmptyIff(tracks[|tracks| - 1]);
    }
  }

  /** Time written after the last event of a stream is dropped by a merge. */
  lemma MergeDropsTrailingTime(s: string, t: string)
    requires forall i :: 0 <= i < |t| ==> IsTimeChar(t[i])
    ensures MergeText([s + t]) == MergeText([s])
  {
    DecodeAppend(s, t);
    DecodeEmptyIff(t);
    AllEventsOfOne(s + t);
    AllEventsOfOne(s);
    assert Shift(Decode(t), TimeWeight(s)) == [];
    assert Decode(s + t) == Decode(s);
  }

  /** Merging one stream re-encodes its own events. */
  lemma MergeSingle(s: string)
    ensures MergeText([s]) == Encode(Decode(s), 0)
  {
    AllEventsOfOne(s);
    DecodeSorted(s);
    SortByOfSorted(Decode(s), TickOf);
  }

  /** A merged stream is canonical: merging it again gives it back. */
  lemma MergeIdempotent(tracks: seq<string>)
    ensures MergeText([MergeText(tracks)]) == MergeText(tracks)
  {
    var m := MergeText(tracks);
    MergeSingle(m);
    MergeDecodes(tracks);
    SortBySorted(AllEvents(tracks), TickOf);
    SortByOfSorted(SortBy(AllEvents(tracks), TickOf), TickOf);
  }

  /** Swapping two streams does not change which events the merge holds. */
  lemma MergeCommutesOnEvents(a: string, b: string)
    ensures multiset(Decode(MergeText([a, b]))) == multiset(Decode(MergeText([b, a])))
  {
    MergeDecodes([a, b]);
    MergeDecodes([b, a]);
    SortByPermutation(AllEvents([a, b]), TickOf);
    SortByPermutation(AllEvents([b, a]), TickOf);
    AllEventsOfTwo(a, b);
    AllEventsOfTwo(b, a);
  }
}
