/** The fixed values of the unit tests of `utils.rs`, worked out on the model. */
module UtilsExamples {
  import opened Sorting
  import opened Utils

  /** The gap texts pinned by the tests of `tick_to_string`. */
  lemma GapExamples()
    ensures Gap(0) == "" && Gap(1) == "." && Gap(2) == "1" && Gap(3) == "1."
    ensures Gap(4) == "2" && Gap(38) == "991"
  {
  }

  lemma DecodeExampleG()
    ensures Decode("G4I4K") == [Event(0, 'G'), Event(8, 'I'), Event(16, 'K')]
  {
    assert "G4I4K"[..4] == "G4I4" && "G4I4"[..3] == "G4I" && "G4I"[..2] == "G4";
    assert "G4"[..1] == "G" && "G"[..0] == "";
  }

  lemma DecodeExampleShiftedG()
    ensures Decode("2G4I4K") == [Event(4, 'G'), Event(12, 'I'), Event(20, 'K')]
  {
    assert "2G4I4K"[..5] == "2G4I4" && "2G4I4"[..4] == "2G4I" && "2G4I"[..3] == "2G4";
    assert "2G4"[..2] == "2G" && "2G"[..1] == "2" && "2"[..0] == "";
  }

  /** Equal ticks keep input order: the first stream's `G` comes first. */
  lemma MergeExampleTwoStreams()
    ensures MergeText(["G4I4K", "2G4I4K"]) == "G2G2I2I2K2K"
  {
    MergeTwoStreams("G4I4K", "2G4I4K");
    DecodeExampleG();
    DecodeExampleShiftedG();
    TwoStreamsSorted();
    TwoStreamsWritten();
  }

  lemma TwoStreamsSorted()
    ensures StableMerge([Event(0, 'G'), Event(8, 'I'), Event(16, 'K')], [Event(4, 'G'), Event(12, 'I'), Event(20, 'K')], TickOf)
         == [Event(0, 'G'), Event(4, 'G'), Event(8, 'I'), Event(12, 'I'), Event(16, 'K'), Event(20, 'K')]
  {
  }

  /** The sorted events are written as three pairs, one per character. */
  lemma TwoStreamsWritten()
    ensures Encode([Event(0, 'G'), Event(4, 'G'), Event(8, 'I'), Event(12, 'I'), Event(16, 'K'), Event(20, 'K')], 0) == "G2G2I2I2K2K"
  {
    var a, b, c := [Event(0, 'G'), Event(4, 'G')], [Event(8, 'I'), Event(12, 'I')], [Event(16, 'K'), Event(20, 'K')];
    PairWritten(Event(0, 'G'), Event(4, 'G'), 0, "");
    PairWritten(Event(8, 'I'), Event(12, 'I'), 4, "2");
    PairWritten(Event(16, 'K'), Event(20, 'K'), 12, "2");
    EncodeAppend(a + b, c, 0);
    EncodeAppend(a, b, 0);
    TwoStreamsPieces();
  }

  /** Two events four ticks apart, the first `gap` after `last`. */
  lemma PairWritten(x: Event, y: Event, last: nat, gap: string)
    requires y.tick == x.tick + 4 && x.tick >= last && gap == GapBefore(x, last)
    ensures Encode([x, y], last) == gap + [x.ch] + "2" + [y.ch]
  {
    EncodeHead([x, y], last, x, [y]);
    EncodeHead([y], x.tick, y, []);
    assert GapBefore(y, x.tick) == Gap(4) == "2";
  }

  /** The pieces of the written text and of the sorted events, put together. */
  lemma TwoStreamsPieces()
    ensures [Event(0, 'G'), Event(4, 'G')] + [Event(8, 'I'), Event(12, 'I')] + [Event(16, 'K'), Event(20, 'K')]
         == [Event(0, 'G'), Event(4, 'G'), Event(8, 'I'), Event(12, 'I'), Event(16, 'K'), Event(20, 'K')]
    ensures "" + "G" + "2" + "G" + ("2" + "I" + "2" + "I") + ("2" + "K" + "2" + "K") == "G2G2I2I2K2K"
  {
  }

  /** A trailing event on the last tick of the second stream is written last. */
  lemma MergeExampleTrailing()
    ensures MergeText(["G4I4K", "2G4I4KA"]) == "G2G2I2I2K2KA"
  {
    MergeTwoStreams("G4I4K", "2G4I4KA");
    DecodeExampleG();
    DecodeExampleTrailing();
    TrailingSorted();
    TwoStreamsWritten();
    var s := [Event(0, 'G'), Event(4, 'G'), Event(8, 'I'), Event(12, 'I'), Event(16, 'K'), Event(20, 'K')];
    EncodeAppend(s, [Event(20, 'A')], 0);
    TrailingPieces();
  }

  lemma DecodeExampleTrailing()
    ensures Decode("2G4I4KA") == [Event(4, 'G'), Event(12, 'I'), Event(20, 'K'), Event(20, 'A')]
  {
    DecodeExampleShiftedG();
    DecodeAppend("2G4I4K", "A");
    DecodeChar('A');
    TimeWeightShiftedG();
    TrailingDecodePieces();
  }

  lemma TimeWeightShiftedG()
    ensures TimeWeight("2G4I4K") == 20
  {
    assert "2G4I4K"[..5] == "2G4I4" && "2G4I4"[..4] == "2G4I" && "2G4I"[..3] == "2G4";
    assert "2G4"[..2] == "2G" && "2G"[..1] == "2" && "2"[..0] == "";
  }

  lemma TrailingDecodePieces()
    ensures "2G4I4K" + "A" == "2G4I4KA"
    ensures Shift([Event(0, 'A')], 20) == [Event(20, 'A')]
    ensures [Event(4, 'G'), Event(12, 'I'), Event(20, 'K')] + [Event(20, 'A')] == [Event(4, 'G'), Event(12, 'I'), Event(20, 'K'), Event(20, 'A')]
  {
    ShiftSingle(Event(0, 'A'), 20);
  }

  lemma TrailingSorted()
    ensures StableMerge([Event(0, 'G'), Event(8, 'I'), Event(16, 'K')], [Event(4, 'G'), Event(12, 'I'), Event(20, 'K'), Event(20, 'A')], TickOf)
         == [Event(0, 'G'), Event(4, 'G'), Event(8, 'I'), Event(12, 'I'), Event(16, 'K'), Event(20, 'K'), Event(20, 'A')]
  {
  }

  lemma TrailingPieces()
    ensures [Event(0, 'G'), Event(4, 'G'), Event(8, 'I'), Event(12, 'I'), Event(16, 'K'), Event(20, 'K')] + [Event(20, 'A')]
         == [Event(0, 'G'), Event(4, 'G'), Event(8, 'I'), Event(12, 'I'), Event(16, 'K'), Event(20, 'K'), Event(20, 'A')]
    ensures Encode([Event(20, 'A')], 20) == "A"
    ensures "G2G2I2I2K2K" + "A" == "G2G2I2I2K2KA"
  {
  }

  /** Events of all three streams on tick 0 come stream by stream; later ticks follow. */
  lemma MergeExampleThreeStreams()
    ensures MergeText(["AA@.A", "BB1B", "CCC"]) == "AA@BBCCC.A.B"
  {
    MergeThreeStreams("AA@.A", "BB1B", "CCC");
    ThreeStreamsDecoded();
    ThreeStreamsSorted();
    ThreeStreamsWritten();
  }

  lemma ThreeStreamsDecoded()
    ensures Decode("AA@.A") == [Event(0, 'A'), Event(0, 'A'), Event(0, '@'), Event(1, 'A')]
    ensures Decode("BB1B") == [Event(0, 'B'), Event(0, 'B'), Event(2, 'B')]
    ensures Decode("CCC") == [Event(0, 'C'), Event(0, 'C'), Event(0, 'C')]
  {
    DecodedA();
    DecodedB();
    DecodedC();
  }

  lemma DecodedA()
    ensures Decode("AA@.A") == [Event(0, 'A'), Event(0, 'A'), Event(0, '@'), Event(1, 'A')]
  {
    assert "AA@.A"[..4] == "AA@." && "AA@."[..3] == "AA@" && "AA@"[..2] == "AA";
    assert "AA"[..1] == "A" && "A"[..0] == "";
  }

  lemma DecodedB()
    ensures Decode("BB1B") == [Event(0, 'B'), Event(0, 'B'), Event(2, 'B')]
  {
    assert "BB1B"[..3] == "BB1" && "BB1"[..2] == "BB" && "BB"[..1] == "B" && "B"[..0] == "";
  }

  lemma DecodedC()
    ensures Decode("CCC") == [Event(0, 'C'), Event(0, 'C'), Event(0, 'C')]
  {
    assert "CCC"[..2] == "CC" && "CC"[..1] == "C" && "C"[..0] == "";
  }

  lemma ThreeStreamsSorted()
    ensures StableMerge(StableMerge([Event(0, 'A'), Event(0, 'A'), Event(0, '@'), Event(1, 'A')], [Event(0, 'B'), Event(0, 'B'), Event(2, 'B')], TickOf), [Event(0, 'C'), Event(0, 'C'), Event(0, 'C')], TickOf)
         == [Event(0, 'A'), Event(0, 'A'), Event(0, '@'), Event(0, 'B'), Event(0, 'B'), Event(0, 'C'), Event(0, 'C'), Event(0, 'C'), Event(1, 'A'), Event(2, 'B')]
  {
    FirstTwoMerged();
    var run, rest, third := [Event(0, 'A'), Event(0, 'A'), Event(0, '@'), Event(0, 'B'), Event(0, 'B')], [Event(1, 'A'), Event(2, 'B')], [Event(0, 'C'), Event(0, 'C'), Event(0, 'C')];
    MergeLeftRun(run, rest, third, TickOf);
    ThirdMergedTail();
    ThirdMergedPieces();
  }

  lemma FirstTwoMerged()
    ensures StableMerge([Event(0, 'A'), Event(0, 'A'), Event(0, '@'), Event(1, 'A')], [Event(0, 'B'), Event(0, 'B'), Event(2, 'B')], TickOf)
         == [Event(0, 'A'), Event(0, 'A'), Event(0, '@'), Event(0, 'B'), Event(0, 'B'), Event(1, 'A'), Event(2, 'B')]
  {
  }

  lemma ThirdMergedTail()
    ensures StableMerge([Event(1, 'A'), Event(2, 'B')], [Event(0, 'C'), Event(0, 'C'), Event(0, 'C')], TickOf)
         == [Event(0, 'C'), Event(0, 'C'), Event(0, 'C'), Event(1, 'A'), Event(2, 'B')]
  {
  }

  lemma ThirdMergedPieces()
    ensures [Event(0, 'A'), Event(0, 'A'), Event(0, '@'), Event(0, 'B'), Event(0, 'B')] + [Event(1, 'A'), Event(2, 'B')]
         == [Event(0, 'A'), Event(0, 'A'), Event(0, '@'), Event(0, 'B'), Event(0, 'B'), Event(1, 'A'), Event(2, 'B')]
    ensures [Event(0, 'A'), Event(0, 'A'), Event(0, '@'), Event(0, 'B'), Event(0, 'B')] + [Event(0, 'C'), Event(0, 'C'), Event(0, 'C'), Event(1, 'A'), Event(2, 'B')]
         == [Event(0, 'A'), Event(0, 'A'), Event(0, '@'), Event(0, 'B'), Event(0, 'B'), Event(0, 'C'), Event(0, 'C'), Event(0, 'C'), Event(1, 'A'), Event(2, 'B')]
  {
  }

  lemma ThreeStreamsWritten()
    ensures Encode([Event(0, 'A'), Event(0, 'A'), Event(0, '@'), Event(0, 'B'), Event(0, 'B'), Event(0, 'C'), Event(0, 'C'), Event(0, 'C'), Event(1, 'A'), Event(2, 'B')], 0) == "AA@BBCCC.A.B"
  {
    var p, q := [Event(0, 'A'), Event(0, 'A'), Event(0, '@'), Event(0, 'B')], [Event(0, 'B'), Event(0, 'C'), Event(0, 'C'), Event(0, 'C')];
    EncodeAppend(p + q + [Event(1, 'A')], [Event(2, 'B')], 0);
    EncodeAppend(p + q, [Event(1, 'A')], 0);
    EncodeAppend(p, q, 0);
    RunWritten();
    TailWritten();
    ThreeStreamsPieces();
  }

  lemma RunWritten()
    ensures Encode([Event(0, 'A'), Event(0, 'A'), Event(0, '@'), Event(0, 'B')], 0) == "AA@B"
    ensures Encode([Event(0, 'B'), Event(0, 'C'), Event(0, 'C'), Event(0, 'C')], 0) == "BCCC"
  {
  }

  lemma TailWritten()
    ensures Encode([Event(1, 'A')], 0) == ".A" && Encode([Event(2, 'B')], 1) == ".B"
  {
    assert Gap(1) == ".";
  }

  lemma ThreeStreamsPieces()
    ensures [Event(0, 'A'), Event(0, 'A'), Event(0, '@'), Event(0, 'B')] + [Event(0, 'B'), Event(0, 'C'), Event(0, 'C'), Event(0, 'C')] + [Event(1, 'A')] + [Event(2, 'B')]
         == [Event(0, 'A'), Event(0, 'A'), Event(0, '@'), Event(0, 'B'), Event(0, 'B'), Event(0, 'C'), Event(0, 'C'), Event(0, 'C'), Event(1, 'A'), Event(2, 'B')]
    ensures "AA@B" + "BCCC" + ".A" + ".B" == "AA@BBCCC.A.B"
  {
  }
}
