/** Published hash values, which pin the specification as well as the program. */
module XxHashValues {
  import opened Bytes
  import opened Words32
  import opened XxHash
  import opened XxHashMeaning
  import Xxh32

  lemma EmptyInput()
    ensures XxHash32([], 0) == 0x02CC5D05
  {
  }

  /** The 39 characters "Nobody inspects the spammish repetition": two stripes, one word and three bytes. */
  const SENTENCE: seq<bv8> := [
    78, 111, 98, 111, 100, 121, 32, 105, 110, 115, 112, 101, 99,
    116, 115, 32, 116, 104, 101, 32, 115, 112, 97, 109, 109, 105,
    115, 104, 32, 114, 101, 112, 101, 116, 105, 116, 105, 111, 110
  ]

  lemma Lane0()
    ensures Lane(SENTENCE, 0) == 0x6F626F4E
  {
    assert SENTENCE[0] == 78 && SENTENCE[1] == 111 && SENTENCE[2] == 98 && SENTENCE[3] == 111;
  }

  lemma Lane1()
    ensures Lane(SENTENCE, 4) == 0x69207964
  {
    assert SENTENCE[4] == 100 && SENTENCE[5] == 121 && SENTENCE[6] == 32 && SENTENCE[7] == 105;
  }

  lemma Lane2()
    ensures Lane(SENTENCE, 8) == 0x6570736E
  {
    assert SENTENCE[8] == 110 && SENTENCE[9] == 115 && SENTENCE[10] == 112 && SENTENCE[11] == 101;
  }

  lemma Lane3()
    ensures Lane(SENTENCE, 12) == 0x20737463
  {
    assert SENTENCE[12] == 99 && SENTENCE[13] == 116 && SENTENCE[14] == 115 && SENTENCE[15] == 32;
  }

  lemma Lane4()
    ensures Lane(SENTENCE, 16) == 0x20656874
  {
    assert SENTENCE[16] == 116 && SENTENCE[17] == 104 && SENTENCE[18] == 101 && SENTENCE[19] == 32;
  }

  lemma Lane5()
    ensures Lane(SENTENCE, 20) == 0x6D617073
  {
    assert SENTENCE[20] == 115 && SENTENCE[21] == 112 && SENTENCE[22] == 97 && SENTENCE[23] == 109;
  }

  lemma Lane6()
    ensures Lane(SENTENCE, 24) == 0x6873696D
  {
    assert SENTENCE[24] == 109 && SENTENCE[25] == 105 && SENTENCE[26] == 115 && SENTENCE[27] == 104;
  }

  lemma Lane7()
    ensures Lane(SENTENCE, 28) == 0x70657220
  {
    assert SENTENCE[28] == 32 && SENTENCE[29] == 114 && SENTENCE[30] == 101 && SENTENCE[31] == 112;
  }

  lemma Lane8()
    ensures Lane(SENTENCE, 32) == 0x74697465
  {
    assert SENTENCE[32] == 101 && SENTENCE[33] == 116 && SENTENCE[34] == 105 && SENTENCE[35] == 116;
  }

  lemma Starts()
    ensures Init(0, 0) == 0x24234428 && Init(0, 1) == 0x85EBCA77 && Init(0, 2) == 0 && Init(0, 3) == 0x61C8864F
  {
  }

  lemma FirstRounds()
    ensures Round(0x24234428, 0x6F626F4E) == 0x046A700A
    ensures Round(0x85EBCA77, 0x69207964) == 0xBFADF8E3
    ensures Round(0x00000000, 0x6570736E) == 0x5B32B4AA
    ensures Round(0x61C8864F, 0x20737463) == 0x137E5555
  {
  }

  lemma SecondRounds()
    ensures Round(0x046A700A, 0x20656874) == 0x719A836E
    ensures Round(0xBFADF8E3, 0x6D617073) == 0x514C1DE8
    ensures Round(0x5B32B4AA, 0x6873696D) == 0x97FA4BA2
    ensures Round(0x137E5555, 0x70657220) == 0x242A97A2
  {
  }

  lemma TwoRounds(lane: nat)
    requires lane < 4
    ensures Acc(SENTENCE, 0, lane, 2)
            == Round(Round(Init(0, lane), Lane(SENTENCE, 4 * lane)), Lane(SENTENCE, 16 + 4 * lane))
  {
    hide Acc, Round, Lane, Init, SENTENCE;
    SentenceLength();
    AccSteps(SENTENCE, lane);
  }

  lemma SentenceLength()
    ensures |SENTENCE| == 39
  {
  }

  lemma AccStep(input: seq<bv8>, lane: nat, n: nat)
    requires lane < 4 && 0 < n && 16 * n <= |input|
    ensures Acc(input, 0, lane, n) == Round(Acc(input, 0, lane, n - 1), Lane(input, Offset(n - 1, lane)))
  {
    hide Round, Lane, Init, Offset;
  }

  lemma AccStart(input: seq<bv8>, lane: nat)
    requires lane < 4
    ensures Acc(input, 0, lane, 0) == Init(0, lane)
  {
    hide Init;
  }

  lemma AccSteps(input: seq<bv8>, lane: nat)
    requires lane < 4 && |input| >= 32
    ensures Acc(input, 0, lane, 2) == Round(Round(Init(0, lane), Lane(input, 4 * lane)), Lane(input, 16 + 4 * lane))
  {
    hide Acc, Round, Lane, Init;
    AccStart(input, lane);
    AccStep(input, lane, 1);
    AccStep(input, lane, 2);
  }

  lemma Accumulated()
    ensures Acc(SENTENCE, 0, 0, 2) == 0x719A836E && Acc(SENTENCE, 0, 1, 2) == 0x514C1DE8
    ensures Acc(SENTENCE, 0, 2, 2) == 0x97FA4BA2 && Acc(SENTENCE, 0, 3, 2) == 0x242A97A2
  {
    hide Round, Lane, Init, Acc;
    Starts();
    Lane0();
    Lane1();
    Lane2();
    Lane3();
    Lane4();
    Lane5();
    Lane6();
    Lane7();
    FirstRounds();
    SecondRounds();
    TwoRounds(0);
    TwoRounds(1);
    TwoRounds(2);
    TwoRounds(3);
  }

  lemma Merged()
    ensures Merge(0x719A836E, 0x514C1DE8, 0x97FA4BA2, 0x242A97A2) == 0x8C86B52D
    ensures Plus(0x8C86B52D, 39) == 0x8C86B554 && WordStep(0x8C86B554, 0x74697465) == 0x09B51544
  {
  }

  lemma LastBytes()
    ensures ByteStep(0x09B51544, 105) == 0xCDEFD3C9
    ensures ByteStep(0xCDEFD3C9, 111) == 0x3852087B
    ensures ByteStep(0x3852087B, 110) == 0xB3A7011B
    ensures Avalanche(0xB3A7011B) == 0xE2293B2F
  {
  }

  lemma WordStepAt(h: bv32)
    ensures |SENTENCE| == 39 && Words(h, SENTENCE, 32, 1) == WordStep(h, Lane(SENTENCE, 32))
  {
    hide WordStep, Lane;
    SentenceLength();
    assert Words(h, SENTENCE, 32, 0) == h;
  }

  lemma TailSteps(h: bv32)
    ensures |SENTENCE| == 39
    ensures Tail(h, SENTENCE, 36, 3)
            == ByteStep(ByteStep(ByteStep(h, SENTENCE[36]), SENTENCE[37]), SENTENCE[38])
  {
    hide ByteStep, SENTENCE;
    SentenceLength();
    TailStep(h, SENTENCE, 36, 1);
    TailStep(h, SENTENCE, 36, 2);
    TailStep(h, SENTENCE, 36, 3);
  }

  lemma TailStep(h: bv32, input: seq<bv8>, from: nat, n: nat)
    requires 0 < n && from + n <= |input|
    ensures Tail(h, input, from, 0) == h
    ensures Tail(h, input, from, n) == ByteStep(Tail(h, input, from, n - 1), input[from + n - 1])
  {
    hide ByteStep;
  }

  lemma LastCharacters()
    ensures |SENTENCE| == 39 && SENTENCE[36] == 105 && SENTENCE[37] == 111 && SENTENCE[38] == 110
  {
  }

  lemma SentenceParts()
    ensures |SENTENCE| == 39 && StripeEnd(39) == 32 && WordCount(39) == 1
    ensures Length32(SENTENCE) == 39
  {
    SentenceLength();
  }

  lemma ReferenceSteps()
    ensures |SENTENCE| == 39
    ensures Reference(SENTENCE, 0)
            == Avalanche(Tail(Words(Plus(Converged(SENTENCE, 0), 39), SENTENCE, 32, 1), SENTENCE, 36, 3))
  {
    hide Acc, Converged, Merge, Lane, Plus, Words, Tail, Avalanche, SENTENCE, Length32, StripeEnd, WordCount;
    SentenceParts();
  }

  lemma ConvergedSteps()
    ensures |SENTENCE| == 39
    ensures Converged(SENTENCE, 0)
            == Merge(Acc(SENTENCE, 0, 0, 2), Acc(SENTENCE, 0, 1, 2), Acc(SENTENCE, 0, 2, 2), Acc(SENTENCE, 0, 3, 2))
  {
    hide Acc, Merge, SENTENCE;
    SentenceLength();
  }

  lemma Sentence()
    ensures XxHash32(SENTENCE, 0) == 0xE2293B2F
  {
    hide Acc, Converged, Merge, Lane, Plus, WordStep, ByteStep, Words, Tail, Avalanche, XxHash32, Reference, SENTENCE;
    LastCharacters();
    RefinesReference(SENTENCE, 0);
    ReferenceSteps();
    ConvergedSteps();
    Accumulated();
    Merged();
    WordStepAt(0x8C86B554);
    Lane8();
    TailSteps(0x09B51544);
    LastBytes();
  }

  /** The specification says so too. */
  lemma PublishedValues()
    ensures Xxh32.Hash([], 0) == 0x02CC5D05
    ensures Xxh32.Hash(Numbers(SENTENCE), 0) == 0xE2293B2F
  {
    EmptyInput();
    HashMeaning([], 0);
    assert Numbers([]) == [];
    Sentence();
    HashMeaning(SENTENCE, 0);
  }
}
