/** A known checksum, which fixes polynomial, bit order, start value and final complement. */
module ChecksumExample {
  import opened Crc32

  /** The digits of 1000.00000000, whose checksum is one the repository's unit test expects. */
  const THOUSAND := "100000000000"

  lemma {:induction false} BytesTo2()
    ensures ProcessFirst(START, THOUSAND, 2) == 0x5EA2_DA1E
  {
    assert ProcessFirst(START, THOUSAND, 1) == 0x7C23_1048;
  }

  lemma {:induction false} BytesTo4()
    ensures ProcessFirst(START, THOUSAND, 4) == 0x4BD8_5CE8
  {
    BytesTo2();
    assert ProcessFirst(START, THOUSAND, 3) == 0xDC88_AF15;
  }

  lemma {:induction false} BytesTo6()
    ensures ProcessFirst(START, THOUSAND, 6) == 0x0DE5_29BC
  {
    BytesTo4();
    assert ProcessFirst(START, THOUSAND, 5) == 0x8843_82BA;
  }

  lemma {:induction false} BytesTo8()
    ensures ProcessFirst(START, THOUSAND, 8) == 0xF35D_7262
  {
    BytesTo6();
    assert ProcessFirst(START, THOUSAND, 7) == 0xE403_2A22;
  }

  lemma {:induction false} BytesTo10()
    ensures ProcessFirst(START, THOUSAND, 10) == 0x105F_EC37
  {
    BytesTo8();
    assert ProcessFirst(START, THOUSAND, 9) == 0x8596_6DAA;
  }

  lemma {:induction false} BytesTo12()
    ensures ProcessFirst(START, THOUSAND, 12) == 0xC024_1867
  {
    BytesTo10();
    assert ProcessFirst(START, THOUSAND, 11) == 0x9E74_CA4F;
  }

  lemma {:induction false} ChecksumOfThousand()
    ensures Checksum(Process(START, THOUSAND)) == 1071376280
  {
    BytesTo12();
  }

  // ---- The check value of the standard ----

  const ONE_TO_NINE := "123456789"

  lemma {:induction false} CheckByte1()
    ensures ProcessByte(0xFFFF_FFFF, '1') == 0x7C23_1048
  {
    assert Shift(0xFFFF_FFCE, 4) == 0xAFF5_1D84;
  }

  lemma {:induction false} CheckByte2()
    ensures ProcessByte(0x7C23_1048, '2') == 0xB0AC_BB32
  {
    assert Shift(0x7C23_107A, 4) == 0xD114_92EF;
  }

  lemma {:induction false} CheckByte3()
    ensures ProcessByte(0xB0AC_BB32, '3') == 0x77B7_9C2D
  {
    assert Shift(0xB0AC_BB01, 4) == 0x16BD_DBD4;
  }

  lemma {:induction false} CheckByte4()
    ensures ProcessByte(0x77B7_9C2D, '4') == 0x641C_1F5C
  {
    assert Shift(0x77B7_9C19, 4) == 0xF774_EA85;
  }

  lemma {:induction false} CheckByte5()
    ensures ProcessByte(0x641C_1F5C, '5') == 0x340A_C5E3
  {
    assert Shift(0x641C_1F69, 4) == 0xF64E_52B2;
  }

  lemma {:induction false} CheckByte6()
    ensures ProcessByte(0x340A_C5E3, '6') == 0xF68D_2C9E
  {
    assert Shift(0x340A_C5D5, 4) == 0x682B_FDA9;
  }

  lemma {:induction false} CheckByte7()
    ensures ProcessByte(0xF68D_2C9E, '7') == 0xAFFC_9660
  {
    assert Shift(0xF68D_2CA9, 4) == 0xFF67_418E;
  }

  lemma {:induction false} CheckByte8()
    ensures ProcessByte(0xAFFC_9660, '8') == 0x651F_2550
  {
    assert Shift(0xAFFC_9658, 4) == 0xE747_4A45;
  }

  lemma {:induction false} CheckByte9()
    ensures ProcessByte(0x651F_2550, '9') == 0x340B_C6D9
  {
    assert Shift(0x651F_2569, 4) == 0xF65E_6112;
  }

  lemma {:induction false} CheckRegister()
    ensures ProcessFirst(START, ONE_TO_NINE, 9) == 0x340B_C6D9
  {
    CheckByte1();
    NextByte(ONE_TO_NINE, 0);
    CheckByte2();
    NextByte(ONE_TO_NINE, 1);
    CheckByte3();
    NextByte(ONE_TO_NINE, 2);
    CheckByte4();
    NextByte(ONE_TO_NINE, 3);
    CheckByte5();
    NextByte(ONE_TO_NINE, 4);
    CheckByte6();
    NextByte(ONE_TO_NINE, 5);
    CheckByte7();
    NextByte(ONE_TO_NINE, 6);
    CheckByte8();
    NextByte(ONE_TO_NINE, 7);
    CheckByte9();
    NextByte(ONE_TO_NINE, 8);
  }

  /** The digits 1 to 9, of which every implementation of CRC-32 makes this value. */
  lemma {:induction false} CheckValue()
    ensures Checksum(Process(START, "123456789")) == 0xCBF4_3926
  {
    CheckRegister();
  }

  // ---- The digits that a copy of 0.18446744073709551616 feeds, and those of 0.1 ----

  const WRAPPED_DIGITS := "18446744"
  const TENTH_DIGITS := "10000000"

  lemma {:induction false} WrappedByte1()
    ensures ProcessByte(0xFFFF_FFFF, '1') == 0x7C23_1048
  {
    assert Shift(0xFFFF_FFCE, 4) == 0xAFF5_1D84;
  }

  lemma {:induction false} WrappedByte2()
    ensures ProcessByte(0x7C23_1048, '8') == 0x5079_522C
  {
    assert Shift(0x7C23_1070, 4) == 0x07C2_3107;
  }

  lemma {:induction false} WrappedByte3()
    ensures ProcessByte(0x5079_522C, '4') == 0x133C_E104
  {
    assert Shift(0x5079_5218, 4) == 0xE8BF_1601;
  }

  lemma {:induction false} WrappedByte4()
    ensures ProcessByte(0x133C_E104, '4') == 0x26CA_0C4D
  {
    assert Shift(0x133C_E130, 4) == 0x0133_CE13;
  }

  lemma {:induction false} WrappedByte5()
    ensures ProcessByte(0x26CA_0C4D, '6') == 0xC7F1_62B8
  {
    assert Shift(0x26CA_0C7B, 4) == 0xC90D_134B;
  }

  lemma {:induction false} WrappedByte6()
    ensures ProcessByte(0xC7F1_62B8, '7') == 0x7DC0_6FD3
  {
    assert Shift(0xC7F1_628F, 4) == 0xB1C2_E434;
  }

  lemma {:induction false} WrappedByte7()
    ensures ProcessByte(0x7DC0_6FD3, '4') == 0x3E13_B7B4
  {
    assert Shift(0x7DC0_6FE7, 4) == 0x57D9_77C2;
  }

  lemma {:induction false} WrappedByte8()
    ensures ProcessByte(0x3E13_B7B4, '4') == 0xED86_9097
  {
    assert Shift(0x3E13_B780, 4) == 0x03E1_3B78;
  }

  lemma {:induction false} NextByte(text: string, n: nat)
    requires n < |text|
    ensures ProcessFirst(START, text, n + 1) == ProcessByte(ProcessFirst(START, text, n), text[n])
  {
  }

  lemma {:induction false} WrappedTo8()
    ensures ProcessFirst(START, WRAPPED_DIGITS, 8) == 0xED86_9097
  {
    WrappedByte1();
    NextByte(WRAPPED_DIGITS, 0);
    WrappedByte2();
    NextByte(WRAPPED_DIGITS, 1);
    WrappedByte3();
    NextByte(WRAPPED_DIGITS, 2);
    WrappedByte4();
    NextByte(WRAPPED_DIGITS, 3);
    WrappedByte5();
    NextByte(WRAPPED_DIGITS, 4);
    WrappedByte6();
    NextByte(WRAPPED_DIGITS, 5);
    WrappedByte7();
    NextByte(WRAPPED_DIGITS, 6);
    WrappedByte8();
    NextByte(WRAPPED_DIGITS, 7);
  }

  lemma {:induction false} ThousandSplits()
    ensures THOUSAND == TENTH_DIGITS + "0000"
  {
  }

  lemma {:induction false} TenthTo8()
    ensures ProcessFirst(START, TENTH_DIGITS, 8) == 0xF35D_7262
  {
    BytesTo8();
    ThousandSplits();
    ProcessPrefix(START, TENTH_DIGITS, "0000", 8);
  }

  /** Their checksums differ, whatever is fed behind them. */
  lemma {:induction false} WrappedDigitsDiffer(rest: string)
    ensures Checksum(Process(START, WRAPPED_DIGITS + rest)) != Checksum(Process(START, TENTH_DIGITS + rest))
  {
    WrappedTo8();
    TenthTo8();
    ProcessConcat(START, WRAPPED_DIGITS, rest);
    ProcessConcat(START, TENTH_DIGITS, rest);
    ProcessInjective(Process(START, WRAPPED_DIGITS), Process(START, TENTH_DIGITS), rest, |rest|);
    ChecksumInjective(Process(START, WRAPPED_DIGITS + rest), Process(START, TENTH_DIGITS + rest));
  }
}
