/**
  The digest of the message "abc", for which RFC 3174 gives it (section 7.3), worked out from the
  definitions: one number for every word of the schedule, and one for every round.
  */
module SHA1Example {
  import opened SHA1

  /** "abc" */
  const MESSAGE: seq<bv8> := [0x61, 0x62, 0x63]

  // ------------------------------------------------------------------
  // The numbers
  // ------------------------------------------------------------------

  /** The words of the schedule. */
  function W(t: nat): bv32 {
    match t
    case 0 => 0x61626380 case 1 => 0x00000000 case 2 => 0x00000000 case 3 => 0x00000000
    case 4 => 0x00000000 case 5 => 0x00000000 case 6 => 0x00000000 case 7 => 0x00000000
    case 8 => 0x00000000 case 9 => 0x00000000 case 10 => 0x00000000 case 11 => 0x00000000
    case 12 => 0x00000000 case 13 => 0x00000000 case 14 => 0x00000000 case 15 => 0x00000018
    case 16 => 0xC2C4C700 case 17 => 0x00000000 case 18 => 0x00000030 case 19 => 0x85898E01
    case 20 => 0x00000000 case 21 => 0x00000060 case 22 => 0x0B131C03 case 23 => 0x00000030
    case 24 => 0x85898EC1 case 25 => 0x16263806 case 26 => 0x00000000 case 27 => 0x00000180
    case 28 => 0x2C4C700C case 29 => 0x000000F0 case 30 => 0x93AFB507 case 31 => 0x5898E048
    case 32 => 0x8E9A9202 case 33 => 0x00000600 case 34 => 0xB131C0F0 case 35 => 0x16263BC6
    case 36 => 0x4EBED41E case 37 => 0x626380A1 case 38 => 0x16263806 case 39 => 0x000018C0
    case 40 => 0xD2E138C4 case 41 => 0x00000F00 case 42 => 0x3AFB5079 case 43 => 0x898E04E5
    case 44 => 0xE2BA3C2B case 45 => 0x000060C0 case 46 => 0x053A37CD case 47 => 0x74458547
    case 48 => 0xDA9415ED case 49 => 0x26380A16 case 50 => 0x626383A1 case 51 => 0x4EBF54DE
    case 52 => 0x3835B44B case 53 => 0x0000F600 case 54 => 0x1E84C7A3 case 55 => 0x98E04D98
    case 56 => 0x651D16A0 case 57 => 0x62658CA1 case 58 => 0x458544D6 case 59 => 0x44584CB7
    case 60 => 0x7BA06619 case 61 => 0x6380AEA2 case 62 => 0x0AE55269 case 63 => 0x627B49A1
    case 64 => 0x7CD45C9D case 65 => 0x000F0000 case 66 => 0xFB50753A case 67 => 0xEC6765E8
    case 68 => 0xBA3C2BE2 case 69 => 0x0060C000 case 70 => 0x3A37CD05 case 71 => 0x458546F4
    case 72 => 0xB8599DD6 case 73 => 0x380A1A26 case 74 => 0x01E02203 case 75 => 0xE7CC3456
    case 76 => 0xE6E60B69 case 77 => 0x00F60A00 case 78 => 0x5795EF4F case _ => 0x822E0879
  }

  /** The first words of the states, behind five numbers for the initial state. */
  function A(t: nat): bv32 {
    match t
    case 0 => 0x0F4B87C3 case 1 => 0x40C951D8 case 2 => 0x62EB73FA case 3 => 0xEFCDAB89
    case 4 => 0x67452301 case 5 => 0x0116FC33 case 6 => 0x8990536D case 7 => 0xA1390F08
    case 8 => 0xCDD8E11B case 9 => 0xCFD499DE case 10 => 0x3FC7CA40 case 11 => 0x993E30C1
    case 12 => 0x9E8C07D4 case 13 => 0x4B6AE328 case 14 => 0x8351F929 case 15 => 0xFBDA9E89
    case 16 => 0x63188FE4 case 17 => 0x4607B664 case 18 => 0x9128F695 case 19 => 0x196BEE77
    case 20 => 0x20BDD62F case 21 => 0x4E925823 case 22 => 0x82AA6728 case 23 => 0xDC64901D
    case 24 => 0xFD9E1D7D case 25 => 0x1A37B0CA case 26 => 0x33A23BFC case 27 => 0x21283486
    case 28 => 0xD541F12D case 29 => 0xC7567DC6 case 30 => 0x48413BA4 case 31 => 0xBE35FBD5
    case 32 => 0x4AA84D97 case 33 => 0x8370B52E case 34 => 0xC5FBAF5D case 35 => 0x1267B407
    case 36 => 0x3B845D33 case 37 => 0x046FAA0A case 38 => 0x2C0EBC11 case 39 => 0x21796AD4
    case 40 => 0xDCBBB0CB case 41 => 0x0F511FD8 case 42 => 0xDC63973F case 43 => 0x4C986405
    case 44 => 0x32DE1CBA case 45 => 0xFC87DEDF case 46 => 0x970A0D5C case 47 => 0x7F193DC5
    case 48 => 0xEE1B1AAF case 49 => 0x40F28E09 case 50 => 0x1C51E1F2 case 51 => 0xA01B846C
    case 52 => 0xBEAD02CA case 53 => 0xBAF39337 case 54 => 0x120731C5 case 55 => 0x641DB2CE
    case 56 => 0x3847AD66 case 57 => 0xE490436D case 58 => 0x27E9F1D8 case 59 => 0x7B71F76D
    case 60 => 0x5E6456AF case 61 => 0xC846093F case 62 => 0xD262FF50 case 63 => 0x09D785FD
    case 64 => 0x3F52DE5A case 65 => 0xD756C147 case 66 => 0x548C9CB2 case 67 => 0xB66C020B
    case 68 => 0x6B61C9E1 case 69 => 0x19DFA7AC case 70 => 0x101655F9 case 71 => 0x0C3DF2B4
    case 72 => 0x78DD4D2B case 73 => 0x497093C0 case 74 => 0x3F2588C2 case 75 => 0xC199F8C7
    case 76 => 0x39859DE7 case 77 => 0xEDB42DE4 case 78 => 0x11793F6F case 79 => 0x5EE76897
    case 80 => 0x63F7DAB7 case 81 => 0xA079B7D9 case 82 => 0x860D21CC case 83 => 0x5738D5E1
    case _ => 0x42541B35
  }

  function Rol1(x: bv32): bv32 {
    (x << 1) | (x >> 31)
  }

  function Rol5(x: bv32): bv32 {
    (x << 5) | (x >> 27)
  }

  function Rol30(x: bv32): bv32 {
    (x << 30) | (x >> 2)
  }

  lemma {:induction false} Rols(x: bv32)
    ensures Rol(x, 1) == Rol1(x) && Rol(x, 5) == Rol5(x) && Rol(x, 30) == Rol30(x)
  {
  }

  predicate IsWord(t: nat)
    requires t >= 16
  {
    W(t) == Rol1(W(t - 3) ^ W(t - 8) ^ W(t - 14) ^ W(t - 16))
  }

  function Total(x: bv32, f: bv32, e: bv32, k: bv32, word: bv32): bv32 {
    x + f + e + k + word
  }

  lemma {:induction false} TempIs(a: bv32, f: bv32, e: bv32, k: bv32, word: bv32)
    ensures Temp(a, f, e, k, word) == Total(Rol5(a), f, e, k, word)
  {
    hide Rol, Rol5;
    Rols(a);
  }

  predicate IsRound(t: nat) {
    A(t + 5) == Total(Rol5(A(t + 4)), F(t, A(t + 3), Rol30(A(t + 2)), Rol30(A(t + 1))), Rol30(A(t)), K(t), W(t))
  }

  lemma {:induction false} Words16(t: nat)
    requires 16 <= t < 32
    ensures IsWord(t)
  {
    match t
    case 16 => case 17 => case 18 => case 19 => case 20 => case 21 => case 22 => case 23 =>
    case 24 => case 25 => case 26 => case 27 => case 28 => case 29 => case 30 => case 31 =>
    case _ =>
  }

  lemma {:induction false} Words32(t: nat)
    requires 32 <= t < 48
    ensures IsWord(t)
  {
    match t
    case 32 => case 33 => case 34 => case 35 => case 36 => case 37 => case 38 => case 39 =>
    case 40 => case 41 => case 42 => case 43 => case 44 => case 45 => case 46 => case 47 =>
    case _ =>
  }

  lemma {:induction false} Words48(t: nat)
    requires 48 <= t < 64
    ensures IsWord(t)
  {
    match t
    case 48 => case 49 => case 50 => case 51 => case 52 => case 53 => case 54 => case 55 =>
    case 56 => case 57 => case 58 => case 59 => case 60 => case 61 => case 62 => case 63 =>
    case _ =>
  }

  lemma {:induction false} Words64(t: nat)
    requires 64 <= t < 80
    ensures IsWord(t)
  {
    match t
    case 64 => case 65 => case 66 => case 67 => case 68 => case 69 => case 70 => case 71 =>
    case 72 => case 73 => case 74 => case 75 => case 76 => case 77 => case 78 => case 79 =>
    case _ =>
  }

  lemma {:induction false} Rounds0(t: nat)
    requires t < 20
    ensures IsRound(t)
  {
    match t
    case 0 => case 1 => case 2 => case 3 => case 4 => case 5 => case 6 => case 7 => case 8 => case 9 =>
    case 10 => case 11 => case 12 => case 13 => case 14 => case 15 => case 16 => case 17 => case 18 => case 19 =>
    case _ =>
  }

  lemma {:induction false} Rounds20(t: nat)
    requires 20 <= t < 40
    ensures IsRound(t)
  {
    match t
    case 20 => case 21 => case 22 => case 23 => case 24 => case 25 => case 26 => case 27 => case 28 => case 29 =>
    case 30 => case 31 => case 32 => case 33 => case 34 => case 35 => case 36 => case 37 => case 38 => case 39 =>
    case _ =>
  }

  lemma {:induction false} Rounds40(t: nat)
    requires 40 <= t < 60
    ensures IsRound(t)
  {
    match t
    case 40 => case 41 => case 42 => case 43 => case 44 => case 45 => case 46 => case 47 => case 48 => case 49 =>
    case 50 => case 51 => case 52 => case 53 => case 54 => case 55 => case 56 => case 57 => case 58 => case 59 =>
    case _ =>
  }

  lemma {:induction false} Rounds60(t: nat)
    requires 60 <= t < 80
    ensures IsRound(t)
  {
    match t
    case 60 => case 61 => case 62 => case 63 => case 64 => case 65 => case 66 => case 67 => case 68 => case 69 =>
    case 70 => case 71 => case 72 => case 73 => case 74 => case 75 => case 76 => case 77 => case 78 => case 79 =>
    case _ =>
  }

  lemma {:induction false} AreWords(t: nat)
    requires 16 <= t < 80
    ensures IsWord(t)
  {
    hide IsWord;
    if t < 32 {
      Words16(t);
    } else if t < 48 {
      Words32(t);
    } else if t < 64 {
      Words48(t);
    } else {
      Words64(t);
    }
  }

  lemma {:induction false} AreRounds(t: nat)
    requires t < 80
    ensures IsRound(t)
  {
    hide IsRound;
    if t < 20 {
      Rounds0(t);
    } else if t < 40 {
      Rounds20(t);
    } else if t < 60 {
      Rounds40(t);
    } else {
      Rounds60(t);
    }
  }

  // ------------------------------------------------------------------
  // The schedule and the rounds
  // ------------------------------------------------------------------

  ghost predicate IsBlock(block: seq<bv32>) {
    |block| == 16 && forall t :: 0 <= t < 16 ==> block[t] == W(t)
  }

  lemma {:induction false} ScheduleIs(block: seq<bv32>, t: nat)
    requires IsBlock(block) && t < 80
    ensures Schedule(block, t) == W(t)
    decreases t
  {
    hide W, Rol, Rol1;
    if t >= 16 {
      ScheduleIs(block, t - 3);
      ScheduleIs(block, t - 8);
      ScheduleIs(block, t - 14);
      ScheduleIs(block, t - 16);
      AreWords(t);
      Rols(W(t - 3) ^ W(t - 8) ^ W(t - 14) ^ W(t - 16));
    }
  }

  function StateAt(t: nat): State {
    State(A(t + 4), A(t + 3), Rol30(A(t + 2)), Rol30(A(t + 1)), Rol30(A(t)))
  }

  lemma {:induction false} RoundIs(t: nat)
    requires t < 80
    ensures Round(StateAt(t), t, W(t)) == StateAt(t + 1)
  {
    hide W, A, Rol, Rol5, Rol30, F, K, Temp, Total;
    AreRounds(t);
    TempIs(A(t + 4), F(t, A(t + 3), Rol30(A(t + 2)), Rol30(A(t + 1))), Rol30(A(t)), K(t), W(t));
    Rols(A(t + 3));
  }

  lemma {:induction false} InitialIs()
    ensures INITIAL == StateAt(0)
  {
  }

  lemma {:induction false} RoundsAre(block: seq<bv32>, t: nat)
    requires IsBlock(block) && t <= 80
    ensures Rounds(INITIAL, block, t) == StateAt(t)
    decreases t
  {
    hide W, A, StateAt, Round, Schedule;
    if t == 0 {
      InitialIs();
    } else {
      RoundsAre(block, t - 1);
      ScheduleIs(block, t - 1);
      RoundIs(t - 1);
    }
  }

  // ------------------------------------------------------------------
  // The message
  // ------------------------------------------------------------------

  lemma {:induction false} PaddedByte(i: nat)
    requires i < 56
    ensures |Padded(MESSAGE)| == 56
    ensures Padded(MESSAGE)[i] == if i == 0 then 0x61 else if i == 1 then 0x62 else if i == 2 then 0x63 else if i == 3 then 0x80 else 0
  {
  }

  lemma {:induction false} PaddedWord(k: nat)
    requires k < 14
    ensures |Padded(MESSAGE)| == 56 && WordAt(Padded(MESSAGE), k) == W(k)
  {
    hide Padded, Word, W;
    PaddedByte(4 * k);
    PaddedByte(4 * k + 1);
    PaddedByte(4 * k + 2);
    PaddedByte(4 * k + 3);
    FirstWords(k);
  }

  lemma {:induction false} FirstWords(k: nat)
    requires k < 14
    ensures W(k) == if k == 0 then Word(0x61, 0x62, 0x63, 0x80) else Word(0, 0, 0, 0)
  {
  }

  lemma {:induction false} LengthWords(n: nat)
    requires n == 24
    ensures W(14) == 0 && W(15) == ToWord(n)
  {
    hide ToWord;
    SmallWords(n);
  }

  function Small(n: nat): bv32 {
    match n
    case 0 => 0 case 1 => 1 case 2 => 2 case 3 => 3 case 4 => 4 case 5 => 5 case 6 => 6 case 7 => 7
    case 8 => 8 case 9 => 9 case 10 => 10 case 11 => 11 case 12 => 12 case 13 => 13 case 14 => 14 case 15 => 15
    case 16 => 16 case 17 => 17 case 18 => 18 case 19 => 19 case 20 => 20 case 21 => 21 case 22 => 22 case 23 => 23
    case _ => 24
  }

  lemma {:induction false} SmallWords(n: nat)
    requires n <= 24
    ensures ToWord(n) == Small(n)
  {
    hide Small;
    NextSmall(n);
    if n > 0 {
      SmallWords(n - 1);
    }
  }

  lemma {:induction false} NextSmall(n: nat)
    requires n <= 24
    ensures Small(n) == if n == 0 then 0 else Small(n - 1) + 1
  {
    match n
    case 0 => case 1 => case 2 => case 3 => case 4 => case 5 => case 6 => case 7 => case 8 =>
    case 9 => case 10 => case 11 => case 12 => case 13 => case 14 => case 15 => case 16 =>
    case 17 => case 18 => case 19 => case 20 => case 21 => case 22 => case 23 => case 24 =>
    case _ =>
  }

  /** The message, padded, is one block. */
  lemma {:induction false} OnlyBlock()
    ensures IsBlock(Fed(MESSAGE))
  {
    hide Padded, WordAt, W, ToWord;
    PaddedByte(0);
    forall k | 0 <= k < 16 ensures Fed(MESSAGE)[k] == W(k) {
      if k < 14 {
        PaddedWord(k);
      } else {
        LengthWords(8 * |MESSAGE|);
      }
    }
  }

  lemma {:induction false} OneBlock(s: State, block: seq<bv32>)
    requires |block| == 16
    ensures Digest(s, block) == Compress(s, block)
  {
    hide Compress;
    assert block[..16] == block && block[16..] == [];
  }

  lemma {:induction false} SumIs(t: nat)
    requires t == 80
    ensures INITIAL.Plus(StateAt(t)) == State(0xA9993E36, 0x4706816A, 0xBA3E2571, 0x7850C26C, 0x9CD0D89D)
  {
    hide Sum, A, Rol30;
    SumsAre(t);
  }

  lemma {:induction false} SumsAre(t: nat)
    requires t == 80
    ensures Sum(0x67452301, A(t + 4)) == 0xA9993E36 && Sum(0xEFCDAB89, A(t + 3)) == 0x4706816A
    ensures Sum(0x98BADCFE, Rol30(A(t + 2))) == 0xBA3E2571 && Sum(0x10325476, Rol30(A(t + 1))) == 0x7850C26C
    ensures Sum(0xC3D2E1F0, Rol30(A(t))) == 0x9CD0D89D
  {
  }

  /** The digest is the one that the standard gives. */
  lemma {:induction false} DigestOfMessage()
    ensures Digest(INITIAL, Fed(MESSAGE)) == State(0xA9993E36, 0x4706816A, 0xBA3E2571, 0x7850C26C, 0x9CD0D89D)
  {
    hide Digest, Fed, Rounds, StateAt, State.Plus, IsBlock;
    OnlyBlock();
    BlockLength(Fed(MESSAGE));
    OneBlock(INITIAL, Fed(MESSAGE));
    AllRounds(Fed(MESSAGE), 80);
    SumIs(80);
  }

  lemma {:induction false} BlockLength(block: seq<bv32>)
    requires IsBlock(block)
    ensures |block| == 16
  {
  }

  lemma {:induction false} AllRounds(block: seq<bv32>, n: nat)
    requires IsBlock(block) && n == 80
    ensures Compress(INITIAL, block) == INITIAL.Plus(StateAt(80))
  {
    hide Rounds, StateAt, State.Plus, IsBlock;
    RoundsAre(block, n);
  }
}
