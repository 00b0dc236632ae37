/**
 The punch-card cipher: a fixed map from the numeric value (`to_ulong`) of a
 12-bit column pattern to the character that column encodes, built once by
 the decoder's constructor in two nested-loop passes.

 Row layout of a pattern: bit 0 is the 12-zone, bit 1 the 11-zone, bit 2 the
 0-zone, and bits 3..11 are the digit punches 1..9 (so bit 10 is the 8 punch).
 The layout is close to, but not the same as, the IBM 029 card code: several
 special characters differ, and this model follows the program.

 Each pass visits its slots in a fixed order. A slot of the first pass is a
 (zone, row) pair, a slot of the second a (zone, inner counter) pair; the
 functions below give each slot's pattern and character in closed form, and
 `AlnumBefore`/`PunctBefore` give the table after every slot before a given
 loop state has been filled.
 */
module Cipher {
  import opened Containers
  import opened Bitset

  /** The constants of the decoder class. */
  const FirstRows: nat := 3
  const NumberOfRows: nat := 12
  const Row2: nat := 4

  /** Pattern value to character. */
  type Table = map<nat, char>

  /** The 28 characters of the punctuation pass, in assignment order. */
  const FillMap: seq<char> :=
    [ '\0', ':', '#', '@', '\'', '=', '"', '&', '[', '.', '<', '(', '+', '!',
      '-', ']', '$', '*', ')', ';', '^', '0', '\\', ',', '%', '_', '>', '?' ]

  /** `map::operator[]` read on the cipher: a pattern without an entry reads
      as the default character '\0'. */
  function Lookup(t: Table, k: nat): char
  {
    if k in t then t[k] else '\0'
  }

  /** Weight of the zone punch chosen by outer counter `zone`: none for 0,
      otherwise bit `zone - 1`. */
  function ZoneValue(zone: nat): nat
    requires zone <= FirstRows
  {
    if zone == 0 then 0 else Weights[zone - 1]
  }

  // ---------------------------------------------------------------------
  // Letter/digit pass: zone counter 0..3 outer, row counter 3..11 inner.

  predicate AlnumSlot(zone: nat, row: nat)
  {
    zone <= FirstRows && FirstRows <= row < NumberOfRows
  }

  /** Loop states: a slot, the inner loop's exit (row 12), or the outer
      loop's exit (4, 3). */
  predicate AlnumState(zone: nat, row: nat)
  {
    || (zone <= FirstRows && FirstRows <= row <= NumberOfRows)
    || (zone == FirstRows + 1 && row == FirstRows)
  }

  /** Number of slots visited before (zone, row). */
  function AlnumPos(zone: nat, row: nat): nat
    requires FirstRows <= row
  {
    (NumberOfRows - FirstRows) * zone + (row - FirstRows)
  }

  /** Position of the '/' slot: the 0-zone with the 1 punch. */
  const SlashPos: nat := 27

  /** The `n`-th character of the sequence '1'..'9', 'A'..'Z', '['. */
  function LetterAt(n: nat): char
    requires n <= 35
  {
    if n < 9 then ('1' as int + n) as char else ('A' as int + (n - 9)) as char
  }

  /** Letters consumed before position `p`: the '/' slot consumes none. */
  function Consumed(p: nat): nat
  {
    if p > SlashPos then p - 1 else p
  }

  /** Pattern of a first-pass slot: its zone bit (if any) and its row bit. */
  function AlnumKey(zone: nat, row: nat): nat
    requires AlnumSlot(zone, row)
  {
    ZoneValue(zone) + Weights[row]
  }

  /** Character of a first-pass slot. */
  function AlnumChar(zone: nat, row: nat): char
    requires AlnumSlot(zone, row)
  {
    if zone == FirstRows && row == FirstRows then '/' else LetterAt(Consumed(AlnumPos(zone, row)))
  }

  /** The table once the first pass has filled every slot before (zone, row). */
  function AlnumBefore(zone: nat, row: nat): Table
    requires AlnumState(zone, row)
    decreases zone, row
  {
    if row == FirstRows then
      (if zone == 0 then map[] else AlnumBefore(zone - 1, NumberOfRows))
    else
      AlnumBefore(zone, row - 1)[AlnumKey(zone, row - 1) := AlnumChar(zone, row - 1)]
  }

  // ---------------------------------------------------------------------
  // Punctuation pass: zone counter 0..3 outer; the inner counter visits 0,
  // is then set to 3 and so continues with 4..9, and exits at 10.

  predicate PunctSlot(zone: nat, c2: nat)
  {
    zone <= FirstRows && (c2 == 0 || Row2 <= c2 < NumberOfRows - 2)
  }

  predicate PunctState(zone: nat, c2: nat)
  {
    || (zone <= FirstRows && (c2 == 0 || Row2 <= c2 <= NumberOfRows - 2))
    || (zone == FirstRows + 1 && c2 == 0)
  }

  /** Number of slots visited before (zone, c2): the program's index into
      `FillMap`. */
  function PunctPos(zone: nat, c2: nat): nat
    requires PunctState(zone, c2)
  {
    7 * zone + (if c2 == 0 then 0 else c2 - (Row2 - 1))
  }

  /** Pattern of a second-pass slot: the zone alone when the inner counter
      is 0, otherwise the zone, the inner counter's row and the 8 punch. */
  function PunctKey(zone: nat, c2: nat): nat
    requires PunctSlot(zone, c2)
  {
    if c2 == 0 then ZoneValue(zone)
    else ZoneValue(zone) + Weights[c2] + Weights[NumberOfRows - 2]
  }

  /** The inner counter value visited just before `c2` (which is not 0). */
  function PrevInner(c2: nat): nat
    requires Row2 <= c2
  {
    if c2 == Row2 then 0 else c2 - 1
  }

  /** The table once the second pass, run on the first pass's table, has
      filled every slot before (zone, c2). */
  function PunctBefore(zone: nat, c2: nat): Table
    requires PunctState(zone, c2)
    decreases zone, c2
  {
    if c2 == 0 then
      (if zone == 0 then AlnumBefore(FirstRows + 1, FirstRows) else PunctBefore(zone - 1, NumberOfRows - 2))
    else
      PunctBefore(zone, PrevInner(c2))[PunctKey(zone, PrevInner(c2)) := FillMap[PunctPos(zone, PrevInner(c2))]]
  }

  /** The whole cipher: every slot of both passes filled. */
  const CipherTable: Table := PunctBefore(FirstRows + 1, 0)

  // ---------------------------------------------------------------------
  // Key arithmetic: a key is its zone value (below 8) plus 8 times a
  // "digit part"; the two passes use disjoint digit parts.

  lemma ZoneValueFacts(z1: nat, z2: nat)
    requires z1 <= FirstRows && z2 <= FirstRows
    ensures ZoneValue(z1) < 8
    ensures z1 < z2 ==> ZoneValue(z1) < ZoneValue(z2)
  {
    if 0 < z1 < 3 { WeightsIncreasing(z1 - 1, 2); }
    if 0 < z1 < z2 { WeightsIncreasing(z1 - 1, z2 - 1); }
  }

  lemma AlnumKeySplit(zone: nat, row: nat)
    requires AlnumSlot(zone, row)
    ensures AlnumKey(zone, row) % 8 == ZoneValue(zone)
    ensures AlnumKey(zone, row) / 8 == Weights[row - FirstRows]
  {
    WeightShift(row);
    ZoneValueFacts(zone, 0);
  }

  /** Digit part of a second-pass pattern. */
  function PunctDigit(c2: nat): nat
    requires c2 == 0 || Row2 <= c2 < NumberOfRows - 2
  {
    if c2 == 0 then 0 else Weights[c2 - FirstRows] + 128
  }

  lemma PunctKeySplit(zone: nat, c2: nat)
    requires PunctSlot(zone, c2)
    ensures PunctKey(zone, c2) % 8 == ZoneValue(zone)
    ensures PunctKey(zone, c2) / 8 == PunctDigit(c2)
  {
    ZoneValueFacts(zone, 0);
    if c2 != 0 {
      WeightShift(c2);
      WeightShift(NumberOfRows - 2);
    }
  }

  /** Distinct first-pass slots punch distinct patterns. */
  lemma AlnumKeysDistinct(z1: nat, r1: nat, z2: nat, r2: nat)
    requires AlnumSlot(z1, r1) && AlnumSlot(z2, r2) && (z1, r1) != (z2, r2)
    ensures AlnumKey(z1, r1) != AlnumKey(z2, r2)
  {
    AlnumKeySplit(z1, r1);
    AlnumKeySplit(z2, r2);
    ZoneValueFacts(z1, z2);
    ZoneValueFacts(z2, z1);
    if r1 < r2 { WeightsIncreasing(r1 - FirstRows, r2 - FirstRows); }
    if r2 < r1 { WeightsIncreasing(r2 - FirstRows, r1 - FirstRows); }
  }

  /** Distinct second-pass slots punch distinct patterns. */
  lemma PunctKeysDistinct(z1: nat, c1: nat, z2: nat, c2: nat)
    requires PunctSlot(z1, c1) && PunctSlot(z2, c2) && (z1, c1) != (z2, c2)
    ensures PunctKey(z1, c1) != PunctKey(z2, c2)
  {
    PunctKeySplit(z1, c1);
    PunctKeySplit(z2, c2);
    ZoneValueFacts(z1, z2);
    ZoneValueFacts(z2, z1);
    if 0 < c1 < c2 { WeightsIncreasing(c1 - FirstRows, c2 - FirstRows); }
    if 0 < c2 < c1 { WeightsIncreasing(c2 - FirstRows, c1 - FirstRows); }
  }

  /** No first-pass pattern is a second-pass pattern: the first has exactly
      one digit punch, the second none or two. */
  lemma PassKeysDisjoint(z1: nat, r1: nat, z2: nat, c2: nat)
    requires AlnumSlot(z1, r1) && PunctSlot(z2, c2)
    ensures AlnumKey(z1, r1) != PunctKey(z2, c2)
  {
    AlnumKeySplit(z1, r1);
    PunctKeySplit(z2, c2);
    var i := r1 - FirstRows;
    if i < 7 { WeightsIncreasing(i, 7); }
    if i == 7 || i == 8 { WeightsIncreasing(6, i); }
    if c2 != 0 {
      WeightsIncreasing(c2 - FirstRows, 7);
      if i == 0 { WeightsIncreasing(0, c2 - FirstRows); }
    }
  }

  // ---------------------------------------------------------------------
  // Every slot's pattern is new when it is inserted.

  /** A first-pass slot not yet visited has no entry in the table. */
  lemma {:induction false} AlnumFresh(zone: nat, row: nat, z: nat, r: nat)
    requires AlnumState(zone, row) && AlnumSlot(z, r)
    requires AlnumPos(zone, row) <= AlnumPos(z, r)
    ensures AlnumKey(z, r) !in AlnumBefore(zone, row)
    decreases zone, row
  {
    if row == FirstRows {
      if zone > 0 {
        AlnumFresh(zone - 1, NumberOfRows, z, r);
      }
    } else {
      AlnumFresh(zone, row - 1, z, r);
      AlnumKeysDistinct(zone, row - 1, z, r);
    }
  }

  /** No second-pass pattern is in the first pass's table. */
  lemma {:induction false} PunctNotInAlnum(zone: nat, row: nat, z: nat, c: nat)
    requires AlnumState(zone, row) && PunctSlot(z, c)
    ensures PunctKey(z, c) !in AlnumBefore(zone, row)
    decreases zone, row
  {
    if row == FirstRows {
      if zone > 0 {
        PunctNotInAlnum(zone - 1, NumberOfRows, z, c);
      }
    } else {
      PunctNotInAlnum(zone, row - 1, z, c);
      PassKeysDisjoint(zone, row - 1, z, c);
    }
  }

  /** A second-pass slot not yet visited has no entry in the table. */
  lemma {:induction false} PunctFresh(zone: nat, c2: nat, z: nat, c: nat)
    requires PunctState(zone, c2) && PunctSlot(z, c)
    requires PunctPos(zone, c2) <= PunctPos(z, c)
    ensures PunctKey(z, c) !in PunctBefore(zone, c2)
    decreases zone, c2
  {
    if c2 == 0 {
      if zone == 0 {
        PunctNotInAlnum(FirstRows + 1, FirstRows, z, c);
      } else {
        PunctFresh(zone - 1, NumberOfRows - 2, z, c);
      }
    } else {
      PunctFresh(zone, PrevInner(c2), z, c);
      PunctKeysDistinct(zone, PrevInner(c2), z, c);
    }
  }

  // ---------------------------------------------------------------------
  // The constructor.

  /** The bit set after `reset()` and the zone punch of outer counter
      `zone`. */
  function ZoneBits(zone: nat): (b: seq<bool>)
    requires zone <= FirstRows
    ensures |b| == Width
  {
    if zone > 0 then SetBit(Reset(), zone - 1) else Reset()
  }

  lemma ZoneBitsValue(zone: nat)
    requires zone <= FirstRows
    ensures ToULong(ZoneBits(zone)) == ZoneValue(zone)
    ensures forall i :: FirstRows <= i < Width ==> !ZoneBits(zone)[i]
  {
    ToULongNone(Reset());
    if zone > 0 {
      SetBitAdds(Reset(), zone - 1);
      WeightIsPow2(zone - 1);
    }
  }

  /** The bit set the first pass builds for a slot has the slot's key. */
  lemma AlnumPattern(zone: nat, row: nat)
    requires AlnumSlot(zone, row)
    ensures ToULong(SetBit(ZoneBits(zone), row)) == AlnumKey(zone, row)
  {
    ZoneBitsValue(zone);
    SetBitAdds(ZoneBits(zone), row);
    WeightIsPow2(row);
  }

  /** The bit set the second pass builds for a slot with a row punch has
      the slot's key. */
  lemma PunctPattern(zone: nat, c2: nat)
    requires PunctSlot(zone, c2) && c2 != 0
    ensures ToULong(SetBit(SetBit(ZoneBits(zone), c2), NumberOfRows - 2)) == PunctKey(zone, c2)
  {
    ZoneBitsValue(zone);
    SetBitAdds(ZoneBits(zone), c2);
    SetBitAdds(SetBit(ZoneBits(zone), c2), NumberOfRows - 2);
    WeightIsPow2(c2);
    WeightIsPow2(NumberOfRows - 2);
  }

  /** One step of the first pass: inserting the slot's pattern. */
  lemma AlnumStep(zone: nat, row: nat, c: char)
    requires AlnumSlot(zone, row) && c == AlnumChar(zone, row)
    ensures AlnumKey(zone, row) !in AlnumBefore(zone, row)
    ensures Emplace(AlnumBefore(zone, row), AlnumKey(zone, row), c) == AlnumBefore(zone, row + 1)
  {
    AlnumFresh(zone, row, zone, row);
  }

  /** One step of the second pass. */
  lemma PunctStep(zone: nat, c2: nat, next: nat)
    requires PunctSlot(zone, c2) && next == (if c2 == 0 then Row2 else c2 + 1)
    ensures PunctState(zone, next) && PunctPos(zone, next) == PunctPos(zone, c2) + 1
    ensures PunctKey(zone, c2) !in PunctBefore(zone, c2)
    ensures Emplace(PunctBefore(zone, c2), PunctKey(zone, c2), FillMap[PunctPos(zone, c2)])
            == PunctBefore(zone, next)
  {
    PunctFresh(zone, c2, zone, c2);
    assert PrevInner(next) == c2;
  }

  /** The counter that follows letter `l`: '9' is followed by 'A'. */
  function NextLetter(l: char): char
    requires '1' <= l <= 'Z'
  {
    if l == '9' then 'A' else (l as int + 1) as char
  }

  lemma LetterStep(zone: nat, row: nat)
    requires AlnumSlot(zone, row) && !(zone == FirstRows && row == FirstRows)
    ensures '1' <= LetterAt(Consumed(AlnumPos(zone, row))) <= 'Z'
    ensures NextLetter(LetterAt(Consumed(AlnumPos(zone, row)))) == LetterAt(Consumed(AlnumPos(zone, row) + 1))
  {
  }

  /** The constructor of the decoder: the letter/digit pass, then the
      punctuation pass, both inserting with `emplace`. */
  method BuildCipher() returns (cipher: Table)
    ensures cipher == CipherTable
  {
    cipher := LetterDigitPass();
    cipher := PunctuationPass(cipher);
  }

  method LetterDigitPass() returns (cipher: Table)
    ensures cipher == AlnumBefore(FirstRows + 1, FirstRows)
  {
    cipher := map[];
    var letter := '1';
    for count1 := 0 to FirstRows + 1
      invariant cipher == AlnumBefore(count1, FirstRows)
      invariant letter == LetterAt(Consumed(AlnumPos(count1, FirstRows)))
    {
      cipher, letter := LetterDigitZone(count1, cipher, letter);
    }
  }

  /** The inner loop of the first pass, for zone counter `count1`. */
  method LetterDigitZone(count1: nat, start: Table, first: char) returns (cipher: Table, letter: char)
    requires count1 <= FirstRows
    requires start == AlnumBefore(count1, FirstRows)
    requires first == LetterAt(Consumed(AlnumPos(count1, FirstRows)))
    ensures cipher == AlnumBefore(count1 + 1, FirstRows)
    ensures letter == LetterAt(Consumed(AlnumPos(count1 + 1, FirstRows)))
  {
    cipher, letter := start, first;
    for count2 := FirstRows to NumberOfRows
      invariant cipher == AlnumBefore(count1, count2)
      invariant letter == LetterAt(Consumed(AlnumPos(count1, count2)))
    {
      var bits := ZoneBits(count1);
      bits := SetBit(bits, count2);
      AlnumPattern(count1, count2);
      if count1 == FirstRows && count2 == FirstRows {
        AlnumStep(count1, count2, '/');
        cipher := Emplace(cipher, ToULong(bits), '/');
        continue;
      }
      AlnumStep(count1, count2, letter);
      cipher := Emplace(cipher, ToULong(bits), letter);
      LetterStep(count1, count2);
      letter := NextLetter(letter);
    }
  }

  method PunctuationPass(first: Table) returns (cipher: Table)
    requires first == AlnumBefore(FirstRows + 1, FirstRows)
    ensures cipher == CipherTable
  {
    cipher := first;
    var vectorIndex := 0;
    for count1 := 0 to FirstRows + 1
      invariant cipher == PunctBefore(count1, 0)
      invariant vectorIndex == PunctPos(count1, 0)
    {
      var count2 := 0;
      while count2 < NumberOfRows - 2
        invariant PunctState(count1, count2) && count1 <= FirstRows
        invariant cipher == PunctBefore(count1, count2)
        invariant vectorIndex == PunctPos(count1, count2)
        decreases NumberOfRows - 2 - count2
      {
        var bits := ZoneBits(count1);
        ghost var next := if count2 == 0 then Row2 else count2 + 1;
        PunctStep(count1, count2, next);
        if count2 == 0 {
          ZoneBitsValue(count1);
          cipher := Emplace(cipher, ToULong(bits), FillMap[vectorIndex]);
          count2 := Row2 - 1;
        } else {
          bits := SetBit(bits, count2);
          bits := SetBit(bits, NumberOfRows - 2);
          PunctPattern(count1, count2);
          cipher := Emplace(cipher, ToULong(bits), FillMap[vectorIndex]);
        }
        vectorIndex := vectorIndex + 1;
        count2 := count2 + 1;
      }
    }
  }

  // ---------------------------------------------------------------------
  // What the finished table holds.

  /** A first-pass slot, once filled, keeps its character. */
  lemma {:induction false} AlnumKept(zone: nat, row: nat, z: nat, r: nat)
    requires AlnumState(zone, row) && AlnumSlot(z, r)
    requires AlnumPos(z, r) < AlnumPos(zone, row)
    ensures AlnumKey(z, r) in AlnumBefore(zone, row)
    ensures AlnumBefore(zone, row)[AlnumKey(z, r)] == AlnumChar(z, r)
    decreases zone, row
  {
    if row == FirstRows {
      AlnumKept(zone - 1, NumberOfRows, z, r);
    } else if (z, r) != (zone, row - 1) {
      AlnumKept(zone, row - 1, z, r);
      AlnumKeysDistinct(zone, row - 1, z, r);
    }
  }

  /** After the first pass every first-pass slot is filled. */
  lemma AlnumComplete(z: nat, r: nat)
    requires AlnumSlot(z, r)
    ensures AlnumKey(z, r) in AlnumBefore(FirstRows + 1, FirstRows)
    ensures AlnumBefore(FirstRows + 1, FirstRows)[AlnumKey(z, r)] == AlnumChar(z, r)
  {
    AlnumKept(FirstRows + 1, FirstRows, z, r);
  }

  /** The second pass starts from the first pass's table. */
  lemma AlnumAtPunctStart(z: nat, r: nat)
    requires AlnumSlot(z, r)
    ensures AlnumKey(z, r) in PunctBefore(0, 0)
    ensures PunctBefore(0, 0)[AlnumKey(z, r)] == AlnumChar(z, r)
  {
    AlnumComplete(z, r);
  }

  /** One second-pass insertion leaves a first-pass entry alone. */
  lemma AlnumSurvivesStep(zone: nat, c2: nat, z: nat, r: nat)
    requires PunctState(zone, c2) && AlnumSlot(z, r) && c2 != 0
    requires AlnumKey(z, r) in PunctBefore(zone, PrevInner(c2))
    requires PunctBefore(zone, PrevInner(c2))[AlnumKey(z, r)] == AlnumChar(z, r)
    ensures AlnumKey(z, r) in PunctBefore(zone, c2)
    ensures PunctBefore(zone, c2)[AlnumKey(z, r)] == AlnumChar(z, r)
  {
    PassKeysDisjoint(z, r, zone, PrevInner(c2));
  }

  /** The second pass keeps every first-pass entry. */
  lemma {:induction false} AlnumSurvives(zone: nat, c2: nat, z: nat, r: nat)
    requires PunctState(zone, c2) && AlnumSlot(z, r)
    ensures AlnumKey(z, r) in PunctBefore(zone, c2)
    ensures PunctBefore(zone, c2)[AlnumKey(z, r)] == AlnumChar(z, r)
    decreases zone, c2
  {
    if c2 == 0 {
      if zone == 0 {
        AlnumAtPunctStart(z, r);
      } else {
        AlnumSurvives(zone - 1, NumberOfRows - 2, z, r);
      }
    } else {
      AlnumSurvives(zone, PrevInner(c2), z, r);
      AlnumSurvivesStep(zone, c2, z, r);
    }
  }

  /** A second-pass slot, once filled, keeps its character. */
  lemma {:induction false} PunctKept(zone: nat, c2: nat, z: nat, c: nat)
    requires PunctState(zone, c2) && PunctSlot(z, c)
    requires PunctPos(z, c) < PunctPos(zone, c2)
    ensures PunctKey(z, c) in PunctBefore(zone, c2)
    ensures PunctBefore(zone, c2)[PunctKey(z, c)] == FillMap[PunctPos(z, c)]
    decreases zone, c2
  {
    if c2 == 0 {
      PunctKept(zone - 1, NumberOfRows - 2, z, c);
    } else if (z, c) != (zone, PrevInner(c2)) {
      PunctKept(zone, PrevInner(c2), z, c);
      PunctKeptStep(zone, c2, z, c);
    }
  }

  /** One second-pass insertion leaves an earlier second-pass entry alone. */
  lemma PunctKeptStep(zone: nat, c2: nat, z: nat, c: nat)
    requires PunctState(zone, c2) && PunctSlot(z, c) && c2 != 0
    requires (z, c) != (zone, PrevInner(c2))
    requires PunctKey(z, c) in PunctBefore(zone, PrevInner(c2))
    requires PunctBefore(zone, PrevInner(c2))[PunctKey(z, c)] == FillMap[PunctPos(z, c)]
    ensures PunctKey(z, c) in PunctBefore(zone, c2)
    ensures PunctBefore(zone, c2)[PunctKey(z, c)] == FillMap[PunctPos(z, c)]
  {
    PunctKeysDistinct(zone, PrevInner(c2), z, c);
  }

  /** Every first-pass slot's pattern decodes to that slot's character. */
  lemma AlnumEntry(z: nat, r: nat)
    requires AlnumSlot(z, r)
    ensures AlnumKey(z, r) in CipherTable && CipherTable[AlnumKey(z, r)] == AlnumChar(z, r)
  {
    AlnumSurvives(FirstRows + 1, 0, z, r);
  }

  /** Every second-pass slot's pattern decodes to the `FillMap` character
      at that slot's position. */
  lemma PunctEntry(z: nat, c: nat)
    requires PunctSlot(z, c)
    ensures PunctKey(z, c) in CipherTable && CipherTable[PunctKey(z, c)] == FillMap[PunctPos(z, c)]
  {
    PunctKept(FirstRows + 1, 0, z, c);
  }

  /** The first pass inserts one entry per slot. */
  lemma {:induction false} AlnumSize(zone: nat, row: nat)
    requires AlnumState(zone, row)
    ensures |AlnumBefore(zone, row)| == AlnumPos(zone, row)
    decreases zone, row
  {
    if row == FirstRows {
      if zone > 0 {
        AlnumSize(zone - 1, NumberOfRows);
      }
    } else {
      AlnumSize(zone, row - 1);
      AlnumSizeStep(zone, row);
    }
  }

  lemma AlnumSizeStep(zone: nat, row: nat)
    requires AlnumState(zone, row) && row > FirstRows
    ensures |AlnumBefore(zone, row)| == |AlnumBefore(zone, row - 1)| + 1
  {
    AlnumFresh(zone, row - 1, zone, row - 1);
  }

  /** The second pass adds one entry per slot on top of the first pass's. */
  lemma {:induction false} PunctSize(zone: nat, c2: nat)
    requires PunctState(zone, c2)
    ensures |PunctBefore(zone, c2)| == 36 + PunctPos(zone, c2)
    decreases zone, c2
  {
    if c2 == 0 {
      if zone == 0 {
        AlnumSize(FirstRows + 1, FirstRows);
      } else {
        PunctSize(zone - 1, NumberOfRows - 2);
      }
    } else {
      PunctSize(zone, PrevInner(c2));
      PunctSizeStep(zone, c2);
    }
  }

  lemma PunctSizeStep(zone: nat, c2: nat)
    requires PunctState(zone, c2) && c2 != 0
    ensures |PunctBefore(zone, c2)| == |PunctBefore(zone, PrevInner(c2))| + 1
  {
    PunctFresh(zone, PrevInner(c2), zone, PrevInner(c2));
  }

  /** No `emplace` of the constructor is ever ignored: 36 letter, digit and
      '/' entries plus 28 punctuation entries. */
  lemma CipherSize()
    ensures |CipherTable| == 64
  {
    PunctSize(FirstRows + 1, 0);
  }

  /** Every key the first pass inserts belongs to one of its slots. */
  lemma {:induction false} AlnumSlotOf(zone: nat, row: nat, k: nat) returns (z: nat, r: nat)
    requires AlnumState(zone, row) && k in AlnumBefore(zone, row)
    ensures AlnumSlot(z, r) && k == AlnumKey(z, r)
    decreases zone, row
  {
    if row == FirstRows {
      z, r := AlnumSlotOf(zone - 1, NumberOfRows, k);
    } else if k == AlnumKey(zone, row - 1) {
      z, r := zone, row - 1;
    } else {
      z, r := AlnumSlotOf(zone, row - 1, k);
    }
  }

  /** Every key of the cipher belongs to a slot of one of the two passes:
      `first` tells which, and (z, r) is the slot. */
  lemma {:induction false} SlotOf(zone: nat, c2: nat, k: nat) returns (first: bool, z: nat, r: nat)
    requires PunctState(zone, c2) && k in PunctBefore(zone, c2)
    ensures first ==> AlnumSlot(z, r) && k == AlnumKey(z, r)
    ensures !first ==> PunctSlot(z, r) && k == PunctKey(z, r)
    decreases zone, c2
  {
    if c2 == 0 {
      if zone == 0 {
        first := true;
        z, r := AlnumSlotOf(FirstRows + 1, FirstRows, k);
      } else {
        first, z, r := SlotOf(zone - 1, NumberOfRows - 2, k);
      }
    } else if k == PunctKey(zone, PrevInner(c2)) {
      first, z, r := false, zone, PrevInner(c2);
    } else {
      first, z, r := SlotOf(zone, PrevInner(c2), k);
    }
  }

  // ---------------------------------------------------------------------
  // Reading the table by punches. A key is the `to_ulong` of the column's
  // bit set, so the pattern with bits i and j punched is Weights[i] +
  // Weights[j].

  /** A lone digit punch, rows 3..11 in order, reads '1'..'9'. */
  lemma DigitPunch(d: nat)
    requires FirstRows <= d < NumberOfRows
    ensures Lookup(CipherTable, Weights[d]) == ('1' as int + (d - FirstRows)) as char
  {
    AlnumEntry(0, d);
  }

  /** The 12-zone (bit 0) with digit punch `d` reads 'A'..'I'. */
  lemma TwelveZonePunch(d: nat)
    requires FirstRows <= d < NumberOfRows
    ensures Lookup(CipherTable, Weights[0] + Weights[d]) == ('A' as int + (d - FirstRows)) as char
  {
    AlnumEntry(1, d);
  }

  /** The 11-zone (bit 1) with digit punch `d` reads 'J'..'R'. */
  lemma ElevenZonePunch(d: nat)
    requires FirstRows <= d < NumberOfRows
    ensures Lookup(CipherTable, Weights[1] + Weights[d]) == ('J' as int + (d - FirstRows)) as char
  {
    AlnumEntry(2, d);
  }

  /** The 0-zone (bit 2) with the 1 punch reads '/', and with the punches
      2..9 reads 'S'..'Z': the '/' takes no letter. */
  lemma ZeroZonePunch(d: nat)
    requires FirstRows <= d < NumberOfRows
    ensures Lookup(CipherTable, Weights[2] + Weights[d])
            == if d == FirstRows then '/' else ('S' as int + (d - FirstRows - 1)) as char
  {
    AlnumEntry(3, d);
  }

  /** Zone punches alone: none reads '\0', the 12-zone '&', the 11-zone
      '-' and the 0-zone '0'. */
  lemma ZoneOnlyPunch()
    ensures Lookup(CipherTable, 0) == '\0'
    ensures Lookup(CipherTable, Weights[0]) == '&'
    ensures Lookup(CipherTable, Weights[1]) == '-'
    ensures Lookup(CipherTable, Weights[2]) == '0'
  {
    PunctEntry(0, 0);
    PunctEntry(1, 0);
    PunctEntry(2, 0);
    PunctEntry(3, 0);
  }

  /** A zone (or none), the 8 punch and one of the punches 2..7 (rows
      4..9) read the punctuation list in order, seven entries per zone. */
  lemma EightPunch(zone: nat, r: nat)
    requires zone <= FirstRows && Row2 <= r < NumberOfRows - 2
    ensures 7 * zone + r - (Row2 - 1) < |FillMap|
    ensures Lookup(CipherTable, ZoneValue(zone) + Weights[r] + Weights[NumberOfRows - 2])
            == FillMap[7 * zone + r - (Row2 - 1)]
  {
    PunctEntry(zone, r);
  }

  /** The index into the punctuation list stays within its 28 entries at
      every step of the second pass. */
  lemma FillIndexBounds(zone: nat, c2: nat)
    requires PunctSlot(zone, c2)
    ensures PunctPos(zone, c2) < |FillMap|
  {
  }

  /** The second pass ends with the index at 28: every entry of the
      punctuation list is used. */
  lemma FillListUsed()
    ensures PunctPos(FirstRows + 1, 0) == |FillMap|
  {
  }

  /** The inner counter's jump skips the 1 punch: a zone with the 1 and 8
      punches has no entry. */
  lemma OneEightUnassigned(zone: nat)
    requires zone <= FirstRows
    ensures ZoneValue(zone) + Weights[FirstRows] + Weights[NumberOfRows - 2] !in CipherTable
  {
    var k := ZoneValue(zone) + Weights[FirstRows] + Weights[NumberOfRows - 2];
    ZoneValueFacts(zone, 0);
    if k in CipherTable {
      var first, z, r := SlotOf(FirstRows + 1, 0, k);
      if first {
        AlnumKeySplit(z, r);
        assert false;
      } else {
        PunctKeySplit(z, r);
        assert false;
      }
    }
  }
}
