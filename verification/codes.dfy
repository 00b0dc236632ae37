/**
 The card code written the other way round: for each character, the pattern
 that punches it. `Encode` is defined independently of the constructor's
 loops, from the row layout alone; the lemmas here show it is the exact
 inverse of the cipher table, which makes the table injective and tells
 precisely which patterns it knows.
 */
module CardCode {
  import opened Containers
  import opened Bitset
  import opened Cipher

  /** The position of a punctuation character in `FillMap`, written out
      character by character. */
  function FillPos(c: char): Option<nat>
  {
    match c
      case '\0' => Some(0)
      case ':' => Some(1)
      case '#' => Some(2)
      case '@' => Some(3)
      case '\'' => Some(4)
      case '=' => Some(5)
      case '"' => Some(6)
      case '&' => Some(7)
      case '[' => Some(8)
      case '.' => Some(9)
      case '<' => Some(10)
      case '(' => Some(11)
      case '+' => Some(12)
      case '!' => Some(13)
      case '-' => Some(14)
      case ']' => Some(15)
      case '$' => Some(16)
      case '*' => Some(17)
      case ')' => Some(18)
      case ';' => Some(19)
      case '^' => Some(20)
      case '0' => Some(21)
      case '\\' => Some(22)
      case ',' => Some(23)
      case '%' => Some(24)
      case '_' => Some(25)
      case '>' => Some(26)
      case '?' => Some(27)
      case _ => None
  }

  /** Zone weight of zone counter `zone` plus the weight of digit row `row`. */
  function Punch(zone: nat, row: nat): nat
    requires zone <= FirstRows && row < Width
  {
    ZoneValue(zone) + Weights[row]
  }

  /** The pattern that punches `c`, if the table has one:
       - '1'..'9' is the digit punch alone (rows 3..11);
       - 'A'..'I', 'J'..'R' add the 12- or 11-zone;
       - '/' is the 0-zone with the 1 punch, 'S'..'Z' the 0-zone with 2..9;
       - the punctuation list, seven to a zone, is the zone alone and then
         the zone with the 8 punch and one of the punches 2..7. */
  function Encode(c: char): Option<nat>
  {
    if '1' <= c <= '9' then Some(Punch(0, c as int - '1' as int + 3))
    else if 'A' <= c <= 'I' then Some(Punch(1, c as int - 'A' as int + 3))
    else if 'J' <= c <= 'R' then Some(Punch(2, c as int - 'J' as int + 3))
    else if c == '/' then Some(Punch(3, 3))
    else if 'S' <= c <= 'Z' then Some(Punch(3, c as int - 'S' as int + 4))
    else match FillPos(c)
      case None => None
      case Some(i) => Some(PunctCode(i))
  }

  /** Pattern of the `i`-th punctuation character: seven to a zone, the
      first with no digit punch, the others with the 8 punch and one of the
      punches 2..7. */
  function PunctCode(i: nat): nat
    requires i < |FillMap|
  {
    var zone := i / 7;
    var inner := i % 7;
    if inner == 0 then ZoneValue(zone) else Punch(zone, inner + 3) + Weights[NumberOfRows - 2]
  }

  lemma FillNotAlnum(i: nat)
    requires i < |FillMap|
    ensures !('1' <= FillMap[i] <= '9' || 'A' <= FillMap[i] <= 'Z' || FillMap[i] == '/')
  {
  }

  /** `FillPos` inverts `FillMap`: the list has no repeats. */
  lemma FillPosInverse(i: nat)
    requires i < |FillMap|
    ensures FillPos(FillMap[i]) == Some(i)
  {
  }

  /** Every position `FillPos` gives is right. */
  lemma FillPosSound(c: char)
    requires FillPos(c).Some?
    ensures FillPos(c).value < |FillMap| && FillMap[FillPos(c).value] == c
  {
  }

  /** Encoding the character of a first-pass slot gives the slot's pattern. */
  lemma EncodeAlnum(z: nat, r: nat)
    requires AlnumSlot(z, r)
    ensures Encode(AlnumChar(z, r)) == Some(AlnumKey(z, r))
  {
    if z == 0 {
    } else if z == 1 {
    } else if z == 2 {
    } else if r == FirstRows {
    } else {
    }
  }

  /** Encoding the character of a second-pass slot gives the slot's pattern. */
  lemma EncodePunct(z: nat, c: nat)
    requires PunctSlot(z, c)
    ensures Encode(FillMap[PunctPos(z, c)]) == Some(PunctKey(z, c))
  {
    var i := PunctPos(z, c);
    FillNotAlnum(i);
    FillPosInverse(i);
    assert i / 7 == z && i % 7 == (if c == 0 then 0 else c - FirstRows);
    assert Encode(FillMap[i]) == Some(PunctCode(i));
  }

  /** Every entry of `t` is the encoding of its character. */
  ghost predicate Inverts(t: Table)
  {
    forall k :: k in t ==> Encode(t[k]) == Some(k)
  }

  /** Every entry of the cipher is the encoding of its character. */
  lemma CipherInverts()
    ensures Inverts(CipherTable)
  {
    forall k | k in CipherTable
      ensures Encode(CipherTable[k]) == Some(k)
    {
      var first, z, r := SlotOf(FirstRows + 1, 0, k);
      if first {
        AlnumEntry(z, r);
        EncodeAlnum(z, r);
      } else {
        PunctEntry(z, r);
        EncodePunct(z, r);
      }
    }
  }

  /** No two patterns decode to the same character: each of '1'..'9',
      'A'..'Z', '/' and the punctuation list is assigned exactly once. */
  lemma CipherInjective(k1: nat, k2: nat)
    requires k1 in CipherTable && k2 in CipherTable
    requires CipherTable[k1] == CipherTable[k2]
    ensures k1 == k2
  {
    CipherInverts();
  }

  /** The digits, the letters and '/': the characters of the first pass. */
  predicate IsAlnumChar(c: char)
  {
    '1' <= c <= '9' || 'A' <= c <= 'Z' || c == '/'
  }

  /** The first-pass slot that holds a digit, a letter or '/'. */
  lemma AlnumCharSlot(c: char) returns (z: nat, r: nat)
    requires IsAlnumChar(c)
    ensures AlnumSlot(z, r) && AlnumChar(z, r) == c
  {
    if '1' <= c <= '9' {
      z, r := 0, c as int - '1' as int + 3;
    } else if 'A' <= c <= 'I' {
      z, r := 1, c as int - 'A' as int + 3;
    } else if 'J' <= c <= 'R' {
      z, r := 2, c as int - 'J' as int + 3;
    } else if c == '/' {
      z, r := 3, 3;
    } else {
      z, r := 3, c as int - 'S' as int + 4;
    }
  }

  /** The second-pass slot that holds a punctuation character. */
  lemma PunctCharSlot(c: char) returns (z: nat, r: nat)
    requires FillPos(c).Some?
    ensures PunctSlot(z, r) && FillMap[PunctPos(z, r)] == c
  {
    FillPosSound(c);
    var i := FillPos(c).value;
    z := i / 7;
    r := if i % 7 == 0 then 0 else i % 7 + FirstRows;
  }

  /** A character the encoder knows is the character of some slot. */
  lemma CharSlot(c: char) returns (first: bool, z: nat, r: nat)
    requires Encode(c).Some?
    ensures first ==> AlnumSlot(z, r) && AlnumChar(z, r) == c
    ensures !first ==> PunctSlot(z, r) && FillMap[PunctPos(z, r)] == c
  {
    if IsAlnumChar(c) {
      first := true;
      z, r := AlnumCharSlot(c);
    } else {
      first := false;
      z, r := PunctCharSlot(c);
    }
  }

  /** A character the encoder knows is in the cipher under its pattern. */
  lemma EncodeDecode(c: char)
    requires Encode(c).Some?
    ensures Encode(c).value in CipherTable && CipherTable[Encode(c).value] == c
  {
    var first, z, r := CharSlot(c);
    if first {
      EncodeAlnum(z, r);
      AlnumEntry(z, r);
    } else {
      EncodePunct(z, r);
      PunctEntry(z, r);
    }
  }

  /** The cipher decodes exactly the characters the encoder knows. */
  lemma CipherValues(c: char)
    ensures c in CipherTable.Values <==> Encode(c).Some?
  {
    if Encode(c).Some? {
      EncodeDecode(c);
    }
    if c in CipherTable.Values {
      var k :| k in CipherTable && CipherTable[k] == c;
      CipherInverts();
    }
  }

  /** Every pattern the encoder produces fits in a `bitset<12>`. */
  lemma EncodeFits(c: char)
    requires Encode(c).Some?
    ensures Encode(c).value < Pow2(Width)
  {
    WeightIsPow2(Width - 1);
    assert Pow2(Width) == 2 * Weights[Width - 1];
    var first, z, r := CharSlot(c);
    ZoneValueFacts(z, 0);
    if first {
      EncodeAlnum(z, r);
      if r < Width - 1 { WeightsIncreasing(r, Width - 1); }
    } else {
      EncodePunct(z, r);
      if r != 0 { WeightsIncreasing(r, Width - 1); }
    }
  }

  /** Every key of the cipher is the value of some 12-bit column pattern. */
  lemma CipherKeysFit(k: nat)
    requires k in CipherTable
    ensures k < Pow2(Width)
  {
    CipherInverts();
    EncodeFits(CipherTable[k]);
  }
}
