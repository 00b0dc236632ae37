/**
 The column decoder: every column of a card becomes one character, found by
 collecting the rows punched in that column into a `bitset<12>` and looking
 its value up in the cipher.
 */
module Decoder {
  import opened Bitset
  import opened Cipher
  import opened CardCode
  import opened Parser

  /** Number of columns decoded: the length of row 0. On a card without a
      row 0, `operator[]` makes an empty one, so there are no columns. */
  function ColumnCount(card: Card): nat
  {
    if 0 in card then |card[0]| else 0
  }

  /** `std::string::operator[]`: reading at `size()` gives '\0'. */
  function CharAt(row: string, i: nat): char
    requires i <= |row|
  {
    if i < |row| then row[i] else '\0'
  }

  /** Whether column `col` of `row` is punched. */
  predicate Punched(row: string, col: nat)
  {
    col < |row| && row[col] == '1'
  }

  /** What the decoder needs of a card beyond the parser's numbering: no
      punch in a decoded column of a row past the bit set's 12 bits (setting
      such a bit throws), and no row so short that a column of row 0 falls
      beyond its end. */
  predicate Fits(card: Card)
  {
    && (forall i, col :: i in card && Width <= i && 0 <= col < ColumnCount(card) ==> !Punched(card[i], col))
    && (forall i :: i in card ==> ColumnCount(card) <= |card[i]| + 1)
  }

  /** A card the decoder accepts: numbered rows 0..n-1, and fitting. */
  predicate Decodable(card: Card)
  {
    Numbered(card) && Fits(card)
  }

  /** The bit set after the inner loop has looked at rows 0..n-1 of column
      `col`: bit r is set exactly when row r is among them and is punched. */
  function ColumnBits(card: Card, col: nat, n: nat): (b: seq<bool>)
    requires Decodable(card) && n <= |card| && col < ColumnCount(card)
    ensures |b| == Width
    ensures forall r :: 0 <= r < Width ==> (b[r] <==> r < n && Punched(card[r], col))
  {
    if n == 0 then Reset()
    else
      var before := ColumnBits(card, col, n - 1);
      if CharAt(card[n - 1], col) == '1' then
        PunchedRowFits(card, n - 1, col);
        SetBit(before, n - 1)
      else before
  }

  /** Only the first 12 rows can be punched in a decoded column, so the
      bit the decoder sets always exists. */
  lemma PunchedRowFits(card: Card, i: nat, col: nat)
    requires Decodable(card) && i < |card| && col < ColumnCount(card)
    requires CharAt(card[i], col) == '1'
    ensures i < Width
  {
    if Width <= i {
      assert Punched(card[i], col);
      assert false;
    }
  }

  /** A row past the twelfth is accepted when it has no punch in a decoded
      column: twelve punched rows and a thirteenth row of zeros decode. */
  lemma BlankRowPastTwelve()
    ensures Decodable(Indexed(seq(Width, _ => "1") + ["0"]))
  {
  }

  /** The character of column `col`. */
  function DecodeColumn(card: Card, col: nat): char
    requires Decodable(card) && col < ColumnCount(card)
  {
    Lookup(CipherTable, ToULong(ColumnBits(card, col, |card|)))
  }

  /** The characters of columns 0..w-1. */
  function DecodeColumns(card: Card, w: nat): (msg: string)
    requires Decodable(card) && w <= ColumnCount(card)
    ensures |msg| == w
    ensures forall i :: 0 <= i < w ==> msg[i] == DecodeColumn(card, i)
  {
    if w == 0 then "" else DecodeColumns(card, w - 1) + [DecodeColumn(card, w - 1)]
  }

  /** The message of a card: one character per column of row 0, in column
      order; an unknown pattern gives '\0' rather than being skipped. */
  function DecodeCard(card: Card): (msg: string)
    requires Decodable(card)
    ensures |msg| == ColumnCount(card)
    ensures |card| == 0 ==> msg == ""
    ensures forall i :: 0 <= i < |msg| ==> msg[i] == DecodeColumn(card, i)
  {
    DecodeColumns(card, ColumnCount(card))
  }

  /** The decoding loop: for each column, set the bit of every row with a
      '1' there, append the cipher's character for the bit set's value, and
      clear the bit set. */
  method DecodePunchCard(card: Card) returns (message: string)
    requires Decodable(card)
    ensures message == DecodeCard(card)
  {
    message := "";
    var width := ColumnCount(card);
    for stringIndex := 0 to width
      invariant message == DecodeColumns(card, stringIndex)
    {
      var locationOfOnes := ColumnMask(card, stringIndex);
      message := message + [Lookup(CipherTable, ToULong(locationOfOnes))];
    }
  }

  /** The inner loop of the decoder, from a cleared bit set: the rows with
      a '1' in column `col`. */
  method ColumnMask(card: Card, col: nat) returns (locationOfOnes: seq<bool>)
    requires Decodable(card) && col < ColumnCount(card)
    ensures locationOfOnes == ColumnBits(card, col, |card|)
  {
    locationOfOnes := Reset();
    for vectorIndex := 0 to |card|
      invariant locationOfOnes == ColumnBits(card, col, vectorIndex)
    {
      if CharAt(card[vectorIndex], col) == '1' {
        PunchedRowFits(card, vectorIndex, col);
        locationOfOnes := SetBit(locationOfOnes, vectorIndex);
      }
    }
  }

  // ---------------------------------------------------------------------
  // Punching a message: the inverse of decoding.

  /** Every character of `msg` has a pattern in the cipher. */
  predicate Punchable(msg: string)
  {
    forall i :: 0 <= i < |msg| ==> Encode(msg[i]).Some?
  }

  /** Row `r` of the card that punches `msg`. */
  function PunchRow(msg: string, r: nat): (row: string)
    requires Punchable(msg) && r < Width
    ensures |row| == |msg|
  {
    seq(|msg|, i requires 0 <= i < |msg| => if ToBits(Encode(msg[i]).value, Width)[r] then '1' else '0')
  }

  /** Rows 0..n-1 of the card that punches `msg`. */
  function PunchRows(msg: string, n: nat): (card: Card)
    requires Punchable(msg) && n <= Width
    ensures forall r :: r in card <==> 0 <= r < n
    ensures |card| == n
    ensures forall r :: 0 <= r < n ==> card[r] == PunchRow(msg, r)
  {
    if n == 0 then map[] else PunchRows(msg, n - 1)[n - 1 := PunchRow(msg, n - 1)]
  }

  /** The 12-row card whose column i is punched with the pattern of
      `msg[i]`. */
  function PunchCard(msg: string): (card: Card)
    requires Punchable(msg)
    ensures Decodable(card) && |card| == Width && ColumnCount(card) == |msg|
  {
    PunchRows(msg, Width)
  }

  /** The mask of column i of a punched card is the bit set of msg[i]'s
      pattern. */
  lemma PunchColumn(msg: string, i: nat)
    requires Punchable(msg) && i < |msg|
    ensures ColumnBits(PunchCard(msg), i, Width) == ToBits(Encode(msg[i]).value, Width)
  {
  }

  /** Column i of a punched card decodes to msg[i]. */
  lemma PunchColumnDecodes(msg: string, i: nat)
    requires Punchable(msg) && i < |msg|
    ensures DecodeColumn(PunchCard(msg), i) == msg[i]
  {
    var k := Encode(msg[i]).value;
    PunchColumn(msg, i);
    EncodeFits(msg[i]);
    ToULongToBits(k, Width);
    EncodeDecode(msg[i]);
  }

  /** Decoding the card that punches a message gives the message back. */
  lemma DecodePunchedCard(msg: string)
    requires Punchable(msg)
    ensures DecodeCard(PunchCard(msg)) == msg
  {
    forall i | 0 <= i < |msg|
      ensures DecodeCard(PunchCard(msg))[i] == msg[i]
    {
      PunchColumnDecodes(msg, i);
    }
  }
}
