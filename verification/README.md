# Punch-card decoder, modelled in Dafny

The program reads a text file of punched cards and prints the message each card
encodes. In the text, a card is a block of rows of `0`/`1` characters, and cards
are separated by lines of dashes. Each column of a card is one character. The
rows punched in a column form a 12-bit pattern, and the pattern is looked up in
a cipher table.

This project models the four pieces of `Lab3.cpp` that do the work:

- **The cipher table** (`Cipher`, `CardCode`, `Bitset`). The `EBDCDecoder`
  constructor builds it in two nested-loop passes:
  - a letter/digit pass, in which the 0-zone with the 1 punch gives `/` and
    consumes no letter;
  - a punctuation pass, whose inner counter jumps from 0 to 4.

  `Cipher.BuildCipher` runs the loops as written. It is proved equal to
  `Cipher.CipherTable`, which is defined slot by slot in closed form.
  `CardCode.Encode` gives each character its pattern from the row layout
  alone. It is proved the exact inverse of the table, which makes the table
  injective. The table's size (64), its key bounds and its entries are
  proved per punch.
- **The column decoder** (`Decoder`). For each column of row 0, it collects
  the punched rows into a `bitset<12>` and appends the table's character for
  the bit set's value.
- **The card splitter** (`Tokenizer`, `Parser`).
  - The regular expression `(1|0)+|-+` becomes an explicit scanner of
    maximal runs.
  - The grouping loop is proved equal to a loop-free grouping: split at the
    dash runs, keep the non-empty groups and the last one, and number the rows
    from 0.
- **The batch** (`Batch`). There is one decoder per card, and message `k`
  comes from card `k`.

`Containers` holds `Option` and `std::map::emplace`. Emplace inserts only
when the key is absent. Every insertion in the program goes through it, and
the proofs show that no insertion is ever ignored.

Where the program's behaviour could be read two ways, the model follows the
code:
- **The final card is always delivered.** Text with no rows gives one empty
  card and one empty message. Text that ends in a dash run ends with an empty
  card.
- **A column pattern with no entry appends `'\0'`.** `map::operator[]` yields
  the default character; the column is not skipped.
- **A row one character shorter than row 0 is accepted.** Reading a
  `std::string` at its own length yields `'\0'`, which is not a punch.

## Model

| member | source | states |
|---|---|---|
| Bitset.SetBitAdds | Lab3.cpp:161-164 | Setting a clear bit `i` raises the bit set's `to_ulong` value by exactly `2^i`. |
| Bitset.ToBitsToULong | Lab3.cpp:216 | A bit set is recovered from its `to_ulong` value, so distinct column patterns have distinct values. |
| Bitset.ToULongToBits | Lab3.cpp:216 | Every number below `2^w` is the `to_ulong` value of exactly the `w`-bit set of its binary digits. |
| Bitset.ToULongBound | Lab3.cpp:209 | The `to_ulong` value of a `w`-bit set is below `2^w` (below 4096 for `bitset<12>`). |
| Cipher.BuildCipher | Lab3.cpp:156-201 | The constructor's two passes build exactly the slot-by-slot closed-form table. |
| Cipher.LetterDigitPass | Lab3.cpp:157-178 | After the letter/digit pass, every (zone, row) slot holds its character, and nothing else is in the table. |
| Cipher.LetterDigitZone | Lab3.cpp:160-177 | One run of the inner loop fills the nine slots of its zone in row order, and the letter counter advances past each slot except `/`. |
| Cipher.PunctuationPass | Lab3.cpp:180-200 | Starting from the first pass's table, the punctuation pass (with its jump from 0 to 4) yields the whole cipher. |
| Cipher.AlnumStep | Lab3.cpp:166-171 | Each `emplace` of the first pass inserts a key not yet present, so it is never ignored. |
| Cipher.PunctStep | Lab3.cpp:189-198 | Each `emplace` of the second pass inserts a new key, and the fill-list index advances by one per visited slot. |
| Cipher.AlnumKeysDistinct | Lab3.cpp:161-164 | Distinct first-pass slots punch distinct patterns. |
| Cipher.PunctKeysDistinct | Lab3.cpp:185-195 | Distinct second-pass slots punch distinct patterns. |
| Cipher.PassKeysDisjoint | Lab3.cpp:161-195 | No first-pass pattern (one digit punch) equals a second-pass pattern (no digit punch, or two). |
| Cipher.AlnumSurvives | Lab3.cpp:180-200 | The second pass keeps every entry of the first pass with its character. |
| Cipher.AlnumEntry | Lab3.cpp:157-178 | The zone-plus-row pattern of every first-pass slot is in the finished table with that slot's character. |
| Cipher.PunctEntry | Lab3.cpp:180-200 | Every second-pass slot's pattern is in the finished table with the fill-list character at that slot's position. |
| Cipher.CipherSize | Lab3.cpp:158-200 | The table has exactly 64 entries: 36 letters, digits and `/`, plus 28 punctuation characters. |
| Cipher.SlotOf | Lab3.cpp:156-201 | Every key of the table is the pattern of a slot of one of the two passes. |
| Cipher.DigitPunch | Lab3.cpp:159-176 | A lone digit punch in rows 3..11 reads `'1'`..`'9'` in row order. |
| Cipher.TwelveZonePunch | Lab3.cpp:159-176 | The 12-zone plus digit punch `d` reads `'A'`..`'I'`. |
| Cipher.ElevenZonePunch | Lab3.cpp:159-176 | The 11-zone plus digit punch `d` reads `'J'`..`'R'`. |
| Cipher.ZeroZonePunch | Lab3.cpp:166-176 | The 0-zone with the 1 punch reads `/`. With punches 2..9 it reads `'S'`..`'Z'`, because `/` consumed no letter. |
| Cipher.ZoneOnlyPunch | Lab3.cpp:189-191 | A blank column reads `'\0'`. The 12-zone alone reads `&`, the 11-zone `-`, and the 0-zone `0`. |
| Cipher.EightPunch | Lab3.cpp:193-198 | A zone (or none), a punch in rows 4..9 and the 8 punch read the fill list in order, seven entries per zone; the index stays inside the list. |
| Cipher.FillIndexBounds | Lab3.cpp:182-198 | At every slot the second pass visits, the index into the 28-entry punctuation list is in bounds. |
| Cipher.FillListUsed | Lab3.cpp:182-200 | The second pass ends with the index at 28, so every entry of the punctuation list is assigned. |
| Cipher.OneEightUnassigned | Lab3.cpp:189-192 | Because of the counter jump, a pattern made of a zone, the 1 punch and the 8 punch has no entry. |
| CardCode.CipherInverts | Lab3.cpp:156-201 | Every table entry's key is the independently defined encoding of its character. |
| CardCode.CipherInjective | Lab3.cpp:156-201 | No two patterns decode to the same character, so each letter, digit and punctuation mark is assigned exactly once. |
| CardCode.EncodeDecode | Lab3.cpp:156-201 | Every character with an encoding is in the table under that encoding. |
| CardCode.CipherValues | Lab3.cpp:156-201 | A character is decodable if and only if it has an encoding. |
| CardCode.CipherKeysFit | Lab3.cpp:158-196 | Every key of the table is below 4096, so it is the value of some 12-bit column pattern. |
| Decoder.ColumnBits | Lab3.cpp:211-214 | After the inner loop, bit `r` of the mask is set exactly when row `r` has a `1` in the column. |
| Decoder.DecodeCard | Lab3.cpp:207-219 | The message has one character per column of row 0, and is empty for a card without rows. Character `i` is the table's character for column `i`'s mask, or `'\0'` if the mask has no entry. |
| Decoder.PunchedRowFits | Lab3.cpp:211-213 | On an accepted card, a row with a `1` in a decoded column is one of the first 12, so `bitset::set` never goes out of range. |
| Decoder.BlankRowPastTwelve | Lab3.cpp:211-213 | A card with a 13th row that has no punch is accepted, because only a `1` sets a bit. |
| Decoder.ColumnMask | Lab3.cpp:211-214 | The inner loop, starting from a cleared bit set, yields the mask of the column. |
| Decoder.DecodePunchCard | Lab3.cpp:207-219 | The nested decoding loop, with the mask reset after each column, computes the card's message. |
| Decoder.DecodePunchedCard | Lab3.cpp:207-219 | Decoding the 12-row card that punches each character's pattern gives the message back. |
| Tokenizer.Scan | Lab3.cpp:131-136 | Every match is a longest non-empty run of binary digits or of dashes, and the matches come in text order without overlap. |
| Tokenizer.TokensAreRuns | Lab3.cpp:131-136 | Every token is a binary run or a dash run, and is a maximal run of the text. |
| Tokenizer.TokensKeep | Lab3.cpp:131-136 | Joined together, the tokens are exactly the binary digits and dashes of the text, in order. |
| Parser.ParseLoop | Lab3.cpp:134-148 | The grouping loop delivers the cards of the splitter's state machine. |
| Parser.Parse | Lab3.cpp:129-149 | Parsing the raw text delivers the cards of its tokens. |
| Parser.ParseIsGrouping | Lab3.cpp:136-148 | The loop's cards are the loop-free grouping: split at the dash runs, keep the non-empty groups and the last one, and number rows from 0. |
| Parser.ParseShape | Lab3.cpp:137-148 | There is always at least one card; no card before the last is empty; each card's rows are numbered 0..n-1. |
| Parser.ParseRows | Lab3.cpp:137-146 | The cards' rows, card after card, are exactly the non-dash tokens, in order. |
| Parser.ParseNoDash | Lab3.cpp:145-148 | Without a dash run, the whole input is one card with rows numbered in order. |
| Parser.ParseTrailingDash | Lab3.cpp:137-148 | A trailing dash run delivers the current card if it has rows, and the final push adds an empty card; otherwise the cards are unchanged. |
| Parser.ParseFileRows | Lab3.cpp:131-146 | On the raw text, the cards' rows, card after card, are exactly the text's runs of binary digits, in order. |
| Batch.DecodePunchCards | Lab3.cpp:263-272 | The loop over the decoders, with `emplace` under a running index, yields the indexed messages of the cards. |
| Batch.DecodeAllStep | Lab3.cpp:266-269 | Each `emplace` of the loop adds the next card's message under a new index. |
| Batch.MessagesPerCard | Lab3.cpp:252-272 | There is one message per parsed card (at least one), keyed 0..n-1, and message `k` is the decoding of card `k`. |
| Batch.NoPunchesOneEmptyMessage | Lab3.cpp:148 | Text without binary digits or dashes gives one empty card and so one empty message. |

## Left out

- Reading the file and exiting on a bad path (`Lab3.cpp:100-118`) are I/O. The model starts from the raw text.
- Console output and `main` (`Lab3.cpp:91-96`, `278-308`) are left out as presentation.
- Heap ownership (`new`, `delete`, the destructor at `Lab3.cpp:238-244`) is left out. Decoders and cards are values.
- The `std::regex` engine is not modelled. `Tokenizer` states the matching rule directly over three character classes.
- Decoder.DecodeCard: a `'1'` in row 12 or later, inside row 0's width, makes `bitset::set` throw, and a row more than one character shorter than row 0 is read out of bounds. The `Decodable` precondition excludes both instead of modelling the failure. Rows past the twelfth without such a punch are accepted, as in the program.
- Batch.DecodePunchCards: every card must be `Decodable`, for the same reason.
- Cipher.NextLetter: `char` increment is modelled only over `'1'`..`'Z'`, the letters the constructor reaches.
- `map::operator[]` on the cipher also inserts the default entry for an unknown pattern. The model reads with a pure lookup that returns `'\0'`. This gives the same character, but the table does not grow.
- The decoder's initial message `"N/A"` and its getter are left out. Every decoder's message is computed before it is read.
