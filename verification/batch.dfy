/**
 The control centre's batch: one decoder per parsed card, in the order the
 parser delivered them, and the message of the k-th card stored under key k.
 */
module Batch {
  import opened Containers
  import opened Tokenizer
  import opened Parser
  import opened Decoder

  /** The message of every card, in card order. */
  function DecodeEach(cards: seq<Card>): (msgs: seq<string>)
    requires forall k :: 0 <= k < |cards| ==> Decodable(cards[k])
    ensures |msgs| == |cards|
    ensures forall k :: 0 <= k < |cards| ==> msgs[k] == DecodeCard(cards[k])
  {
    seq(|cards|, k requires 0 <= k < |cards| => DecodeCard(cards[k]))
  }

  /** The messages of `cards`, keyed by card position. */
  function DecodeAll(cards: seq<Card>): map<int, string>
    requires forall k :: 0 <= k < |cards| ==> Decodable(cards[k])
  {
    Indexed(DecodeEach(cards))
  }

  /** The decoding loop over the decoders: each decodes its card, and its
      message is emplaced under the running index. */
  method DecodePunchCards(cards: seq<Card>) returns (messages: map<int, string>)
    requires forall k :: 0 <= k < |cards| ==> Decodable(cards[k])
    ensures messages == DecodeAll(cards)
    ensures Numbered(messages) && |messages| == |cards|
    ensures forall k :: 0 <= k < |cards| ==> messages[k] == DecodeCard(cards[k])
  {
    messages := map[];
    var index := 0;
    while index < |cards|
      invariant 0 <= index <= |cards|
      invariant messages == DecodeAll(cards[..index])
    {
      var message := DecodePunchCard(cards[index]);
      DecodeAllStep(cards, index);
      messages := Emplace(messages, index, message);
      index := index + 1;
    }
    assert cards[..|cards|] == cards;
    DecodeAllFacts(cards);
  }

  /** Decoding one more card adds its message under the next index. */
  lemma DecodeAllStep(cards: seq<Card>, index: nat)
    requires forall k :: 0 <= k < |cards| ==> Decodable(cards[k])
    requires index < |cards|
    ensures Emplace(DecodeAll(cards[..index]), index, DecodeCard(cards[index]))
            == DecodeAll(cards[..index + 1])
  {
    var done := DecodeEach(cards[..index]);
    DecodeEachSnoc(cards, index);
    IndexedSnoc(done, DecodeCard(cards[index]));
  }

  lemma DecodeEachSnoc(cards: seq<Card>, index: nat)
    requires forall k :: 0 <= k < |cards| ==> Decodable(cards[k])
    requires index < |cards|
    ensures DecodeEach(cards[..index + 1]) == DecodeEach(cards[..index]) + [DecodeCard(cards[index])]
  {
  }

  lemma IndexedSnoc(rows: seq<string>, row: string)
    ensures Emplace(Indexed(rows), |rows|, row) == Indexed(rows + [row])
  {
    assert (rows + [row])[..|rows|] == rows;
  }

  /** The decoded messages are keyed 0..n-1, one per card, each the
      decoding of the card at that position. */
  lemma DecodeAllFacts(cards: seq<Card>)
    requires forall k :: 0 <= k < |cards| ==> Decodable(cards[k])
    ensures Numbered(DecodeAll(cards)) && |DecodeAll(cards)| == |cards|
    ensures forall k :: 0 <= k < |cards| ==> DecodeAll(cards)[k] == DecodeCard(cards[k])
  {
  }

  /** Every card the parser delivers for `raw` fits the decoder. */
  predicate AllFit(raw: string)
  {
    forall k :: 0 <= k < |ParseFile(raw)| ==> Fits(ParseFile(raw)[k])
  }

  /** Read, parse and decode: the messages of the raw text. */
  function Messages(raw: string): map<int, string>
    requires AllFit(raw)
  {
    ParseShape(Tokens(raw));
    DecodeAll(ParseFile(raw))
  }

  /** One message per card, in card order, each the decoding of its card;
      and there is always at least one message. */
  lemma MessagesPerCard(raw: string)
    requires AllFit(raw)
    ensures |Messages(raw)| == |ParseFile(raw)| >= 1
    ensures forall k :: k in Messages(raw) <==> 0 <= k < |ParseFile(raw)|
    ensures forall k :: 0 <= k < |ParseFile(raw)| ==>
              Decodable(ParseFile(raw)[k]) && Messages(raw)[k] == DecodeCard(ParseFile(raw)[k])
  {
    ParseShape(Tokens(raw));
  }

  /** Text with no binary digits or dashes gives one empty message. */
  lemma NoPunchesOneEmptyMessage(raw: string)
    requires forall j :: 0 <= j < |raw| ==> ClassOf(raw[j]) == Other
    ensures ParseFile(raw) == [map[]]
    ensures AllFit(raw) && Messages(raw) == map[0 := ""]
  {
    NoTokens(raw, 0);
    assert Tokens(raw) == [];
    EmptyCardMessage();
  }

  /** A card without rows decodes to the empty message. */
  lemma EmptyCardMessage()
    ensures Decodable(map[]) && DecodeAll([map[]]) == map[0 := ""]
  {
    var empty: Card := map[];
    assert Decodable(empty);
    assert DecodeCard(empty) == "";
    assert DecodeEach([empty]) == [""] by {
      assert [empty][..0] == [];
    }
    IndexedOne("");
  }

  lemma IndexedOne(row: string)
    ensures Indexed([row]) == map[0 := row]
  {
  }
}
