/**
 The card splitter: the tokens of the raw text are grouped into cards. A
 run of dashes closes the current card when that card has rows; a run of
 binary digits becomes the next row of the current card. The last card is
 delivered whether or not it has rows.
 */
module Parser {
  import opened Containers
  import opened Tokenizer

  /** A punch card: row number to row text. */
  type Card = map<int, string>

  /** The state of the grouping loop: the cards delivered so far, the card
      being filled, and the number its next row gets. */
  datatype Splitter = Splitter(cards: seq<Card>, temp: Card, index: int)

  const Start: Splitter := Splitter([], map[], 0)

  /** One token of the loop. */
  function Step(st: Splitter, tok: string): Splitter
  {
    if IsDashRun(tok) then
      (if |st.temp| != 0 then Splitter(st.cards + [st.temp], map[], 0) else st)
    else
      Splitter(st.cards, Emplace(st.temp, st.index, tok), st.index + 1)
  }

  /** The loop over the remaining tokens. */
  function Run(st: Splitter, toks: seq<string>): Splitter
    decreases |toks|
  {
    if |toks| == 0 then st else Run(Step(st, toks[0]), toks[1..])
  }

  lemma RunUnfold(st: Splitter, toks: seq<string>, i: nat)
    requires i < |toks|
    ensures Run(st, toks[i..]) == Run(Step(st, toks[i]), toks[i + 1..])
  {
    assert toks[i..][1..] == toks[i + 1..];
  }

  /** The cards the parser delivers for a token sequence. */
  function ParseTokens(toks: seq<string>): seq<Card>
  {
    var st := Run(Start, toks);
    st.cards + [st.temp]
  }

  /** The cards the parser delivers for the raw text. */
  function ParseFile(raw: string): seq<Card>
  {
    ParseTokens(Tokens(raw))
  }

  /** The parsing loop as the program writes it. */
  method Parse(raw: string) returns (punchCards: seq<Card>)
    ensures punchCards == ParseFile(raw)
  {
    punchCards := ParseLoop(Tokens(raw));
  }

  method ParseLoop(toks: seq<string>) returns (punchCards: seq<Card>)
    ensures punchCards == ParseTokens(toks)
  {
    var index := 0;
    var tempMap: Card := map[];
    punchCards := [];
    for i := 0 to |toks|
      invariant Run(Splitter(punchCards, tempMap, index), toks[i..]) == Run(Start, toks)
    {
      ghost var before := Splitter(punchCards, tempMap, index);
      RunUnfold(before, toks, i);
      if IsDashRun(toks[i]) {
        if |tempMap| != 0 {
          punchCards := punchCards + [tempMap];
          tempMap := map[];
          index := 0;
        }
        assert Splitter(punchCards, tempMap, index) == Step(before, toks[i]);
        continue;
      }
      tempMap := Emplace(tempMap, index, toks[i]);
      index := index + 1;
      assert Splitter(punchCards, tempMap, index) == Step(before, toks[i]);
    }
    punchCards := punchCards + [tempMap];
  }

  // ---------------------------------------------------------------------
  // The same grouping, stated without the loop: split the tokens at every
  // dash run, drop the empty groups except the last, and number the rows
  // of each group from 0.

  /** Position of the first dash run, or |toks| if there is none. */
  function FirstDash(toks: seq<string>): (d: nat)
    ensures d <= |toks|
    ensures d < |toks| ==> IsDashRun(toks[d])
    ensures forall j :: 0 <= j < d ==> !IsDashRun(toks[j])
  {
    if |toks| == 0 then 0 else if IsDashRun(toks[0]) then 0 else 1 + FirstDash(toks[1..])
  }

  /** The tokens between consecutive dash runs, in order. */
  function Segments(toks: seq<string>): (segs: seq<seq<string>>)
    ensures |segs| >= 1
    decreases |toks|
  {
    var d := FirstDash(toks);
    if d == |toks| then [toks] else [toks[..d]] + Segments(toks[d + 1..])
  }

  /** The segments that become cards: every non-empty one, and the last. */
  function Groups(segs: seq<seq<string>>): (groups: seq<seq<string>>)
    requires |segs| >= 1
    ensures |groups| >= 1 && groups[|groups| - 1] == segs[|segs| - 1]
    ensures forall k :: 0 <= k < |groups| - 1 ==> |groups[k]| > 0
  {
    if |segs| == 1 then segs
    else (if |segs[0]| > 0 then [segs[0]] else []) + Groups(segs[1..])
  }

  /** The card whose row i is `rows[i]`. */
  function Indexed(rows: seq<string>): (card: Card)
    ensures forall i :: i in card <==> 0 <= i < |rows|
    ensures forall i :: 0 <= i < |rows| ==> card[i] == rows[i]
    ensures |card| == |rows|
  {
    if |rows| == 0 then map[] else Indexed(rows[..|rows| - 1])[|rows| - 1 := rows[|rows| - 1]]
  }

  function IndexedAll(groups: seq<seq<string>>): (cards: seq<Card>)
    ensures |cards| == |groups|
    ensures forall k :: 0 <= k < |groups| ==> cards[k] == Indexed(groups[k])
  {
    if |groups| == 0 then [] else [Indexed(groups[0])] + IndexedAll(groups[1..])
  }

  lemma FirstDashAfter(cur: seq<string>, t: string, rest: seq<string>)
    requires forall j :: 0 <= j < |cur| ==> !IsDashRun(cur[j])
    requires IsDashRun(t)
    ensures Segments(cur + ([t] + rest)) == [cur] + Segments(rest)
  {
    var all := cur + ([t] + rest);
    FirstDashSkips(cur, [t] + rest);
    assert ([t] + rest)[0] == t;
    assert FirstDash(all) == |cur|;
    assert all[..|cur|] == cur;
    assert all[|cur| + 1..] == rest;
  }

  lemma GroupsCons(seg: seq<string>, segs: seq<seq<string>>)
    requires |segs| >= 1
    ensures Groups([seg] + segs) == (if |seg| > 0 then [seg] else []) + Groups(segs)
  {
    assert ([seg] + segs)[1..] == segs;
  }

  lemma {:induction false} FirstDashSkips(cur: seq<string>, rest: seq<string>)
    requires forall j :: 0 <= j < |cur| ==> !IsDashRun(cur[j])
    ensures FirstDash(cur + rest) == |cur| + FirstDash(rest)
    decreases |cur|
  {
    if |cur| > 0 {
      assert (cur + rest)[0] == cur[0];
      assert (cur + rest)[1..] == cur[1..] + rest;
      FirstDashSkips(cur[1..], rest);
    } else {
      assert cur + rest == rest;
    }
  }

  lemma NoDashSegment(cur: seq<string>)
    requires forall j :: 0 <= j < |cur| ==> !IsDashRun(cur[j])
    ensures Segments(cur) == [cur]
  {
    FirstDashSkips(cur, []);
    assert cur + [] == cur;
  }

  /** The reference grouping of the tokens that follow the card `cur`. */
  function GroupsAfter(cards: seq<Card>, cur: seq<string>, toks: seq<string>): seq<Card>
  {
    cards + IndexedAll(Groups(Segments(cur + toks)))
  }

  lemma GroupsAfterEmpty(cards: seq<Card>, rest: seq<string>)
    ensures GroupsAfter(cards, [], rest) == cards + IndexedAll(Groups(Segments(rest)))
  {
    assert [] + rest == rest;
  }

  lemma IndexedAllCons(g: seq<string>, gs: seq<seq<string>>)
    ensures IndexedAll([g] + gs) == [Indexed(g)] + IndexedAll(gs)
  {
    assert ([g] + gs)[1..] == gs;
  }

  lemma CardsAssoc(a: seq<Card>, b: seq<Card>, c: seq<Card>)
    ensures a + (b + c) == a + b + c
  {
  }

  /** Closing the segment `cur` at a dash run. */
  lemma CloseSegment(cards: seq<Card>, cur: seq<string>, rest: seq<string>)
    ensures cards + IndexedAll(Groups([cur] + Segments(rest)))
            == GroupsAfter(if |cur| > 0 then cards + [Indexed(cur)] else cards, [], rest)
  {
    var gs := Groups(Segments(rest));
    GroupsCons(cur, Segments(rest));
    if |cur| > 0 {
      GroupsAfterEmpty(cards + [Indexed(cur)], rest);
      IndexedAllCons(cur, gs);
      CardsAssoc(cards, [Indexed(cur)], IndexedAll(gs));
    } else {
      GroupsAfterEmpty(cards, rest);
      assert [] + gs == gs;
    }
  }

  /** A dash run after rows `cur` closes `cur` if it has rows. */
  lemma DashGroups(cards: seq<Card>, cur: seq<string>, t: string, rest: seq<string>)
    requires forall j :: 0 <= j < |cur| ==> !IsDashRun(cur[j])
    requires IsDashRun(t)
    ensures GroupsAfter(cards, cur, [t] + rest)
            == GroupsAfter(if |cur| > 0 then cards + [Indexed(cur)] else cards, [], rest)
  {
    FirstDashAfter(cur, t, rest);
    CloseSegment(cards, cur, rest);
  }

  /** A binary run after rows `cur` is the next row. */
  lemma RowGroups(cards: seq<Card>, cur: seq<string>, t: string, rest: seq<string>)
    ensures GroupsAfter(cards, cur, [t] + rest) == GroupsAfter(cards, cur + [t], rest)
  {
    Regroup(cur, t, rest);
  }

  lemma Regroup(cur: seq<string>, t: string, rest: seq<string>)
    ensures cur + ([t] + rest) == cur + [t] + rest
  {
  }

  /** One step of the loop on a card holding rows `cur`. */
  lemma StepRows(cards: seq<Card>, cur: seq<string>, t: string)
    ensures Step(Splitter(cards, Indexed(cur), |cur|), t)
            == if IsDashRun(t) then Splitter(if |cur| > 0 then cards + [Indexed(cur)] else cards, Indexed([]), 0)
               else Splitter(cards, Indexed(cur + [t]), |cur + [t]|)
  {
    if !IsDashRun(t) {
      assert Emplace(Indexed(cur), |cur|, t) == Indexed(cur + [t]);
    }
  }

  /** The loop, started with a card holding rows `cur`, delivers the cards
      of the reference grouping of `cur` followed by the rest. */
  lemma {:induction false} RunGroups(cards: seq<Card>, cur: seq<string>, toks: seq<string>)
    requires forall j :: 0 <= j < |cur| ==> !IsDashRun(cur[j])
    ensures var st := Run(Splitter(cards, Indexed(cur), |cur|), toks);
            st.cards + [st.temp] == GroupsAfter(cards, cur, toks)
    decreases |toks|
  {
    if |toks| == 0 {
      assert cur + toks == cur;
      NoDashSegment(cur);
    } else {
      var t, rest := toks[0], toks[1..];
      assert toks == [t] + rest;
      StepRows(cards, cur, t);
      if IsDashRun(t) {
        RunGroups(if |cur| > 0 then cards + [Indexed(cur)] else cards, [], rest);
        DashGroups(cards, cur, t, rest);
      } else {
        RunGroups(cards, cur + [t], rest);
        RowGroups(cards, cur, t, rest);
      }
    }
  }

  lemma {:induction false} IndexedAllAppend(a: seq<seq<string>>, b: seq<seq<string>>)
    ensures IndexedAll(a + b) == IndexedAll(a) + IndexedAll(b)
    decreases |a|
  {
    if |a| == 0 {
      assert a + b == b;
    } else {
      assert (a + b)[1..] == a[1..] + b;
      IndexedAllAppend(a[1..], b);
    }
  }

  /** The loop and the reference grouping deliver the same cards. */
  lemma ParseIsGrouping(toks: seq<string>)
    ensures ParseTokens(toks) == IndexedAll(Groups(Segments(toks)))
  {
    RunGroups([], [], toks);
    assert [] + toks == toks;
    assert Indexed([]) == map[];
  }

  // ---------------------------------------------------------------------
  // Properties of the delivered cards.

  /** Every card's rows are numbered 0..n-1 without gaps. */
  predicate Numbered(card: Card)
  {
    && (forall i :: i in card ==> 0 <= i < |card|)
    && (forall i :: 0 <= i < |card| ==> i in card)
  }

  /** The rows of a card numbered 0..n-1, in order. */
  function RowsOf(card: Card): (rows: seq<string>)
    requires Numbered(card)
  {
    seq(|card|, i requires 0 <= i < |card| => card[i])
  }

  /** The rows of all cards, card after card. */
  function Flatten(cards: seq<Card>): seq<string>
    requires forall k :: 0 <= k < |cards| ==> Numbered(cards[k])
  {
    if |cards| == 0 then [] else RowsOf(cards[0]) + Flatten(cards[1..])
  }

  function Join(segs: seq<seq<string>>): seq<string>
  {
    if |segs| == 0 then [] else segs[0] + Join(segs[1..])
  }

  /** The tokens that are not dash runs, in order. */
  function NonDash(toks: seq<string>): seq<string>
  {
    if |toks| == 0 then [] else (if IsDashRun(toks[0]) then [] else [toks[0]]) + NonDash(toks[1..])
  }

  lemma {:induction false} NonDashAppend(a: seq<string>, b: seq<string>)
    ensures NonDash(a + b) == NonDash(a) + NonDash(b)
    decreases |a|
  {
    if |a| == 0 {
      assert a + b == b;
    } else {
      assert (a + b)[0] == a[0];
      assert (a + b)[1..] == a[1..] + b;
      NonDashAppend(a[1..], b);
    }
  }

  lemma {:induction false} NonDashNone(toks: seq<string>)
    requires forall j :: 0 <= j < |toks| ==> !IsDashRun(toks[j])
    ensures NonDash(toks) == toks
    decreases |toks|
  {
    if |toks| > 0 {
      NonDashNone(toks[1..]);
    }
  }

  lemma NonDashSplit(toks: seq<string>, d: nat)
    requires d < |toks| && IsDashRun(toks[d])
    requires forall j :: 0 <= j < d ==> !IsDashRun(toks[j])
    ensures NonDash(toks) == toks[..d] + NonDash(toks[d + 1..])
  {
    var front, back := toks[..d], toks[d..];
    assert front + back == toks;
    NonDashAppend(front, back);
    NonDashNone(front);
    NonDashSkipDash(back);
    assert back[1..] == toks[d + 1..];
  }

  lemma NonDashSkipDash(toks: seq<string>)
    requires |toks| > 0 && IsDashRun(toks[0])
    ensures NonDash(toks) == NonDash(toks[1..])
  {
  }

  /** Splitting at the dash runs loses only the dash runs. */
  lemma {:induction false} SegmentsJoin(toks: seq<string>)
    ensures Join(Segments(toks)) == NonDash(toks)
    decreases |toks|
  {
    var d := FirstDash(toks);
    if d == |toks| {
      NonDashNone(toks);
      assert Join([toks]) == toks + [];
    } else {
      var rest := toks[d + 1..];
      SegmentsJoin(rest);
      NonDashSplit(toks, d);
      assert ([toks[..d]] + Segments(rest))[1..] == Segments(rest);
    }
  }

  /** Dropping empty segments loses no rows. */
  lemma {:induction false} GroupsJoin(segs: seq<seq<string>>)
    requires |segs| >= 1
    ensures Join(Groups(segs)) == Join(segs)
    decreases |segs|
  {
    if |segs| == 1 {
    } else {
      GroupsJoin(segs[1..]);
      var head: seq<seq<string>> := if |segs[0]| > 0 then [segs[0]] else [];
      JoinAppend(head, Groups(segs[1..]));
      assert Join(head) == segs[0] by {
        if |segs[0]| > 0 { assert Join(head) == segs[0] + Join([]); }
      }
    }
  }

  lemma {:induction false} JoinAppend(a: seq<seq<string>>, b: seq<seq<string>>)
    ensures Join(a + b) == Join(a) + Join(b)
    decreases |a|
  {
    if |a| == 0 {
      assert a + b == b;
    } else {
      assert (a + b)[1..] == a[1..] + b;
      JoinAppend(a[1..], b);
    }
  }

  lemma {:induction false} FlattenIndexed(groups: seq<seq<string>>)
    ensures Flatten(IndexedAll(groups)) == Join(groups)
    decreases |groups|
  {
    if |groups| > 0 {
      assert RowsOf(Indexed(groups[0])) == groups[0];
      assert IndexedAll(groups)[1..] == IndexedAll(groups[1..]);
      FlattenIndexed(groups[1..]);
    }
  }

  /** The shape of the parser's output: at least one card, since the last
      is always delivered; no empty card before the last; rows numbered
      from 0. */
  lemma ParseShape(toks: seq<string>)
    ensures |ParseTokens(toks)| >= 1
    ensures forall k :: 0 <= k < |ParseTokens(toks)| - 1 ==> |ParseTokens(toks)[k]| > 0
    ensures forall k :: 0 <= k < |ParseTokens(toks)| ==> Numbered(ParseTokens(toks)[k])
  {
    ParseIsGrouping(toks);
    GroupCardsShape(Groups(Segments(toks)));
  }

  lemma GroupCardsShape(groups: seq<seq<string>>)
    requires |groups| >= 1
    requires forall k :: 0 <= k < |groups| - 1 ==> |groups[k]| > 0
    ensures |IndexedAll(groups)| >= 1
    ensures forall k :: 0 <= k < |IndexedAll(groups)| - 1 ==> |IndexedAll(groups)[k]| > 0
    ensures forall k :: 0 <= k < |IndexedAll(groups)| ==> Numbered(IndexedAll(groups)[k])
  {
  }

  /** The rows of the parser's cards, card after card, are exactly the
      tokens that are not dash runs, in order. */
  lemma ParseRows(toks: seq<string>)
    ensures forall k :: 0 <= k < |ParseTokens(toks)| ==> Numbered(ParseTokens(toks)[k])
    ensures Flatten(ParseTokens(toks)) == NonDash(toks)
  {
    ParseShape(toks);
    ParseIsGrouping(toks);
    var segs := Segments(toks);
    GroupsJoin(segs);
    SegmentsJoin(toks);
    FlattenIndexed(Groups(segs));
  }

  /** Without any dash run the whole input is one card. */
  lemma ParseNoDash(toks: seq<string>)
    requires forall j :: 0 <= j < |toks| ==> !IsDashRun(toks[j])
    ensures ParseTokens(toks) == [Indexed(toks)]
  {
    ParseIsGrouping(toks);
    NoDashSegment(toks);
  }

  lemma {:induction false} RunAppend(st: Splitter, a: seq<string>, b: seq<string>)
    ensures Run(st, a + b) == Run(Run(st, a), b)
    decreases |a|
  {
    if |a| == 0 {
      assert a + b == b;
    } else {
      assert (a + b)[0] == a[0];
      assert (a + b)[1..] == a[1..] + b;
      RunAppend(Step(st, a[0]), a[1..], b);
    }
  }

  /** A dash run at the end of the input delivers the card in progress if
      it has rows, and the final push then delivers an empty card: text
      ending in a separator always ends in an empty card. */
  lemma ParseTrailingDash(toks: seq<string>, dash: string)
    requires IsDashRun(dash)
    ensures |ParseTokens(toks)[|ParseTokens(toks)| - 1]| > 0 ==>
              ParseTokens(toks + [dash]) == ParseTokens(toks) + [map[]]
    ensures |ParseTokens(toks)[|ParseTokens(toks)| - 1]| == 0 ==>
              ParseTokens(toks + [dash]) == ParseTokens(toks)
  {
    RunAppend(Start, toks, [dash]);
    assert [dash][1..] == [];
  }

  /** The binary-digit tokens of the text. */
  function BinaryRuns(toks: seq<string>): seq<string>
  {
    if |toks| == 0 then [] else (if IsBinaryRun(toks[0]) then [toks[0]] else []) + BinaryRuns(toks[1..])
  }

  lemma {:induction false} NonDashIsBinary(toks: seq<string>)
    requires forall j :: 0 <= j < |toks| ==> IsBinaryRun(toks[j]) || IsDashRun(toks[j])
    ensures NonDash(toks) == BinaryRuns(toks)
    decreases |toks|
  {
    if |toks| > 0 {
      if IsBinaryRun(toks[0]) {
        assert toks[0][0] != '-';
      }
      NonDashIsBinary(toks[1..]);
    }
  }

  /** On the raw text: the rows of the cards, card after card, are exactly
      the runs of binary digits of the text, in the order they occur. */
  lemma ParseFileRows(raw: string)
    ensures forall k :: 0 <= k < |ParseFile(raw)| ==> Numbered(ParseFile(raw)[k])
    ensures Flatten(ParseFile(raw)) == BinaryRuns(Tokens(raw))
  {
    var toks := Tokens(raw);
    forall j | 0 <= j < |toks|
      ensures IsBinaryRun(toks[j]) || IsDashRun(toks[j])
    {
      TokensAreRuns(raw, j);
    }
    ParseRows(toks);
    NonDashIsBinary(toks);
  }
}
