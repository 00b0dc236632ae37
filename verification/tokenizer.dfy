/**
 The parser's tokeniser: the matches of the pattern `(1|0)+|-+` over the raw
 text, in order. Each match is a longest run of binary digits or a longest
 run of dashes; every other character separates matches and is dropped.
 */
module Tokenizer {

  /** The three kinds of character the pattern distinguishes. */
  datatype Class = Binary | Dash | Other

  function ClassOf(c: char): Class
  {
    if c == '0' || c == '1' then Binary else if c == '-' then Dash else Other
  }

  /** A match, as the half-open range [start, end) of the text. */
  datatype Span = Span(start: nat, end: nat)

  /** Characters start..end-1 all have class `k`. */
  predicate Uniform(s: string, start: nat, end: nat, k: Class)
    requires start <= end <= |s|
  {
    forall j :: start <= j < end ==> ClassOf(s[j]) == k
  }

  /** `sp` is a longest non-empty run of binary digits or of dashes. */
  predicate MaximalRun(s: string, sp: Span)
  {
    && sp.start < sp.end <= |s|
    && ClassOf(s[sp.start]) != Other
    && Uniform(s, sp.start, sp.end, ClassOf(s[sp.start]))
    && (sp.start == 0 || ClassOf(s[sp.start - 1]) != ClassOf(s[sp.start]))
    && (sp.end == |s| || ClassOf(s[sp.end]) != ClassOf(s[sp.start]))
  }

  /** Where the run of class `k` that contains position `i` ends. */
  function RunEnd(s: string, i: nat, k: Class): (e: nat)
    requires i < |s| && ClassOf(s[i]) == k
    ensures i < e <= |s| && Uniform(s, i, e, k)
    ensures e == |s| || ClassOf(s[e]) != k
    decreases |s| - i
  {
    if i + 1 < |s| && ClassOf(s[i + 1]) == k then RunEnd(s, i + 1, k) else i + 1
  }

  /** A place where a match may begin: the start of the text, or a change
      of class, or a character that belongs to no match. */
  predicate Boundary(s: string, i: nat)
    requires i <= |s|
  {
    i == 0 || i == |s| || ClassOf(s[i - 1]) != ClassOf(s[i]) || ClassOf(s[i]) == Other
  }

  /** The matches in s[i..], left to right. */
  function Scan(s: string, i: nat): (spans: seq<Span>)
    requires i <= |s| && Boundary(s, i)
    ensures forall n :: 0 <= n < |spans| ==> MaximalRun(s, spans[n]) && i <= spans[n].start
    ensures forall n :: 0 < n < |spans| ==> spans[n - 1].end <= spans[n].start
    decreases |s| - i
  {
    if i == |s| then []
    else if ClassOf(s[i]) == Other then Scan(s, i + 1)
    else [Span(i, RunEnd(s, i, ClassOf(s[i])))] + Scan(s, RunEnd(s, i, ClassOf(s[i])))
  }

  /** The text of each span. */
  function SpanTexts(s: string, spans: seq<Span>): (toks: seq<string>)
    requires forall n :: 0 <= n < |spans| ==> spans[n].start <= spans[n].end <= |s|
    ensures |toks| == |spans|
    ensures forall n :: 0 <= n < |toks| ==> toks[n] == s[spans[n].start..spans[n].end]
  {
    seq(|spans|, n requires 0 <= n < |spans| => s[spans[n].start..spans[n].end])
  }

  /** The text of every match of the pattern in `s`, in order. */
  function Tokens(s: string): seq<string>
  {
    SpanTexts(s, Scan(s, 0))
  }

  /** `regex_match(token, "-+")`: the whole token is dashes. */
  predicate IsDashRun(tok: string)
  {
    |tok| > 0 && forall j :: 0 <= j < |tok| ==> tok[j] == '-'
  }

  /** A non-empty string of binary digits. */
  predicate IsBinaryRun(tok: string)
  {
    |tok| > 0 && forall j :: 0 <= j < |tok| ==> tok[j] == '0' || tok[j] == '1'
  }

  /** The characters of `s` that belong to some match, in order. */
  function Kept(s: string): string
  {
    if |s| == 0 then [] else (if ClassOf(s[0]) == Other then [] else [s[0]]) + Kept(s[1..])
  }

  function Concat(toks: seq<string>): string
  {
    if |toks| == 0 then [] else toks[0] + Concat(toks[1..])
  }

  /** Every token is a run of binary digits or a run of dashes, and is a
      longest such run in the text. */
  lemma TokensAreRuns(s: string, n: nat)
    requires n < |Tokens(s)|
    ensures IsBinaryRun(Tokens(s)[n]) || IsDashRun(Tokens(s)[n])
    ensures MaximalRun(s, Scan(s, 0)[n])
  {
    var sp := Scan(s, 0)[n];
    var t := Tokens(s)[n];
    assert forall j :: 0 <= j < |t| ==> t[j] == s[sp.start + j];
  }

  lemma {:induction false} KeptRun(s: string, i: nat, e: nat)
    requires i <= e <= |s|
    requires forall j :: i <= j < e ==> ClassOf(s[j]) != Other
    ensures Kept(s[i..]) == s[i..e] + Kept(s[e..])
    decreases e - i
  {
    if i < e {
      assert s[i..][1..] == s[i + 1..];
      KeptRun(s, i + 1, e);
      assert s[i..e] == [s[i]] + s[i + 1..e];
    }
  }

  lemma {:induction false} ScanKept(s: string, i: nat)
    requires i <= |s| && Boundary(s, i)
    ensures Concat(SpanTexts(s, Scan(s, i))) == Kept(s[i..])
    decreases |s| - i
  {
    if i < |s| {
      if ClassOf(s[i]) == Other {
        ScanKept(s, i + 1);
        assert s[i..][1..] == s[i + 1..];
      } else {
        var e := RunEnd(s, i, ClassOf(s[i]));
        ScanKept(s, e);
        KeptRun(s, i, e);
        assert SpanTexts(s, Scan(s, i))[1..] == SpanTexts(s, Scan(s, e));
      }
    }
  }

  /** Joined together, the tokens are exactly the binary digits and dashes
      of the text, in order: nothing else is dropped, nothing repeated. */
  lemma TokensKeep(s: string)
    ensures Concat(Tokens(s)) == Kept(s)
  {
    ScanKept(s, 0);
  }

  /** Text with no binary digit and no dash has no match. */
  lemma {:induction false} NoTokens(s: string, i: nat)
    requires i <= |s| && Boundary(s, i)
    requires forall j :: 0 <= j < |s| ==> ClassOf(s[j]) == Other
    ensures Scan(s, i) == []
    decreases |s| - i
  {
    if i < |s| {
      NoTokens(s, i + 1);
    }
  }
}
