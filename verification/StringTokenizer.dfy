/**
 The string tokenizer (src/base3/string_tokenizer.h), on its fast and on its full path,
 in terms of one automaton run over the whole text.
 */
module StringTokenizer {

  type Text = seq<char>

  /** AdvanceState of the source. */
  datatype State = State(inQuote: bool, inEscape: bool, quoteChar: char)

  const FRESH := State(false, false, '\0')

  datatype Settings = Settings(delims: Text, quotes: Text, returnDelims: bool) {

    /** The state after c; unchanged when c is a delimiter outside quotes. */
    function After(s: State, c: char): State {
      if s.inQuote then
        if s.inEscape then s.(inEscape := false)
        else if c == '\\' then s.(inEscape := true)
        else if c == s.quoteChar then s.(inQuote := false)
        else s
      else if c in delims then s
      else s.(quoteChar := c, inQuote := c in quotes)
    }

    predicate Breaks(s: State, c: char) {
      !s.inQuote && c in delims
    }
  }

  /** What one call leaves: no token, or its bounds and whether it is a delimiter. */
  datatype Outcome = NoToken(at: nat) | Token(first: nat, last: nat, isDelim: bool)

  /** Where the token that has brought the automaton to state s at p ends. */
  function TokenEnd(text: Text, t: Settings, s: State, p: nat): (e: nat)
    requires p <= |text|
    ensures p <= e <= |text|
    decreases |text| - p
  {
    if p == |text| || t.Breaks(s, text[p]) then p else TokenEnd(text, t, t.After(s, text[p]), p + 1)
  }

  /** One call of GetNext with the previous token ending at p. */
  function Next(text: Text, t: Settings, p: nat): (o: Outcome)
    requires p <= |text|
    ensures o.NoToken? ==> o.at == |text|
    ensures o.Token? ==> p <= o.first < o.last <= |text|
    decreases |text| - p
  {
    if p == |text| then NoToken(p)
    else if t.Breaks(FRESH, text[p]) then
      if t.returnDelims then Token(p, p + 1, true) else Next(text, t, p + 1)
    else Token(p, TokenEnd(text, t, t.After(FRESH, text[p]), p + 1), false)
  }

  lemma NextStep(text: Text, t: Settings, p: nat)
    requires p <= |text|
    ensures Next(text, t, p) ==
            if p == |text| then NoToken(p)
            else if t.Breaks(FRESH, text[p]) then
              if t.returnDelims then Token(p, p + 1, true) else Next(text, t, p + 1)
            else Token(p, TokenEnd(text, t, t.After(FRESH, text[p]), p + 1), false)
  {
  }

  lemma TokenEndStep(text: Text, t: Settings, s: State, p: nat)
    requires p <= |text|
    ensures TokenEnd(text, t, s, p) ==
            if p == |text| || t.Breaks(s, text[p]) then p else TokenEnd(text, t, t.After(s, text[p]), p + 1)
  {
  }

  lemma BreakKeeps(t: Settings, s: State, c: char)
    ensures t.Breaks(s, c) ==> t.After(s, c) == s
  {
  }

  // ----- The class -----

  class Tokenizer {
    const text: Text
    const settings: Settings
    var tokenBegin: nat
    var tokenEnd: nat
    var tokenIsDelim: bool

    ghost predicate Valid()
      reads this
    {
      tokenBegin <= tokenEnd <= |text|
    }

    constructor (text: Text, settings: Settings)
      ensures Valid() && this.text == text && this.settings == settings && tokenEnd == 0
    {
      this.text, this.settings := text, settings;
      tokenBegin, tokenEnd, tokenIsDelim := 0, 0, false;
    }

    /** The fields agree with the outcome of a call. */
    predicate Shows(found: bool, o: Outcome)
      reads this
    {
      match o
      case NoToken(at) => !found && tokenBegin == tokenEnd == at && !tokenIsDelim
      case Token(first, last, isDelim) =>
        found && tokenBegin == first && tokenEnd == last && tokenIsDelim == isDelim
    }

    /** GetNext for the case without quotes and options. */
    method QuickGetNext() returns (found: bool)
      requires Valid() && settings.quotes == [] && !settings.returnDelims
      modifies this
      ensures Valid() && Shows(found, Next(text, settings, old(tokenEnd)))
    {
      hide Next, TokenEnd;
      ghost var o := Next(text, settings, tokenEnd);
      tokenIsDelim := false;
      while true
        invariant Valid() && !tokenIsDelim
        invariant Next(text, settings, tokenEnd) == o
        decreases |text| - tokenEnd
      {
        tokenBegin := tokenEnd;
        NextStep(text, settings, tokenEnd);
        if tokenEnd == |text| {
          return false;
        }
        tokenEnd := tokenEnd + 1;
        if text[tokenBegin] !in settings.delims {
          break;
        }
      }
      ghost var s := settings.After(FRESH, text[tokenBegin]);
      while tokenEnd != |text| && text[tokenEnd] !in settings.delims
        invariant Valid() && tokenBegin < tokenEnd && !tokenIsDelim && !s.inQuote
        invariant o == Token(tokenBegin, TokenEnd(text, settings, s, tokenEnd), false)
        decreases |text| - tokenEnd
      {
        TokenEndStep(text, settings, s, tokenEnd);
        s := settings.After(s, text[tokenEnd]);
        tokenEnd := tokenEnd + 1;
      }
      TokenEndStep(text, settings, s, tokenEnd);
      found := true;
    }

    /** AdvanceOne: false when a delimiter was hit. */
    method AdvanceOne(state: State, c: char) returns (ok: bool, state': State)
      ensures ok == !settings.Breaks(state, c) && state' == settings.After(state, c)
    {
      state' := state;
      if state.inQuote {
        if state.inEscape {
          state' := state'.(inEscape := false);
        } else if c == '\\' {
          state' := state'.(inEscape := true);
        } else if c == state.quoteChar {
          state' := state'.(inQuote := false);
        }
      } else {
        if c in settings.delims {
          return false, state';
        }
        state' := state'.(quoteChar := c);
        state' := state'.(inQuote := c in settings.quotes);
      }
      ok := true;
    }

    /** GetNext in general. */
    method FullGetNext() returns (found: bool)
      requires Valid()
      modifies this
      ensures Valid() && Shows(found, Next(text, settings, old(tokenEnd)))
    {
      hide Next, TokenEnd, Settings.After, Settings.Breaks;
      ghost var o := Next(text, settings, tokenEnd);
      var state := FRESH;
      tokenIsDelim := false;
      var ok;
      while true
        invariant Valid() && !tokenIsDelim && state == FRESH
        invariant Next(text, settings, tokenEnd) == o
        decreases |text| - tokenEnd
      {
        tokenBegin := tokenEnd;
        NextStep(text, settings, tokenEnd);
        if tokenEnd == |text| {
          return false;
        }
        tokenEnd := tokenEnd + 1;
        BreakKeeps(settings, state, text[tokenBegin]);
        ok, state := AdvanceOne(state, text[tokenBegin]);
        if ok {
          break;
        }
        if settings.returnDelims {
          tokenIsDelim := true;
          return true;
        }
      }
      while tokenEnd != |text|
        invariant Valid() && tokenBegin < tokenEnd && !tokenIsDelim
        invariant o == Token(tokenBegin, TokenEnd(text, settings, state, tokenEnd), false)
        decreases |text| - tokenEnd
      {
        TokenEndStep(text, settings, state, tokenEnd);
        ok, state := AdvanceOne(state, text[tokenEnd]);
        if !ok {
          break;
        }
        tokenEnd := tokenEnd + 1;
      }
      found := true;
    }

    /** The fast path is taken only where it does what the full one does. */
    method GetNext() returns (found: bool)
      requires Valid()
      modifies this
      ensures Valid() && Shows(found, Next(text, settings, old(tokenEnd)))
    {
      if settings.quotes == [] && !settings.returnDelims {
        found := QuickGetNext();
      } else {
        found := FullGetNext();
      }
    }
  }

  // ----- One run over the whole text -----

  /** The state of a single automaton before character p. */
  function Run(text: Text, t: Settings, p: nat): State
    requires p <= |text|
  {
    if p == 0 then FRESH else t.After(Run(text, t, p - 1), text[p - 1])
  }

  /** Character p is a delimiter outside all quotes. */
  predicate BreakAt(text: Text, t: Settings, p: nat)
    requires p < |text|
  {
    t.Breaks(Run(text, t, p), text[p])
  }

  /** States that no later character can tell apart. */
  predicate Alike(s: State, u: State) {
    s.inQuote == u.inQuote && s.inEscape == u.inEscape && (s.inQuote ==> s.quoteChar == u.quoteChar)
  }

  lemma AlikeStep(t: Settings, s: State, u: State, c: char)
    requires Alike(s, u)
    ensures t.Breaks(s, c) == t.Breaks(u, c) && Alike(t.After(s, c), t.After(u, c))
  {
  }

  lemma {:induction false} EscapeOnlyInQuotes(text: Text, t: Settings, p: nat)
    requires p <= |text|
    ensures Run(text, t, p).inEscape ==> Run(text, t, p).inQuote
  {
    if p > 0 {
      EscapeOnlyInQuotes(text, t, p - 1);
    }
  }

  /** A token that starts outside quotes, at p or at the end, can be found with a fresh automaton. */
  predicate Restartable(text: Text, t: Settings, p: nat)
    requires p <= |text|
  {
    p == |text| || !Run(text, t, p).inQuote
  }

  lemma {:induction false} TokenEndMeaning(text: Text, t: Settings, s: State, p: nat)
    requires p <= |text| && Alike(s, Run(text, t, p))
    ensures var e := TokenEnd(text, t, s, p);
            && (forall q :: p <= q < e ==> !BreakAt(text, t, q))
            && (e < |text| ==> BreakAt(text, t, e))
    decreases |text| - p
  {
    if p < |text| {
      AlikeStep(t, s, Run(text, t, p), text[p]);
      if !t.Breaks(s, text[p]) {
        TokenEndMeaning(text, t, t.After(s, text[p]), p + 1);
      }
    }
  }

  /**
   Each token is a delimiter of the single run, or a stretch without one that reaches
   to the next delimiter or the end; what is skipped before it are delimiters.
   */
  lemma {:induction false} NextMeaning(text: Text, t: Settings, p: nat)
    requires p <= |text| && Restartable(text, t, p)
    ensures match Next(text, t, p)
            case NoToken(_) => forall q :: p <= q < |text| ==> !t.returnDelims && BreakAt(text, t, q)
            case Token(first, last, isDelim) =>
              && (forall q :: p <= q < first ==> !t.returnDelims && BreakAt(text, t, q))
              && (isDelim ==> t.returnDelims && last == first + 1 && BreakAt(text, t, first))
              && (!isDelim ==> (forall q :: first <= q < last ==> !BreakAt(text, t, q))
                               && (last < |text| ==> BreakAt(text, t, last)))
              && Restartable(text, t, last)
    decreases |text| - p
  {
    if p < |text| {
      var s := Run(text, t, p);
      EscapeOnlyInQuotes(text, t, p);
      AlikeStep(t, FRESH, s, text[p]);
      assert Run(text, t, p + 1) == t.After(s, text[p]);
      if t.Breaks(FRESH, text[p]) {
        assert Restartable(text, t, p + 1);
        if !t.returnDelims {
          NextMeaning(text, t, p + 1);
        }
      } else {
        TokenEndMeaning(text, t, t.After(FRESH, text[p]), p + 1);
      }
    }
  }

  // ----- Quotations, by the text alone -----

  /**
   Where the quotation that c has opened ends: at the next c, save those that a backslash
   hides like any other character; or at the end of the text.
   */
  function QuoteEnd(text: Text, c: char, p: nat): (e: nat)
    requires p <= |text|
    ensures p <= e <= |text|
    decreases |text| - p
  {
    if p == |text| then p
    else if text[p] == '\\' then if p + 1 == |text| then |text| else QuoteEnd(text, c, p + 2)
    else if text[p] == c then p
    else QuoteEnd(text, c, p + 1)
  }

  /** Character q is a delimiter, and in no quotation that starts at p or later; p itself is outside. */
  predicate DelimiterAt(text: Text, t: Settings, p: nat, q: nat)
    requires p <= |text| && q < |text|
    decreases |text| - p
  {
    if p > q then false
    else if text[p] in t.delims then p == q || DelimiterAt(text, t, p + 1, q)
    else if text[p] in t.quotes then
      var e := QuoteEnd(text, text[p], p + 1);
      e < |text| && DelimiterAt(text, t, e + 1, q)
    else DelimiterAt(text, t, p + 1, q)
  }

  lemma RunStep(text: Text, t: Settings, p: nat)
    requires p < |text|
    ensures Run(text, t, p + 1) == t.After(Run(text, t, p), text[p])
  {
  }

  /** Inside a quotation nothing breaks, and behind its end the automaton is outside again. */
  lemma {:induction false} QuotationEnds(text: Text, t: Settings, c: char, p: nat)
    requires p <= |text| && Run(text, t, p) == State(true, false, c)
    ensures
      var e := QuoteEnd(text, c, p);
      && (forall q :: p <= q <= e && q < |text| ==> !BreakAt(text, t, q))
      && (e < |text| ==> !Run(text, t, e + 1).inQuote)
    decreases |text| - p
  {
    if p < |text| {
      RunStep(text, t, p);
      if text[p] == '\\' {
        if p + 1 < |text| {
          RunStep(text, t, p + 1);
          QuotationEnds(text, t, c, p + 2);
          assert !BreakAt(text, t, p + 1);
        }
      } else if text[p] != c {
        QuotationEnds(text, t, c, p + 1);
      }
      assert !BreakAt(text, t, p);
    }
    hide Run;
  }

  lemma {:induction false} BreakIffFrom(text: Text, t: Settings, p: nat, q: nat)
    requires p <= |text| && q < |text| && p <= q && !Run(text, t, p).inQuote
    ensures BreakAt(text, t, q) <==> DelimiterAt(text, t, p, q)
    decreases |text| - p
  {
    RunStep(text, t, p);
    EscapeOnlyInQuotes(text, t, p);
    if text[p] !in t.delims && text[p] in t.quotes {
      var e := QuoteEnd(text, text[p], p + 1);
      QuotationEnds(text, t, text[p], p + 1);
      hide Run;
      if e < q {
        BreakIffFrom(text, t, e + 1, q);
      }
    } else if p < q {
      BreakIffFrom(text, t, p + 1, q);
    }
  }

  /** What breaks is exactly the delimiters outside the quotations of the text. */
  lemma BreakIff(text: Text, t: Settings, q: nat)
    requires q < |text|
    ensures BreakAt(text, t, q) <==> DelimiterAt(text, t, 0, q)
  {
    BreakIffFrom(text, t, 0, q);
  }

  // ----- All tokens -----

  function Tokens(text: Text, t: Settings, p: nat): seq<Text>
    requires p <= |text|
    decreases |text| - p
  {
    var o := Next(text, t, p);
    if o.NoToken? then [] else [text[o.first..o.last]] + Tokens(text, t, o.last)
  }

  function Concat(parts: seq<Text>): Text {
    if parts == [] then [] else parts[0] + Concat(parts[1..])
  }

  /** The characters from p on that are no delimiters of the single run. */
  function Kept(text: Text, t: Settings, p: nat): Text
    requires p <= |text|
    decreases |text| - p
  {
    if p == |text| then [] else (if BreakAt(text, t, p) then [] else [text[p]]) + Kept(text, t, p + 1)
  }

  lemma {:induction false} KeptAllBreaks(text: Text, t: Settings, p: nat, q: nat)
    requires p <= q <= |text| && forall i :: p <= i < q ==> BreakAt(text, t, i)
    ensures Kept(text, t, p) == Kept(text, t, q)
    decreases q - p
  {
    if p < q {
      KeptAllBreaks(text, t, p + 1, q);
    }
  }

  lemma {:induction false} KeptNoBreaks(text: Text, t: Settings, p: nat, q: nat)
    requires p <= q <= |text| && forall i :: p <= i < q ==> !BreakAt(text, t, i)
    ensures Kept(text, t, p) == text[p..q] + Kept(text, t, q)
    decreases q - p
  {
    if p < q {
      KeptNoBreaks(text, t, p + 1, q);
      assert text[p..q] == [text[p]] + text[p + 1..q];
    }
  }

  /** With RETURN_DELIMS the tokens make up the whole text; without, everything but its delimiters. */
  lemma {:induction false} TokensMeaning(text: Text, t: Settings, p: nat)
    requires p <= |text| && Restartable(text, t, p)
    ensures Concat(Tokens(text, t, p)) == if t.returnDelims then text[p..] else Kept(text, t, p)
    decreases |text| - p
  {
    NextMeaning(text, t, p);
    ConcatTokens(text, t, p);
    hide *;
    match Next(text, t, p) {
      case NoToken(_) =>
        if t.returnDelims {
          NothingSkipped(text, t, p);
        } else {
          KeptNothing(text, t, p);
        }
      case Token(first, last, isDelim) =>
        TokensMeaning(text, t, last);
        if t.returnDelims {
          NothingSkipped(text, t, p);
          Cut(text, p, last);
        } else {
          KeptToken(text, t, p, first, last);
        }
    }
  }

  lemma Cut(text: Text, p: nat, q: nat)
    requires p <= q <= |text|
    ensures text[p..] == text[p..q] + text[q..]
  {
  }

  /** With RETURN_DELIMS a token begins where the one before it ended. */
  lemma NothingSkipped(text: Text, t: Settings, p: nat)
    requires p <= |text| && t.returnDelims
    ensures match Next(text, t, p)
            case NoToken(_) => p == |text|
            case Token(first, _, _) => first == p
  {
  }

  lemma KeptNothing(text: Text, t: Settings, p: nat)
    requires p <= |text| && forall i :: p <= i < |text| ==> BreakAt(text, t, i)
    ensures Kept(text, t, p) == []
  {
    hide BreakAt;
    KeptAllBreaks(text, t, p, |text|);
  }

  lemma KeptToken(text: Text, t: Settings, p: nat, first: nat, last: nat)
    requires p <= first <= last <= |text| && forall i :: p <= i < first ==> BreakAt(text, t, i)
    requires forall i :: first <= i < last ==> !BreakAt(text, t, i)
    ensures Kept(text, t, p) == text[first..last] + Kept(text, t, last)
  {
    hide BreakAt, Kept;
    KeptAllBreaks(text, t, p, first);
    KeptNoBreaks(text, t, first, last);
  }

  lemma ConcatTokens(text: Text, t: Settings, p: nat)
    requires p <= |text|
    ensures Concat(Tokens(text, t, p)) ==
            match Next(text, t, p)
            case NoToken(_) => []
            case Token(first, last, _) => text[first..last] + Concat(Tokens(text, t, last))
  {
    hide Next;
    match Next(text, t, p)
    case NoToken(_) =>
    case Token(first, last, _) =>
      var rest := Tokens(text, t, last);
      assert ([text[first..last]] + rest)[1..] == rest;
  }

  lemma NextToken(text: Text, t: Settings, p: nat)
    requires p <= |text|
    ensures
      var o := Next(text, t, p);
      Tokens(text, t, p) == if o.NoToken? then [] else [text[o.first..o.last]] + Tokens(text, t, o.last)
  {
    hide Next;
  }

  /** Running GetNext to the end. */
  method Tokenize(text: Text, settings: Settings) returns (tokens: seq<Text>)
    ensures tokens == Tokens(text, settings, 0)
    ensures settings.returnDelims ==> Concat(tokens) == text
    ensures !settings.returnDelims ==> Concat(tokens) == Kept(text, settings, 0)
  {
    hide Concat, Kept, Tokens, Next;
    var t := new Tokenizer(text, settings);
    tokens := [];
    var found := t.GetNext();
    ghost var p := 0;
    while found
      invariant t.Valid() && t.text == text && t.settings == settings && fresh(t) && p <= |text|
      invariant t.Shows(found, Next(text, settings, p))
      invariant tokens + Tokens(text, settings, p) == Tokens(text, settings, 0)
      decreases |text| - p, found
    {
      NextToken(text, settings, p);
      tokens := tokens + [text[t.tokenBegin..t.tokenEnd]];
      p := t.tokenEnd;
      found := t.GetNext();
    }
    NextToken(text, settings, p);
    TokensMeaning(text, settings, 0);
    assert text[0..] == text;
  }
}
