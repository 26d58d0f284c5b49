/** What the tokenizer keeps of a query, whatever its quotes. */
module FilterTokens {
  import opened Prelude
  import opened FilterParse

  /** The white space and the line ends of ECMAScript. */
  lemma SpacesAre(c: char)
    ensures IsSpace(c) <==>
              c in {'\t', '\n', '\U{000B}', '\U{000C}', '\r', ' ', '\U{00A0}', '\U{1680}', '\U{2000}', '\U{2001}',
                    '\U{2002}', '\U{2003}', '\U{2004}', '\U{2005}', '\U{2006}', '\U{2007}', '\U{2008}', '\U{2009}',
                    '\U{200A}', '\U{2028}', '\U{2029}', '\U{202F}', '\U{205F}', '\U{3000}', '\U{FEFF}'}
  {
  }

  // --- a quote that never closes ---------------------------------------------------------

  /** An even number of double quotes: none of them is left open. */
  predicate IsBalanced(s: string) {
    Quotes(s) % 2 == 0
  }

  function Quotes(s: string): nat {
    if s == "" then 0 else (if s[0] == QUOTE then 1 else 0) + Quotes(s[1..])
  }

  lemma {:induction false} ScanCountsQuotes(s: Scanner, q: string)
    ensures Scan(s, q).quoted <==> (s.quoted != (Quotes(q) % 2 == 1))
    decreases |q|
  {
    if q != "" {
      ScanCountsQuotes(Step(s, q[0]), q[1..]);
    }
  }

  /** Without quotes the first loop does what the second one does. */
  lemma {:induction false} ScanIsResplit(s: Scanner, r: Scanner, q: string)
    requires QUOTE !in q && !s.quoted && s.out == r.out && s.buf == r.buf && s.raw == r.raw
    ensures var s', r' := Scan(s, q), Resplit(r, q);
            !s'.quoted && s'.out == r'.out && s'.buf == r'.buf && s'.raw == r'.raw
    decreases |q|
  {
    if q != "" {
      assert q[0] in q && forall c :: c in q[1..] ==> c in q;
      if IsSpace(q[0]) {
        ScanIsResplit(Step(s, q[0]), r.(out := Flush(r.out, r.buf, r.raw), buf := "", raw := ""), q[1..]);
      } else {
        ScanIsResplit(Step(s, q[0]), r.(buf := r.buf + [q[0]], raw := r.raw + [q[0]]), q[1..]);
      }
    }
  }

  /** Inside a quote that stays open, everything is text. */
  lemma {:induction false} ScanOpen(s: Scanner, q: string)
    requires s.quoted && QUOTE !in q
    ensures Scan(s, q) == s.(buf := s.buf + q, raw := s.raw + q)
    decreases |q|
  {
    if q != "" {
      assert q[0] in q && forall c :: c in q[1..] ==> c in q;
      ScanOpen(Step(s, q[0]), q[1..]);
      assert s.buf + [q[0]] + q[1..] == s.buf + q && s.raw + [q[0]] + q[1..] == s.raw + q;
    } else {
      assert s.buf + q == s.buf && s.raw + q == s.raw;
    }
  }

  lemma OpenQuoteIsDropped(s: Scanner, b: string)
    requires !s.quoted && QUOTE !in b
    ensures Finish(Scan(s, [QUOTE] + b)) == Finish(Scan(s, b))
  {
    var inside := Step(s, QUOTE);
    assert ([QUOTE] + b)[0] == QUOTE && ([QUOTE] + b)[1..] == b;
    ScanOpen(inside, b);
    var end := Scan(inside, b);
    assert end.buf[|end.mark.text|..] == b;
    var back := end.(buf := end.mark.text, raw := end.mark.raw);
    ScanIsResplit(s, back, b);
  }

  /** The quote that never closes counts for nothing: no word after it is lost. */
  lemma UnclosedQuoteIsDropped(a: string, b: string)
    requires IsBalanced(a) && QUOTE !in b
    ensures Tokens(a + [QUOTE] + b) == Tokens(a + b)
  {
    ScanCountsQuotes(FRESH, a);
    ScanConcat(FRESH, a, b);
    assert a + [QUOTE] + b == a + ([QUOTE] + b);
    ScanConcat(FRESH, a, [QUOTE] + b);
    OpenQuoteIsDropped(Scan(FRESH, a), b);
  }

  // --- what an older server would misread -------------------------------------------------

  lemma {:induction false} PlainIsOutside(text: string)
    requires QUOTE !in text
    ensures OutsideQuotes(text) == text
    decreases |text|
  {
    if text != "" {
      assert text[0] in text && forall c :: c in text[1..] ==> c in text;
      PlainIsOutside(text[1..]);
    }
  }

  /** However a token was typed, no apostrophe is printed outside quotes; quotes
      typed without one stay where they were; and a leading dash of a token typed
      without quotes stays in front of them. */
  lemma PrintsApostrophesQuoted(t: Token)
    requires WellSpelt(t)
    ensures '\'' !in OutsideQuotes(Spell(t))
    ensures t.raw != t.text && '\'' !in OutsideQuotes(t.raw) ==> Spell(t) == t.raw
    ensures t.raw == t.text && t.text[0] == '-' ==> Spell(t)[0] == '-'
  {
    UnquotedHasNoQuote(t.raw);
    if t.raw != t.text && '\'' !in OutsideQuotes(t.raw) {
    } else if !NeedsQuotes(t.text) {
      PlainIsOutside(t.text);
    } else if t.text[0] == '-' {
      assert forall c :: c in t.text[1..] ==> c in t.text;
      DashedRun(t.text[1..]);
    } else {
      QuotedRun(t.text);
    }
  }

  // --- nothing else is lost -----------------------------------------------------------------

  function BeforeQuote(s: string): (r: string)
    requires QUOTE in s
    ensures QUOTE !in r && s == r + [QUOTE] + AfterQuote(s)
  {
    if s[0] == QUOTE then "" else [s[0]] + BeforeQuote(s[1..])
  }

  /** The query without its quotes, and without the whitespace outside closed ones. */
  function Content(q: string): string
    decreases |q|
  {
    if q == "" then ""
    else if q[0] == QUOTE && QUOTE in q[1..] then BeforeQuote(q[1..]) + Content(AfterQuote(q[1..]))
    else if q[0] == QUOTE || IsSpace(q[0]) then Content(q[1..])
    else [q[0]] + Content(q[1..])
  }

  function Flat(ts: seq<Token>): string
    decreases |ts|
  {
    if ts == [] then "" else Flat(ts[..|ts| - 1]) + ts[|ts| - 1].text
  }

  lemma FlatOfFlush(out: seq<Token>, buf: string, raw: string)
    ensures Flat(Flush(out, buf, raw)) == Flat(out) + buf
  {
    assert (out + [Token(buf, raw)])[..|out|] == out;
    assert Flat(out) + "" == Flat(out);
  }

  lemma ScanClosed(s: Scanner, q: string) returns (next: Scanner)
    requires !s.quoted && q != "" && q[0] == QUOTE && QUOTE in q[1..]
    ensures Scan(s, q) == Scan(next, AfterQuote(q[1..]))
    ensures !next.quoted && next.out == s.out && next.buf == s.buf + BeforeQuote(q[1..])
  {
    var body, rest := BeforeQuote(q[1..]), AfterQuote(q[1..]);
    var inside := Step(s, QUOTE);
    assert q[1..] == body + ([QUOTE] + rest);
    ScanConcat(inside, body, [QUOTE] + rest);
    ScanOpen(inside, body);
    assert ([QUOTE] + rest)[0] == QUOTE && ([QUOTE] + rest)[1..] == rest;
    next := Step(Scan(inside, body), QUOTE);
  }

  lemma PlainContent(s: Scanner, q: string)
    requires !s.quoted && q != "" && q[0] != QUOTE
    ensures var next := Step(s, q[0]);
            Flat(next.out) + next.buf + Content(q[1..]) == Flat(s.out) + s.buf + Content(q)
  {
    FlatOfFlush(s.out, s.buf, s.raw);
  }

  lemma ClosedContent(s: Scanner, next: Scanner, q: string)
    requires q != "" && q[0] == QUOTE && QUOTE in q[1..]
    requires next.out == s.out && next.buf == s.buf + BeforeQuote(q[1..])
    ensures Flat(next.out) + next.buf + Content(AfterQuote(q[1..])) == Flat(s.out) + s.buf + Content(q)
  {
  }

  lemma {:induction false} ScanKeepsContent(s: Scanner, q: string)
    requires !s.quoted
    ensures Flat(Finish(Scan(s, q))) == Flat(s.out) + s.buf + Content(q)
    decreases |q|
  {
    if q == "" {
      FlatOfFlush(s.out, s.buf, s.raw);
      assert Flat(s.out) + s.buf + "" == Flat(s.out) + s.buf;
    } else if q[0] != QUOTE {
      ScanKeepsContent(Step(s, q[0]), q[1..]);
      PlainContent(s, q);
    } else if QUOTE in q[1..] {
      var next := ScanClosed(s, q);
      ScanKeepsContent(next, AfterQuote(q[1..]));
      ClosedContent(s, next, q);
    } else {
      assert q == [QUOTE] + q[1..];
      OpenQuoteIsDropped(s, q[1..]);
      ScanKeepsContent(s, q[1..]);
    }
  }

  /** For every query: the texts put together are its content. */
  lemma TokensKeepContent(q: string)
    ensures Flat(Tokens(q)) == Content(q)
  {
    ScanKeepsContent(FRESH, q);
  }
}
