/** The search box: tokenizer, printer, operator extraction and chip absorption. */
module FilterParse {
  import opened Prelude

  /** `text` as read, quotes dropped; `raw` as typed, closed quotes kept. */
  datatype Token = Token(text: string, raw: string)

  const QUOTE := '\"'

  /** What JavaScript's \s matches. */
  predicate IsSpace(c: char) {
    || '\t' <= c <= '\r' || c == ' ' || c == '\U{00A0}' || c == '\U{1680}'
    || '\U{2000}' <= c <= '\U{200A}' || c == '\U{2028}' || c == '\U{2029}'
    || c == '\U{202F}' || c == '\U{205F}' || c == '\U{3000}' || c == '\U{FEFF}'
  }

  // --- the tokenizer ------------------------------------------------------------

  function Flush(out: seq<Token>, buf: string, raw: string): seq<Token> {
    if buf != "" then out + [Token(buf, raw)] else out
  }

  /** The main loop's state; `mark` is `buf` and `raw` when the quote opened. */
  datatype Scanner = Scanner(out: seq<Token>, buf: string, raw: string, quoted: bool, mark: Token)

  const FRESH := Scanner([], "", "", false, Token("", ""))

  function Step(s: Scanner, c: char): Scanner {
    if s.quoted then
      if c == QUOTE then s.(quoted := false, raw := s.raw + [c])
      else s.(buf := s.buf + [c], raw := s.raw + [c])
    else if c == QUOTE then s.(quoted := true, mark := Token(s.buf, s.raw), raw := s.raw + [c])
    else if IsSpace(c) then s.(out := Flush(s.out, s.buf, s.raw), buf := "", raw := "")
    else s.(buf := s.buf + [c], raw := s.raw + [c])
  }

  function Scan(s: Scanner, q: string): Scanner
    decreases |q|
  {
    if q == "" then s else Scan(Step(s, q[0]), q[1..])
  }

  /** The second loop, over the text of a quote that never closed: plain
      characters, split at whitespace. */
  function Resplit(s: Scanner, tail: string): Scanner
    decreases |tail|
  {
    if tail == "" then s
    else if IsSpace(tail[0]) then
      Resplit(s.(out := Flush(s.out, s.buf, s.raw), buf := "", raw := ""), tail[1..])
    else Resplit(s.(buf := s.buf + [tail[0]], raw := s.raw + [tail[0]]), tail[1..])
  }

  /** `buf` only grows while the quote is open, so it starts with the marked text. */
  function Finish(s: Scanner): seq<Token> {
    var s := if s.quoted && |s.mark.text| <= |s.buf|
             then Resplit(s.(buf := s.mark.text, raw := s.mark.raw), s.buf[|s.mark.text|..])
             else s;
    Flush(s.out, s.buf, s.raw)
  }

  function Tokens(q: string): seq<Token> {
    Finish(Scan(FRESH, q))
  }

  method TokenizeRaw(q: string) returns (out: seq<Token>)
    ensures out == Tokens(q)
  {
    out := [];
    var buf, raw, inQuote := "", "", false;
    var bufBeforeQuote, rawBeforeQuote := "", "";
    for i := 0 to |q|
      invariant inQuote ==> |bufBeforeQuote| <= |buf|
      invariant Scan(FRESH, q)
                == Scan(Scanner(out, buf, raw, inQuote, Token(bufBeforeQuote, rawBeforeQuote)), q[i..])
    {
      var c := q[i];
      assert q[i..][1..] == q[i + 1..];
      if inQuote {
        if c == QUOTE {
          inQuote := false;
        } else {
          buf := buf + [c];
        }
        raw := raw + [c];
      } else if c == QUOTE {
        inQuote := true;
        bufBeforeQuote, rawBeforeQuote := buf, raw;
        raw := raw + [c];
      } else if IsSpace(c) {
        if buf != "" {
          out := out + [Token(buf, raw)];
        }
        buf, raw := "", "";
      } else {
        buf, raw := buf + [c], raw + [c];
      }
    }
    assert q[|q|..] == "";
    ghost var scanned := Scanner(out, buf, raw, inQuote, Token(bufBeforeQuote, rawBeforeQuote));
    assert Scan(FRESH, q) == scanned;
    if inQuote {
      var tail := buf[|bufBeforeQuote|..];
      buf, raw := bufBeforeQuote, rawBeforeQuote;
      ghost var mark := scanned.mark;
      ghost var from := Scanner(out, buf, raw, inQuote, mark);
      for i := 0 to |tail|
        invariant Resplit(from, tail) == Resplit(Scanner(out, buf, raw, inQuote, mark), tail[i..])
      {
        assert tail[i..][1..] == tail[i + 1..];
        if IsSpace(tail[i]) {
          if buf != "" {
            out := out + [Token(buf, raw)];
          }
          buf, raw := "", "";
        } else {
          buf, raw := buf + [tail[i]], raw + [tail[i]];
        }
      }
      assert tail[|tail|..] == "";
    }
    if buf != "" {
      out := out + [Token(buf, raw)];
    }
  }

  // --- what a spelling means -----------------------------------------------------

  function Unquote(raw: string): string {
    if raw == "" then "" else (if raw[0] == QUOTE then "" else [raw[0]]) + Unquote(raw[1..])
  }

  /** Every quote closed, whitespace only inside quotes: one token's spelling. */
  predicate IsPiece(p: string, quoted: bool) {
    if p == "" then !quoted
    else if p[0] == QUOTE then IsPiece(p[1..], !quoted)
    else (quoted || !IsSpace(p[0])) && IsPiece(p[1..], quoted)
  }

  predicate WellSpelt(t: Token) {
    t.text != "" && IsPiece(t.raw, false) && Unquote(t.raw) == t.text
  }

  predicate AllWellSpelt(ts: seq<Token>) {
    forall t :: t in ts ==> WellSpelt(t)
  }

  // --- the printer ------------------------------------------------------------------

  /** raw.replace(/"[^"]*"/g, ""): each quote with the next one after it goes. */
  function OutsideQuotes(raw: string): string
    decreases |raw|
  {
    if raw == "" then ""
    else if raw[0] == QUOTE && QUOTE in raw[1..] then OutsideQuotes(AfterQuote(raw[1..]))
    else [raw[0]] + OutsideQuotes(raw[1..])
  }

  function AfterQuote(s: string): (r: string)
    requires QUOTE in s
    ensures |r| < |s|
  {
    if s[0] == QUOTE then s[1..] else AfterQuote(s[1..])
  }

  predicate NeedsQuotes(text: string) {
    exists c :: c in text && (IsSpace(c) || c == '\'')
  }

  function Spell(t: Token): string {
    if t.raw != t.text && '\'' !in OutsideQuotes(t.raw) then t.raw
    else if !NeedsQuotes(t.text) then t.text
    else if t.text != "" && t.text[0] == '-' then "-" + [QUOTE] + t.text[1..] + [QUOTE]
    else [QUOTE] + t.text + [QUOTE]
  }

  function Joined(parts: seq<string>): string {
    if parts == [] then ""
    else if |parts| == 1 then parts[0]
    else parts[0] + " " + Joined(parts[1..])
  }

  function Spellings(ts: seq<Token>): seq<string> {
    seq(|ts|, i requires 0 <= i < |ts| => Spell(ts[i]))
  }

  function JoinTokens(ts: seq<Token>): string {
    Joined(Spellings(ts))
  }

  function Texts(ts: seq<Token>): seq<string> {
    seq(|ts|, i requires 0 <= i < |ts| => ts[i].text)
  }

  // --- spelling lemmas ----------------------------------------------------------------

  lemma {:induction false} UnquoteConcat(a: string, b: string)
    ensures Unquote(a + b) == Unquote(a) + Unquote(b)
    decreases |a|
  {
    if a == "" {
      assert a + b == b;
    } else {
      assert (a + b)[0] == a[0] && (a + b)[1..] == a[1..] + b;
      UnquoteConcat(a[1..], b);
    }
  }

  /** Text without quotes inside an open quote: it stays open. */
  lemma {:induction false} PieceConcat(a: string, b: string, quoted: bool, mid: bool)
    requires IsPrefix(a, quoted, mid) && IsPiece(b, mid)
    ensures IsPiece(a + b, quoted)
    decreases |a|
  {
    if a == "" {
      assert a + b == b;
    } else {
      assert (a + b)[0] == a[0] && (a + b)[1..] == a[1..] + b;
      PieceConcat(a[1..], b, if a[0] == QUOTE then !quoted else quoted, mid);
    }
  }

  /** `a` read from `quoted` ends in `mid`, with no whitespace outside quotes. */
  predicate IsPrefix(a: string, quoted: bool, mid: bool) {
    if a == "" then quoted == mid
    else if a[0] == QUOTE then IsPrefix(a[1..], !quoted, mid)
    else (quoted || !IsSpace(a[0])) && IsPrefix(a[1..], quoted, mid)
  }

  lemma {:induction false} PrefixConcat(a: string, b: string, quoted: bool, mid: bool, end: bool)
    requires IsPrefix(a, quoted, mid) && IsPrefix(b, mid, end)
    ensures IsPrefix(a + b, quoted, end)
    decreases |a|
  {
    if a == "" {
      assert a + b == b;
    } else {
      assert (a + b)[0] == a[0] && (a + b)[1..] == a[1..] + b;
      PrefixConcat(a[1..], b, if a[0] == QUOTE then !quoted else quoted, mid, end);
    }
  }

  lemma {:induction false} PieceIsPrefix(p: string, quoted: bool)
    ensures IsPiece(p, quoted) <==> IsPrefix(p, quoted, false)
    decreases |p|
  {
    if p != "" {
      PieceIsPrefix(p[1..], if p[0] == QUOTE then !quoted else quoted);
    }
  }

  lemma PrefixSnoc(a: string, c: char, mid: bool)
    requires IsPrefix(a, false, mid)
    ensures c == QUOTE ==> IsPrefix(a + [c], false, !mid)
    ensures c != QUOTE && (mid || !IsSpace(c)) ==> IsPrefix(a + [c], false, mid)
    ensures Unquote(a + [c]) == Unquote(a) + if c == QUOTE then "" else [c]
  {
    UnquoteConcat(a, [c]);
    assert [c][1..] == "";
    assert Unquote([c]) == if c == QUOTE then "" else [c];
    if c == QUOTE {
      PrefixConcat(a, [c], false, mid, !mid);
    } else if mid || !IsSpace(c) {
      PrefixConcat(a, [c], false, mid, mid);
    }
  }

  // --- every token of every query is well spelt -------------------------------------------

  predicate ScannerOk(s: Scanner) {
    && AllWellSpelt(s.out)
    && Unquote(s.raw) == s.buf && IsPrefix(s.raw, false, s.quoted)
    && (s.quoted ==> |s.mark.text| <= |s.buf| && Unquote(s.mark.raw) == s.mark.text
                     && IsPrefix(s.mark.raw, false, false))
  }

  lemma FlushOk(out: seq<Token>, buf: string, raw: string)
    requires AllWellSpelt(out) && Unquote(raw) == buf && IsPrefix(raw, false, false)
    ensures AllWellSpelt(Flush(out, buf, raw))
  {
    PieceIsPrefix(raw, false);
  }

  lemma StepOk(s: Scanner, c: char)
    requires ScannerOk(s)
    ensures ScannerOk(Step(s, c))
  {
    PrefixSnoc(s.raw, c, s.quoted);
    if !s.quoted {
      FlushOk(s.out, s.buf, s.raw);
    }
  }

  lemma {:induction false} ScanOk(s: Scanner, q: string)
    requires ScannerOk(s)
    ensures ScannerOk(Scan(s, q))
    decreases |q|
  {
    if q != "" {
      StepOk(s, q[0]);
      ScanOk(Step(s, q[0]), q[1..]);
    }
  }

  lemma {:induction false} ResplitOk(s: Scanner, tail: string)
    requires AllWellSpelt(s.out) && Unquote(s.raw) == s.buf && IsPrefix(s.raw, false, false)
    requires QUOTE !in tail
    ensures var r := Resplit(s, tail);
            AllWellSpelt(r.out) && Unquote(r.raw) == r.buf && IsPrefix(r.raw, false, false)
    decreases |tail|
  {
    if tail != "" {
      assert tail[0] in tail && forall c :: c in tail[1..] ==> c in tail;
      PrefixSnoc(s.raw, tail[0], false);
      FlushOk(s.out, s.buf, s.raw);
      if IsSpace(tail[0]) {
        ResplitOk(s.(out := Flush(s.out, s.buf, s.raw), buf := "", raw := ""), tail[1..]);
      } else {
        ResplitOk(s.(buf := s.buf + [tail[0]], raw := s.raw + [tail[0]]), tail[1..]);
      }
    }
  }

  lemma {:induction false} UnquotedHasNoQuote(raw: string)
    ensures QUOTE !in Unquote(raw)
    decreases |raw|
  {
    if raw != "" {
      UnquotedHasNoQuote(raw[1..]);
    }
  }

  lemma TokensAreWellSpelt(q: string)
    ensures AllWellSpelt(Tokens(q))
  {
    ScanOk(FRESH, q);
    var s := Scan(FRESH, q);
    if s.quoted {
      UnquotedHasNoQuote(s.raw);
      var tail := s.buf[|s.mark.text|..];
      assert forall c :: c in tail ==> c in s.buf;
      ResplitOk(s.(buf := s.mark.text, raw := s.mark.raw), tail);
      var r := Resplit(s.(buf := s.mark.text, raw := s.mark.raw), tail);
      FlushOk(r.out, r.buf, r.raw);
    } else {
      FlushOk(s.out, s.buf, s.raw);
    }
  }

  // --- printing and reading back --------------------------------------------------------

  lemma {:induction false} PlainTextIsPiece(text: string)
    requires QUOTE !in text
    ensures Unquote(text) == text
    ensures IsPrefix(text, true, true)
    ensures (forall c :: c in text ==> !IsSpace(c)) ==> IsPiece(text, false)
    decreases |text|
  {
    if text != "" {
      assert text[0] in text && forall c :: c in text[1..] ==> c in text;
      PlainTextIsPiece(text[1..]);
    }
  }

  lemma {:induction false} AfterClosingQuote(body: string)
    requires QUOTE !in body
    ensures QUOTE in body + [QUOTE] && AfterQuote(body + [QUOTE]) == ""
    decreases |body|
  {
    assert (body + [QUOTE])[|body|] == QUOTE;
    if body != "" {
      assert body[0] in body && forall c :: c in body[1..] ==> c in body;
      assert (body + [QUOTE])[0] == body[0] && (body + [QUOTE])[1..] == body[1..] + [QUOTE];
      AfterClosingQuote(body[1..]);
    }
  }

  /** A quoted run spells its text as one token, with nothing outside the quotes. */
  lemma QuotedRun(body: string)
    requires QUOTE !in body
    ensures var p := [QUOTE] + body + [QUOTE];
            IsPiece(p, false) && Unquote(p) == body && OutsideQuotes(p) == ""
  {
    var p := [QUOTE] + body + [QUOTE];
    PlainTextIsPiece(body);
    assert IsPiece([QUOTE], true) by {
      assert [QUOTE][1..] == "";
    }
    PieceConcat(body, [QUOTE], true, true);
    assert p[0] == QUOTE && p[1..] == body + [QUOTE];
    UnquoteConcat(body, [QUOTE]);
    assert [QUOTE][1..] == "";
    AfterClosingQuote(body);
  }

  lemma DashedRun(body: string)
    requires QUOTE !in body
    ensures var p := "-" + [QUOTE] + body + [QUOTE];
            IsPiece(p, false) && Unquote(p) == "-" + body && OutsideQuotes(p) == "-"
  {
    var run := [QUOTE] + body + [QUOTE];
    var p := "-" + [QUOTE] + body + [QUOTE];
    QuotedRun(body);
    assert p[0] == '-' && p[1..] == run;
  }

  /** Printing a token keeps its text, gives one token's spelling, and printing
      it again from that spelling changes nothing. */
  lemma SpellOk(t: Token)
    requires WellSpelt(t)
    ensures IsPiece(Spell(t), false) && Unquote(Spell(t)) == t.text
    ensures Spell(Token(t.text, Spell(t))) == Spell(t)
  {
    UnquotedHasNoQuote(t.raw);
    if t.raw != t.text && '\'' !in OutsideQuotes(t.raw) {
    } else if !NeedsQuotes(t.text) {
      PlainTextIsPiece(t.text);
    } else if t.text[0] == '-' {
      assert forall c :: c in t.text[1..] ==> c in t.text;
      DashedRun(t.text[1..]);
      assert t.text == "-" + t.text[1..];
      assert Spell(t)[1] == QUOTE && QUOTE in Spell(t);
    } else {
      QuotedRun(t.text);
      assert Spell(t)[0] == QUOTE && QUOTE in Spell(t);
    }
  }

  lemma {:induction false} ScanConcat(s: Scanner, a: string, b: string)
    ensures Scan(s, a + b) == Scan(Scan(s, a), b)
    decreases |a|
  {
    if a == "" {
      assert a + b == b;
    } else {
      assert (a + b)[0] == a[0] && (a + b)[1..] == a[1..] + b;
      ScanConcat(Step(s, a[0]), a[1..], b);
    }
  }

  lemma {:induction false} ScanPiece(s: Scanner, p: string)
    requires IsPiece(p, s.quoted)
    ensures var r := Scan(s, p);
            !r.quoted && r.out == s.out && r.buf == s.buf + Unquote(p) && r.raw == s.raw + p
    decreases |p|
  {
    if p != "" {
      ScanPiece(Step(s, p[0]), p[1..]);
      assert p == [p[0]] + p[1..];
    }
  }

  function Raws(ts: seq<Token>): seq<string> {
    seq(|ts|, i requires 0 <= i < |ts| => ts[i].raw)
  }

  predicate IsFresh(s: Scanner) {
    !s.quoted && s.buf == "" && s.raw == ""
  }

  /** One spelling and its separator: the token is out, the scanner is fresh. */
  lemma ScanRaw(s: Scanner, t: Token, rest: string) returns (next: Scanner)
    requires IsFresh(s) && WellSpelt(t)
    ensures Scan(s, t.raw + " " + rest) == Scan(next, rest)
    ensures IsFresh(next) && next.out == s.out + [t]
  {
    ScanPiece(s, t.raw);
    assert s.buf + Unquote(t.raw) == t.text && s.raw + t.raw == t.raw;
    assert t.raw + " " + rest == t.raw + (" " + rest);
    ScanConcat(s, t.raw, " " + rest);
    assert (" " + rest)[0] == ' ' && (" " + rest)[1..] == rest;
    next := Step(Scan(s, t.raw), ' ');
  }

  /** Spellings of whole tokens before anything else come out as these tokens. */
  lemma {:induction false} ScanRaws(s: Scanner, ts: seq<Token>, rest: seq<string>) returns (next: Scanner)
    requires IsFresh(s) && AllWellSpelt(ts) && rest != []
    ensures Scan(s, Joined(Raws(ts) + rest)) == Scan(next, Joined(rest))
    ensures IsFresh(next) && next.out == s.out + ts
    decreases |ts|
  {
    if ts == [] {
      assert Raws(ts) + rest == rest;
      next := s;
    } else {
      assert ts[0] in ts && forall t :: t in ts[1..] ==> t in ts;
      var others := Raws(ts[1..]) + rest;
      assert Raws(ts) + rest == [ts[0].raw] + others;
      next := ScanRaw(s, ts[0], Joined(others));
      next := ScanRaws(next, ts[1..], rest);
      assert ts == [ts[0]] + ts[1..];
    }
  }

  lemma ScanLast(s: Scanner, t: Token)
    requires IsFresh(s) && WellSpelt(t)
    ensures Finish(Scan(s, t.raw)) == s.out + [t]
  {
    ScanPiece(s, t.raw);
    assert s.buf + Unquote(t.raw) == t.text && s.raw + t.raw == t.raw;
  }

  /** Spellings of whole tokens, spaced, tokenize to exactly these tokens. */
  lemma RawsReadBack(ts: seq<Token>)
    requires AllWellSpelt(ts)
    ensures Tokens(Joined(Raws(ts))) == ts
  {
    if ts != [] {
      var n := |ts| - 1;
      var init, last := ts[..n], ts[n];
      assert last in ts && forall t :: t in init ==> t in ts;
      assert Raws(ts) == Raws(init) + [last.raw] && ts == init + [last];
      var next := ScanRaws(FRESH, init, [last.raw]);
      ScanLast(next, last);
    }
  }

  /** The tokens as the printer spells them. */
  function Respelt(ts: seq<Token>): seq<Token> {
    seq(|ts|, i requires 0 <= i < |ts| => Token(ts[i].text, Spell(ts[i])))
  }

  lemma RespeltOk(ts: seq<Token>)
    requires AllWellSpelt(ts)
    ensures AllWellSpelt(Respelt(ts)) && Raws(Respelt(ts)) == Spellings(ts)
    ensures Spellings(Respelt(ts)) == Spellings(ts)
  {
    forall i | 0 <= i < |ts| ensures WellSpelt(Respelt(ts)[i]) && Spell(Respelt(ts)[i]) == Spell(ts[i]) {
      assert ts[i] in ts;
      SpellOk(ts[i]);
    }
  }

  /** What the printer prints tokenizes to exactly the tokens printed. */
  lemma PrintedReadsBack(ts: seq<Token>)
    requires AllWellSpelt(ts)
    ensures Tokens(JoinTokens(ts)) == Respelt(ts)
  {
    RespeltOk(ts);
    RawsReadBack(Respelt(ts));
  }

  /** For every query: rebuilt from its tokens it reads as the same texts in the
      same order, and rebuilding once more changes nothing. */
  lemma TokenizerRoundTrip(q: string)
    ensures var rebuilt := JoinTokens(Tokens(q));
            && Texts(Tokens(rebuilt)) == Texts(Tokens(q))
            && JoinTokens(Tokens(rebuilt)) == rebuilt
  {
    TokensAreWellSpelt(q);
    PrintedReadsBack(Tokens(q));
    RespeltOk(Tokens(q));
  }

  // --- operators --------------------------------------------------------------------------

  /** `toLowerCase` on ASCII; no other character lowers into an operator's letters. */
  function Lower(s: string): (r: string)
    ensures |r| == |s|
  {
    seq(|s|, i requires 0 <= i < |s| => if 'A' <= s[i] <= 'Z' then 'a' + (s[i] - 'A') else s[i])
  }

  datatype Op = From | To | Subject | After | Before | Has | Lang

  /** The popover's operators, by name. */
  function OpNamed(name: string): Option<Op> {
    if name == "from" then Some(From)
    else if name == "to" then Some(To)
    else if name == "subject" then Some(Subject)
    else if name == "after" then Some(After)
    else if name == "before" then Some(Before)
    else if name == "has" then Some(Has)
    else if name == "lang" then Some(Lang)
    else None
  }

  datatype Operator = Operator(op: Op, val: string)

  function IndexOf(s: string, c: char): (i: nat)
    ensures i <= |s| && (i < |s| ==> s[i] == c) && c !in s[..i]
  {
    if s == "" || s[0] == c then 0
    else
      var i := 1 + IndexOf(s[1..], c);
      assert s[..i] == [s[0]] + s[1..][..i - 1];
      i
  }

  function PopoverOperator(tok: string): Option<Operator> {
    var colon := IndexOf(tok, ':');
    if colon == 0 || colon == |tok| then None
    else
      var op, val := OpNamed(Lower(tok[..colon])), tok[colon + 1..];
      if op.Some? && val != "" then Some(Operator(op.value, val)) else None
  }

  /** "" and null stand for a filter that is not set. */
  datatype Filters = Filters(
    from: string, to: string, subject: string, after: string, before: string,
    dateFrom: string, dateTo: string, language: string, hasAttachment: Option<bool>)

  const NO_FILTERS := Filters("", "", "", "", "", "", "", "", None)

  /** The token becomes a filter; None: it stays free text. */
  function Consume(f: Filters, text: string): Option<Filters> {
    match PopoverOperator(text)
    case None => None
    case Some(Operator(op, val)) =>
      match op
      case From => Some(f.(from := val))
      case To => Some(f.(to := val))
      case Subject => Some(f.(subject := val))
      case After => Some(f.(after := val, dateFrom := val))
      case Before => Some(f.(before := val, dateTo := val))
      case Lang => Some(f.(language := Lower(val)))
      case Has => if Lower(val) == "attachment" then Some(f.(hasAttachment := Some(true))) else None
  }

  datatype Extracted = Extracted(free: seq<Token>, filters: Filters)

  function Extract(ts: seq<Token>): Extracted
    decreases |ts|
  {
    if ts == [] then Extracted([], NO_FILTERS)
    else
      var n := |ts| - 1;
      var e := Extract(ts[..n]);
      match Consume(e.filters, ts[n].text)
      case None => e.(free := e.free + [ts[n]])
      case Some(f) => e.(filters := f)
  }

  method ExtractDslFilters(q: string) returns (freeText: string, filters: Filters)
    ensures freeText == JoinTokens(Extract(Tokens(q)).free) && filters == Extract(Tokens(q)).filters
  {
    var tokens := TokenizeRaw(q);
    filters := NO_FILTERS;
    var freeParts: seq<Token> := [];
    for i := 0 to |tokens|
      invariant Extract(tokens[..i]) == Extracted(freeParts, filters)
    {
      assert tokens[..i + 1][..i] == tokens[..i];
      match Consume(filters, tokens[i].text) {
        case None => freeParts := freeParts + [tokens[i]];
        case Some(f) => filters := f;
      }
    }
    assert tokens[..|tokens|] == tokens;
    freeText := JoinTokens(freeParts);
  }

  predicate IsFree(text: string) {
    Consume(NO_FILTERS, text).None?
  }

  lemma {:induction false} FreeTokensStayFree(ts: seq<Token>)
    requires forall t :: t in ts ==> IsFree(t.text)
    ensures Extract(ts) == Extracted(ts, NO_FILTERS)
    decreases |ts|
  {
    if ts != [] {
      var n := |ts| - 1;
      assert forall t :: t in ts[..n] ==> t in ts;
      assert ts[n] in ts;
      FreeTokensStayFree(ts[..n]);
      assert ts == ts[..n] + [ts[n]];
    }
  }

  lemma {:induction false} FreeTokensAreFree(ts: seq<Token>)
    ensures forall t :: t in Extract(ts).free ==> t in ts && IsFree(t.text)
    decreases |ts|
  {
    if ts != [] {
      FreeTokensAreFree(ts[..|ts| - 1]);
      assert forall t :: t in ts[..|ts| - 1] ==> t in ts;
    }
  }

  /** The free text of a query holds no filter: extracting from it again finds
      none and gives it back unchanged. */
  lemma FreeTextHasNoFilters(q: string)
    ensures var e := Extract(Tokens(q));
            var again := Extract(Tokens(JoinTokens(e.free)));
            && again.filters == NO_FILTERS
            && JoinTokens(again.free) == JoinTokens(e.free)
  {
    var free := Extract(Tokens(q)).free;
    TokensAreWellSpelt(q);
    FreeTokensAreFree(Tokens(q));
    PrintedReadsBack(free);
    forall t | t in Respelt(free) ensures IsFree(t.text) {
      var i :| 0 <= i < |free| && Respelt(free)[i] == t;
      assert free[i] in free;
    }
    FreeTokensStayFree(Respelt(free));
    RespeltOk(free);
  }

  // --- settling a typed operator against a chip ----------------------------------------------

  predicate DigitsOnly(s: string) {
    forall c :: c in s ==> '0' <= c <= '9'
  }

  /** ^\d{4}-\d{1,2}-\d{1,2}$ */
  predicate IsDateShape(s: string) {
    HasMonthOf(s, 1) || HasMonthOf(s, 2)
  }

  predicate HasMonthOf(s: string, m: nat) {
    && (|s| == 7 + m || |s| == 8 + m)
    && DigitsOnly(s[..4]) && s[4] == '-'
    && DigitsOnly(s[5..5 + m]) && s[5 + m] == '-'
    && DigitsOnly(s[6 + m..])
  }

  /** The operators whose chip a typed value silently outvotes. */
  const SCALARS := [From, To, Subject, After, Before]

  function Or(a: string, b: string): string {
    if a != "" then a else b
  }

  function Typed(f: Filters, k: Op): string {
    match k
    case From => f.from
    case To => f.to
    case Subject => f.subject
    case After => f.after
    case Before => f.before
    case _ => ""
  }

  /** The chip's value; a date chip may be set under either of its two names. */
  function Chip(f: Filters, k: Op): string {
    match k
    case After => Or(f.after, f.dateFrom)
    case Before => Or(f.before, f.dateTo)
    case _ => Typed(f, k)
  }

  function SetChip(f: Filters, k: Op, v: string): Filters {
    match k
    case From => f.(from := v)
    case To => f.(to := v)
    case Subject => f.(subject := v)
    case After => f.(after := v, dateFrom := v)
    case Before => f.(before := v, dateTo := v)
    case _ => f
  }

  /** A typed value that contradicts its chip; a date only when shaped like one. */
  predicate Conflict(typed: Filters, chips: Filters, k: Op) {
    var v := Typed(typed, k);
    && v != "" && Chip(chips, k) != "" && v != Chip(chips, k)
    && (k.After? || k.Before? ==> IsDateShape(v))
  }

  function Absorbed(typed: Filters, chips: Filters, keys: seq<Op>): set<Op> {
    set k | k in keys && Conflict(typed, chips, k)
  }

  function Settle(typed: Filters, chips: Filters, keys: seq<Op>): Filters
    decreases |keys|
  {
    if keys == [] then chips
    else
      var n := |keys| - 1;
      var next := Settle(typed, chips, keys[..n]);
      if Conflict(typed, chips, keys[n]) then SetChip(next, keys[n], Typed(typed, keys[n])) else next
  }

  lemma OneMoreKey(typed: Filters, chips: Filters, keys: seq<Op>, i: nat)
    requires i < |keys|
    ensures Absorbed(typed, chips, keys[..i + 1])
            == Absorbed(typed, chips, keys[..i]) + if Conflict(typed, chips, keys[i]) then {keys[i]} else {}
    ensures Settle(typed, chips, keys[..i + 1])
            == var next := Settle(typed, chips, keys[..i]);
               if Conflict(typed, chips, keys[i]) then SetChip(next, keys[i], Typed(typed, keys[i])) else next
  {
    assert keys[..i + 1][..i] == keys[..i];
    assert keys[..i + 1] == keys[..i] + [keys[i]];
  }

  predicate Names(t: Token, absorbed: set<Op>) {
    PopoverOperator(t.text).Some? && PopoverOperator(t.text).value.op in absorbed
  }

  function Kept(ts: seq<Token>, absorbed: set<Op>): seq<Token>
    decreases |ts|
  {
    if ts == [] then []
    else
      var n := |ts| - 1;
      Kept(ts[..n], absorbed) + if Names(ts[n], absorbed) then [] else [ts[n]]
  }

  datatype AbsorbedQuery = AbsorbedQuery(query: string, filters: Filters)

  function Absorb(q: string, chips: Filters): AbsorbedQuery {
    var typed := Extract(Tokens(q)).filters;
    var absorbed := Absorbed(typed, chips, SCALARS);
    if absorbed == {} then AbsorbedQuery(q, chips)
    else AbsorbedQuery(JoinTokens(Kept(Tokens(q), absorbed)), Settle(typed, chips, SCALARS))
  }

  method AbsorbConflictingOperators(q: string, chips: Filters) returns (query: string, filters: Filters)
    ensures AbsorbedQuery(query, filters) == Absorb(q, chips)
  {
    var freeText, typed := ExtractDslFilters(q);
    var next := chips;
    var absorbed: set<Op> := {};
    for i := 0 to |SCALARS|
      invariant absorbed == Absorbed(typed, chips, SCALARS[..i])
      invariant next == Settle(typed, chips, SCALARS[..i])
    {
      var k := SCALARS[i];
      OneMoreKey(typed, chips, SCALARS, i);
      if Conflict(typed, chips, k) {
        next := SetChip(next, k, Typed(typed, k));
        absorbed := absorbed + {k};
      }
    }
    assert SCALARS[..|SCALARS|] == SCALARS;
    if absorbed == {} {
      return q, chips;
    }
    var tokens := TokenizeRaw(q);
    var kept := KeepOthers(tokens, absorbed);
    return JoinTokens(kept), next;
  }

  method KeepOthers(tokens: seq<Token>, absorbed: set<Op>) returns (kept: seq<Token>)
    ensures kept == Kept(tokens, absorbed)
  {
    kept := [];
    for i := 0 to |tokens|
      invariant kept == Kept(tokens[..i], absorbed)
    {
      assert tokens[..i + 1][..i] == tokens[..i];
      if !Names(tokens[i], absorbed) {
        kept := kept + [tokens[i]];
      }
    }
    assert tokens[..|tokens|] == tokens;
  }

  /** The last value typed for an operator, "" if none. */
  function LastValue(texts: seq<string>, op: Op): string
    decreases |texts|
  {
    if texts == [] then ""
    else
      var n := |texts| - 1;
      var p := PopoverOperator(texts[n]);
      if p.Some? && p.value.op == op then p.value.val else LastValue(texts[..n], op)
  }

  lemma {:induction false} TypedIsLast(ts: seq<Token>, k: Op)
    requires k in SCALARS
    ensures Typed(Extract(ts).filters, k) == LastValue(Texts(ts), k)
    decreases |ts|
  {
    if ts != [] {
      assert Texts(ts)[..|ts| - 1] == Texts(ts[..|ts| - 1]);
      TypedIsLast(ts[..|ts| - 1], k);
      ConsumeTypes(Extract(ts[..|ts| - 1]).filters, ts[|ts| - 1].text, k);
    }
  }

  lemma ConsumeTypes(f: Filters, text: string, k: Op)
    requires k in SCALARS
    ensures var p := PopoverOperator(text);
            var f' := Consume(f, text);
            Typed(if f'.Some? then f'.value else f, k)
            == if p.Some? && p.value.op == k then p.value.val else Typed(f, k)
  {
  }

  function Newest(text: string, op: Op, earlier: string): string {
    var p := PopoverOperator(text);
    if p.Some? && p.value.op == op then p.value.val else earlier
  }

  lemma LastValueStep(init: seq<Token>, last: Token, op: Op)
    ensures LastValue(Texts(init + [last]), op) == Newest(last.text, op, LastValue(Texts(init), op))
  {
    assert Texts(init + [last]) == Texts(init) + [last.text];
  }

  lemma {:induction false} LastValueOfKept(ts: seq<Token>, absorbed: set<Op>, op: Op)
    ensures LastValue(Texts(Kept(ts, absorbed)), op)
            == if op in absorbed then "" else LastValue(Texts(ts), op)
    decreases |ts|
  {
    if ts != [] {
      var init, last := ts[..|ts| - 1], ts[|ts| - 1];
      assert ts == init + [last];
      LastValueOfKept(init, absorbed, op);
      LastValueStep(init, last, op);
      var kept := Kept(init, absorbed);
      if Names(last, absorbed) {
        assert Kept(ts, absorbed) == kept;
      } else {
        LastValueStep(kept, last, op);
        assert Kept(ts, absorbed) == kept + [last];
      }
    }
  }

  lemma {:induction false} KeptIsSubset(ts: seq<Token>, absorbed: set<Op>)
    ensures forall t :: t in Kept(ts, absorbed) ==> t in ts
    decreases |ts|
  {
    if ts != [] {
      KeptIsSubset(ts[..|ts| - 1], absorbed);
      assert forall t :: t in ts[..|ts| - 1] ==> t in ts;
    }
  }

  lemma {:induction false} SettleSets(typed: Filters, chips: Filters, keys: seq<Op>, k: Op)
    requires forall x :: x in keys ==> x in SCALARS
    ensures Chip(Settle(typed, chips, keys), k)
            == if k in keys && Conflict(typed, chips, k) then Typed(typed, k) else Chip(chips, k)
    ensures Settle(typed, chips, keys).language == chips.language
    ensures Settle(typed, chips, keys).hasAttachment == chips.hasAttachment
    decreases |keys|
  {
    if keys != [] {
      var init, last := keys[..|keys| - 1], keys[|keys| - 1];
      assert forall x :: x in keys <==> x in init || x == last;
      SettleSets(typed, chips, init, k);
    }
  }

  /** What a scalar means to a reader: the last value typed, else the chip. */
  function Effective(q: string, chips: Filters, k: Op): string {
    Or(LastValue(Texts(Tokens(q)), k), Chip(chips, k))
  }

  /** The rebuilt query reads as the tokens that were kept. */
  lemma AbsorbedTexts(q: string, chips: Filters)
    ensures var absorbed := Absorbed(Extract(Tokens(q)).filters, chips, SCALARS);
            Texts(Tokens(Absorb(q, chips).query)) == Texts(Kept(Tokens(q), absorbed))
  {
    var absorbed := Absorbed(Extract(Tokens(q)).filters, chips, SCALARS);
    if absorbed == {} {
      KeptAll(Tokens(q));
    } else {
      TokensAreWellSpelt(q);
      KeptIsSubset(Tokens(q), absorbed);
      PrintedReadsBack(Kept(Tokens(q), absorbed));
    }
  }

  lemma {:induction false} KeptAll(ts: seq<Token>)
    ensures Kept(ts, {}) == ts
    decreases |ts|
  {
    if ts != [] {
      KeptAll(ts[..|ts| - 1]);
      assert ts == ts[..|ts| - 1] + [ts[|ts| - 1]];
    }
  }

  /** Absorbing changes what no scalar means; the other tokens stay, in order;
      and no typed value contradicts its chip afterwards. */
  lemma AbsorptionPreservesMeaning(q: string, chips: Filters, k: Op)
    requires k in SCALARS
    ensures var r := Absorb(q, chips);
            && Effective(r.query, r.filters, k) == Effective(q, chips, k)
            && !Conflict(Extract(Tokens(r.query)).filters, r.filters, k)
            && r.filters.language == chips.language && r.filters.hasAttachment == chips.hasAttachment
            && Texts(Tokens(r.query))
               == Texts(Kept(Tokens(q), Absorbed(Extract(Tokens(q)).filters, chips, SCALARS)))
  {
    var typed := Extract(Tokens(q)).filters;
    var absorbed := Absorbed(typed, chips, SCALARS);
    var r := Absorb(q, chips);
    AbsorbedTexts(q, chips);
    TypedIsLast(Tokens(q), k);
    TypedIsLast(Tokens(r.query), k);
    LastValueOfKept(Tokens(q), absorbed, k);
    SettleSets(typed, chips, SCALARS, k);
  }

  lemma AbsorptionIsIdempotent(q: string, chips: Filters)
    ensures var r := Absorb(q, chips);
            Absorb(r.query, r.filters) == r
  {
    var r := Absorb(q, chips);
    var typed := Extract(Tokens(r.query)).filters;
    forall k | k in SCALARS ensures !Conflict(typed, r.filters, k) {
      AbsorptionPreservesMeaning(q, chips, k);
    }
    assert Absorbed(typed, r.filters, SCALARS) == {};
  }
}
