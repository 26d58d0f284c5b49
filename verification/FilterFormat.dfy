/** The chips as a query, and back: which chips survive the round trip. */
module FilterFormat {
  import opened Prelude
  import opened FilterParse

  // --- the printer of chips --------------------------------------------------------------

  function Prefix(op: Op): string {
    match op
    case From => "from:"
    case To => "to:"
    case Subject => "subject:"
    case After => "after:"
    case Before => "before:"
    case Has => "has:"
    case Lang => "lang:"
  }

  /** The operators whose value is printed in quotes. */
  predicate IsQuoted(op: Op) {
    op in {From, To, Subject}
  }

  function Part(o: Operator): string {
    Prefix(o.op) + if IsQuoted(o.op) then [QUOTE] + o.val + [QUOTE] else o.val
  }

  function Parts(os: seq<Operator>): seq<string> {
    seq(|os|, i requires 0 <= i < |os| => Part(os[i]))
  }

  function Entry(op: Op, val: string): seq<Operator> {
    if val == "" then [] else [Operator(op, val)]
  }

  function QuotedChips(f: Filters): seq<Operator> {
    Entry(From, f.from) + Entry(To, f.to) + Entry(Subject, f.subject)
  }

  function Attachment(f: Filters): string {
    if f.hasAttachment == Some(true) then "attachment" else ""
  }

  function DateChips(f: Filters): seq<Operator> {
    Entry(After, Chip(f, After)) + Entry(Before, Chip(f, Before))
  }

  function OtherChips(f: Filters): seq<Operator> {
    Entry(Lang, f.language) + Entry(Has, Attachment(f))
  }

  function PlainChips(f: Filters): seq<Operator> {
    DateChips(f) + OtherChips(f)
  }

  function Format(f: Filters): string {
    Joined(Parts(QuotedChips(f)) + Parts(PlainChips(f)))
  }

  method FormatDslTokens(f: Filters) returns (q: string)
    ensures q == Format(f)
  {
    var quoted := QuotedParts(f);
    var dates := DateParts(f);
    var others := OtherParts(f);
    assert Parts(DateChips(f)) + Parts(OtherChips(f)) == Parts(PlainChips(f));
    q := Joined(quoted + (dates + others));
  }

  method QuotedParts(f: Filters) returns (parts: seq<string>)
    ensures parts == Parts(QuotedChips(f))
  {
    parts := [];
    if f.from != "" { parts := parts + ["from:" + ([QUOTE] + f.from + [QUOTE])]; }
    assert [] + Entry(From, f.from) == Entry(From, f.from);
    if f.to != "" { parts := parts + ["to:" + ([QUOTE] + f.to + [QUOTE])]; }
    if f.subject != "" { parts := parts + ["subject:" + ([QUOTE] + f.subject + [QUOTE])]; }
  }

  method DateParts(f: Filters) returns (parts: seq<string>)
    ensures parts == Parts(DateChips(f))
  {
    parts := [];
    var afterVal, beforeVal := Or(f.after, f.dateFrom), Or(f.before, f.dateTo);
    if afterVal != "" { parts := parts + ["after:" + afterVal]; }
    assert [] + Entry(After, afterVal) == Entry(After, afterVal);
    if beforeVal != "" { parts := parts + ["before:" + beforeVal]; }
  }

  method OtherParts(f: Filters) returns (parts: seq<string>)
    ensures parts == Parts(OtherChips(f))
  {
    parts := [];
    if f.language != "" { parts := parts + ["lang:" + f.language]; }
    assert [] + Entry(Lang, f.language) == Entry(Lang, f.language);
    if f.hasAttachment == Some(true) { parts := parts + ["has:" + "attachment"]; }
  }

  // --- what comes back --------------------------------------------------------------------

  predicate NoSpace(s: string) {
    forall c :: c in s ==> !IsSpace(c)
  }

  predicate IsPlain(v: string) {
    QUOTE !in v && NoSpace(v)
  }

  /** What the formatted chips stand for: one value per date, and no more than
      that an attachment is asked for. */
  function Canonical(f: Filters): Filters {
    f.(after := Chip(f, After), dateFrom := Chip(f, After), before := Chip(f, Before), dateTo := Chip(f, Before),
       hasAttachment := if f.hasAttachment == Some(true) then Some(true) else None)
  }

  /** No double quote in a printed value, no whitespace in one printed without
      quotes, and a language in lower case. */
  predicate Formattable(f: Filters) {
    && QUOTE !in f.from && QUOTE !in f.to && QUOTE !in f.subject
    && IsPlain(Chip(f, After)) && IsPlain(Chip(f, Before)) && IsPlain(f.language)
    && Lower(f.language) == f.language
  }

  function Returned(f: Filters): Extracted {
    Extract(Tokens(Format(f)))
  }

  // --- printed chips are tokens --------------------------------------------------------------

  predicate Fits(o: Operator) {
    QUOTE !in o.val && (IsQuoted(o.op) || NoSpace(o.val))
  }

  predicate AllFit(os: seq<Operator>) {
    forall o :: o in os ==> Fits(o)
  }

  function TokenOf(o: Operator): Token {
    Token(Prefix(o.op) + o.val, Part(o))
  }

  function TokensOf(os: seq<Operator>): seq<Token> {
    seq(|os|, i requires 0 <= i < |os| => TokenOf(os[i]))
  }

  lemma PrefixIsPlain(op: Op)
    ensures forall c :: c in Prefix(op) ==> 'a' <= c <= 'z' || c == ':'
    ensures Prefix(op) != ""
  {
  }

  lemma PrefixIsPiece(op: Op)
    ensures IsPiece(Prefix(op), false) && Unquote(Prefix(op)) == Prefix(op) && Prefix(op) != ""
  {
    PrefixIsPlain(op);
    PlainTextIsPiece(Prefix(op));
  }

  lemma ChipIsToken(o: Operator)
    requires Fits(o)
    ensures WellSpelt(TokenOf(o))
  {
    var run := if IsQuoted(o.op) then [QUOTE] + o.val + [QUOTE] else o.val;
    PrefixIsPiece(o.op);
    if IsQuoted(o.op) {
      QuotedRun(o.val);
    } else {
      PlainTextIsPiece(o.val);
    }
    PieceIsPrefix(Prefix(o.op), false);
    PieceConcat(Prefix(o.op), run, false, false);
    UnquoteConcat(Prefix(o.op), run);
  }

  lemma ChipsAreTokens(os: seq<Operator>)
    requires AllFit(os)
    ensures AllWellSpelt(TokensOf(os)) && Raws(TokensOf(os)) == Parts(os)
  {
    forall i | 0 <= i < |os| ensures WellSpelt(TokensOf(os)[i]) {
      assert os[i] in os;
      ChipIsToken(os[i]);
    }
  }

  // --- what extraction makes of them -----------------------------------------------------------

  lemma IndexOfIs(s: string, c: char, i: nat)
    requires i < |s| && s[i] == c && c !in s[..i]
    ensures IndexOf(s, c) == i
  {
    assert forall k :: 0 <= k < i ==> s[..i][k] != c;
    assert forall k :: 0 <= k < IndexOf(s, c) ==> s[..IndexOf(s, c)][k] != c;
  }

  lemma ChipIsOperator(o: Operator)
    requires o.val != ""
    ensures PopoverOperator(Prefix(o.op) + o.val) == Some(o)
  {
    var p := Prefix(o.op);
    var text, n := p + o.val, |p| - 1;
    assert text[..n] == p[..n] && text[n + 1..] == o.val;
    IndexOfIs(text, ':', n);
    assert Lower(p[..n]) == p[..n];
  }

  function Set(f: Filters, op: Op, val: string): Filters {
    match op
    case Lang => f.(language := Lower(val))
    case Has => if val == "" then f else f.(hasAttachment := Some(true))
    case _ => SetChip(f, op, val)
  }

  lemma ChipIsConsumed(f: Filters, o: Operator)
    requires o.val != "" && (o.op.Has? ==> o.val == "attachment")
    ensures Consume(f, Prefix(o.op) + o.val) == Some(Set(f, o.op, o.val))
  {
    ChipIsOperator(o);
    assert Lower("attachment") == "attachment";
  }

  ghost predicate Reads(os: seq<Operator>, f: Filters) {
    Extract(TokensOf(os)) == Extracted([], f)
  }

  /** A chip that is not set is like one set to the "" it comes back as. */
  lemma ReadsEntry(os: seq<Operator>, f: Filters, op: Op, val: string)
    requires Reads(os, f) && (op.Has? ==> val in {"", "attachment"})
    ensures Reads(os + Entry(op, val), if val == "" then f else Set(f, op, val))
  {
    if val == "" {
      assert os + Entry(op, val) == os;
    } else {
      var o := Operator(op, val);
      assert TokensOf(os + Entry(op, val)) == TokensOf(os) + [TokenOf(o)];
      ChipIsConsumed(f, o);
    }
  }

  lemma QuotedChipsRead(f: Filters)
    ensures Reads(QuotedChips(f), NO_FILTERS.(from := f.from, to := f.to, subject := f.subject))
  {
    var a, b := Entry(From, f.from), Entry(To, f.to);
    assert [] + a == a;
    ReadsEntry([], NO_FILTERS, From, f.from);
    ReadsEntry(a, NO_FILTERS.(from := f.from), To, f.to);
    ReadsEntry(a + b, NO_FILTERS.(from := f.from, to := f.to), Subject, f.subject);
  }

  lemma DatesRead(os: seq<Operator>, g: Filters, f: Filters)
    requires Reads(os, g) && g.after == g.dateFrom == g.before == g.dateTo == ""
    ensures Reads(os + DateChips(f), g.(after := Chip(f, After), dateFrom := Chip(f, After),
                                        before := Chip(f, Before), dateTo := Chip(f, Before)))
  {
    var after, before := Chip(f, After), Chip(f, Before);
    ReadsEntry(os, g, After, after);
    ReadsEntry(os + Entry(After, after), g.(after := after, dateFrom := after), Before, before);
    Reassociate(os, Entry(After, after), Entry(Before, before));
  }

  lemma OthersRead(os: seq<Operator>, g: Filters, f: Filters)
    requires Reads(os, g) && g.language == "" && g.hasAttachment == None
    ensures Reads(os + OtherChips(f), g.(language := Lower(f.language), hasAttachment := Canonical(f).hasAttachment))
  {
    assert Lower("") == "";
    ReadsEntry(os, g, Lang, f.language);
    ReadsEntry(os + Entry(Lang, f.language), g.(language := Lower(f.language)), Has, Attachment(f));
    Reassociate(os, Entry(Lang, f.language), Entry(Has, Attachment(f)));
  }

  lemma Reassociate(a: seq<Operator>, b: seq<Operator>, c: seq<Operator>)
    ensures a + b + c == a + (b + c)
  {
  }

  lemma ChipsRead(f: Filters)
    ensures Reads(QuotedChips(f) + PlainChips(f), Canonical(f).(language := Lower(f.language)))
  {
    var os, g := QuotedChips(f), NO_FILTERS.(from := f.from, to := f.to, subject := f.subject);
    QuotedChipsRead(f);
    DatesRead(os, g, f);
    OthersRead(os + DateChips(f), g.(after := Chip(f, After), dateFrom := Chip(f, After),
                                     before := Chip(f, Before), dateTo := Chip(f, Before)), f);
    Reassociate(os, DateChips(f), OtherChips(f));
  }

  lemma OtherChipsFit(f: Filters)
    requires IsPlain(f.language)
    ensures AllFit(OtherChips(f))
  {
    assert IsPlain("attachment");
  }

  lemma FormattableFits(f: Filters)
    requires Formattable(f)
    ensures AllFit(QuotedChips(f) + PlainChips(f))
  {
    OtherChipsFit(f);
    forall o | o in QuotedChips(f) + PlainChips(f) ensures Fits(o) {
      assert o in QuotedChips(f) || o in DateChips(f) || o in OtherChips(f);
    }
  }

  lemma FormattableReturns(f: Filters)
    requires Formattable(f)
    ensures Returned(f) == Extracted([], Canonical(f))
  {
    var os := QuotedChips(f) + PlainChips(f);
    FormattableFits(f);
    ChipsAreTokens(os);
    assert Parts(os) == Parts(QuotedChips(f)) + Parts(PlainChips(f));
    RawsReadBack(TokensOf(os));
    ChipsRead(f);
  }

  // --- what no extraction returns ----------------------------------------------------------------

  lemma LowerLower(s: string)
    ensures Lower(Lower(s)) == Lower(s)
    ensures NoSpace(s) ==> NoSpace(Lower(s))
    ensures QUOTE !in s ==> QUOTE !in Lower(s)
  {
    forall c | c in Lower(s) ensures c in s || 'a' <= c <= 'z' {
      var i :| 0 <= i < |s| && Lower(s)[i] == c;
      assert s[i] in s;
    }
  }

  /** Whatever was typed: two names for each date, a lower-case language. */
  predicate Settled(f: Filters) {
    && f.after == f.dateFrom && f.before == f.dateTo && Lower(f.language) == f.language
    && f.hasAttachment != Some(false)
  }

  predicate NoQuotes(f: Filters) {
    && QUOTE !in f.from && QUOTE !in f.to && QUOTE !in f.subject
    && QUOTE !in f.after && QUOTE !in f.before && QUOTE !in f.language
  }

  /** Values of tokens that were not printed in quotes. */
  predicate NoSpaces(f: Filters) {
    NoSpace(f.after) && NoSpace(f.before) && NoSpace(f.language)
  }

  lemma ValueInText(text: string)
    ensures var o := PopoverOperator(text); o.Some? ==> forall c :: c in o.value.val ==> c in text
  {
  }

  lemma ConsumeKeeps(f: Filters, text: string)
    ensures var f' := Consume(f, text);
            f'.Some? ==> && (Settled(f) ==> Settled(f'.value))
                         && (NoQuotes(f) && QUOTE !in text ==> NoQuotes(f'.value))
                         && (NoSpaces(f) && NoSpace(text) ==> NoSpaces(f'.value))
  {
    ValueInText(text);
    var o := PopoverOperator(text);
    if o.Some? {
      LowerLower(o.value.val);
    }
  }

  lemma {:induction false} ExtractSettles(ts: seq<Token>)
    requires AllWellSpelt(ts)
    ensures Settled(Extract(ts).filters) && NoQuotes(Extract(ts).filters)
    decreases |ts|
  {
    if ts == [] {
      assert Lower("") == "";
    } else {
      var n := |ts| - 1;
      assert ts[n] in ts && forall t :: t in ts[..n] ==> t in ts;
      ExtractSettles(ts[..n]);
      UnquotedHasNoQuote(ts[n].raw);
      ConsumeKeeps(Extract(ts[..n]).filters, ts[n].text);
    }
  }

  lemma {:induction false} ExtractKeepsSpacesOut(ts: seq<Token>, rest: seq<Token>)
    requires NoSpaces(Extract(ts).filters) && forall t :: t in rest ==> NoSpace(t.text)
    ensures NoSpaces(Extract(ts + rest).filters)
    decreases |rest|
  {
    if rest == [] {
      assert ts + rest == ts;
    } else {
      var n := |rest| - 1;
      var init, last := rest[..n], rest[n];
      assert ts + rest == ts + init + [last] && last in rest;
      assert forall t :: t in init ==> t in rest;
      ExtractKeepsSpacesOut(ts, init);
      ConsumeKeeps(Extract(ts + init).filters, last.text);
    }
  }

  /** Text without quotes: no token of it holds whitespace. */
  lemma {:induction false} ScanPlain(s: Scanner, q: string) returns (rest: seq<Token>)
    requires !s.quoted && NoSpace(s.buf) && QUOTE !in q
    ensures var r := Scan(s, q); !r.quoted && NoSpace(r.buf) && r.out == s.out + rest
    ensures forall t :: t in rest ==> NoSpace(t.text)
    decreases |q|
  {
    if q == "" {
      rest := [];
    } else {
      assert q[0] in q && forall c :: c in q[1..] ==> c in q;
      rest := ScanPlain(Step(s, q[0]), q[1..]);
      if IsSpace(q[0]) && s.buf != "" {
        rest := [Token(s.buf, s.raw)] + rest;
      }
    }
  }

  lemma {:induction false} JoinedHasNoQuote(parts: seq<string>)
    requires forall p :: p in parts ==> QUOTE !in p
    ensures QUOTE !in Joined(parts)
    decreases |parts|
  {
    if parts != [] {
      assert parts[0] in parts && forall p :: p in parts[1..] ==> p in parts;
      JoinedHasNoQuote(parts[1..]);
    }
  }

  lemma PlainPartsHaveNoQuote(os: seq<Operator>)
    requires forall o :: o in os ==> !IsQuoted(o.op) && QUOTE !in o.val
    ensures QUOTE !in Joined(Parts(os))
  {
    forall i | 0 <= i < |os| ensures QUOTE !in Parts(os)[i] {
      assert os[i] in os;
      PrefixIsPlain(os[i].op);
    }
    JoinedHasNoQuote(Parts(os));
  }

  /** Whole tokens first, then whatever text without quotes comes to. */
  lemma PlainTail(ts: seq<Token>, parts: seq<string>) returns (rest: seq<Token>)
    requires AllWellSpelt(ts) && parts != [] && QUOTE !in Joined(parts)
    ensures Tokens(Joined(Raws(ts) + parts)) == ts + rest
    ensures forall t :: t in rest ==> NoSpace(t.text)
  {
    var next := ScanRaws(FRESH, ts, parts);
    rest := ScanPlain(next, Joined(parts));
    var end := Scan(next, Joined(parts));
    if end.buf != "" {
      rest := rest + [Token(end.buf, end.raw)];
    }
  }

  lemma ReturnedHasNoSpaces(f: Filters)
    requires NoQuotes(Canonical(f)) && PlainChips(f) != []
    ensures NoSpaces(Returned(f).filters)
  {
    ChipsAreTokens(QuotedChips(f));
    PlainPartsHaveNoQuote(PlainChips(f));
    var rest := PlainTail(TokensOf(QuotedChips(f)), Parts(PlainChips(f)));
    QuotedChipsRead(f);
    ExtractKeepsSpacesOut(TokensOf(QuotedChips(f)), rest);
  }

  lemma NoPlainChips(f: Filters)
    requires PlainChips(f) == []
    ensures NoSpaces(Canonical(f))
  {
  }

  lemma ReturnedIsSettled(f: Filters)
    ensures Settled(Returned(f).filters) && NoQuotes(Returned(f).filters)
  {
    TokensAreWellSpelt(Format(f));
    ExtractSettles(Tokens(Format(f)));
  }

  lemma OnlyFormattableReturns(f: Filters)
    requires Returned(f).filters == Canonical(f)
    ensures Formattable(f)
  {
    ReturnedIsSettled(f);
    if PlainChips(f) == [] {
      NoPlainChips(f);
    } else {
      ReturnedHasNoSpaces(f);
    }
  }

  lemma SettledIsCanonical(f: Filters, returned: Filters)
    requires Settled(returned)
    ensures returned == f <==> returned == Canonical(f) && Settled(f)
  {
    if Settled(f) {
      match f.hasAttachment {
        case None =>
        case Some(wanted) => assert wanted;
      }
      assert Canonical(f) == f;
    }
  }

  /** What is printed comes back, and nothing is left over, exactly when the values
      are formattable; and the very same filters, exactly when they are settled too. */
  lemma FormatRoundTrip(f: Filters)
    ensures Returned(f).filters == Canonical(f) <==> Formattable(f)
    ensures Returned(f).filters == f <==> Formattable(f) && Settled(f)
    ensures Formattable(f) ==> Returned(f).free == []
  {
    ReturnedIsSettled(f);
    SettledIsCanonical(f, Returned(f).filters);
    if Formattable(f) {
      FormattableReturns(f);
    } else if Returned(f).filters == Canonical(f) {
      OnlyFormattableReturns(f);
    }
  }
}
