/** What extraction and absorption do to a query, said of its words alone. */
module FilterOperators {
  import opened Prelude
  import opened FilterParse
  import opened FilterFormat

  // --- which words are operators -----------------------------------------------------------

  /** A name in any case, a colon, and a value that is not empty. */
  ghost predicate IsOperator(text: string, op: Op, val: string) {
    val != "" && exists name :: text == name + ":" + val && Lower(name) + ":" == Prefix(op)
  }

  lemma NameIsPrefix(name: string, op: Op)
    ensures OpNamed(name) == Some(op) <==> name + ":" == Prefix(op)
  {
    assert (name + ":")[..|name|] == name;
    match op {
      case From => assert Prefix(op)[..4] == "from";
      case To => assert Prefix(op)[..2] == "to";
      case Subject => assert Prefix(op)[..7] == "subject";
      case After => assert Prefix(op)[..5] == "after";
      case Before => assert Prefix(op)[..6] == "before";
      case Has => assert Prefix(op)[..3] == "has";
      case Lang => assert Prefix(op)[..4] == "lang";
    }
  }

  lemma NameHasNoColon(name: string, op: Op)
    requires OpNamed(Lower(name)) == Some(op)
    ensures ':' !in name && name != ""
  {
    forall i | 0 <= i < |name| ensures name[i] != ':' {
      assert Lower(name)[i] == if 'A' <= name[i] <= 'Z' then 'a' + (name[i] - 'A') else name[i];
    }
  }

  lemma OperatorShape(text: string, op: Op, val: string)
    ensures PopoverOperator(text) == Some(Operator(op, val)) <==> IsOperator(text, op, val)
  {
    if PopoverOperator(text) == Some(Operator(op, val)) {
      var colon := IndexOf(text, ':');
      assert text == text[..colon] + ":" + text[colon + 1..];
      NameIsPrefix(Lower(text[..colon]), op);
    }
    if IsOperator(text, op, val) {
      var name :| text == name + ":" + val && Lower(name) + ":" == Prefix(op);
      NameIsPrefix(Lower(name), op);
      NameReads(name, op, val);
    }
  }

  lemma NameReads(name: string, op: Op, val: string)
    requires OpNamed(Lower(name)) == Some(op) && val != ""
    ensures PopoverOperator(name + ":" + val) == Some(Operator(op, val))
  {
    var text := name + ":" + val;
    NameHasNoColon(name, op);
    assert text[..|name|] == name && text[|name| + 1..] == val;
    IndexOfIs(text, ':', |name|);
  }

  // --- extraction ----------------------------------------------------------------------------

  /** The texts in order, without those that are not to be kept. */
  ghost function Only(texts: seq<string>, keep: string -> bool): seq<string>
    decreases |texts|
  {
    if texts == [] then []
    else
      var n := |texts| - 1;
      Only(texts[..n], keep) + if keep(texts[n]) then [texts[n]] else []
  }

  /** An operator; `has:` only for attachments. */
  predicate IsFilter(text: string) {
    var o := PopoverOperator(text);
    o.Some? && (o.value.op.Has? ==> Lower(o.value.val) == "attachment")
  }

  lemma OneMoreWord(texts: seq<string>, text: string, op: Op, keep: string -> bool)
    ensures Only(texts + [text], keep) == Only(texts, keep) + if keep(text) then [text] else []
    ensures LastValue(texts + [text], op) == Newest(text, op, LastValue(texts, op))
  {
    assert (texts + [text])[..|texts|] == texts;
  }

  lemma FilterIsConsumed(f: Filters, text: string)
    ensures Consume(f, text).Some? <==> IsFilter(text)
  {
  }

  lemma FreeSnoc(init: seq<Token>, last: Token)
    ensures Texts(Extract(init + [last]).free)
            == Texts(Extract(init).free) + if IsFilter(last.text) then [] else [last.text]
  {
    assert (init + [last])[..|init|] == init;
    FilterIsConsumed(Extract(init).filters, last.text);
  }

  /** The free text reads as the words that are no filter. */
  lemma {:induction false} FreeIsTheRest(ts: seq<Token>)
    ensures Texts(Extract(ts).free) == Only(Texts(ts), text => !IsFilter(text))
    decreases |ts|
  {
    if ts != [] {
      var init, last := ts[..|ts| - 1], ts[|ts| - 1];
      assert ts == init + [last] && Texts(ts) == Texts(init) + [last.text];
      FreeIsTheRest(init);
      FreeSnoc(init, last);
      OneMoreWord(Texts(init), last.text, From, text => !IsFilter(text));
    }
  }

  lemma FreeTextIsTheRest(q: string)
    ensures Texts(Tokens(JoinTokens(Extract(Tokens(q)).free))) == Only(Texts(Tokens(q)), text => !IsFilter(text))
  {
    TokensAreWellSpelt(q);
    FreeTokensAreFree(Tokens(q));
    FreeIsTheRest(Tokens(q));
    PrintedReadsBack(Extract(Tokens(q)).free);
  }

  ghost predicate AsksForAttachment(texts: seq<string>) {
    exists t :: t in texts && IsFilter(t) && PopoverOperator(t).value.op.Has?
  }

  /** The last value of each operator, a language in lower case, a date under both
      its names, and an attachment if one is asked for at all. */
  ghost predicate AreLastValues(f: Filters, texts: seq<string>) {
    && f.from == LastValue(texts, From) && f.to == LastValue(texts, To)
    && f.subject == LastValue(texts, Subject)
    && f.after == f.dateFrom == LastValue(texts, After)
    && f.before == f.dateTo == LastValue(texts, Before)
    && f.language == Lower(LastValue(texts, Lang))
    && f.hasAttachment == if AsksForAttachment(texts) then Some(true) else None
  }

  lemma ConsumeLast(f: Filters, texts: seq<string>, text: string)
    requires AreLastValues(f, texts)
    ensures var f' := Consume(f, text); AreLastValues(if f'.Some? then f'.value else f, texts + [text])
  {
    forall op ensures LastValue(texts + [text], op) == Newest(text, op, LastValue(texts, op)) {
      OneMoreWord(texts, text, op, _ => true);
    }
    assert AsksForAttachment(texts + [text]) <==> AsksForAttachment(texts) || AsksForAttachment([text]);
    assert AsksForAttachment([text]) <==> IsFilter(text) && PopoverOperator(text).value.op.Has? by {
      assert text in [text];
    }
  }

  lemma {:induction false} FiltersAreLastValues(ts: seq<Token>)
    ensures AreLastValues(Extract(ts).filters, Texts(ts))
    decreases |ts|
  {
    if ts == [] {
      assert Lower("") == "";
    } else {
      var init, last := ts[..|ts| - 1], ts[|ts| - 1];
      assert Texts(ts) == Texts(init) + [last.text];
      FiltersAreLastValues(init);
      ConsumeLast(Extract(init).filters, Texts(init), last.text);
    }
  }

  /** Four digits, one or two, one or two, with dashes between. */
  predicate IsDateOf(s: string, year: string, month: string, day: string) {
    && s == year + "-" + month + "-" + day
    && |year| == 4 && 1 <= |month| <= 2 && 1 <= |day| <= 2
    && DigitsOnly(year) && DigitsOnly(month) && DigitsOnly(day)
  }

  lemma HasMonthReads(s: string, m: nat)
    requires 1 <= m <= 2 && HasMonthOf(s, m)
    ensures IsDateOf(s, s[..4], s[5..5 + m], s[6 + m..])
  {
    assert s == s[..4] + [s[4]] + s[5..5 + m] + [s[5 + m]] + s[6 + m..];
  }

  lemma DateHasMonth(s: string, year: string, month: string, day: string)
    requires IsDateOf(s, year, month, day)
    ensures HasMonthOf(s, |month|)
  {
    assert s[..4] == year && s[4] == '-';
    assert s[5..5 + |month|] == month && s[5 + |month|] == '-';
    assert s[6 + |month|..] == day;
  }

  lemma DateShapeIsDate(s: string)
    ensures IsDateShape(s) <==> exists year, month, day :: IsDateOf(s, year, month, day)
  {
    if IsDateShape(s) {
      HasMonthReads(s, if HasMonthOf(s, 1) then 1 else 2);
    }
    if year, month, day :| IsDateOf(s, year, month, day) {
      DateHasMonth(s, year, month, day);
    }
  }

  // --- absorption ------------------------------------------------------------------------------

  /** The last value typed contradicts a chip that is set; a date must look like one. */
  ghost predicate IsOutvoted(q: string, chips: Filters, op: Op) {
    var typed := LastValue(Texts(Tokens(q)), op);
    && op in {From, To, Subject, After, Before}
    && typed != "" && Chip(chips, op) != "" && typed != Chip(chips, op)
    && (op in {After, Before} ==> IsDateShape(typed))
  }

  ghost predicate NamesOutvoted(text: string, q: string, chips: Filters) {
    exists op, val :: IsOperator(text, op, val) && IsOutvoted(q, chips, op)
  }

  lemma OutvotedIsConflict(q: string, chips: Filters, op: Op)
    ensures IsOutvoted(q, chips, op) <==> op in Absorbed(Extract(Tokens(q)).filters, chips, SCALARS)
  {
    if op in SCALARS {
      TypedIsLast(Tokens(q), op);
    }
  }

  lemma NamesIsNamed(t: Token, q: string, chips: Filters)
    ensures Names(t, Absorbed(Extract(Tokens(q)).filters, chips, SCALARS)) <==> NamesOutvoted(t.text, q, chips)
  {
    var o := PopoverOperator(t.text);
    if o.Some? {
      OperatorShape(t.text, o.value.op, o.value.val);
      OutvotedIsConflict(q, chips, o.value.op);
    }
    if op, val :| IsOperator(t.text, op, val) && IsOutvoted(q, chips, op) {
      OperatorShape(t.text, op, val);
      OutvotedIsConflict(q, chips, op);
    }
  }

  lemma {:induction false} KeptIsTheRest(ts: seq<Token>, q: string, chips: Filters)
    ensures Texts(Kept(ts, Absorbed(Extract(Tokens(q)).filters, chips, SCALARS)))
            == Only(Texts(ts), text => !NamesOutvoted(text, q, chips))
    decreases |ts|
  {
    if ts != [] {
      var n := |ts| - 1;
      KeptIsTheRest(ts[..n], q, chips);
      assert Texts(ts)[..n] == Texts(ts[..n]);
      NamesIsNamed(ts[n], q, chips);
    }
  }

  /** Exactly the outvoted chips take the value typed last, and exactly the words
      that named them leave the query. */
  lemma AbsorptionExactly(q: string, chips: Filters, op: Op)
    ensures var r := Absorb(q, chips);
            && Texts(Tokens(r.query)) == Only(Texts(Tokens(q)), text => !NamesOutvoted(text, q, chips))
            && Chip(r.filters, op)
               == (if IsOutvoted(q, chips, op) then LastValue(Texts(Tokens(q)), op) else Chip(chips, op))
            && r.filters.language == chips.language && r.filters.hasAttachment == chips.hasAttachment
  {
    var typed := Extract(Tokens(q)).filters;
    AbsorbedTexts(q, chips);
    KeptIsTheRest(Tokens(q), q, chips);
    OutvotedIsConflict(q, chips, op);
    SettleSets(typed, chips, SCALARS, op);
    if op in SCALARS {
      TypedIsLast(Tokens(q), op);
    }
  }
}
