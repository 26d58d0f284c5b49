/** The opaque cursors: unpadded base64url text, and the three codecs over it. */
module Cursors {
  import opened Prelude
  import Decimal

  type Octet = x: nat | x < 256

  type Octets = seq<Octet>

  // --- base64url, section 5 of RFC 4648 -------------------------------------------

  function Symbol(v: nat): char
    requires v < 64
  {
    if v < 26 then 'A' + v as char
    else if v < 52 then 'a' + (v - 26) as char
    else if v < 62 then '0' + (v - 52) as char
    else if v == 62 then '-'
    else '_'
  }

  /** What the decoder makes of one character: it maps '-' and '_' onto '+' and
      '/' and accepts those as well; what it does not know it skips. */
  datatype Mark = Sextet(v: nat) | Pad | Skipped

  function Classify(c: char): Mark {
    if 'A' <= c <= 'Z' then Sextet((c - 'A') as nat)
    else if 'a' <= c <= 'z' then Sextet((c - 'a') as nat + 26)
    else if '0' <= c <= '9' then Sextet((c - '0') as nat + 52)
    else if c == '-' || c == '+' then Sextet(62)
    else if c == '_' || c == '/' then Sextet(63)
    else if c == '=' then Pad
    else Skipped
  }

  /** Three bytes as four groups of six bits; one or two bytes leave a short end. */
  function Sextets(bs: Octets): (vs: seq<nat>)
    ensures forall v :: v in vs ==> v < 64
  {
    if bs == [] then []
    else if |bs| == 1 then [bs[0] / 4, bs[0] % 4 * 16]
    else if |bs| == 2 then [bs[0] / 4, bs[0] % 4 * 16 + bs[1] / 16, bs[1] % 16 * 4]
    else
      [bs[0] / 4, bs[0] % 4 * 16 + bs[1] / 16, bs[1] % 16 * 4 + bs[2] / 64, bs[2] % 64] + Sextets(bs[3..])
  }

  /** Three bytes and their four groups are the same 24 bits, the first ones first. */
  lemma GroupsAreBits(a: Octet, b: Octet, c: Octet, rest: Octets)
    ensures var vs := Sextets([a, b, c] + rest);
            && |vs| >= 4 && vs[4..] == Sextets(rest)
            && a * 65536 + b * 256 + c == vs[0] * 262144 + vs[1] * 4096 + vs[2] * 64 + vs[3]
  {
    assert ([a, b, c] + rest)[3..] == rest;
  }

  /** urlsafe_b64encode(...).rstrip("=") */
  function Encode(bs: Octets): string {
    var vs := Sextets(bs);
    seq(|vs|, i requires 0 <= i < |vs| => assert vs[i] in vs; Symbol(vs[i]))
  }

  /** The decoder's state: how many symbols of the current group are in, the bits
      they left over, and the padding seen. */
  datatype Group = Group(count: nat, left: nat, pads: nat)

  const EMPTY := Group(0, 0, 0)

  /** The byte a symbol completes, if any. A byte holds what fits in it. */
  function Completed(g: Group, v: nat): Octets {
    match g.count
    case 1 => [(g.left * 4 + v / 16) % 256]
    case 2 => [(g.left * 16 + v / 4) % 256]
    case 3 => [(g.left * 64 + v) % 256]
    case _ => []
  }

  function Next(g: Group, v: nat): Group {
    match g.count
    case 0 => Group(1, v, 0)
    case 1 => Group(2, v % 16, 0)
    case 2 => Group(3, v % 4, 0)
    case _ => EMPTY
  }

  function DecodeMarks(ms: seq<Mark>, g: Group): Option<Octets>
    decreases |ms|
  {
    if ms == [] then
      if g.count == 0 then Some([]) else None
    else
      match ms[0]
      case Skipped => DecodeMarks(ms[1..], g)
      case Pad =>
        if g.count >= 2 && g.count + g.pads + 1 >= 4 then Some([])
        else DecodeMarks(ms[1..], if g.count >= 2 then g.(pads := g.pads + 1) else g)
      case Sextet(v) =>
        match DecodeMarks(ms[1..], Next(g, v))
        case None => None
        case Some(rest) => Some(Completed(g, v) + rest)
  }

  function Marks(s: string): seq<Mark> {
    seq(|s|, i requires 0 <= i < |s| => Classify(s[i]))
  }

  function Padding(n: nat): string {
    match n % 4
    case 0 => ""
    case 1 => "==="
    case 2 => "=="
    case 3 => "="
  }

  function Decode(raw: string): Option<Octets> {
    DecodeMarks(Marks(raw + Padding(|raw|)), EMPTY)
  }

  function Pads(n: nat): seq<Mark> {
    match n % 4
    case 0 => []
    case 1 => [Pad, Pad, Pad]
    case 2 => [Pad, Pad]
    case 3 => [Pad]
  }

  function AsMarks(vs: seq<nat>): seq<Mark> {
    seq(|vs|, i requires 0 <= i < |vs| => Sextet(vs[i]))
  }

  /** The decoder sees the sextets that were encoded, and the padding put back. */
  lemma MarksOfEncoded(bs: Octets)
    ensures var e := Encode(bs);
            Marks(e + Padding(|e|)) == AsMarks(Sextets(bs)) + Pads(|Sextets(bs)|)
  {
    var e, vs := Encode(bs), Sextets(bs);
    forall i | 0 <= i < |vs| ensures Classify(e[i]) == Sextet(vs[i]) {
      assert vs[i] in vs;
    }
  }

  lemma DecodeStep(g: Group, v: nat, rest: seq<Mark>, out: Octets)
    requires DecodeMarks(rest, Next(g, v)) == Some(out)
    ensures DecodeMarks([Sextet(v)] + rest, g) == Some(Completed(g, v) + out)
  {
    assert ([Sextet(v)] + rest)[1..] == rest;
  }

  /** The bits cut off one symbol meet the rest of their byte in the next. */
  lemma BitsMeet(a: Octet, b: Octet, c: Octet)
    ensures (a / 4 * 4 + (a % 4 * 16 + b / 16) / 16) % 256 == a
    ensures ((a % 4 * 16 + b / 16) % 16 * 16 + (b % 16 * 4 + c / 64) / 4) % 256 == b
    ensures ((b % 16 * 4 + c / 64) % 4 * 64 + c % 64) % 256 == c
  {
    HighAndLow(a % 4, b / 16, b % 16, c / 64);
  }

  lemma HighAndLow(h: nat, l: nat, h': nat, l': nat)
    requires l < 16 && l' < 4
    ensures (h * 16 + l) / 16 == h && (h * 16 + l) % 16 == l
    ensures (h' * 4 + l') / 4 == h' && (h' * 4 + l') % 4 == l'
  {
  }

  /** Four symbols in, three bytes out, an empty group again. */
  lemma DecodeFour(v1: nat, v2: nat, v3: nat, v4: nat, rest: seq<Mark>, out: Octets)
    requires DecodeMarks(rest, EMPTY) == Some(out)
    ensures DecodeMarks([Sextet(v1)] + ([Sextet(v2)] + ([Sextet(v3)] + ([Sextet(v4)] + rest))), EMPTY)
            == Some([] + ([(v1 * 4 + v2 / 16) % 256] + ([(v2 % 16 * 16 + v3 / 4) % 256]
                    + ([(v3 % 4 * 64 + v4) % 256] + out))))
  {
    var g1, g2, g3 := Next(EMPTY, v1), Next(Next(EMPTY, v1), v2), Next(Next(Next(EMPTY, v1), v2), v3);
    DecodeStep(g3, v4, rest, out);
    DecodeStep(g2, v3, [Sextet(v4)] + rest, Completed(g3, v4) + out);
    DecodeStep(g1, v2, [Sextet(v3)] + ([Sextet(v4)] + rest), Completed(g2, v3) + (Completed(g3, v4) + out));
    DecodeStep(EMPTY, v1, [Sextet(v2)] + ([Sextet(v3)] + ([Sextet(v4)] + rest)),
               Completed(g1, v2) + (Completed(g2, v3) + (Completed(g3, v4) + out)));
  }

  lemma DecodeTriple(a: Octet, b: Octet, c: Octet, rest: seq<Mark>, out: Octets)
    requires DecodeMarks(rest, EMPTY) == Some(out)
    ensures DecodeMarks([Sextet(a / 4)] + ([Sextet(a % 4 * 16 + b / 16)] + ([Sextet(b % 16 * 4 + c / 64)]
                        + ([Sextet(c % 64)] + rest))), EMPTY)
            == Some([] + ([a] + ([b] + ([c] + out))))
  {
    BitsMeet(a, b, c);
    DecodeFour(a / 4, a % 4 * 16 + b / 16, b % 16 * 4 + c / 64, c % 64, rest, out);
  }

  lemma DecodeThree(v1: nat, v2: nat, v3: nat)
    ensures DecodeMarks([Sextet(v1)] + ([Sextet(v2)] + ([Sextet(v3)] + [Pad])), EMPTY)
            == Some([] + ([(v1 * 4 + v2 / 16) % 256] + ([(v2 % 16 * 16 + v3 / 4) % 256] + [])))
  {
    var g1, g2, g3 := Next(EMPTY, v1), Next(Next(EMPTY, v1), v2), Next(Next(Next(EMPTY, v1), v2), v3);
    assert DecodeMarks([Pad], g3) == Some([]);
    DecodeStep(g2, v3, [Pad], []);
    DecodeStep(g1, v2, [Sextet(v3)] + [Pad], Completed(g2, v3) + []);
    DecodeStep(EMPTY, v1, [Sextet(v2)] + ([Sextet(v3)] + [Pad]), Completed(g1, v2) + (Completed(g2, v3) + []));
  }

  lemma DecodePair(a: Octet, b: Octet)
    ensures DecodeMarks([Sextet(a / 4)] + ([Sextet(a % 4 * 16 + b / 16)] + ([Sextet(b % 16 * 4)] + [Pad])), EMPTY)
            == Some([] + ([a] + ([b] + [])))
  {
    BitsMeet(a, b, 0);
    DecodeThree(a / 4, a % 4 * 16 + b / 16, b % 16 * 4);
  }

  lemma DecodeTwo(v1: nat, v2: nat)
    ensures DecodeMarks([Sextet(v1)] + ([Sextet(v2)] + [Pad, Pad]), EMPTY)
            == Some([] + ([(v1 * 4 + v2 / 16) % 256] + []))
  {
    var g1, g2 := Next(EMPTY, v1), Next(Next(EMPTY, v1), v2);
    assert [Pad, Pad][1..] == [Pad];
    assert DecodeMarks([Pad, Pad], g2) == DecodeMarks([Pad], g2.(pads := 1));
    DecodeStep(g1, v2, [Pad, Pad], []);
    DecodeStep(EMPTY, v1, [Sextet(v2)] + [Pad, Pad], Completed(g1, v2) + []);
  }

  lemma DecodeSingle(a: Octet)
    ensures DecodeMarks([Sextet(a / 4)] + ([Sextet(a % 4 * 16)] + [Pad, Pad]), EMPTY)
            == Some([] + ([a] + []))
  {
    BitsMeet(a, 0, 0);
    DecodeTwo(a / 4, a % 4 * 16);
  }

  lemma {:induction false} SextetsDecode(bs: Octets)
    ensures DecodeMarks(AsMarks(Sextets(bs)) + Pads(|Sextets(bs)|), EMPTY) == Some(bs)
    decreases |bs|
  {
    if |bs| < 3 {
      ShortEndDecodes(bs);
    } else {
      var rest := AsMarks(Sextets(bs[3..])) + Pads(|Sextets(bs[3..])|);
      SextetsDecode(bs[3..]);
      DecodeTriple(bs[0], bs[1], bs[2], rest, bs[3..]);
      SextetsSplit(bs);
      assert [] + ([bs[0]] + ([bs[1]] + ([bs[2]] + bs[3..]))) == bs;
    }
  }

  lemma ShortMarks(w: nat, x: nat, y: nat)
    ensures AsMarks([w, x]) + [Pad, Pad] == [Sextet(w)] + ([Sextet(x)] + [Pad, Pad])
    ensures AsMarks([w, x, y]) + [Pad] == [Sextet(w)] + ([Sextet(x)] + ([Sextet(y)] + [Pad]))
  {
  }

  lemma ShortEndDecodes(bs: Octets)
    requires |bs| < 3
    ensures DecodeMarks(AsMarks(Sextets(bs)) + Pads(|Sextets(bs)|), EMPTY) == Some(bs)
  {
    if |bs| == 0 {
      assert AsMarks([]) + Pads(0) == [];
    } else if |bs| == 1 {
      OneByteDecodes(bs[0]);
      assert bs == [bs[0]];
    } else {
      TwoBytesDecode(bs[0], bs[1]);
      assert bs == [bs[0], bs[1]];
    }
  }

  lemma OneByteDecodes(a: Octet)
    ensures DecodeMarks(AsMarks(Sextets([a])) + Pads(|Sextets([a])|), EMPTY) == Some([a])
  {
    DecodeSingle(a);
    ShortMarks(a / 4, a % 4 * 16, 0);
    assert Sextets([a]) == [a / 4, a % 4 * 16];
    assert [] + ([a] + []) == [a];
  }

  lemma TwoBytesDecode(a: Octet, b: Octet)
    ensures DecodeMarks(AsMarks(Sextets([a, b])) + Pads(|Sextets([a, b])|), EMPTY) == Some([a, b])
  {
    DecodePair(a, b);
    ShortMarks(a / 4, a % 4 * 16 + b / 16, b % 16 * 4);
    assert Sextets([a, b]) == [a / 4, a % 4 * 16 + b / 16, b % 16 * 4];
    assert [] + ([a] + ([b] + [])) == [a, b];
  }

  lemma FourMarks(w: nat, x: nat, y: nat, z: nat, vs: seq<nat>, pads: seq<Mark>)
    ensures AsMarks([w, x, y, z] + vs) + pads
            == [Sextet(w)] + ([Sextet(x)] + ([Sextet(y)] + ([Sextet(z)] + (AsMarks(vs) + pads))))
  {
  }

  lemma PadsRepeat(n: nat)
    ensures Pads(4 + n) == Pads(n)
  {
    assert (4 + n) % 4 == n % 4;
  }

  lemma SextetsSplit(bs: Octets)
    requires |bs| >= 3
    ensures var rest := AsMarks(Sextets(bs[3..])) + Pads(|Sextets(bs[3..])|);
            AsMarks(Sextets(bs)) + Pads(|Sextets(bs)|)
            == [Sextet(bs[0] / 4)] + ([Sextet(bs[0] % 4 * 16 + bs[1] / 16)]
               + ([Sextet(bs[1] % 16 * 4 + bs[2] / 64)] + ([Sextet(bs[2] % 64)] + rest)))
  {
    var vs := Sextets(bs[3..]);
    PadsRepeat(|vs|);
    FourMarks(bs[0] / 4, bs[0] % 4 * 16 + bs[1] / 16, bs[1] % 16 * 4 + bs[2] / 64, bs[2] % 64, vs, Pads(|vs|));
    assert |Sextets(bs)| == 4 + |vs|;
  }

  /** Stripping the padding loses nothing. */
  lemma Base64RoundTrip(bs: Octets)
    ensures Decode(Encode(bs)) == Some(bs)
  {
    MarksOfEncoded(bs);
    SextetsDecode(bs);
  }

  // --- ASCII ----------------------------------------------------------------------------

  predicate IsAscii(s: string) {
    forall i :: 0 <= i < |s| ==> s[i] < 128 as char
  }

  function ToBytes(s: string): (bs: Octets)
    requires IsAscii(s)
    ensures |bs| == |s|
  {
    seq(|s|, i requires 0 <= i < |s| => s[i] as int)
  }

  /** bytes.decode("ascii") */
  function FromBytes(bs: Octets): Option<string> {
    if forall i :: 0 <= i < |bs| ==> bs[i] < 128
    then Some(seq(|bs|, i requires 0 <= i < |bs| => bs[i] as char))
    else None
  }

  lemma AsciiRoundTrip(s: string)
    requires IsAscii(s)
    ensures FromBytes(ToBytes(s)) == Some(s)
  {
    assert FromBytes(ToBytes(s)).value == s;
  }

  // --- splitting ------------------------------------------------------------------------------

  function Split(s: string, sep: char): seq<string>
    ensures Split(s, sep) != []
  {
    if s == "" then [""]
    else
      var rest := Split(s[1..], sep);
      if s[0] == sep then [""] + rest else [[s[0]] + rest[0]] + rest[1..]
  }

  lemma {:induction false} SplitNone(s: string, sep: char)
    requires sep !in s
    ensures Split(s, sep) == [s]
    decreases |s|
  {
    if s != "" {
      assert s[0] in s && forall c :: c in s[1..] ==> c in s;
      SplitNone(s[1..], sep);
      assert s == [s[0]] + s[1..];
    }
  }

  lemma {:induction false} SplitFirst(a: string, b: string, sep: char)
    requires sep !in a
    ensures Split(a + [sep] + b, sep) == [a] + Split(b, sep)
    decreases |a|
  {
    var s := a + [sep] + b;
    if a == "" {
      assert s[1..] == b;
    } else {
      assert a[0] in a && forall c :: c in a[1..] ==> c in a;
      SplitFirst(a[1..], b, sep);
      assert s[0] == a[0] && s[1..] == a[1..] + [sep] + b;
      assert a == [a[0]] + a[1..];
    }
  }

  // --- browse cursors -----------------------------------------------------------------------------

  /** `isoformat` and `fromisoformat`, taken as they come. */
  datatype Clock<!T(!new)> = Clock(iso: T -> string, parse: string -> Option<T>)

  /** What the library promises: the text reads back, is ASCII, and has no '|'. */
  ghost predicate Faithful<T(!new)>(clock: Clock<T>) {
    forall t :: clock.parse(clock.iso(t)) == Some(t) && IsAscii(clock.iso(t)) && '|' !in clock.iso(t)
  }

  datatype BrowseCursor<T> = BrowseCursor(ts: Option<T>, id: nat)

  function Payload<T(!new)>(clock: Clock<T>, c: BrowseCursor<T>): string {
    match c.ts
    case None => "n|" + Decimal.Text(c.id)
    case Some(t) => "d|" + clock.iso(t) + "|" + Decimal.Text(c.id)
  }

  function EncodeBrowse<T(!new)>(clock: Clock<T>, c: BrowseCursor<T>): string
    requires IsAscii(Payload(clock, c))
  {
    Encode(ToBytes(Payload(clock, c)))
  }

  /** None is every ValidationFailed. */
  function DecodeBrowse<T(!new)>(clock: Clock<T>, raw: string): Option<BrowseCursor<T>> {
    if raw == "" || !IsAscii(raw) then None
    else
      match Decode(raw)
      case None => None
      case Some(bs) =>
        match FromBytes(bs)
        case None => None
        case Some(body) => ParsePayload(clock, body)
  }

  function ParsePayload<T(!new)>(clock: Clock<T>, body: string): Option<BrowseCursor<T>> {
    var parts := Split(body, '|');
    if parts[0] == "n" && |parts| == 2 then
      if Decimal.AllDigits(parts[1]) then Some(BrowseCursor(None, Decimal.Number(parts[1]))) else None
    else if parts[0] == "d" && |parts| == 3 then
      match clock.parse(parts[1])
      case None => None
      case Some(t) =>
        if Decimal.AllDigits(parts[2]) then Some(BrowseCursor(Some(t), Decimal.Number(parts[2]))) else None
    else None
  }

  lemma TailPayload(id: string)
    requires '|' !in id
    ensures Split("n|" + id, '|') == ["n", id]
  {
    assert "n|" + id == "n" + ['|'] + id;
    SplitFirst("n", id, '|');
    SplitNone(id, '|');
  }

  lemma DatedPayload(iso: string, id: string)
    requires '|' !in iso && '|' !in id
    ensures Split("d|" + iso + "|" + id, '|') == ["d", iso, id]
  {
    assert "d|" + iso + "|" + id == "d" + ['|'] + (iso + ['|'] + id);
    SplitFirst("d", iso + ['|'] + id, '|');
    SplitFirst(iso, id, '|');
    SplitNone(id, '|');
  }

  lemma PayloadParses<T(!new)>(clock: Clock<T>, c: BrowseCursor<T>)
    requires Faithful(clock)
    ensures IsAscii(Payload(clock, c)) && ParsePayload(clock, Payload(clock, c)) == Some(c)
  {
    var id := Decimal.Text(c.id);
    Decimal.NumberOfText(c.id);
    match c.ts
    case None => TailPayload(id);
    case Some(t) => DatedPayload(clock.iso(t), id);
  }

  /** Every cursor comes back as it was, dated or in the NULL tail. */
  lemma BrowseRoundTrip<T(!new)>(clock: Clock<T>, c: BrowseCursor<T>)
    requires Faithful(clock)
    ensures IsAscii(Payload(clock, c)) && IsAscii(EncodeBrowse(clock, c))
    ensures DecodeBrowse(clock, EncodeBrowse(clock, c)) == Some(c)
  {
    PayloadParses(clock, c);
    var payload := Payload(clock, c);
    Base64RoundTrip(ToBytes(payload));
    AsciiRoundTrip(payload);
  }

  // --- keyset cursors --------------------------------------------------------------------------------

  datatype Order = Asc | Desc
  datatype WalkKind = TextWalk | ArchiveWalk

  datatype KeysetCursor<T> = KeysetCursor(ts: Option<T>, id: nat, order: Order, walk: WalkKind)

  datatype Prefix = Prefix(text: string, order: Order, walk: WalkKind)

  const KEYSET_PREFIXES := [
    Prefix("KAT|", Asc, TextWalk), Prefix("KA|", Asc, ArchiveWalk),
    Prefix("KT|", Desc, TextWalk), Prefix("K|", Desc, ArchiveWalk)]

  function PrefixFor(order: Order, walk: WalkKind, table: seq<Prefix>): Option<string>
    decreases |table|
  {
    if table == [] then None
    else if table[0].order == order && table[0].walk == walk then Some(table[0].text)
    else PrefixFor(order, walk, table[1..])
  }

  function MatchPrefix(raw: string, table: seq<Prefix>): Option<Prefix>
    decreases |table|
  {
    if table == [] then None
    else if table[0].text <= raw then Some(table[0])
    else MatchPrefix(raw, table[1..])
  }

  /** None is the ValueError of a table without the pair. */
  function EncodeKeyset<T(!new)>(clock: Clock<T>, k: KeysetCursor<T>): Option<string>
    requires IsAscii(Payload(clock, BrowseCursor(k.ts, k.id)))
  {
    match PrefixFor(k.order, k.walk, KEYSET_PREFIXES)
    case None => None
    case Some(p) => Some(p + EncodeBrowse(clock, BrowseCursor(k.ts, k.id)))
  }

  function DecodeKeyset<T(!new)>(clock: Clock<T>, raw: string): Option<KeysetCursor<T>> {
    match MatchPrefix(raw, KEYSET_PREFIXES)
    case None => None
    case Some(p) =>
      match DecodeBrowse(clock, raw[|p.text|..])
      case None => None
      case Some(c) => Some(KeysetCursor(c.ts, c.id, p.order, p.walk))
  }

  /** Each prefix ends at its only '|', so at most one begins any given text:
      no scan order can misread a cursor. */
  lemma PrefixesApart(i: nat, j: nat, raw: string)
    requires i < |KEYSET_PREFIXES| && j < |KEYSET_PREFIXES|
    requires KEYSET_PREFIXES[i].text <= raw && KEYSET_PREFIXES[j].text <= raw
    ensures i == j
  {
    EndsAtBar(i, raw);
    EndsAtBar(j, raw);
  }

  /** Which prefix it is can be read off where the first '|' is and what precedes it. */
  lemma EndsAtBar(i: nat, raw: string)
    requires i < |KEYSET_PREFIXES| && KEYSET_PREFIXES[i].text <= raw
    ensures |raw| > 1
    ensures i == 0 ==> |raw| > 3 && raw[1] == 'A' && raw[2] == 'T'
    ensures i == 1 ==> |raw| > 2 && raw[1] == 'A' && raw[2] == '|'
    ensures i == 2 ==> |raw| > 2 && raw[1] == 'T' && raw[2] == '|'
    ensures i == 3 ==> raw[1] == '|'
  {
    var p := KEYSET_PREFIXES[i].text;
    assert forall k :: 0 <= k < |p| ==> raw[k] == p[k];
  }

  lemma {:induction false} MatchesOnly(raw: string, table: seq<Prefix>, i: nat)
    requires i < |table| && table[i].text <= raw
    requires forall j :: 0 <= j < |table| && table[j].text <= raw ==> j == i
    ensures MatchPrefix(raw, table) == Some(table[i])
    decreases |table|
  {
    if i > 0 {
      assert !(table[0].text <= raw);
      forall j | 0 <= j < |table[1..]| && table[1..][j].text <= raw ensures j == i - 1 {
        assert table[j + 1].text <= raw;
      }
      MatchesOnly(raw, table[1..], i - 1);
    }
  }

  function RowOf(order: Order, walk: WalkKind): (i: nat)
    ensures i < 4
  {
    match (order, walk)
    case (Asc, TextWalk) => 0
    case (Asc, ArchiveWalk) => 1
    case (Desc, TextWalk) => 2
    case (Desc, ArchiveWalk) => 3
  }

  /** Position, direction and walk are all recovered. */
  lemma KeysetRoundTrip<T(!new)>(clock: Clock<T>, k: KeysetCursor<T>)
    requires Faithful(clock)
    ensures IsAscii(Payload(clock, BrowseCursor(k.ts, k.id)))
    ensures EncodeKeyset(clock, k).Some? && DecodeKeyset(clock, EncodeKeyset(clock, k).value) == Some(k)
  {
    var c := BrowseCursor(k.ts, k.id);
    BrowseRoundTrip(clock, c);
    var i := RowOf(k.order, k.walk);
    var p := KEYSET_PREFIXES[i];
    var raw := p.text + EncodeBrowse(clock, c);
    PrefixForRow(k.order, k.walk);
    forall j | 0 <= j < |KEYSET_PREFIXES| && KEYSET_PREFIXES[j].text <= raw ensures j == i {
      PrefixesApart(i, j, raw);
    }
    MatchesOnly(raw, KEYSET_PREFIXES, i);
    assert raw[|p.text|..] == EncodeBrowse(clock, c);
  }

  lemma PrefixForRow(order: Order, walk: WalkKind)
    ensures var p := KEYSET_PREFIXES[RowOf(order, walk)];
            p.order == order && p.walk == walk && PrefixFor(order, walk, KEYSET_PREFIXES) == Some(p.text)
  {
    assert KEYSET_PREFIXES[1..][1..] == KEYSET_PREFIXES[2..];
    assert KEYSET_PREFIXES[2..][1..] == KEYSET_PREFIXES[3..];
  }

  // --- pool cursors -------------------------------------------------------------------------------------

  datatype SearchCursor = SearchCursor(token: string, page: nat)

  function EncodeSearch(c: SearchCursor): string {
    c.token + ":" + Decimal.Text(c.page)
  }

  /** rpartition(":"): where the last colon is. */
  function LastColon(s: string): (r: Option<nat>)
    ensures r.None? ==> ':' !in s
    ensures r.Some? ==> r.value < |s| && s[r.value] == ':' && ':' !in s[r.value + 1..]
    decreases |s|
  {
    if s == "" then None
    else if s[|s| - 1] == ':' then Some(|s| - 1)
    else
      var r := LastColon(s[..|s| - 1]);
      assert r.Some? ==> s[r.value + 1..] == s[..|s| - 1][r.value + 1..] + [s[|s| - 1]];
      r
  }

  function DecodeSearch(raw: string): Option<SearchCursor> {
    match LastColon(raw)
    case None => None
    case Some(i) =>
      var token, page := raw[..i], raw[i + 1..];
      if token == "" || !Decimal.AllDigits(page) || Decimal.Number(page) < 1 then None
      else Some(SearchCursor(token, Decimal.Number(page)))
  }

  /** Colons inside the token are no obstacle: only the last one separates. */
  lemma PoolRoundTrip(c: SearchCursor)
    requires c.token != "" && c.page >= 1
    ensures DecodeSearch(EncodeSearch(c)) == Some(c)
  {
    var raw := EncodeSearch(c);
    var page := Decimal.Text(c.page);
    Decimal.NumberOfText(c.page);
    var i := |c.token|;
    assert raw[i] == ':' && raw[i + 1..] == page && raw[..i] == c.token;
  }
}
