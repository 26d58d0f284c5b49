/** The header block of a message: read from a bounded prefix, exactly as from
    the whole message; and the grouping of its entries. */
module HeaderBlock {
  import opened Prelude

  const CR: byte := 13
  const LF: byte := 10

  const HEADER_BLOCK_READ_BYTES: nat := 64 * 1024
  const PREFIX_READ_BYTES: nat := HEADER_BLOCK_READ_BYTES + 1

  const CRLF_CRLF: Bytes := [CR, LF, CR, LF]
  const LF_LF: Bytes := [LF, LF]

  predicate PrefixIsTruncated(prefix: Bytes) {
    |prefix| > HEADER_BLOCK_READ_BYTES
  }

  predicate OccursAt(data: Bytes, pattern: Bytes, i: nat) {
    i + |pattern| <= |data| && data[i..i + |pattern|] == pattern
  }

  /** `bytes.find`: the first occurrence, or None. */
  method Find(data: Bytes, pattern: Bytes) returns (r: Option<nat>)
    ensures r.None? ==> forall i: nat :: !OccursAt(data, pattern, i)
    ensures r.Some? ==> OccursAt(data, pattern, r.value)
                        && forall i: nat :: i < r.value ==> !OccursAt(data, pattern, i)
  {
    var i := 0;
    while i + |pattern| <= |data|
      invariant forall j: nat :: j < i ==> !OccursAt(data, pattern, j)
    {
      if OccursAt(data, pattern, i) {
        return Some(i);
      }
      i := i + 1;
    }
    return None;
  }

  /** A blank line starts at `i`: section 2.1 of RFC 5322, in either spelling. */
  predicate SeparatorAt(data: Bytes, i: nat) {
    OccursAt(data, CRLF_CRLF, i) || OccursAt(data, LF_LF, i)
  }

  function EndingLength(data: Bytes, i: nat): nat
    requires SeparatorAt(data, i)
  {
    if OccursAt(data, CRLF_CRLF, i) then 2 else 1
  }

  ghost predicate FirstSeparator(data: Bytes, i: nat) {
    SeparatorAt(data, i) && forall j: nat :: j < i ==> !SeparatorAt(data, j)
  }

  /** `_up_to_separator`, said without saying how it is found. */
  ghost predicate IsUpToSeparator(data: Bytes, r: Option<Bytes>) {
    match r
    case None => forall i: nat :: !SeparatorAt(data, i)
    case Some(block) =>
      exists i: nat :: FirstSeparator(data, i) && i + EndingLength(data, i) <= |data|
        && block == data[..i + EndingLength(data, i)]
  }

  method UpToSeparator(data: Bytes) returns (r: Option<Bytes>)
    ensures IsUpToSeparator(data, r)
  {
    var matches: seq<(nat, nat)> := [];
    var crlf := Find(data, CRLF_CRLF);
    if crlf.Some? {
      matches := matches + [(crlf.value, 2)];
    }
    var lf := Find(data, LF_LF);
    if lf.Some? {
      matches := matches + [(lf.value, 1)];
    }
    if matches == [] {
      return None;
    }
    // min over (index, length) pairs; the two never start at the same byte
    var best := matches[0];
    if |matches| == 2 && (matches[1].0 < best.0 || (matches[1].0 == best.0 && matches[1].1 < best.1)) {
      best := matches[1];
    }
    assert FirstSeparator(data, best.0) by {
      assert OccursAt(data, CRLF_CRLF, best.0) || OccursAt(data, LF_LF, best.0);
    }
    assert best.1 == EndingLength(data, best.0) by {
      NeverBoth(data, best.0);
    }
    return Some(data[..best.0 + best.1]);
  }

  /** The two spellings never start at the same byte. */
  lemma NeverBoth(data: Bytes, i: nat)
    ensures OccursAt(data, CRLF_CRLF, i) ==> data[i] == CR
    ensures OccursAt(data, LF_LF, i) ==> data[i] == LF
  {
    if OccursAt(data, CRLF_CRLF, i) {
      var t := data[i..i + |CRLF_CRLF|];
      assert t[0] == data[i];
    }
    if OccursAt(data, LF_LF, i) {
      var t := data[i..i + |LF_LF|];
      assert t[0] == data[i];
    }
  }

  /** The block of a complete message: without a separator, all of it. */
  ghost predicate IsBlockOfWhole(data: Bytes, block: Bytes) {
    exists r :: IsUpToSeparator(data, r) && block == if r.Some? then r.value else data
  }

  lemma BlockOfWholeUnique(data: Bytes, a: Bytes, b: Bytes)
    requires IsBlockOfWhole(data, a) && IsBlockOfWhole(data, b)
    ensures a == b
  {
    var r :| IsUpToSeparator(data, r) && a == if r.Some? then r.value else data;
    var r' :| IsUpToSeparator(data, r') && b == if r'.Some? then r'.value else data;
  }

  lemma OnlyBlockOfWhole(data: Bytes, block: Bytes)
    requires IsBlockOfWhole(data, block)
    ensures forall whole :: IsBlockOfWhole(data, whole) <==> whole == block
  {
    forall whole | IsBlockOfWhole(data, whole) ensures whole == block {
      BlockOfWholeUnique(data, whole, block);
    }
  }

  method HeaderBlockOf(data: Bytes, truncated: bool) returns (block: Option<Bytes>)
    ensures block.Some? && !truncated ==> IsBlockOfWhole(data, block.value)
    ensures block.Some? && truncated ==> IsUpToSeparator(data, block)
    ensures block.None? <==> truncated && forall i: nat :: !SeparatorAt(data, i)
  {
    var found := UpToSeparator(data);
    if found.Some? {
      ghost var i: nat :| FirstSeparator(data, i);
      return found;
    }
    return if truncated then None else Some(data);
  }

  method HeaderBlockOfWhole(data: Bytes) returns (block: Bytes)
    ensures IsBlockOfWhole(data, block)
  {
    var found := UpToSeparator(data);
    return if found.None? then data else found.value;
  }

  // --- the bounded read --------------------------------------------------------------

  /** substring(raw_bytes from 1 for PREFIX_READ_BYTES) */
  function ReadPrefix(raw: Bytes): Bytes {
    if |raw| <= PREFIX_READ_BYTES then raw else raw[..PREFIX_READ_BYTES]
  }

  lemma OccursInPrefix(raw: Bytes, n: nat, pattern: Bytes, i: nat)
    requires n <= |raw|
    ensures OccursAt(raw[..n], pattern, i) <==> i + |pattern| <= n && OccursAt(raw, pattern, i)
  {
    if i + |pattern| <= n {
      assert raw[..n][i..i + |pattern|] == raw[i..i + |pattern|];
    }
  }

  /** A separator cut in two by the ceiling cannot start before one found inside. */
  lemma StraddlingIsLater(raw: Bytes, n: nat, found: nat, other: nat)
    requires n <= |raw| && SeparatorAt(raw[..n], found)
    requires SeparatorAt(raw, other) && !SeparatorAt(raw[..n], other)
    ensures found < other
  {
    OccursInPrefix(raw, n, CRLF_CRLF, found);
    OccursInPrefix(raw, n, LF_LF, found);
    OccursInPrefix(raw, n, CRLF_CRLF, other);
    OccursInPrefix(raw, n, LF_LF, other);
    if OccursAt(raw, LF_LF, other) {
      assert other + 2 > n;
    } else {
      assert other + 4 > n;
      var s := raw[other..other + 4];
      assert s[0] == CR && s[1] == LF && s[2] == CR && s[3] == LF;
      assert raw[other] == CR && raw[other + 1] == LF && raw[other + 2] == CR;
      var t := raw[found..found + 2];
      assert raw[found] == t[0] && raw[found + 1] == t[1];
    }
  }

  /** Where the prefix holds a separator it holds the message's first one. */
  lemma PrefixFindsTheSame(raw: Bytes, n: nat, r: Option<Bytes>)
    requires n <= |raw| && r.Some? && IsUpToSeparator(raw[..n], r)
    ensures IsUpToSeparator(raw, r)
  {
    var prefix := raw[..n];
    var i: nat :| FirstSeparator(prefix, i) && i + EndingLength(prefix, i) <= |prefix|
                  && r.value == prefix[..i + EndingLength(prefix, i)];
    OccursInPrefix(raw, n, CRLF_CRLF, i);
    OccursInPrefix(raw, n, LF_LF, i);
    forall j: nat | j < i ensures !SeparatorAt(raw, j) {
      if SeparatorAt(raw, j) {
        StraddlingIsLater(raw, n, i, j);
      }
    }
    NeverBoth(raw, i);
    assert FirstSeparator(raw, i) && EndingLength(raw, i) == EndingLength(prefix, i);
    assert r.value == raw[..i + EndingLength(raw, i)];
  }

  /** `_header_entries`: whatever the message, the bounded read with its fallback
      serves exactly the block of the whole message. `reread` says it fell back. */
  method HeaderEntriesBlock(raw: Bytes) returns (block: Bytes, reread: bool)
    ensures forall whole :: IsBlockOfWhole(raw, whole) <==> whole == block
    ensures reread <==> |raw| > HEADER_BLOCK_READ_BYTES
                        && forall i: nat :: !SeparatorAt(ReadPrefix(raw), i)
  {
    var prefix := ReadPrefix(raw);
    var found := HeaderBlockOf(prefix, PrefixIsTruncated(prefix));
    if found.None? {
      block := HeaderBlockOfWhole(raw);
      OnlyBlockOfWhole(raw, block);
      return block, true;
    }
    if PrefixIsTruncated(prefix) {
      assert prefix == raw[..|prefix|];
      PrefixFindsTheSame(raw, |prefix|, found);
      assert IsUpToSeparator(raw, found);
    }
    OnlyBlockOfWhole(raw, found.value);
    return found.value, false;
  }

  // --- grouping ------------------------------------------------------------------------

  datatype HeaderEntry = HeaderEntry(name: string, value: string)

  function ValuesOf(entries: seq<HeaderEntry>, name: string): seq<string>
    decreases |entries|
  {
    if entries == [] then []
    else
      var n := |entries| - 1;
      ValuesOf(entries[..n], name) + if entries[n].name == name then [entries[n].value] else []
  }

  /** One key per spelling that occurs, each with its values in wire order. */
  method GroupEntries(entries: seq<HeaderEntry>) returns (out: map<string, seq<string>>)
    ensures forall name :: name in out <==> ValuesOf(entries, name) != []
    ensures forall name :: name in out ==> out[name] == ValuesOf(entries, name)
  {
    out := map[];
    for i := 0 to |entries|
      invariant forall name :: ValuesOf(entries[..i], name) == Group(out, name)
      invariant forall name :: name in out ==> out[name] != []
    {
      var e := entries[i];
      assert entries[..i + 1][..i] == entries[..i];
      ghost var was := out;
      out := out[e.name := Group(out, e.name) + [e.value]];
      forall name ensures ValuesOf(entries[..i + 1], name) == Group(out, name) {
        assert ValuesOf(entries[..i], name) == Group(was, name);
      }
    }
    assert entries[..|entries|] == entries;
  }

  function Group(groups: map<string, seq<string>>, name: string): seq<string> {
    if name in groups then groups[name] else []
  }

  /** Every occurrence is at its place in its group: entry `i` is the value with
      as many of its own name before it as there are in the first `i` entries. */
  lemma {:induction false} GroupingLosesNothing(entries: seq<HeaderEntry>, i: nat)
    requires i < |entries|
    ensures var name := entries[i].name;
            var k := |ValuesOf(entries[..i], name)|;
            k < |ValuesOf(entries, name)| && ValuesOf(entries, name)[k] == entries[i].value
    decreases |entries|
  {
    var n := |entries| - 1;
    if i < n {
      GroupingLosesNothing(entries[..n], i);
      assert entries[..n][..i] == entries[..i];
    }
  }

  /** And nothing is made up: the group has one value per entry of its name. */
  lemma {:induction false} GroupSize(entries: seq<HeaderEntry>, name: string)
    ensures |ValuesOf(entries, name)| == |Positions(entries, name)|
    decreases |entries|
  {
    if entries != [] {
      var n := |entries| - 1;
      GroupSize(entries[..n], name);
      assert Positions(entries, name)
             == Positions(entries[..n], name) + if entries[n].name == name then {n} else {};
    }
  }

  function Positions(entries: seq<HeaderEntry>, name: string): set<nat> {
    set i: nat | i < |entries| && entries[i].name == name
  }
}
