/** The temp files of the attachment store: their names, and their collector. */
module BlobTemps {
  import opened Prelude
  import Decimal

  // --- names -----------------------------------------------------------------------

  predicate IsHexDigit(c: char) {
    '0' <= c <= '9' || 'a' <= c <= 'f'
  }

  predicate AllHex(s: string) {
    forall i :: 0 <= i < |s| ==> IsHexDigit(s[i])
  }

  /** A canonical blob name: the hex digest, nothing else. */
  predicate IsBlobName(name: string) {
    |name| == 64 && AllHex(name)
  }

  const TEMP_SUFFIX := ".tmp"

  function TempName(blobName: string, pid: nat, token: string): string {
    Assemble(blobName, Decimal.Text(pid), token)
  }

  /** ^[0-9a-f]{64}\.[0-9]+\.[0-9a-f]{32}\.tmp up to the end of `name`: every
      part but the process id has a fixed length. */
  predicate HasTempShape(name: string) {
    var n := |name|;
    && n >= 64 + 1 + 1 + 1 + 32 + 4
    && AllHex(name[..64]) && name[64] == '.'
    && Decimal.AllDigits(name[65..n - 37]) && name[n - 37] == '.'
    && AllHex(name[n - 36..n - 4]) && name[n - 4..] == TEMP_SUFFIX
  }

  /** The regular expression's `$` also matches before one final newline. */
  predicate IsWriterTemp(name: string) {
    HasTempShape(name) || (name != "" && name[|name| - 1] == '\n' && HasTempShape(name[..|name| - 1]))
  }

  function Assemble(blobName: string, digits: string, token: string): string {
    blobName + "." + digits + "." + token + TEMP_SUFFIX
  }

  lemma TempParts(blobName: string, digits: string, token: string)
    requires |blobName| == 64 && |token| == 32
    ensures var name := Assemble(blobName, digits, token);
            var n := |name|;
            && n == 102 + |digits|
            && name[..64] == blobName && name[64] == '.' && name[65..n - 37] == digits
            && name[n - 37] == '.' && name[n - 36..n - 4] == token && name[n - 4..] == TEMP_SUFFIX
  {
  }

  /** The recogniser accepts what writers mint and nothing a blob is ever called. */
  lemma WriterTempsAreRecognised(blobName: string, pid: nat, token: string)
    requires IsBlobName(blobName) && |token| == 32 && AllHex(token)
    ensures IsWriterTemp(TempName(blobName, pid, token))
    ensures !IsWriterTemp(blobName)
  {
    TempParts(blobName, Decimal.Text(pid), token);
  }

  ghost predicate IsAssembled(name: string, blobName: string, digits: string, token: string, end: string) {
    && IsBlobName(blobName) && Decimal.AllDigits(digits)
    && |token| == 32 && AllHex(token) && (end == "" || end == "\n")
    && name == Assemble(blobName, digits, token) + end
  }

  lemma ShapeIsAssembled(core: string, end: string)
    requires HasTempShape(core) && (end == "" || end == "\n")
    ensures exists blobName, digits, token, e :: IsAssembled(core + end, blobName, digits, token, e)
  {
    var n := |core|;
    assert IsAssembled(core + end, core[..64], core[65..n - 37], core[n - 36..n - 4], end);
  }

  lemma AssembledIsAccepted(name: string, blobName: string, digits: string, token: string, end: string)
    requires IsAssembled(name, blobName, digits, token, end)
    ensures IsWriterTemp(name)
  {
    var core := Assemble(blobName, digits, token);
    TempParts(blobName, digits, token);
    assert HasTempShape(core);
    if end == "" {
      assert name == core;
    } else {
      assert name[..|name| - 1] == core;
    }
  }

  /** What it accepts is exactly some writer's name, with any digits for the
      process id and up to one trailing newline. */
  lemma RecognisedNamesAreTemps(name: string)
    ensures IsWriterTemp(name)
            <==> exists blobName, digits, token, end :: IsAssembled(name, blobName, digits, token, end)
  {
    if HasTempShape(name) {
      ShapeIsAssembled(name, "");
      assert name + "" == name;
    } else if IsWriterTemp(name) {
      ShapeIsAssembled(name[..|name| - 1], "\n");
      assert name[..|name| - 1] + "\n" == name;
    }
    forall blobName, digits, token, end | IsAssembled(name, blobName, digits, token, end)
      ensures IsWriterTemp(name)
    {
      AssembledIsAccepted(name, blobName, digits, token, end);
    }
  }

  /** Private: no two of blob, process and token ever share a temp name. */
  lemma TempNameInjective(blob1: string, pid1: nat, token1: string, blob2: string, pid2: nat, token2: string)
    requires IsBlobName(blob1) && IsBlobName(blob2) && |token1| == 32 && |token2| == 32
    requires TempName(blob1, pid1, token1) == TempName(blob2, pid2, token2)
    ensures blob1 == blob2 && pid1 == pid2 && token1 == token2
  {
    TempParts(blob1, Decimal.Text(pid1), token1);
    TempParts(blob2, Decimal.Text(pid2), token2);
    Decimal.NumberOfText(pid1);
    Decimal.NumberOfText(pid2);
  }

  // --- the sweep ----------------------------------------------------------------------

  type Time = int

  datatype File = File(content: Bytes, mtime: Time)

  /** Strict: a file exactly at the gate, or from the future, is kept. */
  predicate IsExpired(mtime: Time, now: Time, maxAge: Time) {
    now - mtime > maxAge
  }

  /** What befalls one file of the walk: nothing, an OSError from stat or from
      unlink, or somebody else unlinking it between the two. */
  datatype Trouble = Fine | StatFails | UnlinkFails | LosesRace

  datatype Gate = Gate(now: Time, maxAge: Time, dryRun: bool)

  datatype Verdict = NotTemp | Gone | Error | Kept | Removed(reclaimed: nat)

  /** What the sweep decides about one name it walks over. */
  function Judge(files: map<string, File>, name: string, trouble: Trouble, gate: Gate): Verdict {
    if !IsWriterTemp(name) then NotTemp
    else if name !in files then Gone
    else if trouble.StatFails? then Error
    else if !IsExpired(files[name].mtime, gate.now, gate.maxAge) then Kept
    else if !gate.dryRun && trouble.UnlinkFails? then Error
    else if !gate.dryRun && trouble.LosesRace? then Removed(0)
    else Removed(|files[name].content|)
  }

  datatype SweepResult = SweepResult(walked: nat, scanned: nat, removed: nat, reclaimed: nat, errors: nat)

  function Tally(r: SweepResult, v: Verdict): SweepResult {
    var r := r.(scanned := r.scanned + if v.NotTemp? then 0 else 1);
    match v
    case Error => r.(errors := r.errors + 1)
    case Removed(n) => r.(removed := r.removed + 1, reclaimed := r.reclaimed + n)
    case _ => r
  }

  function Totals(files: map<string, File>, names: seq<string>, troubles: string -> Trouble, gate: Gate)
    : SweepResult
  {
    if names == [] then SweepResult(0, 0, 0, 0, 0)
    else
      var n := |names| - 1;
      var r := Totals(files, names[..n], troubles, gate);
      Tally(r.(walked := r.walked + 1), Judge(files, names[n], troubles(names[n]), gate))
  }

  /** The files a sweep over `names` takes away. */
  function Swept(files: map<string, File>, names: seq<string>, troubles: string -> Trouble, gate: Gate)
    : set<string>
  {
    if gate.dryRun then {}
    else set name | name in names && Judge(files, name, troubles(name), gate).Removed?
  }

  class BlobTree {
    var files: map<string, File>

    /** `os.walk` visits every name once. */
    method SweepBlobTemps(names: seq<string>, troubles: string -> Trouble, gate: Gate)
      returns (walked: nat, scanned: nat, removed: nat, reclaimed: nat, errors: nat)
      requires NoDuplicates(names)
      modifies this
      ensures files == old(files) - Swept(old(files), names, troubles, gate)
      ensures gate.dryRun ==> files == old(files)
      ensures SweepResult(walked, scanned, removed, reclaimed, errors)
              == Totals(old(files), names, troubles, gate)
    {
      walked, scanned, removed, reclaimed, errors := 0, 0, 0, 0, 0;
      for i := 0 to |names|
        invariant files == old(files) - Swept(old(files), names[..i], troubles, gate)
        invariant SweepResult(walked, scanned, removed, reclaimed, errors)
                  == Totals(old(files), names[..i], troubles, gate)
      {
        var name := names[i];
        assert names[..i + 1][..i] == names[..i];
        assert name !in names[..i];
        assert Swept(old(files), names[..i + 1], troubles, gate)
               == Swept(old(files), names[..i], troubles, gate)
                  + if !gate.dryRun && Judge(old(files), name, troubles(name), gate).Removed?
                    then {name} else {};
        walked := walked + 1;
        if !IsWriterTemp(name) {
          continue;
        }
        scanned := scanned + 1;
        if name !in files {
          continue;
        }
        if troubles(name).StatFails? {
          errors := errors + 1;
          continue;
        }
        var stat := files[name];
        if !IsExpired(stat.mtime, gate.now, gate.maxAge) {
          continue;
        }
        if !gate.dryRun {
          if troubles(name).UnlinkFails? {
            errors := errors + 1;
            continue;
          }
          files := files - {name};
          if troubles(name).LosesRace? {
            removed := removed + 1;
            continue;
          }
        }
        removed := removed + 1;
        reclaimed := reclaimed + |stat.content|;
      }
      assert names[..|names|] == names;
    }
  }

  // --- what it takes and what it counts ---------------------------------------------------

  /** A recognised temp, past the gate, that no OSError kept. */
  predicate IsCollected(files: map<string, File>, name: string, trouble: Trouble, gate: Gate) {
    && IsWriterTemp(name) && name in files && gate.now - files[name].mtime > gate.maxAge
    && trouble != StatFails && (gate.dryRun || trouble != UnlinkFails)
  }

  predicate IsFailed(files: map<string, File>, name: string, trouble: Trouble, gate: Gate) {
    && IsWriterTemp(name) && name in files
    && (trouble == StatFails
        || (trouble == UnlinkFails && !gate.dryRun && gate.now - files[name].mtime > gate.maxAge))
  }

  function Those(names: seq<string>, p: string -> bool): set<string> {
    set name | name in names && p(name)
  }

  function Recognised(): string -> bool {
    name => IsWriterTemp(name)
  }

  function Collected(files: map<string, File>, troubles: string -> Trouble, gate: Gate): string -> bool {
    name => IsCollected(files, name, troubles(name), gate)
  }

  function Failed(files: map<string, File>, troubles: string -> Trouble, gate: Gate): string -> bool {
    name => IsFailed(files, name, troubles(name), gate)
  }

  /** The sizes of what a sweep collects, without what somebody else unlinked first. */
  function Freed(files: map<string, File>, names: seq<string>, troubles: string -> Trouble, gate: Gate): nat {
    if names == [] then 0
    else
      var n := |names| - 1;
      var name := names[n];
      Freed(files, names[..n], troubles, gate)
      + if IsCollected(files, name, troubles(name), gate) && (gate.dryRun || troubles(name) != LosesRace)
        then |files[name].content| else 0
  }

  /** A dry run takes nothing, another sweep exactly what it collects. */
  lemma SweptExactly(files: map<string, File>, names: seq<string>, troubles: string -> Trouble, gate: Gate)
    ensures Swept(files, names, troubles, gate)
            == if gate.dryRun then {} else Those(names, Collected(files, troubles, gate))
  {
  }

  /** The counters: every name walked over, the recognised ones, those collected,
      the bytes freed, and the errors. */
  ghost predicate Counts(r: SweepResult, files: map<string, File>, names: seq<string>, troubles: string -> Trouble,
                         gate: Gate) {
    && r.walked == |names|
    && r.scanned == |Those(names, Recognised())|
    && r.removed == |Those(names, Collected(files, troubles, gate))|
    && r.reclaimed == Freed(files, names, troubles, gate)
    && r.errors == |Those(names, Failed(files, troubles, gate))|
  }

  lemma ThoseSnoc(init: seq<string>, last: string, p: string -> bool)
    requires last !in init
    ensures |Those(init + [last], p)| == |Those(init, p)| + if p(last) then 1 else 0
  {
    assert Those(init + [last], p) == Those(init, p) + if p(last) then {last} else {};
  }

  lemma TotalsSnoc(files: map<string, File>, init: seq<string>, last: string, troubles: string -> Trouble, gate: Gate)
    ensures var r, t := Totals(files, init + [last], troubles, gate), Totals(files, init, troubles, gate);
            && r.walked == t.walked + 1
            && r.scanned == t.scanned + (if Recognised()(last) then 1 else 0)
            && r.removed == t.removed + (if Collected(files, troubles, gate)(last) then 1 else 0)
            && r.errors == t.errors + (if Failed(files, troubles, gate)(last) then 1 else 0)
            && r.reclaimed - t.reclaimed
               == Freed(files, init + [last], troubles, gate) - Freed(files, init, troubles, gate)
  {
    assert (init + [last])[..|init|] == init;
  }

  lemma {:induction false} TotalsCount(files: map<string, File>, names: seq<string>, troubles: string -> Trouble,
                                       gate: Gate)
    requires NoDuplicates(names)
    ensures Counts(Totals(files, names, troubles, gate), files, names, troubles, gate)
    decreases |names|
  {
    if names != [] {
      var init, last := names[..|names| - 1], names[|names| - 1];
      assert names == init + [last] && last !in init;
      TotalsCount(files, init, troubles, gate);
      TotalsSnoc(files, init, last, troubles, gate);
      ThoseSnoc(init, last, Recognised());
      ThoseSnoc(init, last, Collected(files, troubles, gate));
      ThoseSnoc(init, last, Failed(files, troubles, gate));
    }
  }

  /** Where every file can be looked at, a dry run reports what the same sweep
      would report, and take, if nothing went wrong. */
  lemma {:induction false} DryRunForetells(files: map<string, File>, names: seq<string>,
                                           troubles: string -> Trouble, gate: Gate)
    requires gate.dryRun && forall name :: name in names ==> troubles(name) != StatFails
    ensures Totals(files, names, troubles, gate) == Totals(files, names, _ => Fine, gate.(dryRun := false))
    decreases |names|
  {
    if names != [] {
      DryRunForetells(files, names[..|names| - 1], troubles, gate);
    }
  }

  /** A sweep without errors leaves no writer temp past the gate, and touches
      neither a blob nor anything younger. */
  lemma SweepCollectsStranded(files: map<string, File>, names: seq<string>, troubles: string -> Trouble,
                              gate: Gate)
    requires !gate.dryRun && (forall name :: name in files ==> name in names)
    requires Totals(files, names, troubles, gate).errors == 0
    ensures var left := files - Swept(files, names, troubles, gate);
            && (forall name :: name in left && IsWriterTemp(name)
                  ==> !IsExpired(left[name].mtime, gate.now, gate.maxAge))
            && (forall name :: name in files
                  && (!IsWriterTemp(name) || !IsExpired(files[name].mtime, gate.now, gate.maxAge))
                  ==> name in left && left[name] == files[name])
  {
    forall name | name in names ensures Judge(files, name, troubles(name), gate) != Error {
      NoErrorCounted(files, names, troubles, gate, name);
    }
  }

  lemma {:induction false} NoErrorCounted(files: map<string, File>, names: seq<string>,
                                          troubles: string -> Trouble, gate: Gate, name: string)
    requires Totals(files, names, troubles, gate).errors == 0 && name in names
    ensures Judge(files, name, troubles(name), gate) != Error
  {
    var n := |names| - 1;
    if name != names[n] {
      assert name in names[..n];
      NoErrorCounted(files, names[..n], troubles, gate, name);
    }
  }
}
