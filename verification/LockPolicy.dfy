/**
 `check_requirement_lock`: a one-pass scanner over a hash lock file, checked against
 a block specification, and the comparison of direct pins with locked ones.
 */
module LockPolicy {
  import opened Common
  import opened Text

  const HASH := "--hash=sha256:"

  datatype Pin = Pin(name: string, version: string)

  datatype Error =
    | MissingLock
    | OptionLine(line: nat)
    | UrlLine(line: nat)
    | NotPinned(line: nat)
    | NoHash(before: Option<nat>, package: string)
    | MissingFromLock(package: string)
    | Differs(package: string, direct: string, locked: string)

  // ----- lines

  predicate NameChar(c: char) {
    'A' <= c <= 'Z' || 'a' <= c <= 'z' || '0' <= c <= '9' || c == '_' || c == '.' || c == '-'
  }

  predicate VersionChar(c: char) {
    !IsSpace(c) && c != '\\'
  }

  function NameRun(text: string): (n: nat)
    ensures n <= |text|
  {
    if text != [] && NameChar(text[0]) then 1 + NameRun(text[1..]) else 0
  }

  function VersionRun(text: string): (n: nat)
    ensures n <= |text|
  {
    if text != [] && VersionChar(text[0]) then 1 + VersionRun(text[1..]) else 0
  }

  function Lower(c: char): char {
    if 'A' <= c <= 'Z' then (c as int + 32) as char else if c == '_' then '-' else c
  }

  /** `name.lower().replace("_", "-")`. */
  function Normalize(name: string): string {
    seq(|name|, i requires 0 <= i < |name| => Lower(name[i]))
  }

  /** The pin regular expression at the start of a line; no part of it can match in two
      ways, so the greedy match is the only one. The name comes back normalized. */
  function MatchPin(line: string): Option<Pin> {
    var n := NameRun(line);
    if n == 0 || !StartsWith(line[n..], "==") then None
    else
      var v := VersionRun(line[n + 2..]);
      if v == 0 then None else Some(Pin(Normalize(line[..n]), line[n + 2..n + 2 + v]))
  }

  lemma {:induction false} NameRunIs(text: string)
    ensures forall i :: 0 <= i < NameRun(text) ==> NameChar(text[i])
    ensures NameRun(text) < |text| ==> !NameChar(text[NameRun(text)])
  {
    if text != [] && NameChar(text[0]) {
      NameRunIs(text[1..]);
    }
  }

  lemma {:induction false} VersionRunIs(text: string)
    ensures forall i :: 0 <= i < VersionRun(text) ==> VersionChar(text[i])
    ensures VersionRun(text) < |text| ==> !VersionChar(text[VersionRun(text)])
  {
    if text != [] && VersionChar(text[0]) {
      VersionRunIs(text[1..]);
    }
  }

  /** `[A-Za-z0-9_.-]+` */
  predicate IsName(text: string) {
    text != "" && forall c :: c in text ==>
      'a' <= c <= 'z' || 'A' <= c <= 'Z' || '0' <= c <= '9' || c == '_' || c == '.' || c == '-'
  }

  /** `[^\s\\]+`, as much of it as there is. */
  predicate IsVersion(text: string, rest: string) {
    && text != "" && (forall c :: c in text ==> !IsSpace(c) && c != '\\')
    && (rest != "" ==> IsSpace(rest[0]) || rest[0] == '\\')
  }

  /** The pin expression, on every line: a name, two equal signs, and a version up to white
      space or a backslash. */
  lemma MatchPinIff(line: string, pin: Pin)
    ensures MatchPin(line) == Some(pin) <==>
            exists name, rest :: && line == name + "==" + pin.version + rest && IsName(name)
                                 && IsVersion(pin.version, rest) && pin.name == Normalize(name)
  {
    hide NameRun, VersionRun, Normalize, IsSpace;
    if MatchPin(line) == Some(pin) {
      var n := NameRun(line);
      var tail := line[n + 2..];
      var v := VersionRun(tail);
      NameRunIs(line);
      VersionRunIs(tail);
      assert line == line[..n] + "==" + tail[..v] + tail[v..];
      assert IsName(line[..n]) && IsVersion(tail[..v], tail[v..]);
    }
    if name, rest :| line == name + "==" + pin.version + rest && IsName(name)
                     && IsVersion(pin.version, rest) && pin.name == Normalize(name)
    {
      PinReads(name, pin.version, rest);
    }
  }

  lemma PinReads(name: string, version: string, rest: string)
    requires IsName(name) && IsVersion(version, rest)
    ensures MatchPin(name + "==" + version + rest) == Some(Pin(Normalize(name), version))
  {
    hide NameRun, VersionRun, Normalize, IsSpace;
    var line, tail := name + "==" + version + rest, version + rest;
    assert line == name + ("==" + tail);
    RunOfName(name, "==" + tail);
    RunOfVersion(version, rest);
    assert line[..|name|] == name && line[|name|..] == "==" + tail && line[|name| + 2..] == tail;
    assert ("==" + tail)[..2] == "==";
    assert tail[..|version|] == version && line[|name| + 2..|name| + 2 + |version|] == version;
  }

  lemma {:induction false} RunOfName(name: string, rest: string)
    requires (forall c :: c in name ==> NameChar(c)) && (rest == "" || !NameChar(rest[0]))
    ensures NameRun(name + rest) == |name|
  {
    if name == "" {
      assert name + rest == rest;
    } else {
      assert (name + rest)[0] == name[0] && (name + rest)[1..] == name[1..] + rest;
      RunOfName(name[1..], rest);
    }
  }

  lemma {:induction false} RunOfVersion(version: string, rest: string)
    requires (forall c :: c in version ==> VersionChar(c)) && (rest == "" || !VersionChar(rest[0]))
    ensures VersionRun(version + rest) == |version|
  {
    hide VersionChar;
    if version == "" {
      assert version + rest == rest;
    } else {
      assert (version + rest)[0] == version[0] && (version + rest)[1..] == version[1..] + rest;
      RunOfVersion(version[1..], rest);
    }
  }

  /** Names are compared in lower case with hyphens: every character by itself. */
  lemma NormalizeIs(name: string, i: nat)
    requires i < |name|
    ensures |Normalize(name)| == |name|
    ensures 'A' <= name[i] <= 'Z' ==> Normalize(name)[i] as int - 'a' as int == name[i] as int - 'A' as int
    ensures name[i] == '_' ==> Normalize(name)[i] == '-'
    ensures !('A' <= name[i] <= 'Z') && name[i] != '_' ==> Normalize(name)[i] == name[i]
  {
  }

  datatype Direct = Ignored | Rejected(error: Error) | Pinned(pin: Pin)

  /** One stripped line of the direct requirements; `index` counts from 1. */
  function Classify(line: string, index: nat): Direct {
    if line == "" || StartsWith(line, "#") then Ignored
    else if StartsWith(line, "-") then Rejected(OptionLine(index))
    else if HasText(line, "@") || HasText(line, "://") || StartsWith(line, "git+") then Rejected(UrlLine(index))
    else
      match MatchPin(line)
      case None => Rejected(NotPinned(index))
      case Some(pin) => Pinned(pin)
  }

  /** What becomes of a direct line, by what it reads. */
  lemma ClassifyIs(line: string, index: nat)
    ensures Classify(line, index) == Ignored <==> line == "" || line[0] == '#'
    ensures Classify(line, index) == Rejected(OptionLine(index)) <==> line != "" && line[0] == '-'
    ensures Classify(line, index) == Rejected(UrlLine(index)) <==>
            && line != "" && line[0] != '#' && line[0] != '-'
            && (|| '@' in line || (exists a, b :: line == a + "://" + b) || (exists b :: line == "git+" + b))
    ensures Classify(line, index) == Rejected(NotPinned(index)) <==>
            && line != "" && line[0] != '#' && line[0] != '-'
            && '@' !in line && !(exists a, b :: line == a + "://" + b) && !(exists b :: line == "git+" + b)
            && MatchPin(line).None?
    ensures Classify(line, index).Rejected? ==>
              Classify(line, index).error in [OptionLine(index), UrlLine(index), NotPinned(index)]
    ensures Classify(line, index).Pinned? ==> Some(Classify(line, index).pin) == MatchPin(line)
  {
    hide MatchPin;
    HasTextIff(line, "://");
    HasAt(line);
    if StartsWith(line, "git+") {
      assert line == "git+" + line[4..];
    }
    if b :| line == "git+" + b {
      assert line[..4] == "git+";
    }
    if line != "" {
      assert line[..1] == [line[0]];
    }
  }

  lemma HasAt(line: string)
    ensures HasText(line, "@") <==> '@' in line
  {
    HasTextIff(line, "@");
    if '@' in line {
      var i :| 0 <= i < |line| && line[i] == '@';
      assert line == line[..i] + "@" + line[i + 1..];
    }
  }

  /** Errors name their line, counted from 1, and a lock line counts as hashed by its text. */
  lemma RowsAre(lines: seq<string>, i: nat)
    requires i < |lines|
    ensures |DirectRows(lines)| == |LockRows(lines)| == |lines|
    ensures DirectRows(lines)[i] == Classify(Strip(lines[i]), i + 1)
    ensures LockRows(lines)[i].pin == MatchPin(Strip(lines[i]))
    ensures LockRows(lines)[i].hash <==> exists a, b :: Strip(lines[i]) == a + "--hash=sha256:" + b
  {
    hide MatchPin, Strip, Classify;
    HasTextIff(Strip(lines[i]), "--hash=sha256:");
  }

  /** One stripped line of the lock file, as far as the scan looks at it. */
  datatype LockRow = LockRow(pin: Option<Pin>, hash: bool)

  function LockRowOf(raw: string): LockRow {
    LockRow(MatchPin(Strip(raw)), HasText(Strip(raw), HASH))
  }

  function DirectRows(lines: seq<string>): seq<Direct> {
    seq(|lines|, i requires 0 <= i < |lines| => Classify(Strip(lines[i]), i + 1))
  }

  function LockRows(lines: seq<string>): seq<LockRow> {
    seq(|lines|, i requires 0 <= i < |lines| => LockRowOf(lines[i]))
  }

  // ----- last pins

  function DirectPins(rows: seq<Direct>): seq<Option<Pin>> {
    seq(|rows|, i requires 0 <= i < |rows| => if rows[i].Pinned? then Some(rows[i].pin) else None)
  }

  function LockPins(rows: seq<LockRow>): seq<Option<Pin>> {
    seq(|rows|, i requires 0 <= i < |rows| => rows[i].pin)
  }

  /** Row `i` pins the package to this version, and no later row below `n` pins it. */
  predicate IsLastPin(i: nat, n: nat, package: string, version: string, pins: seq<Option<Pin>>)
    requires n <= |pins|
  {
    && i < n && pins[i] == Some(Pin(package, version))
    && forall j :: i < j < n && pins[j].Some? ==> pins[j].value.name != package
  }

  ghost predicate HasLastPin(n: nat, package: string, version: string, pins: seq<Option<Pin>>)
    requires n <= |pins|
  {
    exists i: nat :: IsLastPin(i, n, package, version, pins)
  }

  /** `d` holds, for every package pinned by some row, the version of its last pin. */
  ghost predicate LastPins(d: map<string, string>, n: nat, pins: seq<Option<Pin>>)
    requires n <= |pins|
  {
    && (forall i :: 0 <= i < n && pins[i].Some? ==> pins[i].value.name in d)
    && (forall p :: p in d ==> HasLastPin(n, p, d[p], pins))
  }

  lemma LastPinsGrow(d: map<string, string>, n: nat, pins: seq<Option<Pin>>)
    requires n < |pins| && LastPins(d, n, pins)
    ensures LastPins(if pins[n].Some? then d[pins[n].value.name := pins[n].value.version] else d, n + 1, pins)
  {
    var e := if pins[n].Some? then d[pins[n].value.name := pins[n].value.version] else d;
    forall p | p in e ensures HasLastPin(n + 1, p, e[p], pins) {
      if pins[n].Some? && pins[n].value.name == p {
        assert IsLastPin(n, n + 1, p, e[p], pins);
      } else {
        assert HasLastPin(n, p, d[p], pins);
        var i: nat :| IsLastPin(i, n, p, d[p], pins);
        assert IsLastPin(i, n + 1, p, e[p], pins);
      }
    }
  }

  // ----- the direct requirements

  function DirectErrors(rows: seq<Direct>): seq<Error> {
    if rows == [] then []
    else
      var n := |rows| - 1;
      DirectErrors(rows[..n]) + (if rows[n].Rejected? then [rows[n].error] else [])
  }

  // ----- the blocks of the lock file

  /** The rows that name a package; block `j` runs from the j-th of them to the next. */
  function Starts(rows: seq<LockRow>): (starts: seq<nat>)
    ensures forall j :: 0 <= j < |starts| ==> starts[j] < |rows| && rows[starts[j]].pin.Some?
    ensures forall j, k :: 0 <= j < k < |starts| ==> starts[j] < starts[k]
  {
    if rows == [] then []
    else
      var n := |rows| - 1;
      Starts(rows[..n]) + (if rows[n].pin.Some? then [n] else [])
  }

  lemma {:induction false} StartsAreAll(rows: seq<LockRow>, i: nat)
    requires i < |rows| && rows[i].pin.Some?
    ensures i in Starts(rows)
  {
    if i < |rows| - 1 {
      StartsAreAll(rows[..|rows| - 1], i);
    }
  }

  lemma StartsAre(rows: seq<LockRow>, i: nat)
    ensures i in Starts(rows) <==> i < |rows| && rows[i].pin.Some?
  {
    if i < |rows| && rows[i].pin.Some? {
      StartsAreAll(rows, i);
    }
  }

  /** Every package row starts a block, so a block holds no package row but its first, and no
      package row comes before the first block. */
  lemma BlocksCoverThePackages(rows: seq<LockRow>, i: nat)
    requires i < |rows|
    ensures i in Starts(rows) <==> rows[i].pin.Some?
    ensures forall j :: 0 <= j < |Starts(rows)| && Starts(rows)[j] < i < EndOf(rows, Starts(rows), j) ==>
              rows[i].pin.None?
    ensures Starts(rows) == [] || i < Starts(rows)[0] ==> rows[i].pin.None?
  {
    hide Starts;
    StartsAre(rows, i);
    NotBetween(Starts(rows), i, |rows|);
  }

  lemma NotBetween(starts: seq<nat>, i: nat, end: nat)
    requires forall a, b :: 0 <= a < b < |starts| ==> starts[a] < starts[b]
    ensures forall j :: 0 <= j < |starts| && starts[j] < i < (if j + 1 < |starts| then starts[j + 1] else end) ==>
              i !in starts
    ensures starts != [] && i < starts[0] ==> i !in starts
  {
  }

  /** Some row of `rows[a..b]` carries a hash. */
  predicate Hashed(rows: seq<LockRow>, a: nat, b: nat)
    requires a <= b <= |rows|
  {
    exists k :: a <= k < b && rows[k].hash
  }

  /** Where block `j` ends: at the next package row, or at the end of the file. */
  function EndOf(rows: seq<LockRow>, starts: seq<nat>, j: nat): nat
    requires j < |starts|
  {
    if j + 1 < |starts| then starts[j + 1] else |rows|
  }

  predicate BlockHashed(rows: seq<LockRow>, j: nat)
    requires j < |Starts(rows)|
  {
    Hashed(rows, Starts(rows)[j], EndOf(rows, Starts(rows), j))
  }

  /** Error of block `j`, if any: it names the line before the next package, or no line
      for the last block. */
  function BlockErrors(rows: seq<LockRow>, j: nat): seq<Error>
    requires j < |Starts(rows)|
  {
    if BlockHashed(rows, j) then []
    else
      var starts := Starts(rows);
      [NoHash(if j + 1 < |starts| then Some(starts[j + 1]) else None, rows[starts[j]].pin.value.name)]
  }

  /** Errors of the first `n` blocks, in file order. */
  function HashErrors(rows: seq<LockRow>, n: nat): seq<Error>
    requires n <= |Starts(rows)|
  {
    if n == 0 then [] else HashErrors(rows, n - 1) + BlockErrors(rows, n - 1)
  }

  function UnhashedBlocks(rows: seq<LockRow>, n: nat): set<nat>
    requires n <= |Starts(rows)|
  {
    if n == 0 then {} else UnhashedBlocks(rows, n - 1) + (if BlockHashed(rows, n - 1) then {} else {n - 1})
  }

  lemma {:induction false} UnhashedBlocksAre(rows: seq<LockRow>, n: nat)
    requires n <= |Starts(rows)|
    ensures forall j: nat :: j in UnhashedBlocks(rows, n) <==> j < n && !BlockHashed(rows, j)
  {
    if n > 0 {
      UnhashedBlocksAre(rows, n - 1);
    }
  }

  /** One missing-hash error per block without a hash, the last block included. */
  lemma {:induction false} HashErrorsCountBlocks(rows: seq<LockRow>, n: nat)
    requires n <= |Starts(rows)|
    ensures |HashErrors(rows, n)| == |UnhashedBlocks(rows, n)|
  {
    hide Starts, BlockHashed, BlockErrors;
    if n > 0 {
      HashErrorsCountBlocks(rows, n - 1);
      UnhashedBlocksAre(rows, n - 1);
      OneErrorPerBlock(rows, n - 1);
      var before := UnhashedBlocks(rows, n - 1);
      assert n - 1 !in before && |before + {n - 1}| == |before| + 1;
      assert before + {} == before;
    }
  }

  lemma OneErrorPerBlock(rows: seq<LockRow>, j: nat)
    requires j < |Starts(rows)|
    ensures |BlockErrors(rows, j)| == if BlockHashed(rows, j) then 0 else 1
  {
  }

  /** The error of a block names its package and the line before the next block, or no line for
      the last one. */
  lemma BlockErrorIs(rows: seq<LockRow>, j: nat)
    requires j < |Starts(rows)|
    ensures var starts := Starts(rows);
            var end := if j + 1 < |starts| then starts[j + 1] else |rows|;
            var before := if j + 1 < |starts| then Some(starts[j + 1]) else None;
            BlockErrors(rows, j) == if exists k :: starts[j] <= k < end && rows[k].hash then []
                                    else [NoHash(before, rows[starts[j]].pin.value.name)]
  {
    hide Starts;
  }

  /** The errors are those of the blocks, block after block. */
  lemma {:induction false} HashErrorsSay(rows: seq<LockRow>, n: nat, j: nat)
    requires j < n <= |Starts(rows)|
    ensures HashErrors(rows, 0) == [] && HashErrors(rows, j + 1) == HashErrors(rows, j) + BlockErrors(rows, j)
    ensures HashErrors(rows, j + 1) <= HashErrors(rows, n)
  {
    hide Starts, BlockErrors;
    if j + 1 < n {
      HashErrorsSay(rows, n - 1, j);
    }
  }

  /** Rejected lines are reported in order. */
  lemma {:induction false} DirectErrorsConcat(a: seq<Direct>, b: seq<Direct>)
    ensures DirectErrors(a + b) == DirectErrors(a) + DirectErrors(b)
    ensures forall row :: DirectErrors([row]) == if row.Rejected? then [row.error] else []
  {
    OneDirectError();
    if b == [] {
      assert a + b == a;
    } else {
      assert (a + b)[..|a + b| - 1] == a + b[..|b| - 1];
      DirectErrorsConcat(a, b[..|b| - 1]);
    }
  }

  lemma OneDirectError()
    ensures forall row :: DirectErrors([row]) == if row.Rejected? then [row.error] else []
  {
    forall row: Direct ensures DirectErrors([row]) == if row.Rejected? then [row.error] else [] {
      assert [row][..0] == [];
    }
  }

  lemma {:induction false} StartsPrefix(rows: seq<LockRow>, i: nat)
    requires i <= |rows|
    ensures Starts(rows[..i]) <= Starts(rows)
    decreases |rows| - i
  {
    if i < |rows| {
      assert rows[..i + 1][..i] == rows[..i];
      StartsPrefix(rows, i + 1);
    } else {
      assert rows[..i] == rows;
    }
  }

  // ----- the two scans

  method ScanDirect(lines: seq<string>) returns (errors: seq<Error>, pins: map<string, string>)
    ensures errors == DirectErrors(DirectRows(lines))
    ensures LastPins(pins, |lines|, DirectPins(DirectRows(lines)))
  {
    hide Classify, Strip;
    errors, pins := [], map[];
    ghost var rows := DirectRows(lines);
    for i := 0 to |lines|
      invariant errors == DirectErrors(rows[..i])
      invariant LastPins(pins, i, DirectPins(rows))
    {
      assert rows[..i + 1][..i] == rows[..i];
      LastPinsGrow(pins, i, DirectPins(rows));
      match Classify(Strip(lines[i]), i + 1) {
        case Ignored =>
        case Rejected(error) => errors := errors + [error];
        case Pinned(pin) => pins := pins[pin.name := pin.version];
      }
    }
    assert rows[..|lines|] == rows;
  }

  /** What the one-pass variables mean after `i` rows, `count` of them package rows. */
  ghost predicate ScanState(rows: seq<LockRow>, i: nat, count: nat,
                            currentPackage: Option<string>, currentHasHash: bool)
    requires i <= |rows|
  {
    && count == |Starts(rows[..i])| && Starts(rows[..i]) <= Starts(rows)
    && (currentPackage.Some? <==> count > 0)
    && (count > 0 ==>
         var start := Starts(rows)[count - 1];
         && start < i && currentPackage == Some(rows[start].pin.value.name)
         && (currentHasHash <==> Hashed(rows, start, i)))
  }

  lemma StartsStep(rows: seq<LockRow>, i: nat)
    requires i < |rows|
    ensures Starts(rows[..i + 1]) == Starts(rows[..i]) + (if rows[i].pin.Some? then [i] else [])
    ensures Starts(rows[..i + 1]) <= Starts(rows)
  {
    assert rows[..i + 1][..i] == rows[..i];
    StartsPrefix(rows, i + 1);
  }

  lemma ScanPackageRow(rows: seq<LockRow>, i: nat, count: nat, currentPackage: Option<string>, currentHasHash: bool)
    requires i < |rows| && ScanState(rows, i, count, currentPackage, currentHasHash) && rows[i].pin.Some?
    ensures ScanState(rows, i + 1, count + 1, Some(rows[i].pin.value.name), rows[i].hash)
    ensures count < |Starts(rows)| && Starts(rows)[count] == i
    ensures count > 0 ==> (BlockHashed(rows, count - 1) <==> currentHasHash)
  {
    hide Starts, Hashed;
    StartsStep(rows, i);
    var starts := Starts(rows);
    assert |Starts(rows[..i + 1])| == count + 1;
    assert starts[count] == Starts(rows[..i + 1])[count] == i;
    HashedOne(rows, i);
    if count > 0 {
      assert EndOf(rows, starts, count - 1) == i;
    }
  }

  lemma HashedOne(rows: seq<LockRow>, i: nat)
    requires i < |rows|
    ensures Hashed(rows, i, i + 1) <==> rows[i].hash
  {
    if rows[i].hash {
      assert i <= i < i + 1 && rows[i].hash;
    }
  }

  lemma ScanOtherRow(rows: seq<LockRow>, i: nat, count: nat, currentPackage: Option<string>, currentHasHash: bool)
    requires i < |rows| && ScanState(rows, i, count, currentPackage, currentHasHash) && rows[i].pin.None?
    ensures var hasHash := if currentPackage.Some? && rows[i].hash then true else currentHasHash;
            ScanState(rows, i + 1, count, currentPackage, hasHash)
  {
    hide Hashed, Starts;
    StartsStep(rows, i);
    if count > 0 {
      HashedGrows(rows, Starts(rows)[count - 1], i);
    }
  }

  lemma HashedGrows(rows: seq<LockRow>, a: nat, b: nat)
    requires a <= b < |rows|
    ensures Hashed(rows, a, b + 1) <==> Hashed(rows, a, b) || rows[b].hash
  {
    if k :| a <= k < b && rows[k].hash {
      assert rows[k].hash;
    }
  }

  method ScanLock(lines: seq<string>) returns (errors: seq<Error>, pins: map<string, string>)
    ensures errors == HashErrors(LockRows(lines), |Starts(LockRows(lines))|)
    ensures LastPins(pins, |lines|, LockPins(LockRows(lines)))
  {
    hide MatchPin, Strip, HasText, Starts, Hashed, ScanState, LastPins, BlockHashed, LockRows, LockPins;
    errors, pins := [], map[];
    var currentPackage: Option<string> := None;
    var currentHasHash := false;
    ghost var rows, count := LockRows(lines), 0;
    ScanNothing(rows);
    NoPinsYet(lines);
    for i := 0 to |lines|
      invariant LastPins(pins, i, LockPins(rows))
      invariant ScanState(rows, i, count, currentPackage, currentHasHash)
      invariant count <= |Starts(rows)| && (currentPackage.Some? <==> count > 0)
      invariant count > 0 ==> currentPackage == Some(rows[Starts(rows)[count - 1]].pin.value.name)
      invariant errors == HashErrors(rows, if count == 0 then 0 else count - 1)
    {
      LockRowIs(lines, i);
      LastPinsGrow(pins, i, LockPins(rows));
      var line := Strip(lines[i]);
      var found := MatchPin(line);
      if found.Some? {
        ScanPackageRow(rows, i, count, currentPackage, currentHasHash);
        if currentPackage.Some? && !currentHasHash {
          errors := errors + [NoHash(Some(i), currentPackage.value)];
        }
        currentPackage := Some(found.value.name);
        currentHasHash := HasText(line, HASH);
        pins := pins[found.value.name := found.value.version];
        count := count + 1;
      } else {
        ScanOtherRow(rows, i, count, currentPackage, currentHasHash);
        if currentPackage.Some? && HasText(line, HASH) {
          currentHasHash := true;
        }
      }
    }
    ScanEnd(rows, count, currentPackage, currentHasHash);
    if currentPackage.Some? && !currentHasHash {
      errors := errors + [NoHash(None, currentPackage.value)];
    }
  }

  lemma NoPinsYet(lines: seq<string>)
    ensures |LockRows(lines)| == |lines| == |LockPins(LockRows(lines))|
    ensures LastPins(map[], 0, LockPins(LockRows(lines)))
  {
  }

  lemma LockRowIs(lines: seq<string>, i: nat)
    requires i < |lines|
    ensures |LockRows(lines)| == |lines| == |LockPins(LockRows(lines))|
    ensures LockRows(lines)[i] == LockRow(MatchPin(Strip(lines[i])), HasText(Strip(lines[i]), HASH))
    ensures LockPins(LockRows(lines))[i] == MatchPin(Strip(lines[i]))
  {
  }

  lemma ScanNothing(rows: seq<LockRow>)
    ensures ScanState(rows, 0, 0, None, false)
  {
    StartsPrefix(rows, 0);
  }

  lemma ScanEnd(rows: seq<LockRow>, count: nat, currentPackage: Option<string>, currentHasHash: bool)
    requires ScanState(rows, |rows|, count, currentPackage, currentHasHash)
    ensures count == |Starts(rows)| && (count > 0 ==> (BlockHashed(rows, count - 1) <==> currentHasHash))
  {
    assert rows[..|rows|] == rows;
  }

  // ----- sorted sets of packages

  /** Python's order of strings: by the first differing character, a prefix first. */
  predicate Less(a: string, b: string) {
    b != "" && (a == "" || a[0] < b[0] || (a[0] == b[0] && Less(a[1..], b[1..])))
  }

  /** `n` is where the two first differ, or where the shorter one ends. */
  predicate DiffersAt(a: string, b: string, n: nat) {
    && n <= |a| && n < |b| && a[..n] == b[..n]
    && (n < |a| ==> a[n] < b[n])
  }

  lemma {:induction false} LessIff(a: string, b: string)
    ensures Less(a, b) <==> exists n: nat :: DiffersAt(a, b, n)
  {
    if a == "" {
      assert b != "" ==> DiffersAt(a, b, 0);
    } else if b != "" && a[0] == b[0] {
      LessIff(a[1..], b[1..]);
      if n: nat :| DiffersAt(a[1..], b[1..], n) {
        assert a[..n + 1] == [a[0]] + a[1..][..n] && b[..n + 1] == [b[0]] + b[1..][..n];
        assert DiffersAt(a, b, n + 1);
      }
      if n: nat :| DiffersAt(a, b, n) {
        assert n > 0;
        assert a[1..][..n - 1] == a[..n][1..] && b[1..][..n - 1] == b[..n][1..];
        assert DiffersAt(a[1..], b[1..], n - 1);
      }
    } else if b != "" {
      assert a[0] < b[0] ==> DiffersAt(a, b, 0);
      assert forall n: nat :: n > 0 && DiffersAt(a, b, n) ==> a[..n][0] == b[..n][0];
    }
  }

  lemma {:induction false} LessIsTotal(a: string, b: string)
    ensures a == b || Less(a, b) || Less(b, a)
  {
    if a != "" && b != "" && a[0] == b[0] {
      LessIsTotal(a[1..], b[1..]);
      assert a == [a[0]] + a[1..] && b == [b[0]] + b[1..];
    }
  }

  lemma {:induction false} LessIsTransitive(a: string, b: string, c: string)
    requires Less(a, b) && Less(b, c)
    ensures Less(a, c)
  {
    if a != "" && a[0] == b[0] == c[0] {
      LessIsTransitive(a[1..], b[1..], c[1..]);
    }
  }

  lemma {:induction false} LessIsStrict(a: string)
    ensures !Less(a, a)
  {
    if a != "" {
      LessIsStrict(a[1..]);
    }
  }

  /** The one list of these packages in increasing order. */
  predicate Sorted(list: seq<string>, packages: set<string>) {
    (set p | p in list) == packages && forall i, j :: 0 <= i < j < |list| ==> Less(list[i], list[j])
  }

  method Least(packages: set<string>) returns (least: string)
    requires packages != {}
    ensures least in packages && forall p :: p in packages && p != least ==> Less(least, p)
  {
    least :| least in packages;
    var todo := packages - {least};
    while todo != {}
      invariant least in packages && todo <= packages
      invariant forall p :: p in packages && p !in todo && p != least ==> Less(least, p)
      decreases |todo|
    {
      var p :| p in todo;
      LessIsTotal(p, least);
      if Less(p, least) {
        forall q | q in packages && q !in todo && q != least ensures Less(p, q) {
          LessIsTransitive(p, least, q);
        }
        least := p;
      }
      todo := todo - {p};
    }
  }

  method SortedList(packages: set<string>) returns (list: seq<string>)
    ensures Sorted(list, packages)
  {
    list := [];
    var todo := packages;
    while todo != {}
      invariant Sorted(list, packages - todo) && todo <= packages
      invariant forall p, q :: p in list && q in todo ==> Less(p, q)
      decreases |todo|
    {
      var p := Least(todo);
      assert (set q | q in list + [p]) == (set q | q in list) + {p};
      list := list + [p];
      todo := todo - {p};
    }
    assert packages - todo == packages;
  }

  lemma {:induction false} SortedSize(list: seq<string>, packages: set<string>)
    requires Sorted(list, packages)
    ensures |list| == |packages|
  {
    if list != [] {
      var n := |list| - 1;
      assert list == list[..n] + [list[n]];
      if list[n] in list[..n] {
        LessIsStrict(list[n]);
      }
      assert (set p | p in list[..n]) == packages - {list[n]};
      SortedSize(list[..n], packages - {list[n]});
    }
  }

  // ----- direct pins against locked ones

  function Missing(direct: map<string, string>, locked: map<string, string>): set<string> {
    direct.Keys - locked.Keys
  }

  function Differing(direct: map<string, string>, locked: map<string, string>): set<string> {
    set p | p in direct && p in locked && locked[p] != direct[p]
  }

  function MissingErrors(order: seq<string>): seq<Error> {
    seq(|order|, i requires 0 <= i < |order| => MissingFromLock(order[i]))
  }

  function DifferingErrors(order: seq<string>, direct: map<string, string>, locked: map<string, string>): seq<Error>
    requires forall p :: p in order ==> p in direct && p in locked
  {
    seq(|order|, i requires 0 <= i < |order| => Differs(order[i], direct[order[i]], locked[order[i]]))
  }

  /** The loop over `sorted(set(direct) - set(locked))`. */
  method ReportMissing(direct: map<string, string>, locked: map<string, string>)
    returns (errors: seq<Error>, order: seq<string>)
    ensures Sorted(order, Missing(direct, locked))
    ensures errors == MissingErrors(order)
    ensures |errors| == |order| && forall i :: 0 <= i < |order| ==> errors[i] == MissingFromLock(order[i])
  {
    order := SortedList(direct.Keys - locked.Keys);
    errors := [];
    for i := 0 to |order|
      invariant errors == MissingErrors(order[..i])
    {
      errors := errors + [MissingFromLock(order[i])];
    }
    assert order[..|order|] == order;
  }

  /** The loop over `sorted(set(direct) & set(locked))`; `order` are the ones that differ. */
  method ReportDiffering(direct: map<string, string>, locked: map<string, string>)
    returns (errors: seq<Error>, order: seq<string>)
    ensures Sorted(order, Differing(direct, locked))
    ensures forall p :: p in order ==> p in Differing(direct, locked)
    ensures errors == DifferingErrors(order, direct, locked)
    ensures |errors| == |order|
    ensures forall i :: 0 <= i < |order| ==> errors[i] == Differs(order[i], direct[order[i]], locked[order[i]])
  {
    hide Less;
    var both := SortedList(direct.Keys * locked.Keys);
    assert forall p :: p in both ==> p in direct && p in locked by { SortedContents(both, direct.Keys * locked.Keys); }
    errors, order := [], [];
    for i := 0 to |both|
      invariant forall p :: p in order <==> p in both[..i] && locked[p] != direct[p]
      invariant forall j, k :: 0 <= j < k < |order| ==> Less(order[j], order[k])
      invariant errors == DifferingErrors(order, direct, locked)
    {
      assert both[..i + 1] == both[..i] + [both[i]];
      if direct[both[i]] != locked[both[i]] {
        forall j | 0 <= j < |order| ensures Less(order[j], both[i]) {
          assert order[j] in order && order[j] in both[..i];
        }
        errors := errors + [Differs(both[i], direct[both[i]], locked[both[i]])];
        order := order + [both[i]];
      }
    }
    assert both[..|both|] == both;
    assert forall p :: p in Differing(direct, locked) ==> p in both by {
      SortedContents(both, direct.Keys * locked.Keys);
    }
  }

  lemma SortedContents(list: seq<string>, packages: set<string>)
    requires Sorted(list, packages)
    ensures forall p :: p in list <==> p in packages
  {
    var all := set p | p in list;
    assert forall p :: p in list <==> p in all;
  }

  /** The whole check of one requirements file, in the order it reports: the rejected direct
      lines, the blocks without a hash, the packages missing from the lock and those that
      differ. It is silent if and only if the lock file exists, every direct line is blank, a
      comment or an exact pin, every locked block has a hash, and the lock's last pin of
      every directly pinned package is the version of its last direct pin. */
  method CheckRequirementLock(requirements: seq<string>, lock: Option<seq<string>>)
    returns (errors: seq<Error>, direct: map<string, string>, locked: map<string, string>)
    ensures lock.Some? ==> LastPins(direct, |requirements|, DirectPins(DirectRows(requirements)))
    ensures lock.Some? ==> LastPins(locked, |lock.value|, LockPins(LockRows(lock.value)))
    ensures errors == [] <==>
            && lock.Some?
            && (forall i :: 0 <= i < |requirements| ==> !DirectRows(requirements)[i].Rejected?)
            && (forall j :: 0 <= j < |Starts(LockRows(lock.value))| ==> BlockHashed(LockRows(lock.value), j))
            && (forall p :: p in direct ==> p in locked && locked[p] == direct[p])
    ensures lock.None? ==> errors == [MissingLock]
    ensures lock.Some? ==> Reports(errors, DirectRows(requirements), LockRows(lock.value), direct, locked)
    ensures lock.Some? ==>
              var rows := LockRows(lock.value);
              |errors| == |DirectErrors(DirectRows(requirements))| + |UnhashedBlocks(rows, |Starts(rows)|)|
                          + |Missing(direct, locked)| + |Differing(direct, locked)|
  {
    hide Strip, Classify, LockRowOf, Starts, BlockHashed, DirectErrors, HashErrors, UnhashedBlocks;
    hide LastPins, Less, Sorted;
    direct, locked := map[], map[];
    if lock.None? {
      return [MissingLock], direct, locked;
    }
    var directErrors, lockErrors;
    directErrors, direct := ScanDirect(requirements);
    lockErrors, locked := ScanLock(lock.value);
    var missingErrors, missing := ReportMissing(direct, locked);
    var differingErrors, differing := ReportDiffering(direct, locked);
    errors := directErrors + lockErrors + missingErrors + differingErrors;
    ghost var rows := LockRows(lock.value);
    HashErrorsCountBlocks(rows, |Starts(rows)|);
    NoDirectErrors(DirectRows(requirements));
    NoneUnhashed(rows);
    NoneMismatched(direct, locked);
    SortedSize(missing, Missing(direct, locked));
    SortedSize(differing, Differing(direct, locked));
    assert ReportsInOrder(errors, DirectRows(requirements), rows, direct, locked, missing, differing);
  }

  /** All four kinds, each in its order: by line, by block, by package, by package. */
  ghost predicate Reports(errors: seq<Error>, directRows: seq<Direct>, rows: seq<LockRow>,
                          direct: map<string, string>, locked: map<string, string>) {
    exists missing, differing :: ReportsInOrder(errors, directRows, rows, direct, locked, missing, differing)
  }

  ghost predicate ReportsInOrder(errors: seq<Error>, directRows: seq<Direct>, rows: seq<LockRow>,
                                 direct: map<string, string>, locked: map<string, string>,
                                 missing: seq<string>, differing: seq<string>) {
    && Sorted(missing, Missing(direct, locked)) && Sorted(differing, Differing(direct, locked))
    && (forall p :: p in differing ==> p in Differing(direct, locked))
    && errors == DirectErrors(directRows) + HashErrors(rows, |Starts(rows)|)
                 + MissingErrors(missing) + DifferingErrors(differing, direct, locked)
  }

  lemma {:induction false} NoDirectErrors(rows: seq<Direct>)
    ensures |DirectErrors(rows)| == 0 <==> forall i :: 0 <= i < |rows| ==> !rows[i].Rejected?
  {
    if rows != [] {
      NoDirectErrors(rows[..|rows| - 1]);
    }
  }

  lemma NoneUnhashed(rows: seq<LockRow>)
    ensures |UnhashedBlocks(rows, |Starts(rows)|)| == 0 <==>
            forall j :: 0 <= j < |Starts(rows)| ==> BlockHashed(rows, j)
  {
    UnhashedBlocksAre(rows, |Starts(rows)|);
    var bad := UnhashedBlocks(rows, |Starts(rows)|);
    assert |bad| == 0 <==> bad == {};
    if bad == {} {
      forall j | 0 <= j < |Starts(rows)| ensures BlockHashed(rows, j) {
        assert j !in bad;
      }
    }
  }

  lemma NoneMismatched(direct: map<string, string>, locked: map<string, string>)
    ensures |Missing(direct, locked)| == |Differing(direct, locked)| == 0 <==>
            forall p :: p in direct ==> p in locked && locked[p] == direct[p]
  {
    var missing, differing := Missing(direct, locked), Differing(direct, locked);
    assert |missing| == 0 <==> missing == {};
    assert |differing| == 0 <==> differing == {};
    if missing == {} && differing == {} {
      forall p | p in direct ensures p in locked && locked[p] == direct[p] {
        assert p !in missing && p !in differing;
      }
    }
    if forall p :: p in direct ==> p in locked && locked[p] == direct[p] {
      assert forall p :: p !in missing && p !in differing;
    }
  }
}
