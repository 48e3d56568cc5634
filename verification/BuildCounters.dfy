/** The file of patch counters that gives every local build of a version its own patch number. */
module BuildCounters {
  import opened Options
  import opened Helpers
  import opened Decimals
  import opened TextLines

  const U32_MAX: nat := 0xFFFF_FFFF

  type U32 = n: nat | n <= U32_MAX

  type Counters = map<string, U32>

  /** Digits with an optional plus sign, at least one of them, and no overflow. */
  function ParseU32(s: string): Option<U32> {
    var digits := if s != [] && s[0] == '+' then s[1..] else s;
    if digits == [] || !AllDigits(digits) || Value(digits) > U32_MAX then None else Some(Value(digits))
  }

  lemma ParseUndoesPrint(n: U32)
    ensures ParseU32(Print(n)) == Some(n)
  {
    PrintIsDecimal(n);
    assert IsDigit(Print(n)[0]);
  }

  /** A plus sign before a number changes nothing; leading zeros do not either. */
  lemma PlusSign(s: string)
    requires s != [] && s[0] != '+'
    ensures ParseU32("+" + s) == ParseU32(s)
  {
    assert ("+" + s)[1..] == s;
  }

  lemma {:induction false} LeadingZero(s: string)
    requires s != [] && AllDigits(s)
    ensures AllDigits("0" + s) && Value("0" + s) == Value(s)
  {
    var all := "0" + s;
    assert all[..|all| - 1] == "0" + s[..|s| - 1];
    if |s| > 1 {
      LeadingZero(s[..|s| - 1]);
    } else {
      assert "0" + s[..|s| - 1] == ['0'] && s[..0] == [] && ['0'][..0] == [];
    }
  }

  // ---------- one line ----------

  /** The two sides of the first `=`. */
  function SplitOnce(line: string): Option<(string, string)> {
    if line == [] then None
    else if line[0] == '=' then Some(([], line[1..]))
    else
      match SplitOnce(line[1..])
      case None => None
      case Some((key, value)) => Some(([line[0]] + key, value))
  }

  lemma {:induction false} SplitOnceAtKey(key: string, value: string)
    requires '=' !in key
    ensures SplitOnce(key + "=" + value) == Some((key, value))
  {
    if key == [] {
      assert key + "=" + value == "=" + value;
      assert ("=" + value)[1..] == value;
    } else {
      SplitOnceAtKey(key[1..], value);
      assert (key + "=" + value)[1..] == key[1..] + "=" + value;
      assert [key[0]] + key[1..] == key;
    }
  }

  /** A line is split exactly when it has an equals sign, at the first one, and nothing is lost. */
  lemma {:induction false} SplitOnceIff(line: string)
    ensures SplitOnce(line).Some? <==> '=' in line
    ensures SplitOnce(line).Some? ==> line == SplitOnce(line).value.0 + "=" + SplitOnce(line).value.1
  {
    if line != [] && line[0] != '=' {
      SplitOnceIff(line[1..]);
      assert line == [line[0]] + line[1..];
    }
  }

  lemma {:induction false} SplitOnceKey(line: string)
    ensures SplitOnce(line).Some? ==>
      '=' !in SplitOnce(line).value.0 && forall c :: c in SplitOnce(line).value.0 ==> c in line
  {
    if line != [] && line[0] != '=' {
      SplitOnceKey(line[1..]);
    }
  }

  /** What one line of the file says, if anything. */
  function ParseLine(line: string): Option<(string, U32)> {
    var trimmed := Trim(line);
    if trimmed == [] then None
    else
      match SplitOnce(trimmed)
      case None => None
      case Some((key, value)) =>
        var n := ParseU32(Trim(value));
        if n.Some? then Some((Trim(key), n.value)) else None
  }

  function LineFor(key: string, value: U32): string { key + "=" + Print(value) }

  /** Keys that survive being written to a line. */
  predicate Clean(key: string) { '=' !in key && '\n' !in key && Trimmed(key) }

  lemma LineIsTrimmed(key: string, value: U32)
    requires Clean(key)
    ensures Trimmed(LineFor(key, value)) && '\n' !in LineFor(key, value) && Trimmed(Print(value))
  {
    var line := LineFor(key, value);
    PrintIsDecimal(value);
    assert forall i :: 0 <= i < |Print(value)| ==> IsDigit(Print(value)[i]);
    assert line[|line| - 1] == Print(value)[|Print(value)| - 1];
    assert line[0] == if key == [] then '=' else key[0];
  }

  lemma ParseUndoesLine(key: string, value: U32)
    requires Clean(key)
    ensures ParseLine(LineFor(key, value)) == Some((key, value)) && '\n' !in LineFor(key, value)
  {
    LineIsTrimmed(key, value);
    TrimIsTrimmed(LineFor(key, value));
    SplitOnceAtKey(key, Print(value));
    TrimIsTrimmed(Print(value));
    TrimIsTrimmed(key);
    ParseUndoesPrint(value);
  }

  lemma ParsedKeyIsClean(line: string)
    requires '\n' !in line && ParseLine(line).Some?
    ensures Clean(ParseLine(line).value.0)
  {
    TrimIsTrimmed(line);
    SplitOnceKey(Trim(line));
    TrimIsTrimmed(SplitOnce(Trim(line)).value.0);
  }

  // ---------- the whole file ----------

  type Parser = string -> Option<(string, U32)>

  /** The counters in what `parse` makes of the lines; later lines win. */
  function LoadLines(parse: Parser, lines: seq<string>): Counters {
    if lines == [] then map[]
    else
      var before := LoadLines(parse, lines[..|lines| - 1]);
      match parse(lines[|lines| - 1])
      case None => before
      case Some((key, value)) => before[key := value]
  }

  function Load(text: string): Counters { LoadLines(ParseLine, Split(text, '\n')) }

  /** `keys` lists the keys of `m`, each once. */
  ghost predicate Enumerates(keys: seq<string>, m: Counters) {
    && (forall k :: k in keys <==> k in m)
    && forall i, j :: 0 <= i < j < |keys| ==> keys[i] != keys[j]
  }

  function Lines(m: Counters, keys: seq<string>): (r: seq<string>)
    requires forall i :: 0 <= i < |keys| ==> keys[i] in m
    ensures |r| == |keys|
  {
    if keys == [] then [] else Lines(m, keys[..|keys| - 1]) + [LineFor(keys[|keys| - 1], m[keys[|keys| - 1]])]
  }

  function Text(m: Counters, keys: seq<string>): string
    requires forall i :: 0 <= i < |keys| ==> keys[i] in m
  {
    Join(Lines(m, keys), '\n') + "\n"
  }

  /** `text` is a file holding `m`, with its keys in some order. */
  ghost predicate Saved(m: Counters, text: string) {
    exists keys :: Enumerates(keys, m) && text == Text(m, keys)
  }

  /** The counters of the first keys. */
  function Restricted(m: Counters, keys: seq<string>): Counters { map k | k in m && k in keys :: m[k] }

  lemma RestrictedSnoc(m: Counters, front: seq<string>, key: string)
    requires key in m
    ensures Restricted(m, front + [key]) == Restricted(m, front)[key := m[key]]
  {
    assert forall k :: k in front + [key] <==> k in front || k == key;
  }

  lemma LoadLinesSnoc(parse: Parser, lines: seq<string>, line: string)
    ensures LoadLines(parse, lines + [line]) ==
      match parse(line)
      case None => LoadLines(parse, lines)
      case Some((key, value)) => LoadLines(parse, lines)[key := value]
  {
    assert (lines + [line])[..|lines|] == lines;
  }

  lemma {:induction false} LinesHaveNoNewline(m: Counters, keys: seq<string>)
    requires (forall i :: 0 <= i < |keys| ==> keys[i] in m) && forall k :: k in m ==> Clean(k)
    ensures forall i :: 0 <= i < |keys| ==> '\n' !in Lines(m, keys)[i]
  {
    if keys != [] {
      LinesHaveNoNewline(m, keys[..|keys| - 1]);
      LineIsTrimmed(keys[|keys| - 1], m[keys[|keys| - 1]]);
    }
  }

  lemma LinesSnoc(m: Counters, keys: seq<string>)
    requires keys != [] && forall i :: 0 <= i < |keys| ==> keys[i] in m
    ensures var key := keys[|keys| - 1]; Lines(m, keys) == Lines(m, keys[..|keys| - 1]) + [LineFor(key, m[key])]
  {
  }

  /** What is written for the counters is read back, whatever else the parser accepts. */
  lemma {:induction false} LoadLinesOf(parse: Parser, m: Counters, keys: seq<string>) returns (lines: seq<string>)
    requires forall i :: 0 <= i < |keys| ==> keys[i] in m
    requires forall k :: k in m ==> parse(LineFor(k, m[k])) == Some((k, m[k]))
    ensures lines == Lines(m, keys) && LoadLines(parse, lines) == Restricted(m, keys)
  {
    if keys == [] {
      lines := [];
    } else {
      var front, key := keys[..|keys| - 1], keys[|keys| - 1];
      lines := LoadLinesOf(parse, m, front);
      LinesSnoc(m, keys);
      LoadLinesSnoc(parse, lines, LineFor(key, m[key]));
      RestrictedSnoc(m, front, key);
      assert keys == front + [key];
      lines := lines + [LineFor(key, m[key])];
    }
  }

  /** A trailing newline adds one empty piece. */
  lemma {:induction false} SplitEndingNewline(s: string)
    ensures Split(s + "\n", '\n') == Split(s, '\n') + [[]]
  {
    if s == [] {
      assert s + "\n" == "\n" && "\n"[1..] == [];
    } else {
      assert (s + "\n")[1..] == s[1..] + "\n";
      SplitEndingNewline(s[1..]);
    }
  }

  /** The parser of lines reads what is written for the counters, and nothing in an empty line. */
  lemma ParserReads(m: Counters) returns (parse: Parser)
    requires forall k :: k in m ==> Clean(k)
    ensures parse == ParseLine && parse([]) == None
    ensures forall k :: k in m ==> parse(LineFor(k, m[k])) == Some((k, m[k]))
  {
    parse := ParseLine;
    forall k | k in m ensures parse(LineFor(k, m[k])) == Some((k, m[k])) {
      ParseUndoesLine(k, m[k]);
    }
  }

  /** The lines of the text are those written, and an empty one after the last newline. */
  lemma LinesOfText(lines: seq<string>)
    requires forall i :: 0 <= i < |lines| ==> '\n' !in lines[i]
    ensures Split(Join(lines, '\n') + "\n", '\n') == (if lines == [] then [[]] else lines) + [[]]
  {
    SplitEndingNewline(Join(lines, '\n'));
    if lines != [] {
      SplitUndoesJoin(lines, '\n');
    }
  }

  lemma EmptyLastLoads(parse: Parser, lines: seq<string>)
    requires parse([]) == None
    ensures LoadLines(parse, (if lines == [] then [[]] else lines) + [[]]) == LoadLines(parse, lines)
  {
    LoadLinesSnoc(parse, lines, []);
    LoadLinesSnoc(parse, [[]], []);
    var none: seq<string> := [];
    LoadLinesSnoc(parse, none, []);
    assert none + [[]] == [[]];
  }

  lemma LoadOfLines(parse: Parser, m: Counters, keys: seq<string>)
    requires Enumerates(keys, m) && forall k :: k in m ==> Clean(k)
    requires parse([]) == None && forall k :: k in m ==> parse(LineFor(k, m[k])) == Some((k, m[k]))
    ensures (forall i :: 0 <= i < |keys| ==> keys[i] in m) && LoadLines(parse, Split(Text(m, keys), '\n')) == m
  {
    assert forall i :: 0 <= i < |keys| ==> keys[i] in keys;
    var lines := LoadLinesOf(parse, m, keys);
    LinesHaveNoNewline(m, keys);
    LinesOfText(lines);
    EmptyLastLoads(parse, lines);
    assert Restricted(m, keys) == m;
  }

  lemma LoadOfText(m: Counters, keys: seq<string>)
    requires Enumerates(keys, m) && forall k :: k in m ==> Clean(k)
    ensures (forall i :: 0 <= i < |keys| ==> keys[i] in m) && Load(Text(m, keys)) == m
  {
    var parse := ParserReads(m);
    LoadOfLines(parse, m, keys);
  }

  lemma {:induction false} LoadedLinesAreClean(parse: Parser, lines: seq<string>)
    requires forall i :: 0 <= i < |lines| ==> '\n' !in lines[i]
    requires forall line :: '\n' !in line && parse(line).Some? ==> Clean(parse(line).value.0)
    ensures forall k :: k in LoadLines(parse, lines) ==> Clean(k)
  {
    if lines != [] {
      LoadedLinesAreClean(parse, lines[..|lines| - 1]);
      assert '\n' !in lines[|lines| - 1];
    }
  }

  /** Whatever a file says, the keys read from it are clean. */
  lemma LoadedKeysAreClean(text: string)
    ensures forall k :: k in Load(text) ==> Clean(k)
  {
    PiecesHaveNoSeparator(text, '\n');
    forall line | '\n' !in line && ParseLine(line).Some? ensures Clean(ParseLine(line).value.0) {
      ParsedKeyIsClean(line);
    }
    LoadedLinesAreClean(ParseLine, Split(text, '\n'));
  }

  /** Loading what was saved gives the same counters exactly when every key can be told apart on a line. */
  lemma LoadUndoesSaveIff(m: Counters, text: string)
    requires Saved(m, text)
    ensures Load(text) == m <==> forall k :: k in m ==> Clean(k)
  {
    LoadedKeysAreClean(text);
    if forall k :: k in m ==> Clean(k) {
      var keys :| Enumerates(keys, m) && text == Text(m, keys);
      LoadOfText(m, keys);
    }
  }

  // ---------- next build number ----------

  datatype Version = Version(major: U32, minor: U32, patch: U32)

  function Key(v: Version): string { Print(v.major) + "." + Print(v.minor) }

  lemma KeyIsClean(v: Version)
    ensures Clean(Key(v))
  {
    PrintIsDecimal(v.major);
    PrintIsDecimal(v.minor);
    var key := Key(v);
    forall i | 0 <= i < |key| ensures IsDigit(key[i]) || key[i] == '.' {
      if i < |Print(v.major)| {
        assert key[i] == Print(v.major)[i];
      } else if i > |Print(v.major)| {
        assert key[i] == Print(v.minor)[i - |Print(v.major)| - 1];
      }
    }
  }

  /** Different versions do not share a counter. */
  lemma KeysDiffer(a: Version, b: Version)
    requires Key(a) == Key(b)
    ensures a.major == b.major && a.minor == b.minor
  {
    PrintIsDecimal(a.major);
    PrintIsDecimal(b.major);
    PrintIsDecimal(a.minor);
    PrintIsDecimal(b.minor);
    var p, q, key := Print(a.major), Print(b.major), Key(a);
    assert key[|p|] == '.' && key[|q|] == '.';
    assert forall i :: 0 <= i < |p| ==> key[i] == p[i];
    assert forall i :: 0 <= i < |q| ==> key[i] == q[i];
    assert |p| == |q|;
    assert p == key[..|p|] && q == key[..|q|];
    assert Print(a.minor) == key[|p| + 1..] && Print(b.minor) == key[|q| + 1..];
  }

  /** How a counter is written. */
  lemma WrittenCounter()
    ensures LineFor(Key(Version(1, 22, 3)), 7) == "1.22=7"
  {
    assert Print(22) == "22";
  }

  function SaturatingNext(n: U32): U32 { if n == U32_MAX then n else n + 1 }

  function Contents(file: Option<string>): Counters { if file.Some? then Load(file.value) else map[] }

  function NextPatch(counters: Counters, base: Version): U32 {
    SaturatingNext(Max(if Key(base) in counters then counters[Key(base)] else base.patch, base.patch))
  }

  /** One build: the number it gets and the file it leaves. */
  ghost predicate Build(file: Option<string>, base: Version, next: U32, file': string) {
    && next == NextPatch(Contents(file), base)
    && Saved(Contents(file)[Key(base) := next], file')
  }

  /** The file then holds the same counters as before, except the one for this version. */
  lemma BuildUpdatesOneCounter(file: Option<string>, base: Version, next: U32, file': string)
    requires Build(file, base, next, file')
    ensures Load(file') == Contents(file)[Key(base) := next]
  {
    KeyIsClean(base);
    if file.Some? {
      LoadedKeysAreClean(file.value);
    }
    LoadUndoesSaveIff(Contents(file)[Key(base) := next], file');
  }

  /** No counter falls. */
  lemma CountersRise(file: Option<string>, base: Version, next: U32, file': string)
    requires Build(file, base, next, file')
    ensures Key(base) in Load(file') && Load(file')[Key(base)] == next
    ensures forall k :: k in Contents(file) ==> k in Load(file') && Load(file')[k] >= Contents(file)[k]
  {
    BuildUpdatesOneCounter(file, base, next, file');
  }

  ghost predicate BuildAt(file: Option<string>, bases: seq<Version>, nexts: seq<U32>, files: seq<string>, i: nat)
    requires |nexts| == |bases| == |files| && i < |bases|
  {
    Build(if i == 0 then file else Some(files[i - 1]), bases[i], nexts[i], files[i])
  }

  /** A sequence of builds, each starting from the file the one before left. */
  ghost predicate Builds(file: Option<string>, bases: seq<Version>, nexts: seq<U32>, files: seq<string>) {
    && |nexts| == |bases| == |files|
    && forall i :: 0 <= i < |bases| ==> BuildAt(file, bases, nexts, files, i)
  }

  /** Counters after a build: its own has the number given, and none has fallen. */
  ghost predicate Rises(before: Counters, after: Counters, key: string, n: U32) {
    && HasAtLeast(after, key, n)
    && forall k :: k in before ==> HasAtLeast(after, k, before[k])
  }

  predicate HasAtLeast(m: Counters, key: string, n: nat) { key in m && m[key] >= n }

  lemma RisesKeeps(before: Counters, after: Counters, key: string, n: U32, key': string, n': nat)
    requires Rises(before, after, key, n) && HasAtLeast(before, key', n')
    ensures HasAtLeast(after, key', n')
  {
  }

  /** The same for every step of a sequence of builds, as the files are read by `load`. */
  ghost predicate RisesAt(load: string -> Counters, first: Counters, bases: seq<Version>, nexts: seq<U32>,
                          files: seq<string>, j: nat)
    requires |nexts| == |bases| == |files| && j < |bases|
  {
    Rises(if j == 0 then first else load(files[j - 1]), load(files[j]), Key(bases[j]), nexts[j])
  }

  lemma {:induction false} RiseStays(load: string -> Counters, first: Counters, bases: seq<Version>, nexts: seq<U32>,
                                     files: seq<string>, i: nat, j: nat)
    requires |nexts| == |bases| == |files| && i <= j < |bases|
    requires forall k :: 0 <= k < |bases| ==> RisesAt(load, first, bases, nexts, files, k)
    ensures HasAtLeast(load(files[j]), Key(bases[i]), nexts[i])
    decreases j
  {
    assert RisesAt(load, first, bases, nexts, files, j);
    if i < j {
      RiseStays(load, first, bases, nexts, files, i, j - 1);
      RisesKeeps(load(files[j - 1]), load(files[j]), Key(bases[j]), nexts[j], Key(bases[i]), nexts[i]);
    }
  }

  lemma BuildRises(file: Option<string>, bases: seq<Version>, nexts: seq<U32>, files: seq<string>, j: nat)
    requires Builds(file, bases, nexts, files) && j < |bases|
    ensures RisesAt(Load, Contents(file), bases, nexts, files, j)
  {
    assert BuildAt(file, bases, nexts, files, j);
    CountersRise(if j == 0 then file else Some(files[j - 1]), bases[j], nexts[j], files[j]);
  }

  /** After a number was given, its counter never falls below it. */
  lemma CounterStays(file: Option<string>, bases: seq<Version>, nexts: seq<U32>, files: seq<string>, i: nat, j: nat)
    requires Builds(file, bases, nexts, files) && i <= j < |bases|
    ensures HasAtLeast(Load(files[j]), Key(bases[i]), nexts[i])
  {
    forall k | 0 <= k < |bases| ensures RisesAt(Load, Contents(file), bases, nexts, files, k) {
      BuildRises(file, bases, nexts, files, k);
    }
    RiseStays(Load, Contents(file), bases, nexts, files, i, j);
  }

  /** Every number given, a version's first one included, is above the base patch or the largest there is. */
  lemma AboveBase(file: Option<string>, bases: seq<Version>, nexts: seq<U32>, files: seq<string>, j: nat)
    requires Builds(file, bases, nexts, files) && j < |bases|
    ensures nexts[j] > bases[j].patch || nexts[j] == U32_MAX
  {
    assert BuildAt(file, bases, nexts, files, j);
  }

  /** A build gives a number above whatever its version's counter was. */
  lemma NextAbove(text: string, base: Version, next: U32, file': string, n: U32)
    requires Build(Some(text), base, next, file')
    requires HasAtLeast(Load(text), Key(base), n)
    ensures n < next || next == U32_MAX
  {
  }

  lemma NumberAbove(file: Option<string>, bases: seq<Version>, nexts: seq<U32>, files: seq<string>, j: nat,
                    key: string, n: U32)
    requires Builds(file, bases, nexts, files) && 0 < j < |bases| && key == Key(bases[j])
    requires HasAtLeast(Load(files[j - 1]), key, n)
    ensures n < nexts[j] || nexts[j] == U32_MAX
  {
    assert BuildAt(file, bases, nexts, files, j);
    NextAbove(files[j - 1], bases[j], nexts[j], files[j], n);
  }

  lemma NumbersRise(file: Option<string>, bases: seq<Version>, nexts: seq<U32>, files: seq<string>, i: nat, j: nat)
    requires Builds(file, bases, nexts, files) && i < j < |bases| && Key(bases[i]) == Key(bases[j])
    ensures nexts[i] < nexts[j] || nexts[j] == U32_MAX
  {
    CounterStays(file, bases, nexts, files, i, j - 1);
    NumberAbove(file, bases, nexts, files, j, Key(bases[i]), nexts[i]);
  }

  /** Builds of one version get strictly increasing numbers until the largest. */
  lemma NumbersIncrease(file: Option<string>, bases: seq<Version>, nexts: seq<U32>, files: seq<string>, i: nat, j: nat)
    requires Builds(file, bases, nexts, files) && i < j < |bases| && Key(bases[i]) == Key(bases[j])
    ensures nexts[i] < nexts[j] || nexts[j] == U32_MAX
    ensures nexts[j] > bases[j].patch || nexts[j] == U32_MAX
  {
    NumbersRise(file, bases, nexts, files, i, j);
    AboveBase(file, bases, nexts, files, j);
  }

  ghost predicate UpdatesAt(load: string -> Counters, first: Counters, bases: seq<Version>, nexts: seq<U32>,
                            files: seq<string>, j: nat)
    requires |nexts| == |bases| == |files| && j < |bases|
  {
    load(files[j]) == (if j == 0 then first else load(files[j - 1]))[Key(bases[j]) := nexts[j]]
  }

  /** A counter keeps its number until the next build of its version. */
  lemma {:induction false} CounterKept(load: string -> Counters, first: Counters, bases: seq<Version>, nexts: seq<U32>,
                                       files: seq<string>, i: nat, j: nat)
    requires |nexts| == |bases| == |files| && i <= j < |bases|
    requires forall k :: 0 <= k < |bases| ==> UpdatesAt(load, first, bases, nexts, files, k)
    requires forall k :: i < k <= j ==> Key(bases[k]) != Key(bases[i])
    ensures Key(bases[i]) in load(files[j]) && load(files[j])[Key(bases[i])] == nexts[i]
    decreases j
  {
    assert UpdatesAt(load, first, bases, nexts, files, j);
    if i < j {
      CounterKept(load, first, bases, nexts, files, i, j - 1);
    }
  }

  lemma BuildUpdates(file: Option<string>, bases: seq<Version>, nexts: seq<U32>, files: seq<string>, j: nat)
    requires Builds(file, bases, nexts, files) && j < |bases|
    ensures UpdatesAt(Load, Contents(file), bases, nexts, files, j)
  {
    assert BuildAt(file, bases, nexts, files, j);
    BuildUpdatesOneCounter(if j == 0 then file else Some(files[j - 1]), bases[j], nexts[j], files[j]);
  }

  lemma NextIsOneMore(text: string, base: Version, next: U32, file': string, n: U32)
    requires Build(Some(text), base, next, file')
    requires Key(base) in Load(text) && Load(text)[Key(base)] == n
    ensures next as int == Min(U32_MAX, 1 + Max(n, base.patch))
  {
  }

  /** Successive builds of a version get successive numbers, from the base patch on if that was raised meanwhile. */
  lemma NumbersAreSuccessive(file: Option<string>, bases: seq<Version>, nexts: seq<U32>, files: seq<string>,
                             i: nat, j: nat)
    requires Builds(file, bases, nexts, files) && i < j < |bases| && Key(bases[i]) == Key(bases[j])
    requires forall k :: i < k < j ==> Key(bases[k]) != Key(bases[i])
    ensures nexts[j] as int == Min(U32_MAX, 1 + Max(nexts[i], bases[j].patch))
  {
    forall k | 0 <= k < |bases| ensures UpdatesAt(Load, Contents(file), bases, nexts, files, k) {
      BuildUpdates(file, bases, nexts, files, k);
    }
    CounterKept(Load, Contents(file), bases, nexts, files, i, j - 1);
    assert BuildAt(file, bases, nexts, files, j);
    NextIsOneMore(files[j - 1], bases[j], nexts[j], files[j], nexts[i]);
  }

  /** The first build of a version without a counter gets the number after the base patch. */
  lemma FirstNumber(file: Option<string>, base: Version, next: U32, file': string)
    requires Build(file, base, next, file') && Key(base) !in Contents(file)
    ensures next as int == Min(U32_MAX, 1 + base.patch)
  {
  }

  /** The counter file, read and rewritten by each build. */
  class CounterFile {
    var contents: Option<string>

    constructor ()
      ensures contents == None
    {
      contents := None;
    }

    method LoadPatchCounters() returns (counters: Counters)
      ensures counters == Contents(contents)
    {
      counters := map[];
      if contents.None? {
        return;
      }
      var lines := Split(contents.value, '\n');
      for i := 0 to |lines|
        invariant counters == LoadLines(ParseLine, lines[..i])
      {
        assert lines[..i + 1] == lines[..i] + [lines[i]];
        LoadLinesSnoc(ParseLine, lines[..i], lines[i]);
        var entry := ParseLine(lines[i]);
        if entry.Some? {
          counters := counters[entry.value.0 := entry.value.1];
        }
      }
      assert lines[..|lines|] == lines;
    }

    method SavePatchCounters(counters: Counters)
      modifies this
      ensures contents.Some? && Saved(counters, contents.value)
    {
      var keys, lines: seq<string> := [], [];
      var left := counters.Keys;
      while left != {}
        invariant left <= counters.Keys
        invariant forall k :: k in keys <==> k in counters && k !in left
        invariant forall i :: 0 <= i < |keys| ==> keys[i] in counters
        invariant forall i, j :: 0 <= i < j < |keys| ==> keys[i] != keys[j]
        invariant lines == Lines(counters, keys)
        decreases |left|
      {
        var k :| k in left;
        assert (keys + [k])[..|keys|] == keys;
        lines := lines + [LineFor(k, counters[k])];
        keys := keys + [k];
        left := left - {k};
      }
      contents := Some(Join(lines, '\n') + "\n");
      assert Enumerates(keys, counters);
    }

    method NextBuildPatch(base: Version) returns (next: U32)
      modifies this
      ensures contents.Some? && Build(old(contents), base, next, contents.value)
    {
      var counters := LoadPatchCounters();
      var key := Key(base);
      var previous := if key in counters then counters[key] else base.patch;
      next := SaturatingNext(Max(previous, base.patch));
      counters := counters[key := next];
      SavePatchCounters(counters);
    }
  }
}
