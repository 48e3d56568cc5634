/** Splitting text at a separator, joining it again, and trimming it. */
module TextLines {

  function Split(s: string, sep: char): (r: seq<string>)
    ensures |r| > 0
  {
    if s == [] then [[]]
    else
      var rest := Split(s[1..], sep);
      if s[0] == sep then [[]] + rest else [[s[0]] + rest[0]] + rest[1..]
  }

  function Join(lines: seq<string>, sep: char): string {
    if lines == [] then []
    else if |lines| == 1 then lines[0]
    else lines[0] + [sep] + Join(lines[1..], sep)
  }

  lemma {:induction false} SplitOne(line: string, sep: char)
    requires sep !in line
    ensures Split(line, sep) == [line]
  {
    if line != [] {
      SplitOne(line[1..], sep);
      assert [line[0]] + line[1..] == line;
    }
  }

  lemma {:induction false} SplitFirst(line: string, sep: char, rest: string)
    requires sep !in line
    ensures Split(line + [sep] + rest, sep) == [line] + Split(rest, sep)
  {
    if line == [] {
      assert line + [sep] + rest == [sep] + rest;
      assert ([sep] + rest)[1..] == rest;
    } else {
      SplitFirst(line[1..], sep, rest);
      assert (line + [sep] + rest)[1..] == line[1..] + [sep] + rest;
      assert [line[0]] + line[1..] == line;
    }
  }

  lemma {:induction false} SplitUndoesJoin(lines: seq<string>, sep: char)
    requires lines != [] && forall i :: 0 <= i < |lines| ==> sep !in lines[i]
    ensures Split(Join(lines, sep), sep) == lines
  {
    if |lines| == 1 {
      SplitOne(lines[0], sep);
    } else {
      SplitUndoesJoin(lines[1..], sep);
      SplitFirst(lines[0], sep, Join(lines[1..], sep));
    }
  }

  /** Nothing is lost in splitting. */
  lemma {:induction false} JoinUndoesSplit(s: string, sep: char)
    ensures Join(Split(s, sep), sep) == s
  {
    if s != [] {
      var rest := Split(s[1..], sep);
      JoinUndoesSplit(s[1..], sep);
      if s[0] == sep {
        assert ([[]] + rest)[1..] == rest;
      } else {
        assert ([[s[0]] + rest[0]] + rest[1..])[1..] == rest[1..];
      }
    }
  }

  lemma {:induction false} PiecesHaveNoSeparator(s: string, sep: char)
    ensures forall i :: 0 <= i < |Split(s, sep)| ==> sep !in Split(s, sep)[i]
  {
    if s != [] {
      PiecesHaveNoSeparator(s[1..], sep);
    }
  }

  // ---------- trimming ----------

  predicate IsSpace(c: char) {
    var n := c as int;
    || 0x9 <= n <= 0xD || n == 0x20 || n == 0x85 || n == 0xA0 || n == 0x1680 || 0x2000 <= n <= 0x200A
    || n == 0x2028 || n == 0x2029 || n == 0x202F || n == 0x205F || n == 0x3000
  }

  function TrimStart(s: string): string {
    if s != [] && IsSpace(s[0]) then TrimStart(s[1..]) else s
  }

  function TrimEnd(s: string): string {
    if s != [] && IsSpace(s[|s| - 1]) then TrimEnd(s[..|s| - 1]) else s
  }

  function Trim(s: string): string { TrimEnd(TrimStart(s)) }

  predicate Trimmed(s: string) { s == [] || (!IsSpace(s[0]) && !IsSpace(s[|s| - 1])) }

  lemma {:induction false} TrimStartWithin(s: string)
    ensures forall c :: c in TrimStart(s) ==> c in s
    ensures |TrimStart(s)| <= |s| && (TrimStart(s) == [] || !IsSpace(TrimStart(s)[0]))
  {
    if s != [] && IsSpace(s[0]) {
      TrimStartWithin(s[1..]);
    }
  }

  lemma {:induction false} TrimEndWithin(s: string)
    ensures forall c :: c in TrimEnd(s) ==> c in s
    ensures |TrimEnd(s)| <= |s|
    ensures TrimEnd(s) == [] || (!IsSpace(TrimEnd(s)[|TrimEnd(s)| - 1]) && TrimEnd(s)[0] == s[0])
  {
    if s != [] && IsSpace(s[|s| - 1]) {
      TrimEndWithin(s[..|s| - 1]);
    }
  }

  predicate AllSpace(s: string) { forall i :: 0 <= i < |s| ==> IsSpace(s[i]) }

  lemma {:induction false} TrimStartParts(s: string) returns (before: string)
    ensures s == before + TrimStart(s) && AllSpace(before)
  {
    before := [];
    if s != [] && IsSpace(s[0]) {
      before := TrimStartParts(s[1..]);
      before := [s[0]] + before;
    }
  }

  lemma {:induction false} TrimEndParts(s: string) returns (after: string)
    ensures s == TrimEnd(s) + after && AllSpace(after)
  {
    after := [];
    if s != [] && IsSpace(s[|s| - 1]) {
      after := TrimEndParts(s[..|s| - 1]);
      after := after + [s[|s| - 1]];
    }
  }

  /** Only white space is trimmed, at both ends. */
  lemma TrimParts(s: string) returns (before: string, after: string)
    ensures s == before + Trim(s) + after && AllSpace(before) && AllSpace(after)
  {
    before := TrimStartParts(s);
    after := TrimEndParts(TrimStart(s));
  }

  lemma TrimIsTrimmed(s: string)
    ensures Trimmed(Trim(s)) && forall c :: c in Trim(s) ==> c in s
    ensures |Trim(s)| <= |s| && (Trimmed(s) ==> Trim(s) == s)
  {
    TrimStartWithin(s);
    TrimEndWithin(TrimStart(s));
  }
}
