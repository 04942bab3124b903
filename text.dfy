/**
 The two pieces of Go's standard library that the VM dataset loader relies on:
 `strings.Split` with a one-character separator, and `bufio.Reader.ReadString('\n')`
 applied until it reports an error.
 */
module Text {
  import opened Wrappers

  /** Go's `strings.Split(s, string(sep))`: the pieces between separators, always at least one. */
  function Split(s: string, sep: char): (parts: seq<string>)
    ensures |parts| >= 1
    ensures forall i :: 0 <= i < |parts| ==> sep !in parts[i]
    decreases |s|
  {
    if s == [] then [[]]
    else
      var rest := Split(s[1..], sep);
      if s[0] == sep then [[]] + rest
      else [[s[0]] + rest[0]] + rest[1..]
  }

  /** A split has one more piece than the input has separators. */
  lemma {:induction false} SplitCount(s: string, sep: char)
    ensures |Split(s, sep)| == multiset(s)[sep] + 1
    decreases |s|
  {
    if s != [] {
      SplitCount(s[1..], sep);
      assert s == [s[0]] + s[1..];
      assert multiset(s) == multiset([s[0]]) + multiset(s[1..]);
    }
  }

  /** Go's `strings.Join(parts, string(sep))`. */
  function Join(parts: seq<string>, sep: char): string
    decreases |parts|
  {
    if parts == [] then []
    else if |parts| == 1 then parts[0]
    else parts[0] + [sep] + Join(parts[1..], sep)
  }

  lemma JoinPrepend(c: char, parts: seq<string>, sep: char)
    requires |parts| >= 1
    ensures Join([[c] + parts[0]] + parts[1..], sep) == [c] + Join(parts, sep)
  {
    var q := [[c] + parts[0]] + parts[1..];
    assert q[1..] == parts[1..];
  }

  /** Joining the pieces of a split gives back the input. */
  lemma {:induction false} JoinSplit(s: string, sep: char)
    ensures Join(Split(s, sep), sep) == s
    decreases |s|
  {
    if s != [] {
      var rest := Split(s[1..], sep);
      JoinSplit(s[1..], sep);
      if s[0] == sep {
        var q := [[]] + rest;
        assert q[1..] == rest;
        assert Join(q, sep) == [] + [sep] + Join(rest, sep);
        assert s == [s[0]] + s[1..];
      } else {
        JoinPrepend(s[0], rest, sep);
        assert s == [s[0]] + s[1..];
      }
    }
  }

  lemma {:induction false} SplitNoSeparator(a: string, sep: char)
    requires sep !in a
    ensures Split(a, sep) == [a]
    decreases |a|
  {
    if a != [] {
      SplitNoSeparator(a[1..], sep);
      assert a == [a[0]] + a[1..];
    }
  }

  lemma {:induction false} SplitAfterPiece(a: string, b: string, sep: char)
    requires sep !in a
    ensures Split(a + [sep] + b, sep) == [a] + Split(b, sep)
    decreases |a|
  {
    var s := a + [sep] + b;
    if a == [] {
      assert s[1..] == b;
    } else {
      assert s[1..] == a[1..] + [sep] + b;
      SplitAfterPiece(a[1..], b, sep);
      assert a == [a[0]] + a[1..];
    }
  }

  /** The first four pieces of a line that starts with four separator-free fields. */
  lemma SplitFourFields(a: string, b: string, c: string, d: string, rest: string, sep: char)
    requires sep !in a && sep !in b && sep !in c && sep !in d
    requires rest == [] || rest[0] == sep
    ensures var parts := Split(a + [sep] + (b + [sep] + (c + [sep] + (d + rest))), sep);
            |parts| >= 4 && parts[..4] == [a, b, c, d]
  {
    var s3 := d + rest;
    var s2 := c + [sep] + s3;
    var s1 := b + [sep] + s2;
    assert Split(s3, sep)[0] == d by {
      if rest == [] {
        assert s3 == d;
        SplitNoSeparator(d, sep);
      } else {
        assert s3 == d + [sep] + rest[1..];
        SplitAfterPiece(d, rest[1..], sep);
      }
    }
    SplitAfterPiece(c, s3, sep);
    SplitAfterPiece(b, s2, sep);
    SplitAfterPiece(a, s1, sep);
  }

  /** Splitting a join of separator-free pieces gives back the pieces. */
  lemma {:induction false} SplitJoin(parts: seq<string>, sep: char)
    requires |parts| >= 1
    requires forall i :: 0 <= i < |parts| ==> sep !in parts[i]
    ensures Split(Join(parts, sep), sep) == parts
    decreases |parts|
  {
    if |parts| == 1 {
      SplitNoSeparator(parts[0], sep);
    } else {
      SplitJoin(parts[1..], sep);
      SplitAfterPiece(parts[0], Join(parts[1..], sep), sep);
      assert parts == [parts[0]] + parts[1..];
    }
  }

  /** What one call of `ReadString('\n')` returns: the text read, and whether an error (EOF) came with it. */
  datatype Read = Read(line: string, err: bool)

  /** Index of the first newline of `s`, if any. */
  function NewlineIndex(s: string): (r: Option<nat>)
    ensures r.Some? ==> r.value < |s|
    decreases |s|
  {
    if s == [] then None
    else if s[0] == '\n' then Some(0)
    else
      match NewlineIndex(s[1..])
      case None => None
      case Some(k) => Some(k + 1)
  }

  /** `NewlineIndex` finds the first newline, and finds none only when there is none. */
  lemma {:induction false} NewlineIndexSpec(s: string)
    ensures var r := NewlineIndex(s);
            && (r.Some? ==> s[r.value] == '\n' && forall i :: 0 <= i < r.value ==> s[i] != '\n')
            && (r.None? ==> forall i :: 0 <= i < |s| ==> s[i] != '\n')
    decreases |s|
  {
    if s != [] && s[0] != '\n' {
      NewlineIndexSpec(s[1..]);
    }
  }

  /** A line as `ReadString('\n')` returns it without error: it ends in its only newline. */
  predicate Terminated(line: string)
  {
    |line| > 0 && line[|line| - 1] == '\n' && forall i :: 0 <= i < |line| - 1 ==> line[i] != '\n'
  }

  /** `ReadString('\n')` on a reader whose unread input is `s`. */
  function ReadString(s: string): (r: Read)
    ensures |r.line| <= |s| && r.line == s[..|r.line|]
    ensures !r.err ==> |r.line| > 0
  {
    match NewlineIndex(s)
    case None => Read(s, true)
    case Some(k) => Read(s[..k + 1], false)
  }

  /**
   One read returns a prefix of the input; it reports an error exactly when no newline
   is left, and then returns all of the input; otherwise it returns a terminated line.
   */
  lemma ReadStringSpec(s: string)
    ensures var r := ReadString(s);
            && (r.err <==> '\n' !in s)
            && (r.err ==> r.line == s)
            && (!r.err ==> Terminated(r.line))
  {
    NewlineIndexSpec(s);
  }

  /** The lines a loop of `ReadString('\n')` hands out before the first error. */
  function Lines(s: string): (lines: seq<string>)
    ensures |lines| <= |s|
    decreases |s|
  {
    var r := ReadString(s);
    if r.err then [] else [r.line] + Lines(s[|r.line|..])
  }

  /** A read without error hands out the next line, and the loop goes on after it. */
  lemma LinesNext(s: string)
    requires !ReadString(s).err
    ensures var line := ReadString(s).line;
            |line| > 0 && Lines(s) == [line] + Lines(s[|line|..])
  {
  }

  /** Every line handed out ends in its only newline. */
  lemma {:induction false} LinesTerminated(s: string)
    ensures forall i :: 0 <= i < |Lines(s)| ==> Terminated(Lines(s)[i])
    decreases |s|
  {
    var r := ReadString(s);
    ReadStringSpec(s);
    if !r.err {
      LinesTerminated(s[|r.line|..]);
      assert Lines(s) == [r.line] + Lines(s[|r.line|..]);
    }
  }

  /** The lines laid end to end. */
  function Concat(lines: seq<string>): string
    decreases |lines|
  {
    if lines == [] then [] else lines[0] + Concat(lines[1..])
  }

  lemma ReadTerminated(line: string, rest: string)
    requires Terminated(line)
    ensures ReadString(line + rest) == Read(line, false)
  {
    var s := line + rest;
    NewlineIndexSpec(s);
    assert s[|line| - 1] == '\n';
    assert forall i :: 0 <= i < |line| - 1 ==> s[i] == line[i];
    assert NewlineIndex(s) == Some(|line| - 1);
    assert s[..|line|] == line;
  }

  /** A terminated line at the front of the input is the next line handed out. */
  lemma LinesStep(line: string, rest: string)
    requires Terminated(line)
    ensures Lines(line + rest) == [line] + Lines(rest)
  {
    ReadTerminated(line, rest);
    assert (line + rest)[|line|..] == rest;
  }

  lemma ConcatCons(lines: seq<string>, tail: string)
    requires lines != []
    ensures Concat(lines) + tail == lines[0] + (Concat(lines[1..]) + tail)
  {
  }

  /**
   The lines a loader sees in `Concat(lines) + tail` are exactly `lines` when the tail
   holds no newline: a final line without its newline is never handed out.
   */
  lemma {:induction false} LinesOfConcat(lines: seq<string>, tail: string)
    requires forall i :: 0 <= i < |lines| ==> Terminated(lines[i])
    requires '\n' !in tail
    ensures Lines(Concat(lines) + tail) == lines
    decreases |lines|
  {
    if lines == [] {
      LinesOfTail(tail);
    } else {
      var later := Concat(lines[1..]) + tail;
      ConcatCons(lines, tail);
      LinesStep(lines[0], later);
      LinesOfConcat(lines[1..], tail);
      assert lines == [lines[0]] + lines[1..];
    }
  }

  lemma LinesOfTail(tail: string)
    requires '\n' !in tail
    ensures Lines([] + tail) == []
  {
    assert [] + tail == tail;
    ReadStringSpec(tail);
  }

  lemma ConcatPrepend(line: string, lines: seq<string>)
    ensures Concat([line] + lines) == line + Concat(lines)
  {
    assert ([line] + lines)[1..] == lines;
  }

  lemma PrefixPrepend(a: string, b: string, c: string)
    requires b <= c
    ensures a + b <= a + c
    ensures (a + c)[|a + b|..] == c[|b|..]
  {
  }

  /** Conversely, the lines handed out cover the input except for a tail without newline. */
  lemma {:induction false} LinesCover(s: string)
    ensures Concat(Lines(s)) <= s
    ensures '\n' !in s[|Concat(Lines(s))|..]
    decreases |s|
  {
    var r := ReadString(s);
    ReadStringSpec(s);
    if r.err {
      assert Lines(s) == [];
      assert s[|Concat([])|..] == s;
    } else {
      var rest := s[|r.line|..];
      assert s == r.line + rest;
      LinesCover(rest);
      LinesStep(r.line, rest);
      ConcatPrepend(r.line, Lines(rest));
      PrefixPrepend(r.line, Concat(Lines(rest)), rest);
    }
  }
}
