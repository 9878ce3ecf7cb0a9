/**
 The .env store of internal/engine/config/config.go: reading, writing and clearing one key in
 a file of key=value lines.
 */
module EnvFile {
  import opened Options

  // ---------------------------------------------------------------- lines

  /** strings.Split(s, "\n"). */
  function Split(s: string): (lines: seq<string>)
    ensures |lines| > 0 && forall i :: 0 <= i < |lines| ==> '\n' !in lines[i]
  {
    if s == "" then [""]
    else
      var rest := Split(s[1..]);
      if s[0] == '\n' then [""] + rest else [[s[0]] + rest[0]] + rest[1..]
  }

  /** strings.Join(lines, "\n"). */
  function Join(lines: seq<string>): string {
    if |lines| == 0 then ""
    else if |lines| == 1 then lines[0]
    else lines[0] + "\n" + Join(lines[1..])
  }

  predicate OneLine(s: string) {
    '\n' !in s
  }

  lemma {:induction false} SplitLine(line: string, rest: string)
    requires OneLine(line)
    ensures Split(line + "\n" + rest) == [line] + Split(rest)
  {
    var s := line + "\n" + rest;
    if line == "" {
      assert s == "\n" + rest && s[1..] == rest;
    } else {
      assert s[1..] == line[1..] + "\n" + rest;
      SplitLine(line[1..], rest);
      assert [s[0]] + line[1..] == line;
    }
  }

  lemma {:induction false} SplitOne(line: string)
    requires OneLine(line)
    ensures Split(line) == [line]
  {
    if line != "" {
      SplitOne(line[1..]);
      assert [line[0]] + line[1..] == line;
    }
  }

  lemma {:induction false} SplitJoin(lines: seq<string>)
    requires |lines| > 0 && forall i :: 0 <= i < |lines| ==> OneLine(lines[i])
    ensures Split(Join(lines)) == lines
  {
    if |lines| == 1 {
      SplitOne(lines[0]);
    } else {
      SplitLine(lines[0], Join(lines[1..]));
      SplitJoin(lines[1..]);
    }
  }

  lemma {:induction false} JoinTwo(a: seq<string>, b: seq<string>)
    requires |a| > 0 && |b| > 0
    ensures Join(a + b) == Join(a) + "\n" + Join(b)
  {
    assert (a + b)[1..] == a[1..] + b;
    if |a| > 1 {
      JoinTwo(a[1..], b);
    }
  }

  /** strings.TrimRight(s, "\n"). */
  function TrimRight(s: string): string {
    if s != "" && s[|s| - 1] == '\n' then TrimRight(s[..|s| - 1]) else s
  }

  /** A list of lines without the empty ones at its end. */
  function DropBlank(lines: seq<string>): (kept: seq<string>)
    ensures kept <= lines
    ensures kept != [] ==> kept[|kept| - 1] != ""
    ensures forall i :: |kept| <= i < |lines| ==> lines[i] == ""
  {
    if lines != [] && lines[|lines| - 1] == "" then DropBlank(lines[..|lines| - 1]) else lines
  }

  lemma {:induction false} TrimJoin(lines: seq<string>)
    requires forall i :: 0 <= i < |lines| ==> OneLine(lines[i])
    ensures TrimRight(Join(lines)) == Join(DropBlank(lines))
  {
    if lines != [] {
      var init, last := lines[..|lines| - 1], lines[|lines| - 1];
      assert lines == init + [last];
      if init != [] {
        JoinTwo(init, [last]);
      }
      if last == "" {
        TrimJoin(init);
        if init != [] {
          assert Join(lines) == Join(init) + "\n";
          assert (Join(init) + "\n")[..|Join(init)|] == Join(init);
        }
      } else {
        assert Join(lines)[|Join(lines)| - 1] == last[|last| - 1] && last[|last| - 1] in last;
      }
    }
  }

  // ---------------------------------------------------------------- keys

  /** The line assigns to the key: strings.HasPrefix(line, key+"="). */
  predicate Sets(line: string, key: string) {
    key + "=" <= line
  }

  /** A line assigns to at most one key without an equals sign. */
  lemma OneKey(line: string, a: string, b: string)
    requires Sets(line, a) && Sets(line, b) && '=' !in a && '=' !in b
    ensures a == b
  {
    assert line[|a|] == '=' && line[|b|] == '=';
    assert forall i :: 0 <= i < |a| ==> line[i] == a[i] != '=';
    assert forall i :: 0 <= i < |b| ==> line[i] == b[i] != '=';
    assert a == line[..|a|] && b == line[..|b|];
  }

  /** The lines that do not assign to the key, in their order. */
  function Others(lines: seq<string>, key: string): (kept: seq<string>)
    ensures forall i :: 0 <= i < |kept| ==> !Sets(kept[i], key) && kept[i] in lines
  {
    if lines == [] then []
    else
      var last := lines[|lines| - 1];
      Others(lines[..|lines| - 1], key) + if Sets(last, key) then [] else [last]
  }

  /** The first line that assigns to the key. */
  function Find(lines: seq<string>, key: string): (line: Option<string>)
    ensures line.Some? ==> line.value in lines && Sets(line.value, key)
  {
    if lines == [] then None
    else if Sets(lines[0], key) then Some(lines[0])
    else Find(lines[1..], key)
  }

  lemma {:induction false} FindIn(a: seq<string>, b: seq<string>, key: string)
    ensures Find(a + b, key) == if Find(a, key).Some? then Find(a, key) else Find(b, key)
  {
    if a == [] {
      assert a + b == b;
    } else {
      assert (a + b)[1..] == a[1..] + b;
      FindIn(a[1..], b, key);
    }
  }

  lemma {:induction false} FindNone(lines: seq<string>, key: string)
    ensures Find(lines, key) == None <==> forall i :: 0 <= i < |lines| ==> !Sets(lines[i], key)
  {
    if lines != [] {
      FindNone(lines[1..], key);
      assert forall i :: 1 <= i < |lines| ==> lines[i] == lines[1..][i - 1];
    }
  }

  lemma {:induction false} FindInOthers(lines: seq<string>, key: string, other: string)
    requires key != other && '=' !in key && '=' !in other
    ensures Find(Others(lines, key), other) == Find(lines, other)
  {
    if lines != [] {
      var init, last := lines[..|lines| - 1], lines[|lines| - 1];
      FindInOthers(init, key, other);
      assert lines == init + [last];
      FindIn(init, [last], other);
      if Sets(last, key) {
        if Sets(last, other) {
          OneKey(last, key, other);
        }
        assert Find([last], other) == None;
        assert Others(lines, key) == Others(init, key);
      } else {
        FindIn(Others(init, key), [last], other);
      }
    }
  }

  lemma {:induction false} OthersOfNone(lines: seq<string>, key: string)
    requires forall i :: 0 <= i < |lines| ==> !Sets(lines[i], key)
    ensures Others(lines, key) == lines
  {
    if lines != [] {
      OthersOfNone(lines[..|lines| - 1], key);
    }
  }

  lemma {:induction false} OthersOf(a: seq<string>, b: seq<string>, key: string)
    ensures Others(a + b, key) == Others(a, key) + Others(b, key)
  {
    if b == [] {
      assert a + b == a;
    } else {
      assert (a + b)[..|a + b| - 1] == a + b[..|b| - 1];
      OthersOf(a, b[..|b| - 1], key);
    }
  }

  /** Blank lines assign to nothing. */
  lemma FindInBody(lines: seq<string>, key: string)
    ensures Find(DropBlank(lines), key) == Find(lines, key)
  {
    var kept := DropBlank(lines);
    var rest := lines[|kept|..];
    assert lines == kept + rest;
    FindIn(kept, rest, key);
    FindNone(rest, key);
  }

  // ---------------------------------------------------------------- trimming a value

  /** unicode.IsSpace. */
  predicate IsSpace(c: char) {
    var n := c as int;
    || 9 <= n <= 13 || n == 32 || n == 0x85 || n == 0xa0 || n == 0x1680 || 0x2000 <= n <= 0x200a
    || n == 0x2028 || n == 0x2029 || n == 0x202f || n == 0x205f || n == 0x3000
  }

  /** strings.TrimSpace: the text between its first and last character that is no space. */
  function TrimSpace(s: string): (r: string)
    ensures r != "" ==> !IsSpace(r[0]) && !IsSpace(r[|r| - 1])
    ensures s == "" || (!IsSpace(s[0]) && !IsSpace(s[|s| - 1])) ==> r == s
  {
    if s == "" then ""
    else if IsSpace(s[0]) then TrimSpace(s[1..])
    else if IsSpace(s[|s| - 1]) then TrimSpace(s[..|s| - 1])
    else s
  }

  const SPACES: string := "\t\n\U{0b}\U{0c}\r \U{85}\U{a0}\U{1680}\U{2028}\U{2029}\U{202f}\U{205f}\U{3000}"

  /** The characters with the Unicode property White_Space. */
  lemma SpacesAre(c: char)
    ensures IsSpace(c) <==> c in SPACES || '\U{2000}' <= c <= '\U{200a}'
  {
    var s := SPACES;
    assert |s| == 14 && s[0] == 9 as char && s[1] == 10 as char && s[2] == 11 as char;
    assert s[3] == 12 as char && s[4] == 13 as char && s[5] == 32 as char && s[6] == 0x85 as char;
    assert s[7] == 0xa0 as char && s[8] == 0x1680 as char && s[9] == 0x2028 as char;
    assert s[10] == 0x2029 as char && s[11] == 0x202f as char && s[12] == 0x205f as char;
    assert s[13] == 0x3000 as char;
  }

  /** r is s without the white space around it. */
  ghost predicate Trims(s: string, r: string, i: nat, j: nat) {
    && i <= j <= |s| && r == s[i..j]
    && (forall k :: 0 <= k < |s| ==> i <= k < j || IsSpace(s[k]))
    && (i < j ==> !IsSpace(s[i]) && !IsSpace(s[j - 1]))
  }

  lemma TrimsMore(s: string, r: string, i: nat, j: nat)
    requires s != "" && Trims(s[1..], r, i, j) && IsSpace(s[0])
    ensures Trims(s, r, i + 1, j + 1)
  {
    var t := s[1..];
    forall k | 0 <= k < |s| ensures i + 1 <= k < j + 1 || IsSpace(s[k]) {
      assert k > 0 ==> s[k] == t[k - 1];
    }
    assert t[i..j] == s[i + 1..j + 1];
  }

  lemma TrimsLess(s: string, r: string, i: nat, j: nat)
    requires s != "" && Trims(s[..|s| - 1], r, i, j) && IsSpace(s[|s| - 1])
    ensures Trims(s, r, i, j)
  {
    var t := s[..|s| - 1];
    forall k | 0 <= k < |s| ensures i <= k < j || IsSpace(s[k]) {
      assert k < |t| ==> s[k] == t[k];
    }
    assert t[i..j] == s[i..j];
  }

  /** What is cut off a value is white space, and all of it. */
  lemma {:induction false} TrimMeaning(s: string) returns (i: nat, j: nat)
    ensures Trims(s, TrimSpace(s), i, j)
  {
    i, j := 0, |s|;
    if s != "" && IsSpace(s[0]) {
      i, j := TrimMeaning(s[1..]);
      TrimsMore(s, TrimSpace(s), i, j);
      i, j := i + 1, j + 1;
    } else if s != "" && IsSpace(s[|s| - 1]) {
      i, j := TrimMeaning(s[..|s| - 1]);
      TrimsLess(s, TrimSpace(s), i, j);
    }
  }

  // ---------------------------------------------------------------- the store

  /** .env on disk. */
  datatype File = Absent | Unreadable | Text(text: string)

  function Lines(file: File): seq<string> {
    if file.Text? then Split(file.text) else []
  }

  /** What a rewrite keeps: the lines of the other keys, without blank lines at the end. */
  function Body(file: File, key: string): seq<string> {
    DropBlank(Others(Lines(file), key))
  }

  function Written(file: File, key: string, value: string): File {
    Text(Join(Body(file, key) + [key + "=" + value, ""]))
  }

  function Cleared(file: File, key: string): File {
    if Find(Lines(file), key).Some? then Text(Join(Body(file, key) + [""])) else file
  }

  function Value(file: File, key: string): Option<string> {
    var line := Find(Lines(file), key);
    if line.Some? then Some(TrimSpace(line.value[|key| + 1..])) else None
  }

  class Repo {
    var env: File

    constructor (file: File)
      ensures env == file
    {
      env := file;
    }

    method EnvRead(key: string) returns (value: Option<string>)
      ensures value == Value(env, key)
    {
      if !env.Text? {
        return None;
      }
      var lines := Split(env.text);
      for i := 0 to |lines|
        invariant Find(lines, key) == Find(lines[i..], key)
      {
        if Sets(lines[i], key) {
          return Some(TrimSpace(lines[i][|key| + 1..]));
        }
        assert lines[i..][1..] == lines[i + 1..];
      }
      return None;
    }

    /** A file that cannot be read counts as empty: what it held is replaced. */
    method EnvWrite(key: string, value: string)
      modifies this
      ensures env == Written(old(env), key, value)
    {
      var keep: seq<string> := [];
      if env.Text? {
        var lines := Split(env.text);
        for i := 0 to |lines|
          invariant keep == Others(lines[..i], key)
        {
          assert lines[..i + 1][..i] == lines[..i];
          if !Sets(lines[i], key) {
            keep := keep + [lines[i]];
          }
        }
        assert lines[..|lines|] == lines;
      }
      var out := TrimRight(Join(keep));
      Rewritten(Lines(env), key, [key + "=" + value, ""]);
      if out != "" {
        out := out + "\n";
      }
      out := out + (key + "=" + value + "\n");
      assert Join([key + "=" + value, ""]) == key + "=" + value + "\n";
      env := Text(out);
    }

    method EnvClear(key: string) returns (ok: bool)
      modifies this
      ensures ok == !old(env).Unreadable?
      ensures env == Cleared(old(env), key)
    {
      if !env.Text? {
        return env.Absent?;
      }
      var lines, keep, found := Split(env.text), [], false;
      for i := 0 to |lines|
        invariant env == old(env) && keep == Others(lines[..i], key)
        invariant found == Find(lines[..i], key).Some?
      {
        assert lines[..i + 1][..i] == lines[..i] && lines[..i + 1] == lines[..i] + [lines[i]];
        FindIn(lines[..i], [lines[i]], key);
        if Sets(lines[i], key) {
          found := true;
        } else {
          keep := keep + [lines[i]];
        }
      }
      assert lines[..|lines|] == lines;
      if !found {
        return true;
      }
      var out := TrimRight(Join(keep));
      Rewritten(lines, key, [""]);
      if out != "" {
        out := out + "\n";
      }
      env := Text(out);
      return true;
    }
  }

  /** Trimming the joined lines and adding a newline unless nothing is left is the same as
      joining the lines that are kept with those that follow. */
  lemma Rewritten(lines: seq<string>, key: string, more: seq<string>)
    requires |more| > 0 && forall i :: 0 <= i < |lines| ==> OneLine(lines[i])
    ensures var out := TrimRight(Join(Others(lines, key)));
            Join(DropBlank(Others(lines, key)) + more) == (if out != "" then out + "\n" else "") + Join(more)
  {
    var kept := DropBlank(Others(lines, key));
    TrimJoin(Others(lines, key));
    if kept == [] {
      assert kept + more == more;
    } else {
      JoinTwo(kept, more);
      assert |Join(kept)| > 0;
    }
  }

  // ---------------------------------------------------------------- what the store promises

  lemma WrittenLines(file: File, key: string, value: string)
    requires OneLine(key) && OneLine(value)
    ensures Lines(Written(file, key, value)) == Body(file, key) + [key + "=" + value, ""]
  {
    SplitJoin(Body(file, key) + [key + "=" + value, ""]);
  }

  lemma ClearedLines(file: File, key: string)
    requires Find(Lines(file), key).Some?
    ensures Lines(Cleared(file, key)) == Body(file, key) + [""]
  {
    SplitJoin(Body(file, key) + [""]);
  }

  lemma NoneInBody(file: File, key: string)
    ensures forall i :: 0 <= i < |Body(file, key)| ==> !Sets(Body(file, key)[i], key)
    ensures Find(Body(file, key), key) == None
    ensures Others(Body(file, key), key) == Body(file, key)
  {
    FindNone(Body(file, key), key);
    OthersOfNone(Body(file, key), key);
  }

  /** A value written is read back trimmed, and exactly one line assigns to its key. */
  lemma ReadAfterWrite(file: File, key: string, value: string)
    requires OneLine(key) && OneLine(value)
    ensures Value(Written(file, key, value), key) == Some(TrimSpace(value))
    ensures var lines := Lines(Written(file, key, value));
            |lines| >= 2 && forall i :: 0 <= i < |lines| ==> (Sets(lines[i], key) <==> i == |lines| - 2)
  {
    var line := key + "=" + value;
    WrittenLines(file, key, value);
    NoneInBody(file, key);
    FindIn(Body(file, key), [line, ""], key);
    assert line[..|key| + 1] == key + "=" && line[|key| + 1..] == value;
  }

  lemma FindOther(file: File, key: string, other: string, more: seq<string>)
    requires key != other && '=' !in key && '=' !in other
    requires forall i :: 0 <= i < |more| ==> !Sets(more[i], other)
    ensures Find(Body(file, key) + more, other) == Find(Lines(file), other)
  {
    FindIn(Body(file, key), more, other);
    FindNone(more, other);
    FindInBody(Others(Lines(file), key), other);
    FindInOthers(Lines(file), key, other);
  }

  /** Neither writing nor clearing a key changes what any other key reads. */
  lemma OtherKeysUnchanged(file: File, key: string, value: string, other: string)
    requires key != other && '=' !in key && '=' !in other && OneLine(key) && OneLine(value)
    ensures Value(Written(file, key, value), other) == Value(file, other)
    ensures Value(Cleared(file, key), other) == Value(file, other)
  {
    var line := key + "=" + value;
    WrittenLines(file, key, value);
    if Sets(line, other) {
      assert Sets(line, key) by {
        assert line[..|key| + 1] == key + "=";
      }
      OneKey(line, key, other);
    }
    FindOther(file, key, other, [line, ""]);
    if Find(Lines(file), key).Some? {
      ClearedLines(file, key);
      FindOther(file, key, other, [""]);
    }
  }

  lemma {:induction false} BodyAgain(lines: seq<string>, key: string, more: seq<string>)
    requires lines == DropBlank(lines) && forall i :: 0 <= i < |lines| ==> !Sets(lines[i], key)
    requires DropBlank(Others(more, key)) == []
    ensures DropBlank(Others(lines + more, key)) == lines
  {
    OthersOf(lines, more, key);
    OthersOfNone(lines, key);
    DropBlanks(lines, Others(more, key));
  }

  lemma {:induction false} DropBlanks(lines: seq<string>, blanks: seq<string>)
    requires DropBlank(blanks) == []
    ensures DropBlank(lines + blanks) == DropBlank(lines)
  {
    if blanks == [] {
      assert lines + blanks == lines;
    } else {
      var n := |blanks| - 1;
      assert blanks[n] == "" && (lines + blanks)[..|lines| + n] == lines + blanks[..n];
      DropBlanks(lines, blanks[..n]);
    }
  }

  lemma {:induction false} DropTwice(lines: seq<string>)
    ensures DropBlank(DropBlank(lines)) == DropBlank(lines)
  {
    if lines != [] && lines[|lines| - 1] == "" {
      DropTwice(lines[..|lines| - 1]);
    }
  }

  lemma OthersOfLine(key: string, value: string)
    ensures Others([key + "=" + value, ""], key) == [""]
  {
    var line := key + "=" + value;
    assert line[..|key| + 1] == key + "=";
    assert [line, ""][..1] == [line];
    assert Others([line], key) == [] && !Sets("", key);
  }

  /** A rewrite finds the lines of the other keys as they were. */
  lemma BodyOfWritten(file: File, key: string, value: string)
    requires OneLine(key) && OneLine(value)
    ensures Body(Written(file, key, value), key) == Body(file, key)
  {
    var line := key + "=" + value;
    WrittenLines(file, key, value);
    NoneInBody(file, key);
    DropTwice(Others(Lines(file), key));
    OthersOfLine(key, value);
    BodyAgain(Body(file, key), key, [line, ""]);
  }

  /** The last write to a key wins, whatever was written to it before; so writing the same
      value again changes nothing. */
  lemma LastWriteWins(file: File, key: string, value: string, next: string)
    requires OneLine(key) && OneLine(value)
    ensures Written(Written(file, key, value), key, next) == Written(file, key, next)
    ensures Written(Written(file, key, value), key, value) == Written(file, key, value)
  {
    BodyOfWritten(file, key, value);
  }

  /** Clearing makes the key absent, changes the file exactly when the key was there, and
      clearing after a write leaves the file as if the key had never been written. */
  lemma ClearIsExact(file: File, key: string, value: string)
    requires OneLine(key) && OneLine(value)
    ensures Value(Cleared(file, key), key) == None
    ensures Cleared(file, key) == file <==> Value(file, key) == None
    ensures Cleared(Written(file, key, value), key) == Text(Join(Body(file, key) + [""]))
  {
    FindNone(Lines(file), key);
    if Find(Lines(file), key).Some? {
      ClearedLines(file, key);
      NoneInBody(file, key);
      FindIn(Body(file, key), [""], key);
    }
    ReadAfterWrite(file, key, value);
    BodyOfWritten(file, key, value);
  }
}
