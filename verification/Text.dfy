/** Text as lines, its length in UTF-8, and trimming, as the sources' string functions have them. */
module Text {
  // ---------------------------------------------------------------- lines

  function Split(text: string): (lines: seq<string>)
    ensures |lines| >= 1
  {
    if text == "" then [""]
    else
      var rest := Split(text[1..]);
      if text[0] == '\n' then [""] + rest else [[text[0]] + rest[0]] + rest[1..]
  }

  function Join(lines: seq<string>): string {
    if lines == [] then ""
    else if |lines| == 1 then lines[0]
    else lines[0] + "\n" + Join(lines[1..])
  }

  lemma {:induction false} JoinSplit(text: string)
    ensures Join(Split(text)) == text
  {
    if text != "" {
      JoinSplit(text[1..]);
      var rest := Split(text[1..]);
      if text[0] == '\n' {
        assert ([""] + rest)[1..] == rest;
        assert text == "" + "\n" + text[1..];
      } else if |rest| > 1 {
        var lines := [[text[0]] + rest[0]] + rest[1..];
        assert lines[1..] == rest[1..];
        assert text == [text[0]] + text[1..];
      } else {
        assert text == [text[0]] + rest[0];
      }
    }
  }

  /** Gluing lines together and splitting again gives the lines back, if no line contains a line feed. */
  lemma {:induction false} SplitJoin(lines: seq<string>)
    requires lines != [] && forall i :: 0 <= i < |lines| ==> '\n' !in lines[i]
    ensures Split(Join(lines)) == lines
  {
    if |lines| == 1 {
      SplitLine(lines[0], "");
      assert lines[0] + "" == lines[0] && lines == [lines[0]];
    } else {
      SplitJoin(lines[1..]);
      var tail := "\n" + Join(lines[1..]);
      assert tail[1..] == Join(lines[1..]) && tail[0] == '\n';
      SplitLine(lines[0], tail);
      assert Join(lines) == lines[0] + tail;
      assert Split(tail) == [""] + lines[1..] && Split(tail)[1..] == lines[1..] && lines[0] + "" == lines[0];
      assert lines == [lines[0]] + lines[1..];
    }
  }

  /** Characters that are no line feed go to the first line. */
  lemma {:induction false} SplitLine(line: string, tail: string)
    requires '\n' !in line
    ensures Split(line + tail) == [line + Split(tail)[0]] + Split(tail)[1..]
  {
    if line == "" {
      assert line + tail == tail;
      assert Split(tail) == [Split(tail)[0]] + Split(tail)[1..];
      assert line + Split(tail)[0] == Split(tail)[0];
    } else {
      SplitLine(line[1..], tail);
      assert (line + tail)[1..] == line[1..] + tail;
      var rest := Split(line[1..] + tail);
      assert [line[0]] + rest[0] == line + Split(tail)[0];
    }
  }

  lemma {:induction false} SplitHasNoLineFeed(text: string)
    ensures forall i :: 0 <= i < |Split(text)| ==> '\n' !in Split(text)[i]
  {
    if text != "" { SplitHasNoLineFeed(text[1..]); }
  }

  /** A carriage return goes with the line feed after it, and a text that ends in one has no last empty line. */
  function WithoutReturns(lines: seq<string>): seq<string>
    requires lines != []
  {
    if |lines| == 1 then (if lines[0] == "" then [] else lines)
    else
      var line := lines[0];
      [if line != "" && line[|line| - 1] == '\r' then line[..|line| - 1] else line] + WithoutReturns(lines[1..])
  }

  function Lines(text: string): seq<string> { WithoutReturns(Split(text)) }

  // ---------------------------------------------------------------- length in UTF-8

  function Width(c: char): nat {
    if c as int < 0x80 then 1 else if c as int < 0x800 then 2 else if c as int < 0x1_0000 then 3 else 4
  }

  function Bytes(s: string): nat { if s == "" then 0 else Width(s[0]) + Bytes(s[1..]) }

  lemma {:induction false} BytesConcat(a: string, b: string)
    ensures Bytes(a + b) == Bytes(a) + Bytes(b)
  {
    if a == "" {
      assert a + b == b;
    } else {
      BytesConcat(a[1..], b);
      assert (a + b)[1..] == a[1..] + b;
    }
  }

  // ---------------------------------------------------------------- trimming

  /** The characters with the Unicode property White_Space. */
  predicate IsSpace(c: char) {
    var n := c as int;
    || 0x09 <= n <= 0x0D || n == 0x20 || n == 0x85 || n == 0xA0 || n == 0x1680 || 0x2000 <= n <= 0x200A
    || n == 0x2028 || n == 0x2029 || n == 0x202F || n == 0x205F || n == 0x3000
  }

  function TrimStart(s: string): string { if s != "" && IsSpace(s[0]) then TrimStart(s[1..]) else s }

  function TrimEnd(s: string): string {
    if s != "" && IsSpace(s[|s| - 1]) then TrimEnd(s[..|s| - 1]) else s
  }

  function Trim(s: string): string { TrimEnd(TrimStart(s)) }

  predicate Trimmed(s: string) { s != "" ==> !IsSpace(s[0]) && !IsSpace(s[|s| - 1]) }

  lemma {:induction false} TrimStartIs(s: string)
    ensures exists i :: 0 <= i <= |s| && TrimStart(s) == s[i..]
    ensures TrimStart(s) != "" ==> !IsSpace(TrimStart(s)[0])
  {
    if s != "" && IsSpace(s[0]) {
      TrimStartIs(s[1..]);
      var i :| 0 <= i <= |s[1..]| && TrimStart(s[1..]) == s[1..][i..];
      assert s[1..][i..] == s[i + 1..];
    } else {
      assert s == s[0..];
    }
  }

  lemma {:induction false} TrimEndIs(s: string)
    ensures exists i :: 0 <= i <= |s| && TrimEnd(s) == s[..i]
    ensures TrimEnd(s) != "" ==> !IsSpace(TrimEnd(s)[|TrimEnd(s)| - 1])
  {
    if s != "" && IsSpace(s[|s| - 1]) {
      TrimEndIs(s[..|s| - 1]);
      var i :| 0 <= i <= |s| - 1 && TrimEnd(s[..|s| - 1]) == s[..|s| - 1][..i];
      assert s[..|s| - 1][..i] == s[..i];
    } else {
      assert s == s[..|s|];
    }
  }

  /** Trimming cuts a slice out that begins and ends with no white space. */
  lemma TrimIs(s: string) returns (i: nat, j: nat)
    ensures i <= j <= |s| && Trim(s) == s[i..j] && Trimmed(Trim(s))
  {
    TrimStartIs(s);
    i :| 0 <= i <= |s| && TrimStart(s) == s[i..];
    TrimEndIs(s[i..]);
    var k :| 0 <= k <= |s[i..]| && TrimEnd(s[i..]) == s[i..][..k];
    j := i + k;
    assert s[i..][..k] == s[i..j];
  }

  lemma TrimShrinks(s: string)
    ensures Bytes(Trim(s)) <= Bytes(s) && ('\n' !in s ==> '\n' !in Trim(s))
  {
    var i, j := TrimIs(s);
    assert s == s[..i] + (s[i..j] + s[j..]);
    BytesConcat(s[..i], s[i..j] + s[j..]);
    BytesConcat(s[i..j], s[j..]);
    forall k | 0 <= k < |Trim(s)| ensures Trim(s)[k] in s { assert Trim(s)[k] == s[i + k]; }
  }

  // ---------------------------------------------------------------- order

  /** Lexicographic order by code point, which is the order of the UTF-8 bytes. */
  predicate LexLe(a: string, b: string) {
    a == "" || (b != "" && (a[0] < b[0] || (a[0] == b[0] && LexLe(a[1..], b[1..]))))
  }

  lemma {:induction false} LexTotal(a: string, b: string)
    ensures LexLe(a, b) || LexLe(b, a)
    ensures LexLe(a, b) && LexLe(b, a) ==> a == b
  {
    if a != "" && b != "" && a[0] == b[0] {
      LexTotal(a[1..], b[1..]);
      assert a == [a[0]] + a[1..] && b == [b[0]] + b[1..];
    }
  }

  lemma {:induction false} LexTransitive(a: string, b: string, c: string)
    requires LexLe(a, b) && LexLe(b, c)
    ensures LexLe(a, c)
  {
    if a != "" && a[0] == b[0] == c[0] { LexTransitive(a[1..], b[1..], c[1..]); }
  }
}
