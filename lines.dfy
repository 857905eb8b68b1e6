/**
 * Text files as sequences of lines: how `BufferedReader.readLine` splits a
 * file's content, and how a line-by-line writer that puts one line separator
 * between consecutive lines (and none after the last) joins them again.
 */
module Lines {

  /** `readLine` ends a line at a line feed, a carriage return, or both in that order. */
  predicate IsTerminator(c: char) {
    c == '\n' || c == '\r'
  }

  predicate NoTerminator(line: string) {
    forall i :: 0 <= i < |line| ==> !IsTerminator(line[i])
  }

  /** The platform line separators `BufferedWriter.newLine` may write. */
  predicate IsLineSeparator(sep: string) {
    sep == "\n" || sep == "\r\n"
  }

  /** Length of the first line: the index of the first terminator, or |s|. */
  function LineLength(s: string): (k: nat)
    ensures k <= |s| && NoTerminator(s[..k])
    ensures k < |s| ==> IsTerminator(s[k])
  {
    if s == [] || IsTerminator(s[0]) then 0
    else
      var k := 1 + LineLength(s[1..]);
      assert s[..k] == [s[0]] + s[1..][..k - 1];
      k
  }

  /** What follows the first line and its terminator (`\r\n` counts as one). */
  function AfterLine(s: string, k: nat): string
    requires k <= |s|
  {
    if k == |s| then []
    else if s[k] == '\r' && k + 1 < |s| && s[k + 1] == '\n' then s[k + 2..]
    else s[k + 1..]
  }

  /** The lines `readLine` returns, in order, until it returns null. */
  function ReadLines(s: string): (lines: seq<string>)
    ensures forall i :: 0 <= i < |lines| ==> NoTerminator(lines[i])
    decreases |s|
  {
    if s == [] then []
    else
      var k := LineLength(s);
      [s[..k]] + ReadLines(AfterLine(s, k))
  }

  /** The lines written one after another with `sep` between consecutive ones. */
  function JoinLines(lines: seq<string>, sep: string): string {
    if |lines| == 0 then ""
    else if |lines| == 1 then lines[0]
    else JoinLines(lines[..|lines| - 1], sep) + sep + lines[|lines| - 1]
  }

  /** The joined text starts with the first line and its separator. */
  lemma {:induction false} JoinLinesHead(lines: seq<string>, sep: string)
    requires |lines| >= 2
    ensures JoinLines(lines, sep) == lines[0] + sep + JoinLines(lines[1..], sep)
    decreases |lines|
  {
    if |lines| > 2 {
      var init := lines[..|lines| - 1];
      JoinLinesHead(init, sep);
      assert init[1..] == lines[1..][..|lines[1..]| - 1];
    } else {
      assert lines[1..] == [lines[1]];
    }
  }

  /** A terminator-free prefix followed by a terminator is exactly the first line. */
  lemma LineLengthOfAppend(a: string, b: string)
    requires NoTerminator(a)
    requires |b| > 0 && IsTerminator(b[0])
    ensures LineLength(a + b) == |a|
  {
    var s := a + b;
    assert forall i :: 0 <= i < |a| ==> s[i] == a[i];
    assert s[|a|] == b[0];
    var k := LineLength(s);
    assert forall i :: 0 <= i < k ==> s[..k][i] == s[i];
  }

  /** A single non-empty terminator-free text is read back as one line. */
  lemma ReadSingleLine(l: string)
    requires l != [] && NoTerminator(l)
    ensures ReadLines(l) == [l]
  {
    assert l[..|l|] == l;
  }

  /** A line, a separator and more text read as that line followed by the lines of the rest. */
  lemma ReadSeparated(line: string, sep: string, rest: string)
    requires IsLineSeparator(sep) && NoTerminator(line)
    ensures ReadLines(line + sep + rest) == [line] + ReadLines(rest)
  {
    var s := line + (sep + rest);
    assert line + sep + rest == s;
    LineLengthOfAppend(line, sep + rest);
    var k := |line|;
    assert s[..k] == line;
    if sep == "\n" {
      assert s[k + 1..] == rest;
    } else {
      assert s[k] == '\r' && s[k + 1] == '\n';
      assert s[k + 2..] == rest;
    }
  }

  /**
   * Reading back what was joined gives the same lines, provided no line holds a
   * terminator and the last line is not empty (an empty last line leaves only a
   * trailing separator behind, which `readLine` does not report as a line).
   */
  lemma {:induction false} ReadJoinRoundTrip(lines: seq<string>, sep: string)
    requires IsLineSeparator(sep)
    requires forall i :: 0 <= i < |lines| ==> NoTerminator(lines[i])
    requires |lines| > 0 ==> lines[|lines| - 1] != []
    ensures ReadLines(JoinLines(lines, sep)) == lines
    decreases |lines|
  {
    if |lines| == 1 {
      ReadSingleLine(lines[0]);
    } else if |lines| >= 2 {
      JoinLinesHead(lines, sep);
      var rest := JoinLines(lines[1..], sep);
      ReadSeparated(lines[0], sep, rest);
      ReadJoinRoundTrip(lines[1..], sep);
      assert [lines[0]] + lines[1..] == lines;
    }
  }
}
