/**
 * GradleMigrator: rewrites the `name value` property lines of a Gradle build
 * file. Every line is tested against each property name in order; a line that
 * contains the name followed by a space is replaced by the name, a space and
 * the new value, and later names are tested against the line as rewritten.
 * The file is then deleted and written again, one separator between lines.
 */
module GradleMigration {
  import opened Wrappers
  import opened Text
  import opened Lines
  import opened Files
  import opened MainBase

  /** How a property is recognised in a line: its name followed by one space. */
  function Key(name: string): string {
    name + " "
  }

  /**
   * The line after properties 0..i-1 were tested against it. None when a
   * matching property has no value at its index (an IndexOutOfBoundsException
   * that ends the read phase).
   */
  function PatchLineUpTo(line: string, names: seq<string>, values: seq<string>, i: nat): Option<string>
    requires i <= |names|
  {
    if i == 0 then Some(line)
    else match PatchLineUpTo(line, names, values, i - 1)
      case None => None
      case Some(current) =>
        if !Contains(current, Key(names[i - 1])) then Some(current)
        else if i - 1 < |values| then Some(Key(names[i - 1]) + values[i - 1])
        else None
  }

  /** The line as it is collected once every property was tested. */
  function PatchLine(line: string, names: seq<string>, values: seq<string>): Option<string> {
    PatchLineUpTo(line, names, values, |names|)
  }

  /** Every line patched, in order; None if patching any line fails. */
  function PatchLines(lines: seq<string>, names: seq<string>, values: seq<string>): (r: Option<seq<string>>)
    ensures r.Some? <==> forall k :: 0 <= k < |lines| ==> PatchLine(lines[k], names, values).Some?
    ensures r.Some? ==> |r.value| == |lines|
    ensures r.Some? ==> forall k :: 0 <= k < |lines| ==> Some(r.value[k]) == PatchLine(lines[k], names, values)
  {
    if lines == [] then Some([])
    else
      var init := lines[..|lines| - 1];
      assert forall k :: 0 <= k < |init| ==> init[k] == lines[k];
      match PatchLines(init, names, values)
      case None => None
      case Some(done) =>
        match PatchLine(lines[|lines| - 1], names, values)
        case None => None
        case Some(last) => Some(done + [last])
  }

  /** A line in which no property name (followed by a space) occurs passes through unchanged. */
  lemma {:induction false} PatchLineUntouched(line: string, names: seq<string>, values: seq<string>, i: nat)
    requires i <= |names|
    requires forall k :: 0 <= k < i ==> !Contains(line, Key(names[k]))
    ensures PatchLineUpTo(line, names, values, i) == Some(line)
  {
    if i > 0 {
      PatchLineUntouched(line, names, values, i - 1);
    }
  }

  /**
   * After properties 0..i-1 were tested, the line is property j's `name value`
   * line, and the name of no property between j and i (followed by a space)
   * occurs in it.
   */
  predicate RewrittenBy(line: string, names: seq<string>, values: seq<string>, i: nat, j: int)
    requires i <= |names|
  {
    && 0 <= j < i && j < |values|
    && PatchLineUpTo(line, names, values, i) == Some(Key(names[j]) + values[j])
    && forall k :: j < k < i ==> !Contains(Key(names[j]) + values[j], Key(names[k]))
  }

  /** Once the first matching property rewrote the line, the line stays a whole `name value` line. */
  lemma {:induction false} PatchLineRewrittenFrom(line: string, names: seq<string>, values: seq<string>, first: nat, i: nat)
    requires first < i <= |names| && first < |values|
    requires PatchLineUpTo(line, names, values, first + 1) == Some(Key(names[first]) + values[first])
    requires PatchLineUpTo(line, names, values, i).Some?
    ensures exists j :: first <= j && RewrittenBy(line, names, values, i, j)
  {
    if i == first + 1 {
      assert RewrittenBy(line, names, values, i, first);
    } else {
      PatchLineRewrittenFrom(line, names, values, first, i - 1);
      var j :| first <= j && RewrittenBy(line, names, values, i - 1, j);
      var current := Key(names[j]) + values[j];
      if Contains(current, Key(names[i - 1])) {
        assert PatchLineUpTo(line, names, values, i) == Some(Key(names[i - 1]) + values[i - 1]);
        assert RewrittenBy(line, names, values, i, i - 1);
      } else {
        assert PatchLineUpTo(line, names, values, i) == Some(current);
        assert RewrittenBy(line, names, values, i, j);
      }
    }
  }

  /**
   * A line containing some property name followed by a space is replaced
   * wholesale: it becomes `name value` for a property at or after the first one
   * that matched it, namely the last one whose test succeeded, so no later
   * property's name (followed by a space) occurs in the final line.
   */
  lemma PatchLineRewritten(line: string, names: seq<string>, values: seq<string>, first: nat)
    requires first < |names|
    requires Contains(line, Key(names[first]))
    requires forall k :: 0 <= k < first ==> !Contains(line, Key(names[k]))
    requires PatchLine(line, names, values).Some?
    ensures exists j :: first <= j && RewrittenBy(line, names, values, |names|, j)
  {
    PatchLineUntouched(line, names, values, first);
    if first >= |values| {
      assert PatchLineUpTo(line, names, values, first + 1).None?;
      PatchLineStaysFailed(line, names, values, first + 1, |names|);
    }
    assert PatchLineUpTo(line, names, values, first + 1) == Some(Key(names[first]) + values[first]);
    PatchLineRewrittenFrom(line, names, values, first, |names|);
  }

  /** After a failed step the line stays failed. */
  lemma {:induction false} PatchLineStaysFailed(line: string, names: seq<string>, values: seq<string>, i: nat, n: nat)
    requires i <= n <= |names|
    requires PatchLineUpTo(line, names, values, i).None?
    ensures PatchLineUpTo(line, names, values, n).None?
    decreases n - i
  {
    if i < n {
      PatchLineStaysFailed(line, names, values, i + 1, n);
    }
  }

  /**
   * The common case: when exactly one property name occurs in the line and no
   * later name occurs in its new `name value` line, the line becomes exactly that.
   */
  lemma PatchLineSingleKey(line: string, names: seq<string>, values: seq<string>, i: nat)
    requires i < |names| && i < |values|
    requires Contains(line, Key(names[i]))
    requires forall k :: 0 <= k < |names| && k != i ==> !Contains(line, Key(names[k]))
    requires forall k :: i < k < |names| ==> !Contains(Key(names[i]) + values[i], Key(names[k]))
    ensures PatchLine(line, names, values) == Some(Key(names[i]) + values[i])
  {
    PatchLineUntouched(line, names, values, i);
    PatchLineKeeps(line, names, values, i + 1, |names|);
  }

  /** A rewritten `name value` line that no later name occurs in is kept to the end. */
  lemma {:induction false} PatchLineKeeps(line: string, names: seq<string>, values: seq<string>, i: nat, n: nat)
    requires 0 < i <= n <= |names| && i - 1 < |values|
    requires PatchLineUpTo(line, names, values, i) == Some(Key(names[i - 1]) + values[i - 1])
    requires forall k :: i <= k < n ==> !Contains(Key(names[i - 1]) + values[i - 1], Key(names[k]))
    ensures PatchLineUpTo(line, names, values, n) == Some(Key(names[i - 1]) + values[i - 1])
    decreases n - i
  {
    if i < n {
      PatchLineKeeps(line, names, values, i, n - 1);
    }
  }

  /** With a value for every name, patching never fails. */
  lemma {:induction false} PatchLineTotal(line: string, names: seq<string>, values: seq<string>, i: nat)
    requires i <= |names| <= |values|
    ensures PatchLineUpTo(line, names, values, i).Some?
  {
    if i > 0 {
      PatchLineTotal(line, names, values, i - 1);
    }
  }

  /** A matching name that has no value makes the whole read phase fail. */
  lemma MissingValueFails(line: string, names: seq<string>, values: seq<string>, i: nat)
    requires |values| <= i < |names|
    requires Contains(line, Key(names[i]))
    requires forall k :: 0 <= k < i ==> !Contains(line, Key(names[k]))
    ensures PatchLine(line, names, values).None?
  {
    PatchLineUntouched(line, names, values, i);
    PatchLineStaysFailed(line, names, values, i + 1, |names|);
  }

  /** End-to-end: an `applicationId "com.old.app"` line gets the new identifier, other lines stay. */
  lemma ApplicationIdScenario()
    ensures PatchLines(["android {", "    " + Key("applicationId") + "\"com.old.app\"", "}"], ["applicationId"], ["com.new.app"])
      == Some(["android {", Key("applicationId") + "com.new.app", "}"])
  {
    var names, values := ["applicationId"], ["com.new.app"];
    var line := "    " + Key("applicationId") + "\"com.old.app\"";
    assert line[4..4 + |Key("applicationId")|] == Key("applicationId");
    assert OccursAt(line, Key("applicationId"), 4);
    PatchLineSingleKey(line, names, values, 0);
    assert !Contains("android {", Key("applicationId"));
    assert !Contains("}", Key("applicationId"));
    PatchLineUntouched("android {", names, values, 1);
    PatchLineUntouched("}", names, values, 1);
    var input := ["android {", line, "}"];
    var r := PatchLines(input, names, values);
    assert PatchLine(input[0], names, values) == Some("android {");
    assert PatchLine(input[1], names, values) == Some(Key("applicationId") + "com.new.app");
    assert PatchLine(input[2], names, values) == Some("}");
    assert r.Some? && |r.value| == 3;
    assert r.value == ["android {", Key("applicationId") + "com.new.app", "}"];
  }

  class GradleMigrator {
    const file: Path
    const propertyNames: seq<string>
    const propertyValues: seq<string>

    constructor (file: Path, propertyNames: seq<string>, propertyValues: seq<string>)
      ensures this.file == file
      ensures this.propertyNames == propertyNames && this.propertyValues == propertyValues
    {
      this.file := file;
      this.propertyNames := propertyNames;
      this.propertyValues := propertyValues;
    }

    /** The patched lines of a file with this content; None if the read phase fails. */
    function Patched(content: string): Option<seq<string>> {
      PatchLines(ReadLines(content), propertyNames, propertyValues)
    }

    /**
     * `process()`. Reading fails when the file does not exist or a matching
     * property has no value; the file is then left as it was (Some(false)).
     * Otherwise the file is deleted before it is written again, so when the
     * new file cannot be created (`writable` false) the original content is
     * gone. After a successful write, the log line's `cleanupPath` of the
     * file's path throws a NullPointerException (None) when the path is not
     * under CURRENT_DIR and EXTRACTED_ZIP_ROOT is null.
     */
    method Process(fs: FileStore, newline: string, writable: bool, currentDir: Path, extractedRoot: Option<Path>)
      returns (r: Option<bool>)
      requires IsLineSeparator(newline)
      modifies fs
      ensures var read := file in old(fs.files) && Patched(old(fs.files)[file]).Some?;
        && (r == Some(false) <==> !read || !writable)
        && (r == Some(true) <==> read && writable && CleanupPath(file, currentDir, extractedRoot).Some?)
        && (r.None? <==> read && writable && CleanupPath(file, currentDir, extractedRoot).None?)
      ensures (file !in old(fs.files) || Patched(old(fs.files)[file]).None?) ==> fs.files == old(fs.files)
      ensures file in old(fs.files) && Patched(old(fs.files)[file]).Some? && !writable ==>
        fs.files == old(fs.files) - {file}
      ensures r != Some(false) ==> fs.files == old(fs.files)[file := JoinLines(Patched(old(fs.files)[file]).value, newline)]
    {
      if file !in fs.files {
        return Some(false);
      }
      var lines := ReadPatched(fs.files[file]);
      if lines.None? {
        return Some(false);
      }
      var _ := fs.Delete(file);
      if !writable {
        return Some(false);
      }
      var out := Written(lines.value, newline);
      fs.Write(file, out);
      var logged := CleanupPath(file, currentDir, extractedRoot);
      if logged.None? {
        return None;
      }
      return Some(true);
    }

    /**
     * Lines 30-50 of GradleMigrator.java: read the file line by line, giving
     * each line that mentions a property name followed by a space the form
     * `name value`; None when such a property has no value.
     */
    method ReadPatched(content: string) returns (r: Option<seq<string>>)
      ensures r == Patched(content)
    {
      var input := ReadLines(content);
      var lines: seq<string> := [];
      var n := 0;
      while n < |input|
        invariant 0 <= n <= |input|
        invariant PatchLines(input[..n], propertyNames, propertyValues) == Some(lines)
      {
        var line := input[n];
        for i := 0 to |propertyNames|
          invariant PatchLineUpTo(input[n], propertyNames, propertyValues, i) == Some(line)
        {
          var name := propertyNames[i];
          var start := IndexOf(line, name + " ");
          if start.None? {
            continue;
          }
          if i >= |propertyValues| {
            assert PatchLines(input, propertyNames, propertyValues).None? by {
              assert PatchLineUpTo(input[n], propertyNames, propertyValues, i + 1).None?;
              PatchLineStaysFailed(input[n], propertyNames, propertyValues, i + 1, |propertyNames|);
            }
            return None;
          }
          line := name + " " + propertyValues[i];
        }
        assert input[..n + 1][..n] == input[..n];
        lines := lines + [line];
        n := n + 1;
      }
      assert input[..n] == input;
      return Some(lines);
    }

    /** Lines 56-70: the text written back, the lines separated by `newline`. */
    static method Written(lines: seq<string>, newline: string) returns (out: string)
      ensures out == JoinLines(lines, newline)
    {
      out := "";
      for i := 0 to |lines|
        invariant out == JoinLines(lines[..i], newline)
      {
        if i > 0 {
          out := out + newline;
        }
        out := out + lines[i];
        assert lines[..i + 1][..i] == lines[..i];
      }
      assert lines[..|lines|] == lines;
    }
  }
}
