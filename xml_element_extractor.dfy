/**
 * XmlElementExtractor: finds, line by line, elements written as
 * `<tag name="X">...</tag>` for a configured list of (tag, name) pairs and
 * records each matching line's name attribute and element value.
 */
module XmlExtraction {
  import opened Wrappers
  import opened Text
  import opened Lines
  import opened Files

  /**
   * One compiled pattern `<tag name="name">[\s\S]*?</tag>`. Tag and name are
   * formatted into the expression unescaped; they are taken to hold no regular
   * expression metacharacters, so the pattern is the literal opening tag, any
   * text, and the literal closing tag.
   */
  datatype Pattern = Pattern(tag: string, name: string) {
    function Open(): string {
      "<" + tag + " name=\"" + name + "\">"
    }
    function Close(): string {
      "</" + tag + ">"
    }
  }

  /**
   * `matcher.find()` on one line: the first opening tag in the line is followed
   * (at or after its end) by a closing tag.
   */
  predicate Finds(p: Pattern, line: string) {
    match IndexOf(line, p.Open())
    case None => false
    case Some(k) => Contains(line[k + |p.Open()|..], p.Close())
  }

  /** The regular expression's meaning: some opening tag with some closing tag after it. */
  ghost predicate MatchesSomewhere(p: Pattern, line: string) {
    exists a: nat, b: nat :: OccursAt(line, p.Open(), a) && a + |p.Open()| <= b && OccursAt(line, p.Close(), b)
  }

  /** Testing only the first opening tag finds a match exactly when the pattern matches. */
  lemma FindsIff(p: Pattern, line: string)
    ensures Finds(p, line) <==> MatchesSomewhere(p, line)
  {
    if Finds(p, line) {
      FindsMatches(p, line);
    }
    if MatchesSomewhere(p, line) {
      var a: nat, b: nat :| OccursAt(line, p.Open(), a) && a + |p.Open()| <= b && OccursAt(line, p.Close(), b);
      MatchFound(p, line, a, b);
    }
  }

  /** A hit of `Finds` is a match: the first opening tag and the closing tag after it. */
  lemma FindsMatches(p: Pattern, line: string)
    requires Finds(p, line)
    ensures MatchesSomewhere(p, line)
  {
    var open, close := p.Open(), p.Close();
    var k := IndexOf(line, open).value;
    var rest := line[k + |open|..];
    var i := IndexOf(rest, close).value;
    assert OccursAt(rest, close, i);
    OccursAtShift(line, close, k + |open|, i);
    assert OccursAt(line, open, k) && k + |open| <= k + |open| + i && OccursAt(line, close, k + |open| + i);
  }

  /** A match is a hit of `Finds`: the first opening tag is no later, so the closing tag follows it too. */
  lemma MatchFound(p: Pattern, line: string, a: nat, b: nat)
    requires OccursAt(line, p.Open(), a) && a + |p.Open()| <= b && OccursAt(line, p.Close(), b)
    ensures Finds(p, line)
  {
    var open, close := p.Open(), p.Close();
    var first := IndexOf(line, open);
    assert first.Some?;
    var k := first.value;
    assert k <= a;
    var d := k + |open|;
    assert d <= b <= |line|;
    OccursAtShift(line, close, d, b - d);
    assert OccursAt(line[d..], close, b - d);
    assert IndexOf(line[d..], close).Some?;
  }

  /** Some configured pattern finds a hit in the line. */
  predicate AnyFinds(patterns: seq<Pattern>, line: string) {
    exists i :: 0 <= i < |patterns| && Finds(patterns[i], line)
  }

  /** The test `find()` applies to each line: does some pattern hit it. */
  function Hits(patterns: seq<Pattern>): string -> bool {
    line => AnyFinds(patterns, line)
  }

  /**
   * The map `find()` builds from the lines: a hit line (one that `isHit`
   * accepts) records its name attribute to its element value, later lines
   * overwriting earlier ones; other lines leave the map as it was.
   */
  function Extracted(lines: seq<string>, isHit: string -> bool,
                     nameOf: string -> string, valueOf: string -> string): map<string, string>
  {
    if lines == [] then map[]
    else
      var before := Extracted(lines[..|lines| - 1], isHit, nameOf, valueOf);
      var line := lines[|lines| - 1];
      if isHit(line) then before[nameOf(line) := valueOf(line)] else before
  }

  /** A key is recorded exactly when some hit line carries it as its name. */
  lemma {:induction false} ExtractedKeys(lines: seq<string>, isHit: string -> bool,
                                         nameOf: string -> string, valueOf: string -> string, key: string)
    ensures key in Extracted(lines, isHit, nameOf, valueOf) <==>
      exists i :: 0 <= i < |lines| && isHit(lines[i]) && nameOf(lines[i]) == key
  {
    if lines != [] {
      var init := lines[..|lines| - 1];
      ExtractedKeys(init, isHit, nameOf, valueOf, key);
      assert forall i :: 0 <= i < |init| ==> init[i] == lines[i];
    }
  }

  /** Line `i` is a hit carrying `key`, and no later hit carries it. */
  predicate LastHit(lines: seq<string>, isHit: string -> bool, nameOf: string -> string, key: string, i: int) {
    && 0 <= i < |lines| && isHit(lines[i]) && nameOf(lines[i]) == key
    && forall j :: i < j < |lines| && isHit(lines[j]) ==> nameOf(lines[j]) != key
  }

  /**
   * The value recorded for a key is that of the last hit line carrying it: later
   * lines with the same name overwrite earlier ones.
   */
  lemma {:induction false} ExtractedLastWins(lines: seq<string>, isHit: string -> bool,
                                             nameOf: string -> string, valueOf: string -> string, key: string)
    requires key in Extracted(lines, isHit, nameOf, valueOf)
    ensures exists i :: LastHit(lines, isHit, nameOf, key, i)
                        && Extracted(lines, isHit, nameOf, valueOf)[key] == valueOf(lines[i])
  {
    var init := lines[..|lines| - 1];
    var line := lines[|lines| - 1];
    var all := Extracted(lines, isHit, nameOf, valueOf);
    if isHit(line) && nameOf(line) == key {
      assert LastHit(lines, isHit, nameOf, key, |lines| - 1);
      assert all[key] == valueOf(lines[|lines| - 1]);
    } else {
      var before := Extracted(init, isHit, nameOf, valueOf);
      assert key in before && all[key] == before[key];
      ExtractedLastWins(init, isHit, nameOf, valueOf, key);
      var i :| LastHit(init, isHit, nameOf, key, i) && before[key] == valueOf(init[i]);
      assert forall j :: 0 <= j < |init| ==> init[j] == lines[j];
      assert LastHit(lines, isHit, nameOf, key, i);
    }
  }

  /** At most one entry per line: the map never has more keys than the file has lines. */
  lemma {:induction false} ExtractedSize(lines: seq<string>, isHit: string -> bool,
                                         nameOf: string -> string, valueOf: string -> string)
    ensures |Extracted(lines, isHit, nameOf, valueOf)| <= |lines|
  {
    if lines != [] {
      ExtractedSize(lines[..|lines| - 1], isHit, nameOf, valueOf);
    }
  }

  /** A file in which no line matches gives an empty map (not a failure). */
  lemma {:induction false} ExtractedNoMatch(lines: seq<string>, isHit: string -> bool,
                                            nameOf: string -> string, valueOf: string -> string)
    requires forall i :: 0 <= i < |lines| ==> !isHit(lines[i])
    ensures Extracted(lines, isHit, nameOf, valueOf) == map[]
  {
    if lines != [] {
      var init := lines[..|lines| - 1];
      assert forall i :: 0 <= i < |init| ==> init[i] == lines[i];
      ExtractedNoMatch(init, isHit, nameOf, valueOf);
    }
  }

  /** `<string name="app_name">OldName</string>`: a whole element on one line. */
  function AppNameLine(): string {
    Pattern("string", "app_name").Open() + "OldName" + Pattern("string", "app_name").Close()
  }

  /**
   * A whole `<string name="app_name">OldName</string>` element on one line is
   * found by the app_name pattern, so a file holding just that line, with the
   * attribute helpers reading app_name and OldName from it, yields the map
   * app_name -> OldName.
   */
  lemma AppNameLineFound(nameOf: string -> string, valueOf: string -> string)
    requires nameOf(AppNameLine()) == "app_name" && valueOf(AppNameLine()) == "OldName"
    ensures Finds(Pattern("string", "app_name"), AppNameLine())
    ensures Extracted([AppNameLine()], Hits([Pattern("string", "app_name")]), nameOf, valueOf) == map["app_name" := "OldName"]
  {
    var p := Pattern("string", "app_name");
    var line := AppNameLine();
    assert OccursAt(line, p.Open(), 0);
    var b := |p.Open()| + 7;
    assert line[b..b + |p.Close()|] == p.Close();
    assert OccursAt(line, p.Close(), b);
    FindsIff(p, line);
    assert [p][0] == p;
    assert AnyFinds([p], line);
    assert [line][..0] == [];
  }

  /** The patterns the constructor builds: one per (tag, name) pair, in order. */
  function PatternsFor(tagNames: seq<string>, names: seq<string>): (r: seq<Pattern>)
    requires |tagNames| == |names|
    ensures |r| == |tagNames|
    ensures forall i :: 0 <= i < |r| ==> r[i] == Pattern(tagNames[i], names[i])
  {
    seq(|tagNames|, i requires 0 <= i < |tagNames| => Pattern(tagNames[i], names[i]))
  }

  /** The constructor's argument check; `null` arrays are None. */
  predicate ValidArguments(tagNames: Option<seq<string>>, names: Option<seq<string>>) {
    tagNames.Some? && names.Some? && |tagNames.value| == |names.value|
  }

  class XmlElementExtractor {
    const file: Path
    const patterns: array<Pattern>

    /** Builds the patterns; arguments are checked by `Create`. */
    constructor (xmlFile: Path, tagNames: seq<string>, names: seq<string>)
      requires |tagNames| == |names|
      ensures file == xmlFile && fresh(patterns)
      ensures patterns[..] == PatternsFor(tagNames, names)
    {
      file := xmlFile;
      var built := new Pattern[|tagNames|];
      for i := 0 to built.Length
        modifies built
        invariant forall j :: 0 <= j < i ==> built[j] == Pattern(tagNames[j], names[j])
      {
        built[i] := Pattern(tagNames[i], names[i]);
      }
      patterns := built;
    }

    /**
     * `new XmlElementExtractor(xmlFile, tagNames, names)`: an
     * IllegalArgumentException when either array is null or their lengths differ.
     */
    static method Create(xmlFile: Path, tagNames: Option<seq<string>>, names: Option<seq<string>>)
      returns (r: Result<XmlElementExtractor, string>)
      ensures r.Failure? <==> !ValidArguments(tagNames, names)
      ensures r.Success? ==> r.value.file == xmlFile && fresh(r.value.patterns)
      ensures r.Success? ==> r.value.patterns[..] == PatternsFor(tagNames.value, names.value)
    {
      if tagNames.None? || names.None? || |tagNames.value| != |names.value| {
        return Failure("tagNames and names must be non-null matching length arrays.");
      }
      var e := new XmlElementExtractor(xmlFile, tagNames.value, names.value);
      return Success(e);
    }

    /**
     * `find()`: None (null) when the file does not exist or reading it fails
     * (`readable` false); otherwise the map of every hit line's name to its
     * value, possibly empty. `nameOf` and `valueOf` stand for
     * AttributeExtractor's `getAttributeValue("name", line)` and
     * `getElementValue(line)`.
     */
    method Find(fs: FileStore, readable: bool, nameOf: string -> string, valueOf: string -> string)
      returns (r: Option<map<string, string>>)
      ensures r.None? <==> file !in fs.files || !readable
      ensures r.Some? ==> r.value == Extracted(ReadLines(fs.files[file]), Hits(patterns[..]), nameOf, valueOf)
    {
      if file !in fs.files {
        return None;
      }
      if !readable {
        return None;
      }
      var input := ReadLines(fs.files[file]);
      var result: map<string, string> := map[];
      var n := 0;
      while n < |input|
        invariant 0 <= n <= |input|
        invariant result == Extracted(input[..n], Hits(patterns[..]), nameOf, valueOf)
      {
        var line := input[n];
        var hit := Matches(line);
        if hit {
          result := result[nameOf(line) := valueOf(line)];
        }
        assert input[..n + 1][..n] == input[..n];
        n := n + 1;
      }
      assert input[..n] == input;
      return Some(result);
    }

    /** The pattern loop of `find()` for one line: try each pattern in turn until one finds a hit. */
    method Matches(line: string) returns (hit: bool)
      ensures hit == Hits(patterns[..])(line)
    {
      for i := 0 to patterns.Length
        invariant forall j :: 0 <= j < i ==> !Finds(patterns[j], line)
      {
        if Finds(patterns[i], line) {
          assert patterns[..][i] == patterns[i];
          return true;
        }
      }
      return false;
    }
  }
}
