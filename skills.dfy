/** Skills (src/skills.rs): each skill directory holds a SKILL.md whose YAML-style
    frontmatter names and describes the skill; the skills are listed sorted by name and
    offered to the model as XML. Reading the directory and the file is left to the caller:
    here a skill is parsed from the file's text and its directory's name. */
module Skills {
  import opened Wrappers
  import opened Strings

  datatype Skill = Skill(name: string, description: string, location: string)

  // ---------------------------------------------------------------- XML escaping

  /** `str::replace(c, rep)`: each `c`, left to right, becomes `rep`; nothing else moves. */
  function ReplaceChar(s: string, c: char, rep: string): (r: string)
    ensures c !in s ==> r == s
    ensures c !in rep ==> c !in r
    decreases |s|
  {
    if s == [] then [] else (if s[0] == c then rep else [s[0]]) + ReplaceChar(s[1..], c, rep)
  }

  /** Replacing in a concatenation replaces in each part. */
  lemma {:induction false} ReplaceAppend(a: string, b: string, c: char, rep: string)
    ensures ReplaceChar(a + b, c, rep) == ReplaceChar(a, c, rep) + ReplaceChar(b, c, rep)
    decreases |a|
  {
    if a != [] {
      var head := if a[0] == c then rep else [a[0]];
      assert (a + b)[0] == a[0] && (a + b)[1..] == a[1..] + b;
      assert ReplaceChar(a + b, c, rep) == head + ReplaceChar(a[1..] + b, c, rep);
      ReplaceAppend(a[1..], b, c, rep);
      assert ReplaceChar(a, c, rep) == head + ReplaceChar(a[1..], c, rep);
    } else {
      assert a + b == b;
    }
  }

  /** A character in neither the text nor the replacement does not appear. */
  lemma {:induction false} ReplaceKeepsAbsent(s: string, c: char, rep: string, d: char)
    requires d !in s && d !in rep
    ensures d !in ReplaceChar(s, c, rep)
    decreases |s|
  {
    if s != [] {
      ReplaceKeepsAbsent(s[1..], c, rep, d);
    }
  }

  /** `escape_xml`: the chain of five replacements, ampersand first. */
  function EscapeXml(s: string): string {
    ReplaceChar(ReplaceChar(ReplaceChar(ReplaceChar(ReplaceChar(s, '&', "&amp;"), '<', "&lt;"), '>', "&gt;"), '"', "&quot;"), '\'', "&apos;")
  }

  /** The entity of one character, the character itself if it needs none. */
  function EscapeChar(c: char): (r: string)
    ensures '<' !in r && '>' !in r && '"' !in r && '\'' !in r
  {
    match c
    case '&' => "&amp;"
    case '<' => "&lt;"
    case '>' => "&gt;"
    case '"' => "&quot;"
    case '\'' => "&apos;"
    case _ => [c]
  }

  /** Reference definition: every character escaped on its own, in one pass. */
  function EscapeEach(s: string): (r: string)
    ensures '<' !in r && '>' !in r && '"' !in r && '\'' !in r
    decreases |s|
  {
    if s == [] then [] else EscapeChar(s[0]) + EscapeEach(s[1..])
  }

  /** Every step of the chain distributes over concatenation. */
  lemma EscapeXmlAppend(a: string, b: string)
    ensures EscapeXml(a + b) == EscapeXml(a) + EscapeXml(b)
  {
    var a1, b1 := ReplaceChar(a, '&', "&amp;"), ReplaceChar(b, '&', "&amp;");
    ReplaceAppend(a, b, '&', "&amp;");
    var a2, b2 := ReplaceChar(a1, '<', "&lt;"), ReplaceChar(b1, '<', "&lt;");
    ReplaceAppend(a1, b1, '<', "&lt;");
    var a3, b3 := ReplaceChar(a2, '>', "&gt;"), ReplaceChar(b2, '>', "&gt;");
    ReplaceAppend(a2, b2, '>', "&gt;");
    var a4, b4 := ReplaceChar(a3, '"', "&quot;"), ReplaceChar(b3, '"', "&quot;");
    ReplaceAppend(a3, b3, '"', "&quot;");
    ReplaceAppend(a4, b4, '\'', "&apos;");
  }

  /** Helper: replacing in a one-character text. */
  lemma ReplaceSingle(c: char, d: char, rep: string)
    ensures ReplaceChar([c], d, rep) == if c == d then rep else [c]
  {
    assert [c][1..] == [];
  }

  /** The chain on one character: the entities a step inserts hold none of the
      characters a later step replaces, so nothing is escaped twice. */
  lemma EscapeXmlOfChar(c: char)
    ensures EscapeXml([c]) == EscapeChar(c)
  {
    ReplaceSingle(c, '&', "&amp;");
    if c != '&' {
      ReplaceSingle(c, '<', "&lt;");
      if c != '<' {
        ReplaceSingle(c, '>', "&gt;");
        if c != '>' {
          ReplaceSingle(c, '"', "&quot;");
          if c != '"' {
            ReplaceSingle(c, '\'', "&apos;");
          }
        }
      }
    }
  }

  /** `escape_xml` is the one-pass escape: ampersand first means the inserted entities'
      ampersands are never escaped again. */
  lemma {:induction false} EscapeXmlIsPerChar(s: string)
    ensures EscapeXml(s) == EscapeEach(s)
    decreases |s|
  {
    if s != [] {
      assert s == [s[0]] + s[1..];
      EscapeXmlAppend([s[0]], s[1..]);
      EscapeXmlOfChar(s[0]);
      EscapeXmlIsPerChar(s[1..]);
    }
  }

  /** No raw '<', '>', '"' or '\'' survives escaping. */
  lemma EscapeXmlNoRawSpecials(s: string)
    ensures var r := EscapeXml(s);
            '<' !in r && '>' !in r && '"' !in r && '\'' !in r
  {
    EscapeXmlIsPerChar(s);
  }

  /** Text without any of the five characters is left as it is. */
  lemma EscapeXmlOfPlain(s: string)
    requires '&' !in s && '<' !in s && '>' !in s && '"' !in s && '\'' !in s
    ensures EscapeXml(s) == s
  {
  }

  /** Plain text around one character: only that character is replaced by its entity,
      as "a < b" becomes "a &lt; b" and "a & b" becomes "a &amp; b". */
  lemma EscapeXmlAround(a: string, c: char, b: string)
    requires '&' !in a && '<' !in a && '>' !in a && '"' !in a && '\'' !in a
    requires '&' !in b && '<' !in b && '>' !in b && '"' !in b && '\'' !in b
    ensures EscapeXml(a + [c] + b) == a + EscapeChar(c) + b
  {
    EscapeXmlAppend(a + [c], b);
    EscapeXmlAppend(a, [c]);
    EscapeXmlOfChar(c);
    EscapeXmlOfPlain(a);
    EscapeXmlOfPlain(b);
  }

  // ---------------------------------------------------------------- SKILL.md

  /** A frontmatter value: trimmed, then stripped of double quotes, then of single quotes. */
  function CleanValue(v: string): string {
    TrimMatches(TrimMatches(Trim(v), '"'), '\'')
  }

  /** The frontmatter: the text after a leading "---" up to the next "---", if both exist. */
  function Frontmatter(content: string): Option<string> {
    if StartsWith(content, "---") then
      match Find(content[3..], "---")
      case None => None
      case Some(end) => Some(content[3..end + 3])
    else None
  }

  /** There is frontmatter exactly when the text starts with "---" and has another
      "---" after it; the frontmatter is then everything up to the first of those. */
  lemma FrontmatterBounds(content: string)
    ensures Frontmatter(content).Some? <==> StartsWith(content, "---") && Contains(content[3..], "---")
    ensures Frontmatter(content).Some? ==>
              var f := Frontmatter(content).value;
              StartsWith(content[3..], f + "---")
              && forall j :: 0 <= j < |f| ==> !StartsWith(content[3..][j..], "---")
  {
    if Frontmatter(content).Some? {
      var rest := content[3..];
      var end := Find(rest, "---").value;
      var f := rest[..end];
      assert f == content[3..end + 3];
      assert rest[..end + 3] == f + "---";
    }
  }

  /** Whether a (trimmed) line sets `key`. */
  predicate SetsKey(line: string, key: string) {
    StartsWith(line, key)
  }

  /** What follows `key` on the last line that sets it. */
  function LastField(lines: seq<string>, key: string): Option<string>
    decreases |lines|
  {
    if lines == [] then None
    else
      match StripPrefix(lines[|lines| - 1], key)
      case Some(v) => Some(v)
      case None => LastField(lines[..|lines| - 1], key)
  }

  /** The field's value: what follows the key on its last line, cleaned up. */
  function Field(lines: seq<string>, key: string): Option<string> {
    match LastField(lines, key)
    case Some(v) => Some(CleanValue(v))
    case None => None
  }

  /** Line `i` sets `key` and no later line does. */
  predicate IsLastSetter(lines: seq<string>, key: string, i: int) {
    0 <= i < |lines| && SetsKey(lines[i], key)
    && forall j :: i < j < |lines| ==> !SetsKey(lines[j], key)
  }

  /** Later lines override earlier ones: a field comes from the last line that sets
      the key. */
  lemma {:induction false} LastFieldIsLast(lines: seq<string>, key: string)
    requires LastField(lines, key).Some?
    ensures exists i :: IsLastSetter(lines, key, i) && LastField(lines, key) == Some(lines[i][|key|..])
    decreases |lines|
  {
    var n := |lines| - 1;
    var init := lines[..n];
    if StartsWith(lines[n], key) {
      assert IsLastSetter(lines, key, n);
    } else {
      assert LastField(lines, key) == LastField(init, key);
      LastFieldIsLast(init, key);
      var i :| IsLastSetter(init, key, i) && LastField(init, key) == Some(init[i][|key|..]);
      assert forall j :: 0 <= j < n ==> lines[j] == init[j];
      assert IsLastSetter(lines, key, i);
    }
  }

  /** A field is absent exactly when no line sets its key. */
  lemma {:induction false} LastFieldAbsent(lines: seq<string>, key: string)
    ensures LastField(lines, key).None? <==> forall i :: 0 <= i < |lines| ==> !SetsKey(lines[i], key)
    decreases |lines|
  {
    if lines != [] {
      var n := |lines| - 1;
      var init := lines[..n];
      LastFieldAbsent(init, key);
      assert forall i :: 0 <= i < n ==> init[i] == lines[i];
    }
  }

  /** Helper: the field after one more line. */
  lemma LastFieldStep(lines: seq<string>, i: nat, key: string)
    requires i < |lines|
    ensures LastField(lines[..i + 1], key) ==
              match StripPrefix(lines[i], key)
              case Some(v) => Some(v)
              case None => LastField(lines[..i], key)
  {
    assert lines[..i + 1][..i] == lines[..i];
    assert lines[..i + 1][i] == lines[i];
  }

  /** Helper: one more frontmatter line sets the name, or else possibly the description. */
  lemma ParseStep(lines: seq<string>, i: nat)
    requires i < |lines|
    ensures Field(lines[..i + 1], "name:") ==
              match StripPrefix(lines[i], "name:")
              case Some(v) => Some(CleanValue(v))
              case None => Field(lines[..i], "name:")
    ensures StripPrefix(lines[i], "name:").Some? ==>
              Field(lines[..i + 1], "description:") == Field(lines[..i], "description:")
    ensures StripPrefix(lines[i], "name:").None? ==>
              Field(lines[..i + 1], "description:") ==
              match StripPrefix(lines[i], "description:")
              case Some(v) => Some(CleanValue(v))
              case None => Field(lines[..i], "description:")
  {
    LastFieldStep(lines, i, "name:");
    LastFieldStep(lines, i, "description:");
    if StripPrefix(lines[i], "name:").Some? {
      assert lines[i][0] == 'n';
    }
  }

  /** Each line trimmed. */
  function TrimAll(lines: seq<string>): (r: seq<string>)
    ensures |r| == |lines| && forall i :: 0 <= i < |r| ==> r[i] == Trim(lines[i])
  {
    seq(|lines|, i requires 0 <= i < |lines| => Trim(lines[i]))
  }

  /** The frontmatter's lines, trimmed; none if there is no frontmatter. */
  function FrontmatterLines(content: string): seq<string> {
    match Frontmatter(content)
    case None => []
    case Some(f) => TrimAll(Lines(f))
  }

  /** `parse_skill`, over the file's text and the name of its directory (absent when the
      path has none, or none in UTF-8): name and description from the last frontmatter
      lines that give them, else the directory's name and "Skill: " with it. */
  method ParseSkill(content: string, dirName: Option<string>, location: string) returns (skill: Skill)
    ensures var lines := FrontmatterLines(content);
            var dir := dirName.GetOr("unknown");
            skill.name == Field(lines, "name:").GetOr(dir)
            && skill.description == Field(lines, "description:").GetOr("Skill: " + dir)
            && skill.location == location
  {
    var name: Option<string> := None;
    var description: Option<string> := None;
    var lines: seq<string> := [];
    var fm := Frontmatter(content);
    if fm.Some? {
      lines := Lines(fm.value);
    }
    ghost var trimmed := TrimAll(lines);
    assert trimmed == FrontmatterLines(content);
    var i := 0;
    while i < |lines|
      invariant 0 <= i <= |lines|
      invariant name == Field(trimmed[..i], "name:")
      invariant description == Field(trimmed[..i], "description:")
    {
      var line := Trim(lines[i]);
      ParseStep(trimmed, i);
      var asName := StripPrefix(line, "name:");
      if asName.Some? {
        name := Some(CleanValue(asName.value));
      } else {
        var asDescription := StripPrefix(line, "description:");
        if asDescription.Some? {
          description := Some(CleanValue(asDescription.value));
        }
      }
      i := i + 1;
    }
    assert trimmed[..|lines|] == trimmed;
    var dir := dirName.GetOr("unknown");
    skill := Skill(name.GetOr(dir), description.GetOr("Skill: " + dir), location);
  }

  /** Without frontmatter both fields fall back to the directory name. */
  lemma NoFrontmatterFallback(content: string, dir: string)
    requires !StartsWith(content, "---")
    ensures FrontmatterLines(content) == []
    ensures Field(FrontmatterLines(content), "name:").GetOr(dir) == dir
    ensures Field(FrontmatterLines(content), "description:").GetOr("Skill: " + dir) == "Skill: " + dir
  {
  }

  // ---------------------------------------------------------------- XML listing

  /** The lines of one `<skill>` element: name and description escaped, the location
      as displayed. */
  function NameLine(s: Skill): string {
    "    <name>" + EscapeXml(s.name) + "</name>\n"
  }

  function DescriptionLine(s: Skill): string {
    "    <description>" + EscapeXml(s.description) + "</description>\n"
  }

  function LocationLine(s: Skill): string {
    "    <location>" + s.location + "</location>\n"
  }

  /** One `<skill>` element. */
  function SkillBlock(s: Skill): string {
    "  <skill>\n" + NameLine(s) + DescriptionLine(s) + LocationLine(s) + "  </skill>\n"
  }

  /** The element of each skill, in order. */
  function Blocks(skills: seq<Skill>): (r: seq<string>)
    ensures |r| == |skills| && forall i :: 0 <= i < |r| ==> r[i] == SkillBlock(skills[i])
  {
    seq(|skills|, i requires 0 <= i < |skills| => SkillBlock(skills[i]))
  }

  /** The listing: nothing for no skills, else their elements inside `<available_skills>`. */
  function SkillsXml(skills: seq<Skill>): string {
    if skills == [] then "" else "<available_skills>\n" + Concat(Blocks(skills)) + "</available_skills>"
  }

  /** Helper: the elements of a list with a first skill. */
  lemma BlocksCons(s: Skill, skills: seq<Skill>)
    ensures Blocks([s] + skills) == [SkillBlock(s)] + Blocks(skills)
  {
  }

  /** The first skill's element comes first, then the rest's, in their order. */
  lemma ConcatBlocksCons(s: Skill, skills: seq<Skill>)
    ensures Concat(Blocks([s] + skills)) == SkillBlock(s) + Concat(Blocks(skills))
  {
    BlocksCons(s, skills);
    ConcatCons(SkillBlock(s), Blocks(skills));
  }

  /** No skills give no text; otherwise the first skill's element comes first, followed
      by the elements of the rest in their order, all inside one `<available_skills>`. */
  lemma SkillsXmlShape(skills: seq<Skill>, s: Skill)
    ensures SkillsXml([]) == ""
    ensures SkillsXml([s] + skills) == "<available_skills>\n" + SkillBlock(s) + Concat(Blocks(skills)) + "</available_skills>"
  {
    ConcatBlocksCons(s, skills);
    AppendAssoc("<available_skills>\n", SkillBlock(s), Concat(Blocks(skills)));
  }

  /** `format_skills_xml`: pushes one element per skill between the opening and the
      closing tag (the five pushes of an element as one). */
  method FormatSkillsXml(skills: seq<Skill>) returns (xml: string)
    ensures xml == SkillsXml(skills)
  {
    if |skills| == 0 {
      return "";
    }
    ghost var blocks := Blocks(skills);
    xml := "<available_skills>\n";
    var i := 0;
    while i < |skills|
      invariant 0 <= i <= |skills|
      invariant xml == "<available_skills>\n" + Concat(blocks[..i])
    {
      ghost var done := Concat(blocks[..i]);
      ConcatPrefix(blocks, i);
      AppendAssoc("<available_skills>\n", done, blocks[i]);
      xml := xml + SkillBlock(skills[i]);
      i := i + 1;
    }
    assert blocks[..|skills|] == blocks;
    xml := xml + "</available_skills>";
  }

  // ---------------------------------------------------------------- sorting by name

  /** `String`'s ordering: character by character, a proper prefix first. */
  predicate Less(a: string, b: string)
    decreases |a|
  {
    if a == [] then b != []
    else if b == [] then false
    else a[0] < b[0] || (a[0] == b[0] && Less(a[1..], b[1..]))
  }

  predicate LessEq(a: string, b: string) {
    a == b || Less(a, b)
  }

  lemma {:induction false} LessIrreflexive(a: string)
    ensures !Less(a, a)
    decreases |a|
  {
    if a != [] {
      LessIrreflexive(a[1..]);
    }
  }

  lemma {:induction false} LessTransitive(a: string, b: string, c: string)
    requires Less(a, b) && Less(b, c)
    ensures Less(a, c)
    decreases |a|
  {
    if a != [] && a[0] == b[0] && b[0] == c[0] {
      LessTransitive(a[1..], b[1..], c[1..]);
    }
  }

  lemma {:induction false} LessTotal(a: string, b: string)
    ensures a == b || Less(a, b) || Less(b, a)
    decreases |a|
  {
    if a != [] && b != [] && a[0] == b[0] {
      LessTotal(a[1..], b[1..]);
      if a[1..] == b[1..] {
        assert a == [a[0]] + a[1..] && b == [b[0]] + b[1..];
      }
    }
  }

  predicate SortedByName(s: seq<Skill>) {
    forall i, j :: 0 <= i < j < |s| ==> LessEq(s[i].name, s[j].name)
  }

  /** Inserts after every skill whose name is not greater, so equal names keep their order. */
  function InsertByName(x: Skill, s: seq<Skill>): (r: seq<Skill>)
    ensures multiset(r) == multiset(s) + multiset{x}
    decreases |s|
  {
    if s == [] then [x]
    else if Less(x.name, s[0].name) then
      assert s == [s[0]] + s[1..];
      [x] + s
    else
      assert s == [s[0]] + s[1..];
      [s[0]] + InsertByName(x, s[1..])
  }

  /** Insertion keeps a list sorted by name. */
  lemma {:induction false} InsertKeepsSorted(x: Skill, s: seq<Skill>)
    requires SortedByName(s)
    ensures SortedByName(InsertByName(x, s))
    decreases |s|
  {
    if s == [] {
    } else if Less(x.name, s[0].name) {
      SortedPrepend(x, s);
    } else {
      var tail := s[1..];
      assert SortedByName(tail) by {
        forall i, j | 0 <= i < j < |tail| ensures LessEq(tail[i].name, tail[j].name) {
          assert tail[i] == s[i + 1] && tail[j] == s[j + 1];
        }
      }
      InsertKeepsSorted(x, tail);
      var rest := InsertByName(x, tail);
      assert s == [s[0]] + tail;
      LessTotal(x.name, s[0].name);
      forall y: Skill | y in multiset(rest) ensures LessEq(s[0].name, y.name) {
        if y != x {
          assert y in multiset(tail);
          var k :| 0 <= k < |tail| && tail[k] == y;
          assert s[k + 1] == y;
        }
      }
      SortedCons(s[0], rest);
    }
  }

  /** Helper: a skill below the first of a sorted list goes in front. */
  lemma SortedPrepend(x: Skill, s: seq<Skill>)
    requires s != [] && Less(x.name, s[0].name)
    ensures SortedByName(s) ==> SortedByName([x] + s)
  {
    if SortedByName(s) {
      var r := [x] + s;
      forall i, j | 0 <= i < j < |r| ensures LessEq(r[i].name, r[j].name) {
        if i == 0 && j > 1 {
          assert LessEq(s[0].name, s[j - 1].name);
          if s[0].name != s[j - 1].name {
            LessTransitive(x.name, s[0].name, s[j - 1].name);
          }
        } else if i > 0 {
          assert r[i] == s[i - 1] && r[j] == s[j - 1];
        }
      }
    }
  }

  /** Helper: a skill not above anything of a sorted list goes in front. */
  lemma SortedCons(x: Skill, s: seq<Skill>)
    requires SortedByName(s)
    requires forall y | y in multiset(s) :: LessEq(x.name, y.name)
    ensures SortedByName([x] + s)
  {
    var r := [x] + s;
    forall i, j | 0 <= i < j < |r| ensures LessEq(r[i].name, r[j].name) {
      if i == 0 {
        assert r[j] == s[j - 1] && s[j - 1] in multiset(s);
      } else {
        assert r[i] == s[i - 1] && r[j] == s[j - 1];
      }
    }
  }

  /** `sort_by(|a, b| a.name.cmp(&b.name))`, a stable sort by name: insertion of each
      skill in turn. */
  function SortByName(s: seq<Skill>): seq<Skill>
    decreases |s|
  {
    if s == [] then [] else InsertByName(s[|s| - 1], SortByName(s[..|s| - 1]))
  }

  /** Helper: a sequence holds what its front holds and its last element. */
  lemma MultisetSnoc<T>(s: seq<T>)
    requires |s| > 0
    ensures multiset(s) == multiset(s[..|s| - 1]) + multiset{s[|s| - 1]}
  {
    assert s == s[..|s| - 1] + [s[|s| - 1]];
  }

  /** The sort yields a permutation of the skills. */
  lemma {:induction false} SortByNamePermutes(s: seq<Skill>)
    ensures multiset(SortByName(s)) == multiset(s)
    decreases |s|
  {
    if s != [] {
      var init := s[..|s| - 1];
      var last := s[|s| - 1];
      SortByNamePermutes(init);
      MultisetSnoc(s);
    }
  }

  /** The sort yields a list sorted by name. */
  lemma {:induction false} SortByNameSorted(s: seq<Skill>)
    ensures SortedByName(SortByName(s))
    decreases |s|
  {
    if s != [] {
      SortByNameSorted(s[..|s| - 1]);
      InsertKeepsSorted(s[|s| - 1], SortByName(s[..|s| - 1]));
    }
  }
}
