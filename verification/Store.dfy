/** The workspace's text files, with the LONGRUNNER reader and writer as the programs run them. */
module Store {
  import opened Text
  import opened Wrappers
  import opened YamlLine
  import opened Longrunner
  import LensLaws

  type Files = map<string, string>

  predicate SlugChar(c: char) { 'a' <= c <= 'z' || '0' <= c <= '9' }

  /** Small letters, digits and inner hyphens. */
  predicate SlugText(s: string) {
    && s != "" && SlugChar(s[0]) && SlugChar(s[|s| - 1])
    && forall k :: 0 <= k < |s| ==> SlugChar(s[k]) || s[k] == '-'
  }

  /** is_valid_slug: the pattern's final $ also matches just before one trailing newline. */
  predicate IsValidSlug(s: string) {
    SlugText(s) || (s != "" && s[|s| - 1] == '\n' && SlugText(s[..|s| - 1]))
  }

  /** A valid slug cannot leave its directory: it holds no separator, no dot and no drive letter. */
  lemma {:induction false} SlugConfined(s: string)
    requires IsValidSlug(s)
    ensures '/' !in s && '\\' !in s && '.' !in s && ':' !in s
    ensures Split(LongrunnerPath(s), '/') == ["PROJECTS", s, "LONGRUNNER.md"]
  {
    SlugLetters(s);
    hide IsValidSlug;
    assert '/' !in "PROJECTS" && '/' !in "LONGRUNNER.md";
    assert LongrunnerPath(s) == "PROJECTS" + ['/'] + (s + ['/'] + "LONGRUNNER.md");
    SplitPrefix("PROJECTS", s + ['/'] + "LONGRUNNER.md", '/');
    SplitPrefix(s, "LONGRUNNER.md", '/');
    hide Split;
  }

  lemma SlugLetters(s: string)
    requires IsValidSlug(s)
    ensures '/' !in s && '\\' !in s && '.' !in s && ':' !in s
  {
    if !SlugText(s) { assert s == s[..|s| - 1] + "\n"; }
  }

  /** mutate_longrunner_field on the files: what they become, and the old value or None on refusal. */
  function PutLongrunner(files: Files, slug: string, field: string, v: string): (Files, Option<string>) {
    var path := LongrunnerPath(slug);
    if !IsValidSlug(slug) || path !in files then (files, None)
    else
      var (lines, old_) := Mutate(SplitLines(files[path]), field, v);
      (files[path := Written(lines)], Some(old_))
  }

  class Workspace {
    var files: Files

    constructor (initial: Files)
      ensures files == initial
    {
      files := initial;
    }

    /** parse_longrunner */
    method ParseLongrunner(slug: string) returns (r: Option<map<string, string>>)
      ensures r == ParseOf(files, slug)
    {
      var draft := LongrunnerPath(slug) !in files;
      var path := if draft then DraftPath(slug) else LongrunnerPath(slug);
      if path !in files {
        return None;
      }
      var lines := SplitLines(files[path]);
      var fields := CollectFields(lines, map["slug" := slug, "is_draft" := BoolText(draft)]);
      var blocked := HasBlockers(lines);
      fields := fields["has_blockers" := BoolText(blocked)];
      return Some(fields);
    }

    /** The first loop of parse_longrunner. */
    static method CollectFields(lines: seq<string>, base: map<string, string>) returns (fields: map<string, string>)
      ensures fields == Fields(lines, |lines|, base)
    {
      hide Strip;
      hide HeadOf;
      hide StartsSection;
      hide OpensFence;
      hide ClosesFence;
      hide Kv;
      hide ReadRaw;
      hide Dotted;
      hide CtrlAt;
      hide Fields;
      Beginning(lines, base);
      fields := base;
      var section: Option<Section> := None;
      var inYaml := false;
      var indent := 0;
      var i := 0;
      while i < |lines|
        invariant 0 <= i <= |lines|
        invariant Ctrl(section, inYaml, indent) == CtrlAt(lines, i)
        invariant fields == Fields(lines, i, base)
      {
        var line := lines[i];
        var stripped := Strip(line);
        LensLaws.HeadIsHash(stripped);
        OneLine(lines, i, base);
        LensLaws.StepCases(CtrlAt(lines, i), line);
        hide Next;
        hide Entry;
        i := i + 1;
        var head := HeadOf(stripped);
        if head.Some? {
          section := head;
          inYaml := false;
        }
        if StartsSection(stripped) && head.None? {
          section := None;
          inYaml := false;
          continue;
        }
        if OpensFence(stripped) {
          inYaml := true;
          continue;
        }
        if ClosesFence(stripped) && inYaml {
          inYaml := false;
          continue;
        }
        if !inYaml || section.None? {
          continue;
        }
        var m := Kv(line);
        if m.None? {
          continue;
        }
        if m.value.raw == "" {
          indent := m.value.indent;
          continue;
        }
        var val := ReadRaw(m.value.raw);
        if val.None? {
          continue;
        }
        var dotted := Dotted(Ctrl(section, inYaml, indent), m.value);
        if dotted !in fields {
          fields := fields[dotted := val.value];
        }
      }
    }

    static lemma Beginning(lines: seq<string>, base: map<string, string>)
      ensures CtrlAt(lines, 0) == START && Fields(lines, 0, base) == base
    {}

    static lemma OneLine(lines: seq<string>, i: nat, base: map<string, string>)
      requires i < |lines|
      ensures CtrlAt(lines, i + 1) == Next(CtrlAt(lines, i), lines[i])
      ensures Fields(lines, i + 1, base) == AddEntry(Fields(lines, i, base), Entry(CtrlAt(lines, i), lines[i]))
    {
      hide Next;
      hide Entry;
      hide AddEntry;
    }

    /** The second loop of parse_longrunner: a filled row under the blockers heading. */
    static method HasBlockers(lines: seq<string>) returns (r: bool)
      ensures r == Blockers(lines, 0, false)
    {
      hide Strip;
      hide StartsSection;
      hide Contains;
      hide FilledRow;
      var seen := false;
      var i := 0;
      while i < |lines|
        invariant 0 <= i <= |lines|
        invariant Blockers(lines, 0, false) == Blockers(lines, i, seen)
      {
        var line := lines[i];
        i := i + 1;
        if Contains(line, "## Blockers") {
          seen := true;
          continue;
        }
        if seen {
          if StartsSection(Strip(line)) {
            return false;
          }
          if FilledRow(line) {
            return true;
          }
        }
      }
      return false;
    }

    /** mutate_longrunner_field */
    method MutateLongrunnerField(slug: string, field: string, value: string) returns (r: Option<string>)
      modifies this
      ensures (files, r) == PutLongrunner(old(files), slug, field, value)
    {
      hide IsValidSlug;
      hide FirstHit;
      hide MatchField;
      hide NewLine;
      hide OldValue;
      hide Strip;
      hide SplitLines;
      hide Written;
      hide TargetOf;
      hide YamlKey;
      hide LongrunnerPath;
      var path := LongrunnerPath(slug);
      if !IsValidSlug(slug) || path !in files {
        return None;
      }
      var lines := SplitLines(files[path]);
      ghost var before := lines;
      var target := TargetOf(field);
      var key := YamlKey(field);
      var oldValue := "";
      if target.Some? {
        lines, oldValue := RewriteFirst(lines, target.value, key, value);
      }
      files := files[path := Written(lines)];
      return Some(oldValue);
    }

    /** The scanning loop of the mutator: rewrite the first matching line of the section's block. */
    static method RewriteFirst(before: seq<string>, target: Section, key: string, value: string)
      returns (lines: seq<string>, oldValue: string)
      ensures (lines, oldValue) ==
              match FirstHit(before, target, key, 0)
              case None => (before, "")
              case Some(i) => (before[i := NewLine(before[i], key, value)],
                               OldValue(Strip(before[i][MatchField(before[i], key).value.1 + 1..])))
    {
      hide Strip;
      hide Header;
      hide StartsSection;
      hide OpensFence;
      hide ClosesFence;
      hide MatchField;
      hide NewLine;
      hide OldValue;
      lines, oldValue := before, "";
      var inSection, inYaml := false, false;
      var i := 0;
      while i < |lines|
        invariant 0 <= i <= |lines| && lines == before && oldValue == ""
        invariant Scan(inSection, inYaml) == ScanAt(before, target, i)
        invariant forall k :: 0 <= k < i ==> !Hits(before, target, key, k)
      {
        var line := lines[i];
        var stripped := Strip(line);
        i := i + 1;
        if Header(target) <= stripped {
          inSection := true;
          continue;
        }
        if inSection && StartsSection(stripped) && !(Header(target) <= stripped) {
          inSection := false;
          continue;
        }
        if OpensFence(stripped) {
          if inSection {
            inYaml := true;
          }
          continue;
        }
        if ClosesFence(stripped) && inYaml {
          inYaml := false;
          continue;
        }
        if inYaml && inSection {
          var m := MatchField(line, key);
          if m.Some? {
            var oldRaw := Strip(line[m.value.1 + 1..]);
            oldValue := OldValue(oldRaw);
            lines := lines[i - 1 := NewLine(line, key, value)];
            assert Hits(before, target, key, i - 1);
            FirstHitAt(before, target, key, i - 1);
            return;
          }
        }
      }
      FirstHitFound(before, target, key, 0);
    }

    static lemma FirstHitAt(lines: seq<string>, sec: Section, key: string, i: nat)
      requires i < |lines| && Hits(lines, sec, key, i)
      requires forall k :: 0 <= k < i ==> !Hits(lines, sec, key, k)
      ensures FirstHit(lines, sec, key, 0) == Some(i)
    {
      hide Hits;
      FirstHitFound(lines, sec, key, 0);
    }
  }
}

