/** LONGRUNNER documents: the engine's line-scanning parser and the mutator that rewrites one field.
    Both are state machines over the same lines, but not the same machine. */
module Longrunner {
  import opened Text
  import opened Wrappers
  import opened YamlLine

  datatype Section = Phase | LastPass | NextPass

  function Header(s: Section): string {
    match s
    case Phase => "## Current Phase"
    case LastPass => "## Last Pass"
    case NextPass => "## Next Pass"
  }

  function Name(s: Section): string {
    match s
    case Phase => "phase"
    case LastPass => "last_pass"
    case NextPass => "next_pass"
  }

  // ---------------------------------------------------------------- the parser

  datatype Kind = Head(sec: Section) | OtherHead | Open | Close | Body

  predicate StartsSection(s: string) { "## " <= s }
  predicate OpensFence(s: string) { s == "```yaml" }
  predicate ClosesFence(s: string) { s == "```" }

  /** The section whose header a stripped line starts with. */
  function HeadOf(s: string): Option<Section> {
    if Header(Phase) <= s then Some(Phase)
    else if Header(LastPass) <= s then Some(LastPass)
    else if Header(NextPass) <= s then Some(NextPass)
    else None
  }

  function KindOf(line: string): Kind {
    var s := Strip(line);
    if HeadOf(s).Some? then Head(HeadOf(s).value)
    else if StartsSection(s) then OtherHead
    else if OpensFence(s) then Open
    else if ClosesFence(s) then Close
    else Body
  }

  /** The variables current_section, in_yaml and yaml_indent of parse_longrunner. */
  datatype Ctrl = Ctrl(sec: Option<Section>, inYaml: bool, indent: nat)

  const START := Ctrl(None, false, 0)

  function Next(c: Ctrl, line: string): Ctrl {
    match KindOf(line)
    case Head(s) => c.(sec := Some(s), inYaml := false)
    case OtherHead => c.(sec := None, inYaml := false)
    case Open => c.(inYaml := true)
    case Close => c.(inYaml := false)
    case Body =>
      var kv := KeyLine(c, line);
      if kv.Some? && kv.value.raw == "" then c.(indent := kv.value.indent) else c
  }

  /** The state of the parser before line i. */
  function CtrlAt(lines: seq<string>, i: nat): Ctrl
    requires i <= |lines|
  {
    if i == 0 then START else Next(CtrlAt(lines, i - 1), lines[i - 1])
  }

  /** A line that is read as a key of the current block. */
  function KeyLine(c: Ctrl, line: string): (r: Option<KvLine>)
    ensures r.Some? ==> c.inYaml && c.sec.Some? && KindOf(line) == Body && Kv(line) == r
  {
    if c.inYaml && c.sec.Some? && KindOf(line) == Body then Kv(line) else None
  }

  function Dotted(c: Ctrl, kv: KvLine): string
    requires c.sec.Some?
  {
    var sec := c.sec.value;
    if sec == Phase && ("transition_" <= kv.key || "phase." <= kv.key) then kv.key
    else if kv.indent > c.indent then Name(sec) + "." + kv.key
    else kv.key
  }

  function Entry(c: Ctrl, line: string): Option<(string, string)> {
    match KeyLine(c, line)
    case None => None
    case Some(kv) =>
      match ReadRaw(kv.raw)
      case None => None
      case Some(v) => Some((Dotted(c, kv), v))
  }

  /** The fields collected from the first n lines; an earlier entry is never overwritten. */
  function Fields(lines: seq<string>, n: nat, base: map<string, string>): map<string, string>
    requires n <= |lines|
  {
    if n == 0 then base else
    AddEntry(Fields(lines, n - 1, base), Entry(CtrlAt(lines, n - 1), lines[n - 1]))
  }

  function AddEntry(m: map<string, string>, e: Option<(string, string)>): map<string, string> {
    match e
    case None => m
    case Some((f, v)) => if f in m then m else m[f := v]
  }

  // ---------------------------------------------------------------- the mutator

  function TargetOf(field: string): Option<Section> {
    if "phase." <= field then Some(Phase)
    else if "next_pass." <= field then Some(NextPass)
    else if "last_pass." <= field then Some(LastPass)
    else if "transition_" <= field then Some(Phase)
    else None
  }

  function YamlKey(field: string): string {
    if "phase." <= field then field[6..]
    else if "next_pass." <= field then field[10..]
    else if "last_pass." <= field then field[10..]
    else field
  }

  /** The variables in_section and in_yaml of mutate_longrunner_field. */
  datatype Scan = Scan(inSection: bool, inYaml: bool)

  function ScanNext(sec: Section, c: Scan, line: string): Scan {
    var s := Strip(line);
    if Header(sec) <= s then c.(inSection := true)
    else if c.inSection && StartsSection(s) then c.(inSection := false)
    else if OpensFence(s) then (if c.inSection then c.(inYaml := true) else c)
    else if ClosesFence(s) && c.inYaml then c.(inYaml := false)
    else c
  }

  /** Whether the mutator tries its pattern on the line at all. */
  predicate Tries(sec: Section, c: Scan, line: string) {
    var s := Strip(line);
    && !(Header(sec) <= s) && !(c.inSection && StartsSection(s)) && !OpensFence(s) && !(ClosesFence(s) && c.inYaml)
    && c.inYaml && c.inSection
  }

  function ScanAt(lines: seq<string>, sec: Section, i: nat): Scan
    requires i <= |lines|
  {
    if i == 0 then Scan(false, false) else ScanNext(sec, ScanAt(lines, sec, i - 1), lines[i - 1])
  }

  predicate Hits(lines: seq<string>, sec: Section, key: string, i: nat)
    requires i < |lines|
  {
    Tries(sec, ScanAt(lines, sec, i), lines[i]) && MatchField(lines[i], key).Some?
  }

  /** The first line at or after i that the mutator would rewrite. */
  function FirstHit(lines: seq<string>, sec: Section, key: string, i: nat): (r: Option<nat>)
    requires i <= |lines|
    ensures r.Some? ==> i <= r.value < |lines| && MatchField(lines[r.value], key).Some?
    decreases |lines| - i
  {
    if i == |lines| then None
    else if Hits(lines, sec, key, i) then Some(i)
    else FirstHit(lines, sec, key, i + 1)
  }

  lemma {:induction false} FirstHitFound(lines: seq<string>, sec: Section, key: string, i: nat)
    requires i <= |lines|
    ensures var r := FirstHit(lines, sec, key, i);
            if r.Some? then Hits(lines, sec, key, r.value) && forall k :: i <= k < r.value ==> !Hits(lines, sec, key, k)
            else forall k :: i <= k < |lines| ==> !Hits(lines, sec, key, k)
    decreases |lines| - i
  {
    hide Hits;
    if i < |lines| { FirstHitFound(lines, sec, key, i + 1); }
  }

  /** The lines after a write, and the old value the mutator reports. */
  function Mutate(lines: seq<string>, field: string, v: string): (seq<string>, string) {
    var sec, key := TargetOf(field), YamlKey(field);
    var hit := if sec.Some? then FirstHit(lines, sec.value, key, 0) else None;
    match hit
    case None => (lines, "")
    case Some(i) =>
      var line := lines[i];
      (lines[i := NewLine(line, key, v)], OldValue(Strip(line[MatchField(line, key).value.1 + 1..])))
  }

  // ---------------------------------------------------------------- well-formed documents

  /** The name under which a well-placed key is known to everyone. */
  function Canon(sec: Section, key: string): string {
    if sec == Phase && "transition_" <= key then key else Name(sec) + "." + key
  }

  /** No header inside an open fence; in a block every key has only blanks before its colon, is placed
      deeper than the block's marker and carries a clean value. Nothing else about the layout matters. */
  predicate LineOk(c: Ctrl, line: string) {
    match KindOf(line)
    case Head(_) => !c.inYaml
    case OtherHead => !c.inYaml
    case Open => true
    case Close => true
    case Body =>
      c.inYaml && c.sec.Some? ==>
        match Kv(line)
        case None => LooseKey(line).None?
        case Some(kv) =>
          && (c.sec.value == Phase ==> !("phase." <= kv.key))
          && (kv.raw != "" ==> CleanRaw(kv.raw) && (Dotted(c, kv) == Canon(c.sec.value, kv.key)))
  }

  /** The section and key of line i, if it is a key line. */
  function Slot(lines: seq<string>, i: nat): Option<(Section, string)>
    requires i < |lines|
  {
    var c := CtrlAt(lines, i);
    match KeyLine(c, lines[i])
    case None => None
    case Some(kv) => Some((c.sec.value, kv.key))
  }

  predicate LineOkAt(lines: seq<string>, i: nat)
    requires i < |lines|
  {
    LineOk(CtrlAt(lines, i), lines[i])
  }

  ghost predicate LinesOk(lines: seq<string>) {
    forall i :: 0 <= i < |lines| ==> LineOkAt(lines, i)
  }

  ghost predicate KeysDistinct(lines: seq<string>) {
    forall i, j :: 0 <= i < j < |lines| && Slot(lines, i).Some? ==> Slot(lines, i) != Slot(lines, j)
  }

  ghost predicate WellFormed(lines: seq<string>) { LinesOk(lines) && KeysDistinct(lines) }

  /** The field whose value stands on a line, with that raw value. */
  function Value(c: Ctrl, line: string): Option<(string, string)> {
    var kv := KeyLine(c, line);
    if kv.Some? && kv.value.raw != "" then Some((Canon(c.sec.value, kv.value.key), kv.value.raw)) else None
  }

  function ValueAt(lines: seq<string>, i: nat): Option<(string, string)>
    requires i < |lines|
  {
    Value(CtrlAt(lines, i), lines[i])
  }

  /** What the first n lines say: every field with the meaning of its raw value, null markers included. */
  function Cells(lines: seq<string>, n: nat): map<string, string>
    requires n <= |lines|
  {
    if n == 0 then map[] else
    match ValueAt(lines, n - 1)
    case None => Cells(lines, n - 1)
    case Some((f, raw)) => Cells(lines, n - 1)[f := Meaning(raw)]
  }

  // ---------------------------------------------------------------- the blockers table

  predicate IsRule(s: string) { forall k :: 0 <= k < |s| ==> s[k] == '|' || s[k] == '-' || s[k] == ' ' || s[k] == ':' }

  /** The first cell of the table row is filled in. */
  predicate FilledRow(line: string) {
    var s := Strip(line);
    && "|" <= s && !("| Blocker" <= s) && !IsRule(s)
    && var cells := Split(line, '|'); |cells| > 2 && Strip(cells[1]) != ""
  }

  /** Whether the scan from line i on, with or without the heading already seen, finds a blocker. */
  predicate Blockers(lines: seq<string>, i: nat, seen: bool)
    requires i <= |lines|
    decreases |lines| - i
  {
    if i == |lines| then false
    else if Contains(lines[i], "## Blockers") then Blockers(lines, i + 1, true)
    else if !seen then Blockers(lines, i + 1, false)
    else if StartsSection(Strip(lines[i])) then false
    else FilledRow(lines[i]) || Blockers(lines, i + 1, true)
  }

  function BoolText(b: bool): string { if b then "true" else "false" }

  function LongrunnerPath(slug: string): string { "PROJECTS/" + slug + "/LONGRUNNER.md" }
  function DraftPath(slug: string): string { "PROJECTS/" + slug + "/LONGRUNNER-DRAFT.md" }

  /** parse_longrunner over the files of the workspace. */
  function ParseOf(files: map<string, string>, slug: string): Option<map<string, string>> {
    if LongrunnerPath(slug) in files then Some(ParseText(files[LongrunnerPath(slug)], slug, false))
    else if DraftPath(slug) in files then Some(ParseText(files[DraftPath(slug)], slug, true))
    else None
  }

  function ParseText(content: string, slug: string, draft: bool): map<string, string> {
    var lines := SplitLines(content);
    var base := map["slug" := slug, "is_draft" := BoolText(draft)];
    Fields(lines, |lines|, base)["has_blockers" := BoolText(Blockers(lines, 0, false))]
  }
}
