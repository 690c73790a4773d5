/** Every LONGRUNNER laid out like the template is a document all readers and writers handle. */
module Template {
  import opened Text
  import opened Wrappers
  import opened YamlLine
  import opened Longrunner
  import opened LensLaws
  import opened BridgeParser
  import opened BridgeLaws
  import opened ExecutorLaws

  // ---------------------------------------------------------------- documents

  /** A line of a document, told by where it stands. Prose stands outside every fence, behind the block of one
      of the three sections or elsewhere; the other sections have fences of their own. A section of the three
      has a headline, a gap, and a fenced block: its marker, then fields and notes. */
  datatype Piece =
    | Prose(under: Option<Section>, line: string)
    | OtherHeading(line: string) | OtherOpen | OtherLine(line: string) | OtherClose
    | Headline(sec: Section) | Gap(sec: Section, line: string) | Opening(sec: Section) | Mark(sec: Section)
    | Note(sec: Section, line: string) | Field(sec: Section, key: string, raw: string) | Closing(sec: Section)

  type Document = seq<Piece>

  function FieldText(key: string, raw: string): string { "  " + key + ":" + (" " + raw) }

  function LineOf(p: Piece): string {
    match p
    case Prose(_, line) => line
    case OtherHeading(line) => line
    case OtherOpen => "```yaml"
    case OtherLine(line) => line
    case OtherClose => "```"
    case Headline(sec) => Header(sec)
    case Gap(_, line) => line
    case Opening(_) => "```yaml"
    case Mark(sec) => Name(sec) + ":"
    case Note(_, line) => line
    case Field(_, key, raw) => FieldText(key, raw)
    case Closing(_) => "```"
  }

  function LinesOf(d: Document): (r: seq<string>)
    ensures |r| == |d| && forall i :: 0 <= i < |d| ==> r[i] == LineOf(d[i])
  {
    seq(|d|, i requires 0 <= i < |d| => LineOf(d[i]))
  }

  /** No line the bridge would take for the title of one of the three sections. */
  predicate Untitled(line: string) {
    !TitleLine(line, Title(Phase)) && !TitleLine(line, Title(LastPass)) && !TitleLine(line, Title(NextPass))
  }

  /** What may stand in each place. A field has a key that can be placed in its section and a clean raw value,
      with or without a comment. */
  ghost predicate PieceOk(p: Piece) {
    match p
    case Prose(_, line) => (KindOf(line).Body? || KindOf(line).Close?) && Untitled(line)
    case OtherHeading(line) => KindOf(line).OtherHead? && Untitled(line)
    case OtherLine(line) => KindOf(line).Body? && Untitled(line)
    case Gap(_, line) => KindOf(line).Body? && Untitled(line) && !FenceLine(line)
    case Note(_, line) => KindOf(line).Body? && Untitled(line) && !TickLine(line) && Blank(line)
    case Field(sec, key, raw) =>
      Placed(sec, key) && key[|key| - 1] != '.' && CleanRaw(raw) && NoDecoy(FieldText(key, raw))
    case _ => true
  }

  predicate InBlock(p: Piece, sec: Section) { (p.Note? || p.Field?) && p.sec == sec }

  /** What may follow what: sections in any order, other sections and prose between them. */
  predicate Follows(a: Piece, b: Piece) {
    match a
    case Headline(s) => b == Opening(s) || (b.Gap? && b.sec == s)
    case Gap(s, _) => b == Opening(s) || (b.Gap? && b.sec == s)
    case Opening(s) => b == Mark(s)
    case Mark(s) => b == Closing(s) || InBlock(b, s)
    case Note(s, _) => b == Closing(s) || InBlock(b, s)
    case Field(s, _, _) => b == Closing(s) || InBlock(b, s)
    case OtherOpen => b.OtherLine? || b.OtherClose?
    case OtherLine(_) => b.OtherLine? || b.OtherClose?
    case Closing(s) => b.OtherHeading? || b.Headline? || (b.Prose? && b.under == Some(s))
    case Prose(Some(s), _) => b.OtherHeading? || b.Headline? || (b.Prose? && b.under == Some(s))
    case Prose(None, _) => Elsewhere(b)
    case OtherHeading(_) => Elsewhere(b)
    case OtherClose => Elsewhere(b)
  }

  predicate Elsewhere(b: Piece) { b.OtherHeading? || b.Headline? || b.OtherOpen? || (b.Prose? && b.under.None?) }

  /** A document may end where no fence is open and every headline has its block. */
  predicate Ends(p: Piece) { p.Prose? || p.OtherHeading? || p.OtherClose? || p.Closing? }

  /** The key slot a line fills. */
  function KeyOf(p: Piece): Option<(Section, string)> {
    match p
    case Mark(sec) => Some((sec, Name(sec)))
    case Field(sec, key, _) => Some((sec, key))
    case _ => None
  }

  ghost predicate DocumentOk(d: Document) {
    && d != [] && Elsewhere(d[0]) && Ends(d[|d| - 1])
    && (forall i :: 0 <= i < |d| ==> PieceOk(d[i]))
    && (forall i :: 0 <= i < |d| - 1 ==> Follows(d[i], d[i + 1]))
    && (forall sec :: Headline(sec) in d)
    && (forall i, j :: 0 <= i < j < |d| && d[i].Headline? ==> d[i] != d[j])
    && (forall i, j :: 0 <= i < j < |d| && KeyOf(d[i]).Some? ==> KeyOf(d[i]) != KeyOf(d[j]))
  }

  /** Every storable value makes a clean raw value with every comment. */
  lemma {:induction false} RawFits(v: string, comment: string)
    requires Plain(v) && CommentText(comment)
    ensures var raw := Render(v) + comment; CleanRaw(raw) && Meaning(raw) == v && SplitComment(raw).comment == comment
  {
    hide IsSpace;
    hide Storable;
    hide Render;
    hide CleanText;
    hide Contains;
    hide SplitComment;
    RenderFacts(v);
    CommentApart(Render(v), comment);
  }

  // ---------------------------------------------------------------- the fixed lines

  lemma Headers(sec: Section)
    ensures KindOf(Header(sec)) == Head(sec)
  {
    assert Trimmed(Header(sec), SPACES);
    KindIs(Header(sec));
  }

  lemma Fences()
    ensures KindOf("```yaml") == Open && KindOf("```") == Close
    ensures FenceLine("```yaml") && TickLine("```") && Blank("```"[..Find("```", "```", 0)])
  {
    assert Trimmed("```yaml", SPACES) && Trimmed("```", SPACES);
    KindIs("```yaml");
    KindIs("```");
    assert At("```", 0, "```");
    assert "```"[..0] == "";
  }

  lemma MarkerLine(sec: Section)
    ensures KindOf(Name(sec) + ":") == Body && Kv(Name(sec) + ":") == Some(KvLine(0, Name(sec), ""))
    ensures Placed(sec, Name(sec))
  {
    var line := Name(sec) + ":";
    NameIsWord(sec);
    hide WordKey;
    assert line == "" + Name(sec) + ":" + "";
    KvOf("", Name(sec), "", line);
    assert Strip("") == "";
    assert Trimmed(line, SPACES);
    assert Strip(line) == line;
    hide Strip;
    WordStartsBody(line);
  }

  lemma NameIsWord(sec: Section)
    ensures WordKey(Name(sec)) && IsWord((Name(sec) + ":")[0]) && !("phase." <= Name(sec))
  {}

  /** The letters that tell titles apart. */
  lemma TitleLetters(sec: Section)
    ensures var t := Title(sec);
            && Header(sec) == "## " + t && t != "" && t[0] == (match sec case Phase => 'C' case LastPass => 'L' case NextPass => 'N')
            && t[|t| - 1] == (if sec == Phase then 'e' else 's') && (sec != Phase ==> |t| == 9)
    ensures Trimmed(Header(sec), SPACES)
  {}

  /** No fixed line but the section's own header is taken for its title. */
  lemma Titles(sec: Section, other: Section)
    ensures TitleLine(Header(sec), Title(other)) <==> sec == other
  {
    if sec == other {
      TitleHere(sec);
    } else {
      var line, t := Header(sec), Title(other);
      TitleLetters(sec);
      TitleLetters(other);
      hide Header;
      hide Title;
      hide Trimmed;
      Untrimmed(line);
      EndsAt(line, t, 0);
      EndsAt(line, t, |t| - 1);
      assert line[|line| - 1] == Title(sec)[|Title(sec)| - 1];
      assert Lower('C') == 'c' && Lower('L') == 'l' && Lower('N') == 'n';
      if sec != Phase && other != Phase { assert line[|line| - 9] == Title(sec)[0]; }
    }
  }

  lemma EndsAt(s: string, t: string, k: nat)
    requires k < |t|
    ensures EndsLike(s, t) ==> |t| <= |s| && Lower(s[|s| - |t| + k]) == Lower(t[k])
  {}

  lemma TitleHere(sec: Section)
    ensures TitleLine(Header(sec), Title(sec))
  {
    var line, t := Header(sec), Title(sec);
    assert Trimmed(line, SPACES);
    Untrimmed(line);
    assert line == "## " + t;
    var q := line[..|line| - |t|];
    assert q == "## ";
    SkipBackIs(q, 3, SPACES, 2);
    assert q[..2] == "##";
  }

  lemma Untrimmed(s: string)
    requires Trimmed(s, SPACES)
    ensures TrimEnd(s) == s
  {
    SkipBackIs(s, |s|, SPACES, |s|);
    assert s[..|s|] == s;
  }

  lemma NotTitles(s: string, sec: Section)
    requires Trimmed(s, SPACES) && s != "" && s[|s| - 1] in {'l', '`', ':'}
    ensures !TitleLine(s, Title(sec))
  {
    TitleLetters(sec);
    hide Title;
    Untrimmed(s);
    var t := Title(sec);
    EndsAt(s, t, |t| - 1);
  }

  lemma NameTrimmed(sec: Section)
    ensures var s := Name(sec) + ":"; Trimmed(s, SPACES) && s != "" && s[|s| - 1] == ':' && '`' !in s
  {}

  lemma FixedLines(sec: Section, other: Section)
    ensures !TitleLine("```yaml", Title(other)) && !TitleLine("```", Title(other)) && !TitleLine(Name(sec) + ":", Title(other))
    ensures !TickLine(Name(sec) + ":")
  {
    NameTrimmed(sec);
    Tickless(Name(sec) + ":");
    assert "```yaml"[6] == 'l' && "```"[2] == '`';
    hide TitleLine;
    hide TickLine;
    hide Name;
    NotTitles("```yaml", other);
    NotTitles("```", other);
    NotTitles(Name(sec) + ":", other);
  }

  lemma Tickless(line: string)
    requires '`' !in line
    ensures !TickLine(line)
  {
    forall k | 0 <= k <= |line| ensures !At(line, k, "```") {
      if k + 3 <= |line| { assert line[k..k + 3][0] == line[k]; }
    }
    ContainsAt(line, "```");
  }

  // ---------------------------------------------------------------- one line for the parser

  /** The state of the parser before a piece. */
  predicate Before(c: Ctrl, p: Piece) {
    match p
    case Prose(under, _) => !c.inYaml && c.sec == under
    case OtherHeading(_) => !c.inYaml
    case OtherOpen => !c.inYaml && c.sec.None?
    case OtherLine(_) => c.inYaml && c.sec.None?
    case OtherClose => c.inYaml && c.sec.None?
    case Headline(_) => !c.inYaml
    case Gap(sec, _) => !c.inYaml && c.sec == Some(sec)
    case Opening(sec) => !c.inYaml && c.sec == Some(sec)
    case Mark(sec) => c.inYaml && c.sec == Some(sec)
    case Note(sec, _) => c == Ctrl(Some(sec), true, 0)
    case Field(sec, _, _) => c == Ctrl(Some(sec), true, 0)
    case Closing(sec) => c.inYaml && c.sec == Some(sec)
  }

  lemma NoKey(c: Ctrl, line: string)
    requires !KindOf(line).Body? && (KindOf(line).Head? || KindOf(line).OtherHead? ==> !c.inYaml)
    ensures LineOk(c, line) && KeyLine(c, line).None? && Value(c, line).None?
  {
    hide KindOf;
    hide Kv;
  }

  lemma KeyBody(c: Ctrl, line: string, sec: Section, key: string, raw: string, indent: nat)
    requires c.inYaml && c.sec == Some(sec) && KindOf(line) == Body && Kv(line) == Some(KvLine(indent, key, raw))
    requires Placed(sec, key) && (raw != "" ==> indent > c.indent && CleanRaw(raw))
    ensures LineOk(c, line) && KeyLine(c, line) == Kv(line)
    ensures Value(c, line) == if raw == "" then None else Some((Canon(sec, key), raw))
  {
    hide KindOf;
    hide Kv;
    hide WordKey;
    hide CleanRaw;
  }

  /** A blank or comment line carries no key, for either reader. */
  lemma {:induction false} BlankKeyless(line: string)
    requires Blank(line)
    ensures Kv(line).None? && LooseKey(line).None?
  {
    HashIsNoWord();
    hide IsSpace;
    hide IsWord;
    var i := Skip(line, 0, SPACES);
    if i < |line| { StripStart(line[..i], line[i..], line); }
  }

  lemma HashIsNoWord()
    ensures !IsWord('#')
  {}

  lemma {:induction false} FieldTextIs(sec: Section, key: string, raw: string)
    requires PieceOk(Field(sec, key, raw))
    ensures var line := FieldText(key, raw);
            KindOf(line) == Body && Kv(line) == Some(KvLine(2, key, raw)) && raw != "" && Untitled(line) && !TickLine(line)
  {
    hide WordKey;
    hide TitleLine;
    hide TickLine;
    hide KindOf;
    hide Kv;
    hide SplitComment;
    hide CleanText;
    hide FieldText;
    FieldKv(key, raw);
    FieldBody(key, raw);
  }

  lemma {:induction false} FieldKv(key: string, raw: string)
    requires WordKey(key) && Trimmed(raw, SPACES)
    ensures Kv(FieldText(key, raw)) == Some(KvLine(2, key, raw))
  {
    hide IsSpace;
    hide IsWord;
    hide WordKey;
    hide Kv;
    hide MatchField;
    hide LooseKey;
    TwoBlanks();
    KvOf("  ", key, " " + raw, FieldText(key, raw));
    StripPadded(" ", raw, "", SPACES);
    assert " " + raw + "" == " " + raw;
  }

  lemma {:induction false} FieldBody(key: string, raw: string)
    requires WordKey(key)
    ensures KindOf(FieldText(key, raw)) == Body
  {
    hide IsSpace;
    hide IsWord;
    hide WordKey;
    hide KindOf;
    hide Strip;
    TwoBlanks();
    FirstWord(key);
    var line := FieldText(key, raw);
    assert line == "  " + (key + ":" + (" " + raw));
    StripStart("  ", key + ":" + (" " + raw), line);
    WordStartsBody(line);
  }

  lemma FirstWord(key: string)
    requires WordKey(key)
    ensures key != "" && IsWord(key[0]) && key[0] !in SPACES
  {}

  lemma TwoBlanks()
    ensures (forall k :: 0 <= k < |"  "| ==> "  "[k] in SPACES) && ' ' in SPACES
  {}

  function RawOf(p: Piece): Option<(string, string)> {
    if p.Field? then Some((Canon(p.sec, p.key), p.raw)) else None
  }

  /** What the parser makes of a line that stands where it should. */
  lemma {:induction false} PieceRead(c: Ctrl, p: Piece)
    requires PieceOk(p) && Before(c, p)
    ensures LineOk(c, LineOf(p)) && Value(c, LineOf(p)) == RawOf(p)
    ensures match KeyOf(p)
            case None => KeyLine(c, LineOf(p)).None?
            case Some(s) => KeyLine(c, LineOf(p)).Some? && c.sec == Some(s.0) && KeyLine(c, LineOf(p)).value.key == s.1
  {
    hide KindOf;
    hide Kv;
    hide LooseKey;
    hide Untitled;
    hide TickLine;
    hide FenceLine;
    hide Blank;
    hide Placed;
    hide CleanRaw;
    hide NoDecoy;
    hide FieldText;
    hide Canon;
    hide Header;
    hide Name;
    hide LineOk;
    hide Value;
    var line := LineOf(p);
    Fences();
    match p
    case Headline(sec) => Headers(sec); NoKey(c, line);
    case Mark(sec) => MarkerLine(sec); KeyBody(c, line, sec, Name(sec), "", 0);
    case Note(_, _) => BlankKeyless(line); NoteRead(c, line);
    case Field(sec, key, raw) => FieldTextIs(sec, key, raw); KeyBody(c, line, sec, key, raw, 2);
    case Closing(_) => NoKey(c, line);
    case OtherClose => NoKey(c, line);
    case _ => Keyless(c, line);
  }

  lemma NoteRead(c: Ctrl, line: string)
    requires KindOf(line).Body? && Kv(line).None? && LooseKey(line).None?
    ensures LineOk(c, line) && KeyLine(c, line).None? && Value(c, line).None?
  {
    hide KindOf;
    hide Kv;
  }

  lemma Keyless(c: Ctrl, line: string)
    requires !KindOf(line).Head? && (KindOf(line).OtherHead? ==> !c.inYaml) && !(c.inYaml && c.sec.Some?)
    ensures LineOk(c, line) && KeyLine(c, line).None? && Value(c, line).None?
  {
    hide KindOf;
    hide Kv;
  }

  lemma {:induction false} PieceNext(c: Ctrl, p: Piece, q: Piece)
    requires PieceOk(p) && Before(c, p) && Follows(p, q)
    ensures Before(Next(c, LineOf(p)), q)
  {
    hide KindOf;
    hide Kv;
    hide LooseKey;
    hide Next;
    hide Entry;
    hide Untitled;
    hide TickLine;
    hide FenceLine;
    hide Blank;
    hide Placed;
    hide CleanRaw;
    hide NoDecoy;
    hide FieldText;
    hide Header;
    hide Name;
    StepCases(c, LineOf(p));
    Fences();
    match p
    case Headline(sec) => Headers(sec);
    case Mark(sec) => MarkerLine(sec);
    case Note(_, line) => BlankKeyless(line);
    case Field(sec, key, raw) => FieldTextIs(sec, key, raw);
    case _ =>
  }

  // ---------------------------------------------------------------- the document for the parser

  lemma PieceAt(d: Document, i: nat)
    requires DocumentOk(d) && i < |d|
    ensures PieceOk(d[i]) && (i + 1 < |d| ==> Follows(d[i], d[i + 1])) && (i + 1 == |d| ==> Ends(d[i]))
  {
    hide PieceOk;
    hide Follows;
    hide KeyOf;
  }

  lemma {:induction false} StateAt(d: Document, i: nat)
    requires DocumentOk(d) && i < |d|
    ensures Before(CtrlAt(LinesOf(d), i), d[i])
  {
    hide PieceOk;
    hide Follows;
    hide KeyOf;
    hide LinesOf;
    hide LineOf;
    hide Next;
    hide Before;
    if i == 0 {
      StartState(d[0]);
    } else {
      StateAt(d, i - 1);
      PieceAt(d, i - 1);
      PieceNext(CtrlAt(LinesOf(d), i - 1), d[i - 1], d[i]);
    }
  }

  lemma StartState(p: Piece)
    requires Elsewhere(p)
    ensures Before(START, p)
  {}

  lemma {:induction false} LineRead(d: Document, i: nat)
    requires DocumentOk(d) && i < |d|
    ensures var lines := LinesOf(d);
            LineOkAt(lines, i) && Slot(lines, i) == KeyOf(d[i]) && ValueAt(lines, i) == RawOf(d[i])
  {
    hide PieceOk;
    hide Follows;
    hide LinesOf;
    hide LineOf;
    hide CtrlAt;
    hide Before;
    hide LineOk;
    hide Value;
    hide KeyLine;
    hide RawOf;
    StateAt(d, i);
    PieceAt(d, i);
    PieceRead(CtrlAt(LinesOf(d), i), d[i]);
  }

  lemma {:induction false} DocumentWellFormed(d: Document)
    requires DocumentOk(d)
    ensures WellFormed(LinesOf(d))
  {
    hide PieceOk;
    hide Follows;
    hide LinesOf;
    hide KeyOf;
    hide RawOf;
    hide Slot;
    hide LineOkAt;
    hide ValueAt;
    var lines := LinesOf(d);
    forall i | 0 <= i < |lines| ensures LineOkAt(lines, i) { LineRead(d, i); }
    forall i, j | 0 <= i < j < |lines| && Slot(lines, i).Some? ensures Slot(lines, i) != Slot(lines, j) {
      LineRead(d, i);
      LineRead(d, j);
    }
  }

  // ---------------------------------------------------------------- the document for the bridge

  /** Only a section's headline is taken for its title. */
  lemma {:induction false} TitleOnly(d: Document, i: nat, sec: Section)
    requires DocumentOk(d) && i < |d|
    ensures TitleLine(LineOf(d[i]), Title(sec)) <==> d[i] == Headline(sec)
  {
    hide TitleLine;
    hide TickLine;
    hide FenceLine;
    hide KindOf;
    hide Blank;
    hide Placed;
    hide CleanRaw;
    hide NoDecoy;
    hide FieldText;
    hide Header;
    hide Name;
    PieceAt(d, i);
    hide DocumentOk;
    hide Follows;
    match d[i]
    case Headline(s) => Titles(s, sec);
    case OtherOpen => FixedLines(sec, sec);
    case OtherClose => FixedLines(sec, sec);
    case Opening(_) => FixedLines(sec, sec);
    case Mark(s) => FixedLines(s, sec);
    case Closing(_) => FixedLines(sec, sec);
    case Field(s, key, raw) => FieldTextIs(s, key, raw);
    case _ =>
  }

  lemma {:induction false} NextTitleIs(lines: seq<string>, t: string, i: nat, r: nat)
    requires i <= r < |lines| && TitleLine(lines[r], t) && forall k :: i <= k < r ==> !TitleLine(lines[k], t)
    ensures NextTitle(lines, t, i) == Some(r)
    decreases r - i
  {
    hide TitleLine;
    if i < r { NextTitleIs(lines, t, i + 1, r); }
  }

  lemma {:induction false} NextTicksIs(lines: seq<string>, i: nat, r: nat)
    requires i <= r < |lines| && TickLine(lines[r]) && forall k :: i <= k < r ==> !TickLine(lines[k])
    ensures NextTicks(lines, i) == Some(r)
    decreases r - i
  {
    hide TickLine;
    if i < r { NextTicksIs(lines, i + 1, r); }
  }

  lemma {:induction false} NextFenceIs(lines: seq<string>, i: nat, r: nat)
    requires i <= r < |lines| && FenceLine(lines[r]) && forall k :: i <= k < r ==> !FenceLine(lines[k])
    ensures NextFence(lines, i) == Some(r)
    decreases r - i
  {
    hide FenceLine;
    if i < r { NextFenceIs(lines, i + 1, r); }
  }

  lemma Outward(d: Document, i: nat, sec: Section)
    requires DocumentOk(d) && i < |d| && (d[i] == Headline(sec) || (d[i].Gap? && d[i].sec == sec))
    ensures i + 1 < |d| && (d[i + 1] == Opening(sec) || (d[i + 1].Gap? && d[i + 1].sec == sec))
  {
    PieceAt(d, i);
    hide DocumentOk;
    hide PieceOk;
  }

  lemma Inward(d: Document, i: nat, sec: Section)
    requires DocumentOk(d) && i < |d| && (d[i] == Mark(sec) || InBlock(d[i], sec))
    ensures i + 1 < |d| && (d[i + 1] == Closing(sec) || InBlock(d[i + 1], sec))
  {
    PieceAt(d, i);
    hide DocumentOk;
    hide PieceOk;
  }

  /** From a headline on: its gap, then the opening of its fence. */
  lemma {:induction false} FindOpening(d: Document, i: nat, sec: Section) returns (o: nat)
    requires DocumentOk(d) && i < |d| && (d[i] == Headline(sec) || (d[i].Gap? && d[i].sec == sec))
    ensures i < o < |d| && d[o] == Opening(sec) && forall k :: i < k < o ==> d[k].Gap?
    decreases |d| - i
  {
    hide DocumentOk;
    Outward(d, i, sec);
    if d[i + 1] == Opening(sec) { o := i + 1; } else { o := FindOpening(d, i + 1, sec); }
  }

  /** From a line inside a block on: more of it, then the closing of its fence. */
  lemma {:induction false} FindClosing(d: Document, i: nat, sec: Section) returns (e: nat)
    requires DocumentOk(d) && i < |d| && (d[i] == Mark(sec) || InBlock(d[i], sec))
    ensures i < e < |d| && d[e] == Closing(sec) && forall k :: i < k < e ==> InBlock(d[k], sec)
    decreases |d| - i
  {
    hide DocumentOk;
    hide InBlock;
    Inward(d, i, sec);
    if d[i + 1] == Closing(sec) { e := i + 1; } else { e := FindClosing(d, i + 1, sec); }
  }

  lemma FirstOutside(d: Document)
    requires DocumentOk(d)
    ensures d != [] && !d[0].Note? && !d[0].Field?
  {
    hide PieceOk;
    hide Follows;
    hide KeyOf;
  }

  /** And backwards: the block of a field begins with its marker. */
  lemma {:induction false} FindMark(d: Document, i: nat, sec: Section) returns (m: nat)
    requires DocumentOk(d) && i < |d| && InBlock(d[i], sec)
    ensures m < i && d[m] == Mark(sec) && forall k :: m < k <= i ==> InBlock(d[k], sec)
  {
    hide DocumentOk;
    hide PieceOk;
    FirstOutside(d);
    PieceAt(d, i - 1);
    if InBlock(d[i - 1], sec) { m := FindMark(d, i - 1, sec); } else { m := i - 1; }
  }

  lemma OneMark(d: Document, i: nat, j: nat, sec: Section)
    requires DocumentOk(d) && i < |d| && j < |d| && d[i] == Mark(sec) && d[j] == Mark(sec)
    ensures i == j
  {
    hide PieceOk;
    hide Follows;
    assert KeyOf(d[i]).Some? && KeyOf(d[i]) == KeyOf(d[j]);
  }

  /** Where the block of a section stands, for the bridge as for the parser. */
  lemma {:induction false} BlockOf(d: Document, sec: Section) returns (o: nat, e: nat)
    requires DocumentOk(d)
    ensures o + 1 < e < |d| && d[o] == Opening(sec) && d[o + 1] == Mark(sec) && d[e] == Closing(sec)
    ensures forall k :: o + 1 < k < e ==> InBlock(d[k], sec)
    ensures BlockSpan(LinesOf(d), Title(sec)) == Some(Span(o, e))
  {
    hide DocumentOk;
    hide LinesOf;
    hide InBlock;
    hide BlockSpan;
    var h := HeadlineAt(d, sec);
    o := FindOpening(d, h, sec);
    MarkBehind(d, o, sec);
    e := FindClosing(d, o + 1, sec);
    SpanAt(d, h, o, e, sec);
  }

  lemma MarkBehind(d: Document, o: nat, sec: Section)
    requires DocumentOk(d) && o < |d| && d[o] == Opening(sec)
    ensures o + 1 < |d| && d[o + 1] == Mark(sec)
  {
    PieceAt(d, o);
    hide DocumentOk;
    hide PieceOk;
  }

  lemma {:induction false} SpanAt(d: Document, h: nat, o: nat, e: nat, sec: Section)
    requires DocumentOk(d) && h < o && o + 1 < e < |d| && d[h] == Headline(sec) && d[o] == Opening(sec)
    requires d[o + 1] == Mark(sec) && d[e] == Closing(sec)
    requires (forall k :: h < k < o ==> d[k].Gap?) && (forall k :: o + 1 < k < e ==> InBlock(d[k], sec))
    ensures BlockSpan(LinesOf(d), Title(sec)) == Some(Span(o, e))
  {
    hide DocumentOk;
    hide LinesOf;
    hide InBlock;
    hide NextTitle;
    hide NextFence;
    hide NextTicks;
    hide TickLine;
    TitleAt(d, h, sec);
    FenceAt(d, h, o, sec);
    TicksAt(d, o, e, sec);
  }

  lemma HeadlineAt(d: Document, sec: Section) returns (h: nat)
    requires DocumentOk(d)
    ensures h < |d| && d[h] == Headline(sec)
  {
    hide PieceOk;
    hide Follows;
    hide KeyOf;
    assert Headline(sec) in d;
    h :| h < |d| && d[h] == Headline(sec);
  }

  lemma {:induction false} TitleAt(d: Document, h: nat, sec: Section)
    requires DocumentOk(d) && h < |d| && d[h] == Headline(sec)
    ensures NextTitle(LinesOf(d), Title(sec), 0) == Some(h)
  {
    hide LinesOf;
    hide LineOf;
    hide TitleLine;
    hide PieceOk;
    hide Follows;
    hide KeyOf;
    TitleOnly(d, h, sec);
    forall k | 0 <= k < h ensures !TitleLine(LinesOf(d)[k], Title(sec)) { TitleOnly(d, k, sec); }
    NextTitleIs(LinesOf(d), Title(sec), 0, h);
  }

  lemma {:induction false} FenceAt(d: Document, h: nat, o: nat, sec: Section)
    requires DocumentOk(d) && h < o < |d| && d[o] == Opening(sec) && forall k :: h < k < o ==> d[k].Gap?
    ensures NextFence(LinesOf(d), h + 1) == Some(o)
  {
    hide LinesOf;
    hide FenceLine;
    hide TickLine;
    hide Untitled;
    hide KindOf;
    Fences();
    forall k | h < k < o ensures !FenceLine(LinesOf(d)[k]) {
      PieceAt(d, k);
      hide DocumentOk;
    }
    hide DocumentOk;
    NextFenceIs(LinesOf(d), h + 1, o);
  }

  lemma {:induction false} TicksAt(d: Document, o: nat, e: nat, sec: Section)
    requires DocumentOk(d) && o + 1 < e < |d| && d[o + 1] == Mark(sec) && d[e] == Closing(sec)
    requires forall k :: o + 1 < k < e ==> InBlock(d[k], sec)
    ensures NextTicks(LinesOf(d), o + 1) == Some(e)
  {
    hide LinesOf;
    hide FenceLine;
    hide TickLine;
    hide TitleLine;
    hide KindOf;
    hide Blank;
    hide Placed;
    hide CleanRaw;
    hide FieldText;
    hide NoDecoy;
    hide Name;
    Fences();
    FixedLines(sec, sec);
    forall k | o < k < e ensures !TickLine(LinesOf(d)[k]) {
      PieceAt(d, k);
      hide DocumentOk;
      hide Follows;
      if d[k].Field? { FieldTextIs(d[k].sec, d[k].key, d[k].raw); }
    }
    hide DocumentOk;
    NextTicksIs(LinesOf(d), o + 1, e);
  }

  lemma {:induction false} PlainField(d: Document, i: nat)
    requires DocumentOk(d) && i < |d| && d[i].Field?
    ensures PlainValue(LinesOf(d), i, d[i].sec, 2)
  {
    hide LinesOf;
    hide Kv;
    hide KindOf;
    hide ValueAt;
    hide CtrlAt;
    hide Slot;
    hide LineOkAt;
    hide TitleLine;
    hide TickLine;
    hide CleanRaw;
    hide FieldText;
    hide Canon;
    hide NoDecoy;
    LineRead(d, i);
    StateAt(d, i);
    PieceAt(d, i);
    hide DocumentOk;
    hide Follows;
    hide WordKey;
    FieldTextIs(d[i].sec, d[i].key, d[i].raw);
  }

  lemma {:induction false} NoteBlank(d: Document, i: nat)
    requires DocumentOk(d) && i < |d| && d[i].Note?
    ensures Blank(LinesOf(d)[i])
  {
    hide LinesOf;
    hide KindOf;
    hide Blank;
    hide TickLine;
    hide Untitled;
    PieceAt(d, i);
    hide DocumentOk;
    hide Follows;
  }

  lemma {:induction false} FieldInBlock(d: Document, o: nat, e: nat, sec: Section, i: nat)
    requires DocumentOk(d) && o + 1 < e < |d| && d[o + 1] == Mark(sec) && d[e] == Closing(sec) && i < |d|
    requires d[i].Field? && d[i].sec == sec
    ensures o + 1 < i < e
  {
    var m := FindMark(d, i, sec);
    OneMark(d, m, o + 1, sec);
    hide DocumentOk;
    assert !InBlock(d[e], sec);
  }

  /** A value line of a section is one of its fields. */
  lemma {:induction false} ValueIsField(d: Document, i: nat)
    requires DocumentOk(d) && i < |d| && ValueAt(LinesOf(d), i).Some?
    ensures d[i].Field? && CtrlAt(LinesOf(d), i).sec == Some(d[i].sec)
    ensures ValueAt(LinesOf(d), i) == Some((Canon(d[i].sec, d[i].key), d[i].raw))
  {
    hide LinesOf;
    hide ValueAt;
    hide CtrlAt;
    hide Slot;
    hide LineOkAt;
    hide Canon;
    LineRead(d, i);
    StateAt(d, i);
    hide DocumentOk;
  }

  lemma {:induction false} DocumentLaidOut(d: Document, sec: Section)
    requires DocumentOk(d)
    ensures LaidOut(LinesOf(d), sec)
  {
    hide DocumentOk;
    hide LinesOf;
    hide ValueAt;
    hide CtrlAt;
    hide Blank;
    hide Kv;
    hide BlockSpan;
    hide PlainValue;
    hide KindOf;
    hide Placed;
    hide Name;
    hide Find;
    var lines := LinesOf(d);
    var o, e := BlockOf(d, sec);
    MarkerLine(sec);
    Fences();
    forall i | o + 1 < i < e ensures Blank(lines[i]) || PlainValue(lines, i, sec, 2) {
      if d[i].Field? { PlainField(d, i); } else { NoteBlank(d, i); }
    }
    forall i | 0 <= i < |lines| && ValueAt(lines, i).Some? && CtrlAt(lines, i).sec == Some(sec)
      ensures o + 1 < i < e && PlainValue(lines, i, sec, 2)
    {
      ValueIsField(d, i);
      FieldInBlock(d, o, e, sec, i);
      PlainField(d, i);
    }
    assert Layout(lines, sec, o + 1, 0, 2);
  }

  lemma {:induction false} FieldNoDecoy(d: Document, i: nat)
    requires DocumentOk(d) && i < |d| && d[i].Field?
    ensures NoDecoy(LinesOf(d)[i])
  {
    hide LinesOf;
    hide NoDecoy;
    hide CleanRaw;
    hide Placed;
    hide FieldText;
    PieceAt(d, i);
    hide DocumentOk;
    hide Follows;
  }

  /** Every document laid out like the template, with prose, other sections, notes and comments anywhere, is one
      that the mutator, the engine's parser and the bridge all handle; it says for every field what the field's
      raw value means, and nothing else; and exactly the fields whose raw value has a comment are commented. */
  lemma {:induction false} TemplateReads(d: Document)
    requires DocumentOk(d)
    ensures BridgeOk(LinesOf(d))
    ensures forall i :: 0 <= i < |d| && d[i].Field? ==>
              var f := Canon(d[i].sec, d[i].key);
              && f in Doc(LinesOf(d)) && Doc(LinesOf(d))[f] == Meaning(d[i].raw)
              && (Uncommented(LinesOf(d), f) <==> SplitComment(d[i].raw).comment == "")
    ensures forall f :: f in Doc(LinesOf(d)) ==> exists i :: 0 <= i < |d| && d[i].Field? && f == Canon(d[i].sec, d[i].key)
  {
    hide DocumentOk;
    hide LinesOf;
    hide LaidOut;
    hide WellFormed;
    hide NoDecoy;
    hide Canon;
    hide Cells;
    hide ValueAt;
    hide CtrlAt;
    hide Uncommented;
    hide Meaning;
    hide SplitComment;
    var lines := LinesOf(d);
    DocumentWellFormed(d);
    forall i | 0 <= i < |lines| && ValueAt(lines, i).Some? ensures NoDecoy(lines[i]) {
      ValueIsField(d, i);
      FieldNoDecoy(d, i);
    }
    forall sec ensures LaidOut(lines, sec) { DocumentLaidOut(d, sec); }
    forall i | 0 <= i < |d| && d[i].Field?
      ensures var f := Canon(d[i].sec, d[i].key);
              f in Doc(lines) && Doc(lines)[f] == Meaning(d[i].raw) && (Uncommented(lines, f) <==> SplitComment(d[i].raw).comment == "")
    {
      FieldReads(d, i);
    }
    forall f | f in Doc(lines) ensures exists i :: 0 <= i < |d| && d[i].Field? && f == Canon(d[i].sec, d[i].key) {
      var i := FieldLine(lines, |lines|, f);
      ValueIsField(d, i);
    }
  }

  lemma {:induction false} FieldReads(d: Document, i: nat)
    requires DocumentOk(d) && i < |d| && d[i].Field?
    ensures var f := Canon(d[i].sec, d[i].key);
            && f in Doc(LinesOf(d)) && Doc(LinesOf(d))[f] == Meaning(d[i].raw)
            && (Uncommented(LinesOf(d), f) <==> SplitComment(d[i].raw).comment == "")
  {
    hide DocumentOk;
    hide LinesOf;
    hide LineOkAt;
    hide Slot;
    hide WellFormed;
    hide Canon;
    hide Cells;
    hide ValueAt;
    hide Uncommented;
    hide Meaning;
    hide SplitComment;
    var lines, f := LinesOf(d), Canon(d[i].sec, d[i].key);
    LineRead(d, i);
    assert ValueAt(lines, i) == Some((f, d[i].raw));
    ValueInCells(lines, |lines|, i);
    var j := FieldLine(lines, |lines|, f);
    DocumentWellFormed(d);
    NamesDistinct(lines, i, j);
    CommentOfField(lines, f, i);
  }

  // ---------------------------------------------------------------- a document of each kind of piece

  const EXAMPLE: Document := [
    OtherHeading("## Mission"), Prose(None, ""), OtherOpen, OtherLine("- a"), OtherClose,
    Headline(Phase), Gap(Phase, ""), Opening(Phase), Mark(Phase), Field(Phase, "name", "\"\"  # any"), Note(Phase, "  # kept"),
    Closing(Phase), Prose(Some(Phase), ""),
    Headline(LastPass), Opening(LastPass), Mark(LastPass), Closing(LastPass),
    Headline(NextPass), Opening(NextPass), Mark(NextPass), Closing(NextPass)]

  /** There are such documents, with a piece of every kind and a commented value. */
  lemma ExampleOk()
    ensures DocumentOk(EXAMPLE)
  {
    ExamplePieces();
    ExampleKeys();
    ExampleFollows();
    ExampleHeadlines();
    assert Elsewhere(EXAMPLE[0]) && Ends(EXAMPLE[|EXAMPLE| - 1]);
    hide PieceOk;
    hide KeyOf;
    hide Follows;
  }

  lemma ExampleFollows()
    ensures forall i :: 0 <= i < |EXAMPLE| - 1 ==> Follows(EXAMPLE[i], EXAMPLE[i + 1])
  {}

  lemma ExampleHeadlines()
    ensures forall sec :: Headline(sec) in EXAMPLE
    ensures forall i, j :: 0 <= i < j < |EXAMPLE| && EXAMPLE[i].Headline? ==> EXAMPLE[i] != EXAMPLE[j]
  {
    assert EXAMPLE[5] == Headline(Phase) && EXAMPLE[13] == Headline(LastPass) && EXAMPLE[17] == Headline(NextPass);
    forall sec ensures Headline(sec) in EXAMPLE {
      match sec case Phase => case LastPass => case NextPass =>
    }
    forall i | 0 <= i < |EXAMPLE| && EXAMPLE[i].Headline? ensures i == ExamplePlace(EXAMPLE[i].sec) { ExampleHeadline(i); }
  }

  function ExamplePlace(sec: Section): nat { match sec case Phase => 5 case LastPass => 13 case NextPass => 17 }

  lemma ExampleHeadline(i: nat)
    requires i < |EXAMPLE| && EXAMPLE[i].Headline?
    ensures i == ExamplePlace(EXAMPLE[i].sec)
  {}

  lemma ExamplePieces()
    ensures forall i :: 0 <= i < |EXAMPLE| ==> PieceOk(EXAMPLE[i])
  {
    MissionLine();
    EmptyLine();
    ListLine();
    KeptLine();
    NameField();
    hide KindOf;
    hide Untitled;
    hide Blank;
    hide TickLine;
    hide FenceLine;
    hide Placed;
    hide CleanRaw;
    hide NoDecoy;
  }

  lemma ExampleKeys()
    ensures forall i, j :: 0 <= i < j < |EXAMPLE| && KeyOf(EXAMPLE[i]).Some? ==> KeyOf(EXAMPLE[i]) != KeyOf(EXAMPLE[j])
  {
    assert "name" != "phase";
  }

  lemma Untitles(line: string)
    requires line != "" ==> line[|line| - 1] !in SPACES && Lower(line[|line| - 1]) !in {'e', 's'}
    ensures Untitled(line) && TrimEnd(line) == line
  {
    SkipBackIs(line, |line|, SPACES, |line|);
    assert line[..|line|] == line;
    EndsAt(line, Title(Phase), |Title(Phase)| - 1);
    EndsAt(line, Title(LastPass), |Title(LastPass)| - 1);
    EndsAt(line, Title(NextPass), |Title(NextPass)| - 1);
  }

  lemma MissionLine()
    ensures KindOf("## Mission").OtherHead? && Untitled("## Mission")
  {
    assert Trimmed("## Mission", SPACES);
    Untitles("## Mission");
    KindIs("## Mission");
    assert "## Mission"[3] == 'M' && Header(Phase)[3] == 'C' && Header(LastPass)[3] == 'L' && Header(NextPass)[3] == 'N';
  }

  lemma EmptyLine()
    ensures KindOf("").Body? && Untitled("") && !FenceLine("")
  {
    Untitles("");
  }

  lemma ListLine()
    ensures KindOf("- a").Body? && Untitled("- a")
  {
    assert Trimmed("- a", SPACES);
    Untitles("- a");
    KindIs("- a");
    assert "- a"[0] == '-';
  }

  lemma KeptLine()
    ensures var line := "  # kept"; KindOf(line).Body? && Untitled(line) && !TickLine(line) && Blank(line)
  {
    var line, s := "  # kept", "# kept";
    TwoBlanks();
    assert line == "  " + s + "" && Trimmed(s, SPACES);
    StripPadded("  ", s, "", SPACES);
    hide StripOf;
    assert line[7] == 't' && s[0] == '#' && s[1] == ' ';
    Untitles(line);
    Tickless(line);
    hide Untitled;
    hide TickLine;
    KindIs(line);
    assert Header(Phase)[1] == '#' && Header(LastPass)[1] == '#' && Header(NextPass)[1] == '#' && "## "[1] == '#';
  }

  lemma NameField()
    ensures PieceOk(Field(Phase, "name", "\"\"  # any"))
  {
    NameRaw();
    NameKey();
    NameText();
    hide CleanRaw;
    hide Placed;
    hide NoDecoy;
    hide FieldText;
  }

  lemma NameRaw()
    ensures CleanRaw("\"\"  # any")
  {
    assert Plain("") && CommentText("  # any");
    assert Render("") == "\"\"" && "\"\"" + "  # any" == "\"\"  # any";
    hide CleanRaw;
    RawFits("", "  # any");
  }

  lemma NameKey()
    ensures Placed(Phase, "name") && "name"[3] == 'e'
  {}

  lemma NameText()
    ensures NoDecoy(FieldText("name", "\"\"  # any"))
  {
    var line := FieldText("name", "\"\"  # any");
    assert line == "  name: \"\"  # any";
    assert line[|line| - 1] == 'y' && '`' !in line;
    hide FieldText;
    hide TickLine;
    hide TitleLine;
    Untitles(line);
    Tickless(line);
  }
}
