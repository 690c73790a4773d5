/** The bridge's own reader of LONGRUNNER.md (sources.py): it cuts the fenced block out of the text and
    flattens it with an indentation stack. It shares no code with the engine's parser. */
module BridgeParser {
  import opened Text
  import opened Wrappers
  import opened YamlLine
  import opened Longrunner

  // ---------------------------------------------------------------- finding the block

  function TrimEnd(s: string): string { s[..SkipBack(s, |s|, SPACES)] }

  /** s ends with t, letters compared without case. */
  predicate EndsLike(s: string, t: string) {
    |t| <= |s| && forall k :: 0 <= k < |t| ==> Lower(s[|s| - |t| + k]) == Lower(t[k])
  }

  function Title(sec: Section): string {
    match sec
    case Phase => "Current Phase"
    case LastPass => "Last Pass"
    case NextPass => "Next Pass"
  }

  /** The line ends with  ##\s+title\s*  */
  predicate TitleLine(line: string, t: string) {
    var r := TrimEnd(line);
    && EndsLike(r, t)
    && var q := r[..|r| - |t|];
       |TrimEnd(q)| < |q| && EndsLike(TrimEnd(q), "##")
  }

  /** The line ends with  ```yaml\s*  */
  predicate FenceLine(line: string) { EndsLike(TrimEnd(line), "```yaml") }

  predicate TickLine(line: string) { Contains(line, "```") }

  function NextTitle(lines: seq<string>, t: string, i: nat): (r: Option<nat>)
    requires i <= |lines|
    ensures r.Some? ==> i <= r.value < |lines|
    decreases |lines| - i
  {
    if i == |lines| then None else if TitleLine(lines[i], t) then Some(i) else NextTitle(lines, t, i + 1)
  }

  function NextFence(lines: seq<string>, i: nat): (r: Option<nat>)
    requires i <= |lines|
    ensures r.Some? ==> i <= r.value < |lines|
    decreases |lines| - i
  {
    if i == |lines| then None else if FenceLine(lines[i]) then Some(i) else NextFence(lines, i + 1)
  }

  function NextTicks(lines: seq<string>, i: nat): (r: Option<nat>)
    requires i <= |lines|
    ensures r.Some? ==> i <= r.value < |lines| && TickLine(lines[r.value])
    decreases |lines| - i
  {
    if i == |lines| then None else if TickLine(lines[i]) then Some(i) else NextTicks(lines, i + 1)
  }

  datatype Span = Span(open: nat, end: nat)

  /** The opening and closing lines of the block under a title. */
  function BlockSpan(lines: seq<string>, t: string): (r: Option<Span>)
    ensures r.Some? ==> r.value.open < r.value.end < |lines| && TickLine(lines[r.value.end])
  {
    var h := NextTitle(lines, t, 0);
    if h.None? then None else
    var o := NextFence(lines, h.value + 1);
    if o.None? then None else
    var e := NextTicks(lines, o.value + 1);
    if e.None? then None else Some(Span(o.value, e.value))
  }

  /** The lines of the block; the closing line counts up to its back-ticks. */
  function BlockLines(lines: seq<string>, t: string): seq<string> {
    match BlockSpan(lines, t)
    case None => []
    case Some(s) => lines[s.open + 1..s.end] + [lines[s.end][..Find(lines[s.end], "```", 0)]]
  }

  // ---------------------------------------------------------------- flattening it

  /** A Python dict as the list of its items in insertion order. */
  type Items = seq<(string, string)>

  function Assign(m: Items, k: string, v: string): (r: Items)
    ensures (forall i :: 0 <= i < |m| ==> m[i].0 != k) ==> r == m + [(k, v)]
  {
    if m == [] then [(k, v)]
    else if m[0].0 == k then [(k, v)] + m[1..]
    else [m[0]] + Assign(m[1..], k, v)
  }

  type Stack = seq<(nat, string)>

  datatype Flat = Flat(out: Items, stack: Stack)

  function Pop(stack: Stack, indent: nat): (r: Stack)
    ensures r <= stack
  {
    if stack != [] && stack[|stack| - 1].0 >= indent then Pop(stack[..|stack| - 1], indent) else stack
  }

  predicate BridgeNull(v: string) { v == "" || v == "~" || v == "null" || v == "[]" }

  function FlatStep(f: Flat, raw: string): Flat {
    if Strip(raw) == "" || Strip(raw)[0] == '#' then f else
    var indent := Skip(raw, 0, SPACES);
    var stripped := raw[indent..];
    var stack := Pop(f.stack, indent);
    var prefix := if stack != [] then stack[|stack| - 1].1 + "." else "";
    var c := Upto(stripped, 0, ':');
    if c == |stripped| then Flat(f.out, stack) else
    var k := StripOf(Strip(stripped[..c]), QUOTES);
    var v := StripOf(Strip(stripped[c + 1..]), QUOTES);
    var full := StripOf(prefix + k, {'.'});
    if BridgeNull(v) then Flat(f.out, stack + [(indent, full)])
    else Flat(Assign(f.out, full, v), stack)
  }

  function Flatten(block: seq<string>, n: nat): Flat
    requires n <= |block|
  {
    if n == 0 then Flat([], []) else FlatStep(Flatten(block, n - 1), block[n - 1])
  }

  /** The value of the last item whose name continues with the key behind its first dot, or nothing. */
  function Lookup(m: Items, key: string): string {
    if m == [] then "" else
    var (k, v) := m[|m| - 1];
    var d := Upto(k, 0, '.');
    if d < |k| && k[d + 1..] == key then v else Lookup(m[..|m| - 1], key)
  }

  function Get(lines: seq<string>, sec: Section, key: string): string {
    var block := BlockLines(lines, Title(sec));
    Lookup(Flatten(block, |block|).out, key)
  }

  /** The loop of _parse_yaml_flat. */
  method ParseYamlFlat(text: seq<string>) returns (out: Items)
    ensures out == Flatten(text, |text|).out
  {
    hide Strip;
    hide StripOf;
    hide BridgeNull;
    hide Assign;
    out := [];
    var stack: Stack := [];
    for i := 0 to |text|
      invariant Flat(out, stack) == Flatten(text, i)
    {
      var raw := text[i];
      if Strip(raw) == "" || Strip(raw)[0] == '#' {
        continue;
      }
      var indent := Skip(raw, 0, SPACES);
      var stripped := raw[indent..];
      ghost var before := stack;
      while stack != [] && stack[|stack| - 1].0 >= indent
        invariant Pop(stack, indent) == Pop(before, indent)
        decreases |stack|
      {
        stack := stack[..|stack| - 1];
      }
      var prefix := if stack != [] then stack[|stack| - 1].1 + "." else "";
      var c := Upto(stripped, 0, ':');
      if c == |stripped| {
        continue;
      }
      var k := StripOf(Strip(stripped[..c]), QUOTES);
      var v := StripOf(Strip(stripped[c + 1..]), QUOTES);
      var full := StripOf(prefix + k, {'.'});
      if !BridgeNull(v) {
        out := Assign(out, full, v);
      } else {
        stack := stack + [(indent, full)];
      }
    }
  }
}
