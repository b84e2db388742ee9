/** The configuration file language as functions: lines, comments, sections, assignments and quoted lists. */
module ConfigModel {
  import opened Basics

  predicate Space(c: char) {
    c in " \n\r\t"
  }

  /** Without the white space at the end. */
  function RTrim(s: string): (r: string)
    ensures r <= s && (r != [] ==> !Space(r[|r| - 1]))
  {
    if s != [] && Space(s[|s| - 1]) then RTrim(s[..|s| - 1]) else s
  }

  /** Without the white space at the start. */
  function LTrim(s: string): (r: string)
    ensures r != [] ==> !Space(r[0])
  {
    if s != [] && Space(s[0]) then LTrim(s[1..]) else s
  }

  predicate Blank(s: string) {
    forall i :: 0 <= i < |s| ==> Space(s[i])
  }

  /** Index of the first occurrence, or the length. */
  function IndexOf(s: string, c: char): (i: nat)
    ensures i <= |s| && (i < |s| ==> s[i] == c) && forall j :: 0 <= j < i ==> s[j] != c
  {
    if s == [] || s[0] == c then 0 else 1 + IndexOf(s[1..], c)
  }

  // Lines

  function SplitLines(s: string): seq<string> {
    if s == [] then []
    else
      var i := IndexOf(s, '\n');
      [RTrim(s[..i])] + (if i == |s| then [] else SplitLines(s[i + 1..]))
  }

  const NONE := '\0'

  /** The open string delimiter after one more character. */
  function Advance(open: char, c: char): char {
    if c == '"' || c == '\'' then
      if open == NONE then c else if open == c then NONE else open
    else open
  }

  /** Everything before the first '#' outside a string. */
  function CutComment(s: string, open: char): string {
    if s == [] || (s[0] == '#' && open == NONE) then []
    else [s[0]] + CutComment(s[1..], Advance(open, s[0]))
  }

  function FilterLine(line: string): string {
    RTrim(CutComment(line, NONE))
  }

  function FilterLines(lines: seq<string>): (r: seq<string>)
    ensures forall i :: 0 <= i < |r| ==> r[i] != []
  {
    if lines == [] then []
    else if FilterLine(lines[0]) == [] then FilterLines(lines[1..])
    else [FilterLine(lines[0])] + FilterLines(lines[1..])
  }

  // Sections and assignments

  type Sections = map<string, map<string, string>>

  datatype Parsed = Parsed(section: string, sections: Sections)

  /** operator[] of nested std::map: absent entries are inserted. */
  function Assign(m: Sections, section: string, term: string, value: string): Sections {
    var entries := if section in m then m[section] else map[];
    m[section := entries[term := value]]
  }

  predicate IsHeader(line: string)
    requires line != []
  {
    line[0] == '[' && line[|line| - 1] == ']'
  }

  /** A header line opens a section; any other line assigns what follows the first '='. A line without '=' is
      both term and value. */
  function ParseLine(p: Parsed, line: string): Parsed
    requires line != []
  {
    if IsHeader(line) then p.(section := line[1..|line| - 1])
    else
      var i := IndexOf(line, '=');
      p.(sections := Assign(p.sections, p.section, line[..i], if i < |line| then line[i + 1..] else line))
  }

  function ParseFrom(p: Parsed, lines: seq<string>): Parsed
    requires forall i :: 0 <= i < |lines| ==> lines[i] != []
    decreases |lines|
  {
    if lines == [] then p else ParseFrom(ParseLine(p, lines[0]), lines[1..])
  }

  const INITIAL := Parsed("global", map[])

  function Load(text: string): Sections {
    ParseFrom(INITIAL, FilterLines(SplitLines(text))).sections
  }

  predicate Has(m: Sections, section: string, term: string) {
    section in m && term in m[section]
  }

  // Values and lists

  function Unquote(s: string): string {
    if s == [] then s else if |s| == 1 then [] else s[1..|s| - 1]
  }

  function Value(m: Sections, section: string, term: string, default: string, cutQuotes: bool): string {
    if Has(m, section, term) then
      var v := m[section][term];
      if cutQuotes && v != [] && v[0] == '"' && v[|v| - 1] == '"' then Unquote(v) else v
    else default
  }

  /** The pieces between the commas outside strings; there is always at least one. */
  function SplitTop(s: string, open: char): (r: seq<string>)
    ensures r != []
  {
    if s == [] then [[]]
    else if s[0] == ',' && open == NONE then [[]] + SplitTop(s[1..], NONE)
    else Prepend([s[0]], SplitTop(s[1..], Advance(open, s[0])))
  }

  function Prepend(s: string, r: seq<string>): seq<string>
    requires r != []
  {
    [s + r[0]] + r[1..]
  }

  /** One piece without surrounding white space and quotes; None stands for the out-of-range exception that the
      source throws on a blank piece. */
  function Clean(piece: string): Option<string> {
    var trimmed := RTrim(piece);
    if trimmed == [] then None
    else
      var s := LTrim(trimmed);
      if s != [] && ((s[0] == '"' && s[|s| - 1] == '"') || (s[0] == '\'' && s[|s| - 1] == '\'')) then Some(Unquote(s))
      else Some(s)
  }

  function CleanAll(pieces: seq<string>): Option<seq<string>> {
    if pieces == [] then Some([])
    else
      match CleanAll(pieces[..|pieces| - 1])
      case None => None
      case Some(items) =>
        match Clean(pieces[|pieces| - 1])
        case None => None
        case Some(item) => Some(items + [item])
  }

  function List(m: Sections, section: string, term: string): Option<seq<string>> {
    CleanAll(SplitTop(Value(m, section, term, "", false), NONE))
  }
}
