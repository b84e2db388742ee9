/** Writing a configuration and loading it again: every list comes back item by item. */
module ConfigRoundTrip {
  import opened Basics
  import opened ConfigModel

  // Documents

  /** An item of a list, in double quotes, in single quotes, or bare. */
  datatype Item = Item(text: string, quote: char)

  /** A line of a configuration file. White space may follow an assignment, and then a comment. A flag is a line without
      '='. */
  datatype Line =
    | Section(name: string)
    | Entry(term: string, items: seq<Item>, gap: string, note: Option<string>)
    | Flag(text: string)
    | Remark(text: string)
    | Empty

  function Show(item: Item): string {
    if item.quote == NONE then item.text else [item.quote] + item.text + [item.quote]
  }

  /** Items separated by a comma and a space. */
  function PrintItems(items: seq<Item>): string {
    if items == [] then ""
    else if |items| == 1 then Show(items[0])
    else Show(items[0]) + ", " + PrintItems(items[1..])
  }

  function PrintNote(note: Option<string>): string {
    match note case None => "" case Some(text) => "#" + text
  }

  function PrintLine(l: Line): string
    requires LineOk(l)
  {
    match l
    case Section(name) => "[" + name + "]"
    case Entry(term, items, gap, note) => term + "=" + PrintItems(items) + (gap + PrintNote(note))
    case Flag(text) => text
    case Remark(text) => "#" + text
    case Empty => ""
  }

  function PrintDocument(lines: seq<Line>): string
    requires forall i :: 0 <= i < |lines| ==> LineOk(lines[i])
  {
    if lines == [] then "" else PrintLine(lines[0]) + "\n" + PrintDocument(lines[1..])
  }

  predicate Free(s: string, banned: string) {
    forall i :: 0 <= i < |s| ==> s[i] !in banned
  }

  /** Bare text contains no quote, comma or '#', and has no white space at its ends. */
  predicate BareOk(text: string) {
    Free(text, "\n#\"',") && text != [] && !Space(text[0]) && !Space(text[|text| - 1])
  }

  /** A quoted item may contain anything but its own quote: commas, '#', '=', white space and the other quote. */
  predicate ItemOk(item: Item) {
    if item.quote == NONE then BareOk(item.text)
    else item.quote in "\"'" && Free(item.text, ['\n', item.quote])
  }

  predicate ItemsOk(items: seq<Item>) {
    forall i :: 0 <= i < |items| ==> ItemOk(items[i])
  }

  /** The line starts and ends like a section header. */
  predicate Bracketed(start: string, end: string) {
    start != [] && start[0] == '[' && end != [] && end[|end| - 1] == ']'
  }

  /** What the language can express: nothing contains a line break, terms no '=', '#' or quote, section names no '#';
      no other line is of the form of a section header. */
  predicate LineOk(l: Line) {
    match l
    case Section(name) => Free(name, "\n#")
    case Entry(term, items, gap, note) =>
      && Free(term, "\n=#\"'") && ItemsOk(items) && Blank(gap) && Free(gap, "\n")
      && (note.Some? ==> Free(note.value, "\n"))
      && !Bracketed(term, PrintItems(items))
    case Flag(text) => BareOk(text) && Free(text, "=") && !Bracketed(text, text)
    case Remark(text) => Free(text, "\n")
    case Empty => true
  }

  /** What the document says about a term of a section: its last assignment there. A flag is assigned to itself. */
  function Meaning(lines: seq<Line>, current: string, section: string, term: string, found: Option<seq<Item>>):
    Option<seq<Item>>
    decreases |lines|
  {
    if lines == [] then found
    else
      match lines[0]
      case Section(name) => Meaning(lines[1..], name, section, term, found)
      case Entry(t, items, _, _) =>
        Meaning(lines[1..], current, section, term, if current == section && t == term then Some(items) else found)
      case Flag(text) =>
        Meaning(lines[1..], current, section, term,
                if current == section && text == term then Some([Item(text, NONE)]) else found)
      case _ => Meaning(lines[1..], current, section, term, found)
  }

  function Texts(items: seq<Item>): (r: seq<string>)
    ensures |r| == |items| && forall i :: 0 <= i < |items| ==> r[i] == items[i].text
  {
    seq(|items|, i requires 0 <= i < |items| => items[i].text)
  }

  // Trimming

  lemma {:induction false} RTrimAppend(a: string, b: string)
    requires RTrim(b) != []
    ensures RTrim(a + b) == a + RTrim(b)
  {
    if Space(b[|b| - 1]) {
      RTrimAppend(a, b[..|b| - 1]);
      assert (a + b)[..|a + b| - 1] == a + b[..|b| - 1];
    }
  }

  lemma RTrimSolid(s: string)
    requires s != [] && !Space(s[|s| - 1])
    ensures RTrim(s) == s
  {
  }

  // Comments

  /** Text without quotes and '#' passes through. */
  lemma {:induction false} CutPlain(text: string, rest: string, open: char)
    requires Free(text, "#\"'")
    ensures CutComment(text + rest, open) == text + CutComment(rest, open)
  {
    if text == [] {
      assert text + rest == rest;
    } else {
      CutPlain(text[1..], rest, open);
      assert (text + rest)[0] == text[0] && (text + rest)[1..] == text[1..] + rest;
      assert text[0] !in "#\"'" && Advance(open, text[0]) == open;
      assert text + CutComment(rest, open) == [text[0]] + (text[1..] + CutComment(rest, open));
    }
  }

  /** The inside of a quoted item and its closing quote pass through. */
  lemma {:induction false} CutInside(text: string, quote: char, rest: string)
    requires quote in "\"'" && Free(text, ['\n', quote])
    ensures CutComment(text + [quote] + rest, quote) == text + [quote] + CutComment(rest, NONE)
  {
    var s := text + [quote] + rest;
    if text == [] {
      assert s[1..] == rest;
    } else {
      CutInside(text[1..], quote, rest);
      assert s[1..] == text[1..] + [quote] + rest;
      assert text[0] !in ['\n', quote];
    }
  }

  lemma CutItem(item: Item, rest: string)
    requires ItemOk(item)
    ensures CutComment(Show(item) + rest, NONE) == Show(item) + CutComment(rest, NONE)
  {
    if item.quote == NONE {
      CutPlain(item.text, rest, NONE);
    } else {
      CutInside(item.text, item.quote, rest);
      assert (Show(item) + rest)[1..] == item.text + [item.quote] + rest;
    }
  }

  lemma {:induction false} CutItems(items: seq<Item>, rest: string)
    requires ItemsOk(items)
    ensures CutComment(PrintItems(items) + rest, NONE) == PrintItems(items) + CutComment(rest, NONE)
  {
    hide Show, CutComment, ItemOk;
    if items == [] {
      assert "" + rest == rest && "" + CutComment(rest, NONE) == CutComment(rest, NONE);
    } else if |items| == 1 {
      CutItem(items[0], rest);
    } else {
      var tail := PrintItems(items[1..]) + rest;
      CutItem(items[0], ", " + tail);
      CutPlain(", ", tail, NONE);
      CutItems(items[1..], rest);
      var cut := CutComment(rest, NONE);
      assert PrintItems(items) + rest == Show(items[0]) + (", " + tail);
      assert PrintItems(items) + cut == Show(items[0]) + (", " + (PrintItems(items[1..]) + cut));
    }
  }

  /** Without '#' nothing is cut. */
  lemma {:induction false} CutNothing(s: string, open: char)
    requires Free(s, "#")
    ensures CutComment(s, open) == s
  {
    if s != [] {
      CutNothing(s[1..], Advance(open, s[0]));
    }
  }

  // Single lines

  /** The line that is left of a printed line. */
  function Core(l: Line): string
    requires LineOk(l)
  {
    match l
    case Section(name) => "[" + name + "]"
    case Entry(term, items, _, _) => term + "=" + PrintItems(items)
    case Flag(text) => text
    case _ => ""
  }

  lemma ShowEnds(item: Item)
    requires ItemOk(item)
    ensures Show(item) != [] && !Space(Show(item)[0]) && !Space(Show(item)[|Show(item)| - 1])
  {
  }

  lemma {:induction false} PrintItemsEnds(items: seq<Item>)
    requires ItemsOk(items)
    ensures PrintItems(items) != [] ==> !Space(PrintItems(items)[|PrintItems(items)| - 1])
    ensures items != [] ==> PrintItems(items) != []
  {
    hide Show, ItemOk;
    if items != [] {
      ShowEnds(items[0]);
      if |items| > 1 { PrintItemsEnds(items[1..]); }
    }
  }

  lemma {:induction false} RTrimBlankEnd(s: string, gap: string)
    requires Blank(gap)
    ensures RTrim(s + gap) == RTrim(s)
  {
    if gap == [] {
      assert s + gap == s;
    } else {
      RTrimBlankEnd(s, gap[..|gap| - 1]);
      assert (s + gap)[..|s + gap| - 1] == s + gap[..|gap| - 1];
    }
  }

  /** An assignment passes through, and does not end in white space. */
  lemma CutCore(l: Line, rest: string)
    requires l.Entry? && LineOk(l)
    ensures CutComment(Core(l) + rest, NONE) == Core(l) + CutComment(rest, NONE)
    ensures RTrim(Core(l)) == Core(l)
  {
    hide CutComment, PrintItems;
    var head, value := l.term + "=", PrintItems(l.items);
    CutPlain(head, value + rest, NONE);
    CutItems(l.items, rest);
    assert Core(l) + rest == head + (value + rest);
    assert Core(l) + CutComment(rest, NONE) == head + (value + CutComment(rest, NONE));
    PrintItemsEnds(l.items);
    RTrimSolid(Core(l));
  }

  /** White space and a comment behind an assignment are gone. */
  lemma EntryFiltered(l: Line)
    requires l.Entry? && LineOk(l)
    ensures FilterLine(RTrim(PrintLine(l))) == Core(l)
  {
    var core := Core(l);
    match l.note
    case None =>
      assert PrintLine(l) == core + l.gap by { assert l.gap + "" == l.gap; }
      RTrimBlankEnd(core, l.gap);
      CutCore(l, "");
      assert core + "" == core && CutComment("", NONE) == "";
    case Some(text) =>
      var note := "#" + text;
      var cut := RTrim(note);
      RTrimRemark(text);
      RTrimAppend(core + l.gap, note);
      assert PrintLine(l) == core + l.gap + note;
      CutCore(l, l.gap + cut);
      CutPlain(l.gap, cut, NONE);
      assert core + l.gap + cut == core + (l.gap + cut);
      assert CutComment(cut, NONE) == "" && l.gap + "" == l.gap;
      RTrimBlankEnd(core, l.gap);
  }

  lemma PrintedFiltered(l: Line)
    requires LineOk(l)
    ensures FilterLine(RTrim(PrintLine(l))) == Core(l)
  {
    match l
    case Section(name) =>
      var s := PrintLine(l);
      RTrimSolid(s);
      CutNothing(s, NONE);
    case Entry(_, _, _, _) =>
      EntryFiltered(l);
    case Flag(text) =>
      RTrimSolid(text);
      CutNothing(text, NONE);
    case Remark(text) =>
      RTrimRemark(text);
    case Empty =>
  }

  lemma {:induction false} RTrimRemark(text: string)
    ensures RTrim("#" + text) != [] && RTrim("#" + text)[0] == '#'
  {
    var s := "#" + text;
    if Space(s[|s| - 1]) {
      RTrimRemark(text[..|text| - 1]);
      assert s[..|s| - 1] == "#" + text[..|text| - 1];
    }
  }

  // Lists

  lemma {:induction false} SplitInside(text: string, quote: char, rest: string)
    requires quote in "\"'" && Free(text, ['\n', quote])
    ensures SplitTop(text + [quote] + rest, quote) == Prepend(text + [quote], SplitTop(rest, NONE))
  {
    var s := text + [quote] + rest;
    var r := SplitTop(rest, NONE);
    if text == [] {
      assert s[1..] == rest && text + [quote] == [quote];
    } else {
      SplitInside(text[1..], quote, rest);
      assert s[1..] == text[1..] + [quote] + rest;
      assert text[0] !in ['\n', quote];
      assert [s[0]] + (text[1..] + [quote] + r[0]) == text + [quote] + r[0];
    }
  }

  lemma {:induction false} SplitBare(text: string, rest: string)
    requires Free(text, "\n#\"',")
    ensures SplitTop(text + rest, NONE) == Prepend(text, SplitTop(rest, NONE))
  {
    var r := SplitTop(rest, NONE);
    if text == [] {
      assert text + rest == rest && [] + r[0] == r[0];
    } else {
      SplitBare(text[1..], rest);
      assert (text + rest)[0] == text[0] && (text + rest)[1..] == text[1..] + rest;
      assert text[0] !in "\n#\"',";
      assert [text[0]] + (text[1..] + r[0]) == text + r[0];
    }
  }

  lemma SplitItem(item: Item, rest: string)
    requires ItemOk(item)
    ensures SplitTop(Show(item) + rest, NONE) == Prepend(Show(item), SplitTop(rest, NONE))
  {
    if item.quote == NONE {
      SplitBare(item.text, rest);
    } else {
      SplitInside(item.text, item.quote, rest);
      var s, r := Show(item) + rest, SplitTop(rest, NONE);
      assert s[1..] == item.text + [item.quote] + rest;
      assert [item.quote] + (item.text + [item.quote] + r[0]) == Show(item) + r[0];
    }
  }

  /** The pieces of a printed list: the items, all but the first with a space in front. */
  function Pieces(items: seq<Item>): (r: seq<string>)
    requires items != []
    ensures |r| == |items|
  {
    if |items| == 1 then [Show(items[0])] else [Show(items[0])] + Prepend(" ", Pieces(items[1..]))
  }

  lemma {:induction false} SplitItems(items: seq<Item>)
    requires items != [] && ItemsOk(items)
    ensures SplitTop(PrintItems(items), NONE) == Pieces(items)
  {
    hide Show, ItemOk;
    if |items| == 1 {
      SplitItem(items[0], "");
      assert Show(items[0]) + "" == Show(items[0]);
    } else {
      var tail := PrintItems(items[1..]);
      SplitItem(items[0], ", " + tail);
      SplitItems(items[1..]);
      assert (", " + tail)[1..] == " " + tail && (" " + tail)[1..] == tail;
      assert PrintItems(items) == Show(items[0]) + (", " + tail);
      assert Show(items[0]) + [] == Show(items[0]);
    }
  }

  lemma {:induction false} PiecesAt(items: seq<Item>, i: nat)
    requires i < |items|
    ensures Pieces(items)[i] == if i == 0 then Show(items[0]) else " " + Show(items[i])
  {
    if i > 0 {
      PiecesAt(items[1..], i - 1);
    }
  }

  lemma CleanItem(item: Item)
    requires ItemOk(item)
    ensures Clean(Show(item)) == Some(item.text) && Clean(" " + Show(item)) == Some(item.text)
  {
    var shown := Show(item);
    ShowEnds(item);
    RTrimSolid(shown);
    RTrimSolid(" " + shown);
    assert (" " + shown)[1..] == shown;
    if item.quote == NONE {
      assert shown[0] !in "\n#\"',";
    } else {
      assert shown[1..|shown| - 1] == item.text;
    }
  }

  lemma {:induction false} CleanPieces(pieces: seq<string>, items: seq<string>)
    requires |pieces| == |items|
    requires forall i :: 0 <= i < |items| ==> Clean(pieces[i]) == Some(items[i])
    ensures CleanAll(pieces) == Some(items)
  {
    if items != [] {
      CleanPieces(pieces[..|pieces| - 1], items[..|items| - 1]);
      assert items == items[..|items| - 1] + [items[|items| - 1]];
    }
  }

  /** A printed list splits into its items. */
  lemma ListOfPrinted(items: seq<Item>)
    requires items != [] && ItemsOk(items)
    ensures CleanAll(SplitTop(PrintItems(items), NONE)) == Some(Texts(items))
  {
    SplitItems(items);
    forall i | 0 <= i < |items| ensures Clean(Pieces(items)[i]) == Some(items[i].text) {
      PiecesAt(items, i);
      CleanItem(items[i]);
    }
    CleanPieces(Pieces(items), Texts(items));
  }

  // Documents

  lemma {:induction false} IndexOfFirst(s: string, c: char, rest: string)
    requires Free(s, [c])
    ensures IndexOf(s + [c] + rest, c) == |s|
  {
    if s != [] {
      IndexOfFirst(s[1..], c, rest);
      assert (s + [c] + rest)[1..] == s[1..] + [c] + rest;
    }
  }

  lemma {:induction false} PrintItemsFree(items: seq<Item>)
    requires ItemsOk(items)
    ensures Free(PrintItems(items), "\n")
  {
    if items != [] {
      ShowFree(items[0]);
      hide ItemOk, Show;
      if |items| > 1 { PrintItemsFree(items[1..]); }
    }
  }

  lemma ShowFree(item: Item)
    requires ItemOk(item)
    ensures Free(Show(item), "\n")
  {
  }

  lemma PrintLineFree(l: Line)
    requires LineOk(l)
    ensures Free(PrintLine(l), "\n")
  {
    if l.Entry? { PrintItemsFree(l.items); }
  }

  lemma SplitLinesFirst(line: string, rest: string)
    requires Free(line, "\n")
    ensures SplitLines(line + "\n" + rest) == [RTrim(line)] + SplitLines(rest)
  {
    var s := line + "\n" + rest;
    IndexOfFirst(line, '\n', rest);
    assert s[..|line|] == line && s[|line| + 1..] == rest;
    if rest == [] { assert s[|line| + 1..] == []; }
  }

  /** The filtered lines of a printed document are the cores of its lines that have one. */
  function Cores(lines: seq<Line>): (r: seq<string>)
    requires forall i :: 0 <= i < |lines| ==> LineOk(lines[i])
    ensures forall i :: 0 <= i < |r| ==> r[i] != []
  {
    if lines == [] then []
    else if Core(lines[0]) == [] then Cores(lines[1..])
    else [Core(lines[0])] + Cores(lines[1..])
  }

  lemma {:induction false} DocumentLines(lines: seq<Line>)
    requires forall i :: 0 <= i < |lines| ==> LineOk(lines[i])
    ensures FilterLines(SplitLines(PrintDocument(lines))) == Cores(lines)
  {
    if lines != [] {
      PrintLineFree(lines[0]);
      SplitLinesFirst(PrintLine(lines[0]), PrintDocument(lines[1..]));
      PrintedFiltered(lines[0]);
      DocumentLines(lines[1..]);
    }
  }

  /** The parsed map says about the term what the document said so far. */
  ghost predicate Agrees(m: Sections, section: string, term: string, found: Option<seq<Item>>) {
    match found
    case None => !Has(m, section, term)
    case Some(items) => ItemsOk(items) && Has(m, section, term) && m[section][term] == PrintItems(items)
  }

  /** An assignment is parsed as one. */
  lemma ParseEntry(l: Line, p: Parsed)
    requires l.Entry? && LineOk(l)
    ensures ParseLine(p, Core(l)) == p.(sections := Assign(p.sections, p.section, l.term, PrintItems(l.items)))
  {
    hide IndexOf, Assign, PrintItems, ItemsOk;
    var core, value := Core(l), PrintItems(l.items);
    assert core == l.term + ['='] + value;
    IndexOfFirst(l.term, '=', value);
    assert core[..|l.term|] == l.term && core[|l.term| + 1..] == value;
    assert core[|l.term|] == '=';
    assert l.term != [] ==> core[0] == l.term[0];
    assert value != [] ==> core[|core| - 1] == value[|value| - 1];
  }

  /** A flag is its own term and value. */
  lemma ParseFlag(l: Line, p: Parsed)
    requires l.Flag? && LineOk(l)
    ensures ParseLine(p, l.text) ==
            p.(sections := Assign(p.sections, p.section, l.text, PrintItems([Item(l.text, NONE)])))
    ensures ItemsOk([Item(l.text, NONE)])
  {
    IndexOfNone(l.text, '=');
    assert l.text[..|l.text|] == l.text;
  }

  lemma {:induction false} IndexOfNone(s: string, c: char)
    requires Free(s, [c])
    ensures IndexOf(s, c) == |s|
  {
    if s != [] {
      assert s[0] !in [c];
      IndexOfNone(s[1..], c);
    }
  }

  lemma {:induction false} ParseCores(lines: seq<Line>, p: Parsed, section: string, term: string,
                                      found: Option<seq<Item>>)
    requires forall i :: 0 <= i < |lines| ==> LineOk(lines[i])
    requires Agrees(p.sections, section, term, found)
    ensures Agrees(ParseFrom(p, Cores(lines)).sections, section, term, Meaning(lines, p.section, section, term, found))
    decreases |lines|
  {
    hide PrintItems, ItemsOk;
    if lines != [] {
      match lines[0]
      case Section(name) =>
        var core := Core(lines[0]);
        assert core[1..|core| - 1] == name;
        assert ParseLine(p, core) == p.(section := name);
        assert Cores(lines)[1..] == Cores(lines[1..]);
        ParseCores(lines[1..], p.(section := name), section, term, found);
      case Entry(t, items, _, _) =>
        ParseEntry(lines[0], p);
        hide ParseLine;
        var q := p.(sections := Assign(p.sections, p.section, t, PrintItems(items)));
        assert Cores(lines)[1..] == Cores(lines[1..]);
        ParseCores(lines[1..], q, section, term, if p.section == section && t == term then Some(items) else found);
      case Flag(text) =>
        ParseFlag(lines[0], p);
        hide ParseLine;
        var items := [Item(text, NONE)];
        var q := p.(sections := Assign(p.sections, p.section, text, PrintItems(items)));
        assert Cores(lines)[1..] == Cores(lines[1..]);
        ParseCores(lines[1..], q, section, term, if p.section == section && text == term then Some(items) else found);
      case _ =>
        ParseCores(lines[1..], p, section, term, found);
    }
  }

  /** Config round trip: loading a printed document and asking for any list gives the items that the document
      assigns last, in order. Asking for a term that the document does not assign, or assigns nothing to, makes the
      source throw. */
  lemma RoundTrip(lines: seq<Line>, section: string, term: string)
    requires forall i :: 0 <= i < |lines| ==> LineOk(lines[i])
    ensures List(Load(PrintDocument(lines)), section, term) ==
            match Meaning(lines, "global", section, term, None)
            case None => None
            case Some(items) => if items == [] then None else Some(Texts(items))
  {
    DocumentLines(lines);
    ParseCores(lines, INITIAL, section, term, None);
    match Meaning(lines, "global", section, term, None) {
      case None =>
        NothingRefused();
      case Some(items) =>
        if items == [] { NothingRefused(); } else { ListOfPrinted(items); }
    }
  }

  /** What asking for a single value gives: double quotes around it are cut off, single quotes are not; a term that is
      not assigned gives the default. */
  lemma SingleValue(lines: seq<Line>, section: string, term: string, default: string)
    requires forall i :: 0 <= i < |lines| ==> LineOk(lines[i])
    ensures var value := Value(Load(PrintDocument(lines)), section, term, default, true);
            match Meaning(lines, "global", section, term, None)
            case None => value == default
            case Some(items) =>
              && (items == [] ==> value == "")
              && (|items| == 1 ==> value == if items[0].quote == '\'' then "'" + items[0].text + "'" else items[0].text)
  {
    hide Agrees, Value, Meaning, LineOk;
    DocumentLines(lines);
    NothingAgrees(section, term);
    ParseCores(lines, INITIAL, section, term, None);
    ValueAgreed(Load(PrintDocument(lines)), section, term, default, Meaning(lines, "global", section, term, None));
  }

  lemma NothingAgrees(section: string, term: string)
    ensures Agrees(INITIAL.sections, section, term, None)
  {
  }

  lemma ValueAgreed(m: Sections, section: string, term: string, default: string, found: Option<seq<Item>>)
    requires Agrees(m, section, term, found)
    ensures var value := Value(m, section, term, default, true);
            match found
            case None => value == default
            case Some(items) =>
              && (items == [] ==> value == "")
              && (|items| == 1 ==> value == if items[0].quote == '\'' then "'" + items[0].text + "'" else items[0].text)
  {
    match found
    case Some(items) =>
      if |items| == 1 {
        var item := items[0];
        if item.quote == '"' { assert Show(item)[1..|Show(item)| - 1] == item.text; }
        if item.quote == NONE { assert item.text[0] !in "\n#\"',"; }
      }
    case None =>
  }

  lemma NothingRefused()
    ensures CleanAll(SplitTop("", NONE)) == None
  {
    var pieces: seq<string> := [""];
    assert SplitTop("", NONE) == pieces;
    assert pieces[..0] == [];
  }

  // When a list is refused

  lemma {:induction false} RTrimBlank(s: string)
    ensures RTrim(s) == [] <==> Blank(s)
  {
    if s != [] && Space(s[|s| - 1]) {
      RTrimBlank(s[..|s| - 1]);
      assert s == s[..|s| - 1] + [s[|s| - 1]];
    }
  }

  lemma {:induction false} BlankRefused(pieces: seq<string>)
    ensures CleanAll(pieces) == None <==> exists piece :: piece in pieces && Blank(piece)
  {
    if pieces != [] {
      var front, last := pieces[..|pieces| - 1], pieces[|pieces| - 1];
      BlankRefused(front);
      RTrimBlank(last);
      assert pieces == front + [last];
    }
  }

  /** A list is refused exactly when its term is missing or a piece between its top-level commas is blank. */
  lemma RefusedExactly(m: Sections, section: string, term: string)
    ensures List(m, section, term) == None <==>
            !Has(m, section, term) || exists piece :: piece in SplitTop(m[section][term], NONE) && Blank(piece)
  {
    if Has(m, section, term) {
      BlankRefused(SplitTop(m[section][term], NONE));
    } else {
      NothingRefused();
    }
  }

  // The shipped file

  const NO_NOTE: Option<string> := None

  const SERVED := [Item("lo:7090", '"'), Item("wlan0:7090", '"'), Item("eth1:7090", '"'), Item("eth0:7090", '"')]
  const ALLOWED := [Item("(wlan)(.*)", '"'), Item("(wifi)(.*)", '"'), Item("(eth)(.*)", '"'), Item("(en)(.*)", '"')]

  /** The configuration that is shipped with the daemon, whatever its comments say. */
  function Shipped(remark: string, maxAge: string, update: string, ping: string): seq<Line> {
    [
      Remark(remark),
      Empty,
      Section("server"),
      Entry("serve", SERVED, "", NO_NOTE),
      Entry("keepalive-interval", [Item("1.0", NONE)], "", NO_NOTE),
      Entry("name", [Item("Test Server", '"')], "", NO_NOTE),
      Empty,
      Section("network"),
      Entry("list-mode", [Item("whitelist", NONE)], "", NO_NOTE),
      Entry("allowed-devices", ALLOWED, "", NO_NOTE),
      Entry("max-mac-age", [Item("300.0", NONE)], "\t      ", Some(maxAge)),
      Entry("update-interval", [Item("10.0", NONE)], "\t      ", Some(update)),
      Entry("ping-broadcast-interval", [Item("10.0", NONE)], "  ", Some(ping))
    ]
  }

  lemma ServedOk()
    ensures ItemsOk(SERVED)
  {
    EthernetServed();
    assert ItemOk(SERVED[0]) && ItemOk(SERVED[1]);
    hide ItemOk;
  }

  lemma EthernetServed()
    ensures ItemOk(SERVED[2]) && ItemOk(SERVED[3])
  {
  }

  lemma AllowedOk()
    ensures ItemsOk(ALLOWED)
  {
    assert Free("(wlan)(.*)", "\n\"") && Free("(wifi)(.*)", "\n\"");
    EthernetOk();
  }

  lemma EthernetOk()
    ensures Free("(eth)(.*)", "\n\"") && Free("(en)(.*)", "\n\"")
  {
  }

  lemma GapOk()
    ensures Blank("\t      ") && Free("\t      ", "\n")
  {
  }

  lemma TermsOk()
    ensures Free("serve", "\n=#\"'") && Free("keepalive-interval", "\n=#\"'") && Free("name", "\n=#\"'")
    ensures Free("list-mode", "\n=#\"'") && Free("allowed-devices", "\n=#\"'") && Free("max-mac-age", "\n=#\"'")
  {
  }

  lemma IntervalsOk()
    ensures Free("update-interval", "\n=#\"'") && Free("ping-broadcast-interval", "\n=#\"'")
  {
  }

  lemma TextsOk()
    ensures ItemsOk([Item("Test Server", '"')]) && ItemsOk([Item("whitelist", NONE)])
  {
  }

  lemma NumbersOk()
    ensures ItemsOk([Item("1.0", NONE)]) && ItemsOk([Item("300.0", NONE)]) && ItemsOk([Item("10.0", NONE)])
  {
  }

  lemma ShippedOk(remark: string, maxAge: string, update: string, ping: string)
    requires Free(remark, "\n") && Free(maxAge, "\n") && Free(update, "\n") && Free(ping, "\n")
    ensures var lines := Shipped(remark, maxAge, update, ping);
            forall i :: 0 <= i < |lines| ==> LineOk(lines[i])
  {
    ServedOk();
    AllowedOk();
    GapOk();
    TermsOk();
    IntervalsOk();
    TextsOk();
    NumbersOk();
    assert Blank("  ") && Free("  ", "\n") && Blank("") && Free("server", "\n#") && Free("network", "\n#");
    hide Free, Blank, ItemsOk;
  }

  predicate Assigns(l: Line, term: string) {
    (l.Entry? && l.term == term) || (l.Flag? && l.text == term)
  }

  function Assigned(l: Line): seq<Item> {
    match l case Entry(_, items, _, _) => items case Flag(text) => [Item(text, NONE)] case _ => []
  }

  /** Within a section, the last assignment to a term counts. */
  lemma {:induction false} MeaningAt(lines: seq<Line>, current: string, section: string, term: string,
                                     found: Option<seq<Item>>, h: nat, k: nat)
    requires h < k < |lines| && lines[h] == Section(section) && Assigns(lines[k], term)
    requires forall j :: h < j < k ==> !lines[j].Section?
    requires forall j :: k < j < |lines| ==> !Assigns(lines[j], term)
    ensures Meaning(lines, current, section, term, found) == Some(Assigned(lines[k]))
    decreases |lines|
  {
    if h > 0 {
      var next := if lines[0].Section? then lines[0].name else current;
      var seen := if Assigns(lines[0], term) && current == section then Some(Assigned(lines[0])) else found;
      MeaningAt(lines[1..], next, section, term, seen, h - 1, k - 1);
    } else {
      MeaningWithin(lines[1..], section, term, found, k - 1);
    }
  }

  lemma {:induction false} MeaningWithin(lines: seq<Line>, section: string, term: string, found: Option<seq<Item>>,
                                         k: nat)
    requires k < |lines| && Assigns(lines[k], term)
    requires forall j :: 0 <= j < k ==> !lines[j].Section?
    requires forall j :: k < j < |lines| ==> !Assigns(lines[j], term)
    ensures Meaning(lines, section, section, term, found) == Some(Assigned(lines[k]))
    decreases |lines|
  {
    if k > 0 {
      var seen := if Assigns(lines[0], term) then Some(Assigned(lines[0])) else found;
      MeaningWithin(lines[1..], section, term, seen, k - 1);
    } else {
      MeaningElsewhere(lines[1..], section, section, term, Some(Assigned(lines[0])));
    }
  }

  lemma {:induction false} MeaningElsewhere(lines: seq<Line>, current: string, section: string, term: string,
                                            found: Option<seq<Item>>)
    requires forall j :: 0 <= j < |lines| ==> !Assigns(lines[j], term)
    ensures Meaning(lines, current, section, term, found) == found
    decreases |lines|
  {
    if lines != [] {
      MeaningElsewhere(lines[1..], if lines[0].Section? then lines[0].name else current, section, term, found);
    }
  }

  /** What the daemon reads from the shipped file: lists, plain text and quoted text. */
  lemma ShippedRead(remark: string, maxAge: string, update: string, ping: string)
    requires Free(remark, "\n") && Free(maxAge, "\n") && Free(update, "\n") && Free(ping, "\n")
    ensures var lines := Shipped(remark, maxAge, update, ping);
            && (forall i :: 0 <= i < |lines| ==> LineOk(lines[i]))
            && var m := Load(PrintDocument(lines));
               && List(m, "server", "serve") == Some(Texts(SERVED))
               && List(m, "network", "allowed-devices") == Some(Texts(ALLOWED))
               && Value(m, "network", "list-mode", "whitelist", true) == "whitelist"
               && Value(m, "network", "max-mac-age", "", true) == "300.0"
               && Value(m, "server", "name", "New Server", true) == "Test Server"
  {
    hide PrintDocument, Load, List, Value, LineOk, Meaning;
    ShippedOk(remark, maxAge, update, ping);
    var lines := Shipped(remark, maxAge, update, ping);
    MeaningAt(lines, "global", "server", "serve", None, 2, 3);
    RoundTrip(lines, "server", "serve");
    MeaningAt(lines, "global", "network", "allowed-devices", None, 7, 9);
    RoundTrip(lines, "network", "allowed-devices");
    MeaningAt(lines, "global", "network", "list-mode", None, 7, 8);
    SingleValue(lines, "network", "list-mode", "whitelist");
    MeaningAt(lines, "global", "network", "max-mac-age", None, 7, 10);
    SingleValue(lines, "network", "max-mac-age", "");
    MeaningAt(lines, "global", "server", "name", None, 2, 5);
    SingleValue(lines, "server", "name", "New Server");
  }
}
