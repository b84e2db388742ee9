/** The configuration parser itself. Every method is proved to compute what ConfigModel says. */
module Configs {
  import opened Basics
  import opened ConfigModel

  class Config {
    var sections: Sections

    constructor ()
      ensures sections == map[]
    {
      sections := map[];
    }

    /** Where the line that starts at a position ends. */
    method LineEnd(content: string, at: nat) returns (end: nat)
      requires at < |content|
      ensures at <= end <= |content| && (end < |content| ==> content[end] == '\n')
      ensures forall j :: at <= j < end ==> content[j] != '\n'
    {
      end := at;
      while end < |content| && content[end] != '\n'
        invariant at <= end <= |content|
        invariant forall j :: at <= j < end ==> content[j] != '\n'
      {
        end := end + 1;
      }
    }

    /** Reads line by line; white space at the end of a line is dropped. */
    method SplitString(content: string) returns (lines: seq<string>)
      ensures lines == SplitLines(content)
    {
      assert content[0..] == content && content[|content|..] == [] && SplitLines([]) == [];
      hide SplitLines, RTrim;
      lines := [];
      var at := 0;
      while at < |content|
        invariant at <= |content|
        invariant lines + SplitLines(content[at..]) == SplitLines(content)
      {
        var end := LineEnd(content, at);
        LineStep(content, at, end);
        lines := lines + [RTrim(content[at..end])];
        at := if end < |content| then end + 1 else end;
      }
    }

    /** Cuts comments outside strings and drops lines that become empty. */
    method Filter(lines: seq<string>) returns (filtered: seq<string>)
      ensures filtered == FilterLines(lines)
    {
      filtered := [];
      for k := 0 to |lines|
        invariant filtered + FilterLines(lines[k..]) == FilterLines(lines)
      {
        var line := lines[k];
        assert lines[k..][1..] == lines[k + 1..];
        if |line| > 0 {
          var kept := CutLine(line);
          kept := RTrim(kept);
          if |kept| > 0 {
            filtered := filtered + [kept];
          }
        }
      }
    }

    /** The character loop with the open string delimiter. */
    method CutLine(line: string) returns (kept: string)
      ensures kept == CutComment(line, NONE)
    {
      kept := "";
      var open := NONE;
      var i := 0;
      while i < |line|
        invariant i <= |line|
        invariant kept + CutComment(line[i..], open) == CutComment(line, NONE)
      {
        var c := line[i];
        assert line[i..][1..] == line[i + 1..];
        if c == '"' || c == '\'' {
          open := Toggle(open, c);
        } else if c == '#' {
          if open == NONE {
            return;
          }
        }
        kept := kept + [c];
        i := i + 1;
      }
    }

    method ParseLines(lines: seq<string>) returns (result: Sections)
      requires forall i :: 0 <= i < |lines| ==> lines[i] != []
      ensures result == ParseFrom(INITIAL, lines).sections
    {
      result := map[];
      var section := "global";
      for k := 0 to |lines|
        invariant ParseFrom(Parsed(section, result), lines[k..]) == ParseFrom(INITIAL, lines)
      {
        var line := lines[k];
        assert lines[k..][1..] == lines[k + 1..];
        if line[0] == '[' && line[|line| - 1] == ']' {
          section := line[1..|line| - 1];
        } else {
          var i := IndexOf(line, '=');
          var term := line[..i];
          var value := if i < |line| then line[i + 1..] else line;
          result := Assign(result, section, term, value);
        }
      }
    }

    method LoadFromString(text: string) returns (ok: bool)
      modifies this
      ensures ok && sections == Load(text)
    {
      var lines := SplitString(text);
      lines := Filter(lines);
      sections := ParseLines(lines);
      ok := true;
    }

    method GetValue(section: string, term: string, default: string, cutQuotes: bool) returns (value: string)
      ensures value == Value(sections, section, term, default, cutQuotes)
    {
      value := default;
      if section in sections {
        if term in sections[section] {
          value := sections[section][term];
          if cutQuotes {
            if value != [] && value[0] == '"' && value[|value| - 1] == '"' {
              value := Unquote(value);
            }
          }
        }
      }
    }

    /** The open string delimiter after a quote character. */
    method Toggle(open: char, c: char) returns (next: char)
      requires c == '"' || c == '\''
      ensures next == Advance(open, c)
    {
      next := open;
      if open == NONE {
        next := c;
      } else {
        if open == c {
          next := NONE;
        }
      }
    }

    /** Splits a value at the commas outside strings; None where the source throws. */
    method GetList(section: string, term: string) returns (items: Option<seq<string>>)
      ensures items == List(sections, section, term)
    {
      var value := GetValue(section, term, "", false);
      SplittingStart(value);
      ListIs(sections, section, term);
      hide *;
      var list: seq<string> := [];
      var open := NONE;
      var last := 0;
      ghost var done: seq<string> := [];
      var i := 0;
      while i < |value|
        invariant 0 <= last <= i <= |value|
        invariant Splitting(value, done, last, i, open) && CleanAll(done) == Some(list)
      {
        var c := value[i];
        if c == '"' || c == '\'' {
          SplittingOn(value, done, last, i, open);
          open := Toggle(open, c);
        } else if c == ',' && open == NONE {
          var piece := Clean(value[last..i]);
          SplittingComma(value, done, last, i);
          if piece.None? {
            return None;
          }
          list := list + [piece.value];
          done := done + [value[last..i]];
          last := i + 1;
        } else {
          SplittingOn(value, done, last, i, open);
          NotQuote(open, c);
        }
        i := i + 1;
      }
      var piece := Clean(value[last..]);
      SplittingEnd(value, done, last, open);
      items := if piece.None? then None else Some(list + [piece.value]);
    }
  }

  lemma ListIs(m: Sections, section: string, term: string)
    ensures List(m, section, term) == CleanAll(SplitTop(Value(m, section, term, "", false), NONE))
  {
  }

  lemma NotQuote(open: char, c: char)
    requires c != '"' && c != '\''
    ensures Advance(open, c) == open
  {
  }

  /** The pieces found so far, the piece being read and what the rest splits into make up the whole split. */
  ghost predicate Splitting(value: string, done: seq<string>, last: nat, i: nat, open: char) {
    && last <= i <= |value|
    && done + Prepend(value[last..i], SplitTop(value[i..], open)) == SplitTop(value, NONE)
  }

  lemma SplittingStart(value: string)
    ensures Splitting(value, [], 0, 0, NONE) && CleanAll([]) == Some([])
  {
    hide SplitTop;
    assert value[0..] == value && value[0..0] == [];
    PrependNothing(SplitTop(value, NONE));
  }

  lemma SplittingOn(value: string, done: seq<string>, last: nat, i: nat, open: char)
    requires Splitting(value, done, last, i, open) && i < |value| && !(value[i] == ',' && open == NONE)
    ensures Splitting(value, done, last, i + 1, Advance(open, value[i]))
  {
    hide SplitTop, Prepend, Advance;
    assert value[i..][1..] == value[i + 1..];
    assert value[last..i] + [value[i]] == value[last..i + 1];
    SplitChar(value[last..i], value[i..], open);
  }

  lemma SplittingComma(value: string, done: seq<string>, last: nat, i: nat)
    requires Splitting(value, done, last, i, NONE) && i < |value| && value[i] == ',' && CleanAll(done).Some?
    ensures Splitting(value, done + [value[last..i]], i + 1, i + 1, NONE)
    ensures CleanAll(done + [value[last..i]]) ==
            match Clean(value[last..i]) case None => None case Some(item) => Some(CleanAll(done).value + [item])
    ensures Clean(value[last..i]).None? ==> CleanAll(SplitTop(value, NONE)).None?
  {
    hide SplitTop, Prepend, Clean, CleanAll;
    var piece, rest := value[last..i], SplitTop(value[i + 1..], NONE);
    assert value[i..][1..] == value[i + 1..];
    SplitComma(piece, value[i..]);
    CleanStep(done, piece, rest);
    assert value[i + 1..i + 1] == [];
    PrependNothing(rest);
    assert done + ([piece] + rest) == done + [piece] + rest;
  }

  lemma SplittingEnd(value: string, done: seq<string>, last: nat, open: char)
    requires Splitting(value, done, last, |value|, open) && CleanAll(done).Some?
    ensures CleanAll(SplitTop(value, NONE)) ==
            match Clean(value[last..]) case None => None case Some(item) => Some(CleanAll(done).value + [item])
  {
    hide SplitTop, Prepend, Clean;
    assert value[|value|..] == [] && value[last..|value|] == value[last..];
    SplitEnd(value[last..], open);
    CleanStep(done, value[last..], []);
  }

  lemma LineStep(content: string, at: nat, end: nat)
    requires at <= end <= |content| && at < |content|
    requires forall j :: at <= j < end ==> content[j] != '\n'
    requires end < |content| ==> content[end] == '\n'
    ensures SplitLines(content[at..]) ==
            [RTrim(content[at..end])] + (if end == |content| then [] else SplitLines(content[end + 1..]))
  {
    hide RTrim, IndexOf;
    var s := content[at..];
    var i := IndexOf(s, '\n');
    assert i == end - at by {
      hide SplitLines;
      assert forall j :: 0 <= j < end - at ==> s[j] == content[at + j];
      assert end < |content| ==> s[end - at] == '\n';
    }
    assert s[..i] == content[at..end];
    if end < |content| {
      assert s[i + 1..] == content[end + 1..];
    }
  }

  lemma PrependNothing(r: seq<string>)
    requires r != []
    ensures Prepend([], r) == r
  {
    assert [] + r[0] == r[0];
  }

  lemma SplitChar(p: string, s: string, open: char)
    requires s != [] && !(s[0] == ',' && open == NONE)
    ensures Prepend(p, SplitTop(s, open)) == Prepend(p + [s[0]], SplitTop(s[1..], Advance(open, s[0])))
  {
    PrependTwice(p, [s[0]], SplitTop(s[1..], Advance(open, s[0])));
    hide Prepend, Advance;
  }

  lemma PrependTwice(p: string, q: string, r: seq<string>)
    requires r != []
    ensures Prepend(p, Prepend(q, r)) == Prepend(p + q, r)
  {
    assert p + (q + r[0]) == p + q + r[0];
  }

  lemma SplitComma(p: string, s: string)
    requires s != [] && s[0] == ','
    ensures Prepend(p, SplitTop(s, NONE)) == [p] + SplitTop(s[1..], NONE)
  {
    assert p + [] == p;
  }

  lemma SplitEnd(p: string, open: char)
    ensures Prepend(p, SplitTop([], open)) == [p]
  {
    assert p + [] == p;
  }

  /** Once a piece is blank the whole list fails. */
  lemma {:induction false} CleanStep(done: seq<string>, piece: string, rest: seq<string>)
    requires CleanAll(done).Some?
    ensures CleanAll(done + [piece]) ==
            match Clean(piece) case None => None case Some(item) => Some(CleanAll(done).value + [item])
    ensures Clean(piece).None? ==> CleanAll(done + ([piece] + rest)).None?
  {
    assert (done + [piece])[..|done|] == done;
    if rest == [] {
      assert done + ([piece] + rest) == done + [piece];
    } else {
      CleanStep(done, piece, rest[..|rest| - 1]);
      var all := done + ([piece] + rest);
      assert all[..|all| - 1] == done + ([piece] + rest[..|rest| - 1]);
    }
  }
}
