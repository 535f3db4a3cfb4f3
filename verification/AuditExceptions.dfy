/** The line parser for the exception list. */
module AuditExceptions {
  import opened Wrappers
  import opened AuditText

  /** One parsed exception: its keys and values as written. */
  type Entry = map<string, string>

  /** Blank lines, comments and the two headers; the line is already stripped. */
  predicate Noise(line: string)
  {
    line == [] || "#" <= line || "version:" <= line || "exceptions:" <= line
  }

  predicate Item(line: string)
  {
    "- " <= line
  }

  function AddField(e: Entry, line: string): Entry
  {
    match SplitKV(line)
    case Some(p) => e[p.key := p.value]
    case None => e
  }

  // ----- the format: blocks of lines, each opened by an item line

  function Significant(lines: seq<string>): seq<string>
  {
    if lines == [] then []
    else (if Noise(Strip(lines[0])) then [] else [Strip(lines[0])]) + Significant(lines[1..])
  }

  /** The lines up to the next item. */
  function Body(sig: seq<string>): (body: seq<string>)
    ensures |body| <= |sig|
  {
    if sig == [] || Item(sig[0]) then [] else [sig[0]] + Body(sig[1..])
  }

  function Collect(e: Entry, body: seq<string>): Entry
    decreases |body|
  {
    if body == [] then e else Collect(AddField(e, body[0]), body[1..])
  }

  /** What an item line opens; None is the ValueError of an item without a colon. */
  function Open(item: string): Option<Entry>
    requires Item(item)
  {
    match SplitKV(Strip(item[2..]))
    case Some(p) => Some(map[p.key := p.value])
    case None => None
  }

  /** The list the format denotes: lines before the first item belong to no entry. */
  function Entries(sig: seq<string>): Option<seq<Entry>>
    decreases |sig|
  {
    if sig == [] then Some([])
    else if !Item(sig[0]) then Entries(sig[1..])
    else Block(Open(sig[0]), Body(sig[1..]), Entries(sig[1..][|Body(sig[1..])|..]))
  }

  function Block(first: Option<Entry>, body: seq<string>, rest: Option<seq<Entry>>): Option<seq<Entry>>
  {
    if first.None? || rest.None? then None else Some([Collect(first.value, body)] + rest.value)
  }

  // ----- the parser

  /** What is still to be parsed, given the entries finished so far and the one being read. */
  function Resume(done: seq<Entry>, current: Option<Entry>, sig: seq<string>): Option<seq<Entry>>
  {
    var rest := if current.None? then Entries(sig) else Block(current, Body(sig), Entries(sig[|Body(sig)|..]));
    if rest.None? then None else Some(done + rest.value)
  }

  lemma ItemHasText(line: string)
    requires Trimmed(line) && Item(line)
    ensures Strip(line[2..]) != []
  {
    hide Strip, IsSpace;
    Punctuation();
    assert line[1] == ' ';
    assert line[2..][|line| - 3] == line[|line| - 1];
    StripsAwayExactly(line[2..]);
  }

  lemma ResumeAtItem(done: seq<Entry>, current: Option<Entry>, line: string, sig: seq<string>)
    requires Item(line)
    ensures var d := if current.None? then done else done + [current.value];
            Resume(done, current, [line] + sig) ==
            if Open(line).None? then None else Resume(d, Open(line), sig)
  {
    hide SplitKV;
    assert ([line] + sig)[1..] == sig && ([line] + sig)[0..] == [line] + sig;
    var tail := Entries([line] + sig);
    if current.Some? && tail.Some? {
      assert done + ([current.value] + tail.value) == done + [current.value] + tail.value;
    }
  }

  lemma ResumeAtField(done: seq<Entry>, current: Option<Entry>, line: string, sig: seq<string>)
    requires !Item(line)
    ensures var c := if current.None? then None else Some(AddField(current.value, line));
            Resume(done, current, [line] + sig) == Resume(done, c, sig)
  {
    hide SplitKV, AddField;
    assert ([line] + sig)[1..] == sig;
    var body := Body(sig);
    assert Body([line] + sig) == [line] + body;
    assert ([line] + sig)[|body| + 1..] == sig[|body|..];
    assert ([line] + body)[1..] == body;
  }

  lemma ResumeAtEnd(done: seq<Entry>, current: Option<Entry>)
    ensures Resume(done, current, []) == Some(if current.None? then done else done + [current.value])
  {
    hide SplitKV, AddField, Open;
    var sig: seq<string> := [];
    assert sig[|Body(sig)|..] == sig && Entries(sig) == Some([]);
    assert done + [] == done;
    if current.Some? {
      assert Collect(current.value, []) == current.value && [current.value] + [] == [current.value];
    }
  }

  /** parse_exceptions: one pass over the lines with the entry being read in current. An empty
      entry would be dropped, but none ever is. */
  method ParseExceptions(lines: seq<string>) returns (r: Option<seq<Entry>>)
    ensures r == Entries(Significant(lines))
  {
    hide Entries, Resume, Strip, Open, AddField, SplitKV;
    var exceptions: seq<Entry> := [];
    var current: Option<Entry> := None;
    assert Resume([], None, Significant(lines)) == Entries(Significant(lines)) by {
      ResumeNothing(Significant(lines));
    }
    for i := 0 to |lines|
      invariant current.Some? ==> current.value != map[]
      invariant Resume(exceptions, current, Significant(lines[i..])) == Entries(Significant(lines))
    {
      SignificantStep(lines, i);
      var line := Strip(lines[i]);
      ghost var rest := Significant(lines[i + 1..]);
      if line == "" || "#" <= line {
        continue;
      }
      if "version:" <= line || "exceptions:" <= line {
        continue;
      }
      if "- " <= line {
        ResumeAtItem(exceptions, current, line, rest);
        if current.Some? && current.value != map[] {
          exceptions := exceptions + [current.value];
        }
        current := Some(map[]);
        StripIsTrimmed(lines[i]);
        ItemHasText(line);
        var text := Strip(line[2..]);
        OpenedBy(line);
        if text != "" {
          match SplitKV(text) {
            case None =>
              return None;
            case Some(p) =>
              current := Some(current.value[p.key := p.value]);
              assert p.key in current.value;
              assert current.value == map[p.key := p.value];
          }
        }
        continue;
      }
      ResumeAtField(exceptions, current, line, rest);
      if current.Some? && ':' in line {
        AddsPair(current.value, line);
        var p := SplitKV(line).value;
        current := Some(current.value[p.key := p.value]);
        assert p.key in current.value;
      } else if current.Some? {
        AddsNothing(current.value, line);
      }
    }
    assert lines[|lines|..] == [];
    ResumeAtEnd(exceptions, current);
    if current.Some? && current.value != map[] {
      exceptions := exceptions + [current.value];
    }
    r := Some(exceptions);
  }

  lemma SignificantStep(lines: seq<string>, i: nat)
    requires i < |lines|
    ensures var rest := Significant(lines[i + 1..]);
            Significant(lines[i..]) == if Noise(Strip(lines[i])) then rest else [Strip(lines[i])] + rest
  {
    hide Strip, Noise;
    assert lines[i..][0] == lines[i] && lines[i..][1..] == lines[i + 1..];
    assert [] + Significant(lines[i + 1..]) == Significant(lines[i + 1..]);
  }

  lemma ResumeNothing(sig: seq<string>)
    ensures Resume([], None, sig) == Entries(sig)
  {
    var r := Entries(sig);
    if r.Some? {
      assert [] + r.value == r.value;
    }
  }

  lemma OpenedBy(item: string)
    requires Item(item)
    ensures var p := SplitKV(Strip(item[2..]));
            Open(item) == if p.Some? then Some(map[p.value.key := p.value.value]) else None
  {
  }

  lemma AddsPair(e: Entry, line: string)
    requires ':' in line
    ensures SplitKV(line).Some? && AddField(e, line) == e[SplitKV(line).value.key := SplitKV(line).value.value]
  {
    SplitFailsExactly(line);
  }

  lemma AddsNothing(e: Entry, line: string)
    requires ':' !in line
    ensures AddField(e, line) == e
  {
    SplitFailsExactly(line);
  }

  // ----- one entry per item line

  function Items(sig: seq<string>): nat
  {
    if sig == [] then 0 else (if Item(sig[0]) then 1 else 0) + Items(sig[1..])
  }

  lemma {:induction false} ItemsAfterBody(sig: seq<string>)
    ensures Items(sig[|Body(sig)|..]) == Items(sig)
    ensures forall k :: 0 <= k < |Body(sig)| ==> Body(sig)[k] == sig[k] && !Item(sig[k])
  {
    if sig == [] || Item(sig[0]) {
      assert sig[0..] == sig;
    } else {
      ItemsAfterBody(sig[1..]);
      assert sig[1..][|Body(sig[1..])|..] == sig[|Body(sig)|..];
    }
  }

  /** The parser raises exactly when some item line has no colon; otherwise it returns one
      entry, and never an empty one, for every item line. */
  lemma {:induction false} OneEntryPerItem(sig: seq<string>)
    ensures Entries(sig).None? <==> exists k :: 0 <= k < |sig| && Item(sig[k]) && ':' !in sig[k]
    ensures Entries(sig).Some? ==> |Entries(sig).value| == Items(sig) && map[] !in Entries(sig).value
    decreases |sig|
  {
    hide SplitKV, Strip, Open;
    if sig == [] {
    } else if !Item(sig[0]) {
      OneEntryPerItem(sig[1..]);
      forall k | 0 <= k < |sig| && Item(sig[k]) && ':' !in sig[k]
        ensures exists x :: 0 <= x < |sig[1..]| && Item(sig[1..][x]) && ':' !in sig[1..][x]
      {
        assert sig[1..][k - 1] == sig[k];
      }
    } else {
      var body := Body(sig[1..]);
      var later := sig[1..][|body|..];
      OneEntryPerItem(later);
      ItemsAfterBody(sig[1..]);
      OpensExactly(sig[0]);
      forall k | 0 < k < |sig| && Item(sig[k]) && ':' !in sig[k]
        ensures exists x :: 0 <= x < |later| && Item(later[x]) && ':' !in later[x]
      {
        assert sig[1..][k - 1] == sig[k];
        assert |body| <= k - 1;
        assert later[k - 1 - |body|] == sig[k];
      }
      if x :| 0 <= x < |later| && Item(later[x]) && ':' !in later[x] {
        assert sig[x + 1 + |body|] == later[x];
      }
      if Open(sig[0]).Some? {
        NeverEmpty(Open(sig[0]).value, body);
      }
    }
  }

  lemma OpensExactly(item: string)
    requires Item(item)
    ensures Open(item).None? <==> ':' !in item
    ensures Open(item).Some? ==> Open(item).value != map[]
  {
    hide IsSpace, Strip;
    var text := item[2..];
    assert item == "- " + text;
    SplitFailsExactly(Strip(text));
    StripIsTrimmed(text);
    var left, right :| Blank(left) && Blank(right) && text == left + Strip(text) + right;
    Punctuation();
    assert ':' !in left && ':' !in right;
    if p :| SplitKV(Strip(text)) == Some(p) {
      assert p.key in map[p.key := p.value];
    }
  }

  lemma {:induction false} NeverEmpty(e: Entry, body: seq<string>)
    requires e != map[]
    ensures Collect(e, body) != map[]
    decreases |body|
  {
    hide SplitKV;
    if body != [] {
      if p :| SplitKV(body[0]) == Some(p) {
        assert p.key in e[p.key := p.value];
      }
      NeverEmpty(AddField(e, body[0]), body[1..]);
    }
  }

  // ----- lines that say nothing

  lemma {:induction false} ResumeWithout(done: seq<Entry>, current: Option<Entry>, before: seq<string>, line: string, after: seq<string>)
    requires !Item(line) && ':' !in line
    ensures Resume(done, current, before + [line] + after) == Resume(done, current, before + after)
    decreases |before|
  {
    hide Resume, Item, AddField, Open;
    if before == [] {
      assert before + [line] + after == [line] + after && before + after == after;
      ResumeAtField(done, current, line, after);
      if current.Some? {
        AddsNothing(current.value, line);
      }
    } else {
      var first, rest := before[0], before[1..];
      assert before + [line] + after == [first] + (rest + [line] + after) && before + after == [first] + (rest + after);
      if Item(first) {
        ResumeAtItem(done, current, first, rest + [line] + after);
        ResumeAtItem(done, current, first, rest + after);
        ResumeWithout(if current.None? then done else done + [current.value], Open(first), rest, line, after);
      } else {
        ResumeAtField(done, current, first, rest + [line] + after);
        ResumeAtField(done, current, first, rest + after);
        ResumeWithout(done, if current.None? then None else Some(AddField(current.value, first)), rest, line, after);
      }
    }
  }

  /** A line that is no item and has no colon is ignored wherever it stands. */
  lemma ColonlessIgnored(before: seq<string>, line: string, after: seq<string>)
    requires !Item(line) && ':' !in line
    ensures Entries(before + [line] + after) == Entries(before + after)
  {
    hide *;
    ResumeNothing(before + [line] + after);
    ResumeNothing(before + after);
    ResumeWithout([], None, before, line, after);
  }

  /** Lines before the first item are ignored. */
  lemma {:induction false} LeadIgnored(lead: seq<string>, sig: seq<string>)
    requires forall k :: 0 <= k < |lead| ==> !Item(lead[k])
    ensures Entries(lead + sig) == Entries(sig)
    decreases |lead|
  {
    hide Item, Open, Collect, Body;
    if lead == [] {
      assert lead + sig == sig;
    } else {
      assert (lead + sig)[1..] == lead[1..] + sig;
      LeadIgnored(lead[1..], sig);
    }
  }

  // ----- printing and parsing back

  /** How a value is written: as it is, or in quotes of either kind. */
  datatype Style = Bare | Single | Double

  datatype Field = Field(key: string, value: string, style: Style) {
    /** A key the format can hold on a line of its own, and a value that is quoted where bare
        text would be stripped or unquoted. */
    predicate Printable()
    {
      Plain(key) && (style.Bare? ==> Trimmed(value) && !Quoted(value))
    }
  }

  function PrintValue(f: Field): string
  {
    match f.style
    case Bare => f.value
    case Single => "'" + f.value + "'"
    case Double => "\"" + f.value + "\""
  }

  function PrintField(f: Field): string
  {
    if PrintValue(f) == [] then f.key + ":" else f.key + ": " + PrintValue(f)
  }

  function PrintFields(ps: seq<Field>): seq<string>
  {
    if ps == [] then [] else [PrintField(ps[0])] + PrintFields(ps[1..])
  }

  /** One entry: an item line, then a line per remaining field. */
  function Print(ps: seq<Field>): seq<string>
    requires ps != []
  {
    ["- " + PrintField(ps[0])] + PrintFields(ps[1..])
  }

  function PrintAll(es: seq<seq<Field>>): seq<string>
    requires [] !in es
  {
    if es == [] then [] else Print(es[0]) + PrintAll(es[1..])
  }

  /** The entry a list of fields denotes: a later key wins. */
  function Denoted(e: Entry, ps: seq<Field>): Entry
    decreases |ps|
  {
    if ps == [] then e else Denoted(e[ps[0].key := ps[0].value], ps[1..])
  }

  function DenotedAll(es: seq<seq<Field>>): seq<Entry>
  {
    if es == [] then [] else [Denoted(map[], es[0])] + DenotedAll(es[1..])
  }

  /** A key the format can hold on a line of its own. */
  predicate Plain(key: string)
  {
    key != [] && Trimmed(key) && ':' !in key && key[0] != '#' && !Item(key) && key != "version" && key != "exceptions"
  }

  ghost predicate Printable(es: seq<seq<Field>>)
  {
    forall i :: 0 <= i < |es| ==> es[i] != [] && forall k :: 0 <= k < |es[i]| ==> es[i][k].Printable()
  }

  /** A line of a file: one the parser skips, which is blank, a comment or a header, or a line
      with any padding. */
  datatype RawLine =
    | Empty(blanks: string)
    | Comment(left: string, text: string)
    | Version(left: string, text: string)
    | Exceptions(left: string, text: string)
    | Padded(left: string, line: string, right: string)
  {
    predicate Valid()
    {
      match this
      case Empty(blanks) => Blank(blanks)
      case Padded(left, line, right) => Blank(left) && Blank(right)
      case _ => Blank(left)
    }

    function Raw(): string
    {
      match this
      case Empty(blanks) => blanks
      case Comment(left, text) => left + "#" + text
      case Version(left, text) => left + "version:" + text
      case Exceptions(left, text) => left + "exceptions:" + text
      case Padded(left, line, right) => left + line + right
    }
  }

  lemma HeadersTrimmed()
    ensures Trimmed("#") && Trimmed("version:") && Trimmed("exceptions:")
  {
    hide IsSpace;
    Punctuation();
    GraphIsNoSpace('v');
    GraphIsNoSpace('e');
  }

  lemma FillerIsNoise(l: RawLine)
    requires l.Valid() && !l.Padded?
    ensures Noise(Strip(l.Raw()))
  {
    hide Strip, IsSpace, Trimmed;
    HeadersTrimmed();
    match l
    case Empty(blanks) => StripsAwayExactly(blanks);
    case Comment(left, text) => StripKeepsPrefix(left, "#", text);
    case Version(left, text) => StripKeepsPrefix(left, "version:", text);
    case Exceptions(left, text) => StripKeepsPrefix(left, "exceptions:", text);
    case _ =>
  }

  function RawLines(file: seq<RawLine>): seq<string>
  {
    if file == [] then [] else [file[0].Raw()] + RawLines(file[1..])
  }

  function Contents(file: seq<RawLine>): seq<string>
  {
    if file == [] then [] else (if file[0].Padded? then [file[0].line] else []) + Contents(file[1..])
  }

  lemma {:induction false} FillersVanish(file: seq<RawLine>)
    requires forall k :: 0 <= k < |file| ==> file[k].Valid()
    requires forall k :: 0 <= k < |Contents(file)| ==> Trimmed(Contents(file)[k]) && !Noise(Contents(file)[k])
    ensures Significant(RawLines(file)) == Contents(file)
    decreases |file|
  {
    hide Strip, IsSpace, Noise;
    if file != [] {
      var rest := Contents(file[1..]);
      if file[0].Padded? {
        assert Contents(file)[0] == file[0].line;
        assert forall k :: 0 <= k < |rest| ==> rest[k] == Contents(file)[k + 1];
        StripPadded(file[0].left, file[0].line, file[0].right);
      } else {
        assert Contents(file) == rest;
        FillerIsNoise(file[0]);
      }
      FillersVanish(file[1..]);
      assert RawLines(file)[1..] == RawLines(file[1..]);
    }
  }

  lemma PrintedValue(f: Field)
    requires f.Printable()
    ensures Trimmed(PrintValue(f))
  {
    hide IsSpace;
    Punctuation();
    if !f.style.Bare? {
      var s := PrintValue(f);
      assert QuoteMark(s[0]) && QuoteMark(s[|s| - 1]);
    }
  }

  lemma PrintedEnds(f: Field)
    requires f.Printable()
    ensures Trimmed(PrintField(f)) && |PrintField(f)| > |f.key| && PrintField(f)[|f.key|] == ':'
    ensures PrintField(f)[..|f.key|] == f.key
  {
    hide IsSpace, PrintValue;
    PrintedValue(f);
    Punctuation();
    var s, v := PrintField(f), PrintValue(f);
    if v != [] {
      assert s[|s| - 1] == v[|v| - 1];
    } else {
      assert s[|s| - 1] == ':';
    }
    assert s[0] == f.key[0];
  }

  /** A printed field is one significant line that is no item. */
  lemma PrintedField(f: Field)
    requires f.Printable()
    ensures Trimmed(PrintField(f)) && !Noise(PrintField(f)) && !Item(PrintField(f))
    ensures Trimmed("- " + PrintField(f)) && !Noise("- " + PrintField(f))
  {
    hide IsSpace, PrintField;
    var s := PrintField(f);
    PrintedEnds(f);
    assert s[0] == f.key[0];
    Punctuation();
    HeaderKey("version", f);
    HeaderKey("exceptions", f);
    assert s[1] == if |f.key| > 1 then f.key[1] else ':';
  }

  lemma HeaderKey(header: string, f: Field)
    requires f.Printable() && ':' !in header
    ensures header + ":" <= PrintField(f) ==> header == f.key
  {
    hide IsSpace, PrintField;
    var s := PrintField(f);
    PrintedEnds(f);
    FirstColonAt(f.key, s[|f.key| + 1..]);
    assert s == f.key + ":" + s[|f.key| + 1..];
    if header + ":" <= s {
      FirstColonAt(header, s[|header| + 1..]);
      assert s == header + ":" + s[|header| + 1..];
      assert s[..|header|] == header;
    }
  }

  /** However its value is written, a printed field is read as its key and value. */
  lemma SplitPrinted(f: Field)
    requires f.Printable()
    ensures SplitKV(PrintField(f)) == Some(Pair(f.key, f.value))
  {
    hide SplitKV, IsSpace;
    Punctuation();
    var s := PrintField(f);
    match f.style {
      case Bare =>
        if f.value == [] {
          assert s == f.key + [] + ":" + [] + f.value;
          SplitBare(f.key, [], [], f.value);
        } else {
          assert s == f.key + [] + ":" + " " + f.value;
          SplitBare(f.key, [], " ", f.value);
        }
      case Single =>
        assert s == f.key + [] + ":" + " " + (['\''] + f.value + ['\'']);
        SplitQuoted(f.key, [], " ", '\'', f.value);
      case Double =>
        assert s == f.key + [] + ":" + " " + (['"'] + f.value + ['"']);
        SplitQuoted(f.key, [], " ", '"', f.value);
    }
  }

  lemma {:induction false} PrintedFields(e: Entry, ps: seq<Field>, sig: seq<string>)
    requires forall k :: 0 <= k < |ps| ==> ps[k].Printable()
    requires sig != [] ==> Item(sig[0])
    ensures Body(PrintFields(ps) + sig) == PrintFields(ps)
    ensures Collect(e, PrintFields(ps)) == Denoted(e, ps)
    ensures forall k :: 0 <= k < |PrintFields(ps)| ==> Trimmed(PrintFields(ps)[k]) && !Noise(PrintFields(ps)[k])
    decreases |ps|
  {
    hide SplitKV, Noise, IsSpace, Field.Printable, PrintField, Item, AddField, Trimmed, Body, Collect;
    if ps == [] {
      assert PrintFields(ps) + sig == sig;
      NoFields(e, sig);
    } else {
      PrintedField(ps[0]);
      ReadField(e, ps[0]);
      PrintedFields(e[ps[0].key := ps[0].value], ps[1..], sig);
      FieldFirst(e, PrintField(ps[0]), PrintFields(ps[1..]), sig);
      assert PrintFields(ps) + sig == [PrintField(ps[0])] + (PrintFields(ps[1..]) + sig);
    }
  }

  lemma NoFields(e: Entry, sig: seq<string>)
    requires sig != [] ==> Item(sig[0])
    ensures Body(sig) == [] && Collect(e, []) == e
  {
  }

  lemma FieldFirst(e: Entry, line: string, fields: seq<string>, sig: seq<string>)
    requires !Item(line)
    ensures Body([line] + (fields + sig)) == [line] + Body(fields + sig)
    ensures Collect(e, [line] + fields) == Collect(AddField(e, line), fields)
  {
    hide AddField;
    assert ([line] + (fields + sig))[1..] == fields + sig && ([line] + fields)[1..] == fields;
  }

  lemma ReadField(e: Entry, f: Field)
    requires f.Printable()
    ensures AddField(e, PrintField(f)) == e[f.key := f.value]
  {
    hide SplitKV, PrintField;
    SplitPrinted(f);
  }

  lemma ReadItem(f: Field)
    requires f.Printable()
    ensures Item("- " + PrintField(f)) && Open("- " + PrintField(f)) == Some(map[f.key := f.value])
  {
    hide SplitKV, Strip, PrintField, IsSpace;
    SplitPrinted(f);
    PrintedField(f);
    StripTrimmed(PrintField(f));
    assert ("- " + PrintField(f))[2..] == PrintField(f);
  }

  lemma {:induction false} PrintedEntries(es: seq<seq<Field>>)
    requires Printable(es)
    ensures Entries(PrintAll(es)) == Some(DenotedAll(es))
    ensures PrintAll(es) != [] ==> Item(PrintAll(es)[0])
    ensures forall k :: 0 <= k < |PrintAll(es)| ==> Trimmed(PrintAll(es)[k]) && !Noise(PrintAll(es)[k])
    decreases |es|
  {
    hide SplitKV, Noise, IsSpace, Field.Printable, PrintField, Open, Item, Body, Collect, PrintFields;
    if es != [] {
      var ps, rest := es[0], PrintAll(es[1..]);
      PrintedEntries(es[1..]);
      PrintedFields(map[ps[0].key := ps[0].value], ps[1..], rest);
      PrintedField(ps[0]);
      ReadItem(ps[0]);
      var fields := PrintFields(ps[1..]);
      assert PrintAll(es) == ["- " + PrintField(ps[0])] + (fields + rest);
      assert PrintAll(es)[1..] == fields + rest;
      assert (fields + rest)[|fields|..] == rest;
      assert map[][ps[0].key := ps[0].value] == map[ps[0].key := ps[0].value];
    }
  }

  /** Printing entries and parsing them back gives the same entries, whatever their values,
      in whichever style each value is written, however the lines are padded, and whatever blank
      lines, comments and headers stand in between. */
  lemma {:induction false} ParsePrinted(es: seq<seq<Field>>, file: seq<RawLine>)
    requires Printable(es)
    requires (forall k :: 0 <= k < |file| ==> file[k].Valid()) && Contents(file) == PrintAll(es)
    ensures Entries(Significant(RawLines(file))) == Some(DenotedAll(es))
  {
    hide *;
    PrintedEntries(es);
    FillersVanish(file);
  }

  /** With distinct keys the entry holds exactly the printed pairs. */
  lemma {:induction false} DenotedExactly(e: Entry, ps: seq<Field>, k: string)
    requires forall i, j :: 0 <= i < j < |ps| ==> ps[i].key != ps[j].key
    ensures k in Denoted(e, ps) <==> k in e || exists i :: 0 <= i < |ps| && ps[i].key == k
    ensures forall i :: 0 <= i < |ps| && ps[i].key == k ==> Denoted(e, ps)[k] == ps[i].value
    ensures k in e && (forall i :: 0 <= i < |ps| ==> ps[i].key != k) ==> Denoted(e, ps)[k] == e[k]
    decreases |ps|
  {
    if ps != [] {
      var f := e[ps[0].key := ps[0].value];
      DenotedExactly(f, ps[1..], k);
      assert forall i :: 0 < i < |ps| ==> ps[i] == ps[1..][i - 1];
    }
  }
}
