/** The exception file as text: the lines Python reads from it, the values they can hold, and
    files that hold given entries. */
module AuditFiles {
  import opened Wrappers
  import opened AuditText
  import opened AuditExceptions

  /** Reading translates every line break to '\n', so these two end a line and stand nowhere in it. */
  predicate OneLine(s: string)
  {
    '\n' !in s && '\r' !in s
  }

  function Chomp(raw: string): string
  {
    if raw != [] && raw[|raw| - 1] == '\n' then raw[..|raw| - 1] else raw
  }

  /** The lines of some file: each but perhaps the last ends with a line break, and none holds
      another one. */
  predicate FileLines(lines: seq<string>)
  {
    forall k :: 0 <= k < |lines| ==>
      && lines[k] != [] && OneLine(Chomp(lines[k]))
      && (k < |lines| - 1 ==> Chomp(lines[k]) != lines[k])
  }

  /** The exceptions read from a file; None is the ValueError. */
  function Read(lines: seq<string>): Option<seq<Entry>>
  {
    Entries(Significant(lines))
  }

  // ----- no value spans lines

  lemma PartOneLine(s: string, a: nat, b: nat)
    requires OneLine(s) && a <= b <= |s|
    ensures OneLine(s[a..b])
  {
  }

  lemma MiddleOneLine(left: string, s: string, right: string)
    requires OneLine(Chomp(left + s + right)) && (s != [] ==> s[|s| - 1] != '\n')
    ensures OneLine(s)
  {
    var raw := left + s + right;
    forall x | 0 <= x < |s| ensures s[x] != '\n' && s[x] != '\r' {
      assert raw[|left| + x] == s[x] && raw[|left| + |s| - 1] == s[|s| - 1];
      assert Chomp(raw)[|left| + x] == s[x];
    }
  }

  lemma StripOneLine(raw: string)
    requires OneLine(Chomp(raw))
    ensures OneLine(Strip(raw))
  {
    hide Strip, IsSpace, Blank, OneLine, Chomp;
    StripIsTrimmed(raw);
    LineBreakIsSpace();
    var left, right :| Blank(left) && Blank(right) && raw == left + Strip(raw) + right;
    MiddleOneLine(left, Strip(raw), right);
  }

  lemma LineBreakIsSpace()
    ensures IsSpace('\n')
  {
  }

  lemma SplitOneLine(line: string)
    requires OneLine(line)
    ensures SplitKV(line).Some? ==> OneLine(SplitKV(line).value.value)
  {
    hide Strip, FirstColon;
    var k := FirstColon(line);
    if k < |line| {
      PartOneLine(line, k + 1, |line|);
      StripOneLine(line[k + 1..]);
    }
  }

  predicate OneLineEach(e: Entry)
  {
    forall k :: k in e ==> OneLine(e[k])
  }

  lemma {:induction false} CollectOneLine(e: Entry, body: seq<string>)
    requires OneLineEach(e) && forall k :: 0 <= k < |body| ==> OneLine(body[k])
    ensures OneLineEach(Collect(e, body))
    decreases |body|
  {
    hide SplitKV, OneLine;
    if body != [] {
      SplitOneLine(body[0]);
      CollectOneLine(AddField(e, body[0]), body[1..]);
    }
  }

  lemma OpenOneLine(item: string)
    requires Item(item) && OneLine(item)
    ensures Open(item).Some? ==> OneLineEach(Open(item).value)
  {
    PartOneLine(item, 2, |item|);
    StripOneLine(item[2..]);
    SplitOneLine(Strip(item[2..]));
    hide SplitKV, Strip, OneLine;
  }

  lemma {:induction false} EntriesOneLine(sig: seq<string>)
    requires forall k :: 0 <= k < |sig| ==> OneLine(sig[k])
    ensures Entries(sig).Some? ==> forall i :: 0 <= i < |Entries(sig).value| ==> OneLineEach(Entries(sig).value[i])
    decreases |sig|
  {
    hide SplitKV, Open, OneLine, OneLineEach, Collect, Item;
    if sig == [] {
    } else if !Item(sig[0]) {
      EntriesOneLine(sig[1..]);
    } else {
      var body := Body(sig[1..]);
      ItemsAfterBody(sig[1..]);
      EntriesOneLine(sig[1..][|body|..]);
      OpenOneLine(sig[0]);
      if Open(sig[0]).Some? {
        CollectOneLine(Open(sig[0]).value, body);
      }
    }
  }

  lemma {:induction false} SignificantOneLine(lines: seq<string>)
    requires forall k :: 0 <= k < |lines| ==> OneLine(Chomp(lines[k]))
    ensures forall k :: 0 <= k < |Significant(lines)| ==> OneLine(Significant(lines)[k])
  {
    hide Strip, OneLine, Chomp, Noise;
    if lines != [] {
      StripOneLine(lines[0]);
      SignificantOneLine(lines[1..]);
    }
  }

  /** Whatever the file, no value of an exception holds a line break. */
  lemma ReadOneLine(lines: seq<string>)
    requires FileLines(lines)
    ensures Read(lines).Some? ==> forall i :: 0 <= i < |Read(lines).value| ==> OneLineEach(Read(lines).value[i])
  {
    hide OneLine, Chomp, OneLineEach, Entries, Significant;
    SignificantOneLine(lines);
    EntriesOneLine(Significant(lines));
  }

  // ----- a file for given entries

  function Terminated(lines: seq<string>): seq<string>
  {
    if lines == [] then [] else [lines[0] + "\n"] + Terminated(lines[1..])
  }

  lemma ChompEnded(line: string)
    ensures Chomp(line + "\n") == line
  {
  }

  lemma {:induction false} TerminatedLines(lines: seq<string>)
    ensures |Terminated(lines)| == |lines| && forall k :: 0 <= k < |lines| ==> Terminated(lines)[k] == lines[k] + "\n"
  {
    if lines != [] {
      TerminatedLines(lines[1..]);
    }
  }

  lemma TerminatedIsFile(lines: seq<string>)
    requires forall k :: 0 <= k < |lines| ==> OneLine(lines[k])
    ensures FileLines(Terminated(lines))
  {
    hide OneLine, Chomp, Terminated;
    TerminatedLines(lines);
    var file := Terminated(lines);
    forall k | 0 <= k < |file| ensures file[k] != [] && OneLine(Chomp(file[k])) && Chomp(file[k]) != file[k] {
      ChompEnded(lines[k]);
      assert |lines[k] + "\n"| == |lines[k]| + 1;
    }
  }

  function Ended(lines: seq<string>): seq<RawLine>
  {
    if lines == [] then [] else [Padded([], lines[0], "\n")] + Ended(lines[1..])
  }

  lemma {:induction false} EndedIsTerminated(lines: seq<string>)
    ensures RawLines(Ended(lines)) == Terminated(lines) && Contents(Ended(lines)) == lines
    ensures forall k :: 0 <= k < |Ended(lines)| ==> Ended(lines)[k].Valid()
    decreases |lines|
  {
    if lines != [] {
      EndedIsTerminated(lines[1..]);
      var file := Ended(lines);
      assert file[1..] == Ended(lines[1..]) && file[0] == Padded([], lines[0], "\n");
      assert file[0].Raw() == lines[0] + "\n";
      assert Blank("\n");
      assert lines == [lines[0]] + lines[1..];
    }
  }

  lemma {:induction false} FieldsOneLine(ps: seq<Field>)
    requires forall k :: 0 <= k < |ps| ==> OneLine(ps[k].key) && OneLine(ps[k].value)
    ensures forall k :: 0 <= k < |PrintFields(ps)| ==> OneLine(PrintFields(ps)[k])
  {
    if ps != [] {
      FieldsOneLine(ps[1..]);
    }
  }

  lemma {:induction false} PrintedOneLine(es: seq<seq<Field>>)
    requires [] !in es
    requires forall i, k :: 0 <= i < |es| && 0 <= k < |es[i]| ==> OneLine(es[i][k].key) && OneLine(es[i][k].value)
    ensures forall k :: 0 <= k < |PrintAll(es)| ==> OneLine(PrintAll(es)[k])
  {
    if es != [] {
      assert [] !in es[1..];
      PrintedOneLine(es[1..]);
      FieldsOneLine(es[0][1..]);
      var first := es[0][0];
      assert OneLine("- " + PrintField(first));
    }
  }

  /** The file that prints entries with plain keys and values on one line each, and is read back
      as these entries. */
  lemma FileOfEntries(es: seq<seq<Field>>)
    requires Printable(es) && [] !in es
    requires forall i, k :: 0 <= i < |es| && 0 <= k < |es[i]| ==> OneLine(es[i][k].key) && OneLine(es[i][k].value)
    ensures FileLines(Terminated(PrintAll(es))) && Read(Terminated(PrintAll(es))) == Some(DenotedAll(es))
  {
    PrintedOneLine(es);
    TerminatedIsFile(PrintAll(es));
    EndedIsTerminated(PrintAll(es));
    hide *;
    ParsePrinted(es, Ended(PrintAll(es)));
    ReadIs(Terminated(PrintAll(es)));
  }

  lemma ReadIs(lines: seq<string>)
    ensures Read(lines) == Entries(Significant(lines))
  {
  }
}
