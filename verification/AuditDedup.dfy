/** The seen set of the audit checker: what main would conclude without it, and exactly when
    that is the same. */
module AuditDedup {
  import opened Wrappers
  import opened AuditText
  import opened AuditExceptions
  import opened AuditFiles
  import opened AuditReport
  import opened AuditVerdict
  import opened AuditTheorems

  /** The loop of main with every hit judged, repeated or not. */
  function NaiveReview(f: Findings, index: map<Key, Rule>, vs: seq<Vuln>, today: int, py: Python): Findings
  {
    if vs == [] then f
    else
      var g := NaiveReview(f, index, vs[..|vs| - 1], today, py);
      match Screen(vs[|vs| - 1], py)
      case Unkeyed => g.(errors := g.errors + [NoAdvisory(vs[|vs| - 1].name)])
      case Hit(key, severity) => Judge(g, index, Hit(key, severity), today)
      case _ => g
  }

  /** The exit code of the checker that looks at every tuple. */
  function NaiveExitCode(es: Option<seq<Entry>>, vs: Option<seq<Vuln>>, today: int, py: Python): int
  {
    if es.None? || vs.None? || Crashes(vs.value, py) then 1
    else
      var f := NaiveReview(Findings(Complaints(es.value, py), [], []), Index(es.value, py), vs.value, today, py);
      if f == Findings([], [], []) then 0 else 1
  }

  predicate NaivelyAccounted(index: map<Key, Rule>, v: Vuln, today: int, py: Python)
  {
    var s := Screen(v, py);
    s.Ignored? || (s.Hit? && Covered(index, s, today))
  }

  lemma {:induction false} NaiveCleanExactly(f: Findings, index: map<Key, Rule>, vs: seq<Vuln>, today: int, py: Python)
    requires !Crashes(vs, py)
    ensures NaiveReview(f, index, vs, today, py) == Findings([], [], []) <==>
            f == Findings([], [], []) && forall k :: 0 <= k < |vs| ==> NaivelyAccounted(index, vs[k], today, py)
    decreases |vs|
  {
    hide Screen, Judge, Covered;
    if vs != [] {
      var n := |vs| - 1;
      var init := vs[..n];
      assert !Crashes(init, py) by {
        forall k | 0 <= k < |init| ensures !Screen(init[k], py).Crash? {
          assert init[k] == vs[k];
        }
      }
      NaiveCleanExactly(f, index, init, today, py);
      var s := Screen(vs[n], py);
      if s.Hit? {
        JudgedClean(NaiveReview(f, index, init, today, py), index, s, today);
      }
    }
  }

  predicate NaivelyInOrder(es: seq<Entry>, v: Vuln, today: int, py: Python)
  {
    var s := Screen(v, py);
    s.Ignored? || (s.Hit? && Approved(es, s, today, py))
  }

  /** Exit code 0 without deduplication: every named high or critical tuple is approved. */
  lemma NaiveZeroExactly(es: seq<Entry>, vs: seq<Vuln>, today: int, py: Python)
    ensures NaiveExitCode(Some(es), Some(vs), today, py) == 0 <==>
            && WellFormed(es, py) && Unambiguous(es, py)
            && forall k :: 0 <= k < |vs| ==> NaivelyInOrder(es, vs[k], today, py)
  {
    hide Screen, Covered, Approved, Index, Complaints, Crashes, NaiveReview;
    NoComplaintsExactly(es, py);
    var index := Index(es, py);
    if WellFormed(es, py) && Unambiguous(es, py) {
      forall k | 0 <= k < |vs| ensures NaivelyInOrder(es, vs[k], today, py) == NaivelyAccounted(index, vs[k], today, py) {
        var s := Screen(vs[k], py);
        if s.Hit? {
          ApprovedIsCovered(es, s, today, py);
        }
      }
    }
    NoCrashNaively(es, vs, today, py);
    if !Crashes(vs, py) {
      NaiveCleanExactly(Findings(Complaints(es, py), [], []), index, vs, today, py);
    }
  }

  lemma NoCrashNaively(es: seq<Entry>, vs: seq<Vuln>, today: int, py: Python)
    ensures (forall k :: 0 <= k < |vs| ==> NaivelyInOrder(es, vs[k], today, py)) ==> !Crashes(vs, py)
  {
    hide Screen, Approved;
    if forall k :: 0 <= k < |vs| ==> NaivelyInOrder(es, vs[k], today, py) {
      forall k | 0 <= k < |vs| ensures !Screen(vs[k], py).Crash? {
        assert NaivelyInOrder(es, vs[k], today, py);
      }
    }
  }

  /** Vulnerabilities with the same key have the same severity. */
  predicate Uniform(vs: seq<Vuln>, py: Python)
  {
    forall i, j :: 0 <= i < j < |vs| ==>
      var s, t := Screen(vs[i], py), Screen(vs[j], py);
      s.Hit? && t.Hit? && s.key == t.key ==> s.severity == t.severity
  }

  /** No exception file lets this tuple pass: it raises, it has no advisory, its package is blank,
      for which an exception is refused, or its key spans lines, which no exception can. */
  predicate Hopeless(v: Vuln, py: Python)
  {
    match Screen(v, py)
    case Crash => true
    case Unkeyed => true
    case Ignored => false
    case Hit(key, _) => key.package == [] || !OneLine(key.package) || !OneLine(key.advisory)
  }

  /** str.lower neither makes nor removes line breaks, and keeps the empty string. */
  ghost predicate KeepsLines(py: Python)
  {
    py.lower([]) == [] && forall s :: OneLine(py.lower(s)) <==> OneLine(s)
  }

  /** The key of an exception read from a file is on one line, and names a package. */
  lemma KeyOfFile(lines: seq<string>, i: nat, py: Python)
    requires FileLines(lines) && KeepsLines(py) && Read(lines).Some? && i < |Read(lines).value|
    ensures var k := Assess(Read(lines).value[i], py);
            k.Success? ==> k.value.key.package != [] && OneLine(k.value.key.package) && OneLine(k.value.key.advisory)
  {
    ReadOneLine(lines);
    hide Read, FileLines, Strip, OneLine;
    var e := Read(lines).value[i];
    assert OneLineEach(e);
    if Assess(e, py).Success? {
      assert "package" in REQUIRED_FIELDS && "advisory" in REQUIRED_FIELDS;
      ChompOneLine(e["package"]);
      StripOneLine(e["package"]);
      ChompOneLine(e["advisory"]);
      StripOneLine(e["advisory"]);
    }
  }

  lemma ChompOneLine(s: string)
    requires OneLine(s)
    ensures Chomp(s) == s
  {
  }

  lemma NothingApproves(lines: seq<string>, v: Vuln, today: int, py: Python)
    requires FileLines(lines) && KeepsLines(py) && Read(lines).Some? && Hopeless(v, py)
    ensures var s := Screen(v, py); !s.Ignored? && (s.Hit? ==> !Approved(Read(lines).value, s, today, py))
  {
    hide Screen, Read, FileLines, KeepsLines, Assess, OneLine;
    var s := Screen(v, py);
    if s.Hit? {
      forall i | 0 <= i < |Read(lines).value| ensures !Approves(Read(lines).value[i], s, today, py) {
        KeyOfFile(lines, i, py);
      }
    }
  }

  /** A hopeless tuple makes both checkers refuse every exception file. */
  lemma HopelessFails(lines: seq<string>, vs: seq<Vuln>, k: nat, today: int, py: Python)
    requires FileLines(lines) && KeepsLines(py) && k < |vs| && Hopeless(vs[k], py)
    ensures ExitCode(Read(lines), Some(vs), today, py) == 1 && NaiveExitCode(Read(lines), Some(vs), today, py) == 1
  {
    if Read(lines).Some? {
      hide Screen, ExitCode, NaiveExitCode, Approved, HitBefore, WellFormed, Unambiguous, Read, FileLines, KeepsLines, OneLine;
      var es := Read(lines).value;
      ExitCodesAreBinary(es, vs, today, py);
      ExitZeroExactly(es, vs, today, py);
      NaiveZeroExactly(es, vs, today, py);
      NothingApproves(lines, vs[k], today, py);
      assert !NaivelyInOrder(es, vs[k], today, py);
      if Screen(vs[k], py).Hit? {
        var first := FirstHit(vs, k, py);
        assert Hopeless(vs[first], py);
        NothingApproves(lines, vs[first], today, py);
        assert !InOrder(es, vs, first, today, py);
      } else {
        assert !InOrder(es, vs, k, today, py);
      }
    }
  }

  /** With equal severities under equal keys both checkers agree on every exception list. */
  lemma UniformAgrees(es: seq<Entry>, vs: seq<Vuln>, today: int, py: Python)
    requires Uniform(vs, py)
    ensures ExitCode(Some(es), Some(vs), today, py) == NaiveExitCode(Some(es), Some(vs), today, py)
  {
    hide Screen, ExitCode, NaiveExitCode, Approved, HitBefore, WellFormed, Unambiguous;
    ExitCodesAreBinary(es, vs, today, py);
    ExitZeroExactly(es, vs, today, py);
    NaiveZeroExactly(es, vs, today, py);
    if ExitCode(Some(es), Some(vs), today, py) == 0 {
      forall k | 0 <= k < |vs| ensures NaivelyInOrder(es, vs[k], today, py) {
        assert InOrder(es, vs, k, today, py);
        if Screen(vs[k], py).Hit? {
          var first := FirstHit(vs, k, py);
          assert InOrder(es, vs, first, today, py);
          assert Screen(vs[first], py) == Screen(vs[k], py);
        }
      }
    }
    if NaiveExitCode(Some(es), Some(vs), today, py) == 0 {
      forall k | 0 <= k < |vs| ensures InOrder(es, vs, k, today, py) {
        assert NaivelyInOrder(es, vs[k], today, py);
      }
    }
  }

  lemma ExitCodesAreBinary(es: seq<Entry>, vs: seq<Vuln>, today: int, py: Python)
    ensures ExitCode(Some(es), Some(vs), today, py) in {0, 1} && NaiveExitCode(Some(es), Some(vs), today, py) in {0, 1}
  {
    hide Review, NaiveReview, Complaints, Index, Crashes;
  }

  // ----- an exception file that only the deduplicating checker accepts

  /** The text of a date that has not passed. */
  predicate Usable(day: string, today: int, py: Python)
  {
    day != [] && OneLine(day) && py.parseDate(day).Some? && today <= py.parseDate(day).value
  }

  /** The exception a maintainer would write for a tuple. */
  function FieldsFor(v: Vuln, day: string, py: Python): seq<Field>
  {
    [Field("package", Strip(Str(v.name, py)), Double), Field("advisory", Strip(Str(v.advisory, py)), Double),
     Field("severity", Strip(Str(v.severity, py)), Double), Field("mitigation", "accepted", Double), Field("expires_on", day, Double)]
  }

  function EntryFor(v: Vuln, day: string, py: Python): Entry
  {
    map["package" := Strip(Str(v.name, py)), "advisory" := Strip(Str(v.advisory, py)),
        "severity" := Strip(Str(v.severity, py)), "mitigation" := "accepted", "expires_on" := day]
  }

  lemma FieldsDenoteEntry(v: Vuln, day: string, py: Python)
    ensures Denoted(map[], FieldsFor(v, day, py)) == EntryFor(v, day, py)
  {
    hide Strip, Str;
    var ps := FieldsFor(v, day, py);
    var e1 := map[][ps[0].key := ps[0].value];
    var e2 := e1[ps[1].key := ps[1].value];
    var e3 := e2[ps[2].key := ps[2].value];
    var e4 := e3[ps[3].key := ps[3].value];
    var e5 := e4[ps[4].key := ps[4].value];
    assert ps[1..][1..] == ps[2..] && ps[2..][1..] == ps[3..] && ps[3..][1..] == ps[4..] && ps[4..][1..] == [];
    assert Denoted(e5, []) == e5;
    assert Denoted(e4, ps[4..]) == e5;
    assert Denoted(e3, ps[3..]) == e5;
    assert Denoted(e2, ps[2..]) == e5;
    assert Denoted(e1, ps[1..]) == e5;
    assert Denoted(map[], ps) == e5;
  }

  /** One exception for the first hit of every key. */
  function Written(vs: seq<Vuln>, day: string, py: Python): seq<Entry>
  {
    if vs == [] then []
    else
      var init, v := vs[..|vs| - 1], vs[|vs| - 1];
      Written(init, day, py) +
      if Screen(v, py).Hit? && !HitBefore(init, Screen(v, py).key, py) then [EntryFor(v, day, py)] else []
  }

  function WrittenFields(vs: seq<Vuln>, day: string, py: Python): seq<seq<Field>>
  {
    if vs == [] then []
    else
      var init, v := vs[..|vs| - 1], vs[|vs| - 1];
      WrittenFields(init, day, py) +
      if Screen(v, py).Hit? && !HitBefore(init, Screen(v, py).key, py) then [FieldsFor(v, day, py)] else []
  }

  /** The file with these exceptions. */
  function WrittenFile(vs: seq<Vuln>, day: string, py: Python): seq<string>
  {
    WrittenNonempty(vs, day, py);
    Terminated(PrintAll(WrittenFields(vs, day, py)))
  }

  lemma {:induction false} DenotedAllLast(es: seq<seq<Field>>, ps: seq<Field>)
    ensures DenotedAll(es + [ps]) == DenotedAll(es) + [Denoted(map[], ps)]
    decreases |es|
  {
    if es == [] {
      assert [] + [ps] == [ps];
    } else {
      assert (es + [ps])[1..] == es[1..] + [ps];
      DenotedAllLast(es[1..], ps);
    }
  }

  lemma {:induction false} WrittenNonempty(vs: seq<Vuln>, day: string, py: Python)
    ensures [] !in WrittenFields(vs, day, py)
    decreases |vs|
  {
    hide Screen, HitBefore;
    if vs != [] {
      WrittenNonempty(vs[..|vs| - 1], day, py);
    }
  }

  lemma {:induction false} WrittenDenoted(vs: seq<Vuln>, day: string, py: Python)
    ensures DenotedAll(WrittenFields(vs, day, py)) == Written(vs, day, py)
    decreases |vs|
  {
    hide Screen, HitBefore, FieldsFor, EntryFor, Denoted;
    if vs != [] {
      var init, v := vs[..|vs| - 1], vs[|vs| - 1];
      WrittenDenoted(init, day, py);
      FieldsDenoteEntry(v, day, py);
      DenotedAllLast(WrittenFields(init, day, py), FieldsFor(v, day, py));
      assert WrittenFields(init, day, py) + [] == WrittenFields(init, day, py);
      assert Written(init, day, py) + [] == Written(init, day, py);
    }
  }

  /** Every field list of the file is that of a hit. */
  lemma {:induction false} WrittenFieldsFor(vs: seq<Vuln>, day: string, py: Python, i: nat) returns (k: nat)
    requires i < |WrittenFields(vs, day, py)|
    ensures k < |vs| && Screen(vs[k], py).Hit? && WrittenFields(vs, day, py)[i] == FieldsFor(vs[k], day, py)
    decreases |vs|
  {
    hide Screen, FieldsFor, HitBefore;
    var n := |vs| - 1;
    if i < |WrittenFields(vs[..n], day, py)| {
      k := WrittenFieldsFor(vs[..n], day, py, i);
    } else {
      k := n;
    }
  }

  predicate Word(s: string)
  {
    s != [] && forall i :: 0 <= i < |s| ==> 'a' <= s[i] <= 'z' || s[i] == '_'
  }

  lemma WordIsPlain(s: string)
    requires Word(s) && s != "version" && s != "exceptions"
    ensures Plain(s) && OneLine(s)
  {
    assert forall i :: 0 <= i < |s| ==> !IsSpace(s[i]);
  }

  lemma Words()
    ensures Word("package") && Word("advisory") && Word("severity") && Word("mitigation") && Word("expires_on")
    ensures Word("accepted") && Word("high") && Word("critical")
  {
  }

  lemma PlainFields()
    ensures Plain("package") && Plain("advisory") && Plain("severity") && Plain("mitigation") && Plain("expires_on")
    ensures OneLine("package") && OneLine("advisory") && OneLine("severity") && OneLine("mitigation") && OneLine("expires_on")
    ensures OneLine("accepted") && OneLine("high") && OneLine("critical")
  {
    hide Word, Plain, OneLine;
    Words();
    WordIsPlain("package");
    WordIsPlain("advisory");
    WordIsPlain("severity");
    WordIsPlain("mitigation");
    WordIsPlain("expires_on");
    WordIsPlain("accepted");
    WordIsPlain("high");
    WordIsPlain("critical");
  }

  /** A hit that is not hopeless has all its texts on one line. */
  lemma FieldsOnOneLine(v: Vuln, day: string, today: int, py: Python, k: nat)
    requires Usable(day, today, py) && KeepsLines(py) && Screen(v, py).Hit? && !Hopeless(v, py)
    requires k < |FieldsFor(v, day, py)|
    ensures FieldsFor(v, day, py)[k].Printable() && OneLine(FieldsFor(v, day, py)[k].key) && OneLine(FieldsFor(v, day, py)[k].value)
  {
    PlainFields();
    HitIsHighOrCritical(v, py);
    hide Strip, Plain, OneLine;
    assert v.severity.Text? && v.severity.text != [];
    assert k == 0 || k == 1 || k == 2 || k == 3 || k == 4;
  }

  /** The file is read back as the exceptions it was written for. */
  lemma WrittenIsRead(vs: seq<Vuln>, day: string, today: int, py: Python)
    requires Usable(day, today, py) && KeepsLines(py) && forall k :: 0 <= k < |vs| ==> !Hopeless(vs[k], py)
    ensures FileLines(WrittenFile(vs, day, py)) && Read(WrittenFile(vs, day, py)) == Some(Written(vs, day, py))
  {
    hide Screen, Hopeless, Usable, KeepsLines, Field.Printable, OneLine, FieldsFor, WrittenFields, Written, Read, FileLines, PrintAll, Terminated, DenotedAll;
    var es: seq<seq<Field>> := WrittenFields(vs, day, py);
    WrittenNonempty(vs, day, py);
    forall i: int, k: int | 0 <= i < |es| && 0 <= k < |es[i]|
      ensures es[i][k].Printable() && OneLine(es[i][k].key) && OneLine(es[i][k].value)
    {
      var x := WrittenFieldsFor(vs, day, py, i);
      FieldsOnOneLine(vs[x], day, today, py, k);
    }
    assert forall i :: 0 <= i < |es| ==> es[i] in es;
    FileOfEntries(es);
    WrittenDenoted(vs, day, py);
  }

  lemma StripTwice(s: string)
    ensures Strip(Strip(s)) == Strip(s)
  {
    hide Strip, IsSpace;
    StripIsTrimmed(s);
    StripTrimmed(Strip(s));
  }

  lemma StripNothing()
    ensures Strip([]) == []
  {
  }

  lemma HitIsHighOrCritical(v: Vuln, py: Python)
    requires Screen(v, py).Hit?
    ensures Screen(v, py).severity == "high" || Screen(v, py).severity == "critical"
  {
    hide Strip;
  }

  lemma EntryAssessed(v: Vuln, day: string, today: int, py: Python)
    requires Usable(day, today, py) && KeepsLines(py) && Screen(v, py).Hit? && !Hopeless(v, py)
    ensures var s := Screen(v, py);
            Assess(EntryFor(v, day, py), py) == Success(Keyed(s.key, Rule(s.severity, py.parseDate(day).value)))
  {
    hide Strip, OneLine;
    StripNothing();
    StripTwice(Str(v.name, py));
    StripTwice(Str(v.advisory, py));
    StripTwice(Str(v.severity, py));
    HitIsHighOrCritical(v, py);
    assert v.severity.Text? && v.severity.text != [];
    var e := EntryFor(v, day, py);
    assert forall f :: f in REQUIRED_FIELDS ==> f in e && e[f] != [];
  }

  predicate FirstOfKey(vs: seq<Vuln>, k: nat, py: Python)
    requires k < |vs|
  {
    Screen(vs[k], py).Hit? && !HitBefore(vs[..k], Screen(vs[k], py).key, py)
  }

  /** Every written entry is for a first hit. */
  lemma {:induction false} WrittenFor(vs: seq<Vuln>, day: string, py: Python, i: nat) returns (k: nat)
    requires i < |Written(vs, day, py)|
    ensures k < |vs| && FirstOfKey(vs, k, py) && Written(vs, day, py)[i] == EntryFor(vs[k], day, py)
    decreases |vs|
  {
    hide Screen, EntryFor, HitBefore;
    var n := |vs| - 1;
    var init := vs[..n];
    if i < |Written(init, day, py)| {
      k := WrittenFor(init, day, py, i);
      assert init[..k] == vs[..k] && init[k] == vs[k];
    } else {
      k := n;
    }
  }

  /** Every first hit has a written entry. */
  lemma {:induction false} WrittenAll(vs: seq<Vuln>, day: string, py: Python, k: nat) returns (i: nat)
    requires k < |vs| && FirstOfKey(vs, k, py)
    ensures i < |Written(vs, day, py)| && Written(vs, day, py)[i] == EntryFor(vs[k], day, py)
    decreases |vs|
  {
    hide Screen, EntryFor, HitBefore;
    var n := |vs| - 1;
    var init := vs[..n];
    if k < n {
      assert init[..k] == vs[..k] && init[k] == vs[k];
      i := WrittenAll(init, day, py, k);
    } else {
      i := |Written(init, day, py)|;
    }
  }

  lemma OneFirst(vs: seq<Vuln>, a: nat, b: nat, py: Python)
    requires a < |vs| && b < |vs| && FirstOfKey(vs, a, py) && FirstOfKey(vs, b, py) && Screen(vs[a], py).key == Screen(vs[b], py).key
    ensures a == b
  {
    hide Screen;
    assert forall x :: 0 <= x < a ==> vs[..a][x] == vs[x];
    assert forall x :: 0 <= x < b ==> vs[..b][x] == vs[x];
  }

  lemma WrittenWellFormed(vs: seq<Vuln>, day: string, today: int, py: Python)
    requires Usable(day, today, py) && KeepsLines(py) && forall k :: 0 <= k < |vs| ==> !Hopeless(vs[k], py)
    ensures WellFormed(Written(vs, day, py), py)
  {
    hide Screen, Assess, HitBefore, EntryFor, Hopeless, Usable, Written, KeepsLines;
    var es := Written(vs, day, py);
    forall i | 0 <= i < |es| ensures Assess(es[i], py).Success? {
      var k := WrittenFor(vs, day, py, i);
      EntryAssessed(vs[k], day, today, py);
    }
  }

  lemma {:induction false} WrittenUnambiguous(vs: seq<Vuln>, day: string, today: int, py: Python)
    requires Usable(day, today, py) && KeepsLines(py) && forall k :: 0 <= k < |vs| ==> !Hopeless(vs[k], py)
    ensures WellFormed(Written(vs, day, py), py) && Unambiguous(Written(vs, day, py), py)
    decreases |vs|
  {
    hide Screen, Assess, EntryFor, Hopeless, Usable, KeepsLines;
    WrittenWellFormed(vs, day, today, py);
    if vs != [] {
      var n := |vs| - 1;
      var init := vs[..n];
      WrittenUnambiguous(init, day, today, py);
      var earlier, es := Written(init, day, py), Written(vs, day, py);
      if |es| > |earlier| {
        EntryAssessed(vs[n], day, today, py);
        forall i | 0 <= i < |earlier| ensures Assess(es[i], py).value.key != Screen(vs[n], py).key {
          var k := WrittenFor(init, day, py, i);
          assert init[k] == vs[k];
          EntryAssessed(vs[k], day, today, py);
        }
      }
    }
  }

  /** Two severities under one key, and no tuple that is hopeless: the file with one exception
      for the first hit of each key passes, though the other severity is in no exception. */
  lemma MixedSeveritySlips(vs: seq<Vuln>, i: nat, j: nat, day: string, today: int, py: Python)
    requires Usable(day, today, py) && KeepsLines(py) && forall k :: 0 <= k < |vs| ==> !Hopeless(vs[k], py)
    requires i < j < |vs| && Screen(vs[i], py).Hit? && Screen(vs[j], py).Hit?
    requires Screen(vs[i], py).key == Screen(vs[j], py).key && Screen(vs[i], py).severity != Screen(vs[j], py).severity
    ensures var lines := WrittenFile(vs, day, py);
            && FileLines(lines)
            && ExitCode(Read(lines), Some(vs), today, py) == 0
            && NaiveExitCode(Read(lines), Some(vs), today, py) == 1
  {
    hide Screen, Assess, EntryFor, HitBefore, ExitCode, NaiveExitCode, Written, WellFormed, Unambiguous, KeepsLines,
         WrittenFile, FileLines, Read, Hopeless;
    var es := Written(vs, day, py);
    WrittenIsRead(vs, day, today, py);
    WrittenUnambiguous(vs, day, today, py);
    ExitCodesAreBinary(es, vs, today, py);
    ExitZeroExactly(es, vs, today, py);
    NaiveZeroExactly(es, vs, today, py);
    forall k | 0 <= k < |vs| ensures InOrder(es, vs, k, today, py) {
      NotCrashed(vs[k], py);
      if FirstOfKey(vs, k, py) {
        var x := WrittenAll(vs, day, py, k);
        EntryAssessed(vs[k], day, today, py);
        assert Approves(es[x], Screen(vs[k], py), today, py);
      }
    }
    var first := FirstHit(vs, i, py);
    var s := Screen(vs[first], py);
    var bad := if Screen(vs[i], py).severity != s.severity then i else j;
    var t := Screen(vs[bad], py);
    HitIsHighOrCritical(vs[first], py);
    forall x | 0 <= x < |es| ensures !Approves(es[x], t, today, py) {
      var k := WrittenFor(vs, day, py, x);
      EntryAssessed(vs[k], day, today, py);
      if Screen(vs[k], py).key == t.key {
        OneFirst(vs, first, k, py);
      }
    }
    assert !NaivelyInOrder(es, vs[bad], today, py);
  }

  lemma NotCrashed(v: Vuln, py: Python)
    requires !Hopeless(v, py)
    ensures Screen(v, py).Hit? || Screen(v, py).Ignored?
  {
    hide Screen;
  }

  /** The two checkers end with the same code on this exception file. */
  predicate SameVerdict(lines: seq<string>, vs: seq<Vuln>, today: int, py: Python)
  {
    ExitCode(Read(lines), Some(vs), today, py) == NaiveExitCode(Read(lines), Some(vs), today, py)
  }

  /** Deduplication never changes the exit code, whatever the exception file, if and only if
      some tuple is hopeless anyway or equal keys carry equal severities. */
  lemma DedupRefinesExactly(vs: seq<Vuln>, day: string, today: int, py: Python)
    requires Usable(day, today, py) && KeepsLines(py)
    ensures (forall lines :: FileLines(lines) ==> SameVerdict(lines, vs, today, py))
            <==> (exists k :: 0 <= k < |vs| && Hopeless(vs[k], py)) || Uniform(vs, py)
  {
    hide Screen, Hopeless, ExitCode, NaiveExitCode, Usable, KeepsLines, Read, FileLines, WrittenFile;
    if k :| 0 <= k < |vs| && Hopeless(vs[k], py) {
      forall lines | FileLines(lines) ensures SameVerdict(lines, vs, today, py) {
        HopelessFails(lines, vs, k, today, py);
      }
    } else if Uniform(vs, py) {
      forall lines | FileLines(lines) ensures SameVerdict(lines, vs, today, py) {
        UniformSameVerdict(lines, vs, today, py);
      }
    } else {
      var i, j :| 0 <= i < j < |vs| && Screen(vs[i], py).Hit? && Screen(vs[j], py).Hit?
                  && Screen(vs[i], py).key == Screen(vs[j], py).key && Screen(vs[i], py).severity != Screen(vs[j], py).severity;
      MixedSeveritySlips(vs, i, j, day, today, py);
      assert !SameVerdict(WrittenFile(vs, day, py), vs, today, py);
    }
  }

  lemma UniformSameVerdict(lines: seq<string>, vs: seq<Vuln>, today: int, py: Python)
    requires Uniform(vs, py)
    ensures SameVerdict(lines, vs, today, py)
  {
    if Read(lines).Some? {
      UniformAgrees(Read(lines).value, vs, today, py);
    }
    hide Read, Review, NaiveReview, Complaints, Index, Crashes;
  }

  /** Deduplication only ever accepts more. */
  lemma NaiveIsStricter(es: seq<Entry>, vs: seq<Vuln>, today: int, py: Python)
    requires NaiveExitCode(Some(es), Some(vs), today, py) == 0
    ensures ExitCode(Some(es), Some(vs), today, py) == 0
  {
    hide Screen, ExitCode, NaiveExitCode, Approved, HitBefore, WellFormed, Unambiguous;
    ExitZeroExactly(es, vs, today, py);
    NaiveZeroExactly(es, vs, today, py);
    forall k | 0 <= k < |vs| ensures InOrder(es, vs, k, today, py) {
      assert NaivelyInOrder(es, vs[k], today, py);
    }
  }
}
