/** What exit code 0 of the audit checker means, and which changes of its input keep it. */
module AuditTheorems {
  import opened Wrappers
  import opened AuditText
  import opened AuditExceptions
  import opened AuditReport
  import opened AuditVerdict

  function ExitCode(es: Option<seq<Entry>>, vs: Option<seq<Vuln>>, today: int, py: Python): int
  {
    if es.None? || vs.None? || Crashes(vs.value, py) then 1
    else
      var f := Review(Findings(Complaints(es.value, py), [], []), Index(es.value, py), vs.value, today, py);
      if f == Findings([], [], []) then 0 else 1
  }

  /** main, from the lines of the exception file and the decoded report to the exit code. An
      exception that is not caught ends the program with code 1 as well. */
  method Validate(lines: seq<string>, data: Value, today: int, py: Python) returns (code: int)
    ensures code == ExitCode(Entries(Significant(lines)), Vulns(data, py), today, py)
  {
    hide Complaints, Index, Review, Crashes, Entries, Significant, Vulns;
    var es := ParseExceptions(lines);
    if es.None? {
      return 1;
    }
    var index, errors := BuildIndex(es.value, py);
    var vs := IterVulns(data, py);
    if vs.None? {
      return 1;
    }
    var found := Examine(errors, index, vs.value, today, py);
    if found.None? {
      return 1;
    }
    var f := found.value;
    if f.missing != [] || f.expired != [] || f.errors != [] {
      return 1;
    }
    code := 0;
  }

  // ----- the declarative verdict

  /** Vulnerability k needs no complaint under the index: the first hit of a key decides. */
  predicate Accounted(index: map<Key, Rule>, vs: seq<Vuln>, k: nat, today: int, py: Python)
    requires k < |vs|
  {
    match Screen(vs[k], py)
    case Ignored => true
    case Hit(key, severity) => HitBefore(vs[..k], key, py) || Covered(index, Hit(key, severity), today)
    case _ => false
  }

  predicate Passes(index: map<Key, Rule>, vs: seq<Vuln>, today: int, py: Python)
  {
    forall k :: 0 <= k < |vs| ==> Accounted(index, vs, k, today, py)
  }

  lemma AccountedBefore(index: map<Key, Rule>, vs: seq<Vuln>, n: nat, k: nat, today: int, py: Python)
    requires k < n <= |vs|
    ensures Accounted(index, vs[..n], k, today, py) == Accounted(index, vs, k, today, py)
  {
    hide Screen, HitBefore, Covered;
    assert vs[..n][..k] == vs[..k];
  }

  lemma JudgedClean(f: Findings, index: map<Key, Rule>, hit: Screened, today: int)
    requires hit.Hit?
    ensures Judge(f, index, hit, today) == Findings([], [], []) <==> f == Findings([], [], []) && Covered(index, hit, today)
  {
  }

  lemma {:induction false} CleanExactly(f: Findings, index: map<Key, Rule>, vs: seq<Vuln>, today: int, py: Python)
    requires !Crashes(vs, py)
    ensures Review(f, index, vs, today, py) == Findings([], [], []) <==> f == Findings([], [], []) && Passes(index, vs, today, py)
    decreases |vs|
  {
    hide Screen, Judge, Covered, HitBefore;
    if vs != [] {
      var n := |vs| - 1;
      var init := vs[..n];
      assert !Crashes(init, py) by {
        forall k | 0 <= k < |init| ensures !Screen(init[k], py).Crash? {
          assert init[k] == vs[k];
        }
      }
      CleanExactly(f, index, init, today, py);
      assert Passes(index, vs, today, py) <==> Passes(index, init, today, py) && Accounted(index, vs, n, today, py) by {
        forall k | 0 <= k < n ensures Accounted(index, init, k, today, py) == Accounted(index, vs, k, today, py) {
          AccountedBefore(index, vs, n, k, today, py);
        }
      }
      var g := Review(f, index, init, today, py);
      var s := Screen(vs[n], py);
      if s.Hit? {
        JudgedClean(g, index, s, today);
      }
    }
  }

  lemma PassingDoesNotCrash(index: map<Key, Rule>, vs: seq<Vuln>, today: int, py: Python)
    requires Passes(index, vs, today, py)
    ensures !Crashes(vs, py)
  {
    hide Screen, HitBefore, Covered;
    forall k | 0 <= k < |vs| ensures !Screen(vs[k], py).Crash? {
      assert Accounted(index, vs, k, today, py);
    }
  }

  /** Some exception is for this key, names no other severity, and has not expired. */
  predicate Approved(es: seq<Entry>, hit: Screened, today: int, py: Python)
    requires hit.Hit?
  {
    exists i :: 0 <= i < |es| && Approves(es[i], hit, today, py)
  }

  predicate Approves(e: Entry, hit: Screened, today: int, py: Python)
    requires hit.Hit?
  {
    var k := Assess(e, py);
    k.Success? && k.value.key == hit.key && SeverityFits(k.value.rule, hit.severity) && today <= k.value.rule.expiresOn
  }

  lemma ApprovedIsCovered(es: seq<Entry>, hit: Screened, today: int, py: Python)
    requires WellFormed(es, py) && Unambiguous(es, py) && hit.Hit?
    ensures Approved(es, hit, today, py) <==> Covered(Index(es, py), hit, today)
  {
    hide Assess, SeverityFits;
    IndexedExactly(es, py, hit.key);
    if Covered(Index(es, py), hit, today) {
      var i :| 0 <= i < |es| && Assess(es[i], py).Success? && Assess(es[i], py).value.key == hit.key;
      RuleOf(es, py, i);
      assert Approves(es[i], hit, today, py);
    }
    if i :| 0 <= i < |es| && Approves(es[i], hit, today, py) {
      RuleOf(es, py, i);
    }
  }

  /** Vulnerability k is in order: not high or critical, not named, hit before, or approved. */
  predicate InOrder(es: seq<Entry>, vs: seq<Vuln>, k: nat, today: int, py: Python)
    requires k < |vs|
  {
    match Screen(vs[k], py)
    case Ignored => true
    case Hit(key, severity) => HitBefore(vs[..k], key, py) || Approved(es, Hit(key, severity), today, py)
    case _ => false
  }

  /** Exit code 0, exactly: every exception is complete, dated and keyed, no two share a key,
      and every vulnerability is in order. */
  lemma ExitZeroExactly(es: seq<Entry>, vs: seq<Vuln>, today: int, py: Python)
    ensures ExitCode(Some(es), Some(vs), today, py) == 0 <==>
            && WellFormed(es, py) && Unambiguous(es, py)
            && forall k :: 0 <= k < |vs| ==> InOrder(es, vs, k, today, py)
  {
    hide Screen, Covered, HitBefore, Approved, Index, Complaints, Crashes, Review;
    NoComplaintsExactly(es, py);
    var index := Index(es, py);
    if WellFormed(es, py) && Unambiguous(es, py) {
      forall k | 0 <= k < |vs| ensures InOrder(es, vs, k, today, py) == Accounted(index, vs, k, today, py) {
        var s := Screen(vs[k], py);
        if s.Hit? {
          ApprovedIsCovered(es, s, today, py);
        }
      }
      if Passes(index, vs, today, py) {
        PassingDoesNotCrash(index, vs, today, py);
      }
    }
    if !Crashes(vs, py) {
      CleanExactly(Findings(Complaints(es, py), [], []), index, vs, today, py);
    }
  }

  /** The first hit of a key. */
  lemma {:induction false} FirstHit(vs: seq<Vuln>, k: nat, py: Python) returns (first: nat)
    requires k < |vs| && Screen(vs[k], py).Hit?
    ensures first <= k && Screen(vs[first], py).Hit? && Screen(vs[first], py).key == Screen(vs[k], py).key
    ensures !HitBefore(vs[..first], Screen(vs[k], py).key, py)
    decreases k
  {
    hide Screen;
    var key := Screen(vs[k], py).key;
    if HitBefore(vs[..k], key, py) {
      var j :| 0 <= j < |vs[..k]| && Screen(vs[..k][j], py).Hit? && Screen(vs[..k][j], py).key == key;
      assert vs[..k][j] == vs[j];
      first := FirstHit(vs, j, py);
    } else {
      first := k;
    }
  }

  lemma ExitCodeIsBinary(es: seq<Entry>, vs: seq<Vuln>, today: int, py: Python)
    ensures ExitCode(Some(es), Some(vs), today, py) in {0, 1}
  {
    hide Review, Complaints, Index, Crashes;
  }

  // ----- stability of the verdict

  lemma {:induction false} TwicePresent(s: seq<Entry>, x: Entry)
    ensures multiset(s)[x] >= 2 <==> exists i, j :: 0 <= i < j < |s| && s[i] == x && s[j] == x
    decreases |s|
  {
    if s != [] {
      var init, last := s[..|s| - 1], s[|s| - 1];
      assert s == init + [last];
      TwicePresent(init, x);
      if i, j :| 0 <= i < j < |init| && init[i] == x && init[j] == x {
        assert s[i] == x && s[j] == x;
      }
      if last == x && x in init {
        var i :| 0 <= i < |init| && init[i] == x;
        assert s[i] == x && s[|s| - 1] == x;
      }
      if i, j :| 0 <= i < j < |s| && s[i] == x && s[j] == x {
        assert init[i] == x;
        assert j < |init| ==> init[j] == x;
      }
    }
  }

  lemma SameMembers(es: seq<Entry>, fs: seq<Entry>, i: nat) returns (j: nat)
    requires multiset(es) == multiset(fs) && i < |fs|
    ensures j < |es| && es[j] == fs[i]
  {
    assert fs[i] in multiset(fs);
    assert fs[i] in es;
    j :| 0 <= j < |es| && es[j] == fs[i];
  }

  lemma UnambiguousPermutes(es: seq<Entry>, fs: seq<Entry>, py: Python)
    requires multiset(es) == multiset(fs) && WellFormed(es, py) && Unambiguous(es, py)
    ensures WellFormed(fs, py) && Unambiguous(fs, py)
  {
    hide Assess;
    forall i | 0 <= i < |fs| ensures Assess(fs[i], py).Success? {
      var j := SameMembers(es, fs, i);
    }
    forall i, j | 0 <= i < j < |fs| ensures Assess(fs[i], py).value.key != Assess(fs[j], py).value.key {
      if fs[i] == fs[j] {
        TwicePresent(fs, fs[i]);
        TwicePresent(es, fs[i]);
      } else {
        var a := SameMembers(es, fs, i);
        var b := SameMembers(es, fs, j);
      }
    }
  }

  lemma InOrderPermutes(es: seq<Entry>, fs: seq<Entry>, vs: seq<Vuln>, k: nat, today: int, py: Python)
    requires multiset(es) == multiset(fs) && k < |vs| && InOrder(es, vs, k, today, py)
    ensures InOrder(fs, vs, k, today, py)
  {
    hide Screen, HitBefore, Approves;
    var s := Screen(vs[k], py);
    if s.Hit? && Approved(es, s, today, py) {
      var i :| 0 <= i < |es| && Approves(es[i], s, today, py);
      var j := SameMembers(fs, es, i);
    }
  }

  /** The order of the exceptions does not matter. */
  lemma ExitCodePermutes(es: seq<Entry>, fs: seq<Entry>, vs: seq<Vuln>, today: int, py: Python)
    requires multiset(es) == multiset(fs)
    ensures ExitCode(Some(es), Some(vs), today, py) == ExitCode(Some(fs), Some(vs), today, py)
  {
    hide ExitCode, InOrder, WellFormed, Unambiguous;
    ExitCodeIsBinary(es, vs, today, py);
    ExitCodeIsBinary(fs, vs, today, py);
    if ExitCode(Some(es), Some(vs), today, py) == 0 {
      ZeroPermutes(es, fs, vs, today, py);
    }
    if ExitCode(Some(fs), Some(vs), today, py) == 0 {
      ZeroPermutes(fs, es, vs, today, py);
    }
  }

  lemma ZeroPermutes(es: seq<Entry>, fs: seq<Entry>, vs: seq<Vuln>, today: int, py: Python)
    requires multiset(es) == multiset(fs) && ExitCode(Some(es), Some(vs), today, py) == 0
    ensures ExitCode(Some(fs), Some(vs), today, py) == 0
  {
    hide ExitCode, InOrder, WellFormed, Unambiguous;
    ExitZeroExactly(es, vs, today, py);
    ExitZeroExactly(fs, vs, today, py);
    UnambiguousPermutes(es, fs, py);
    forall k | 0 <= k < |vs| ensures InOrder(fs, vs, k, today, py) {
      InOrderPermutes(es, fs, vs, k, today, py);
    }
  }

  /** The new exception is well-formed and its key is not taken. */
  predicate Fresh(es: seq<Entry>, e: Entry, py: Python)
    requires WellFormed(es, py)
  {
    Assess(e, py).Success? && forall i :: 0 <= i < |es| ==> Assess(es[i], py).value.key != Assess(e, py).value.key
  }

  /** Adding an exception anywhere to a passing list keeps it passing if and only if the
      exception is well-formed and its key is fresh. */
  lemma AddingExceptionExactly(es: seq<Entry>, e: Entry, fs: seq<Entry>, vs: seq<Vuln>, today: int, py: Python)
    requires ExitCode(Some(es), Some(vs), today, py) == 0 && multiset(fs) == multiset(es + [e])
    ensures WellFormed(es, py)
    ensures ExitCode(Some(fs), Some(vs), today, py) == 0 <==> Fresh(es, e, py)
  {
    hide ExitCode, InOrder, Assess;
    var gs := es + [e];
    ExitCodePermutes(gs, fs, vs, today, py);
    ExitZeroExactly(es, vs, today, py);
    ExitZeroExactly(gs, vs, today, py);
    assert gs[|es|] == e && forall i :: 0 <= i < |es| ==> gs[i] == es[i];
    forall k | 0 <= k < |vs| ensures InOrder(gs, vs, k, today, py) {
      StillInOrder(es, e, vs, k, today, py);
    }
  }

  lemma StillInOrder(es: seq<Entry>, e: Entry, vs: seq<Vuln>, k: nat, today: int, py: Python)
    requires k < |vs| && InOrder(es, vs, k, today, py)
    ensures InOrder(es + [e], vs, k, today, py)
  {
    hide Screen, HitBefore, Approves;
    var s := Screen(vs[k], py);
    if s.Hit? && Approved(es, s, today, py) {
      var i :| 0 <= i < |es| && Approves(es[i], s, today, py);
      assert (es + [e])[i] == es[i];
    }
  }

  /** A run that passes on one day passes on every earlier day. */
  lemma EarlierDayPasses(es: seq<Entry>, vs: seq<Vuln>, today: int, earlier: int, py: Python)
    requires ExitCode(Some(es), Some(vs), today, py) == 0 && earlier <= today
    ensures ExitCode(Some(es), Some(vs), earlier, py) == 0
  {
    hide ExitCode, WellFormed, Unambiguous, Screen, HitBefore, Assess;
    ExitZeroExactly(es, vs, today, py);
    ExitZeroExactly(es, vs, earlier, py);
    forall k | 0 <= k < |vs| ensures InOrder(es, vs, k, earlier, py) {
      assert InOrder(es, vs, k, today, py);
      var s := Screen(vs[k], py);
      if s.Hit? && Approved(es, s, today, py) {
        var i :| 0 <= i < |es| && Approves(es[i], s, today, py);
        assert Approves(es[i], s, earlier, py);
      }
    }
  }

  // ----- from the report to the verdict

  /** Some exception is for this key and has not expired, whatever severity it names. */
  predicate Excused(es: seq<Entry>, key: Key, today: int, py: Python)
  {
    exists i :: 0 <= i < |es| && Assess(es[i], py).Success?
                && Assess(es[i], py).value.key == key && today <= Assess(es[i], py).value.rule.expiresOn
  }

  /** A high or critical tuple, named or not. */
  predicate Severe(v: Vuln, py: Python)
  {
    var severity := NormalizedSeverity(v.severity, py);
    severity == Some("high") || severity == Some("critical")
  }

  /** Exit code 0 excuses every severe tuple that has a name, repeated ones too. */
  lemma ZeroExcusesAll(es: seq<Entry>, vs: seq<Vuln>, v: Vuln, today: int, py: Python)
    requires ExitCode(Some(es), Some(vs), today, py) == 0 && v in vs
    requires Severe(v, py) && Truthy(v.name)
    ensures Screen(v, py).Hit? && Excused(es, Screen(v, py).key, today, py)
  {
    NamedSevere(v, py);
    hide ExitCode, WellFormed, Unambiguous, Screen, HitBefore, Assess;
    ExitZeroExactly(es, vs, today, py);
    var k :| 0 <= k < |vs| && vs[k] == v;
    assert InOrder(es, vs, k, today, py);
    var first := FirstHit(vs, k, py);
    assert InOrder(es, vs, first, today, py);
    var s := Screen(vs[first], py);
    var i :| 0 <= i < |es| && Approves(es[i], s, today, py);
    assert Assess(es[i], py).Success?;
  }

  /** Only named severe tuples are looked at. */
  lemma NamedSevere(v: Vuln, py: Python)
    ensures Screen(v, py).Ignored? <==> !Screen(v, py).Crash? && !(Severe(v, py) && Truthy(v.name))
  {
    hide Strip;
  }

  /** Taking out a tuple that is not named, or not severe, never changes the exit code. */
  lemma IgnoredChangesNothing(es: seq<Entry>, before: seq<Vuln>, v: Vuln, after: seq<Vuln>, today: int, py: Python)
    requires NormalizedSeverity(v.severity, py).Some? && !(Severe(v, py) && Truthy(v.name))
    ensures ExitCode(Some(es), Some(before + [v] + after), today, py) == ExitCode(Some(es), Some(before + after), today, py)
  {
    NamedSevere(v, py);
    SeverityRead(v, py);
    hide *;
    var vs, ws := before + [v] + after, before + after;
    ExitCodeIsBinary(es, vs, today, py);
    ExitCodeIsBinary(es, ws, today, py);
    ExitZeroExactly(es, vs, today, py);
    ExitZeroExactly(es, ws, today, py);
    forall k | 0 <= k < |vs| && k != |before|
      ensures InOrder(es, vs, k, today, py) == InOrder(es, ws, if k < |before| then k else k - 1, today, py)
    {
      SameOrderWithout(es, before, v, after, if k < |before| then k else k - 1, today, py);
    }
    IgnoredInOrder(es, vs, |before|, today, py);
    if forall k :: 0 <= k < |vs| ==> InOrder(es, vs, k, today, py) {
      forall k | 0 <= k < |ws| ensures InOrder(es, ws, k, today, py) {
        var x := if k < |before| then k else k + 1;
        assert InOrder(es, vs, x, today, py);
      }
    }
  }

  lemma IgnoredInOrder(es: seq<Entry>, vs: seq<Vuln>, k: nat, today: int, py: Python)
    requires k < |vs| && Screen(vs[k], py).Ignored?
    ensures InOrder(es, vs, k, today, py)
  {
  }

  lemma SameOrderWithout(es: seq<Entry>, before: seq<Vuln>, v: Vuln, after: seq<Vuln>, k: nat, today: int, py: Python)
    requires k < |before + after| && Screen(v, py).Ignored?
    ensures InOrder(es, before + after, k, today, py) ==
            InOrder(es, before + [v] + after, if k < |before| then k else k + 1, today, py)
  {
    hide Screen, Approved;
    var vs, ws := before + [v] + after, before + after;
    if k < |before| {
      assert vs[..k] == ws[..k];
    } else {
      var n := k - |before|;
      assert ws[..k] == before + after[..n] && vs[..k + 1] == before + [v] + after[..n];
      forall key ensures HitBefore(vs[..k + 1], key, py) == HitBefore(ws[..k], key, py) {
        HitsWithout(before, v, after[..n], key, py);
      }
    }
  }

  lemma HitsWithout(before: seq<Vuln>, v: Vuln, after: seq<Vuln>, key: Key, py: Python)
    requires Screen(v, py).Ignored?
    ensures HitBefore(before + [v] + after, key, py) == HitBefore(before + after, key, py)
  {
    hide Screen;
    var vs, ws := before + [v] + after, before + after;
    if x :| 0 <= x < |vs| && Screen(vs[x], py).Hit? && Screen(vs[x], py).key == key {
      assert x != |before|;
      assert vs[x] == ws[if x < |before| then x else x - 1];
    }
    if x :| 0 <= x < |ws| && Screen(ws[x], py).Hit? && Screen(ws[x], py).key == key {
      assert ws[x] == vs[if x < |before| then x else x + 1];
    }
  }

  /** What a passing run says about one tuple: if it is severe and named, it is excused. */
  predicate Settled(es: seq<Entry>, v: Vuln, today: int, py: Python)
  {
    Severe(v, py) && Truthy(v.name) ==> Screen(v, py).Hit? && Excused(es, Screen(v, py).key, today, py)
  }

  lemma ZeroSettles(es: seq<Entry>, vs: seq<Vuln>, v: Vuln, today: int, py: Python)
    requires ExitCode(Some(es), Some(vs), today, py) == 0 && v in vs
    ensures Settled(es, v, today, py)
  {
    hide ExitCode, Screen, Excused, Severe, Truthy;
    if Severe(v, py) && Truthy(v.name) {
      ZeroExcusesAll(es, vs, v, today, py);
    }
  }

  /** End to end: after a passing run every named high or critical vulnerability of the report
      has an exception that is still valid, in the advisories and for every advisory a package
      is reported via. A vulnerability without a name, and a package whose via names no
      advisory, are not looked at. */
  lemma NothingNamedSlipsThrough(es: seq<Entry>, data: Value, today: int, py: Python)
    requires ExitCode(Some(es), Vulns(data, py), today, py) == 0
    ensures data.Dict?
    ensures forall k :: 0 <= k < |Members(Get(data.members, "advisories"))| ==>
              var a := AdvisoryVuln(Members(Get(data.members, "advisories"))[k].value, py);
              a.Some? && Settled(es, a.value, today, py)
    ensures forall k, via :: 0 <= k < |Members(Get(data.members, "vulnerabilities"))| ==>
              var m := Members(Get(data.members, "vulnerabilities"))[k];
              m.value.Dict? && via in Vias(Get(m.value.members, "via")) && Truthy(via.advisory) ==>
              Settled(es, Vuln(Text(m.key), Get(m.value.members, "severity"), via.advisory), today, py)
  {
    hide ExitCode, AdvisoryVuln, Vias, Get, Settled, Screen, AdvisoryVulns, AllPackageVulns;
    ExitNeedsVulns(es, Vulns(data, py), today, py);
    var vs := Vulns(data, py).value;
    forall k | 0 <= k < |Members(Get(data.members, "advisories"))|
      ensures var a := AdvisoryVuln(Members(Get(data.members, "advisories"))[k].value, py);
              a.Some? && Settled(es, a.value, today, py)
    {
      AdvisoryIsYielded(data, k, py);
      ZeroSettles(es, vs, vs[k], today, py);
    }
    forall k, via | 0 <= k < |Members(Get(data.members, "vulnerabilities"))|
                    && Members(Get(data.members, "vulnerabilities"))[k].value.Dict?
                    && via in Vias(Get(Members(Get(data.members, "vulnerabilities"))[k].value.members, "via"))
                    && Truthy(via.advisory)
      ensures var m := Members(Get(data.members, "vulnerabilities"))[k];
              Settled(es, Vuln(Text(m.key), Get(m.value.members, "severity"), via.advisory), today, py)
    {
      var m := Members(Get(data.members, "vulnerabilities"))[k];
      ViaIsYielded(data, k, via, py);
      ZeroSettles(es, vs, Vuln(Text(m.key), Get(m.value.members, "severity"), via.advisory), today, py);
    }
  }

  lemma ExitNeedsVulns(es: seq<Entry>, vs: Option<seq<Vuln>>, today: int, py: Python)
    requires ExitCode(Some(es), vs, today, py) == 0
    ensures vs.Some?
  {
  }

  // ----- two reports that the checker misjudges

  lemma PlainSeverity(severity: string, py: Python)
    requires (severity == "high" || severity == "low") && py.lower(severity) == severity
    ensures NormalizedSeverity(Text(severity), py) == Some(severity)
  {
    hide Strip, IsSpace;
    Letters();
    StripTrimmed(severity);
  }

  /** One tuple that is not looked at passes without any exception. */
  lemma OneIgnoredPasses(v: Vuln, today: int, py: Python)
    requires NormalizedSeverity(v.severity, py).Some? && !(Severe(v, py) && Truthy(v.name))
    ensures ExitCode(Some([]), Some([v]), today, py) == 0
  {
    NamedSevere(v, py);
    SeverityRead(v, py);
    hide Screen, ExitCode, Truthy, Severe, NormalizedSeverity, InOrder;
    ExitZeroExactly([], [v], today, py);
    IgnoredInOrder([], [v], 0, today, py);
  }

  lemma SeverityRead(v: Vuln, py: Python)
    ensures Screen(v, py).Crash? <==> NormalizedSeverity(v.severity, py).None?
  {
    hide Strip;
  }

  /** A high advisory without module_name and name. */
  function Unnamed(id: string): Value
  {
    Dict([Member("advisories", Dict([Member("1", Dict([Member("severity", Text("high")), Member("github_advisory_id", Text(id))]))]))])
  }

  /** It passes without any exception. */
  lemma UnnamedAdvisoryPasses(id: string, today: int, py: Python)
    requires id != [] && py.lower("high") == "high"
    ensures var data := Unnamed(id);
            && Vulns(data, py) == Some([Vuln(Null, Text("high"), Text(id))])
            && Severe(Vuln(Null, Text("high"), Text(id)), py)
            && ExitCode(Some([]), Vulns(data, py), today, py) == 0
  {
    var v := Vuln(Null, Text("high"), Text(id));
    var a := [Member("severity", Text("high")), Member("github_advisory_id", Text(id))];
    GetSecond("severity", Text("high"), "github_advisory_id", Text(id));
    assert AdvisoryVuln(Dict(a), py) == Some(v) by {
      GetAbsent(a, "module_name");
      GetAbsent(a, "name");
      GetAbsent(a, "cves");
    }
    OneAdvisory(Dict(a), v, py);
    PlainSeverity("high", py);
    assert Severe(v, py);
    OneIgnoredPasses(v, today, py);
  }

  lemma GetSecond(k: string, v: Value, l: string, w: Value)
    requires k != l
    ensures Get([Member(k, v), Member(l, w)], k) == v && Get([Member(k, v), Member(l, w)], l) == w
    ensures forall x :: x != k && x != l ==> Get([Member(k, v), Member(l, w)], x) == Null
  {
    var ms := [Member(k, v), Member(l, w)];
    assert ms[1..] == [Member(l, w)] && [Member(l, w)][1..] == [];
    assert Get(ms, l) == Get(ms[1..], l);
    forall x | x != k && x != l ensures Get(ms, x) == Null {
      GetAbsent(ms, x);
    }
  }

  lemma {:induction false} GetAbsent(ms: seq<Member>, key: string)
    requires forall k :: 0 <= k < |ms| ==> ms[k].key != key
    ensures Get(ms, key) == Null
  {
    if ms != [] {
      GetAbsent(ms[1..], key);
    }
  }

  lemma OneAdvisory(a: Value, v: Vuln, py: Python)
    requires AdvisoryVuln(a, py) == Some(v)
    ensures Vulns(Dict([Member("advisories", Dict([Member("1", a)]))]), py) == Some([v])
  {
    hide AdvisoryVuln;
    var ms := [Member("1", a)];
    var top := [Member("advisories", Dict(ms))];
    GetAbsent(top, "vulnerabilities");
    assert ms[1..] == [];
    assert AdvisoryVulns(ms, py) == Some([v]) by {
      assert [v] + [] == [v];
    }
    assert [v] + [] == [v];
  }

  /** A report of one package, reported via one item. */
  function ReportVia(name: string, severity: string, item: seq<Member>): Value
  {
    Dict([Member("vulnerabilities", Dict([Member(name, Dict([Member("severity", Text(severity)), Member("via", List([Dict(item)]))]))]))])
  }

  /** Reading an item that has nothing but a numeric source raises, so the checker exits with 1 although nothing in it is severe; with a
      title beside the source, the same report passes. */
  lemma NumericSourceRaises(name: string, shown: string, title: string, today: int, py: Python)
    requires title != [] && py.lower("low") == "low"
    ensures var source := Member("source", Number(false, shown));
            && Vulns(ReportVia(name, "low", [source]), py) == None
            && ExitCode(Some([]), Vulns(ReportVia(name, "low", [source]), py), today, py) == 1
            && ExitCode(Some([]), Vulns(ReportVia(name, "low", [source, Member("title", Text(title))]), py), today, py) == 0
  {
    var number := Number(false, shown);
    var bare := [Member("source", number)];
    var titled := [Member("source", number), Member("title", Text(title))];
    GetSecond("source", number, "title", Text(title));
    forall key | key != "source" {
      GetAbsent(bare, key);
    }
    assert ViaItem(Dict(bare)) == Some(Via(number, number));
    assert ViaItem(Dict(titled)) == Some(Via(number, Text(title)));
    OnePackage(name, "low", bare, Via(number, number), py);
    OnePackage(name, "low", titled, Via(number, Text(title)), py);
    var v := Vuln(Text(name), Text("low"), number);
    PlainSeverity("low", py);
    assert !Severe(v, py);
    OneIgnoredPasses(v, today, py);
  }

  lemma OnePackage(name: string, severity: string, item: seq<Member>, via: Via, py: Python)
    requires ViaItem(Dict(item)) == Some(via) && Truthy(via.advisory) && Truthy(via.title)
    ensures Vulns(ReportVia(name, severity, item), py) ==
            if via.title.Text? then Some([Vuln(Text(name), Text(severity), via.advisory)]) else None
  {
    hide ViaItem, Truthy;
    var package := [Member("severity", Text(severity)), Member("via", List([Dict(item)]))];
    GetSecond("severity", Text(severity), "via", List([Dict(item)]));
    var ms := [Member(name, Dict(package))];
    var top := [Member("vulnerabilities", Dict(ms))];
    GetAbsent(top, "advisories");
    assert [Dict(item)][1..] == [] && [via][1..] == [] && ms[1..] == [];
    assert ViaItems([]) == [] && [via] + [] == [via];
    assert ViaItems([Dict(item)]) == [via];
    var v := Vuln(Text(name), Text(severity), via.advisory);
    assert [v] + [] == [v] && [] + [v] == [v];
    assert Named(name, Text(severity), [via]) == [v];
    assert Joinable([via]) <==> via.title.Text? by {
      assert [via][0] == via;
    }
    assert PackageVulns(ms[0]) == if via.title.Text? then Some([v]) else None;
    assert AllPackageVulns(ms) == if via.title.Text? then Some([v]) else None;
  }
}
