/** The verdict of the audit checker: the index of exceptions, the deduplicated pass over the
    vulnerabilities, and the exit code. */
module AuditVerdict {
  import opened Wrappers
  import opened AuditText
  import opened AuditExceptions
  import opened AuditReport

  const REQUIRED_FIELDS: seq<string> := ["package", "advisory", "severity", "mitigation", "expires_on"]

  datatype Key = Key(package: string, advisory: string)

  /** What the index keeps of an exception. */
  datatype Rule = Rule(severity: string, expiresOn: int)

  datatype Keyed = Keyed(key: Key, rule: Rule)

  datatype Complaint =
    | MissingFields
    | InvalidDate
    | EmptyKey
    | Duplicate(key: Key)
    | NoAdvisory(name: Value)
    | SeverityMismatch(key: Key, expected: string)

  function Normalize(s: string, py: Python): string
  {
    py.lower(Strip(s))
  }

  predicate Complete(e: Entry)
  {
    forall f :: f in REQUIRED_FIELDS ==> f in e && e[f] != []
  }

  /** What main makes of one exception before it looks for duplicates. */
  function Assess(e: Entry, py: Python): Result<Keyed, Complaint>
  {
    if !Complete(e) then Failure(MissingFields)
    else
      assert "expires_on" in REQUIRED_FIELDS && "package" in REQUIRED_FIELDS;
      assert "advisory" in REQUIRED_FIELDS && "severity" in REQUIRED_FIELDS;
      var day := py.parseDate(e["expires_on"]);
      var key := Key(Strip(e["package"]), Normalize(e["advisory"], py));
      if day.None? then Failure(InvalidDate)
      else if key.package == [] || key.advisory == [] then Failure(EmptyKey)
      else Success(Keyed(key, Rule(Normalize(e["severity"], py), day.value)))
  }

  // ----- the index of exceptions

  /** The first well-formed exception of a key decides its rule. */
  function Index(es: seq<Entry>, py: Python): map<Key, Rule>
  {
    if es == [] then map[]
    else
      var index := Index(es[..|es| - 1], py);
      match Assess(es[|es| - 1], py)
      case Success(k) => if k.key in index then index else index[k.key := k.rule]
      case Failure(_) => index
  }

  function Complaints(es: seq<Entry>, py: Python): seq<Complaint>
  {
    if es == [] then []
    else
      var init := es[..|es| - 1];
      Complaints(init, py) +
      match Assess(es[|es| - 1], py)
      case Success(k) => if k.key in Index(init, py) then [Duplicate(k.key)] else []
      case Failure(c) => [c]
  }

  method BuildIndex(es: seq<Entry>, py: Python) returns (index: map<Key, Rule>, errors: seq<Complaint>)
    ensures index == Index(es, py)
    ensures errors == Complaints(es, py)
  {
    hide Strip;
    index, errors := map[], [];
    for i := 0 to |es|
      invariant index == Index(es[..i], py)
      invariant errors == Complaints(es[..i], py)
    {
      assert es[..i + 1][..i] == es[..i] && es[..i + 1][i] == es[i];
      var exc := es[i];
      var complete := HasAll(exc);
      if !complete {
        errors := errors + [MissingFields];
        continue;
      }
      assert "expires_on" in REQUIRED_FIELDS && "package" in REQUIRED_FIELDS;
      assert "advisory" in REQUIRED_FIELDS && "severity" in REQUIRED_FIELDS;
      var severity := Normalize(exc["severity"], py);
      var package := Strip(exc["package"]);
      var advisory := Normalize(exc["advisory"], py);
      var day := py.parseDate(exc["expires_on"]);
      if day.None? {
        errors := errors + [InvalidDate];
        continue;
      }
      if package == [] || advisory == [] {
        errors := errors + [EmptyKey];
        continue;
      }
      var key := Key(package, advisory);
      if key in index {
        errors := errors + [Duplicate(key)];
        continue;
      }
      index := index[key := Rule(severity, day.value)];
    }
    assert es[..|es|] == es;
  }

  method HasAll(e: Entry) returns (ok: bool)
    ensures ok <==> Complete(e)
  {
    for i := 0 to |REQUIRED_FIELDS|
      invariant forall k :: 0 <= k < i ==> REQUIRED_FIELDS[k] in e && e[REQUIRED_FIELDS[k]] != []
    {
      if REQUIRED_FIELDS[i] !in e || e[REQUIRED_FIELDS[i]] == [] {
        return false;
      }
    }
    ok := true;
  }

  predicate WellFormed(es: seq<Entry>, py: Python)
  {
    forall i :: 0 <= i < |es| ==> Assess(es[i], py).Success?
  }

  predicate Unambiguous(es: seq<Entry>, py: Python)
    requires WellFormed(es, py)
  {
    forall i, j :: 0 <= i < j < |es| ==> Assess(es[i], py).value.key != Assess(es[j], py).value.key
  }

  /** The index holds exactly the keys of the well-formed exceptions. */
  lemma {:induction false} IndexedExactly(es: seq<Entry>, py: Python, key: Key)
    ensures key in Index(es, py) <==> exists i :: 0 <= i < |es| && Assess(es[i], py).Success? && Assess(es[i], py).value.key == key
    decreases |es|
  {
    hide Assess;
    if es != [] {
      var init := es[..|es| - 1];
      IndexedExactly(init, py, key);
      if i :| 0 <= i < |init| && Assess(init[i], py).Success? && Assess(init[i], py).value.key == key {
        assert es[i] == init[i];
      }
      if i :| 0 <= i < |es| && Assess(es[i], py).Success? && Assess(es[i], py).value.key == key {
        if i < |init| {
          assert init[i] == es[i];
        }
      }
    }
  }

  /** The index is built without complaint if and only if every exception is well-formed and
      no two share a key. */
  lemma {:induction false} NoComplaintsExactly(es: seq<Entry>, py: Python)
    ensures Complaints(es, py) == [] <==> WellFormed(es, py) && Unambiguous(es, py)
    decreases |es|
  {
    hide Assess;
    if es != [] {
      var init := es[..|es| - 1];
      NoComplaintsExactly(init, py);
      var last := Assess(es[|es| - 1], py);
      assert forall i :: 0 <= i < |init| ==> init[i] == es[i];
      if last.Success? {
        IndexedExactly(init, py, last.value.key);
      }
    }
  }

  lemma {:induction false} RuleOf(es: seq<Entry>, py: Python, i: nat)
    requires WellFormed(es, py) && Unambiguous(es, py) && i < |es|
    ensures var k := Assess(es[i], py).value; k.key in Index(es, py) && Index(es, py)[k.key] == k.rule
    decreases |es|
  {
    hide Assess;
    var init := es[..|es| - 1];
    var k := Assess(es[i], py).value;
    assert forall x :: 0 <= x < |init| ==> init[x] == es[x];
    if i < |init| {
      RuleOf(init, py, i);
    } else {
      IndexedExactly(init, py, k.key);
    }
  }

  // ----- the pass over the vulnerabilities

  /** How far one vulnerability gets: Crash when its severity is no string, Ignored when it is
      not named or not high or critical, Unkeyed when it has no advisory. */
  datatype Screened = Crash | Ignored | Unkeyed | Hit(key: Key, severity: string)

  function NormalizedPackage(v: Value, py: Python): string
  {
    if v.Null? then [] else Strip(Str(v, py))
  }

  function NormalizedAdvisory(v: Value, py: Python): string
  {
    if v.Null? then [] else Normalize(Str(v, py), py)
  }

  /** normalize_severity; None is the AttributeError of a truthy value that is no string. */
  function NormalizedSeverity(v: Value, py: Python): Option<string>
  {
    if !Truthy(v) then Some(Normalize([], py))
    else if v.Text? then Some(Normalize(v.text, py))
    else None
  }

  function Screen(v: Vuln, py: Python): Screened
  {
    var severity := NormalizedSeverity(v.severity, py);
    if severity.None? then Crash
    else if (severity.value != "high" && severity.value != "critical") || !Truthy(v.name) then Ignored
    else
      var advisory := NormalizedAdvisory(v.advisory, py);
      if advisory == [] then Unkeyed else Hit(Key(NormalizedPackage(v.name, py), advisory), severity.value)
  }

  predicate SeverityFits(rule: Rule, severity: string)
  {
    rule.severity == [] || rule.severity == severity
  }

  predicate Covered(index: map<Key, Rule>, hit: Screened, today: int)
    requires hit.Hit?
  {
    hit.key in index && SeverityFits(index[hit.key], hit.severity) && today <= index[hit.key].expiresOn
  }

  /** What the loop of main has collected. */
  datatype Findings = Findings(errors: seq<Complaint>, missing: seq<Screened>, expired: seq<Screened>)

  function Judge(f: Findings, index: map<Key, Rule>, hit: Screened, today: int): Findings
    requires hit.Hit?
  {
    if hit.key !in index then f.(missing := f.missing + [hit])
    else
      var rule := index[hit.key];
      f.(errors := f.errors + if SeverityFits(rule, hit.severity) then [] else [SeverityMismatch(hit.key, hit.severity)],
         expired := f.expired + if rule.expiresOn < today then [hit] else [])
  }

  /** The loop without its set: a hit is judged unless its key has been hit before. */
  function Review(f: Findings, index: map<Key, Rule>, vs: seq<Vuln>, today: int, py: Python): Findings
  {
    if vs == [] then f
    else
      var init := vs[..|vs| - 1];
      var g := Review(f, index, init, today, py);
      match Screen(vs[|vs| - 1], py)
      case Unkeyed => g.(errors := g.errors + [NoAdvisory(vs[|vs| - 1].name)])
      case Hit(key, severity) => if HitBefore(init, key, py) then g else Judge(g, index, Hit(key, severity), today)
      case _ => g
  }

  predicate HitBefore(vs: seq<Vuln>, key: Key, py: Python)
  {
    exists k :: 0 <= k < |vs| && Screen(vs[k], py).Hit? && Screen(vs[k], py).key == key
  }

  predicate Crashes(vs: seq<Vuln>, py: Python)
  {
    exists k :: 0 <= k < |vs| && Screen(vs[k], py).Crash?
  }

  lemma ReviewStep(f: Findings, index: map<Key, Rule>, vs: seq<Vuln>, i: nat, today: int, py: Python)
    requires i < |vs|
    ensures var g := Review(f, index, vs[..i], today, py);
            Review(f, index, vs[..i + 1], today, py) ==
            match Screen(vs[i], py)
            case Unkeyed => g.(errors := g.errors + [NoAdvisory(vs[i].name)])
            case Hit(key, severity) => if HitBefore(vs[..i], key, py) then g else Judge(g, index, Hit(key, severity), today)
            case _ => g
    ensures forall key :: HitBefore(vs[..i + 1], key, py) <==>
                          HitBefore(vs[..i], key, py) || (Screen(vs[i], py).Hit? && Screen(vs[i], py).key == key)
    ensures Crashes(vs[..i + 1], py) <==> Crashes(vs[..i], py) || Screen(vs[i], py).Crash?
    ensures Crashes(vs[..i + 1], py) ==> Crashes(vs, py)
  {
    hide Screen, Judge;
    var next := vs[..i + 1];
    assert next[..i] == vs[..i] && next[i] == vs[i];
    forall key ensures HitBefore(next, key, py) <==>
                       HitBefore(vs[..i], key, py) || (Screen(vs[i], py).Hit? && Screen(vs[i], py).key == key)
    {
      if k :| 0 <= k < |next| && Screen(next[k], py).Hit? && Screen(next[k], py).key == key {
        assert k < i ==> vs[..i][k] == next[k];
      }
      if k :| 0 <= k < |vs[..i]| && Screen(vs[..i][k], py).Hit? && Screen(vs[..i][k], py).key == key {
        assert next[k] == vs[..i][k];
      }
    }
    if k :| 0 <= k < |next| && Screen(next[k], py).Crash? {
      assert vs[k] == next[k] && (k < i ==> vs[..i][k] == next[k]);
    }
    if k :| 0 <= k < |vs[..i]| && Screen(vs[..i][k], py).Crash? {
      assert next[k] == vs[..i][k];
    }
  }

  /** The second half of main: one pass with the set of keys already seen. */
  method Examine(errors: seq<Complaint>, index: map<Key, Rule>, vs: seq<Vuln>, today: int, py: Python) returns (r: Option<Findings>)
    ensures r.None? <==> Crashes(vs, py)
    ensures r.Some? ==> r.value == Review(Findings(errors, [], []), index, vs, today, py)
  {
    hide Strip, Truthy, Judge;
    ghost var start := Findings(errors, [], []);
    var found := Findings(errors, [], []);
    var seen: set<Key> := {};
    for i := 0 to |vs|
      invariant found == Review(start, index, vs[..i], today, py)
      invariant forall key :: key in seen <==> HitBefore(vs[..i], key, py)
      invariant !Crashes(vs[..i], py)
    {
      ReviewStep(start, index, vs, i, today, py);
      var severity := NormalizedSeverity(vs[i].severity, py);
      if severity.None? {
        return None;
      }
      if (severity.value != "high" && severity.value != "critical") || !Truthy(vs[i].name) {
        continue;
      }
      var advisory := NormalizedAdvisory(vs[i].advisory, py);
      if advisory == [] {
        found := found.(errors := found.errors + [NoAdvisory(vs[i].name)]);
        continue;
      }
      var key := Key(NormalizedPackage(vs[i].name, py), advisory);
      if key in seen {
        continue;
      }
      seen := seen + {key};
      found := JudgeHit(found, index, Hit(key, severity.value), today);
    }
    assert vs[..|vs|] == vs;
    r := Some(found);
  }

  method JudgeHit(f: Findings, index: map<Key, Rule>, hit: Screened, today: int) returns (g: Findings)
    requires hit.Hit?
    ensures g == Judge(f, index, hit, today)
  {
    g := f;
    if hit.key !in index {
      g := g.(missing := g.missing + [hit]);
    } else {
      var rule := index[hit.key];
      if rule.severity != [] && rule.severity != hit.severity {
        g := g.(errors := g.errors + [SeverityMismatch(hit.key, hit.severity)]);
      }
      if rule.expiresOn < today {
        g := g.(expired := g.expired + [hit]);
      }
    }
  }
}
