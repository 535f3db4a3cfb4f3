/** One exception and one vulnerability: the exit code in terms of the texts they hold. */
module AuditSingle {
  import opened Wrappers
  import opened AuditText
  import opened AuditExceptions
  import opened AuditReport
  import opened AuditVerdict
  import opened AuditTheorems

  // ----- the five required fields

  lemma FieldRequired(f: string)
    ensures f in REQUIRED_FIELDS <==> f in {"package", "advisory", "severity", "mitigation", "expires_on"}
  {
    assert REQUIRED_FIELDS[0] == "package" && REQUIRED_FIELDS[1] == "advisory" && REQUIRED_FIELDS[2] == "severity";
    assert REQUIRED_FIELDS[3] == "mitigation" && REQUIRED_FIELDS[4] == "expires_on";
  }

  /** An exception without one of the five fields is refused, whatever else the list and the
      report hold. */
  lemma IncompleteRefused(es: seq<Entry>, i: nat, f: string, vs: Option<seq<Vuln>>, today: int, py: Python)
    requires i < |es| && f in {"package", "advisory", "severity", "mitigation", "expires_on"}
    requires f !in es[i] || es[i][f] == []
    ensures ExitCode(Some(es), vs, today, py) == 1
  {
    FieldRequired(f);
    assert Assess(es[i], py).Failure?;
    hide ExitCode, InOrder, Unambiguous, Assess;
    if vs.Some? {
      ExitCodeIsBinary(es, vs.value, today, py);
      ExitZeroExactly(es, vs.value, today, py);
    } else {
      NoReportFails(es, today, py);
    }
  }

  lemma NoReportFails(es: seq<Entry>, today: int, py: Python)
    ensures ExitCode(Some(es), None, today, py) == 1
  {
  }

  predicate Given(e: Entry, f: string)
  {
    f in e && e[f] != []
  }

  lemma CompleteExactly(e: Entry)
    ensures Complete(e) <==>
            Given(e, "package") && Given(e, "advisory") && Given(e, "severity") && Given(e, "mitigation") && Given(e, "expires_on")
  {
    forall f: string ensures f in REQUIRED_FIELDS <==> f in {"package", "advisory", "severity", "mitigation", "expires_on"} {
      FieldRequired(f);
    }
    hide REQUIRED_FIELDS;
  }

  // ----- one against one

  /** The exception is in form: all five fields are given, the date is one, and package and
      advisory are more than blanks. */
  predicate InForm(e: Entry, py: Python)
  {
    && Given(e, "package") && Given(e, "advisory") && Given(e, "severity") && Given(e, "mitigation") && Given(e, "expires_on")
    && py.parseDate(e["expires_on"]).Some?
    && Strip(e["package"]) != [] && py.lower(Strip(e["advisory"])) != []
  }

  /** It is for this package, as spelled, and this advisory, in any case; it names this
      severity, in any case, or blanks only; and it has not expired. */
  predicate Lets(e: Entry, name: string, severity: string, id: string, today: int, py: Python)
    requires InForm(e, py)
  {
    && Strip(e["package"]) == Strip(name)
    && py.lower(Strip(e["advisory"])) == py.lower(Strip(id))
    && (py.lower(Strip(e["severity"])) == [] || py.lower(Strip(e["severity"])) == py.lower(Strip(severity)))
    && today <= py.parseDate(e["expires_on"]).value
  }

  predicate High(severity: string, py: Python)
  {
    py.lower(Strip(severity)) == "high" || py.lower(Strip(severity)) == "critical"
  }

  function TextVuln(name: string, severity: string, id: string): Vuln
  {
    Vuln(Text(name), Text(severity), Text(id))
  }

  lemma InFormExactly(e: Entry, py: Python)
    ensures Assess(e, py).Success? <==> InForm(e, py)
    ensures InForm(e, py) ==>
              Assess(e, py).value == Keyed(Key(Strip(e["package"]), py.lower(Strip(e["advisory"]))),
                                           Rule(py.lower(Strip(e["severity"])), py.parseDate(e["expires_on"]).value))
  {
    CompleteExactly(e);
    hide Strip, Complete;
  }

  lemma ScreenText(name: string, severity: string, id: string, py: Python)
    requires name != [] && severity != []
    ensures var s := Screen(TextVuln(name, severity, id), py);
            if !High(severity, py) then s == Ignored
            else if py.lower(Strip(id)) == [] then s == Unkeyed
            else s == Hit(Key(Strip(name), py.lower(Strip(id))), py.lower(Strip(severity)))
  {
    hide Strip;
  }

  /** A number counts as the text it is shown as: pnpm gives some ids as numbers. */
  lemma NumbersCountAsShown(v: Value, severity: Value, shown: string, py: Python)
    requires shown != []
    ensures Screen(Vuln(v, severity, Number(false, shown)), py) == Screen(Vuln(v, severity, Text(shown)), py)
    ensures Screen(Vuln(Number(false, shown), severity, v), py) == Screen(Vuln(Text(shown), severity, v), py)
  {
    hide Strip;
  }

  /** A severity that is given and no text raises; one that is not given is ignored; a severe,
      named tuple without an advisory is a complaint. */
  lemma OddValues(v: Vuln, py: Python)
    requires py.lower([]) == []
    ensures Screen(v, py).Crash? <==> Truthy(v.severity) && !v.severity.Text?
    ensures !Truthy(v.severity) || !Truthy(v.name) ==> Screen(v, py).Ignored? || Screen(v, py).Crash?
    ensures v.severity.Text? && High(v.severity.text, py) && Truthy(v.name) && v.advisory.Null? ==> Screen(v, py).Unkeyed?
  {
    StripTrimmed([]);
    hide Strip;
  }

  lemma ApprovedByOne(e: Entry, hit: Screened, today: int, py: Python)
    requires hit.Hit?
    ensures Approved([e], hit, today, py) <==> Approves(e, hit, today, py)
  {
    hide Approves;
    assert [e][0] == e;
  }

  lemma LetsExactly(e: Entry, name: string, severity: string, id: string, today: int, py: Python)
    requires InForm(e, py) && name != [] && severity != []
    ensures InOrder([e], [TextVuln(name, severity, id)], 0, today, py) <==>
            (High(severity, py) ==> Lets(e, name, severity, id, today, py))
  {
    hide Strip, Screen, Assess, Approved;
    InFormExactly(e, py);
    ScreenText(name, severity, id, py);
    var s := Screen(TextVuln(name, severity, id), py);
    if s.Hit? {
      ApprovedByOne(e, s, today, py);
    }
  }

  /** The exit code for one exception and one vulnerability. */
  lemma OneAgainstOne(e: Entry, name: string, severity: string, id: string, today: int, py: Python)
    requires name != [] && severity != []
    ensures ExitCode(Some([e]), Some([TextVuln(name, severity, id)]), today, py) == 0 <==>
            InForm(e, py) && (High(severity, py) ==> Lets(e, name, severity, id, today, py))
  {
    var v := TextVuln(name, severity, id);
    hide InForm, Assess, ExitCode, InOrder, Lets, High, TextVuln;
    ExitZeroExactly([e], [v], today, py);
    InFormExactly(e, py);
    assert WellFormed([e], py) <==> InForm(e, py) by {
      assert [e][0] == e;
    }
    if InForm(e, py) {
      LetsExactly(e, name, severity, id, today, py);
    }
  }

  // ----- from the report

  /** A report of one advisory. */
  function ReportOf(a: seq<Member>): Value
  {
    Dict([Member("advisories", Dict([Member("1", Dict(a))]))])
  }

  lemma FirstPicked(r: Value, operands: seq<Value>)
    requires operands != [] && Picks(r, operands) && Truthy(operands[0])
    ensures r == operands[0]
  {
  }

  lemma AdvisoryByGitHubID(a: seq<Member>, name: string, severity: string, id: string, py: Python)
    requires name != [] && id != []
    requires Get(a, "module_name") == Text(name) && Get(a, "severity") == Text(severity) && Get(a, "github_advisory_id") == Text(id)
    ensures AdvisoryVuln(Dict(a), py) == Some(TextVuln(name, severity, id))
  {
    hide Get, Picks, AdvisoryVuln;
    AdvisoryReads(a, py);
    var v := AdvisoryVuln(Dict(a), py).value;
    FirstPicked(v.name, [Get(a, "module_name"), Get(a, "name")]);
    FirstPicked(v.advisory, [Get(a, "github_advisory_id"), Get(a, "url"), CveOf(a), ShownID(a, py),
                             Get(a, "title"), Get(a, "advisory"), Get(a, "overview")]);
  }

  /** End to end: an advisory with a GitHub advisory ID needs an exception for that ID, and that
      one is enough, whatever its URL, its CVEs, its id and its texts are. */
  lemma GitHubIDDecides(e: Entry, a: seq<Member>, name: string, severity: string, id: string, today: int, py: Python)
    requires name != [] && severity != [] && id != []
    requires Get(a, "module_name") == Text(name) && Get(a, "severity") == Text(severity) && Get(a, "github_advisory_id") == Text(id)
    ensures ExitCode(Some([e]), Vulns(ReportOf(a), py), today, py) == 0 <==>
            InForm(e, py) && (High(severity, py) ==> Lets(e, name, severity, id, today, py))
  {
    hide *;
    AdvisoryByGitHubID(a, name, severity, id, py);
    OneAdvisory(Dict(a), TextVuln(name, severity, id), py);
    IsReportOf(a);
    OneAgainstOne(e, name, severity, id, today, py);
  }

  lemma IsReportOf(a: seq<Member>)
    ensures ReportOf(a) == Dict([Member("advisories", Dict([Member("1", Dict(a))]))])
  {
  }

  lemma ViaByGitHubID(m: seq<Member>, id: string, title: string)
    requires id != [] && title != [] && Get(m, "github_advisory_id") == Text(id) && Get(m, "title") == Text(title)
    ensures ViaItem(Dict(m)) == Some(Via(Text(id), Text(title)))
  {
    hide Get, Picks, ViaItem;
    ViaPicks(m);
    var via := ViaItem(Dict(m)).value;
    FirstPicked(via.advisory, [Get(m, "github_advisory_id"), Get(m, "url"), Get(m, "source"), Get(m, "title"), Get(m, "name")]);
    FirstPicked(via.title, [Get(m, "title"), Get(m, "url"), Get(m, "advisory"), Get(m, "source")]);
  }

  /** The same for a package that is reported via such an advisory; the name is the package's. */
  lemma GitHubIDDecidesVia(e: Entry, m: seq<Member>, name: string, severity: string, id: string, title: string, today: int, py: Python)
    requires name != [] && severity != [] && id != [] && title != []
    requires Get(m, "github_advisory_id") == Text(id) && Get(m, "title") == Text(title)
    ensures ExitCode(Some([e]), Vulns(ReportVia(name, severity, m), py), today, py) == 0 <==>
            InForm(e, py) && (High(severity, py) ==> Lets(e, name, severity, id, today, py))
  {
    hide *;
    ViaByGitHubID(m, id, title);
    TruthyText(id);
    TruthyText(title);
    OnePackage(name, severity, m, Via(Text(id), Text(title)), py);
    IsTextVuln(name, severity, id);
    OneAgainstOne(e, name, severity, id, today, py);
  }

  lemma TruthyText(s: string)
    ensures Truthy(Text(s)) <==> s != []
  {
    FalsyExactly(Text(s));
  }

  lemma IsTextVuln(name: string, severity: string, id: string)
    ensures TextVuln(name, severity, id) == Vuln(Text(name), Text(severity), Text(id))
  {
  }

  /** Package names are told apart by case: an exception for another spelling does not help. */
  lemma PackageCaseCounts(e: Entry, name: string, severity: string, id: string, today: int, py: Python)
    requires name != [] && High(severity, py) && severity != []
    requires "package" in e && Strip(e["package"]) != Strip(name) && py.lower(e["package"]) == py.lower(name)
    ensures ExitCode(Some([e]), Some([TextVuln(name, severity, id)]), today, py) == 1
  {
    hide ExitCode, InForm, High, TextVuln, Strip;
    OneAgainstOne(e, name, severity, id, today, py);
    ExitCodeIsBinary([e], [TextVuln(name, severity, id)], today, py);
  }
}
