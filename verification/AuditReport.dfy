/** Reading the audit report: the JSON value pnpm wrote and the vulnerabilities found in it. */
module AuditReport {
  import opened Wrappers
  import opened AuditText

  /** Decoded JSON. A number keeps whether it is zero and how str shows it. */
  datatype Value =
    | Null
    | Flag(flag: bool)
    | Number(zero: bool, shown: string)
    | Text(text: string)
    | List(items: seq<Value>)
    | Dict(members: seq<Member>)

  datatype Member = Member(key: string, value: Value)

  /** The library calls that are kept abstract: str.lower, str of a container, date.fromisoformat. */
  datatype Python = Python(lower: string -> string, repr: Value -> string, parseDate: string -> Option<int>)

  predicate Truthy(v: Value)
  {
    match v
    case Null => false
    case Flag(b) => b
    case Number(zero, _) => !zero
    case Text(s) => s != []
    case List(items) => items != []
    case Dict(members) => members != []
  }

  /** Exactly these six kinds of value are falsy. */
  lemma FalsyExactly(v: Value)
    ensures !Truthy(v) <==>
            v == Null || v == Flag(false) || (v.Number? && v.zero) || v == Text("") || v == List([]) || v == Dict([])
  {
  }

  function Or(a: Value, b: Value): Value
  {
    if Truthy(a) then a else b
  }

  function Str(v: Value, py: Python): string
  {
    match v
    case Null => "None"
    case Flag(b) => if b then "True" else "False"
    case Number(_, shown) => shown
    case Text(s) => s
    case _ => py.repr(v)
  }

  /** dict.get; an absent key gives None. */
  function Get(members: seq<Member>, key: string): Value
  {
    if members == [] then Null
    else if members[0].key == key then members[0].value
    else Get(members[1..], key)
  }

  /** An object has one member of a key; that one is found. */
  lemma {:induction false} GetFirst(ms: seq<Member>, k: nat)
    requires k < |ms| && forall i :: 0 <= i < k ==> ms[i].key != ms[k].key
    ensures Get(ms, ms[k].key) == ms[k].value
    decreases k
  {
    if k > 0 {
      GetFirst(ms[1..], k - 1);
    }
  }

  /** What iter_vulns yields, without the title, which only the messages use. */
  datatype Vuln = Vuln(name: Value, severity: Value, advisory: Value)

  /** (cves or [None])[0]; None when indexing raises. */
  function FirstCve(cves: Value): Option<Value>
  {
    if !Truthy(cves) then Some(Null)
    else match cves
      case List(items) => Some(items[0])
      case Text(s) => Some(Text([s[0]]))
      case _ => None
  }

  /** pick_advisory_id. */
  function PickAdvisory(a: seq<Member>, py: Python): Option<Value>
  {
    var id := Get(a, "id");
    var shownID := if id.Null? then Null else Text(Str(id, py));
    var described := Or(shownID, Or(Get(a, "title"), Or(Get(a, "advisory"), Get(a, "overview"))));
    var cve := FirstCve(Get(a, "cves"));
    if Truthy(Get(a, "github_advisory_id")) then Some(Get(a, "github_advisory_id"))
    else if Truthy(Get(a, "url")) then Some(Get(a, "url"))
    else if cve.None? then None
    else Some(Or(cve.value, described))
  }

  /** One member of advisories; None when reading it raises. */
  function AdvisoryVuln(a: Value, py: Python): Option<Vuln>
  {
    if !a.Dict? then None
    else match PickAdvisory(a.members, py)
      case None => None
      case Some(id) => Some(Vuln(Or(Get(a.members, "module_name"), Get(a.members, "name")), Get(a.members, "severity"), id))
  }

  datatype Via = Via(advisory: Value, title: Value)

  /** What one item of a via list names; items that are neither dict nor string name nothing. */
  function ViaItem(item: Value): Option<Via>
  {
    match item
    case Dict(m) =>
      Some(Via(
        Or(Get(m, "github_advisory_id"), Or(Get(m, "url"), Or(Get(m, "source"), Or(Get(m, "title"), Get(m, "name"))))),
        Or(Get(m, "title"), Or(Get(m, "url"), Or(Get(m, "advisory"), Get(m, "source"))))))
    case Text(_) => Some(Via(item, item))
    case _ => None
  }

  function ViaItems(items: seq<Value>): seq<Via>
  {
    if items == [] then []
    else (match ViaItem(items[0]) case Some(v) => [v] case None => []) + ViaItems(items[1..])
  }

  function Vias(via: Value): seq<Via>
  {
    match via
    case List(items) => ViaItems(items)
    case Text(_) => [Via(via, via)]
    case _ => []
  }

  /** Joining the titles raises when a title that is not empty is no string. */
  predicate Joinable(vias: seq<Via>)
  {
    forall k :: 0 <= k < |vias| ==> Truthy(vias[k].title) ==> vias[k].title.Text?
  }

  function Named(name: string, severity: Value, vias: seq<Via>): seq<Vuln>
  {
    if vias == [] then []
    else (if Truthy(vias[0].advisory) then [Vuln(Text(name), severity, vias[0].advisory)] else []) + Named(name, severity, vias[1..])
  }

  /** One member of vulnerabilities; None when reading it raises. */
  function PackageVulns(m: Member): Option<seq<Vuln>>
  {
    if !m.value.Dict? then None
    else
      var vias := Vias(Get(m.value.members, "via"));
      if !Joinable(vias) then None else Some(Named(m.key, Get(m.value.members, "severity"), vias))
  }

  function Join(a: Option<seq<Vuln>>, b: Option<seq<Vuln>>): Option<seq<Vuln>>
  {
    if a.None? || b.None? then None else Some(a.value + b.value)
  }

  function AdvisoryVulns(ms: seq<Member>, py: Python): Option<seq<Vuln>>
  {
    if ms == [] then Some([])
    else
      var v := AdvisoryVuln(ms[0].value, py);
      Join(if v.None? then None else Some([v.value]), AdvisoryVulns(ms[1..], py))
  }

  function AllPackageVulns(ms: seq<Member>): Option<seq<Vuln>>
  {
    if ms == [] then Some([]) else Join(PackageVulns(ms[0]), AllPackageVulns(ms[1..]))
  }

  function Members(v: Value): seq<Member>
  {
    if v.Dict? then v.members else []
  }

  /** Everything iter_vulns yields for a report, advisories first. */
  function Vulns(data: Value, py: Python): Option<seq<Vuln>>
  {
    if !data.Dict? then None
    else Join(AdvisoryVulns(Members(Get(data.members, "advisories")), py),
              AllPackageVulns(Members(Get(data.members, "vulnerabilities"))))
  }

  lemma JoinOne(done: seq<Vuln>, v: Vuln, rest: Option<seq<Vuln>>)
    ensures Join(Some(done), Join(Some([v]), rest)) == Join(Some(done + [v]), rest)
  {
    if rest.Some? {
      assert done + ([v] + rest.value) == done + [v] + rest.value;
    }
  }

  lemma JoinAssociates(a: Option<seq<Vuln>>, b: Option<seq<Vuln>>, c: Option<seq<Vuln>>)
    ensures Join(a, Join(b, c)) == Join(Join(a, b), c)
  {
    if a.Some? && b.Some? && c.Some? {
      assert a.value + (b.value + c.value) == a.value + b.value + c.value;
    }
  }

  lemma JoinNothing(a: Option<seq<Vuln>>)
    ensures Join(Some([]), a) == a && Join(a, Some([])) == a
  {
    if a.Some? {
      assert [] + a.value == a.value == a.value + [];
    }
  }

  /** iter_vulns, collected; None when the generator raises. */
  method IterVulns(data: Value, py: Python) returns (r: Option<seq<Vuln>>)
    ensures r == Vulns(data, py)
  {
    if !data.Dict? {
      return None;
    }
    var advisories := Get(data.members, "advisories");
    var first := Some([]);
    if advisories.Dict? {
      first := IterAdvisories(advisories.members, py);
    }
    if first.None? {
      return None;
    }
    var vulnerabilities := Get(data.members, "vulnerabilities");
    var second := Some([]);
    if vulnerabilities.Dict? {
      second := IterPackages(vulnerabilities.members);
    }
    r := Join(first, second);
  }

  method IterAdvisories(ms: seq<Member>, py: Python) returns (r: Option<seq<Vuln>>)
    ensures r == AdvisoryVulns(ms, py)
  {
    hide AdvisoryVuln, Join;
    var found: seq<Vuln> := [];
    JoinNothing(AdvisoryVulns(ms, py));
    assert ms[0..] == ms;
    for i := 0 to |ms|
      invariant Join(Some(found), AdvisoryVulns(ms[i..], py)) == AdvisoryVulns(ms, py)
    {
      assert ms[i..][0] == ms[i] && ms[i..][1..] == ms[i + 1..];
      var v := AdvisoryVuln(ms[i].value, py);
      RaisesJoined(Some(found), AdvisoryVulns(ms[i + 1..], py));
      if v.None? {
        return None;
      }
      JoinOne(found, v.value, AdvisoryVulns(ms[i + 1..], py));
      found := found + [v.value];
    }
    JoinNothing(Some(found));
    r := Some(found);
  }

  lemma RaisesJoined(a: Option<seq<Vuln>>, b: Option<seq<Vuln>>)
    ensures Join(a, Join(None, b)) == None
  {
  }

  method IterPackages(ms: seq<Member>) returns (r: Option<seq<Vuln>>)
    ensures r == AllPackageVulns(ms)
  {
    hide PackageVulns, Join;
    var found := Some([]);
    JoinNothing(AllPackageVulns(ms));
    assert ms[0..] == ms;
    for i := 0 to |ms|
      invariant found.Some?
      invariant Join(found, AllPackageVulns(ms[i..])) == AllPackageVulns(ms)
    {
      assert ms[i..][0] == ms[i] && ms[i..][1..] == ms[i + 1..];
      var vs := IterPackage(ms[i]);
      JoinAssociates(found, vs, AllPackageVulns(ms[i + 1..]));
      RaisesJoined(found, AllPackageVulns(ms[i + 1..]));
      if vs.None? {
        return None;
      }
      BothJoined(found, vs);
      found := Join(found, vs);
    }
    JoinNothing(found);
    r := found;
  }

  lemma BothJoined(a: Option<seq<Vuln>>, b: Option<seq<Vuln>>)
    ensures a.Some? && b.Some? ==> Join(a, b).Some?
  {
  }

  /** The body of the second loop of iter_vulns: collect what via names, then yield it. */
  method IterPackage(m: Member) returns (r: Option<seq<Vuln>>)
    ensures r == PackageVulns(m)
  {
    hide Vias, Get, Joinable, Named;
    if !m.value.Dict? {
      return None;
    }
    var severity := Get(m.value.members, "severity");
    var vias := CollectVias(Get(m.value.members, "via"));
    var joined := JoinTitles(vias);
    if !joined {
      return None;
    }
    var found := YieldNamed(m.key, severity, vias);
    r := Some(found);
  }

  method CollectVias(via: Value) returns (vias: seq<Via>)
    ensures vias == Vias(via)
  {
    hide ViaItem, ViaItems;
    vias := [];
    if via.List? {
      assert via.items[0..] == via.items;
      assert vias + ViaItems(via.items) == ViaItems(via.items);
      for i := 0 to |via.items|
        invariant vias + ViaItems(via.items[i..]) == ViaItems(via.items)
      {
        ViaStep(via.items, i, vias);
        var item := ViaItem(via.items[i]);
        if item.Some? {
          vias := vias + [item.value];
        }
      }
      assert via.items[|via.items|..] == [];
      NoVias(vias);
    } else if via.Text? {
      vias := [Via(via, via)];
    }
  }

  lemma ViaStep(items: seq<Value>, i: nat, vias: seq<Via>)
    requires i < |items|
    ensures vias + ViaItems(items[i..]) ==
            (if ViaItem(items[i]).Some? then vias + [ViaItem(items[i]).value] else vias) + ViaItems(items[i + 1..])
  {
    hide ViaItem;
    assert items[i..][0] == items[i] && items[i..][1..] == items[i + 1..];
  }

  lemma NoVias(vias: seq<Via>)
    ensures vias + ViaItems([]) == vias
  {
  }

  method JoinTitles(vias: seq<Via>) returns (ok: bool)
    ensures ok <==> Joinable(vias)
  {
    for i := 0 to |vias|
      invariant forall k :: 0 <= k < i ==> Truthy(vias[k].title) ==> vias[k].title.Text?
    {
      if Truthy(vias[i].title) && !vias[i].title.Text? {
        return false;
      }
    }
    ok := true;
  }

  method YieldNamed(name: string, severity: Value, vias: seq<Via>) returns (found: seq<Vuln>)
    ensures found == Named(name, severity, vias)
  {
    hide Truthy, Named;
    found := [];
    assert vias[0..] == vias;
    assert found + Named(name, severity, vias) == Named(name, severity, vias);
    for i := 0 to |vias|
      invariant found + Named(name, severity, vias[i..]) == Named(name, severity, vias)
    {
      NamedStep(name, severity, vias, i, found);
      if Truthy(vias[i].advisory) {
        found := found + [Vuln(Text(name), severity, vias[i].advisory)];
      }
    }
    assert vias[|vias|..] == [];
    NamedNothing(name, severity, found);
  }

  lemma NamedStep(name: string, severity: Value, vias: seq<Via>, i: nat, found: seq<Vuln>)
    requires i < |vias|
    ensures found + Named(name, severity, vias[i..]) ==
            (if Truthy(vias[i].advisory) then found + [Vuln(Text(name), severity, vias[i].advisory)] else found)
            + Named(name, severity, vias[i + 1..])
  {
    hide Truthy;
    assert vias[i..][0] == vias[i] && vias[i..][1..] == vias[i + 1..];
  }

  lemma NamedNothing(name: string, severity: Value, found: seq<Vuln>)
    ensures found + Named(name, severity, []) == found
  {
  }

  // ----- which identifier an advisory is looked up by

  /** A chain of or: the first truthy operand, or the last one if none is truthy. */
  ghost predicate Picks(r: Value, operands: seq<Value>)
  {
    || (exists n :: 0 <= n < |operands| && r == operands[n] && Truthy(r) && forall i :: 0 <= i < n ==> !Truthy(operands[i]))
    || (operands != [] && r == operands[|operands| - 1] && forall i :: 0 <= i < |operands| ==> !Truthy(operands[i]))
  }

  lemma PicksAt(operands: seq<Value>, n: nat)
    requires n < |operands| && forall i :: 0 <= i < n ==> !Truthy(operands[i])
    requires Truthy(operands[n]) || n == |operands| - 1
    ensures Picks(operands[n], operands)
  {
  }

  lemma FourPicks(a: Value, b: Value, c: Value, d: Value)
    ensures Picks(Or(a, Or(b, Or(c, d))), [a, b, c, d])
  {
    hide Truthy, Picks;
    PicksAt([a, b, c, d], if Truthy(a) then 0 else if Truthy(b) then 1 else if Truthy(c) then 2 else 3);
  }

  lemma FivePicks(a: Value, b: Value, c: Value, d: Value, e: Value)
    ensures Picks(Or(a, Or(b, Or(c, Or(d, e)))), [a, b, c, d, e])
  {
    hide Truthy, Picks;
    PicksAt([a, b, c, d, e], if Truthy(a) then 0 else if Truthy(b) then 1 else if Truthy(c) then 2 else if Truthy(d) then 3 else 4);
  }

  lemma SevenPicks(a: Value, b: Value, c: Value, d: Value, e: Value, f: Value, g: Value)
    ensures Picks(Or(a, Or(b, Or(c, Or(d, Or(e, Or(f, g)))))), [a, b, c, d, e, f, g])
  {
    hide Truthy, Picks;
    PicksAt([a, b, c, d, e, f, g],
            if Truthy(a) then 0 else if Truthy(b) then 1 else if Truthy(c) then 2 else if Truthy(d) then 3
            else if Truthy(e) then 4 else if Truthy(f) then 5 else 6);
  }

  /** The first CVE, if there is any: a string is indexed like a list. */
  function CveOf(a: seq<Member>): Value
  {
    match Get(a, "cves")
    case List(items) => if items == [] then Null else items[0]
    case Text(s) => if s == [] then Null else Text(s[..1])
    case _ => Null
  }

  /** The id as text: a string as it is, a number as it is shown. */
  function ShownID(a: seq<Member>, py: Python): Value
  {
    match Get(a, "id")
    case Null => Null
    case Flag(b) => Text(if b then "True" else "False")
    case Number(_, shown) => Text(shown)
    case Text(s) => Text(s)
    case v => Text(py.repr(v))
  }

  /** An advisory is looked up by the first truthy one of these seven, in this order. */
  lemma AdvisoryPicks(a: seq<Member>, py: Python)
    ensures UnreadableCves(a) ==> PickAdvisory(a, py) == None
    ensures !UnreadableCves(a) ==>
              PickAdvisory(a, py).Some? &&
              Picks(PickAdvisory(a, py).value,
                    [Get(a, "github_advisory_id"), Get(a, "url"), CveOf(a), ShownID(a, py),
                     Get(a, "title"), Get(a, "advisory"), Get(a, "overview")])
  {
    hide Get, Picks;
    SevenPicks(Get(a, "github_advisory_id"), Get(a, "url"), CveOf(a), ShownID(a, py),
               Get(a, "title"), Get(a, "advisory"), Get(a, "overview"));
    PickIsOr(a, py);
  }

  lemma CveRead(a: seq<Member>)
    ensures FirstCve(Get(a, "cves")) == None || FirstCve(Get(a, "cves")) == Some(CveOf(a))
    ensures FirstCve(Get(a, "cves")) == None <==> Truthy(Get(a, "cves")) && !Get(a, "cves").List? && !Get(a, "cves").Text?
  {
    hide Get;
    if Get(a, "cves").Text? && Get(a, "cves").text != [] {
      assert [Get(a, "cves").text[0]] == Get(a, "cves").text[..1];
    }
  }

  lemma IDRead(a: seq<Member>, py: Python)
    ensures ShownID(a, py) == if Get(a, "id").Null? then Null else Text(Str(Get(a, "id"), py))
  {
    hide Get;
  }

  lemma PickIsOr(a: seq<Member>, py: Python)
    ensures UnreadableCves(a) ==> PickAdvisory(a, py) == None
    ensures !UnreadableCves(a) ==>
              PickAdvisory(a, py) ==
              Some(Or(Get(a, "github_advisory_id"), Or(Get(a, "url"), Or(CveOf(a), Or(ShownID(a, py),
                      Or(Get(a, "title"), Or(Get(a, "advisory"), Get(a, "overview"))))))))
  {
    CveRead(a);
    IDRead(a, py);
    hide Get, FirstCve, CveOf, ShownID, Str, Truthy;
  }

  /** The tuple of an advisory: who it is about, how severe it is, what it is looked up by. */
  lemma AdvisoryReads(a: seq<Member>, py: Python)
    requires !UnreadableCves(a)
    ensures var v := AdvisoryVuln(Dict(a), py);
            && v.Some?
            && Picks(v.value.name, [Get(a, "module_name"), Get(a, "name")])
            && v.value.severity == Get(a, "severity")
            && Picks(v.value.advisory,
                     [Get(a, "github_advisory_id"), Get(a, "url"), CveOf(a), ShownID(a, py),
                      Get(a, "title"), Get(a, "advisory"), Get(a, "overview")])
  {
    hide Get, Picks, Truthy, PickAdvisory;
    AdvisoryPicks(a, py);
    PicksAt([Get(a, "module_name"), Get(a, "name")], if Truthy(Get(a, "module_name")) then 0 else 1);
  }

  /** An item of a via list is looked up by the first truthy one of five members, and its title
      is the first truthy one of four. */
  lemma ViaPicks(m: seq<Member>)
    ensures ViaItem(Dict(m)).Some?
    ensures Picks(ViaItem(Dict(m)).value.advisory,
                  [Get(m, "github_advisory_id"), Get(m, "url"), Get(m, "source"), Get(m, "title"), Get(m, "name")])
    ensures Picks(ViaItem(Dict(m)).value.title, [Get(m, "title"), Get(m, "url"), Get(m, "advisory"), Get(m, "source")])
  {
    hide Get, Picks, Truthy, Or;
    FivePicks(Get(m, "github_advisory_id"), Get(m, "url"), Get(m, "source"), Get(m, "title"), Get(m, "name"));
    FourPicks(Get(m, "title"), Get(m, "url"), Get(m, "advisory"), Get(m, "source"));
  }

  /** A string in a via list names an advisory and is its title; anything else names none. */
  lemma OtherVias(item: Value)
    requires !item.Dict?
    ensures ViaItem(item) == if item.Text? then Some(Via(item, item)) else None
  {
  }

  // ----- when reading the report raises

  /** pick_advisory_id gets as far as cves and cannot take its first element. */
  predicate UnreadableCves(a: seq<Member>)
  {
    var cves := Get(a, "cves");
    && !Truthy(Get(a, "github_advisory_id")) && !Truthy(Get(a, "url"))
    && Truthy(cves) && !cves.List? && !cves.Text?
  }

  predicate BadAdvisory(a: Value)
  {
    !a.Dict? || UnreadableCves(a.members)
  }

  /** The title of an item reported via is no string: a number used as source, for example. */
  predicate BadPackage(p: Value)
  {
    !p.Dict? || exists via :: via in Vias(Get(p.members, "via")) && Truthy(via.title) && !via.title.Text?
  }

  predicate SomeBad(ms: seq<Member>, bad: Value -> bool)
  {
    exists k :: 0 <= k < |ms| && bad(ms[k].value)
  }

  lemma {:induction false} AdvisoriesRaiseExactly(ms: seq<Member>, py: Python)
    ensures AdvisoryVulns(ms, py).None? <==> SomeBad(ms, BadAdvisory)
  {
    if ms != [] {
      AdvisoriesRaiseExactly(ms[1..], py);
      AdvisoryRaisesExactly(ms[0].value, py);
      SomeBadFirst(ms, BadAdvisory);
      hide AdvisoryVuln, BadAdvisory, SomeBad;
    }
  }

  lemma AdvisoryRaisesExactly(a: Value, py: Python)
    ensures AdvisoryVuln(a, py).None? <==> BadAdvisory(a)
  {
    hide Truthy, Get, Str;
  }

  lemma {:induction false} PackagesRaiseExactly(ms: seq<Member>)
    ensures AllPackageVulns(ms).None? <==> SomeBad(ms, BadPackage)
  {
    if ms != [] {
      PackagesRaiseExactly(ms[1..]);
      PackageRaisesExactly(ms[0]);
      SomeBadFirst(ms, BadPackage);
      hide PackageVulns, BadPackage, SomeBad;
    }
  }

  lemma PackageRaisesExactly(m: Member)
    ensures PackageVulns(m).None? <==> BadPackage(m.value)
  {
    hide Truthy, Get, Vias;
    if m.value.Dict? {
      var vias := Vias(Get(m.value.members, "via"));
      if via :| via in vias && Truthy(via.title) && !via.title.Text? {
        var k :| 0 <= k < |vias| && vias[k] == via;
        assert !Joinable(vias);
      }
    }
  }

  lemma SomeBadFirst(ms: seq<Member>, bad: Value -> bool)
    requires ms != []
    ensures SomeBad(ms, bad) <==> bad(ms[0].value) || SomeBad(ms[1..], bad)
  {
    if k :| 0 <= k < |ms[1..]| && bad(ms[1..][k].value) {
      assert bad(ms[k + 1].value);
    }
    if k :| 0 < k < |ms| && bad(ms[k].value) {
      assert bad(ms[1..][k - 1].value);
    }
  }

  /** Reading a report raises, exactly: it is no object, or one of its advisories is none or
      has cves that cannot be indexed, or one of its packages is none or is reported via an
      item whose title is truthy and no string. */
  lemma VulnsRaiseExactly(data: Value, py: Python)
    ensures Vulns(data, py).None? <==>
            || !data.Dict?
            || SomeBad(Members(Get(data.members, "advisories")), BadAdvisory)
            || SomeBad(Members(Get(data.members, "vulnerabilities")), BadPackage)
  {
    hide SomeBad, AdvisoryVulns, AllPackageVulns, Get;
    if data.Dict? {
      AdvisoriesRaiseExactly(Members(Get(data.members, "advisories")), py);
      PackagesRaiseExactly(Members(Get(data.members, "vulnerabilities")));
    }
  }

  // ----- nothing in the report is skipped

  lemma {:induction false} EveryAdvisoryYields(ms: seq<Member>, k: nat, py: Python)
    requires AdvisoryVulns(ms, py).Some? && k < |ms|
    ensures |AdvisoryVulns(ms, py).value| == |ms|
    ensures Some(AdvisoryVulns(ms, py).value[k]) == AdvisoryVuln(ms[k].value, py)
    decreases |ms|
  {
    hide AdvisoryVuln;
    if |ms| > 1 {
      EveryAdvisoryYields(ms[1..], if k > 0 then k - 1 else 0, py);
    }
  }

  lemma {:induction false} EveryPackageYields(ms: seq<Member>, k: nat, v: Vuln)
    requires AllPackageVulns(ms).Some? && k < |ms|
    ensures PackageVulns(ms[k]).Some?
    ensures v in PackageVulns(ms[k]).value ==> v in AllPackageVulns(ms).value
    decreases |ms|
  {
    hide PackageVulns;
    if k > 0 {
      EveryPackageYields(ms[1..], k - 1, v);
    }
  }

  lemma {:induction false} EveryViaYields(name: string, severity: Value, vias: seq<Via>, k: nat)
    requires k < |vias| && Truthy(vias[k].advisory)
    ensures Vuln(Text(name), severity, vias[k].advisory) in Named(name, severity, vias)
    decreases |vias|
  {
    if k > 0 {
      EveryViaYields(name, severity, vias[1..], k - 1);
    }
  }

  lemma {:induction false} EveryItemNamed(items: seq<Value>, k: nat)
    requires k < |items| && ViaItem(items[k]).Some?
    ensures ViaItem(items[k]).value in ViaItems(items)
    decreases |items|
  {
    hide ViaItem;
    if k > 0 {
      EveryItemNamed(items[1..], k - 1);
    }
  }

  /** The tuples of the advisories come first, one for each, in their order. */
  lemma AdvisoryIsYielded(data: Value, k: nat, py: Python)
    requires Vulns(data, py).Some? && data.Dict?
    requires var ms := Members(Get(data.members, "advisories")); k < |ms|
    ensures var a := Members(Get(data.members, "advisories"))[k].value;
            k < |Vulns(data, py).value| && AdvisoryVuln(a, py) == Some(Vulns(data, py).value[k])
  {
    hide AdvisoryVuln, AllPackageVulns, AdvisoryVulns, Get;
    EveryAdvisoryYields(Members(Get(data.members, "advisories")), k, py);
  }

  /** Every advisory a vulnerability is reported via is yielded under the package's name. */
  lemma ViaIsYielded(data: Value, k: nat, via: Via, py: Python)
    requires Vulns(data, py).Some? && data.Dict?
    requires var ms := Members(Get(data.members, "vulnerabilities")); k < |ms|
    requires var m := Members(Get(data.members, "vulnerabilities"))[k];
             m.value.Dict? && via in Vias(Get(m.value.members, "via")) && Truthy(via.advisory)
    ensures var m := Members(Get(data.members, "vulnerabilities"))[k];
            Vuln(Text(m.key), Get(m.value.members, "severity"), via.advisory) in Vulns(data, py).value
  {
    hide AllPackageVulns, AdvisoryVulns, Get, Vias, Named;
    var ms := Members(Get(data.members, "vulnerabilities"));
    var m := ms[k];
    var vias := Vias(Get(m.value.members, "via"));
    var x :| 0 <= x < |vias| && vias[x] == via;
    var severity := Get(m.value.members, "severity");
    EveryViaYields(m.key, severity, vias, x);
    EveryPackageYields(ms, k, Vuln(Text(m.key), severity, via.advisory));
  }

  // ----- and nothing else is yielded

  /** The tuple is that of an advisory the package is reported via. */
  ghost predicate ReportedVia(m: Member, v: Vuln)
  {
    m.value.Dict? &&
    exists via :: via in Vias(Get(m.value.members, "via")) && Truthy(via.advisory)
                  && v == Vuln(Text(m.key), Get(m.value.members, "severity"), via.advisory)
  }

  ghost predicate FromAdvisory(ms: seq<Member>, v: Vuln, py: Python)
  {
    exists k :: 0 <= k < |ms| && AdvisoryVuln(ms[k].value, py) == Some(v)
  }

  ghost predicate FromPackage(ms: seq<Member>, v: Vuln)
  {
    exists k :: 0 <= k < |ms| && ReportedVia(ms[k], v)
  }

  lemma {:induction false} NamedFrom(name: string, severity: Value, vias: seq<Via>, v: Vuln)
    requires v in Named(name, severity, vias)
    ensures exists via :: via in vias && Truthy(via.advisory) && v == Vuln(Text(name), severity, via.advisory)
    decreases |vias|
  {
    hide Truthy;
    if v in Named(name, severity, vias[1..]) {
      NamedFrom(name, severity, vias[1..], v);
    } else {
      assert vias[0] in vias;
    }
  }

  lemma {:induction false} PackagesFrom(ms: seq<Member>, v: Vuln)
    requires AllPackageVulns(ms).Some? && v in AllPackageVulns(ms).value
    ensures FromPackage(ms, v)
    decreases |ms|
  {
    hide Vias, Get, Truthy;
    if v in AllPackageVulns(ms[1..]).value {
      PackagesFrom(ms[1..], v);
      var k :| 0 <= k < |ms[1..]| && ReportedVia(ms[1..][k], v);
      assert ReportedVia(ms[k + 1], v);
    } else {
      var m := ms[0];
      NamedFrom(m.key, Get(m.value.members, "severity"), Vias(Get(m.value.members, "via")), v);
      assert ReportedVia(m, v);
    }
  }

  lemma AdvisoriesFrom(ms: seq<Member>, v: Vuln, py: Python)
    requires AdvisoryVulns(ms, py).Some? && v in AdvisoryVulns(ms, py).value
    ensures FromAdvisory(ms, v, py)
  {
    hide AdvisoryVuln, AdvisoryVulns;
    AdvisoriesCounted(ms, py);
    var k :| 0 <= k < |AdvisoryVulns(ms, py).value| && AdvisoryVulns(ms, py).value[k] == v;
    EveryAdvisoryYields(ms, k, py);
  }

  /** What is yielded is the tuple of an advisory or of what a package is reported via. */
  lemma OnlyYielded(data: Value, v: Vuln, py: Python)
    requires Vulns(data, py).Some? && v in Vulns(data, py).value
    ensures data.Dict?
    ensures FromAdvisory(Members(Get(data.members, "advisories")), v, py) || FromPackage(Members(Get(data.members, "vulnerabilities")), v)
  {
    hide AllPackageVulns, AdvisoryVulns, Get, FromAdvisory, FromPackage;
    if v in AdvisoryVulns(Members(Get(data.members, "advisories")), py).value {
      AdvisoriesFrom(Members(Get(data.members, "advisories")), v, py);
    } else {
      PackagesFrom(Members(Get(data.members, "vulnerabilities")), v);
    }
  }

  lemma {:induction false} AdvisoriesCounted(ms: seq<Member>, py: Python)
    requires AdvisoryVulns(ms, py).Some?
    ensures |AdvisoryVulns(ms, py).value| == |ms|
  {
    hide AdvisoryVuln;
    if ms != [] {
      EveryAdvisoryYields(ms, 0, py);
    }
  }
}
