/** Admission of staffing proposals (zhongshu-core/src/agent/auto_delegation.rs:168-281) and the way of an
    admitted plan into an organization request (zhongshu-orb/src/auto_delegation_service.rs:104-133,
    zhongshu-orb/src/overlay_contract.rs:917-975, zhongshu-orb/src/organization_service.rs:606-640). */
module Staffing {
  import opened Wrappers
  import opened Text

  const MAX_WORKERS := 3
  const MIN_SEPARABILITY := 60
  const MIN_SPECIALIZATION_BENEFIT := 70
  const MAX_MERGE_RISK := 50

  /** Role and capability identifiers; those made by `Named` are trimmed. */
  datatype Name = Name(text: string)

  function Named(text: string): Name { Name(Trim(text)) }

  datatype Profile = Profile(name: string, role: Name, capabilities: seq<Name>)

  datatype Mode = Independent | SequentialHandoff

  datatype Strategy = SingleAgent | MultiAgent

  datatype PlannerRequirement =
    PlannerRequirement(employee: string, role: string, capabilities: seq<string>, responsibility: string)

  datatype Proposal = Proposal(strategy: Strategy, mutationRequired: bool, collaboration: Mode, separability: nat,
                               specializationBenefit: nat, mergeRisk: nat, maxWorkers: nat,
                               requirements: seq<PlannerRequirement>)

  datatype RoleRequirement =
    RoleRequirement(role: Name, employee: Option<string>, capabilities: seq<Name>, responsibility: string,
                    required: bool)

  datatype StaffingRequest =
    StaffingRequest(objective: string, requirements: seq<RoleRequirement>, maxWorkers: Option<nat>)

  datatype Decision = Decision(strategy: Strategy, collaboration: Mode, staffing: StaffingRequest)

  function Single(objective: string): Decision {
    Decision(SingleAgent, Independent, StaffingRequest(objective, [], Some(0)))
  }

  // -- Which proposals are admitted -----------------------------------

  /** The first profile of the roster with this name. */
  function FindProfile(roster: seq<Profile>, name: string): (p: Option<Profile>)
    ensures p.Some? ==> p.value in roster && p.value.name == name
    ensures p.None? ==> forall q :: q in roster ==> q.name != name
  {
    if roster == [] then None
    else if roster[0].name == name then Some(roster[0])
    else FindProfile(roster[1..], name)
  }

  predicate GoodScores(p: Proposal) {
    && p.separability <= 100 && p.specializationBenefit <= 100 && p.mergeRisk <= MAX_MERGE_RISK
    && (p.separability >= MIN_SEPARABILITY || p.specializationBenefit >= MIN_SPECIALIZATION_BENEFIT)
  }

  /** The requirement names someone of the roster, with that employee's own role, some of that employee's
      own capabilities, and a duty. */
  predicate Matches(roster: seq<Profile>, r: PlannerRequirement) {
    && !IsBlank(r.employee) && !IsBlank(r.responsibility)
    && var profile := FindProfile(roster, Trim(r.employee));
       && profile.Some? && Trim(r.role) == profile.value.role.text
       && forall c :: c in r.capabilities ==> !IsBlank(c) && Named(c) in profile.value.capabilities
  }

  predicate DistinctEmployees(rs: seq<PlannerRequirement>) {
    forall i, j :: 0 <= i < j < |rs| ==> Trim(rs[i].employee) != Trim(rs[j].employee)
  }

  /** The proposals that lead to several agents. */
  predicate Admissible(roster: seq<Profile>, p: Proposal) {
    && p.strategy.MultiAgent? && !p.mutationRequired && GoodScores(p)
    && 2 <= |p.requirements| <= p.maxWorkers <= MAX_WORKERS
    && DistinctEmployees(p.requirements)
    && forall i :: 0 <= i < |p.requirements| ==> Matches(roster, p.requirements[i])
  }

  /** The first profile of this name. */
  predicate FirstNamed(roster: seq<Profile>, name: string, k: nat) {
    k < |roster| && roster[k].name == name && forall i :: 0 <= i < k ==> roster[i].name != name
  }

  lemma {:induction false} FindProfileMeans(roster: seq<Profile>, name: string)
    ensures
      var p := FindProfile(roster, name);
      if p.Some? then exists k: nat :: FirstNamed(roster, name, k) && roster[k] == p.value
      else forall k: nat :: !FirstNamed(roster, name, k)
  {
    if roster != [] {
      if roster[0].name == name {
        assert FirstNamed(roster, name, 0);
      } else {
        FindProfileMeans(roster[1..], name);
        if k: nat :| FirstNamed(roster[1..], name, k) { assert FirstNamed(roster, name, k + 1); }
      }
    }
  }

  /** What is asked of the profile that is found. */
  predicate Suits(p: Profile, r: PlannerRequirement) {
    && Trim(r.role) == p.role.text
    && forall c :: c in r.capabilities ==> HasText(c) && Name(Trim(c)) in p.capabilities
  }

  /** A requirement matches when it gives an employee and a duty, and the first profile of that name, spaces around
      it aside, has the role and every capability that is asked for. */
  lemma MatchesMeans(roster: seq<Profile>, r: PlannerRequirement)
    ensures
      Matches(roster, r)
      <==> && HasText(r.employee) && HasText(r.responsibility)
           && exists k: nat :: FirstNamed(roster, Trim(r.employee), k) && Suits(roster[k], r)
  {
    hide Trim; hide IsWhitespace;
    FindProfileMeans(roster, Trim(r.employee));
    hide FindProfile;
    if k: nat :| FirstNamed(roster, Trim(r.employee), k) && Suits(roster[k], r) {
      OneIsFirst(roster, Trim(r.employee), k);
    }
  }

  lemma OneIsFirst(roster: seq<Profile>, name: string, k: nat)
    requires FirstNamed(roster, name, k)
    ensures forall i: nat :: FirstNamed(roster, name, i) ==> i == k
  {
    forall i: nat | FirstNamed(roster, name, i) ensures i == k {
      assert roster[i].name == roster[k].name == name;
    }
  }

  /** In numbers: a plan for two or three agents that changes nothing and merges well, of parts that separate well or
      profit well from specialists. */
  lemma AdmissibleMeans(roster: seq<Profile>, p: Proposal)
    ensures
      Admissible(roster, p)
      <==> && p.strategy == MultiAgent && !p.mutationRequired
           && p.mergeRisk <= 50
           && p.separability <= 100 && p.specializationBenefit <= 100
           && (p.separability >= 60 || p.specializationBenefit >= 70)
           && |p.requirements| in {2, 3} && |p.requirements| <= p.maxWorkers <= 3
           && DistinctEmployees(p.requirements)
           && forall r :: r in p.requirements ==> Matches(roster, r)
  {
    hide Matches; hide DistinctEmployees;
  }

  function Capabilities(texts: seq<string>): seq<Name> {
    seq(|texts|, i requires 0 <= i < |texts| => Named(texts[i]))
  }

  function Required(r: PlannerRequirement): RoleRequirement {
    RoleRequirement(Named(r.role), Some(Trim(r.employee)), Capabilities(r.capabilities), Trim(r.responsibility), true)
  }

  function AllRequired(rs: seq<PlannerRequirement>): seq<RoleRequirement> {
    seq(|rs|, i requires 0 <= i < |rs| => Required(rs[i]))
  }

  method CapabilitiesFit(texts: seq<string>, profile: Profile) returns (capabilities: seq<Name>, fit: bool)
    ensures capabilities == Capabilities(texts)
    ensures fit <==> forall c :: c in texts ==> !IsBlank(c) && Named(c) in profile.capabilities
  {
    capabilities := Capabilities(texts);
    hide Trim; hide IsBlank;
    for i := 0 to |texts|
      invariant forall k :: 0 <= k < i ==> !IsBlank(texts[k]) && Named(texts[k]) in profile.capabilities
    {
      TrimIsEmptyIff(texts[i]);
      if capabilities[i].text == [] || capabilities[i] !in profile.capabilities {
        assert texts[i] in texts;
        return capabilities, false;
      }
    }
    fit := true;
  }

  /** One pass of the loop after the check for duplicates. */
  method CheckRequirement(roster: seq<Profile>, r: PlannerRequirement) returns (checked: Option<RoleRequirement>)
    requires !IsBlank(r.employee)
    ensures checked == if Matches(roster, r) then Some(Required(r)) else None
  {
    hide Trim; hide IsBlank; hide FindProfile;
    var employee := Trim(r.employee);
    TrimIsEmptyIff(r.responsibility);
    var profile := FindProfile(roster, employee);
    if profile.None? || Trim(r.role) != profile.value.role.text || Trim(r.responsibility) == [] { return None; }
    var capabilities, fit := CapabilitiesFit(r.capabilities, profile.value);
    if !fit { return None; }
    return Some(RoleRequirement(Named(r.role), Some(employee), capabilities, Trim(r.responsibility), true));
  }

  /** The employees named so far, trimmed. */
  function EmployeesOf(rs: seq<PlannerRequirement>): set<string> { set r | r in rs :: Trim(r.employee) }

  lemma EmployeesSnoc(rs: seq<PlannerRequirement>, i: nat)
    requires i < |rs|
    ensures EmployeesOf(rs[..i + 1]) == EmployeesOf(rs[..i]) + {Trim(rs[i].employee)}
  {
    assert rs[..i + 1] == rs[..i] + [rs[i]];
  }

  lemma DistinctSnoc(rs: seq<PlannerRequirement>, i: nat)
    requires i < |rs|
    ensures
      DistinctEmployees(rs[..i + 1])
      <==> DistinctEmployees(rs[..i]) && Trim(rs[i].employee) !in EmployeesOf(rs[..i])
  {
    hide Trim;
    var longer := rs[..i + 1];
    if DistinctEmployees(longer) {
      forall r | r in rs[..i] ensures Trim(r.employee) != Trim(rs[i].employee) {
        var k :| 0 <= k < i && rs[k] == r;
        assert longer[k] == r && longer[i] == rs[i];
      }
      assert forall k :: 0 <= k < i ==> longer[k] == rs[..i][k];
    }
    if DistinctEmployees(rs[..i]) && Trim(rs[i].employee) !in EmployeesOf(rs[..i]) {
      forall j, k | 0 <= j < k < |longer| ensures Trim(longer[j].employee) != Trim(longer[k].employee) {
        assert rs[..i][j] in rs[..i];
        if k < i { assert rs[..i][k] == longer[k]; }
      }
    }
  }

  method AdmitProposal(objective: string, roster: seq<Profile>, p: Proposal) returns (d: Decision)
    ensures d.strategy.MultiAgent? <==> Admissible(roster, p)
    ensures
      d == if Admissible(roster, p)
           then Decision(MultiAgent, p.collaboration,
                         StaffingRequest(objective, AllRequired(p.requirements), Some(|p.requirements|)))
           else Decision(SingleAgent, Independent, StaffingRequest(objective, [], Some(0)))
  {
    hide Matches; hide DistinctEmployees; hide Trim; hide IsBlank; hide EmployeesOf; hide Required;
    if p.strategy.SingleAgent? || p.mutationRequired { return Single(objective); }
    if p.separability > 100 || p.specializationBenefit > 100 || p.mergeRisk > 100 { return Single(objective); }
    if p.separability < MIN_SEPARABILITY && p.specializationBenefit < MIN_SPECIALIZATION_BENEFIT {
      return Single(objective);
    }
    if p.mergeRisk > MAX_MERGE_RISK { return Single(objective); }
    var count := |p.requirements|;
    if !(2 <= count <= MAX_WORKERS) || p.maxWorkers < count || p.maxWorkers > MAX_WORKERS { return Single(objective); }
    assert Admissible(roster, p) <==>
      DistinctEmployees(p.requirements) && forall k :: 0 <= k < count ==> Matches(roster, p.requirements[k]);

    var staffed := Staff(roster, p.requirements);
    if staffed.None? { return Single(objective); }
    return Decision(MultiAgent, p.collaboration, StaffingRequest(objective, staffed.value, Some(count)));
  }

  /** The loop over the requirements: each employee at most once, each requirement matched. */
  method Staff(roster: seq<Profile>, rs: seq<PlannerRequirement>) returns (staffed: Option<seq<RoleRequirement>>)
    ensures
      staffed.Some? <==> DistinctEmployees(rs) && forall k :: 0 <= k < |rs| ==> Matches(roster, rs[k])
    ensures staffed.Some? ==> staffed.value == AllRequired(rs)
  {
    hide DistinctEmployees; hide Trim; hide IsBlank; hide EmployeesOf; hide Required; hide Matches;
    var employees: set<string> := {};
    var requirements: seq<RoleRequirement> := [];
    NobodyYet();
    for i := 0 to |rs|
      invariant |requirements| == i
      invariant forall k :: 0 <= k < i ==> requirements[k] == Required(rs[k])
      invariant forall k :: 0 <= k < i ==> Matches(roster, rs[k])
      invariant employees == EmployeesOf(rs[..i])
      invariant DistinctEmployees(rs[..i])
    {
      var employee := Trim(rs[i].employee);
      TrimIsEmptyIff(rs[i].employee);
      EmployeesSnoc(rs, i);
      DistinctSnoc(rs, i);
      if employee == [] {
        BlankNeverMatches(roster, rs[i]);
        return None;
      }
      if employee in employees {
        NotDistinct(rs, i + 1);
        return None;
      }
      employees := employees + {employee};
      var checked := CheckRequirement(roster, rs[i]);
      if checked.None? { return None; }
      requirements := requirements + [checked.value];
    }
    assert rs[..|rs|] == rs;
    assert requirements == AllRequired(rs);
    return Some(requirements);
  }

  lemma NobodyYet()
    ensures EmployeesOf([]) == {} && DistinctEmployees([])
  {
  }

  lemma BlankNeverMatches(roster: seq<Profile>, r: PlannerRequirement)
    requires IsBlank(r.employee)
    ensures !Matches(roster, r)
  {
  }

  lemma NotDistinct(rs: seq<PlannerRequirement>, i: nat)
    requires i <= |rs| && !DistinctEmployees(rs[..i])
    ensures !DistinctEmployees(rs)
  {
    hide Trim;
  }

  // -- From the decision to the command and back ----------------------

  datatype RoleCommand =
    RoleCommand(role: string, employee: Option<string>, capabilities: seq<string>, responsibility: string,
                required: bool)

  datatype WorkspaceMode = ProposalOnly | IsolatedSandbox

  datatype FileScope = FileScope(employee: string, ownedFiles: seq<string>)

  datatype TaskCommand =
    TaskCommand(objective: string, requirements: seq<RoleCommand>, sequentialHandoff: bool, maxWorkers: Option<nat>,
                targetEmployee: Option<string>, mutation: bool, workspaceMode: WorkspaceMode,
                fileScopes: seq<FileScope>)

  function Texts(names: seq<Name>): seq<string> {
    seq(|names|, i requires 0 <= i < |names| => names[i].text)
  }

  function CommandOf(r: RoleRequirement): RoleCommand {
    RoleCommand(r.role.text, r.employee, Texts(r.capabilities), r.responsibility, r.required)
  }

  function CommandFromDecision(objective: string, d: Decision): TaskCommand {
    var rs := d.staffing.requirements;
    TaskCommand(objective, seq(|rs|, i requires 0 <= i < |rs| => CommandOf(rs[i])),
                d.collaboration.SequentialHandoff?, d.staffing.maxWorkers, None, false, ProposalOnly, [])
  }

  datatype Target = ManagerSelected | Employee(name: string)

  datatype TaskRequest =
    TaskRequest(taskId: string, target: Target, collaboration: Mode, workspaceMode: WorkspaceMode,
                staffing: StaffingRequest)

  function RequirementOf(c: RoleCommand): RoleRequirement {
    RoleRequirement(Named(c.role), c.employee, Capabilities(c.capabilities), c.responsibility, c.required)
  }

  function OrganizationRequest(taskId: string, c: TaskCommand): TaskRequest {
    TaskRequest(
      taskId,
      if c.targetEmployee.Some? then Employee(c.targetEmployee.value) else ManagerSelected,
      if c.sequentialHandoff then SequentialHandoff else Independent,
      c.workspaceMode,
      StaffingRequest(c.objective,
        seq(|c.requirements|, i requires 0 <= i < |c.requirements| => RequirementOf(c.requirements[i])),
        c.maxWorkers))
  }

  predicate Trimmed(n: Name) { Trim(n.text) == n.text }

  predicate TrimmedRequirement(r: RoleRequirement) { Trimmed(r.role) && forall c :: c in r.capabilities ==> Trimmed(c) }

  lemma RequirementRoundTrip(r: RoleRequirement)
    ensures RequirementOf(CommandOf(r)) == r <==> TrimmedRequirement(r)
  {
    hide Trim;
    var back := Capabilities(Texts(r.capabilities));
    assert forall i :: 0 <= i < |back| ==> back[i] == Name(Trim(r.capabilities[i].text));
    if TrimmedRequirement(r) {
      forall i | 0 <= i < |back| ensures back[i] == r.capabilities[i] { assert r.capabilities[i] in r.capabilities; }
      assert back == r.capabilities;
    }
    if RequirementOf(CommandOf(r)) == r {
      forall c | c in r.capabilities ensures Trimmed(c) {
        var i :| 0 <= i < |r.capabilities| && r.capabilities[i] == c;
        assert back[i] == r.capabilities[i];
      }
    }
  }

  /** The request built from the command of a decision has the decision's own staffing and collaboration
      mode exactly when every role and capability in it is trimmed. */
  lemma StaffingSurvivesIff(taskId: string, d: Decision)
    ensures
      var request := OrganizationRequest(taskId, CommandFromDecision(d.staffing.objective, d));
      && request.collaboration == d.collaboration
      && request.target == ManagerSelected && request.workspaceMode == ProposalOnly
      && (request.staffing == d.staffing
          <==> forall i :: 0 <= i < |d.staffing.requirements| ==> TrimmedRequirement(d.staffing.requirements[i]))
  {
    hide RequirementOf; hide CommandOf; hide TrimmedRequirement;
    var rs := d.staffing.requirements;
    var back := OrganizationRequest(taskId, CommandFromDecision(d.staffing.objective, d)).staffing.requirements;
    assert |back| == |rs|;
    forall i | 0 <= i < |rs| ensures back[i] == rs[i] <==> TrimmedRequirement(rs[i]) { RequirementRoundTrip(rs[i]); }
    assert (forall i :: 0 <= i < |rs| ==> TrimmedRequirement(rs[i])) ==> back == rs;
  }

  lemma AdmittedIsTrimmed(r: PlannerRequirement)
    ensures TrimmedRequirement(Required(r))
  {
    TrimTwice(r.role);
    forall c | c in Required(r).capabilities ensures Trimmed(c) {
      var i :| 0 <= i < |r.capabilities| && c == Named(r.capabilities[i]);
      TrimTwice(r.capabilities[i]);
    }
    hide Trim;
  }

  /** Every admitted plan reaches the organization unchanged. */
  lemma AdmittedPlanSurvives(objective: string, roster: seq<Profile>, p: Proposal, taskId: string, d: Decision)
    requires Admissible(roster, p)
    requires
      d == Decision(MultiAgent, p.collaboration,
                    StaffingRequest(objective, AllRequired(p.requirements), Some(|p.requirements|)))
    ensures
      OrganizationRequest(taskId, CommandFromDecision(objective, d))
      == TaskRequest(taskId, ManagerSelected, d.collaboration, ProposalOnly, d.staffing)
  {
    forall i | 0 <= i < |d.staffing.requirements| ensures TrimmedRequirement(d.staffing.requirements[i]) {
      AdmittedIsTrimmed(p.requirements[i]);
    }
    StaffingSurvivesIff(taskId, d);
    hide CommandFromDecision; hide OrganizationRequest; hide Admissible; hide TrimmedRequirement; hide AllRequired;
    var request := OrganizationRequest(taskId, CommandFromDecision(objective, d));
    TaskIdStays(taskId, CommandFromDecision(objective, d));
    assert request.staffing == d.staffing;
  }

  lemma TaskIdStays(taskId: string, c: TaskCommand)
    ensures OrganizationRequest(taskId, c).taskId == taskId
  {
  }

  // -- Which commands are valid ---------------------------------------

  function Components(path: string): seq<string> {
    if path == [] then [[]]
    else
      var rest := Components(path[1..]);
      if path[0] == '/' then [[]] + rest else [[path[0]] + rest[0]] + rest[1..]
  }

  /** Neither absolute nor with a component that is the parent directory (on Unix). */
  predicate StaysInside(file: string) { (file == [] || file[0] != '/') && ['.', '.'] !in Components(file) }

  /** Two dots between slashes or ends of the text. */
  predicate StepsUpAt(file: string, i: nat) {
    && i + 2 <= |file| && file[i] == '.' && file[i + 1] == '.'
    && (i == 0 || file[i - 1] == '/') && (i + 2 == |file| || file[i + 2] == '/')
  }

  lemma {:induction false} FirstComponent(path: string)
    ensures
      var first := Components(path)[0];
      && first <= path && '/' !in first && (|first| == |path| || path[|first|] == '/')
  {
    if path != [] && path[0] != '/' { FirstComponent(path[1..]); }
  }

  lemma {:induction false} StepsUpLater(path: string)
    ensures ['.', '.'] in Components(path)[1..] <==> exists i: nat :: 0 < i && StepsUpAt(path, i)
  {
    if path != [] {
      var tail := path[1..];
      assert Components(path)[1..] == if path[0] == '/' then Components(tail) else Components(tail)[1..];
      StepsUpLater(tail);
      StepsUpFirst(tail);
      assert forall i: nat :: 0 < i ==> (StepsUpAt(path, i + 1) <==> StepsUpAt(tail, i));
      assert StepsUpAt(path, 1) <==> path[0] == '/' && StepsUpAt(tail, 0);
      if i: nat :| 0 < i && StepsUpAt(path, i) {
        if i > 1 { assert StepsUpAt(tail, i - 1); }
      }
      assert Components(tail) == [Components(tail)[0]] + Components(tail)[1..];
    }
  }

  lemma StepsUpFirst(path: string)
    ensures Components(path)[0] == ['.', '.'] <==> StepsUpAt(path, 0)
  {
    var first := Components(path)[0];
    FirstComponent(path);
    if StepsUpAt(path, 0) { assert first == path[..2]; }
  }

  /** A path stays inside exactly when it does not begin with a slash and nowhere has two dots between slashes. */
  lemma StaysInsideIff(file: string)
    ensures StaysInside(file) <==> (file == [] || file[0] != '/') && forall i: nat :: !StepsUpAt(file, i)
  {
    StepsUpFirst(file);
    StepsUpLater(file);
    assert Components(file) == [Components(file)[0]] + Components(file)[1..];
    hide Components;
  }

  predicate SafePath(file: string) { !IsBlank(file) && StaysInside(file) }

  predicate GoodScope(s: FileScope) {
    !IsBlank(s.employee) && s.ownedFiles != [] && forall f :: f in s.ownedFiles ==> SafePath(f)
  }

  predicate GoodRole(r: RoleCommand) {
    !IsBlank(r.role) && !IsBlank(r.responsibility) && forall c :: c in r.capabilities ==> !IsBlank(c)
  }

  /** The employees chosen by requirements, and those named by file scopes, in order. */
  function Selected(rs: seq<RoleCommand>): seq<string> {
    if rs == [] then []
    else (if rs[0].employee.Some? then [rs[0].employee.value] else []) + Selected(rs[1..])
  }

  function Scoped(ss: seq<FileScope>): seq<string> {
    seq(|ss|, i requires 0 <= i < |ss| => ss[i].employee)
  }

  predicate NamedOnce(names: seq<string>) {
    && (forall i :: 0 <= i < |names| ==> !IsBlank(names[i]))
    && forall i, j :: 0 <= i < j < |names| ==> names[i] != names[j]
  }

  predicate SameMembers(a: seq<string>, b: seq<string>) {
    (forall x :: x in a ==> x in b) && forall x :: x in b ==> x in a
  }

  predicate ValidTask(t: TaskCommand) {
    && !IsBlank(t.objective)
    && 0 < |t.requirements| <= MAX_WORKERS
    && (t.maxWorkers.Some? ==> 0 < t.maxWorkers.value <= MAX_WORKERS)
    && (t.targetEmployee.Some? ==> !IsBlank(t.targetEmployee.value) && |t.requirements| == 1)
    && (forall i :: 0 <= i < |t.requirements| ==> GoodRole(t.requirements[i]))
    && NamedOnce(Selected(t.requirements))
    && (forall i :: 0 <= i < |t.fileScopes| ==> GoodScope(t.fileScopes[i]))
    && NamedOnce(Scoped(t.fileScopes))
    && (if t.mutation
        then Selected(t.requirements) != [] && SameMembers(Selected(t.requirements), Scoped(t.fileScopes))
        else t.fileScopes == [] && t.workspaceMode.ProposalOnly?)
  }

  lemma NamedOnceSnoc(names: seq<string>, x: string)
    ensures NamedOnce(names + [x]) <==> NamedOnce(names) && !IsBlank(x) && x !in names
  {
    hide IsBlank;
    var longer := names + [x];
    if NamedOnce(longer) {
      assert forall i :: 0 <= i < |names| ==> longer[i] == names[i];
      assert longer[|names|] == x;
    }
  }

  lemma NamedOncePrefix(a: seq<string>, b: seq<string>)
    requires NamedOnce(a + b)
    ensures NamedOnce(a)
  {
    hide IsBlank;
    assert forall i :: 0 <= i < |a| ==> (a + b)[i] == a[i];
  }

  lemma {:induction false} SelectedConcat(a: seq<RoleCommand>, b: seq<RoleCommand>)
    ensures Selected(a + b) == Selected(a) + Selected(b)
  {
    if a == [] {
      assert a + b == b;
    } else {
      assert (a + b)[1..] == a[1..] + b;
      SelectedConcat(a[1..], b);
    }
  }

  lemma SelectedOne(r: RoleCommand)
    ensures Selected([r]) == if r.employee.Some? then [r.employee.value] else []
  {
    assert [r][1..] == [];
  }

  lemma SelectedStep(rs: seq<RoleCommand>, i: nat)
    requires i < |rs|
    ensures
      Selected(rs[..i + 1])
      == if rs[i].employee.Some? then Selected(rs[..i]) + [rs[i].employee.value] else Selected(rs[..i])
  {
    hide Selected;
    SelectedOne(rs[i]);
    assert rs[..i + 1] == rs[..i] + [rs[i]];
    SelectedConcat(rs[..i], [rs[i]]);
    assert Selected(rs[..i]) + [] == Selected(rs[..i]);
  }

  lemma SelectedSplit(rs: seq<RoleCommand>, i: nat)
    requires i <= |rs|
    ensures Selected(rs) == Selected(rs[..i]) + Selected(rs[i..])
  {
    hide Selected;
    assert rs == rs[..i] + rs[i..];
    SelectedConcat(rs[..i], rs[i..]);
  }

  /** The closure that inserts chosen employees into a set. */
  method SelectEmployees(rs: seq<RoleCommand>) returns (selected: set<string>, valid: bool)
    ensures valid <==> NamedOnce(Selected(rs))
    ensures valid ==> forall x :: x in selected <==> x in Selected(rs)
  {
    hide IsBlank; hide Selected; hide NamedOnce;
    selected := {};
    NobodySelected();
    for i := 0 to |rs|
      invariant NamedOnce(Selected(rs[..i]))
      invariant forall x :: x in selected <==> x in Selected(rs[..i])
    {
      SelectedStep(rs, i);
      if rs[i].employee.Some? {
        var employee := rs[i].employee.value;
        TrimIsEmptyIff(employee);
        NamedOnceSnoc(Selected(rs[..i]), employee);
        if Trim(employee) == [] || employee in selected {
          SelectedSplit(rs, i + 1);
          if NamedOnce(Selected(rs)) { NamedOncePrefix(Selected(rs[..i + 1]), Selected(rs[i + 1..])); }
          return selected, false;
        }
        selected := selected + {employee};
      }
    }
    assert rs[..|rs|] == rs;
    valid := true;
  }

  lemma NobodySelected()
    ensures Selected([]) == [] && NamedOnce([])
  {
  }

  method FilesAreSafe(files: seq<string>) returns (safe: bool)
    ensures safe <==> forall f :: f in files ==> SafePath(f)
  {
    hide Components; hide IsBlank;
    for i := 0 to |files|
      invariant forall k :: 0 <= k < i ==> SafePath(files[k])
    {
      var file := files[i];
      TrimIsEmptyIff(file);
      if Trim(file) == [] || !StaysInside(file) {
        assert file in files;
        return false;
      }
    }
    safe := true;
  }

  lemma ScopedSnoc(ss: seq<FileScope>, i: nat)
    requires i < |ss|
    ensures Scoped(ss[..i + 1]) == Scoped(ss[..i]) + [ss[i].employee]
    ensures Scoped(ss) == Scoped(ss[..i + 1]) + Scoped(ss[i + 1..])
  {
  }

  /** The closure that inserts scoped employees into a set and checks their files. */
  method ScopeEmployees(ss: seq<FileScope>) returns (scoped: set<string>, valid: bool)
    ensures valid <==> NamedOnce(Scoped(ss)) && forall i :: 0 <= i < |ss| ==> GoodScope(ss[i])
    ensures valid ==> forall x :: x in scoped <==> x in Scoped(ss)
  {
    hide IsBlank; hide NamedOnce; hide SafePath;
    scoped := {};
    NobodySelected();
    assert Scoped(ss[..0]) == [];
    for i := 0 to |ss|
      invariant NamedOnce(Scoped(ss[..i]))
      invariant forall k :: 0 <= k < i ==> GoodScope(ss[k])
      invariant forall x :: x in scoped <==> x in Scoped(ss[..i])
    {
      var s := ss[i];
      TrimIsEmptyIff(s.employee);
      ScopedSnoc(ss, i);
      hide Scoped;
      NamedOnceSnoc(Scoped(ss[..i]), s.employee);
      if Trim(s.employee) == [] || s.employee in scoped {
        if NamedOnce(Scoped(ss)) { NamedOncePrefix(Scoped(ss[..i + 1]), Scoped(ss[i + 1..])); }
        return scoped, false;
      }
      scoped := scoped + {s.employee};
      var safe := FilesAreSafe(s.ownedFiles);
      if s.ownedFiles == [] || !safe {
        assert !GoodScope(ss[i]);
        return scoped, false;
      }
    }
    assert ss[..|ss|] == ss;
    valid := true;
  }

  method RolesAreGood(rs: seq<RoleCommand>) returns (good: bool)
    ensures good <==> forall i :: 0 <= i < |rs| ==> GoodRole(rs[i])
  {
    hide IsBlank; hide Trim;
    for i := 0 to |rs|
      invariant forall k :: 0 <= k < i ==> GoodRole(rs[k])
    {
      TrimIsEmptyIff(rs[i].role);
      TrimIsEmptyIff(rs[i].responsibility);
      if Trim(rs[i].role) == [] || Trim(rs[i].responsibility) == [] { return false; }
      for j := 0 to |rs[i].capabilities|
        invariant forall k :: 0 <= k < j ==> !IsBlank(rs[i].capabilities[k])
      {
        TrimIsEmptyIff(rs[i].capabilities[j]);
        if Trim(rs[i].capabilities[j]) == [] {
          assert rs[i].capabilities[j] in rs[i].capabilities;
          return false;
        }
      }
    }
    good := true;
  }

  method ValidOrganizationTask(t: TaskCommand) returns (valid: bool)
    ensures valid <==> ValidTask(t)
  {
    hide IsBlank; hide Trim; hide NamedOnce; hide Selected; hide Scoped; hide GoodRole; hide GoodScope;
    var workerLimitValid := t.maxWorkers.None? || 0 < t.maxWorkers.value <= MAX_WORKERS;
    if t.targetEmployee.Some? { TrimIsEmptyIff(t.targetEmployee.value); }
    var targetValid := t.targetEmployee.None? || (Trim(t.targetEmployee.value) != [] && |t.requirements| == 1);
    var selected, selectedValid := SelectEmployees(t.requirements);
    var scoped, scopesValid := ScopeEmployees(t.fileScopes);
    var mutationScopesMatch := if t.mutation then selected != {} && selected == scoped else t.fileScopes == [];
    var workspaceModeValid := t.mutation || t.workspaceMode.ProposalOnly?;
    var rolesValid := RolesAreGood(t.requirements);
    TrimIsEmptyIff(t.objective);
    if selectedValid && scopesValid {
      SetsMatch(selected, scoped, Selected(t.requirements), Scoped(t.fileScopes));
    }
    valid := Trim(t.objective) != [] && t.requirements != [] && |t.requirements| <= MAX_WORKERS
      && workerLimitValid && selectedValid && scopesValid && mutationScopesMatch && workspaceModeValid
      && rolesValid && targetValid;
  }

  lemma SetsMatch(a: set<string>, b: set<string>, xs: seq<string>, ys: seq<string>)
    requires forall x :: x in a <==> x in xs
    requires forall y :: y in b <==> y in ys
    ensures a == b <==> SameMembers(xs, ys)
    ensures a == {} <==> xs == []
  {
    if xs != [] { assert xs[0] in a; }
    if SameMembers(xs, ys) {
      forall x ensures x in a <==> x in b {}
    }
  }

  // -- Validity without the lists -------------------------------------

  /** Requirements that choose someone choose by a name, and everyone at most once. */
  predicate ChoosesOnce(rs: seq<RoleCommand>) {
    && (forall i :: 0 <= i < |rs| && rs[i].employee.Some? ==> HasText(rs[i].employee.value))
    && forall i, j :: 0 <= i < j < |rs| && rs[i].employee.Some? ==> rs[i].employee != rs[j].employee
  }

  function Chosen(rs: seq<RoleCommand>): set<string> { set r | r in rs && r.employee.Some? :: r.employee.value }

  function Scopers(ss: seq<FileScope>): set<string> { set s | s in ss :: s.employee }

  predicate ScopesOnce(ss: seq<FileScope>) {
    && (forall i :: 0 <= i < |ss| ==> HasText(ss[i].employee))
    && forall i, j :: 0 <= i < j < |ss| ==> ss[i].employee != ss[j].employee
  }

  /** The path does not begin at the root, and no component of it leads up. */
  predicate NeverLeaves(file: string) {
    (file == [] || file[0] != '/') && forall i: nat | i < |file| :: !StepsUpAt(file, i)
  }

  predicate OwnsSafely(s: FileScope) {
    && s.ownedFiles != []
    && forall f :: f in s.ownedFiles ==> HasText(f) && NeverLeaves(f)
  }

  lemma {:induction false} SelectedMeans(rs: seq<RoleCommand>)
    ensures forall x :: x in Selected(rs) <==> x in Chosen(rs)
    ensures NamedOnce(Selected(rs)) <==> ChoosesOnce(rs)
  {
    hide HasText; hide IsBlank;
    if rs != [] {
      var last := |rs| - 1;
      assert rs == rs[..last] + [rs[last]] && rs[..last + 1] == rs;
      SelectedMeans(rs[..last]);
      SelectedStep(rs, last);
      hide Selected;
      assert forall r :: r in rs <==> r in rs[..last] || r == rs[last];
      ChoosesOneMore(rs, last);
      if rs[last].employee.Some? {
        NamedOnceSnoc(Selected(rs[..last]), rs[last].employee.value);
        HasTextIff(rs[last].employee.value);
      }
      hide NamedOnce; hide ChoosesOnce;
    }
  }

  lemma ChoosesOneMore(rs: seq<RoleCommand>, last: nat)
    requires last + 1 == |rs|
    ensures
      ChoosesOnce(rs)
      <==> ChoosesOnce(rs[..last])
           && (rs[last].employee.Some? ==>
                 HasText(rs[last].employee.value) && rs[last].employee.value !in Chosen(rs[..last]))
  {
    hide HasText;
    var before := rs[..last];
    assert forall i :: 0 <= i < last ==> before[i] == rs[i];
    if ChoosesOnce(rs) && rs[last].employee.Some? {
      forall r | r in before && r.employee.Some? ensures r.employee != rs[last].employee {
        var k :| 0 <= k < last && before[k] == r;
      }
    }
    if ChoosesOnce(before) && rs[last].employee.Some? && rs[last].employee.value !in Chosen(before) {
      forall i | 0 <= i < last && rs[i].employee.Some? ensures rs[i].employee != rs[last].employee {
        assert before[i] in before;
      }
    }
  }

  lemma ScopedMeans(ss: seq<FileScope>)
    ensures forall x :: x in Scoped(ss) <==> x in Scopers(ss)
    ensures NamedOnce(Scoped(ss)) <==> ScopesOnce(ss)
  {
    hide HasText; hide IsBlank;
    var names := Scoped(ss);
    assert |names| == |ss| && forall i :: 0 <= i < |ss| ==> names[i] == ss[i].employee;
    forall i | 0 <= i < |ss| ensures HasText(ss[i].employee) <==> !IsBlank(names[i]) { HasTextIff(names[i]); }
    hide Scoped;
    forall x ensures x in names <==> x in Scopers(ss) {
      if x in names {
        var i :| 0 <= i < |names| && names[i] == x;
        assert ss[i] in ss;
      }
      if x in Scopers(ss) {
        var s :| s in ss && s.employee == x;
        var i :| 0 <= i < |ss| && ss[i] == s;
        assert names[i] == x;
      }
    }
  }

  lemma SafePathMeans(file: string)
    ensures SafePath(file) <==> HasText(file) && NeverLeaves(file)
  {
    HasTextIff(file);
    StaysInsideIff(file);
    hide Components; hide IsBlank; hide StaysInside;
  }

  lemma GoodScopeMeans(s: FileScope)
    ensures GoodScope(s) <==> HasText(s.employee) && OwnsSafely(s)
  {
    hide SafePath; hide IsBlank; hide NeverLeaves; hide HasText;
    HasTextIff(s.employee);
    forall f ensures SafePath(f) <==> HasText(f) && NeverLeaves(f) { SafePathMeans(f); }
  }

  /** A command is valid exactly when it has an objective, one to three requirements with role, duty and named
      capabilities, at most three workers, and a target only for a single requirement; when everyone is chosen at
      most once; and when either it changes nothing and owns no files, or exactly those who are chosen, someone at
      least, own files that lie safely inside. */
  lemma ValidTaskMeans(t: TaskCommand)
    ensures
      ValidTask(t)
      <==> && HasText(t.objective) && 1 <= |t.requirements| <= 3
           && (t.maxWorkers.Some? ==> 1 <= t.maxWorkers.value <= 3)
           && (t.targetEmployee.Some? ==> HasText(t.targetEmployee.value) && |t.requirements| == 1)
           && (forall r :: r in t.requirements ==>
                 HasText(r.role) && HasText(r.responsibility) && forall c :: c in r.capabilities ==> HasText(c))
           && ChoosesOnce(t.requirements)
           && (if t.mutation then
                 && Chosen(t.requirements) != {} && Chosen(t.requirements) == Scopers(t.fileScopes)
                 && ScopesOnce(t.fileScopes) && forall s :: s in t.fileScopes ==> OwnsSafely(s)
               else t.fileScopes == [] && t.workspaceMode == ProposalOnly)
  {
    hide HasText; hide IsBlank; hide NamedOnce; hide Selected; hide Scoped; hide ChoosesOnce; hide GoodScope;
    hide OwnsSafely; hide Chosen; hide Scopers;
    HasTextIff(t.objective);
    if t.targetEmployee.Some? { HasTextIff(t.targetEmployee.value); }
    SelectedMeans(t.requirements);
    ScopedMeans(t.fileScopes);
    SetsMatch(Chosen(t.requirements), Scopers(t.fileScopes), Selected(t.requirements), Scoped(t.fileScopes));
    forall s ensures GoodScope(s) <==> HasText(s.employee) && OwnsSafely(s) { GoodScopeMeans(s); }
    forall r
      ensures GoodRole(r)
              <==> HasText(r.role) && HasText(r.responsibility) && forall c :: c in r.capabilities ==> HasText(c)
    {
      GoodRoleMeans(r);
    }
    hide GoodRole;
    NoScopes();
    assert (forall i :: 0 <= i < |t.fileScopes| ==> GoodScope(t.fileScopes[i]))
      <==> forall s :: s in t.fileScopes ==> GoodScope(s);
  }

  lemma NoScopes()
    ensures ScopesOnce([])
  {
  }

  lemma GoodRoleMeans(r: RoleCommand)
    ensures
      GoodRole(r)
      <==> HasText(r.role) && HasText(r.responsibility) && forall c :: c in r.capabilities ==> HasText(c)
  {
    hide IsBlank; hide HasText;
    HasTextIff(r.role);
    HasTextIff(r.responsibility);
    forall c ensures HasText(c) <==> !IsBlank(c) { HasTextIff(c); }
  }

  // -- Admitted plans as commands -------------------------------------

  /** The employees of a command made from requirements that all name one. */
  lemma {:induction false} SelectedAre(rs: seq<RoleCommand>, names: seq<string>)
    requires |rs| == |names| && forall i :: 0 <= i < |rs| ==> rs[i].employee == Some(names[i])
    ensures Selected(rs) == names
  {
    if rs != [] {
      assert rs[0].employee == Some(names[0]);
      SelectedAre(rs[1..], names[1..]);
      assert names == [names[0]] + names[1..];
    }
  }

  lemma NonBlankStaysNonBlank(s: string)
    ensures IsBlank(Trim(s)) <==> IsBlank(s)
  {
    TrimIsEmptyIff(s);
    TrimTwice(s);
    TrimIsEmptyIff(Trim(s));
  }

  /** The role a matched requirement asks for is that of the employee it names. */
  function ChosenRole(roster: seq<Profile>, r: PlannerRequirement): string
    requires Matches(roster, r)
  {
    FindProfile(roster, Trim(r.employee)).value.role.text
  }

  lemma AdmittedRoleIsGoodIff(roster: seq<Profile>, r: PlannerRequirement)
    requires Matches(roster, r)
    ensures GoodRole(CommandOf(Required(r))) <==> ChosenRole(roster, r) != []
  {
    var c := CommandOf(Required(r));
    NonBlankStaysNonBlank(r.role);
    TrimIsEmptyIff(r.role);
    NonBlankStaysNonBlank(r.responsibility);
    forall x | x in c.capabilities ensures !IsBlank(x) {
      var i :| 0 <= i < |r.capabilities| && x == Trim(r.capabilities[i]);
      assert r.capabilities[i] in r.capabilities;
      NonBlankStaysNonBlank(r.capabilities[i]);
    }
    hide Trim; hide IsBlank; hide FindProfile;
  }

  lemma ProposalOnlyIsValidIff(t: TaskCommand)
    requires !t.mutation && t.fileScopes == [] && t.workspaceMode.ProposalOnly? && t.targetEmployee.None?
    requires 0 < |t.requirements| <= MAX_WORKERS && t.maxWorkers == Some(|t.requirements|)
    requires NamedOnce(Selected(t.requirements))
    ensures
      ValidTask(t)
      <==> !IsBlank(t.objective) && forall i :: 0 <= i < |t.requirements| ==> GoodRole(t.requirements[i])
  {
    hide IsBlank; hide GoodRole; hide Selected;
    assert Scoped(t.fileScopes) == [];
  }

  /** What goes into the command of a plan. */
  lemma CommandOfPlan(objective: string, rs: seq<PlannerRequirement>, d: Decision)
    requires d.staffing == StaffingRequest(objective, AllRequired(rs), Some(|rs|))
    ensures
      var t := CommandFromDecision(objective, d);
      && t.objective == objective && !t.mutation && t.fileScopes == [] && t.workspaceMode.ProposalOnly?
      && t.targetEmployee.None? && |t.requirements| == |rs| && t.maxWorkers == Some(|rs|)
      && forall i :: 0 <= i < |rs| ==> t.requirements[i] == CommandOf(Required(rs[i]))
  {
    hide CommandOf; hide Required;
  }

  lemma {:induction false} PlanNamesOnce(roster: seq<Profile>, p: Proposal, commands: seq<RoleCommand>)
    requires Admissible(roster, p) && |commands| == |p.requirements|
    requires forall i :: 0 <= i < |commands| ==> commands[i] == CommandOf(Required(p.requirements[i]))
    ensures NamedOnce(Selected(commands))
  {
    var rs := p.requirements;
    var names := seq(|rs|, i requires 0 <= i < |rs| => Trim(rs[i].employee));
    AdmittedNamesOnce(roster, p, names);
    hide IsBlank; hide Trim; hide NamedOnce; hide Selected; hide Admissible;
    SelectedAre(commands, names);
  }

  /** The command made of an admitted plan is valid exactly when the objective is not blank and every
      chosen employee has a role. */
  lemma AdmittedCommandIsValidIff(objective: string, roster: seq<Profile>, p: Proposal, d: Decision)
    requires Admissible(roster, p)
    requires
      d == Decision(MultiAgent, p.collaboration,
                    StaffingRequest(objective, AllRequired(p.requirements), Some(|p.requirements|)))
    ensures
      ValidTask(CommandFromDecision(objective, d))
      <==> !IsBlank(objective)
           && forall i :: 0 <= i < |p.requirements| ==> ChosenRole(roster, p.requirements[i]) != []
  {
    var t, rs := CommandFromDecision(objective, d), p.requirements;
    CommandOfPlan(objective, rs, d);
    PlanNamesOnce(roster, p, t.requirements);
    hide Selected; hide CommandOf; hide Required; hide ChosenRole; hide CommandFromDecision; hide AllRequired;
    hide IsBlank; hide Trim; hide NamedOnce; hide GoodRole; hide Matches; hide DistinctEmployees; hide ValidTask;
    ProposalOnlyIsValidIff(t);
    forall i | 0 <= i < |rs|
      ensures GoodRole(t.requirements[i]) <==> ChosenRole(roster, rs[i]) != []
    {
      AdmittedRoleIsGoodIff(roster, rs[i]);
    }
  }

  lemma AdmittedNamesOnce(roster: seq<Profile>, p: Proposal, names: seq<string>)
    requires Admissible(roster, p) && |names| == |p.requirements|
    requires forall i :: 0 <= i < |names| ==> names[i] == Trim(p.requirements[i].employee)
    ensures NamedOnce(names)
  {
    forall i | 0 <= i < |names| ensures !IsBlank(names[i]) {
      assert Matches(roster, p.requirements[i]);
      NonBlankStaysNonBlank(p.requirements[i].employee);
    }
    hide IsBlank; hide Trim;
  }
}
