/** Agent ids: a role, a department and a number, and the text they are stored as. */
module AgentIds {

  datatype Role = Executive | Head | Manager | Worker

  datatype Department = Organization | Engineering | Research | Marketing | Support | Sales | Legal

  datatype AgentId = AgentId(role: Role, department: Department, num: nat)

  /** Whom an agent reports to: the human principal or another agent. */
  datatype ReportTarget = Principal | Boss(id: AgentId)

  function RoleName(role: Role): string {
    match role
    case Executive => "executive"
    case Head => "head"
    case Manager => "manager"
    case Worker => "worker"
  }

  function DepartmentName(department: Department): string {
    match department
    case Organization => "organization"
    case Engineering => "engineering"
    case Research => "research"
    case Marketing => "marketing"
    case Support => "support"
    case Sales => "sales"
    case Legal => "legal"
  }

  function Decimal(n: nat): (s: string)
    ensures s != []
  {
    if n < 10 then ["0123456789"[n]] else Decimal(n / 10) + ["0123456789"[n % 10]]
  }

  /** The key of the counter an id's number is drawn from. */
  function CounterKey(role: Role, department: Department): string {
    RoleName(role) + "_" + DepartmentName(department)
  }

  function Render(id: AgentId): string {
    CounterKey(id.role, id.department) + "_" + Decimal(id.num)
  }

  function RenderTarget(target: ReportTarget): string {
    match target
    case Principal => "principal"
    case Boss(id) => Render(id)
  }

  function Digit(c: char): int { c as int - '0' as int }

  /** The number that digits stand for, most significant first. */
  function Value(digits: string): int {
    if digits == [] then 0 else 10 * Value(digits[..|digits| - 1]) + Digit(digits[|digits| - 1])
  }

  lemma DigitIs(d: nat)
    requires d < 10
    ensures Digit("0123456789"[d]) == d
  {
  }

  /** The decimal text of a number reads back as that number, without leading zeros. */
  lemma {:induction false} DecimalReadsBack(n: nat)
    ensures Value(Decimal(n)) == n
    ensures forall i :: 0 <= i < |Decimal(n)| ==> '0' <= Decimal(n)[i] <= '9'
    ensures n > 0 ==> Decimal(n)[0] != '0'
  {
    DigitIs(n % 10);
    if n < 10 {
      assert Decimal(n)[..0] == [];
    } else {
      DecimalReadsBack(n / 10);
      var front := Decimal(n / 10);
      assert Decimal(n)[..|front|] == front;
    }
  }

  /** The counter keys as they are stored: every role and every department is in one of them. */
  lemma KeysAreSpelled()
    ensures CounterKey(Executive, Organization) == "executive_organization"
    ensures CounterKey(Head, Engineering) == "head_engineering"
    ensures CounterKey(Manager, Research) == "manager_research"
    ensures CounterKey(Worker, Marketing) == "worker_marketing"
    ensures CounterKey(Head, Support) == "head_support"
    ensures CounterKey(Head, Sales) == "head_sales"
    ensures CounterKey(Head, Legal) == "head_legal"
  {
  }

  /** The id of the first executive, as it is stored. */
  lemma FirstExecutiveIs()
    ensures Render(AgentId(Executive, Organization, 1)) == "executive_organization_1"
  {
    assert CounterKey(Executive, Organization) == "executive_organization";
  }

  lemma DecimalInjective(a: nat, b: nat)
    requires Decimal(a) == Decimal(b)
    ensures a == b
  {
    DecimalReadsBack(a);
    DecimalReadsBack(b);
  }

  /** The part of a text before its first underscore. */
  function UpToUnderscore(s: string): string {
    if s == [] || s[0] == '_' then [] else [s[0]] + UpToUnderscore(s[1..])
  }

  lemma {:induction false} NameIsRecovered(name: string, rest: string)
    requires '_' !in name
    ensures UpToUnderscore(name + "_" + rest) == name
  {
    var s := name + "_" + rest;
    if name != [] {
      assert s[1..] == name[1..] + "_" + rest;
      NameIsRecovered(name[1..], rest);
    }
  }

  lemma FirstUnderscore(a: string, b: string, c: string, d: string)
    requires '_' !in a && '_' !in c && a + "_" + b == c + "_" + d
    ensures a == c && b == d
  {
    NameIsRecovered(a, b);
    NameIsRecovered(c, d);
    assert b == (a + "_" + b)[|a| + 1..] && d == (c + "_" + d)[|c| + 1..];
  }

  lemma NamesHaveNoUnderscore(role: Role, department: Department)
    ensures '_' !in RoleName(role) && '_' !in DepartmentName(department)
  {
  }

  lemma RenderIsNested(id: AgentId)
    ensures Render(id) == RoleName(id.role) + "_" + (DepartmentName(id.department) + "_" + Decimal(id.num))
  {
  }

  lemma RenderIdInjective(a: AgentId, b: AgentId)
    requires Render(a) == Render(b)
    ensures a == b
  {
    NamesHaveNoUnderscore(a.role, a.department);
    NamesHaveNoUnderscore(b.role, b.department);
    var tailA := DepartmentName(a.department) + "_" + Decimal(a.num);
    var tailB := DepartmentName(b.department) + "_" + Decimal(b.num);
    RenderIsNested(a);
    RenderIsNested(b);
    FirstUnderscore(RoleName(a.role), tailA, RoleName(b.role), tailB);
    FirstUnderscore(DepartmentName(a.department), Decimal(a.num), DepartmentName(b.department), Decimal(b.num));
    DecimalInjective(a.num, b.num);
    SameRoleName(a.role, b.role);
    SameDepartmentName(a.department, b.department);
  }

  lemma AgentIsNotThePrincipal(id: AgentId)
    ensures Render(id) != "principal"
  {
    assert Render(id)[|RoleName(id.role)|] == '_';
  }

  /** Two report targets with the same text are the same target; the principal is no agent. */
  lemma RenderInjective(a: ReportTarget, b: ReportTarget)
    requires RenderTarget(a) == RenderTarget(b)
    ensures a == b
  {
    if a.Boss? { AgentIsNotThePrincipal(a.id); }
    if b.Boss? { AgentIsNotThePrincipal(b.id); }
    if a.Boss? && b.Boss? { RenderIdInjective(a.id, b.id); }
  }

  /** Counters of different roles or departments never share a key. */
  lemma CounterKeyInjective(r: Role, d: Department, r': Role, d': Department)
    requires CounterKey(r, d) == CounterKey(r', d')
    ensures r == r' && d == d'
  {
    NamesHaveNoUnderscore(r, d);
    NamesHaveNoUnderscore(r', d');
    FirstUnderscore(RoleName(r), DepartmentName(d), RoleName(r'), DepartmentName(d'));
    SameRoleName(r, r');
    SameDepartmentName(d, d');
  }

  lemma SameRoleName(a: Role, b: Role)
    requires RoleName(a) == RoleName(b)
    ensures a == b
  {
    assert |RoleName(a)| == |RoleName(b)|;
  }

  lemma SameDepartmentName(a: Department, b: Department)
    requires DepartmentName(a) == DepartmentName(b)
    ensures a == b
  {
    assert |DepartmentName(a)| == |DepartmentName(b)|;
    assert DepartmentName(a)[0] == DepartmentName(b)[0];
  }
}
