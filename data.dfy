/**
 * The in-memory employee store and the pure computations over it (lib/data.ts):
 * the fixed department and phrase tables, pagination, per-department
 * analytics, record creation, and the cache rule of the initial fetch.
 */
module Data {
  import opened Types
  import opened Seqs

  const Departments: seq<string> := [
    "Engineering", "Marketing", "Sales", "HR", "Finance",
    "Operations", "Design", "Product", "Legal", "Support"
  ]

  const FeedbackTemplates: seq<string> := [
    "Excellent team player with strong communication skills",
    "Consistently delivers high-quality work on time",
    "Shows great initiative and problem-solving abilities",
    "Needs improvement in time management",
    "Outstanding leadership qualities",
    "Very collaborative and helpful to colleagues",
    "Could benefit from additional training in technical skills",
    "Demonstrates strong analytical thinking",
    "Excellent customer service orientation",
    "Shows potential for advancement"
  ]

  const BioTemplates: seq<string> := [
    "Experienced professional with a passion for innovation and team collaboration.",
    "Detail-oriented individual with strong analytical and problem-solving skills.",
    "Creative thinker who brings fresh perspectives to challenging projects.",
    "Results-driven professional with excellent communication and leadership abilities.",
    "Dedicated team member with a commitment to continuous learning and improvement."
  ]

  /** The page size used when the caller gives none. */
  const DefaultItemsPerPage: int := 9

  lemma DepartmentsDistinct()
    ensures |Departments| == 10 && NoDuplicates(Departments)
  {
  }

  // ---------------------------------------------------------------------------
  // Pagination
  // ---------------------------------------------------------------------------

  /** `Math.ceil(n / k)` for a non-negative count and a positive page size. */
  function CeilDiv(n: nat, k: int): (r: nat)
    requires k >= 1
    ensures (r - 1) * k < n <= r * k
  {
    (n + k - 1) / k
  }

  /**
   * `employees.slice((page - 1) * k, (page - 1) * k + k)` with the page
   * metadata. For page >= 1 both slice bounds are non-negative, so `slice`
   * only clamps them to the length of the list.
   */
  function PaginateEmployees(employees: seq<Employee>, page: int, itemsPerPage: int): (r: Page)
    requires page >= 1 && itemsPerPage >= 1
    ensures var start := PageStart(page, itemsPerPage);
            && |r.employees| <= itemsPerPage
            && (start >= |employees| <==> r.employees == [])
            && (start < |employees| ==> |r.employees| == Min(itemsPerPage, |employees| - start))
            && (forall i :: 0 <= i < |r.employees| ==> start + i < |employees| && r.employees[i] == employees[start + i])
    ensures r.pagination.currentPage == page
    ensures r.pagination.totalItems == |employees|
    ensures r.pagination.itemsPerPage == itemsPerPage
    ensures var n := r.pagination.totalPages;
            n >= 0 && (n - 1) * itemsPerPage < |employees| <= n * itemsPerPage
  {
    Page(Window(employees, PageStart(page, itemsPerPage), itemsPerPage),
         PaginationData(page, CeilDiv(|employees|, itemsPerPage), |employees|, itemsPerPage))
  }

  /** Where page `page` starts; never negative for page >= 1. */
  function PageStart(page: int, k: int): (s: nat)
    requires page >= 1 && k >= 1
    ensures s == (page - 1) * k
  {
    MulMonotone(k, 0, page - 1);
    (page - 1) * k
  }

  /** `slice(start, start + k)` for a non-negative start: both bounds clamped to the length. */
  function Window(employees: seq<Employee>, start: nat, k: int): (w: seq<Employee>)
    requires k >= 1
    ensures |w| <= k
    ensures start >= |employees| <==> w == []
    ensures start < |employees| ==> |w| == Min(k, |employees| - start)
    ensures forall i :: 0 <= i < |w| ==> start + i < |employees| && w[i] == employees[start + i]
  {
    employees[Min(start, |employees|)..Min(start + k, |employees|)]
  }

  /** The slices of pages 1..n, one after the other. */
  function PagesUpTo(employees: seq<Employee>, itemsPerPage: int, n: nat): seq<Employee>
    requires itemsPerPage >= 1
  {
    if n == 0 then [] else PagesUpTo(employees, itemsPerPage, n - 1) + PaginateEmployees(employees, n, itemsPerPage).employees
  }

  /** Pages 1..n together hold exactly the first n * itemsPerPage employees (or all of them). */
  lemma {:induction false} PagesUpToPrefix(employees: seq<Employee>, itemsPerPage: int, n: nat)
    requires itemsPerPage >= 1
    ensures PagesUpTo(employees, itemsPerPage, n) == employees[..Min(n * itemsPerPage, |employees|)]
  {
    if n > 0 {
      PagesUpToPrefix(employees, itemsPerPage, n - 1);
      var k := itemsPerPage;
      var before := Min((n - 1) * k, |employees|);
      var after := Min(n * k, |employees|);
      MulSucc(k, n - 1);
      assert PageStart(n, k) == (n - 1) * k;
      var slice := PaginateEmployees(employees, n, k).employees;
      assert slice == employees[before..after];
      assert employees[..before] + employees[before..after] == employees[..after];
    }
  }

  /**
   * Concatenating pages 1..totalPages rebuilds the list exactly: every
   * employee appears once, in its original position.
   */
  lemma PagesReconstructList(employees: seq<Employee>, itemsPerPage: int)
    requires itemsPerPage >= 1
    ensures PagesUpTo(employees, itemsPerPage, PaginateEmployees(employees, 1, itemsPerPage).pagination.totalPages) == employees
  {
    var n := PaginateEmployees(employees, 1, itemsPerPage).pagination.totalPages;
    PagesUpToPrefix(employees, itemsPerPage, n);
    assert employees[..|employees|] == employees;
  }

  /** Twenty employees at the default page size: page 3 holds the last two and there are three pages. */
  lemma DefaultPageSizeExample(employees: seq<Employee>)
    requires |employees| == 20
    ensures var r := PaginateEmployees(employees, 3, DefaultItemsPerPage);
            r.employees == employees[18..20] && r.pagination.totalPages == 3
  {
  }

  /** A page has employees exactly when its number is at most totalPages. */
  lemma PageNonEmptyIff(employees: seq<Employee>, page: int, itemsPerPage: int)
    requires page >= 1 && itemsPerPage >= 1
    ensures var r := PaginateEmployees(employees, page, itemsPerPage);
            r.employees != [] <==> page <= r.pagination.totalPages
  {
    var r := PaginateEmployees(employees, page, itemsPerPage);
    var n := r.pagination.totalPages;
    var k := itemsPerPage;
    if page <= n {
      MulMonotone(k, page - 1, n - 1);
      assert k * (page - 1) <= k * (n - 1);
    } else {
      MulMonotone(k, n, page - 1);
      assert k * n <= k * (page - 1);
    }
  }

  // ---------------------------------------------------------------------------
  // Analytics
  // ---------------------------------------------------------------------------

  /** `employees.filter(emp => emp.company.department === dept)`. */
  function DepartmentMembers(employees: seq<Employee>, dept: string): (r: seq<Employee>)
    ensures forall e :: e in r <==> e in employees && e.company.department == dept
    ensures SubsequenceOf(r, employees)
  {
    if employees == [] then []
    else if employees[0].company.department == dept then [employees[0]] + DepartmentMembers(employees[1..], dept)
    else DepartmentMembers(employees[1..], dept)
  }

  /** The filter keeps every copy of a member: each occurs as often as in the input. */
  lemma {:induction false} MembersCounts(employees: seq<Employee>, dept: string, e: Employee)
    ensures multiset(DepartmentMembers(employees, dept))[e]
         == if e.company.department == dept then multiset(employees)[e] else 0
  {
    if employees != [] {
      MembersCounts(employees[1..], dept, e);
      assert employees == [employees[0]] + employees[1..];
    }
  }

  function RatingSum(employees: seq<Employee>): int {
    if employees == [] then 0 else employees[0].performance.rating + RatingSum(employees[1..])
  }

  /**
   * `Math.round(sum / count * 10)`: the mean in tenths, rounded to the
   * nearest integer with halves going up.
   */
  function RoundedAverageTenths(sum: int, count: int): (r: int)
    requires count > 0
    ensures 20 * sum - count < 2 * count * r <= 20 * sum + count
  {
    (20 * sum + count) / (2 * count)
  }

  /**
   * `employees.reduce((sum, emp) => sum + emp.performance.rating, 0)` folds
   * from the left: adding one more employee at the end adds its rating.
   */
  lemma {:induction false} RatingSumReduce(employees: seq<Employee>, e: Employee)
    ensures RatingSum(employees + [e]) == RatingSum(employees) + e.performance.rating
  {
    if employees != [] {
      assert (employees + [e])[1..] == employees[1..] + [e];
      RatingSumReduce(employees[1..], e);
    }
  }

  /** One department's entry before the zero-count entries are dropped. */
  function StatFor(employees: seq<Employee>, dept: string): (r: DepartmentStat)
    ensures r.name == dept
    ensures r.count == CountInDepartments(employees, [dept])
    ensures r.count == 0 ==> r.averageTenths == 0
  {
    var members := DepartmentMembers(employees, dept);
    MembersCount(employees, dept);
    DepartmentStat(dept, |members|,
                   if |members| > 0 then RoundedAverageTenths(RatingSum(members), |members|) else 0)
  }

  function NamesOf(stats: seq<DepartmentStat>): (names: seq<string>)
    ensures |names| == |stats|
    ensures forall i :: 0 <= i < |stats| ==> names[i] == stats[i].name
  {
    if stats == [] then [] else [stats[0].name] + NamesOf(stats[1..])
  }

  /**
   * One entry per department of `depts` that has members, in the order of
   * `depts`: the map-then-filter chain of generateAnalyticsData.
   */
  function DepartmentStatsOver(employees: seq<Employee>, depts: seq<string>): (r: seq<DepartmentStat>)
    ensures forall i :: 0 <= i < |r| ==> r[i].count > 0 && r[i].name in depts && r[i] == StatFor(employees, r[i].name)
  {
    if depts == [] then []
    else
      var stat := StatFor(employees, depts[0]);
      var rest := DepartmentStatsOver(employees, depts[1..]);
      if stat.count > 0 then [stat] + rest else rest
  }

  /** A listed department has an entry exactly when it has members. */
  lemma {:induction false} StatsPresence(employees: seq<Employee>, depts: seq<string>, d: string)
    requires d in depts
    ensures StatFor(employees, d) in DepartmentStatsOver(employees, depts) <==> StatFor(employees, d).count > 0
  {
    var r := DepartmentStatsOver(employees, depts);
    if StatFor(employees, d) in r {
      var i :| 0 <= i < |r| && r[i] == StatFor(employees, d);
    }
    if depts[0] != d {
      StatsPresence(employees, depts[1..], d);
    }
  }

  /** The entries follow the order of `depts`, and name no department twice when `depts` does not. */
  lemma {:induction false} StatsOrder(employees: seq<Employee>, depts: seq<string>)
    ensures SubsequenceOf(NamesOf(DepartmentStatsOver(employees, depts)), depts)
    ensures NoDuplicates(depts) ==> NoDuplicates(NamesOf(DepartmentStatsOver(employees, depts)))
  {
    if depts != [] {
      StatsOrder(employees, depts[1..]);
      var stat := StatFor(employees, depts[0]);
      var rest := DepartmentStatsOver(employees, depts[1..]);
      if stat.count > 0 {
        var names := NamesOf([stat] + rest);
        assert names == [stat.name] + NamesOf(rest);
        if NoDuplicates(depts) {
          assert NoDuplicates(depts[1..]);
          forall j | 0 < j < |names| ensures names[0] != names[j] {
            assert names[j] == rest[j - 1].name;
            assert names[j] in depts[1..];
          }
        }
      }
    }
  }

  function GenerateAnalyticsData(employees: seq<Employee>): (r: seq<DepartmentStat>)
    ensures forall i :: 0 <= i < |r| ==> r[i].name in Departments && r[i].count > 0
    ensures forall i :: 0 <= i < |r| ==> r[i].count == CountInDepartments(employees, [r[i].name])
  {
    DepartmentStatsOver(employees, Departments)
  }

  function TotalCount(stats: seq<DepartmentStat>): int {
    if stats == [] then 0 else stats[0].count + TotalCount(stats[1..])
  }

  /** How many employees have a department listed in `depts`. */
  function CountInDepartments(employees: seq<Employee>, depts: seq<string>): nat {
    if employees == [] then 0
    else (if employees[0].company.department in depts then 1 else 0) + CountInDepartments(employees[1..], depts)
  }

  lemma {:induction false} CountInNoDepartments(employees: seq<Employee>)
    ensures CountInDepartments(employees, []) == 0
  {
    if employees != [] {
      CountInNoDepartments(employees[1..]);
    }
  }

  lemma {:induction false} CountSplit(employees: seq<Employee>, d: string, rest: seq<string>)
    requires d !in rest
    ensures CountInDepartments(employees, [d] + rest)
         == |DepartmentMembers(employees, d)| + CountInDepartments(employees, rest)
  {
    if employees != [] {
      CountSplit(employees[1..], d, rest);
    }
  }

  /** A department's member count is the number of employees counted in that one department. */
  lemma MembersCount(employees: seq<Employee>, d: string)
    ensures |DepartmentMembers(employees, d)| == CountInDepartments(employees, [d])
  {
    CountInNoDepartments(employees);
    CountSplit(employees, d, []);
    assert [d] + [] == [d];
  }

  /** With distinct department names, the counts add up to the employees in those departments. */
  lemma {:induction false} StatCountsSum(employees: seq<Employee>, depts: seq<string>)
    requires NoDuplicates(depts)
    ensures TotalCount(DepartmentStatsOver(employees, depts)) == CountInDepartments(employees, depts)
  {
    if depts == [] {
      CountInNoDepartments(employees);
    } else {
      var d, tail := depts[0], depts[1..];
      assert NoDuplicates(tail);
      StatCountsSum(employees, tail);
      assert d !in tail;
      assert depts == [d] + tail;
      CountSplit(employees, d, tail);
      var stat := StatFor(employees, d);
      var rest := DepartmentStatsOver(employees, tail);
      assert stat.count == |DepartmentMembers(employees, d)|;
      if stat.count > 0 {
        assert DepartmentStatsOver(employees, depts) == [stat] + rest;
        assert ([stat] + rest)[1..] == rest;
        assert TotalCount([stat] + rest) == stat.count + TotalCount(rest);
      } else {
        assert DepartmentStatsOver(employees, depts) == rest;
      }

    }
  }

  /**
   * generateAnalyticsData lists each department at most once, in the order of
   * the department table, never with a zero count, and its counts add up to
   * the number of employees whose department is in the table.
   */
  lemma AnalyticsSummary(employees: seq<Employee>)
    ensures var r := GenerateAnalyticsData(employees);
            && SubsequenceOf(NamesOf(r), Departments)
            && NoDuplicates(NamesOf(r))
            && (forall i :: 0 <= i < |r| ==> r[i].count == |DepartmentMembers(employees, r[i].name)| > 0)
            && TotalCount(r) == CountInDepartments(employees, Departments)
  {
    DepartmentsDistinct();
    StatsOrder(employees, Departments);
    StatCountsSum(employees, Departments);
  }

  lemma {:induction false} RatingSumBounds(members: seq<Employee>, lo: int, hi: int)
    requires forall e :: e in members ==> lo <= e.performance.rating <= hi
    ensures lo * |members| <= RatingSum(members) <= hi * |members|
  {
    if members != [] {
      var tail := members[1..];
      assert members[0] in members;
      assert forall e :: e in tail ==> e in members;
      RatingSumBounds(tail, lo, hi);
      assert RatingSum(members) == members[0].performance.rating + RatingSum(tail);
      MulSucc(lo, |tail|);
      MulSucc(hi, |tail|);
    }
  }

  lemma MulSucc(c: int, n: int)
    ensures c * (n + 1) == c * n + c
  {
  }

  lemma MulMonotone(c: int, a: int, b: int)
    requires c >= 0 && a <= b
    ensures c * a <= c * b
  {
  }

  lemma RoundedAverageBounds(sum: int, count: int, lo: int, hi: int)
    requires count > 0 && lo * count <= sum <= hi * count
    ensures 10 * lo <= RoundedAverageTenths(sum, count) <= 10 * hi
  {
    var r := RoundedAverageTenths(sum, count);
    var c2 := 2 * count;
    assert 20 * sum - count < c2 * r <= 20 * sum + count;
    if r < 10 * lo {
      MulMonotone(c2, r, 10 * lo - 1);
      assert false;
    }
    if r > 10 * hi {
      MulMonotone(c2, 10 * hi + 1, r);
      assert false;
    }
  }

  /**
   * The rounded average of a department lies between ten times any lower and
   * any upper bound on its members' ratings (in particular their minimum and
   * maximum).
   */
  lemma StatAverageWithin(employees: seq<Employee>, dept: string, lo: int, hi: int)
    requires StatFor(employees, dept).count > 0
    requires forall e :: e in employees && e.company.department == dept ==> lo <= e.performance.rating <= hi
    ensures 10 * lo <= StatFor(employees, dept).averageTenths <= 10 * hi
  {
    var members := DepartmentMembers(employees, dept);
    RatingSumBounds(members, lo, hi);
    RoundedAverageBounds(RatingSum(members), |members|, lo, hi);
  }

  // ---------------------------------------------------------------------------
  // Record creation and the initial fetch
  // ---------------------------------------------------------------------------

  const DefaultAddress: Address := Address("123 Main St", "New York", "NY", "10001", "USA")
  const DefaultCompanyName: string := "TechCorp Inc."
  const DefaultTitle: string := "Employee"
  const AvatarPrefix: string := "https://api.dicebear.com/7.x/avataaars/svg?seed="

  predicate UniqueIds(employees: seq<Employee>) {
    forall i, j :: 0 <= i < j < |employees| ==> employees[i].id != employees[j].id
  }

  /** `Math.max(...employees.map(emp => emp.id))` on a non-empty store. */
  function MaxId(employees: seq<Employee>): (m: int)
    requires employees != []
    ensures forall e :: e in employees ==> e.id <= m
    ensures exists e :: e in employees && e.id == m
  {
    if |employees| == 1 then employees[0].id
    else
      var rest := MaxId(employees[1..]);
      assert forall e :: e in employees[1..] ==> e in employees;
      if employees[0].id >= rest then employees[0].id else rest
  }

  /** The form fields a record was built from. */
  function FormFields(e: Employee): CreateEmployeeData {
    CreateEmployeeData(e.firstName, e.lastName, e.email, e.age, e.phone, e.company.department, e.company.title, e.bio)
  }

  /** The record createEmployee builds from the form fields and a fresh id. */
  function NewEmployee(id: int, data: CreateEmployeeData): (e: Employee)
    ensures e.id == id
    ensures FormFields(e) == data
    ensures e.performance == Performance(3, 0, [])
    ensures e.address == DefaultAddress && e.company.name == DefaultCompanyName
    ensures e.image == AvatarPrefix + data.firstName + data.lastName
  {
    Employee(id, data.firstName, data.lastName, data.email, data.age, data.phone, DefaultAddress,
             Company(data.department, DefaultCompanyName, data.title),
             AvatarPrefix + data.firstName + data.lastName,
             Performance(3, 0, []), data.bio)
  }

  /** An id above every existing one keeps the ids of the store distinct. */
  lemma AppendFreshIdKeepsUnique(employees: seq<Employee>, e: Employee)
    requires UniqueIds(employees)
    requires forall x :: x in employees ==> x.id < e.id
    ensures UniqueIds(employees + [e])
  {
    var s := employees + [e];
    forall i, j | 0 <= i < j < |s| ensures s[i].id != s[j].id {
      if j == |employees| {
        assert s[i] in employees;
      }
    }
  }

  /** A record as the upstream user service returns it; company name and title may be absent. */
  datatype UpstreamUser = UpstreamUser(
    id: int,
    firstName: string,
    lastName: string,
    email: string,
    age: int,
    phone: string,
    address: Address,
    companyName: Option<string>,
    companyTitle: Option<string>,
    image: string)

  /** The outcome of the network read: any fetch or JSON error is FetchFailed. */
  datatype FetchResponse = FetchFailed | Fetched(users: seq<UpstreamUser>)

  /**
   * The random choices made for one upstream user, each already reduced to
   * the index `Math.floor(Math.random() * n)` yields: a department, the
   * rating and project count less one, one template index per feedback
   * entry, and a bio.
   */
  datatype Draws = Draws(department: nat, rating: nat, projects: nat, feedback: seq<nat>, bio: nat)

  /** The ranges `Math.floor(Math.random() * n)` can produce. */
  predicate ValidDraws(d: Draws) {
    && d.department < |Departments|
    && d.rating < 5
    && d.projects < 10
    && 1 <= |d.feedback| <= 3
    && (forall k :: 0 <= k < |d.feedback| ==> d.feedback[k] < |FeedbackTemplates|)
    && d.bio < |BioTemplates|
  }

  /** JavaScript's `value || fallback` on an optional string: empty counts as missing. */
  function OrDefault(value: Option<string>, fallback: string): (r: string)
    ensures value.Some? && value.value != "" ==> r == value.value
    ensures value.None? || value.value == "" ==> r == fallback
  {
    if value.Some? && value.value != "" then value.value else fallback
  }

  function FromUpstream(user: UpstreamUser, d: Draws): (e: Employee)
    requires ValidDraws(d)
    ensures e.company.department in Departments
    ensures 1 <= e.performance.rating <= 5 && 1 <= e.performance.projects <= 10
    ensures 1 <= |e.performance.feedback| <= 3
    ensures forall f :: f in e.performance.feedback ==> f in FeedbackTemplates
    ensures e.bio in BioTemplates
    ensures && e.id == user.id && e.firstName == user.firstName && e.lastName == user.lastName
            && e.email == user.email && e.age == user.age && e.phone == user.phone
            && e.address == user.address && e.image == user.image
    ensures e.company.name == OrDefault(user.companyName, DefaultCompanyName)
    ensures e.company.title == OrDefault(user.companyTitle, DefaultTitle)
  {
    Employee(user.id, user.firstName, user.lastName, user.email, user.age, user.phone, user.address,
             Company(Departments[d.department], OrDefault(user.companyName, DefaultCompanyName),
                     OrDefault(user.companyTitle, DefaultTitle)),
             user.image,
             Performance(d.rating + 1, d.projects + 1,
                         seq(|d.feedback|, k requires 0 <= k < |d.feedback| => FeedbackTemplates[d.feedback[k]])),
             BioTemplates[d.bio])
  }

  /**
   * The records built from the upstream users: one per user, in order, with
   * the upstream identity fields and every synthesised field in its range.
   */
  function GenerateEmployees(users: seq<UpstreamUser>, draws: seq<Draws>): (r: seq<Employee>)
    requires |draws| == |users|
    requires forall i :: 0 <= i < |draws| ==> ValidDraws(draws[i])
    ensures |r| == |users|
    ensures forall i :: 0 <= i < |r| ==>
              && r[i].id == users[i].id
              && r[i].firstName == users[i].firstName
              && r[i].lastName == users[i].lastName
              && r[i].email == users[i].email
              && r[i].age == users[i].age
              && r[i].phone == users[i].phone
              && r[i].address == users[i].address
              && r[i].image == users[i].image
              && r[i].company.name == OrDefault(users[i].companyName, DefaultCompanyName)
              && r[i].company.title == OrDefault(users[i].companyTitle, DefaultTitle)
    ensures forall e :: e in r ==>
              && e.company.department in Departments
              && 1 <= e.performance.rating <= 5
              && 1 <= e.performance.projects <= 10
              && 1 <= |e.performance.feedback| <= 3
              && (forall f :: f in e.performance.feedback ==> f in FeedbackTemplates)
              && e.bio in BioTemplates
  {
    seq(|users|, i requires 0 <= i < |users| => FromUpstream(users[i], draws[i]))
  }

  /** The module-level `cachedEmployees` array and the two functions that change it. */
  class EmployeeStore {
    var cachedEmployees: seq<Employee>

    constructor ()
      ensures cachedEmployees == []
    {
      cachedEmployees := [];
    }

    /**
     * fetchEmployees: a non-empty cache is returned as it is and the response
     * is not looked at; otherwise a successful response fills the cache and
     * a failed one leaves it empty and yields no employees.
     */
    method FetchEmployees(response: FetchResponse, draws: seq<Draws>) returns (r: seq<Employee>)
      requires response.Fetched? ==> |draws| == |response.users|
      requires forall i :: 0 <= i < |draws| ==> ValidDraws(draws[i])
      modifies this
      ensures old(cachedEmployees) != [] ==> r == cachedEmployees == old(cachedEmployees)
      ensures old(cachedEmployees) == [] && response.FetchFailed? ==> r == cachedEmployees == []
      ensures old(cachedEmployees) == [] && response.Fetched? ==>
                r == cachedEmployees == GenerateEmployees(response.users, draws)
    {
      if |cachedEmployees| > 0 {
        return cachedEmployees;
      }
      match response
      case FetchFailed =>
        r := [];
      case Fetched(users) =>
        cachedEmployees := GenerateEmployees(users, draws);
        r := cachedEmployees;
    }

    /**
     * createEmployee: the new record gets an id above every existing one,
     * the fixed defaults, and is appended to the store.
     */
    method CreateEmployee(data: CreateEmployeeData) returns (e: Employee)
      requires cachedEmployees != []
      modifies this
      ensures e == NewEmployee(MaxId(old(cachedEmployees)) + 1, data)
      ensures forall x :: x in old(cachedEmployees) ==> x.id < e.id
      ensures cachedEmployees == old(cachedEmployees) + [e]
      ensures UniqueIds(old(cachedEmployees)) ==> UniqueIds(cachedEmployees)
    {
      var newId := MaxId(cachedEmployees) + 1;
      e := NewEmployee(newId, data);
      if UniqueIds(cachedEmployees) {
        AppendFreshIdKeepsUnique(cachedEmployees, e);
      }
      cachedEmployees := cachedEmployees + [e];
    }
  }
}
