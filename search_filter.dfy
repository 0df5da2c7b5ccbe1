/**
 * The search-and-filter panel above the employee list
 * (components/search-filter.tsx): a text search, a department selection and
 * a rating selection, combined with AND, and the panel's selection state.
 */
module SearchFilter {
  import opened Types
  import opened Seqs
  import opened Text

  // ---------------------------------------------------------------------------
  // Filter stages
  // ---------------------------------------------------------------------------

  /** One of the three filters; each is switched off when its input is empty. */
  datatype Stage =
    | Search(term: string)
    | ByDepartment(departments: seq<string>)
    | ByRating(ratings: seq<int>)

  predicate Active(s: Stage) {
    match s
    case Search(term) => term != ""
    case ByDepartment(departments) => |departments| > 0
    case ByRating(ratings) => |ratings| > 0
  }

  /**
   * Case-insensitive substring match of the term against first name, last
   * name, email or department.
   */
  predicate MatchesSearch(e: Employee, term: string) {
    var t := ToLower(term);
    || Includes(ToLower(e.firstName), t)
    || Includes(ToLower(e.lastName), t)
    || Includes(ToLower(e.email), t)
    || Includes(ToLower(e.company.department), t)
  }

  /**
   * The search matches exactly when the lower-cased term occurs at some
   * position of the lower-cased first name, last name, email or department.
   */
  lemma MatchesSearchOccurs(e: Employee, term: string)
    ensures var t := ToLower(term);
            MatchesSearch(e, term) <==>
              (|| Occurs(ToLower(e.firstName), t) || Occurs(ToLower(e.lastName), t)
               || Occurs(ToLower(e.email), t) || Occurs(ToLower(e.company.department), t))
  {
    var t := ToLower(term);
    IncludesIff(ToLower(e.firstName), t);
    IncludesIff(ToLower(e.lastName), t);
    IncludesIff(ToLower(e.email), t);
    IncludesIff(ToLower(e.company.department), t);
  }

  /** Whether `e` gets through stage `s`; a stage that is off lets everything through. */
  predicate Passes(e: Employee, s: Stage) {
    !Active(s) ||
    match s
    case Search(term) => MatchesSearch(e, term)
    case ByDepartment(departments) => e.company.department in departments
    case ByRating(ratings) => e.performance.rating in ratings
  }

  predicate PassesAll(e: Employee, stages: seq<Stage>) {
    forall s :: s in stages ==> Passes(e, s)
  }

  /** The stages applyFilters builds from the panel's state. */
  function Criteria(term: string, departments: seq<string>, ratings: seq<int>): seq<Stage> {
    [Search(term), ByDepartment(departments), ByRating(ratings)]
  }

  /** The employees that get through every stage, in their original order (`Array.filter`). */
  function Sift(employees: seq<Employee>, stages: seq<Stage>): (r: seq<Employee>)
    ensures SubsequenceOf(r, employees)
    ensures forall e :: e in r <==> e in employees && PassesAll(e, stages)
  {
    if employees == [] then []
    else if PassesAll(employees[0], stages) then [employees[0]] + Sift(employees[1..], stages)
    else Sift(employees[1..], stages)
  }

  /**
   * Like `Array.filter`, `Sift` keeps every copy of a passing employee:
   * each one occurs in the result as often as in the input.
   */
  lemma {:induction false} SiftCounts(employees: seq<Employee>, stages: seq<Stage>, e: Employee)
    ensures multiset(Sift(employees, stages))[e] == if PassesAll(e, stages) then multiset(employees)[e] else 0
  {
    if employees != [] {
      SiftCounts(employees[1..], stages, e);
      assert employees == [employees[0]] + employees[1..];
    }
  }

  /** Filtering by `a` and then by `b` is filtering once by both. */
  lemma {:induction false} SiftCompose(employees: seq<Employee>, a: seq<Stage>, b: seq<Stage>)
    ensures Sift(Sift(employees, a), b) == Sift(employees, a + b)
  {
    if employees != [] {
      SiftCompose(employees[1..], a, b);
      var e := employees[0];
      assert PassesAll(e, a + b) <==> PassesAll(e, a) && PassesAll(e, b);
      if PassesAll(e, a) {
        assert ([e] + Sift(employees[1..], a))[1..] == Sift(employees[1..], a);
      }
    }
  }

  /** Only which stages are applied matters, not their order or repetition. */
  lemma {:induction false} SiftSameStages(employees: seq<Employee>, a: seq<Stage>, b: seq<Stage>)
    requires forall s :: s in a <==> s in b
    ensures Sift(employees, a) == Sift(employees, b)
  {
    if employees != [] {
      SiftSameStages(employees[1..], a, b);
      assert PassesAll(employees[0], a) == PassesAll(employees[0], b);
    }
  }

  /** Filtering a filtered list again with the same stages changes nothing. */
  lemma SiftIdempotent(employees: seq<Employee>, stages: seq<Stage>)
    ensures Sift(Sift(employees, stages), stages) == Sift(employees, stages)
  {
    SiftCompose(employees, stages, stages);
    SiftSameStages(employees, stages + stages, stages);
  }

  /** When everyone gets through, the list comes back unchanged. */
  lemma {:induction false} SiftKeepsAll(employees: seq<Employee>, stages: seq<Stage>)
    requires forall e :: e in employees ==> PassesAll(e, stages)
    ensures Sift(employees, stages) == employees
  {
    if employees != [] {
      SiftKeepsAll(employees[1..], stages);
    }
  }

  lemma SiftInactive(employees: seq<Employee>, s: Stage)
    requires !Active(s)
    ensures Sift(employees, [s]) == employees
  {
    SiftKeepsAll(employees, [s]);
  }

  /** No search term and no selections: the filter shows the whole list. */
  lemma NoCriteriaKeepsAll(employees: seq<Employee>)
    ensures Sift(employees, Criteria("", [], [])) == employees
  {
    SiftKeepsAll(employees, Criteria("", [], []));
  }

  /** Getting through the combined filter means passing each of the three tests. */
  lemma PassesCriteria(e: Employee, term: string, departments: seq<string>, ratings: seq<int>)
    ensures PassesAll(e, Criteria(term, departments, ratings)) <==>
              && (term == "" || MatchesSearch(e, term))
              && (|departments| == 0 || e.company.department in departments)
              && (|ratings| == 0 || e.performance.rating in ratings)
  {
    var c := Criteria(term, departments, ratings);
    assert c[0] in c && c[1] in c && c[2] in c;
  }

  lemma SiftThreeInTurn(employees: seq<Employee>, order: seq<Stage>)
    requires |order| == 3
    ensures Sift(Sift(Sift(employees, [order[0]]), [order[1]]), [order[2]]) == Sift(employees, order)
  {
    SiftCompose(employees, [order[0]], [order[1]]);
    SiftCompose(employees, [order[0]] + [order[1]], [order[2]]);
    assert [order[0]] + [order[1]] + [order[2]] == order;
  }

  lemma SameMultisetSameElements(a: seq<Stage>, b: seq<Stage>)
    requires multiset(a) == multiset(b)
    ensures |a| == |b|
    ensures forall s :: s in a <==> s in b
  {
    assert |a| == |multiset(a)|;
    forall s ensures s in a <==> s in b {
      assert s in a <==> s in multiset(a);
      assert s in b <==> s in multiset(b);
    }
  }

  /** Running the three stages one after another, in any order, gives the combined filter. */
  lemma StageOrderIrrelevant(employees: seq<Employee>, term: string, departments: seq<string>,
                             ratings: seq<int>, order: seq<Stage>)
    requires multiset(order) == multiset(Criteria(term, departments, ratings))
    ensures |order| == 3
    ensures Sift(Sift(Sift(employees, [order[0]]), [order[1]]), [order[2]])
         == Sift(employees, Criteria(term, departments, ratings))
  {
    var c := Criteria(term, departments, ratings);
    SameMultisetSameElements(order, c);
    SiftThreeInTurn(employees, order);
    SiftSameStages(employees, order, c);
  }

  /** The search is case-insensitive in the term: lower-casing it first changes nothing. */
  lemma SearchIgnoresTermCase(e: Employee, term: string)
    ensures MatchesSearch(e, ToLower(term)) <==> MatchesSearch(e, term)
  {
    ToLowerIdempotent(term);
  }

  /** The term "eng" finds every Engineering employee, whatever their name and email. */
  lemma EngFindsEngineering(e: Employee)
    requires e.company.department == "Engineering"
    ensures MatchesSearch(e, "eng") && MatchesSearch(e, "ENG")
  {
    var d := ToLower(e.company.department);
    assert d[0] == LowerChar('E') && d[1] == LowerChar('n') && d[2] == LowerChar('g');
    assert d[..3] == "eng";
    var lower, upper := ToLower("eng"), ToLower("ENG");
    assert lower[0] == LowerChar('e') && lower[1] == LowerChar('n') && lower[2] == LowerChar('g');
    assert upper[0] == LowerChar('E') && upper[1] == LowerChar('N') && upper[2] == LowerChar('G');
    assert lower == "eng" == upper;
    assert IsPrefix("eng", d);
  }

  // ---------------------------------------------------------------------------
  // Selection lists and the department options
  // ---------------------------------------------------------------------------

  /** `xs.filter(x => x !== v)`. */
  function Without<T(==)>(xs: seq<T>, v: T): (r: seq<T>)
    ensures forall w :: w in r ==> w in xs && w != v
    ensures forall w :: w in xs && w != v ==> w in r
    ensures SubsequenceOf(r, xs)
  {
    if xs == [] then []
    else if xs[0] == v then Without(xs[1..], v)
    else [xs[0]] + Without(xs[1..], v)
  }

  /** Every copy of `v` is dropped and every other value keeps its number of copies. */
  lemma {:induction false} WithoutCounts<T>(xs: seq<T>, v: T, w: T)
    ensures multiset(Without(xs, v))[w] == if w == v then 0 else multiset(xs)[w]
  {
    if xs != [] {
      WithoutCounts(xs[1..], v, w);
      assert xs == [xs[0]] + xs[1..];
    }
  }

  /** `xs.includes(v) ? xs.filter(x => x !== v) : [...xs, v]`. */
  function Toggle<T(==)>(xs: seq<T>, v: T): (r: seq<T>)
    ensures v in r <==> v !in xs
    ensures forall w :: w in r && w != v ==> w in xs
    ensures forall w :: w in xs && w != v ==> w in r
  {
    if v in xs then Without(xs, v) else xs + [v]
  }

  lemma {:induction false} WithoutShortens<T>(xs: seq<T>, v: T)
    ensures |Without(xs, v)| <= |xs|
    ensures v in xs ==> |Without(xs, v)| < |xs|
  {
    if xs != [] {
      WithoutShortens(xs[1..], v);
      assert v in xs && xs[0] != v ==> v in xs[1..];
    }
  }

  /**
   * Where the toggled value goes: a new value is added at the end behind the
   * earlier selections, and removing a value shortens the list, keeping the
   * rest in order.
   */
  lemma ToggleShape<T>(xs: seq<T>, v: T)
    ensures v !in xs ==> |Toggle(xs, v)| == |xs| + 1 && Toggle(xs, v)[..|xs|] == xs && Toggle(xs, v)[|xs|] == v
    ensures v in xs ==> |Toggle(xs, v)| < |xs| && SubsequenceOf(Toggle(xs, v), xs)
  {
    if v in xs {
      WithoutShortens(xs, v);
    } else {
      assert (xs + [v])[..|xs|] == xs;
    }
  }

  lemma {:induction false} WithoutKeepsNoDuplicates<T>(xs: seq<T>, v: T)
    requires NoDuplicates(xs)
    ensures NoDuplicates(Without(xs, v))
  {
    if xs != [] {
      assert NoDuplicates(xs[1..]);
      WithoutKeepsNoDuplicates(xs[1..], v);
      if xs[0] != v {
        var r := [xs[0]] + Without(xs[1..], v);
        assert xs[0] !in xs[1..];
        forall j | 0 < j < |r| ensures r[0] != r[j] {
          assert r[j] in Without(xs[1..], v);
        }
      }
    }
  }

  /** A selection without repeats stays without repeats. */
  lemma ToggleKeepsNoDuplicates<T>(xs: seq<T>, v: T)
    requires NoDuplicates(xs)
    ensures NoDuplicates(Toggle(xs, v))
  {
    if v in xs {
      WithoutKeepsNoDuplicates(xs, v);
    }
  }

  lemma {:induction false} WithoutAppended<T>(xs: seq<T>, v: T)
    requires v !in xs
    ensures Without(xs + [v], v) == xs
  {
    if xs == [] {
      assert Without([v], v) == Without([], v);
    } else {
      assert (xs + [v])[1..] == xs[1..] + [v];
      WithoutAppended(xs[1..], v);
    }
  }

  /** Selecting an unselected value and then unselecting it restores the list exactly. */
  lemma ToggleTwiceRestores<T>(xs: seq<T>, v: T)
    requires v !in xs
    ensures Toggle(Toggle(xs, v), v) == xs
  {
    WithoutAppended(xs, v);
  }

  function DepartmentsOf(employees: seq<Employee>): (r: seq<string>)
    ensures |r| == |employees|
    ensures forall i :: 0 <= i < |employees| ==> r[i] == employees[i].company.department
  {
    if employees == [] then [] else [employees[0].company.department] + DepartmentsOf(employees[1..])
  }

  /**
   * `Array.from(new Set(xs))`: each value once, in the order of its first
   * appearance in `xs`.
   */
  function Distinct<T(==)>(xs: seq<T>): (r: seq<T>)
    ensures NoDuplicates(r)
    ensures forall x :: x in r ==> x in xs
    ensures forall x :: x in xs ==> x in r
    ensures forall i, j :: 0 <= i < j < |r| ==> FirstIndex(xs, r[i]) < FirstIndex(xs, r[j])
  {
    if xs == [] then []
    else
      var init, last := xs[..|xs| - 1], xs[|xs| - 1];
      assert xs == init + [last];
      var r := Distinct(init);
      assert forall x :: x in r ==> FirstIndex(xs, x) == FirstIndex(init, x) by {
        forall x | x in r ensures FirstIndex(xs, x) == FirstIndex(init, x) {
          FirstIndexAppend(init, last, x);
        }
      }
      if last in r then r
      else
        assert FirstIndex(xs, last) == |init| by {
          FirstIndexUnique(xs, last, |init|);
        }
        r + [last]
  }

  /** The department badges: every department of the list once, in first-appearance order. */
  function DepartmentOptions(employees: seq<Employee>): (r: seq<string>)
    ensures NoDuplicates(r)
    ensures forall d :: d in r ==> d in DepartmentsOf(employees)
    ensures forall d :: d in r <==> exists e :: e in employees && e.company.department == d
    ensures forall i, j :: 0 <= i < j < |r| ==>
              FirstIndex(DepartmentsOf(employees), r[i]) < FirstIndex(DepartmentsOf(employees), r[j])
  {
    var all := DepartmentsOf(employees);
    assert forall d :: d in all <==> exists e :: e in employees && e.company.department == d by {
      forall d ensures d in all <==> exists e :: e in employees && e.company.department == d {
        if d in all {
          var i :| 0 <= i < |all| && all[i] == d;
          assert employees[i] in employees;
        }
      }
    }
    Distinct(all)
  }

  // ---------------------------------------------------------------------------
  // The panel's state
  // ---------------------------------------------------------------------------

  /** The three `useState` fields of the panel and the handlers that change them. */
  class FilterState {
    var searchTerm: string
    var selectedDepartments: seq<string>
    var selectedRatings: seq<int>

    constructor ()
      ensures searchTerm == "" && selectedDepartments == [] && selectedRatings == []
    {
      searchTerm := "";
      selectedDepartments := [];
      selectedRatings := [];
    }

    /** The search box's change handler. */
    method SetSearchTerm(term: string)
      modifies this
      ensures searchTerm == term
      ensures selectedDepartments == old(selectedDepartments) && selectedRatings == old(selectedRatings)
    {
      searchTerm := term;
    }

    method ToggleDepartment(department: string)
      modifies this
      ensures selectedDepartments == Toggle(old(selectedDepartments), department)
      ensures department in selectedDepartments <==> department !in old(selectedDepartments)
      ensures NoDuplicates(old(selectedDepartments)) ==> NoDuplicates(selectedDepartments)
      ensures searchTerm == old(searchTerm) && selectedRatings == old(selectedRatings)
    {
      if NoDuplicates(selectedDepartments) {
        ToggleKeepsNoDuplicates(selectedDepartments, department);
      }
      selectedDepartments := Toggle(selectedDepartments, department);
    }

    method ToggleRating(rating: int)
      modifies this
      ensures selectedRatings == Toggle(old(selectedRatings), rating)
      ensures rating in selectedRatings <==> rating !in old(selectedRatings)
      ensures NoDuplicates(old(selectedRatings)) ==> NoDuplicates(selectedRatings)
      ensures searchTerm == old(searchTerm) && selectedDepartments == old(selectedDepartments)
    {
      if NoDuplicates(selectedRatings) {
        ToggleKeepsNoDuplicates(selectedRatings, rating);
      }
      selectedRatings := Toggle(selectedRatings, rating);
    }

    /** Empties all three selections and hands back the unfiltered list. */
    method ClearFilters(employees: seq<Employee>) returns (shown: seq<Employee>)
      modifies this
      ensures searchTerm == "" && selectedDepartments == [] && selectedRatings == []
      ensures shown == employees == Sift(employees, Criteria(searchTerm, selectedDepartments, selectedRatings))
    {
      searchTerm := "";
      selectedDepartments := [];
      selectedRatings := [];
      NoCriteriaKeepsAll(employees);
      shown := employees;
    }

    /**
     * applyFilters: the three stages in turn, each skipped when it is off.
     * The result is the single combined filter: an order-preserving part of
     * the list holding exactly the employees that pass all three tests.
     */
    method ApplyFilters(employees: seq<Employee>) returns (filtered: seq<Employee>)
      ensures filtered == Sift(employees, Criteria(searchTerm, selectedDepartments, selectedRatings))
      ensures SubsequenceOf(filtered, employees)
      ensures forall e :: e in filtered <==>
                && e in employees
                && (searchTerm == "" || MatchesSearch(e, searchTerm))
                && (|selectedDepartments| == 0 || e.company.department in selectedDepartments)
                && (|selectedRatings| == 0 || e.performance.rating in selectedRatings)
    {
      var search := Search(searchTerm);
      var byDepartment := ByDepartment(selectedDepartments);
      var byRating := ByRating(selectedRatings);
      filtered := employees;
      if searchTerm != "" {
        filtered := Sift(filtered, [search]);
      } else {
        SiftInactive(employees, search);
      }
      ghost var afterSearch := filtered;
      if |selectedDepartments| > 0 {
        filtered := Sift(filtered, [byDepartment]);
      } else {
        SiftInactive(afterSearch, byDepartment);
      }
      ghost var afterDepartment := filtered;
      if |selectedRatings| > 0 {
        filtered := Sift(filtered, [byRating]);
      } else {
        SiftInactive(afterDepartment, byRating);
      }
      StageOrderIrrelevant(employees, searchTerm, selectedDepartments, selectedRatings,
                           Criteria(searchTerm, selectedDepartments, selectedRatings));
      forall e | e in employees {
        PassesCriteria(e, searchTerm, selectedDepartments, selectedRatings);
      }
    }

    /** hasActiveFilters: when it is false the filter hands back every list unchanged. */
    function HasActiveFilters(): (b: bool)
      reads this
      ensures !b ==> forall es :: Sift(es, Criteria(searchTerm, selectedDepartments, selectedRatings)) == es
    {
      assert !(searchTerm != "" || |selectedDepartments| > 0 || |selectedRatings| > 0) ==>
               forall es :: Sift(es, Criteria(searchTerm, selectedDepartments, selectedRatings)) == es by {
        if !(searchTerm != "" || |selectedDepartments| > 0 || |selectedRatings| > 0) {
          forall es ensures Sift(es, Criteria(searchTerm, selectedDepartments, selectedRatings)) == es {
            NoCriteriaKeepsAll(es);
          }
        }
      }
      searchTerm != "" || |selectedDepartments| > 0 || |selectedRatings| > 0
    }

    /** The number on the Filters badge; it is zero exactly when no filter is active. */
    function BadgeCount(): (n: nat)
      reads this
      ensures n == 0 <==> !HasActiveFilters()
      ensures n >= |selectedDepartments| + |selectedRatings|
    {
      |selectedDepartments| + |selectedRatings| + (if searchTerm != "" then 1 else 0)
    }
  }
}
