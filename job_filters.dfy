/**
 * The filter panel of the home page: each handler builds a new filters
 * record from the current one, and the badge counts the keys that are set.
 */
module JobFiltersPanel {
  import opened Wrappers
  import opened Types

  datatype FilterKey = DepartmentKey | LocationTypeKey | JobTypeKey

  /** The literal a key holds, or None when the key is undefined. */
  function ValueOf(f: JobFilters, k: FilterKey): Option<string> {
    match k
    case DepartmentKey => if f.department.Some? then Some(DepartmentName(f.department.value)) else None
    case LocationTypeKey => if f.locationType.Some? then Some(LocationTypeName(f.locationType.value)) else None
    case JobTypeKey => if f.jobType.Some? then Some(JobTypeName(f.jobType.value)) else None
  }

  /** Two filters that hold the same value under every key are the same filter. */
  lemma ValuesDetermineFilters(f: JobFilters, g: JobFilters)
    requires forall k :: ValueOf(f, k) == ValueOf(g, k)
    ensures f == g
  {
    assert ValueOf(f, DepartmentKey) == ValueOf(g, DepartmentKey);
    assert ValueOf(f, LocationTypeKey) == ValueOf(g, LocationTypeKey);
    assert ValueOf(f, JobTypeKey) == ValueOf(g, JobTypeKey);
    if f.department.Some? {
      assert ParseDepartment(DepartmentName(f.department.value)) == f.department;
    }
    if f.locationType.Some? {
      assert ParseLocationType(LocationTypeName(f.locationType.value)) == f.locationType;
    }
    if f.jobType.Some? {
      assert ParseJobType(JobTypeName(f.jobType.value)) == f.jobType;
    }
  }

  /** A value the select for `k` offers besides the empty "All ..." option: one of its enum's literals. */
  predicate IsOption(k: FilterKey, value: string) {
    match k
    case DepartmentKey => ParseDepartment(value).Some?
    case LocationTypeKey => ParseLocationType(value).Some?
    case JobTypeKey => ParseJobType(value).Some?
  }

  /**
   * `handleFilterChange(key, value)`: the empty option makes the key
   * undefined, any other option sets it; the other keys keep their values.
   */
  function HandleFilterChange(f: JobFilters, k: FilterKey, value: string): (r: JobFilters)
    requires value == "" || IsOption(k, value)
    ensures ValueOf(r, k) == if value == "" then None else Some(value)
    ensures forall other :: other != k ==> ValueOf(r, other) == ValueOf(f, other)
  {
    match k
    case DepartmentKey => f.(department := if value == "" then None else ParseDepartment(value))
    case LocationTypeKey => f.(locationType := if value == "" then None else ParseLocationType(value))
    case JobTypeKey => f.(jobType := if value == "" then None else ParseJobType(value))
  }

  /** `clearFilter(key)`: the key becomes undefined and nothing else changes. */
  function ClearFilter(f: JobFilters, k: FilterKey): (r: JobFilters)
    ensures ValueOf(r, k) == None
    ensures forall other :: other != k ==> ValueOf(r, other) == ValueOf(f, other)
  {
    match k
    case DepartmentKey => f.(department := None)
    case LocationTypeKey => f.(locationType := None)
    case JobTypeKey => f.(jobType := None)
  }

  /** `clearAllFilters`: the empty filter `{}`. */
  function ClearAllFilters(): (r: JobFilters)
    ensures forall k :: ValueOf(r, k) == None
  {
    NoFilters
  }

  /** The keys that are set. */
  function ActiveKeys(f: JobFilters): (r: set<FilterKey>)
    ensures forall k :: k in r <==> ValueOf(f, k).Some?
  {
    (if f.department.Some? then {DepartmentKey} else {}) +
    (if f.locationType.Some? then {LocationTypeKey} else {}) +
    (if f.jobType.Some? then {JobTypeKey} else {})
  }

  /** `Object.values(filters).filter(Boolean).length`. */
  function ActiveFiltersCount(f: JobFilters): (n: nat)
    ensures n == |ActiveKeys(f)|
    ensures n <= 3
  {
    (if f.department.Some? then 1 else 0) + (if f.locationType.Some? then 1 else 0) +
    (if f.jobType.Some? then 1 else 0)
  }

  /** Choosing the empty option is clearing the key. */
  lemma EmptyOptionClears(f: JobFilters, k: FilterKey)
    ensures HandleFilterChange(f, k, "") == ClearFilter(f, k)
  {
  }

  /** Clearing a key twice is clearing it once. */
  lemma ClearFilterIdempotent(f: JobFilters, k: FilterKey)
    ensures ClearFilter(ClearFilter(f, k), k) == ClearFilter(f, k)
  {
  }

  /** Clearing a set key lowers the count by exactly one; clearing an unset key changes nothing. */
  lemma ClearingLowersCount(f: JobFilters, k: FilterKey)
    ensures ValueOf(f, k).Some? ==> ActiveFiltersCount(ClearFilter(f, k)) == ActiveFiltersCount(f) - 1
    ensures ValueOf(f, k).None? ==> ClearFilter(f, k) == f
  {
    if ValueOf(f, k).None? {
      ValuesDetermineFilters(ClearFilter(f, k), f);
    }
  }

  /** The count is zero exactly for the empty filter, which shows every job the other conditions allow. */
  lemma NoActiveFiltersIffEmpty(f: JobFilters)
    ensures ActiveFiltersCount(f) == 0 <==> f == ClearAllFilters()
  {
  }

  /** Setting a key and then clearing it is clearing it: earlier choices for that key leave no trace. */
  lemma ChangeThenClear(f: JobFilters, k: FilterKey, value: string)
    requires value == "" || IsOption(k, value)
    ensures ClearFilter(HandleFilterChange(f, k, value), k) == ClearFilter(f, k)
  {
  }
}
