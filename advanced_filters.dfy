/** The advanced-filter dialog: filter criteria with multi-value lists that
    values are toggled in and out of, a count of the active criteria shown
    on the button, and the list of removable tags shown for active filters. */
module AdvancedFilters {
  import opened Wrappers
  import opened Sequences

  datatype SortOrder = Asc | Desc

  /** A date range whose ends are set one at a time, so either may be missing. */
  datatype DateRange = DateRange(start: Option<string>, end: Option<string>)

  /** `FilterCriteria`: every property optional; a missing property and an
      `undefined` one are both `None`. */
  datatype FilterCriteria = FilterCriteria(
    dateRange: Option<DateRange>,
    technique: Option<seq<string>>, instrument: Option<seq<string>>,
    tags: Option<seq<string>>, status: Option<seq<string>>,
    sortBy: Option<string>, sortOrder: Option<SortOrder>)

  /** `{}`. */
  const Empty := FilterCriteria(None, None, None, None, None, None, None)

  /** The list-valued criteria `toggleArrayFilter` is used on. */
  datatype ListKey = Technique | Instrument | Tags | Status

  function Get(f: FilterCriteria, key: ListKey): Option<seq<string>> {
    match key
    case Technique => f.technique
    case Instrument => f.instrument
    case Tags => f.tags
    case Status => f.status
  }

  /** `{ ...f, [key]: list }`. */
  function With(f: FilterCriteria, key: ListKey, list: seq<string>): (r: FilterCriteria)
    ensures Get(r, key) == Some(list)
    ensures forall k :: k != key ==> Get(r, k) == Get(f, k)
    ensures r.dateRange == f.dateRange && r.sortBy == f.sortBy && r.sortOrder == f.sortOrder
  {
    match key
    case Technique => f.(technique := Some(list))
    case Instrument => f.(instrument := Some(list))
    case Tags => f.(tags := Some(list))
    case Status => f.(status := Some(list))
  }

  // ---- Toggling ----

  /** `(prev[key] || [])`, then the value removed if present, else appended. */
  function ToggleValue(current: Option<seq<string>>, value: string): seq<string> {
    var list := if current.Some? then current.value else [];
    if value in list then Removed(list, value) else list + [value]
  }

  function Toggle(f: FilterCriteria, key: ListKey, value: string): FilterCriteria {
    With(f, key, ToggleValue(Get(f, key), value))
  }

  /** Toggling appends an absent value and removes every occurrence of a
      present one. */
  lemma ToggleMembers(f: FilterCriteria, key: ListKey, value: string)
    ensures var old_ := if Get(f, key).Some? then Get(f, key).value else [];
      var new_ := Get(Toggle(f, key, value), key).value;
      && (value !in old_ ==> new_ == old_ + [value])
      && (value in old_ ==> value !in new_ && forall v :: v != value ==> (v in new_ <==> v in old_))
  {
    var list := if Get(f, key).Some? then Get(f, key).value else [];
    forall v {
      RemovedMembers(list, value, v);
    }
  }

  /** For a value not yet selected, toggling twice gives back the list
      (a missing list comes back as an empty one). */
  lemma ToggleTwice(f: FilterCriteria, key: ListKey, value: string)
    requires Get(f, key).Some? ==> value !in Get(f, key).value
    ensures var list := if Get(f, key).Some? then Get(f, key).value else [];
      Get(Toggle(Toggle(f, key, value), key, value), key) == Some(list)
  {
    var list := if Get(f, key).Some? then Get(f, key).value else [];
    RemovedAppend(list, [value], value);
    RemoveAbsent(list, value);
    assert Removed([value], value) == [];
  }

  // ---- The active-filter count ----

  function NonEmptyList(v: Option<seq<string>>): nat {
    if v.Some? && |v.value| > 0 then 1 else 0
  }

  /** `activeFilterCount`: list criteria count when non-empty, the others
      when truthy; a date range object counts even with both ends unset. */
  function ActiveFilterCount(f: FilterCriteria): (n: nat)
    ensures n <= 7
  {
    NonEmptyList(f.technique) + NonEmptyList(f.instrument) + NonEmptyList(f.tags) + NonEmptyList(f.status)
    + (if f.sortBy.Some? && f.sortBy.value != "" then 1 else 0)
    + (if f.sortOrder.Some? then 1 else 0)
    + (if f.dateRange.Some? then 1 else 0)
  }

  /** Nothing is active exactly when no list holds a value and no other
      criterion is set; `{}` in particular counts zero. */
  lemma CountZeroIff(f: FilterCriteria)
    ensures ActiveFilterCount(f) == 0 <==>
      (forall k :: Get(f, k).None? || Get(f, k).value == [])
      && (f.sortBy.None? || f.sortBy.value == "") && f.sortOrder.None? && f.dateRange.None?
    ensures ActiveFilterCount(Empty) == 0
  {
    if ActiveFilterCount(f) == 0 {
      forall k ensures Get(f, k).None? || Get(f, k).value == [] {
        match k
        case Technique =>
        case Instrument =>
        case Tags =>
        case Status =>
      }
    } else {
      if NonEmptyList(f.technique) > 0 { assert Get(f, Technique).value != []; }
      if NonEmptyList(f.instrument) > 0 { assert Get(f, Instrument).value != []; }
      if NonEmptyList(f.tags) > 0 { assert Get(f, Tags).value != []; }
      if NonEmptyList(f.status) > 0 { assert Get(f, Status).value != []; }
    }
  }

  /** Toggling a value into an empty criterion adds one to the count, and
      toggling the only value out of a criterion takes one away. */
  lemma ToggleChangesCount(f: FilterCriteria, key: ListKey, value: string)
    ensures (Get(f, key).None? || Get(f, key).value == []) ==>
      ActiveFilterCount(Toggle(f, key, value)) == ActiveFilterCount(f) + 1
    ensures Get(f, key) == Some([value]) ==>
      ActiveFilterCount(Toggle(f, key, value)) + 1 == ActiveFilterCount(f)
  {
    if Get(f, key) == Some([value]) {
      assert Removed([value], value) == [];
    }
  }

  // ---- The dialog state ----

  class Dialog {
    var localFilters: FilterCriteria
    var isOpen: bool

    constructor (activeFilters: FilterCriteria)
      ensures localFilters == activeFilters && !isOpen
    {
      localFilters := activeFilters;
      isOpen := false;
    }

    /** `applyFilters`: hands the local criteria on unchanged and closes. */
    method ApplyFilters() returns (emitted: FilterCriteria)
      modifies this
      ensures emitted == localFilters == old(localFilters) && !isOpen
    {
      emitted := localFilters;
      isOpen := false;
    }

    /** `clearFilters`: `{}` locally and to the listener. */
    method ClearFilters() returns (emitted: FilterCriteria)
      modifies this
      ensures localFilters == Empty && emitted == Empty && isOpen == old(isOpen)
    {
      localFilters := Empty;
      emitted := Empty;
    }

    method ToggleArrayFilter(key: ListKey, value: string)
      modifies this
      ensures localFilters == Toggle(old(localFilters), key, value) && isOpen == old(isOpen)
    {
      var current := if Get(localFilters, key).Some? then Get(localFilters, key).value else [];
      var updated := if value in current then Removed(current, value) else current + [value];
      localFilters := With(localFilters, key, updated);
    }

    /** The "From" date input: `{ ...prev.dateRange, start }`. */
    method SetDateStart(value: string)
      modifies this
      ensures localFilters == old(localFilters).(dateRange := Some(DateRange(Some(value),
        if old(localFilters).dateRange.Some? then old(localFilters).dateRange.value.end else None)))
      ensures isOpen == old(isOpen)
    {
      var end := if localFilters.dateRange.Some? then localFilters.dateRange.value.end else None;
      localFilters := localFilters.(dateRange := Some(DateRange(Some(value), end)));
    }

    /** The "To" date input: `{ ...prev.dateRange, end }`. */
    method SetDateEnd(value: string)
      modifies this
      ensures localFilters == old(localFilters).(dateRange := Some(DateRange(
        if old(localFilters).dateRange.Some? then old(localFilters).dateRange.value.start else None, Some(value))))
      ensures isOpen == old(isOpen)
    {
      var start := if localFilters.dateRange.Some? then localFilters.dateRange.value.start else None;
      localFilters := localFilters.(dateRange := Some(DateRange(start, Some(value))));
    }

    method SetSortBy(value: string)
      modifies this
      ensures localFilters == old(localFilters).(sortBy := Some(value)) && isOpen == old(isOpen)
    {
      localFilters := localFilters.(sortBy := Some(value));
    }

    method SetSortOrder(value: SortOrder)
      modifies this
      ensures localFilters == old(localFilters).(sortOrder := Some(value)) && isOpen == old(isOpen)
    {
      localFilters := localFilters.(sortOrder := Some(value));
    }
  }

  // ---- The active-filter tags ----

  datatype FilterKey = TechniqueKey | InstrumentKey | StatusKey | DateRangeKey

  /** One removable tag: the criterion, the shown text, the value removed. */
  datatype FilterTag = FilterTag(key: FilterKey, text: string, value: Option<string>)

  /** A missing date end is interpolated as "undefined". */
  function Shown(s: Option<string>): string {
    if s.Some? then s.value else "undefined"
  }

  /** The tags one list criterion contributes, in list order. */
  function TagsFor(key: FilterKey, prefix: string, values: Option<seq<string>>): (r: seq<FilterTag>)
    ensures values.None? ==> r == []
    ensures values.Some? ==> (|r| == |values.value|
      && forall i :: 0 <= i < |r| ==> r[i] == FilterTag(key, prefix + values.value[i], Some(values.value[i])))
  {
    if values.None? then []
    else seq(|values.value|, i requires 0 <= i < |values.value| =>
               FilterTag(key, prefix + values.value[i], Some(values.value[i])))
  }

  function DateTag(f: FilterCriteria): (r: seq<FilterTag>)
    ensures |r| == if f.dateRange.Some? then 1 else 0
  {
    if f.dateRange.None? then []
    else [FilterTag(DateRangeKey,
                    "Date: " + Shown(f.dateRange.value.start) + " to " + Shown(f.dateRange.value.end), None)]
  }

  /** Technique tags, then instrument, then status, then one date tag. */
  function FilterTags(f: FilterCriteria): seq<FilterTag> {
    TagsFor(TechniqueKey, "Technique: ", f.technique) + TagsFor(InstrumentKey, "Instrument: ", f.instrument)
    + TagsFor(StatusKey, "Status: ", f.status) + DateTag(f)
  }

  /** The tags after one `forEach`: each value pushed in order. */
  method PushAll(tags: seq<FilterTag>, key: FilterKey, prefix: string, values: seq<string>)
    returns (r: seq<FilterTag>)
    ensures r == tags + TagsFor(key, prefix, Some(values))
  {
    r := tags;
    for i := 0 to |values|
      invariant r == tags + TagsFor(key, prefix, Some(values))[..i]
    {
      r := r + [FilterTag(key, prefix + values[i], Some(values[i]))];
      assert TagsFor(key, prefix, Some(values))[..i + 1] == TagsFor(key, prefix, Some(values))[..i]
        + [FilterTag(key, prefix + values[i], Some(values[i]))];
    }
    assert TagsFor(key, prefix, Some(values))[..|values|] == TagsFor(key, prefix, Some(values));
  }

  /** `ActiveFiltersDisplay`'s tag list; `None` where it renders nothing. */
  method ActiveFilterTags(filters: FilterCriteria) returns (r: Option<seq<FilterTag>>)
    ensures r.None? <==> FilterTags(filters) == []
    ensures r.Some? ==> r.value == FilterTags(filters)
  {
    var filterTags: seq<FilterTag> := [];
    if filters.technique.Some? {
      filterTags := PushAll(filterTags, TechniqueKey, "Technique: ", filters.technique.value);
    }
    ghost var techniqueTags := TagsFor(TechniqueKey, "Technique: ", filters.technique);
    assert filterTags == techniqueTags;
    if filters.instrument.Some? {
      filterTags := PushAll(filterTags, InstrumentKey, "Instrument: ", filters.instrument.value);
    }
    ghost var instrumentTags := TagsFor(InstrumentKey, "Instrument: ", filters.instrument);
    assert filterTags == techniqueTags + instrumentTags;
    if filters.status.Some? {
      filterTags := PushAll(filterTags, StatusKey, "Status: ", filters.status.value);
    }
    ghost var statusTags := TagsFor(StatusKey, "Status: ", filters.status);
    assert filterTags == techniqueTags + instrumentTags + statusTags;
    if filters.dateRange.Some? {
      filterTags := filterTags + [FilterTag(DateRangeKey,
        "Date: " + Shown(filters.dateRange.value.start) + " to " + Shown(filters.dateRange.value.end), None)];
    }
    assert filterTags == FilterTags(filters);
    if |filterTags| == 0 {
      return None;
    }
    return Some(filterTags);
  }

  /** The display shows one tag per selected technique, instrument and
      status plus one for a date range; the tags criterion and the sort
      settings are never shown. */
  lemma FilterTagCount(f: FilterCriteria)
    ensures |FilterTags(f)| ==
      (if f.technique.Some? then |f.technique.value| else 0)
      + (if f.instrument.Some? then |f.instrument.value| else 0)
      + (if f.status.Some? then |f.status.value| else 0)
      + (if f.dateRange.Some? then 1 else 0)
    ensures FilterTags(f) == FilterTags(f.(tags := None, sortBy := None, sortOrder := None))
  {
  }

  /** The technique tags come first, in the order of the list. */
  lemma TechniqueTagsFirst(f: FilterCriteria, i: nat)
    requires f.technique.Some? && i < |f.technique.value|
    ensures FilterTags(f)[i] == FilterTag(TechniqueKey, "Technique: " + f.technique.value[i], Some(f.technique.value[i]))
  {
  }

  /** The display renders nothing while active sort settings still count:
      the badge and the tag list can disagree. */
  lemma SortOnlyCountsButShowsNothing()
    ensures FilterTags(Empty.(sortOrder := Some(Asc))) == []
    ensures ActiveFilterCount(Empty.(sortOrder := Some(Asc))) == 1
  {
  }
}
