/**
 * The search form (src/components/SearchFilters.jsx): which form values are
 * reported as filters on submit, what clearing reports, and when the form
 * counts as actively filtering. Form values are text fields by name; a
 * field the form never set is absent from the map.
 */
module SearchFilters {
  import opened Strings
  import opened Records
  import ReportHooks

  type FormValues = map<string, string>

  /** `value && value.trim() !== ''`. */
  predicate Filled(value: string) {
    value != "" && Strip(value, JsWhitespace) != ""
  }

  /** A value is filled exactly when it has a character `trim` would keep. */
  lemma FilledIffNotBlank(value: string)
    ensures Filled(value) <==> exists i :: 0 <= i < |value| && value[i] !in JsWhitespace
  {
    StripEmptyIffAllIn(value, JsWhitespace);
  }

  /** `onSubmit`: the filled entries, under their own keys and untrimmed. */
  function OnSubmit(data: FormValues): (filters: ReportHooks.SearchFilters)
    ensures filters.Keys <= data.Keys
    ensures forall k :: k in filters ==> filters[k] == data[k] && Filled(data[k])
  {
    map k | k in data && Filled(data[k]) :: data[k]
  }

  /**
   * `onSubmit` drops an entry exactly when its value is empty or made only
   * of whitespace, and passes every other entry on unchanged.
   */
  lemma OnSubmitDropsBlanks(data: FormValues)
    ensures forall k :: k in data ==>
      (k !in OnSubmit(data) <==> AllIn(data[k], JsWhitespace)) &&
      (k in OnSubmit(data) ==> OnSubmit(data)[k] == data[k])
  {
    forall k | k in data
      ensures k !in OnSubmit(data) <==> AllIn(data[k], JsWhitespace)
    {
      StripEmptyIffAllIn(data[k], JsWhitespace);
    }
  }

  /** Submitting an already submitted set of filters changes nothing. */
  lemma OnSubmitIdempotent(data: FormValues)
    ensures OnSubmit(OnSubmit(data)) == OnSubmit(data)
  {
  }

  /** `hasActiveFilters`: some form value is filled. */
  predicate HasActiveFilters(watchedValues: FormValues) {
    exists k :: k in watchedValues && Filled(watchedValues[k])
  }

  /** The form shows itself as filtering exactly when submitting would report some filter. */
  lemma ActiveIffSubmitNonEmpty(values: FormValues)
    ensures HasActiveFilters(values) <==> OnSubmit(values) != map[]
  {
    if HasActiveFilters(values) {
      var k :| k in values && Filled(values[k]);
      assert k in OnSubmit(values);
    }
  }

  /**
   * `clearFilters`: the form goes back to its initial values and the
   * reported filters are always `{}`.
   */
  function ClearFilters(initialFilters: FormValues): (cleared: (FormValues, ReportHooks.SearchFilters))
    ensures cleared.0 == initialFilters
    ensures |cleared.1| == 0
  {
    (initialFilters, map[])
  }

  /** After clearing, the room list shows every room of the query, in order. */
  lemma ClearShowsAll(initialFilters: FormValues, rooms: seq<RoomSummary>)
    ensures ReportHooks.FilterItems(rooms, ClearFilters(initialFilters).1) == rooms
  {
    ReportHooks.EmptyFiltersKeepAll(rooms);
  }

  /**
   * A form whose only filled field is one the list does not filter on still
   * reports a filter, but the list it selects is the whole list.
   */
  lemma UnrecognisedFieldsSelectAll(data: FormValues, rooms: seq<RoomSummary>)
    requires forall k :: k in data && Filled(data[k]) ==> k != "roomNumber" && k != "customerName" && k != "addressNo"
    ensures ReportHooks.FilterItems(rooms, OnSubmit(data)) == rooms
  {
    var f := OnSubmit(data);
    assert "roomNumber" !in f && "customerName" !in f && "addressNo" !in f;
    ReportHooks.FilterWithoutPatterns(rooms, f);
  }
}
