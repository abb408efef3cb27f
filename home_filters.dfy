/**
 * The filters of the home and explore screens
 * (store/home-filters-store.ts): a time range and a category, each
 * optional, each overwritten by its own setter.
 */
module HomeFilters {
  import opened Types

  class Store {
    var timeRange: Option<TimeRange>
    var category: Option<Category>

    /** Both filters start cleared. */
    constructor ()
      ensures timeRange == None && category == None
    {
      timeRange, category := None, None;
    }

    /** Sets or (with `None`) clears the time range; the category is untouched. */
    method SetTimeRange(v: Option<TimeRange>)
      modifies this
      ensures timeRange == v && category == old(category)
    {
      timeRange := v;
    }

    /** Sets or (with `None`) clears the category; the time range is untouched. */
    method SetCategory(v: Option<Category>)
      modifies this
      ensures category == v && timeRange == old(timeRange)
    {
      category := v;
    }
  }
}
