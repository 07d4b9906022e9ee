/**
 * The route history page: a list of saved route searches, a priority filter
 * over it, deletion by id, and the colour and label shown for each priority.
 */
module RouteHistoryPage {
  import opened Seqs

  /** One saved search: its endpoints, the priority it optimised, its totals, date and hub sequence. */
  datatype SavedRoute = SavedRoute(id: int, from: string, to: string, priority: string,
                                   cost: real, time: real, co2: real, date: string, path: seq<string>)

  /** The filter value that shows every entry. */
  const All := "all"

  /** The three priorities a search can be saved under. */
  const Priorities := {"COST", "TIME", "CO2"}

  /** The grey used for an unknown priority. */
  const DefaultColor := "#6b7280"

  /** The entries loaded when the page opens. */
  const SeedHistory := [
    SavedRoute(1, "BHO", "MUM", "COST", 450.0, 18.0, 120.0, "2026-02-10", ["BHO", "DEL", "MUM"]),
    SavedRoute(2, "DEL", "LON", "TIME", 1200.0, 12.0, 350.0, "2026-02-11", ["DEL", "LON"]),
    SavedRoute(3, "MUM", "HAM", "CO2", 800.0, 24.0, 180.0, "2026-02-12", ["MUM", "LON", "HAM"])
  ]

  /** Keeps the entries saved under `priority`. */
  function HasPriority(priority: string): SavedRoute -> bool
  {
    (r: SavedRoute) => r.priority == priority
  }

  /** Keeps the entries whose id is not `id`. */
  function SavedOtherThan(id: int): SavedRoute -> bool
  {
    (r: SavedRoute) => r.id != id
  }

  /** `filteredHistory`: the whole list for `'all'`, otherwise the entries saved under the filter value. */
  function FilterHistory(history: seq<SavedRoute>, filter: string): (r: seq<SavedRoute>)
    ensures filter == All ==> r == history
    ensures filter != All ==> forall e :: e in r <==> e in history && e.priority == filter
  {
    if filter == All then history else Filter(history, HasPriority(filter))
  }

  /** `getPriorityColor`: a fixed colour per known priority, grey for anything else. */
  function PriorityColor(priority: string): (c: string)
    ensures priority == "COST" ==> c == "#10b981"
    ensures priority == "TIME" ==> c == "#3b82f6"
    ensures priority == "CO2" ==> c == "#22c55e"
    ensures priority !in Priorities ==> c == DefaultColor
  {
    match priority
    case "COST" => "#10b981"
    case "TIME" => "#3b82f6"
    case "CO2" => "#22c55e"
    case _ => DefaultColor
  }

  /** `getPriorityLabel`: a caption per known priority; anything else is shown as it is. */
  function PriorityLabel(priority: string): (l: string)
    ensures priority == "COST" ==> l == "\U{1F4B0} Cheapest"
    ensures priority == "TIME" ==> l == "⚡ Fastest"
    ensures priority == "CO2" ==> l == "\U{1F33F} Greenest"
    ensures priority !in Priorities ==> l == priority
  {
    match priority
    case "COST" => "\U{1F4B0} Cheapest"
    case "TIME" => "⚡ Fastest"
    case "CO2" => "\U{1F33F} Greenest"
    case _ => priority
  }

  /** The caption of a filter button: its own text for `'all'`, the priority label otherwise. */
  function FilterCaption(f: string): (c: string)
    ensures f == All ==> c == "\U{1F4CB} All Routes"
    ensures f != All ==> c == PriorityLabel(f)
  {
    if f == All then "\U{1F4CB} All Routes" else PriorityLabel(f)
  }

  /** The page state: the saved entries and the selected filter. */
  class RouteHistory {
    var history: seq<SavedRoute>
    var filter: string

    /** The page after its load effect: the seed entries, filter `'all'`. */
    constructor ()
      ensures history == SeedHistory && filter == All
    {
      history := SeedHistory;
      filter := All;
    }

    /** The entries on screen under the current filter: exactly the matching ones, in history order. */
    function FilteredHistory(): (r: seq<SavedRoute>)
      reads this
      ensures filter == All ==> r == history
      ensures IsSubsequence(r, history)
      ensures forall e :: e in r <==> e in history && (filter == All || e.priority == filter)
    {
      FilterSubsequenceOfHistory(history, filter);
      FilterHistory(history, filter)
    }

    /** A filter button selects its value. */
    method SetFilter(f: string)
      modifies this
      ensures filter == f && history == old(history)
    {
      filter := f;
    }

    /** `deleteRoute`: drops the entries with that id; the filter stays. */
    method DeleteRoute(id: int)
      modifies this
      ensures history == Filter(old(history), SavedOtherThan(id))
      ensures filter == old(filter)
    {
      history := Filter(history, SavedOtherThan(id));
    }
  }

  // ---------------------------------------------------------------------------
  // What filtering and deleting guarantee.
  // ---------------------------------------------------------------------------

  /** The filtered list keeps the original order of the entries it shows. */
  lemma FilterSubsequenceOfHistory(history: seq<SavedRoute>, filter: string)
    ensures IsSubsequence(FilterHistory(history, filter), history)
  {
    if filter == All {
      SubsequenceBase(history);
    } else {
      FilterSubsequence(history, HasPriority(filter));
    }
  }

  /** Applying the same filter to its own result changes nothing. */
  lemma FilterHistoryIdempotent(history: seq<SavedRoute>, filter: string)
    ensures FilterHistory(FilterHistory(history, filter), filter) == FilterHistory(history, filter)
  {
    if filter != All {
      FilterIdempotent(history, HasPriority(filter));
    }
  }

  /** A priority filter shows every copy of every matching entry. */
  lemma FilterHistoryKeepsMatches(history: seq<SavedRoute>, filter: string)
    requires filter != All
    ensures forall e: SavedRoute | e.priority == filter ::
      multiset(FilterHistory(history, filter))[e] == multiset(history)[e]
  {
    forall e: SavedRoute | e.priority == filter
      ensures multiset(FilterHistory(history, filter))[e] == multiset(history)[e]
    {
      FilterCount(history, HasPriority(filter), e);
    }
  }

  /** A list saved under one priority only passes that priority's filter unchanged. */
  lemma FilterHistoryUniform(history: seq<SavedRoute>, filter: string)
    requires forall e | e in history :: e.priority == filter
    ensures FilterHistory(history, filter) == history
  {
    if filter != All {
      FilterKeepsAll(history, HasPriority(filter));
    }
  }

  /** Deleting removes exactly the entries with that id and keeps the others, with their copies, in order. */
  lemma DeleteRouteRemovesOnly(history: seq<SavedRoute>, id: int)
    ensures var rest := Filter(history, SavedOtherThan(id));
      && (forall e | e in rest :: e.id != id)
      && (forall e: SavedRoute | e.id != id :: multiset(rest)[e] == multiset(history)[e])
      && IsSubsequence(rest, history)
  {
    var rest := Filter(history, SavedOtherThan(id));
    forall e: SavedRoute | e.id != id ensures multiset(rest)[e] == multiset(history)[e] {
      FilterCount(history, SavedOtherThan(id), e);
    }
    FilterSubsequence(history, SavedOtherThan(id));
  }

  /** The colour tells the three priorities apart from each other and from any other value. */
  lemma PriorityColorsDistinct(p: string, q: string)
    requires p in Priorities
    ensures PriorityColor(p) != DefaultColor
    ensures q != p ==> PriorityColor(q) != PriorityColor(p)
  {
  }

  /** The label of a value differs from it exactly when the value is a known priority. */
  lemma PriorityLabelChanges(p: string)
    ensures PriorityLabel(p) != p <==> p in Priorities
  {
  }
}
