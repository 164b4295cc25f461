/**
 * The board header (src/components/TaskHeader.tsx): the status-filter type the
 * board shares, and the header's own state machine for editing the board title
 * and choosing a filter. Calls to the optional callbacks `onTitleChange` and
 * `onStatusFilterChange` are returned as values: `Some(v)` means the callback
 * was called with `v`, `None` that it was not called.
 */
module TaskHeader {
  import opened Wrappers
  import opened TaskTypes
  import opened Text

  /** `'all' | 'pending' | 'completed'`: either no narrowing, or one status. */
  datatype StatusFilter = All | Only(status: Status)

  /** The filter menu's options, in the order they are listed. */
  const FilterOptions: seq<StatusFilter> := [All, Only(Pending), Only(Completed)]

  /** The title a header shows when the board passes none. */
  const DefaultTitle: string := "My Tasks"

  function FilterName(f: StatusFilter): (name: string)
    ensures name in {"all", "pending", "completed"}
  {
    match f
    case All => "all"
    case Only(s) => StatusName(s)
  }

  /** Reading a stored string back: only the three literal names are filters. */
  function ParseFilter(s: string): (r: Option<StatusFilter>)
    ensures r.Some? <==> s in {"all", "pending", "completed"}
    ensures r.Some? ==> FilterName(r.value) == s
  {
    if s == "all" then Some(All)
    else if s == "pending" then Some(Only(Pending))
    else if s == "completed" then Some(Only(Completed))
    else None
  }

  /** Whether a task of status `s` passes the filter. */
  predicate Admits(f: StatusFilter, s: Status)
  {
    f.All? || f.status == s
  }

  /** Every filter has a name that reads back as itself, and the menu lists each filter exactly once. */
  lemma {:induction false} FilterNameRoundTrip(f: StatusFilter)
    ensures ParseFilter(FilterName(f)) == Some(f)
    ensures f in FilterOptions
    ensures forall i, j :: 0 <= i < j < |FilterOptions| ==> FilterOptions[i] != FilterOptions[j]
  {
    match f
    case All =>
    case Only(s) => if s == Pending { } else { }
  }

  class Header {
    var isEditing: bool
    var title: string
    var statusFilter: StatusFilter
    /** The `initialTitle` prop; the board passes its current title on every render. */
    var initialTitle: string
    const hasOnTitleChange: bool
    const hasOnStatusFilterChange: bool

    /**
     * Mounting: `initialTitle` defaults to 'My Tasks'; the local filter starts at
     * `all` whatever `statusFilterProp` says, because the prop is never read.
     */
    constructor (initialTitleProp: Option<string>, statusFilterProp: Option<StatusFilter>,
                 onTitleChange: bool, onStatusFilterChange: bool)
      ensures initialTitle == (if initialTitleProp.Some? then initialTitleProp.value else DefaultTitle)
      ensures title == initialTitle
      ensures statusFilter == All
      ensures !isEditing
      ensures hasOnTitleChange == onTitleChange && hasOnStatusFilterChange == onStatusFilterChange
    {
      initialTitle := if initialTitleProp.Some? then initialTitleProp.value else DefaultTitle;
      title := initialTitle;
      statusFilter := All;
      isEditing := false;
      hasOnTitleChange, hasOnStatusFilterChange := onTitleChange, onStatusFilterChange;
    }

    /**
     * A re-render with a new `initialTitle` prop: the state created from the
     * first prop is not re-synchronised, only later comparisons see the new one.
     */
    method ReceiveInitialTitle(newInitialTitle: string)
      modifies this`initialTitle
      ensures initialTitle == newInitialTitle
    {
      initialTitle := newInitialTitle;
    }

    /** Clicking the title enters editing mode. */
    method HandleTitleClick()
      modifies this`isEditing
      ensures isEditing
    {
      isEditing := true;
    }

    /** Typing replaces the local title with the input's value, untrimmed. */
    method HandleTitleChange(value: string)
      modifies this`title
      ensures title == value
    {
      title := value;
    }

    /**
     * Blur always leaves editing; the trimmed title is committed only when it
     * differs from `initialTitle`. The local title itself is not trimmed.
     */
    method HandleTitleBlur() returns (committed: Option<string>)
      modifies this`isEditing
      ensures !isEditing
      ensures committed.Some? <==> hasOnTitleChange && Trim(title) != initialTitle
      ensures committed.Some? ==> committed.value == Trim(title)
    {
      isEditing := false;
      committed := None;
      if hasOnTitleChange && Trim(title) != initialTitle {
        committed := Some(Trim(title));
      }
    }

    /**
     * A key pressed in the title input, which exists only while editing. Enter
     * blurs the input and so takes the blur path; Escape restores the title
     * from `initialTitle` and leaves editing without committing; any other key
     * changes nothing here.
     */
    method HandleKeyDown(key: string) returns (committed: Option<string>)
      requires isEditing
      modifies this`isEditing, this`title
      ensures key == "Enter" ==>
                !isEditing && title == old(title) &&
                committed == (if hasOnTitleChange && Trim(title) != initialTitle then Some(Trim(title)) else None)
      ensures key == "Escape" ==> !isEditing && title == initialTitle && committed == None
      ensures key != "Enter" && key != "Escape" ==> isEditing && title == old(title) && committed == None
    {
      committed := None;
      if key == "Enter" {
        committed := HandleTitleBlur();
      } else if key == "Escape" {
        title := initialTitle;
        isEditing := false;
      }
    }

    /** Choosing a menu option sets the local filter and forwards the same value. */
    method HandleStatusChange(f: StatusFilter) returns (forwarded: Option<StatusFilter>)
      modifies this`statusFilter
      ensures statusFilter == f
      ensures forwarded == (if hasOnStatusFilterChange then Some(f) else None)
    {
      statusFilter := f;
      forwarded := None;
      if hasOnStatusFilterChange {
        forwarded := Some(f);
      }
    }
  }
}
