/** The timer page: a small state machine over the timer record, the note
    input, the current category and the stored categories. Each handler is a
    method of `TimerButtonPage`; the one-second interval that runs while the
    timer is active is the explicit step `Tick`. */
module TimerButton {
  import opened Entities
  import opened JsArray
  import opened JsString

  /** The `timerData` state: elapsed seconds, whether the interval runs, and
      the status label shown (and copied into a saved session). */
  datatype TimerData = TimerData(time: int, isActive: bool, status: string)

  /** The session `addSessionToCurrentCategory` builds: the current time,
      the note as typed (not trimmed) and the current status; the source
      gives it no sets, modelled as the empty sequence. */
  function NewSession(freshId: Id, timerData: TimerData, note: string): TimerSession
  {
    TimerSession(freshId, timerData.time, note, timerData.status, [])
  }

  /** `category => category.id === id ? updated : category`. */
  function ReplaceWhenId(id: Id, updated: Category): Category -> Category
  {
    (c: Category) => if c.id == id then updated else c
  }

  /** `categories.map(...)` with that callback: every category with the id
      becomes `updated`, every other stays, and the length is kept. When the
      id occurs, `updated` is in the result. */
  function ReplaceById(cats: seq<Category>, id: Id, updated: Category): (r: seq<Category>)
    ensures |r| == |cats|
    ensures forall i :: 0 <= i < |cats| && cats[i].id != id ==> r[i] == cats[i]
    ensures forall i :: 0 <= i < |cats| && cats[i].id == id ==> r[i] == updated
    ensures NoCategoryWithId(cats, id) ==> r == cats
    ensures !NoCategoryWithId(cats, id) ==> updated in r
  {
    Map(cats, ReplaceWhenId(id, updated))
  }

  /** The component's state. */
  class TimerButtonPage {
    var categories: seq<Category>
    var newCategoryName: string
    var currentCategory: Option<Category>
    var timerData: TimerData
    var note: string
    var showNoteInput: bool

    /** Elapsed time is never negative, and the current category, when there
        is one, is one of the stored categories. */
    ghost predicate Valid()
      reads this
    {
      timerData.time >= 0 &&
      (currentCategory.Some? ==> currentCategory.value in categories)
    }

    /** The component mounts with the stored categories, no current category,
        a stopped timer at 0 showing "Start", an empty note and no note input. */
    constructor (stored: seq<Category>)
      ensures Valid()
      ensures categories == stored && newCategoryName == [] && currentCategory == None
      ensures timerData == TimerData(0, false, StatusStart)
      ensures note == [] && !showNoteInput
    {
      categories := stored;
      newCategoryName := [];
      currentCategory := None;
      timerData := TimerData(0, false, StatusStart);
      note := [];
      showNoteInput := false;
    }

    /** The category-name input's `onChange`. */
    method SetNewCategoryName(value: string)
      requires Valid()
      modifies this
      ensures Valid()
      ensures newCategoryName == value
      ensures categories == old(categories) && currentCategory == old(currentCategory)
      ensures timerData == old(timerData) && note == old(note) && showNoteInput == old(showNoteInput)
    {
      newCategoryName := value;
    }

    /** `handleNoteChange`. */
    method HandleNoteChange(value: string)
      requires Valid()
      modifies this
      ensures Valid()
      ensures note == value
      ensures categories == old(categories) && currentCategory == old(currentCategory)
      ensures timerData == old(timerData) && newCategoryName == old(newCategoryName)
      ensures showNoteInput == old(showNoteInput)
    {
      note := value;
    }

    /** `handleCreateCategory`; `freshId` stands for `Date.now()`. A blank
        name changes nothing; otherwise a category with the trimmed name and
        no sessions is appended, becomes the current category, and the input
        is cleared. */
    method HandleCreateCategory(freshId: Id)
      requires Valid()
      modifies this
      ensures Valid()
      ensures IsBlank(old(newCategoryName)) ==>
        categories == old(categories) && currentCategory == old(currentCategory) &&
        newCategoryName == old(newCategoryName)
      ensures !IsBlank(old(newCategoryName)) ==>
        var created := Category(freshId, Trim(old(newCategoryName)), []);
        categories == old(categories) + [created] &&
        currentCategory == Some(created) && newCategoryName == [] && !IsBlank(created.name)
      ensures timerData == old(timerData) && note == old(note) && showNoteInput == old(showNoteInput)
    {
      if Trim(newCategoryName) != [] {
        TrimIdempotent(newCategoryName);
        var newCategory := Category(freshId, Trim(newCategoryName), []);
        categories := categories + [newCategory];
        currentCategory := Some(newCategory);
        newCategoryName := [];
      }
    }

    /** One firing of the one-second interval. The interval exists only
        while the timer is active: then the time grows by exactly one second
        and the status reads "Running"; otherwise nothing happens. */
    method Tick()
      requires Valid()
      modifies this
      ensures Valid()
      ensures old(timerData.isActive) ==>
        timerData == TimerData(old(timerData.time) + 1, true, StatusRunning)
      ensures !old(timerData.isActive) ==> timerData == old(timerData)
      ensures timerData.time >= old(timerData.time)
      ensures categories == old(categories) && currentCategory == old(currentCategory)
      ensures note == old(note) && showNoteInput == old(showNoteInput)
      ensures newCategoryName == old(newCategoryName)
    {
      if timerData.isActive {
        timerData := timerData.(time := timerData.time + 1, status := StatusRunning);
      }
    }

    /** `handleStartStop`. Stopping keeps the time, marks the timer inactive
        with status "Complete" and shows the note input. Starting resets the
        time to 0, marks the timer active with status "Running", clears the
        note and hides the note input. */
    method HandleStartStop()
      requires Valid()
      modifies this
      ensures Valid()
      ensures old(timerData.isActive) ==>
        timerData == TimerData(old(timerData.time), false, StatusComplete) &&
        showNoteInput && note == old(note)
      ensures !old(timerData.isActive) ==>
        timerData == TimerData(0, true, StatusRunning) && note == [] && !showNoteInput
      ensures categories == old(categories) && currentCategory == old(currentCategory)
      ensures newCategoryName == old(newCategoryName)
    {
      if timerData.isActive {
        timerData := timerData.(isActive := false, status := StatusComplete);
        showNoteInput := true;
      } else {
        timerData := TimerData(0, true, StatusRunning);
        note := [];
        showNoteInput := false;
      }
    }

    /** `addSessionToCurrentCategory`; `freshId` stands for `Date.now()`.
        Without a current category, or with a blank note, nothing changes.
        Otherwise the current category gains the new session at its end,
        every stored category with the current id is replaced by that
        updated category (the list keeps its length), the updated category
        becomes current and the note input is hidden. */
    method AddSessionToCurrentCategory(freshId: Id)
      requires Valid()
      modifies this
      ensures Valid()
      ensures (old(currentCategory).None? || IsBlank(old(note))) ==>
        categories == old(categories) && currentCategory == old(currentCategory) &&
        showNoteInput == old(showNoteInput)
      ensures old(currentCategory).Some? && !IsBlank(old(note)) ==>
        var current := old(currentCategory).value;
        var updated := current.(sessions := current.sessions + [NewSession(freshId, old(timerData), old(note))]);
        categories == ReplaceById(old(categories), current.id, updated) &&
        |categories| == |old(categories)| &&
        currentCategory == Some(updated) && !showNoteInput
      ensures timerData == old(timerData) && note == old(note) && newCategoryName == old(newCategoryName)
    {
      if currentCategory.Some? && Trim(note) != [] {
        var current := currentCategory.value;
        var newSession := NewSession(freshId, timerData, note);
        var updatedCategory := current.(sessions := current.sessions + [newSession]);
        var updatedCategories := ReplaceById(categories, current.id, updatedCategory);
        assert !NoCategoryWithId(categories, current.id) by {
          ghost var i :| 0 <= i < |categories| && categories[i] == current;
          assert categories[i].id == current.id;
        }
        categories := updatedCategories;
        currentCategory := Some(updatedCategory);
        showNoteInput := false;
      }
    }
  }
}
