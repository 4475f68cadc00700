/** The records every component shares: a category owns an ordered list of
    timer sessions, and a session carries its elapsed time, its note, a
    status label and its repetition sets. */
module Entities {

  /** One identifier type for categories and sessions alike (both are
      `Date.now()` timestamps when the application mints them). */
  type Id = int

  datatype Option<T> = None | Some(value: T)

  /** One recorded batch of repetitions. */
  datatype RepSet = RepSet(repetitions: int)

  datatype TimerSession = TimerSession(
    id: Id,
    time: int,
    note: string,
    status: string,
    sets: seq<RepSet>)

  datatype Category = Category(id: Id, name: string, sessions: seq<TimerSession>)

  /** The status labels the application writes. */
  const StatusStart: string := "Start"
  const StatusRunning: string := "Running"
  const StatusComplete: string := "Complete"
  const StatusCompleted: string := "Completed"

  /** `cat => cat.id === id`, the test every lookup by category id uses. */
  function HasCategoryId(id: Id): Category -> bool
  {
    (c: Category) => c.id == id
  }

  /** `cat => cat.id !== id`, the test that filters a category out. */
  function LacksCategoryId(id: Id): Category -> bool
  {
    (c: Category) => c.id != id
  }

  /** `sess => sess.id === id`. */
  function HasSessionId(id: Id): TimerSession -> bool
  {
    (s: TimerSession) => s.id == id
  }

  /** `sess => sess.id !== id`, the test that filters a session out. */
  function LacksSessionId(id: Id): TimerSession -> bool
  {
    (s: TimerSession) => s.id != id
  }

  /** Some session in `sessions` has identifier `id`. */
  predicate ContainsSessionId(sessions: seq<TimerSession>, id: Id)
  {
    exists j :: 0 <= j < |sessions| && sessions[j].id == id
  }

  /** No category in `cats` has identifier `id`. */
  predicate NoCategoryWithId(cats: seq<Category>, id: Id)
  {
    forall i :: 0 <= i < |cats| ==> cats[i].id != id
  }
}
