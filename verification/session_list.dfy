/** The session list page: it creates categories, files an existing session
    into a category without duplicating it, lists every session once per
    note, and narrows that list by a case-insensitive search. The list
    computations are pure functions of the component state; the two
    handlers update that state through `SessionListPage`. */
module SessionList {
  import opened Entities
  import opened JsArray
  import opened JsString

  /** The category `handleAddToCategory` returns from its `map` callback:
      when the id matches and no session of the category has the session's
      id, a copy with the session appended; otherwise the category itself. */
  function AddIfAbsent(categoryId: Id, session: TimerSession): Category -> Category
  {
    (c: Category) =>
      if c.id == categoryId && !ContainsSessionId(c.sessions, session.id)
      then c.(sessions := c.sessions + [session])
      else c
  }

  /** The list `handleAddToCategory` hands to `setCategories`. */
  function AddToCategory(cats: seq<Category>, categoryId: Id, session: TimerSession): (r: seq<Category>)
    ensures |r| == |cats|
    ensures forall i :: 0 <= i < |cats| && cats[i].id != categoryId ==> r[i] == cats[i]
    ensures forall i :: 0 <= i < |cats| && cats[i].id == categoryId ==>
      r[i].id == cats[i].id && r[i].name == cats[i].name &&
      ContainsSessionId(r[i].sessions, session.id) &&
      r[i].sessions == if ContainsSessionId(cats[i].sessions, session.id)
                       then cats[i].sessions else cats[i].sessions + [session]
  {
    var r := Map(cats, AddIfAbsent(categoryId, session));
    forall i | 0 <= i < |cats| && cats[i].id == categoryId
      ensures ContainsSessionId(r[i].sessions, session.id)
    {
      if !ContainsSessionId(cats[i].sessions, session.id) {
        assert r[i].sessions[|cats[i].sessions|] == session;
      }
    }
    r
  }

  /** Adding the same session to the same category twice is adding it once. */
  lemma AddToCategoryIdempotent(cats: seq<Category>, categoryId: Id, session: TimerSession)
    ensures AddToCategory(AddToCategory(cats, categoryId, session), categoryId, session)
         == AddToCategory(cats, categoryId, session)
  {
    var once := AddToCategory(cats, categoryId, session);
    var twice := AddToCategory(once, categoryId, session);
    assert forall i :: 0 <= i < |cats| ==> twice[i] == once[i];
  }

  /** Adding a session to a category that lacks its id, once or twice,
      leaves exactly one session with that id in the category, at the end. */
  lemma AddToCategoryTwiceKeepsOneCopy(cats: seq<Category>, categoryId: Id, session: TimerSession, i: int)
    requires 0 <= i < |cats| && cats[i].id == categoryId
    requires !ContainsSessionId(cats[i].sessions, session.id)
    ensures var sessions := AddToCategory(AddToCategory(cats, categoryId, session), categoryId, session)[i].sessions;
      |sessions| == |cats[i].sessions| + 1 && sessions[|cats[i].sessions|] == session &&
      forall j :: 0 <= j < |sessions| && sessions[j].id == session.id ==> j == |cats[i].sessions|
  {
    AddToCategoryIdempotent(cats, categoryId, session);
  }

  /** `categories.flatMap(category => category.sessions)`. */
  function Flatten(cats: seq<Category>): (r: seq<TimerSession>)
    ensures forall i, s :: 0 <= i < |cats| && s in cats[i].sessions ==> s in r
    ensures forall s :: s in r ==> exists i :: 0 <= i < |cats| && s in cats[i].sessions
  {
    if cats == [] then [] else cats[0].sessions + Flatten(cats[1..])
  }

  /** `s => s.note === note`. */
  function HasNote(note: string): TimerSession -> bool
  {
    (s: TimerSession) => s.note == note
  }

  /** Scanning forwards from `i`: the first index at or after `i` whose
      session carries `note`, or -1 when there is none. */
  function FirstWithNoteFrom(self: seq<TimerSession>, note: string, i: nat): (r: int)
    requires i <= |self|
    ensures r == -1 || i <= r < |self|
    ensures r == -1 <==> forall k :: i <= k < |self| ==> self[k].note != note
    ensures 0 <= r ==> self[r].note == note && forall k :: i <= k < r ==> self[k].note != note
    decreases |self| - i
  {
    if i == |self| then -1
    else if self[i].note == note then i
    else FirstWithNoteFrom(self, note, i + 1)
  }

  /** The index `self.findIndex(s => s.note === note)` finds: the first
      session carrying the note, or -1. It is `FindIndex` with the note test
      written out (`FirstWithNoteIsFindIndex`), which keeps the lemmas below
      free of the callback. */
  function FirstWithNote(self: seq<TimerSession>, note: string): int
  {
    FirstWithNoteFrom(self, note, 0)
  }

  /** `FirstWithNote` is `findIndex` with the callback `s => s.note === note`. */
  lemma FirstWithNoteIsFindIndex(self: seq<TimerSession>, note: string)
    ensures FirstWithNote(self, note) == FindIndex(self, HasNote(note))
  {
    var r, k := FirstWithNote(self, note), FindIndex(self, HasNote(note));
    if 0 <= r && 0 <= k {
      assert HasNote(note)(self[r]) && self[k].note == note;
    }
  }

  /** The filter `(session, index, self) => index === self.findIndex(s =>
      s.note === session.note)` applied from index `i` onwards. */
  function KeepFirstByNote(self: seq<TimerSession>, i: nat): seq<TimerSession>
    requires i <= |self|
    decreases |self| - i
  {
    if i == |self| then []
    else (if FirstWithNote(self, self[i].note) == i then [self[i]] else []) + KeepFirstByNote(self, i + 1)
  }

  /** `allSessions`: the flattened sessions, each note kept at its first
      occurrence only. */
  function AllSessions(cats: seq<Category>): seq<TimerSession>
  {
    KeepFirstByNote(Flatten(cats), 0)
  }

  /** No two entries of `r` carry the same note. */
  predicate DistinctNotes(r: seq<TimerSession>)
  {
    forall a, b :: 0 <= a < b < |r| ==> r[a].note != r[b].note
  }

  /** The part of the filter's output contributed by index `i`: the session
      there when it is the first with its note, nothing otherwise. */
  function KeptAt(self: seq<TimerSession>, i: nat): seq<TimerSession>
    requires i < |self|
  {
    if FirstWithNote(self, self[i].note) == i then [self[i]] else []
  }

  /** One step of the filter. */
  lemma KeepFirstByNoteStep(self: seq<TimerSession>, i: nat)
    requires i < |self|
    ensures KeepFirstByNote(self, i) == KeptAt(self, i) + KeepFirstByNote(self, i + 1)
  {
  }

  /** Every entry kept from index `i` on is the first session of `self`
      with its note, and that first occurrence lies at or after `i`. */
  lemma {:induction false} KeptAreFirst(self: seq<TimerSession>, i: nat)
    requires i <= |self|
    ensures forall j :: 0 <= j < |KeepFirstByNote(self, i)| ==>
      var x := KeepFirstByNote(self, i)[j];
      i <= FirstWithNote(self, x.note) && self[FirstWithNote(self, x.note)] == x
    decreases |self| - i
  {
    if i < |self| {
      KeptAreFirst(self, i + 1);
      KeepFirstByNoteStep(self, i);
      var head: seq<TimerSession>, rest: seq<TimerSession> := KeptAt(self, i), KeepFirstByNote(self, i + 1);
      forall j | 0 <= j < |head + rest|
        ensures i <= FirstWithNote(self, (head + rest)[j].note)
        ensures self[FirstWithNote(self, (head + rest)[j].note)] == (head + rest)[j]
      {
        if j < |head| {
          assert (head + rest)[j] == self[i];
        } else {
          assert (head + rest)[j] == rest[j - |head|];
        }
      }
    }
  }

  /** A session kept at index `n - 1` shares its note with no entry kept
      from `n` on. */
  lemma KeptFirstIsNewNote(self: seq<TimerSession>, n: nat)
    requires 0 < n <= |self| && FirstWithNote(self, self[n - 1].note) == n - 1
    ensures forall j :: 0 <= j < |KeepFirstByNote(self, n)| ==>
      KeepFirstByNote(self, n)[j].note != self[n - 1].note
  {
    KeptAreFirst(self, n);
  }

  /** Putting a session in front of a list with distinct notes keeps the
      notes distinct when its note is new. */
  lemma DistinctNotesCons(x: TimerSession, rest: seq<TimerSession>)
    requires DistinctNotes(rest)
    requires forall j :: 0 <= j < |rest| ==> rest[j].note != x.note
    ensures DistinctNotes([x] + rest)
  {
    var r := [x] + rest;
    forall a, b | 0 <= a < b < |r| ensures r[a].note != r[b].note {
      assert r[b] == rest[b - 1];
      if a > 0 {
        assert r[a] == rest[a - 1];
      }
    }
  }

  /** The filter keeps at most one session per note. */
  lemma {:induction false} KeptHaveDistinctNotes(self: seq<TimerSession>, i: nat)
    requires i <= |self|
    ensures DistinctNotes(KeepFirstByNote(self, i))
    decreases |self| - i
  {
    if i < |self| {
      KeptHaveDistinctNotes(self, i + 1);
      KeepFirstByNoteStep(self, i);
      if FirstWithNote(self, self[i].note) == i {
        KeptFirstIsNewNote(self, i + 1);
        DistinctNotesCons(self[i], KeepFirstByNote(self, i + 1));
      }
    }
  }

  /** The filter keeps the first session of every note whose first
      occurrence lies at or after `i`; `j` is where it lands. */
  lemma {:induction false} FirstsAreKept(self: seq<TimerSession>, i: nat, k: nat) returns (j: nat)
    requires i <= k < |self| && FirstWithNote(self, self[k].note) == k
    ensures j < |KeepFirstByNote(self, i)| && KeepFirstByNote(self, i)[j] == self[k]
    decreases k - i
  {
    KeepFirstByNoteStep(self, i);
    var head: seq<TimerSession>, rest: seq<TimerSession> := KeptAt(self, i), KeepFirstByNote(self, i + 1);
    if i == k {
      j := 0;
      assert (head + rest)[0] == head[0];
    } else {
      var j' := FirstsAreKept(self, i + 1, k);
      j := |head| + j';
      assert (head + rest)[j] == rest[j'];
    }
  }

  /** The filter keeps its entries in the order they had in `self`. */
  lemma {:induction false} KeptIsSubsequence(self: seq<TimerSession>, i: nat)
    requires i <= |self|
    ensures IsSubsequence(KeepFirstByNote(self, i), self[i..])
    decreases |self| - i
  {
    if i < |self| {
      KeptIsSubsequence(self, i + 1);
      var rest := KeepFirstByNote(self, i + 1);
      var tail := self[i..];
      assert tail[0] == self[i] && tail[1..] == self[i + 1..];
      if FirstWithNote(self, self[i].note) == i {
        var r := [self[i]] + rest;
        assert KeepFirstByNote(self, i) == r;
        assert r[0] == tail[0] && r[1..] == rest;
      } else {
        assert KeepFirstByNote(self, i) == rest;
      }
    }
  }

  /** The notes of `r` first occur in `self` in the order of `r`. */
  predicate InFirstSeenOrder(self: seq<TimerSession>, r: seq<TimerSession>)
  {
    forall a, b :: 0 <= a < b < |r| ==> FirstWithNote(self, r[a].note) < FirstWithNote(self, r[b].note)
  }

  /** Putting a session in front keeps first-seen order when its note first
      occurs before every note of the rest. */
  lemma FirstSeenOrderCons(self: seq<TimerSession>, x: TimerSession, rest: seq<TimerSession>)
    requires InFirstSeenOrder(self, rest)
    requires forall j :: 0 <= j < |rest| ==> FirstWithNote(self, x.note) < FirstWithNote(self, rest[j].note)
    ensures InFirstSeenOrder(self, [x] + rest)
  {
    var r := [x] + rest;
    forall a, b | 0 <= a < b < |r| ensures FirstWithNote(self, r[a].note) < FirstWithNote(self, r[b].note) {
      assert r[b] == rest[b - 1];
      if a > 0 {
        assert r[a] == rest[a - 1];
      }
    }
  }

  /** The filter keeps its entries in first-seen order: an earlier entry's
      note first occurs before a later entry's note does. */
  lemma {:induction false} KeptInFirstSeenOrder(self: seq<TimerSession>, i: nat)
    requires i <= |self|
    ensures InFirstSeenOrder(self, KeepFirstByNote(self, i))
    decreases |self| - i
  {
    if i < |self| {
      KeptInFirstSeenOrder(self, i + 1);
      KeepFirstByNoteStep(self, i);
      if FirstWithNote(self, self[i].note) == i {
        KeptAreFirst(self, i + 1);
        FirstSeenOrderCons(self, self[i], KeepFirstByNote(self, i + 1));
      }
    }
  }

  /** `allSessions` has no two entries with the same note, and every note of
      every category appears in it at exactly one position. */
  lemma AllSessionsOnePerNote(cats: seq<Category>)
    ensures DistinctNotes(AllSessions(cats))
    ensures forall c, s :: 0 <= c < |cats| && s in cats[c].sessions ==>
      exists j :: 0 <= j < |AllSessions(cats)| && AllSessions(cats)[j].note == s.note
    ensures forall c, s :: 0 <= c < |cats| && s in cats[c].sessions ==>
      forall j, j' :: 0 <= j < j' < |AllSessions(cats)| ==>
        !(AllSessions(cats)[j].note == s.note && AllSessions(cats)[j'].note == s.note)
  {
    var self := Flatten(cats);
    var r := AllSessions(cats);
    KeptHaveDistinctNotes(self, 0);
    forall c, s | 0 <= c < |cats| && s in cats[c].sessions
      ensures exists j :: 0 <= j < |r| && r[j].note == s.note
    {
      assert s in self;
      var k :| 0 <= k < |self| && self[k] == s;
      var f := FirstWithNote(self, s.note);
      var j := FirstsAreKept(self, 0, f);
      assert r[j].note == s.note;
    }
  }

  /** `allSessions` is an order-preserving subsequence of the flattened
      sessions, its entries come in the order their notes are first seen,
      and each of its entries is the first flattened session with its
      note. */
  lemma AllSessionsKeepsFirstInOrder(cats: seq<Category>)
    ensures IsSubsequence(AllSessions(cats), Flatten(cats))
    ensures forall a, b :: 0 <= a < b < |AllSessions(cats)| ==>
      FirstWithNote(Flatten(cats), AllSessions(cats)[a].note) < FirstWithNote(Flatten(cats), AllSessions(cats)[b].note)
    ensures forall j :: 0 <= j < |AllSessions(cats)| ==>
      0 <= FirstWithNote(Flatten(cats), AllSessions(cats)[j].note) < |Flatten(cats)| &&
      Flatten(cats)[FirstWithNote(Flatten(cats), AllSessions(cats)[j].note)] == AllSessions(cats)[j] &&
      forall m :: 0 <= m < FirstWithNote(Flatten(cats), AllSessions(cats)[j].note) ==>
        Flatten(cats)[m].note != AllSessions(cats)[j].note
  {
    var self := Flatten(cats);
    KeptIsSubsequence(self, 0);
    assert self[0..] == self;
    KeptAreFirst(self, 0);
    KeptInFirstSeenOrder(self, 0);
  }

  /** `session => session.note.toLowerCase().includes(searchTerm.toLowerCase())`. */
  function MatchesSearch(searchTerm: string): TimerSession -> bool
  {
    (s: TimerSession) => Includes(Lower(s.note), Lower(searchTerm))
  }

  /** `filteredSessions`. */
  function FilteredSessions(all: seq<TimerSession>, searchTerm: string): seq<TimerSession>
  {
    Filter(all, MatchesSearch(searchTerm))
  }

  /** Every filtered session's lower-cased note contains the lower-cased
      search term, the filtered list is an order-preserving subsequence of
      `allSessions`, and every session of `allSessions` that matches is in
      it. */
  lemma FilteredSessionsMatch(all: seq<TimerSession>, searchTerm: string)
    ensures forall s :: s in FilteredSessions(all, searchTerm) ==> Includes(Lower(s.note), Lower(searchTerm))
    ensures forall s :: s in all && Includes(Lower(s.note), Lower(searchTerm)) ==> s in FilteredSessions(all, searchTerm)
    ensures IsSubsequence(FilteredSessions(all, searchTerm), all)
  {
    FilterIsSubsequence(all, MatchesSearch(searchTerm));
    forall s | s in FilteredSessions(all, searchTerm)
      ensures Includes(Lower(s.note), Lower(searchTerm))
    {
      assert MatchesSearch(searchTerm)(s);
    }
    forall s | s in all && Includes(Lower(s.note), Lower(searchTerm))
      ensures s in FilteredSessions(all, searchTerm)
    {
      assert MatchesSearch(searchTerm)(s);
    }
  }

  /** An empty search term lists all of `allSessions`. */
  lemma EmptySearchKeepsAll(all: seq<TimerSession>)
    ensures FilteredSessions(all, []) == all
  {
    assert forall s :: s in all ==> MatchesSearch([])(s);
    FilterKeepsAll(all, MatchesSearch([]));
  }

  /** The search ignores the letter case of the term. */
  lemma SearchIgnoresTermCase(all: seq<TimerSession>, searchTerm: string)
    ensures FilteredSessions(all, Lower(searchTerm)) == FilteredSessions(all, searchTerm)
  {
    LowerIdempotent(searchTerm);
    FilterCongruent(all, MatchesSearch(Lower(searchTerm)), MatchesSearch(searchTerm));
  }

  /** The component's state: the categories kept in local storage, the
      search box and the new-category input. */
  class SessionListPage {
    var categories: seq<Category>
    var searchTerm: string
    var newCategoryName: string

    /** The component mounts with the stored categories and empty inputs. */
    constructor (stored: seq<Category>)
      ensures categories == stored && searchTerm == [] && newCategoryName == []
    {
      categories := stored;
      searchTerm := [];
      newCategoryName := [];
    }

    /** `handleSearchChange`. */
    method HandleSearchChange(value: string)
      modifies this
      ensures searchTerm == value
      ensures categories == old(categories) && newCategoryName == old(newCategoryName)
    {
      searchTerm := value;
    }

    /** The new-category input's `onChange`. */
    method SetNewCategoryName(value: string)
      modifies this
      ensures newCategoryName == value
      ensures categories == old(categories) && searchTerm == old(searchTerm)
    {
      newCategoryName := value;
    }

    /** `handleCreateCategory`; `freshId` stands for `Date.now()`. A blank
        name changes nothing; otherwise one category with the trimmed name
        and no sessions is appended and the input is cleared. */
    method HandleCreateCategory(freshId: Id)
      modifies this
      ensures IsBlank(old(newCategoryName)) ==>
        categories == old(categories) && newCategoryName == old(newCategoryName)
      ensures !IsBlank(old(newCategoryName)) ==>
        categories == old(categories) + [Category(freshId, Trim(old(newCategoryName)), [])] &&
        newCategoryName == [] && !IsBlank(categories[|categories| - 1].name)
      ensures searchTerm == old(searchTerm)
    {
      if Trim(newCategoryName) != [] {
        TrimIdempotent(newCategoryName);
        var newCategory := Category(freshId, Trim(newCategoryName), []);
        categories := categories + [newCategory];
        newCategoryName := [];
      }
    }

    /** `handleAddToCategory`. */
    method HandleAddToCategory(categoryId: Id, session: TimerSession)
      modifies this
      ensures categories == AddToCategory(old(categories), categoryId, session)
      ensures searchTerm == old(searchTerm) && newCategoryName == old(newCategoryName)
    {
      categories := AddToCategory(categories, categoryId, session);
    }

    /** The list the page renders under the search box: exactly the
        sessions of `allSessions` whose note contains the term, ignoring
        letter case, in their order; all of them for an empty term. */
    function VisibleSessions(): (r: seq<TimerSession>)
      reads this
      ensures IsSubsequence(r, AllSessions(categories))
      ensures IsSubsequence(r, Flatten(categories))
      ensures forall s :: s in r ==> Includes(Lower(s.note), Lower(searchTerm))
      ensures forall s :: s in AllSessions(categories) && Includes(Lower(s.note), Lower(searchTerm)) ==> s in r
      ensures searchTerm == [] ==> r == AllSessions(categories)
    {
      FilteredSessionsMatch(AllSessions(categories), searchTerm);
      EmptySearchKeepsAll(AllSessions(categories));
      AllSessionsKeepsFirstInOrder(categories);
      SubsequenceTransitive(FilteredSessions(AllSessions(categories), searchTerm), AllSessions(categories), Flatten(categories));
      FilteredSessions(AllSessions(categories), searchTerm)
    }
  }
}
