/** The `categories` slice of the Redux store. Each reducer case is given
    twice: as a pure next-state function `After…` that states what the case
    does to the category list, and as a method of `CategorySlice` that
    changes the list in place the way the reducer changes its Immer draft
    (`push`, assignment at a found index, `filter`, a `forEach` loop). */
module CategoryReducer {
  import opened Entities
  import opened JsArray

  /** `i` is the index `state.categories.find(cat => cat.id === id)` lands on. */
  predicate IsFirstCategory(cats: seq<Category>, id: Id, i: int)
  {
    IsFirst(cats, HasCategoryId(id), i)
  }

  /** `i` is the index `category.sessions.find(sess => sess.id === id)` lands on. */
  predicate IsFirstSession(sessions: seq<TimerSession>, id: Id, i: int)
  {
    IsFirst(sessions, HasSessionId(id), i)
  }

  /** The draft change of `updateCategory`: the found category is overwritten. */
  function ReplaceCategory(c: Category): Category -> Category
  {
    (_: Category) => c
  }

  /** The draft change of `addSessionToCategory`: `category.sessions.push(session)`. */
  function PushSession(s: TimerSession): Category -> Category
  {
    (c: Category) => c.(sessions := c.sessions + [s])
  }

  /** The draft change of `updateSessionInCategory`: the first session with
      the payload's id is overwritten by the payload. */
  function ReplaceSession(s: TimerSession): Category -> Category
  {
    (c: Category) => c.(sessions := UpdateFirst(c.sessions, HasSessionId(s.id), (_: TimerSession) => s))
  }

  /** `category.sessions = category.sessions.filter(sess => sess.id !== id)`. */
  function DropSession(id: Id): Category -> Category
  {
    (c: Category) => c.(sessions := Filter(c.sessions, LacksSessionId(id)))
  }

  /** The draft change of `updateSetsInSession`: `session.sets = sets`. */
  function SetSets(id: Id, sets: seq<RepSet>): Category -> Category
  {
    (c: Category) => c.(sessions := UpdateFirst(c.sessions, HasSessionId(id), (x: TimerSession) => x.(sets := sets)))
  }

  /** The draft change of `markSessionComplete`: `session.status = 'Completed'`. */
  function SetCompleted(id: Id): Category -> Category
  {
    (c: Category) => c.(sessions := UpdateFirst(c.sessions, HasSessionId(id), (x: TimerSession) => x.(status := StatusCompleted)))
  }

  /** Dropping every session with one id from a category keeps its id and
      name, leaves no session with that id, keeps every other session and
      keeps their order. */
  lemma DropSessionSpec(c: Category, id: Id)
    ensures DropSession(id)(c).id == c.id && DropSession(id)(c).name == c.name
    ensures !ContainsSessionId(DropSession(id)(c).sessions, id)
    ensures forall x :: x in c.sessions && x.id != id ==> x in DropSession(id)(c).sessions
    ensures forall x :: multiset(DropSession(id)(c).sessions)[x] ==
                        (if x.id != id then multiset(c.sessions)[x] else 0)
    ensures IsSubsequence(DropSession(id)(c).sessions, c.sessions)
  {
    FilterIsSubsequence(c.sessions, LacksSessionId(id));
    var r := DropSession(id)(c).sessions;
    forall j | 0 <= j < |r| ensures r[j].id != id {
      assert r[j] in r;
    }
  }

  /** `updateCategory`: the first category with the payload's id becomes the
      payload, every other position keeps its category, and nothing changes
      when no id matches. */
  function AfterUpdateCategory(cats: seq<Category>, c: Category): (r: seq<Category>)
    ensures |r| == |cats|
    ensures forall i :: 0 <= i < |cats| ==>
      r[i] == if IsFirstCategory(cats, c.id, i) then c else cats[i]
    ensures NoCategoryWithId(cats, c.id) ==> r == cats
  {
    UpdateFirst(cats, HasCategoryId(c.id), ReplaceCategory(c))
  }

  /** `removeCategory`: no category with the id is left; every other
      category stays, in its original relative order; the result holds only
      categories of the input, so the removed categories' sessions go with
      them. */
  function AfterRemoveCategory(cats: seq<Category>, id: Id): (r: seq<Category>)
    ensures NoCategoryWithId(r, id)
    ensures forall c :: c in cats && c.id != id ==> c in r
    ensures forall c :: c in r ==> c in cats
    ensures forall c :: multiset(r)[c] == if c.id != id then multiset(cats)[c] else 0
    ensures IsSubsequence(r, cats)
  {
    FilterIsSubsequence(cats, LacksCategoryId(id));
    var r := Filter(cats, LacksCategoryId(id));
    assert forall i :: 0 <= i < |r| ==> r[i] in r;
    r
  }

  /** `addSessionToCategory`: the session goes to the end of the first
      category with the id, even when that category already holds a session
      with the same id; other categories are untouched; nothing changes when
      no category matches. */
  function AfterAddSession(cats: seq<Category>, categoryId: Id, s: TimerSession): (r: seq<Category>)
    ensures |r| == |cats|
    ensures forall i :: 0 <= i < |cats| ==>
      r[i] == if IsFirstCategory(cats, categoryId, i)
              then cats[i].(sessions := cats[i].sessions + [s]) else cats[i]
    ensures NoCategoryWithId(cats, categoryId) ==> r == cats
  {
    UpdateFirst(cats, HasCategoryId(categoryId), PushSession(s))
  }

  /** `updateSessionInCategory`: inside the first category with the id, the
      first session with the payload's id becomes the payload; every other
      session and category stays; the session count is unchanged; nothing
      changes when the category or the session is absent. */
  function AfterUpdateSession(cats: seq<Category>, categoryId: Id, s: TimerSession): (r: seq<Category>)
    ensures |r| == |cats|
    ensures forall i :: 0 <= i < |cats| && !IsFirstCategory(cats, categoryId, i) ==> r[i] == cats[i]
    ensures forall i :: IsFirstCategory(cats, categoryId, i) ==>
      r[i].id == cats[i].id && r[i].name == cats[i].name &&
      |r[i].sessions| == |cats[i].sessions| &&
      forall j :: 0 <= j < |cats[i].sessions| ==>
        r[i].sessions[j] == if IsFirstSession(cats[i].sessions, s.id, j) then s else cats[i].sessions[j]
    ensures NoCategoryWithId(cats, categoryId) ==> r == cats
    ensures (forall i :: IsFirstCategory(cats, categoryId, i) ==> !ContainsSessionId(cats[i].sessions, s.id)) ==> r == cats
  {
    UpdateFirst(cats, HasCategoryId(categoryId), ReplaceSession(s))
  }

  /** `removeSessionFromCategory`: the first category with the id loses every
      session with the session id and keeps the others in order; no other
      category changes; nothing changes when no category matches. */
  function AfterRemoveSession(cats: seq<Category>, categoryId: Id, sessionId: Id): (r: seq<Category>)
    ensures |r| == |cats|
    ensures forall i :: 0 <= i < |cats| && !IsFirstCategory(cats, categoryId, i) ==> r[i] == cats[i]
    ensures forall i :: IsFirstCategory(cats, categoryId, i) ==>
      r[i].id == cats[i].id && r[i].name == cats[i].name &&
      !ContainsSessionId(r[i].sessions, sessionId) &&
      (forall x :: x in cats[i].sessions && x.id != sessionId ==> x in r[i].sessions) &&
      (forall x :: multiset(r[i].sessions)[x] ==
        if x.id != sessionId then multiset(cats[i].sessions)[x] else 0) &&
      IsSubsequence(r[i].sessions, cats[i].sessions)
    ensures NoCategoryWithId(cats, categoryId) ==> r == cats
  {
    var r := UpdateFirst(cats, HasCategoryId(categoryId), DropSession(sessionId));
    forall i | IsFirstCategory(cats, categoryId, i)
      ensures !ContainsSessionId(r[i].sessions, sessionId)
      ensures forall x :: multiset(r[i].sessions)[x] ==
                          (if x.id != sessionId then multiset(cats[i].sessions)[x] else 0)
      ensures IsSubsequence(r[i].sessions, cats[i].sessions)
    {
      DropSessionSpec(cats[i], sessionId);
    }
    r
  }

  /** `updateSetsInSession`: the first session with the id inside the first
      category with the id gets the new sets and keeps every other field;
      every other session and category stays; nothing changes when either
      is absent. */
  function AfterUpdateSets(cats: seq<Category>, categoryId: Id, sessionId: Id, sets: seq<RepSet>): (r: seq<Category>)
    ensures |r| == |cats|
    ensures forall i :: 0 <= i < |cats| && !IsFirstCategory(cats, categoryId, i) ==> r[i] == cats[i]
    ensures forall i :: IsFirstCategory(cats, categoryId, i) ==>
      r[i].id == cats[i].id && r[i].name == cats[i].name &&
      |r[i].sessions| == |cats[i].sessions| &&
      forall j :: 0 <= j < |cats[i].sessions| ==>
        r[i].sessions[j] == if IsFirstSession(cats[i].sessions, sessionId, j)
                            then cats[i].sessions[j].(sets := sets) else cats[i].sessions[j]
    ensures NoCategoryWithId(cats, categoryId) ==> r == cats
    ensures (forall i :: IsFirstCategory(cats, categoryId, i) ==> !ContainsSessionId(cats[i].sessions, sessionId)) ==> r == cats
  {
    UpdateFirst(cats, HasCategoryId(categoryId), SetSets(sessionId, sets))
  }

  /** `markSessionComplete`: as `updateSetsInSession`, with the status field
      set to "Completed" instead of the sets. */
  function AfterMarkComplete(cats: seq<Category>, categoryId: Id, sessionId: Id): (r: seq<Category>)
    ensures |r| == |cats|
    ensures forall i :: 0 <= i < |cats| && !IsFirstCategory(cats, categoryId, i) ==> r[i] == cats[i]
    ensures forall i :: IsFirstCategory(cats, categoryId, i) ==>
      r[i].id == cats[i].id && r[i].name == cats[i].name &&
      |r[i].sessions| == |cats[i].sessions| &&
      forall j :: 0 <= j < |cats[i].sessions| ==>
        r[i].sessions[j] == if IsFirstSession(cats[i].sessions, sessionId, j)
                            then cats[i].sessions[j].(status := StatusCompleted) else cats[i].sessions[j]
    ensures NoCategoryWithId(cats, categoryId) ==> r == cats
    ensures (forall i :: IsFirstCategory(cats, categoryId, i) ==> !ContainsSessionId(cats[i].sessions, sessionId)) ==> r == cats
  {
    UpdateFirst(cats, HasCategoryId(categoryId), SetCompleted(sessionId))
  }

  /** `deleteSession`: every category loses every session with the id and
      keeps the others in order; the number of categories and each
      category's id and name are preserved. */
  function AfterDeleteSession(cats: seq<Category>, sessionId: Id): (r: seq<Category>)
    ensures |r| == |cats|
    ensures forall i :: 0 <= i < |cats| ==>
      r[i].id == cats[i].id && r[i].name == cats[i].name &&
      !ContainsSessionId(r[i].sessions, sessionId) &&
      (forall x :: x in cats[i].sessions && x.id != sessionId ==> x in r[i].sessions) &&
      (forall x :: multiset(r[i].sessions)[x] ==
        if x.id != sessionId then multiset(cats[i].sessions)[x] else 0) &&
      IsSubsequence(r[i].sessions, cats[i].sessions)
  {
    var r := Map(cats, DropSession(sessionId));
    forall i | 0 <= i < |cats|
      ensures !ContainsSessionId(r[i].sessions, sessionId)
      ensures forall x :: multiset(r[i].sessions)[x] ==
                          (if x.id != sessionId then multiset(cats[i].sessions)[x] else 0)
      ensures IsSubsequence(r[i].sessions, cats[i].sessions)
    {
      DropSessionSpec(cats[i], sessionId);
    }
    r
  }

  /** Deleting a session a second time changes nothing. */
  lemma DeleteSessionIdempotent(cats: seq<Category>, sessionId: Id)
    ensures AfterDeleteSession(AfterDeleteSession(cats, sessionId), sessionId) == AfterDeleteSession(cats, sessionId)
  {
    var once := AfterDeleteSession(cats, sessionId);
    var twice := AfterDeleteSession(once, sessionId);
    forall i | 0 <= i < |cats| ensures twice[i] == once[i] {
      FilterIdempotent(cats[i].sessions, LacksSessionId(sessionId));
    }
  }

  /** Marking a session complete a second time changes nothing. */
  lemma MarkCompleteIdempotent(cats: seq<Category>, categoryId: Id, sessionId: Id)
    ensures AfterMarkComplete(AfterMarkComplete(cats, categoryId, sessionId), categoryId, sessionId)
         == AfterMarkComplete(cats, categoryId, sessionId)
  {
    var complete := (x: TimerSession) => x.(status := StatusCompleted);
    forall c: Category ensures SetCompleted(sessionId)(SetCompleted(sessionId)(c)) == SetCompleted(sessionId)(c) {
      UpdateFirstIdempotent(c.sessions, HasSessionId(sessionId), complete);
    }
    UpdateFirstIdempotent(cats, HasCategoryId(categoryId), SetCompleted(sessionId));
  }

  /** The Redux state of the slice: `{ categories: Category[] }`. Each method
      is one reducer case, applied to the draft in place. */
  class CategorySlice {
    var categories: seq<Category>

    /** `initialState`. */
    constructor ()
      ensures categories == []
    {
      categories := [];
    }

    /** `setCategories`: the payload replaces the list. */
    method SetCategories(payload: seq<Category>)
      modifies this
      ensures categories == payload
    {
      categories := payload;
    }

    /** `addCategory`: `state.categories.push(payload)`, without checking the
        id: the list grows by one and the old list is a prefix. */
    method AddCategory(c: Category)
      modifies this
      ensures categories == old(categories) + [c]
      ensures |categories| == |old(categories)| + 1 && categories[..|old(categories)|] == old(categories)
    {
      categories := categories + [c];
    }

    method UpdateCategory(c: Category)
      modifies this
      ensures categories == AfterUpdateCategory(old(categories), c)
    {
      UpdateFirstAtFoundIndex(categories, HasCategoryId(c.id), ReplaceCategory(c));
      var index := FindIndex(categories, HasCategoryId(c.id));
      if index >= 0 {
        categories := categories[index := c];
      }
    }

    method RemoveCategory(id: Id)
      modifies this
      ensures categories == AfterRemoveCategory(old(categories), id)
    {
      categories := Filter(categories, LacksCategoryId(id));
    }

    method AddSessionToCategory(categoryId: Id, session: TimerSession)
      modifies this
      ensures categories == AfterAddSession(old(categories), categoryId, session)
    {
      UpdateFirstAtFoundIndex(categories, HasCategoryId(categoryId), PushSession(session));
      var index := FindIndex(categories, HasCategoryId(categoryId));
      if index >= 0 {
        var category := categories[index];
        categories := categories[index := category.(sessions := category.sessions + [session])];
      }
    }

    method UpdateSessionInCategory(categoryId: Id, session: TimerSession)
      modifies this
      ensures categories == AfterUpdateSession(old(categories), categoryId, session)
    {
      UpdateFirstAtFoundIndex(categories, HasCategoryId(categoryId), ReplaceSession(session));
      var index := FindIndex(categories, HasCategoryId(categoryId));
      if index >= 0 {
        var category := categories[index];
        UpdateFirstAtFoundIndex(category.sessions, HasSessionId(session.id), (_: TimerSession) => session);
        var sessionIndex := FindIndex(category.sessions, HasSessionId(session.id));
        if sessionIndex >= 0 {
          categories := categories[index := category.(sessions := category.sessions[sessionIndex := session])];
        }
      }
    }

    method RemoveSessionFromCategory(categoryId: Id, sessionId: Id)
      modifies this
      ensures categories == AfterRemoveSession(old(categories), categoryId, sessionId)
    {
      UpdateFirstAtFoundIndex(categories, HasCategoryId(categoryId), DropSession(sessionId));
      var index := FindIndex(categories, HasCategoryId(categoryId));
      if index >= 0 {
        var category := categories[index];
        categories := categories[index := category.(sessions := Filter(category.sessions, LacksSessionId(sessionId)))];
      }
    }

    method UpdateSetsInSession(categoryId: Id, sessionId: Id, sets: seq<RepSet>)
      modifies this
      ensures categories == AfterUpdateSets(old(categories), categoryId, sessionId, sets)
    {
      UpdateFirstAtFoundIndex(categories, HasCategoryId(categoryId), SetSets(sessionId, sets));
      var index := FindIndex(categories, HasCategoryId(categoryId));
      if index >= 0 {
        var category := categories[index];
        UpdateFirstAtFoundIndex(category.sessions, HasSessionId(sessionId), (x: TimerSession) => x.(sets := sets));
        var sessionIndex := FindIndex(category.sessions, HasSessionId(sessionId));
        if sessionIndex >= 0 {
          var session := category.sessions[sessionIndex];
          categories := categories[index := category.(sessions := category.sessions[sessionIndex := session.(sets := sets)])];
        }
      }
    }

    method MarkSessionComplete(categoryId: Id, sessionId: Id)
      modifies this
      ensures categories == AfterMarkComplete(old(categories), categoryId, sessionId)
    {
      UpdateFirstAtFoundIndex(categories, HasCategoryId(categoryId), SetCompleted(sessionId));
      var index := FindIndex(categories, HasCategoryId(categoryId));
      if index >= 0 {
        var category := categories[index];
        UpdateFirstAtFoundIndex(category.sessions, HasSessionId(sessionId), (x: TimerSession) => x.(status := StatusCompleted));
        var sessionIndex := FindIndex(category.sessions, HasSessionId(sessionId));
        if sessionIndex >= 0 {
          var session := category.sessions[sessionIndex];
          categories := categories[index := category.(sessions := category.sessions[sessionIndex := session.(status := StatusCompleted)])];
        }
      }
    }

    /** `deleteSession`: a `forEach` over the categories that reassigns each
        one's session list. */
    method DeleteSession(sessionId: Id)
      modifies this
      ensures categories == AfterDeleteSession(old(categories), sessionId)
    {
      var i := 0;
      while i < |categories|
        invariant 0 <= i <= |categories| == |old(categories)|
        invariant forall j :: 0 <= j < i ==> categories[j] == DropSession(sessionId)(old(categories)[j])
        invariant forall j :: i <= j < |categories| ==> categories[j] == old(categories)[j]
      {
        var category := categories[i];
        categories := categories[i := category.(sessions := Filter(category.sessions, LacksSessionId(sessionId)))];
        i := i + 1;
      }
    }
  }
}
