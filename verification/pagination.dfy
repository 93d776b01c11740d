/**
 * The frontend's pagination selectors. The store keeps, per listing (a
 * listing type or a group id), a map from page number to the ids on that
 * page; a selector resolves a page's ids against the entity store, dropping
 * the ids it cannot resolve, and concatenates pages `0..throughPage`.
 *
 * Posts are an opaque entity type `P`; an event carries opaque details `D`
 * and its list of instances.
 */
module Pagination {

  /** Listing → page number → ids on that page. */
  type Pages<K> = map<K, map<int, seq<string>>>

  datatype EventInstance = EventInstance(id: string, eventId: string)

  datatype Event<D> = Event(id: string, details: D, instances: seq<EventInstance>)

  datatype PostsState<P> = PostsState(postPages: Pages<int>, entities: map<string, P>)

  datatype EventsState<D> = EventsState(
    eventInstancePages: Pages<int>,
    instances: map<string, EventInstance>,
    entities: map<string, Event<D>>)

  datatype GroupsState = GroupsState(groupPostPages: Pages<string>, groupEventPages: Pages<string>)

  datatype RootState<P, D> = RootState(posts: PostsState<P>, events: EventsState<D>, groups: GroupsState)

  /** `(pages[key] ?? {})[page] ?? []`. */
  function PageIds<K>(pages: Pages<K>, key: K, page: int): (ids: seq<string>)
    ensures key in pages && page in pages[key] ==> ids == pages[key][page]
    ensures !(key in pages && page in pages[key]) ==> ids == []
  {
    if key in pages && page in pages[key] then pages[key][page] else []
  }

  // ---------------------------------------------------------------------------
  // Resolving one page

  /** The ids of `ids` that name a stored entity, in order. */
  function KnownIds<P>(ids: seq<string>, entities: map<string, P>): (r: seq<string>)
    ensures |r| <= |ids|
    ensures forall id :: id in r <==> id in ids && id in entities
    ensures forall i :: 0 <= i < |r| ==> r[i] in entities
  {
    if |ids| == 0 then []
    else if ids[0] in entities then [ids[0]] + KnownIds(ids[1..], entities)
    else KnownIds(ids[1..], entities)
  }

  /**
   * `ids.map(id => selectById(state, id)).filter(p => p)`: the stored
   * entities the ids name, in order, with unknown ids dropped.
   */
  function ResolveIds<P>(ids: seq<string>, entities: map<string, P>): (r: seq<P>)
    ensures var known := KnownIds(ids, entities);
      |r| == |known| && forall i :: 0 <= i < |r| ==> known[i] in entities && r[i] == entities[known[i]]
  {
    if |ids| == 0 then []
    else
      var rest := ResolveIds(ids[1..], entities);
      if ids[0] in entities then
        var r := [entities[ids[0]]] + rest;
        var known := KnownIds(ids, entities);
        assert known == [ids[0]] + KnownIds(ids[1..], entities);
        assert forall i :: 1 <= i < |r| ==> r[i] == rest[i - 1] && known[i] == KnownIds(ids[1..], entities)[i - 1];
        r
      else
        assert KnownIds(ids, entities) == KnownIds(ids[1..], entities);
        rest
  }

  /** Resolving distributes over concatenation of id lists. */
  lemma {:induction false} ResolveIdsAppend<P>(a: seq<string>, b: seq<string>, entities: map<string, P>)
    ensures ResolveIds(a + b, entities) == ResolveIds(a, entities) + ResolveIds(b, entities)
  {
    if |a| == 0 {
      assert a + b == b;
    } else {
      var ab := a + b;
      assert ab[0] == a[0];
      assert ab[1..] == a[1..] + b;
      ResolveIdsAppend(a[1..], b, entities);
      if a[0] in entities {
        var head, tail := [entities[a[0]]], ResolveIds(a[1..], entities);
        calc {
          ResolveIds(ab, entities);
          head + ResolveIds(a[1..] + b, entities);
          head + (tail + ResolveIds(b, entities));
          { assert head + (tail + ResolveIds(b, entities)) == (head + tail) + ResolveIds(b, entities); }
          ResolveIds(a, entities) + ResolveIds(b, entities);
        }
      }
    }
  }

  /** When every id is known, resolving keeps every position. */
  lemma {:induction false} ResolveAllKnown<P>(ids: seq<string>, entities: map<string, P>)
    requires forall i :: 0 <= i < |ids| ==> ids[i] in entities
    ensures |ResolveIds(ids, entities)| == |ids|
    ensures forall i :: 0 <= i < |ids| ==> ResolveIds(ids, entities)[i] == entities[ids[i]]
  {
    if |ids| > 0 {
      ResolveAllKnown(ids[1..], entities);
      var rest := ResolveIds(ids[1..], entities);
      assert ResolveIds(ids, entities) == [entities[ids[0]]] + rest;
    }
  }

  /** `getPostsPage`: the posts of one page of one listing type. */
  function GetPostsPage<P>(posts: PostsState<P>, listingType: int, page: int): (r: seq<P>)
    ensures var known := KnownIds(PageIds(posts.postPages, listingType, page), posts.entities);
      |r| == |known| && forall i :: 0 <= i < |r| ==> r[i] == posts.entities[known[i]]
    ensures !(listingType in posts.postPages && page in posts.postPages[listingType]) ==> r == []
  {
    ResolveIds(PageIds(posts.postPages, listingType, page), posts.entities)
  }

  /** `getGroupPostsPage`: the posts of one page of a group's listing. */
  function GetGroupPostsPage<P, D>(state: RootState<P, D>, groupId: string, page: int): (r: seq<P>)
    ensures var known := KnownIds(PageIds(state.groups.groupPostPages, groupId, page), state.posts.entities);
      |r| == |known| && forall i :: 0 <= i < |r| ==> r[i] == state.posts.entities[known[i]]
    ensures !(groupId in state.groups.groupPostPages && page in state.groups.groupPostPages[groupId]) ==> r == []
  {
    ResolveIds(PageIds(state.groups.groupPostPages, groupId, page), state.posts.entities)
  }

  /** Whether an instance id resolves to an instance whose event is stored. */
  predicate Resolvable<D>(id: string, instances: map<string, EventInstance>, entities: map<string, Event<D>>) {
    id in instances && instances[id].eventId in entities
  }

  /** The instance ids that resolve, in order. */
  function ResolvableIds<D>(ids: seq<string>, instances: map<string, EventInstance>, entities: map<string, Event<D>>)
    : (r: seq<string>)
    ensures |r| <= |ids|
    ensures forall id :: id in r <==> id in ids && Resolvable(id, instances, entities)
    ensures forall i :: 0 <= i < |r| ==> Resolvable(r[i], instances, entities)
  {
    if |ids| == 0 then []
    else if Resolvable(ids[0], instances, entities) then [ids[0]] + ResolvableIds(ids[1..], instances, entities)
    else ResolvableIds(ids[1..], instances, entities)
  }

  /** The event an instance belongs to, narrowed to that one instance: `{ ...event, instances: [instance] }`. */
  function Narrow<D>(id: string, instances: map<string, EventInstance>, entities: map<string, Event<D>>): (e: Event<D>)
    requires Resolvable(id, instances, entities)
    ensures e.instances == [instances[id]]
    ensures e == entities[instances[id].eventId].(instances := [instances[id]])
  {
    entities[instances[id].eventId].(instances := [instances[id]])
  }

  /**
   * The instance-to-event pipeline of `getEventsPage`: look each id up among
   * the instances, drop the missing, attach each to its event, drop those
   * whose event is missing.
   */
  function ResolveInstances<D>(ids: seq<string>, instances: map<string, EventInstance>, entities: map<string, Event<D>>)
    : (r: seq<Event<D>>)
    ensures var known := ResolvableIds(ids, instances, entities);
      |r| == |known| &&
      forall i :: 0 <= i < |r| ==> Resolvable(known[i], instances, entities) && r[i] == Narrow(known[i], instances, entities)
  {
    if |ids| == 0 then []
    else
      var rest := ResolveInstances(ids[1..], instances, entities);
      if Resolvable(ids[0], instances, entities) then
        ConsShifts(Narrow(ids[0], instances, entities), rest);
        [Narrow(ids[0], instances, entities)] + rest
      else rest
  }

  /** Prepending one element shifts every later position by one. */
  lemma ConsShifts<T>(x: T, rest: seq<T>)
    ensures forall i :: 1 <= i < |[x] + rest| ==> ([x] + rest)[i] == rest[i - 1]
  {
  }

  /** Resolving instances distributes over concatenation of id lists. */
  lemma {:induction false} ResolveInstancesAppend<D>(
    a: seq<string>, b: seq<string>, instances: map<string, EventInstance>, entities: map<string, Event<D>>)
    ensures ResolveInstances(a + b, instances, entities) ==
      ResolveInstances(a, instances, entities) + ResolveInstances(b, instances, entities)
  {
    if |a| == 0 {
      assert a + b == b;
    } else {
      assert (a + b)[1..] == a[1..] + b;
      ResolveInstancesAppend(a[1..], b, instances, entities);
    }
  }

  /**
   * `getEventsPage`: one event per resolvable instance on the page, each
   * carrying exactly that instance.
   */
  function GetEventsPage<D>(events: EventsState<D>, listingType: int, page: int): (r: seq<Event<D>>)
    ensures var known := ResolvableIds(PageIds(events.eventInstancePages, listingType, page),
        events.instances, events.entities);
      |r| == |known| &&
      forall i :: 0 <= i < |r| ==>
        Resolvable(known[i], events.instances, events.entities) &&
        r[i] == Narrow(known[i], events.instances, events.entities)
    ensures !(listingType in events.eventInstancePages && page in events.eventInstancePages[listingType]) ==> r == []
  {
    ResolveInstances(PageIds(events.eventInstancePages, listingType, page), events.instances, events.entities)
  }

  /** `getGroupEventsPage`: the same pipeline over a group's instance pages. */
  function GetGroupEventsPage<P, D>(state: RootState<P, D>, groupId: string, page: int): (r: seq<Event<D>>)
    ensures var known := ResolvableIds(PageIds(state.groups.groupEventPages, groupId, page),
        state.events.instances, state.events.entities);
      |r| == |known| &&
      forall i :: 0 <= i < |r| ==>
        Resolvable(known[i], state.events.instances, state.events.entities) &&
        r[i] == Narrow(known[i], state.events.instances, state.events.entities)
  {
    ResolveInstances(PageIds(state.groups.groupEventPages, groupId, page), state.events.instances, state.events.entities)
  }

  /** An instance whose id or event is missing contributes nothing. */
  lemma UnresolvableInstanceDropped<D>(id: string, instances: map<string, EventInstance>, entities: map<string, Event<D>>)
    requires !Resolvable(id, instances, entities)
    ensures ResolveInstances([id], instances, entities) == []
  {
  }

  // ---------------------------------------------------------------------------
  // Concatenating pages 0..throughPage

  /** Pages `0..n` of a post listing, concatenated. */
  function PostPagesThrough<P>(posts: PostsState<P>, listingType: int, n: int): seq<P>
    decreases n
  {
    if n < 0 then [] else PostPagesThrough(posts, listingType, n - 1) + GetPostsPage(posts, listingType, n)
  }

  /** Pages `0..n` of a group's post listing, concatenated. */
  function GroupPostPagesThrough<P, D>(state: RootState<P, D>, groupId: string, n: int): seq<P>
    decreases n
  {
    if n < 0 then [] else GroupPostPagesThrough(state, groupId, n - 1) + GetGroupPostsPage(state, groupId, n)
  }

  /** Pages `0..n` of an event listing, concatenated. */
  function EventPagesThrough<D>(events: EventsState<D>, listingType: int, n: int): seq<Event<D>>
    decreases n
  {
    if n < 0 then [] else EventPagesThrough(events, listingType, n - 1) + GetEventsPage(events, listingType, n)
  }

  /** Pages `0..n` of a group's event listing, concatenated. */
  function GroupEventPagesThrough<P, D>(state: RootState<P, D>, groupId: string, n: int): seq<Event<D>>
    decreases n
  {
    if n < 0 then [] else GroupEventPagesThrough(state, groupId, n - 1) + GetGroupEventsPage(state, groupId, n)
  }

  /** `getPostPages`: pages `0..throughPage`, in page order. */
  method GetPostPages<P>(posts: PostsState<P>, listingType: int, throughPage: int) returns (result: seq<P>)
    ensures result == PostPagesThrough(posts, listingType, throughPage)
  {
    result := [];
    var page := 0;
    while page <= throughPage
      invariant page <= throughPage + 1 || (throughPage < 0 && page == 0)
      invariant result == PostPagesThrough(posts, listingType, page - 1)
    {
      var pagePosts := GetPostsPage(posts, listingType, page);
      result := result + pagePosts;
      page := page + 1;
    }
  }

  /** `getEventPages`: pages `0..throughPage`, in page order. */
  method GetEventPages<D>(events: EventsState<D>, listingType: int, throughPage: int) returns (result: seq<Event<D>>)
    ensures result == EventPagesThrough(events, listingType, throughPage)
  {
    result := [];
    var page := 0;
    while page <= throughPage
      invariant page <= throughPage + 1 || (throughPage < 0 && page == 0)
      invariant result == EventPagesThrough(events, listingType, page - 1)
    {
      var pageEvents := GetEventsPage(events, listingType, page);
      result := result + pageEvents;
      page := page + 1;
    }
  }

  /** `getGroupEventPages`: pages `0..throughPage`, in page order. */
  method GetGroupEventPages<P, D>(state: RootState<P, D>, groupId: string, throughPage: int)
    returns (result: seq<Event<D>>)
    ensures result == GroupEventPagesThrough(state, groupId, throughPage)
  {
    result := [];
    var page := 0;
    while page <= throughPage
      invariant page <= throughPage + 1 || (throughPage < 0 && page == 0)
      invariant result == GroupEventPagesThrough(state, groupId, page - 1)
    {
      var pageEvents := GetGroupEventsPage(state, groupId, page);
      result := result + pageEvents;
      page := page + 1;
    }
  }

  /** `count` copies of `s`, concatenated. */
  function Repeat<T>(s: seq<T>, count: int): (r: seq<T>)
    ensures |r| == if count < 0 then 0 else count * |s|
    decreases count
  {
    if count <= 0 then [] else Repeat(s, count - 1) + s
  }

  /**
   * `getGroupPostPages` as written: the loop body reads `throughPage`
   * instead of `page`, so it returns page `throughPage` once per loop turn.
   */
  method GetGroupPostPagesAsWritten<P, D>(state: RootState<P, D>, groupId: string, throughPage: int)
    returns (result: seq<P>)
    ensures result == Repeat(GetGroupPostsPage(state, groupId, throughPage), throughPage + 1)
  {
    result := [];
    var page := 0;
    while page <= throughPage
      invariant page <= throughPage + 1 || (throughPage < 0 && page == 0)
      invariant result == Repeat(GetGroupPostsPage(state, groupId, throughPage), page)
    {
      var pagePosts := GetGroupPostsPage(state, groupId, throughPage);
      result := result + pagePosts;
      page := page + 1;
    }
  }

  /** `getGroupPostPages` as evidently intended: pages `0..throughPage`, in page order. */
  method GetGroupPostPages<P, D>(state: RootState<P, D>, groupId: string, throughPage: int)
    returns (result: seq<P>)
    ensures result == GroupPostPagesThrough(state, groupId, throughPage)
  {
    result := [];
    var page := 0;
    while page <= throughPage
      invariant page <= throughPage + 1 || (throughPage < 0 && page == 0)
      invariant result == GroupPostPagesThrough(state, groupId, page - 1)
    {
      var pagePosts := GetGroupPostsPage(state, groupId, page);
      result := result + pagePosts;
      page := page + 1;
    }
  }

  /**
   * The two differ: with post "a" on page 0 and post "b" on page 1, reading
   * through page 1 as written gives `["b", "b"]` where `["a", "b"]` is meant.
   */
  lemma GroupPostPagesCounterexample()
    ensures var state := RootState(
        PostsState(map[], map["a" := "a", "b" := "b"]),
        EventsState(map[], map[], map[]),
        GroupsState(map["g" := map[0 := ["a"], 1 := ["b"]]], map[]));
      Repeat(GetGroupPostsPage<string, int>(state, "g", 1), 2) == ["b", "b"] &&
      GroupPostPagesThrough<string, int>(state, "g", 1) == ["a", "b"]
  {
    var state: RootState<string, int> := RootState(
      PostsState(map[], map["a" := "a", "b" := "b"]),
      EventsState(map[], map[], map[]),
      GroupsState(map["g" := map[0 := ["a"], 1 := ["b"]]], map[]));
    ResolveAllKnown(["a"], state.posts.entities);
    ResolveAllKnown(["b"], state.posts.entities);
    assert GetGroupPostsPage(state, "g", 0) == ["a"];
    assert GetGroupPostsPage(state, "g", 1) == ["b"];
    assert Repeat(GetGroupPostsPage(state, "g", 1), 2) == ["b"] + ["b"];
    assert GroupPostPagesThrough(state, "g", 1) == [] + ["a"] + ["b"];
  }

  /** The sum of the lengths of pages `0..n` of an event listing. */
  function EventPageLengths<D>(events: EventsState<D>, listingType: int, n: int): nat
    decreases n
  {
    if n < 0 then 0 else EventPageLengths(events, listingType, n - 1) + |GetEventsPage(events, listingType, n)|
  }

  /** `getEventPages` has as many events as its pages together. */
  lemma {:induction false} EventPagesLength<D>(events: EventsState<D>, listingType: int, n: int)
    ensures |EventPagesThrough(events, listingType, n)| == EventPageLengths(events, listingType, n)
    decreases n
  {
    if n >= 0 {
      EventPagesLength(events, listingType, n - 1);
    }
  }

  /**
   * Reading one page further appends exactly that page: the concatenation is
   * a prefix of every longer one.
   */
  lemma {:induction false} PostPagesPrefix<P>(posts: PostsState<P>, listingType: int, m: int, n: int)
    requires m <= n
    ensures PostPagesThrough(posts, listingType, m) <= PostPagesThrough(posts, listingType, n)
    decreases n - m
  {
    if m < n {
      PostPagesPrefix(posts, listingType, m, n - 1);
      if n >= 0 {
        assert PostPagesThrough(posts, listingType, n) ==
          PostPagesThrough(posts, listingType, n - 1) + GetPostsPage(posts, listingType, n);
      }
    }
  }

  // ---------------------------------------------------------------------------
  // Page presence

  /**
   * `getHas*Page`: the page entry exists, even when it lists no ids. A page
   * that is reported absent reads as no ids.
   */
  function HasPage<K>(pages: Pages<K>, key: K, page: int): (b: bool)
    ensures b ==> key in pages && page in pages[key] && PageIds(pages, key, page) == pages[key][page]
    ensures !b ==> PageIds(pages, key, page) == []
    ensures key in pages && page in pages[key] ==> b
  {
    key in pages && page in pages[key]
  }

  /** `getHasMore*Pages`: the page entry exists and lists at least one id. */
  function HasMorePages<K>(pages: Pages<K>, key: K, currentPage: int): (b: bool)
    ensures b <==> HasPage(pages, key, currentPage) && |pages[key][currentPage]| > 0
  {
    |PageIds(pages, key, currentPage)| > 0
  }

  /** More pages implies the page exists; an existing empty page is not "more". */
  lemma HasMoreImpliesHas<K>(pages: Pages<K>, key: K, page: int)
    ensures HasMorePages(pages, key, page) ==> HasPage(pages, key, page)
    ensures HasPage(pages, key, page) && pages[key][page] == [] ==> !HasMorePages(pages, key, page)
    ensures key in pages && page in pages[key] && pages[key][page] == [] ==>
      HasPage(pages, key, page) && !HasMorePages(pages, key, page)
  {
  }
}
