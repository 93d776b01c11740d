/**
 * The generated TypeScript bindings for `posts.proto`: the `PostListingType`
 * and `PostContext` mappers, whose declared numbers have gaps, and the
 * default `GetPostsRequest` with its `fromPartial`.
 */
module PostsProto {
  import opened Wrappers
  import opened EnumJson

  const PostListingTypeTable: seq<Entry> := [
    Entry(0, "ALL_ACCESSIBLE_POSTS"), Entry(1, "FOLLOWING_POSTS"), Entry(2, "MY_GROUPS_POSTS"),
    Entry(3, "DIRECT_POSTS"), Entry(4, "POSTS_PENDING_MODERATION"), Entry(10, "GROUP_POSTS"),
    Entry(11, "GROUP_POSTS_PENDING_MODERATION")]

  /** The declared `PostListingType` numbers. */
  const PostListingTypes: set<int> := {0, 1, 2, 3, 4, 10, 11}

  /** `postListingTypeFromJSON`. */
  function PostListingTypeFromJson(j: Json): (v: int)
    ensures v == Unrecognized || v in PostListingTypes
  {
    FromJsonRange(PostListingTypeTable, j);
    FromJson(PostListingTypeTable, j)
  }

  /** `postListingTypeToJSON`. */
  function PostListingTypeToJson(v: int): (name: string)
    ensures v !in PostListingTypes ==> name == UnrecognizedName
  {
    ToJson(PostListingTypeTable, v)
  }

  lemma PostListingTypeTableWellFormed()
    ensures WellFormed(PostListingTypeTable)
  {
  }

  /** Index of each declared listing type in its table. */
  lemma PostListingTypeDeclared(v: int)
    requires v in PostListingTypes
    ensures Declared(PostListingTypeTable, v)
  {
    var t := PostListingTypeTable;
    if v <= 4 {
      assert t[v].number == v;
    } else {
      assert t[v - 5].number == v;
    }
  }

  /**
   * Each declared listing type round-trips through its name and is accepted
   * as a number; an input matching no declared value is `UNRECOGNIZED`.
   */
  lemma PostListingTypeRoundTrip(v: int, j: Json)
    ensures v in PostListingTypes ==>
      PostListingTypeFromJson(Str(PostListingTypeToJson(v))) == v &&
      PostListingTypeFromJson(Num(v)) == v
    ensures (forall e :: e in PostListingTypeTable ==> !Matches(e, j)) ==>
      PostListingTypeFromJson(j) == Unrecognized
  {
    var t := PostListingTypeTable;
    PostListingTypeTableWellFormed();
    if v in PostListingTypes {
      PostListingTypeDeclared(v);
      FromJsonToJson(t, v);
    }
    if forall e :: e in t ==> !Matches(e, j) {
      NoMatchIsUnrecognized(t, j);
    }
  }

  const PostContextTable: seq<Entry> := [
    Entry(0, "POST"), Entry(1, "REPLY"), Entry(2, "EVENT"), Entry(3, "EVENT_INSTANCE"),
    Entry(10, "FEDERATED_POST"), Entry(13, "FEDERATED_EVENT_INSTANCE")]

  /** The declared `PostContext` numbers. */
  const PostContexts: set<int> := {0, 1, 2, 3, 10, 13}

  /** `postContextFromJSON`. */
  function PostContextFromJson(j: Json): (v: int)
    ensures v == Unrecognized || v in PostContexts
  {
    FromJsonRange(PostContextTable, j);
    FromJson(PostContextTable, j)
  }

  /** `postContextToJSON`. */
  function PostContextToJson(v: int): (name: string)
    ensures v !in PostContexts ==> name == UnrecognizedName
  {
    ToJson(PostContextTable, v)
  }

  lemma PostContextTableWellFormed()
    ensures WellFormed(PostContextTable)
  {
  }

  /** Index of each declared context in its table. */
  lemma PostContextDeclared(v: int)
    requires v in PostContexts
    ensures Declared(PostContextTable, v)
  {
    var t := PostContextTable;
    if v <= 3 {
      assert t[v].number == v;
    } else if v == 10 {
      assert t[4].number == v;
    } else {
      assert t[5].number == v;
    }
  }

  /** The round trip and unknown-input rules for `PostContext`. */
  lemma PostContextRoundTrip(v: int, j: Json)
    ensures v in PostContexts ==>
      PostContextFromJson(Str(PostContextToJson(v))) == v &&
      PostContextFromJson(Num(v)) == v
    ensures (forall e :: e in PostContextTable ==> !Matches(e, j)) ==>
      PostContextFromJson(j) == Unrecognized
  {
    var t := PostContextTable;
    PostContextTableWellFormed();
    if v in PostContexts {
      PostContextDeclared(v);
      FromJsonToJson(t, v);
    }
    if forall e :: e in t ==> !Matches(e, j) {
      NoMatchIsUnrecognized(t, j);
    }
  }

  /** Numbers in the gaps are not values: 5 is no listing type. */
  lemma PostListingTypeGap()
    ensures PostListingTypeFromJson(Num(5)) == Unrecognized
    ensures PostListingTypeToJson(5) == UnrecognizedName
  {
    NumberNotDeclared(PostListingTypeTable, 5);
  }

  /** Numbers in the gaps are not values: 12 is no context. */
  lemma PostContextGap()
    ensures PostContextFromJson(Num(12)) == Unrecognized
    ensures PostContextToJson(12) == UnrecognizedName
  {
    NumberNotDeclared(PostContextTable, 12);
  }

  datatype GetPostsRequest = GetPostsRequest(
    postId: Option<string>,
    authorUserId: Option<string>,
    groupId: Option<string>,
    replyDepth: Option<int>,
    context: Option<int>,
    postIds: Option<string>,
    listingType: int,
    page: int)

  /** `DeepPartial<GetPostsRequest>`. */
  datatype PartialGetPostsRequest = PartialGetPostsRequest(
    postId: Option<string>,
    authorUserId: Option<string>,
    groupId: Option<string>,
    replyDepth: Option<int>,
    context: Option<int>,
    postIds: Option<string>,
    listingType: Option<int>,
    page: Option<int>)

  /** `createBaseGetPostsRequest`. */
  function CreateBaseGetPostsRequest(): (r: GetPostsRequest)
    ensures r.postId.None? && r.authorUserId.None? && r.groupId.None?
    ensures r.replyDepth.None? && r.context.None? && r.postIds.None?
    ensures r.listingType == 0 && r.page == 0
  {
    GetPostsRequest(None, None, None, None, None, None, 0, 0)
  }

  /** `GetPostsRequest.fromPartial`: given fields are kept; `listingType` and `page` default to 0. */
  function GetPostsRequestFromPartial(p: PartialGetPostsRequest): (r: GetPostsRequest)
    ensures r.postId == p.postId && r.authorUserId == p.authorUserId && r.groupId == p.groupId
    ensures r.replyDepth == p.replyDepth && r.context == p.context && r.postIds == p.postIds
    ensures r.listingType == p.listingType.GetOr(CreateBaseGetPostsRequest().listingType)
    ensures r.page == p.page.GetOr(CreateBaseGetPostsRequest().page)
  {
    CreateBaseGetPostsRequest().(
      postId := p.postId,
      authorUserId := p.authorUserId,
      groupId := p.groupId,
      replyDepth := p.replyDepth,
      context := p.context,
      postIds := p.postIds,
      listingType := p.listingType.GetOr(0),
      page := p.page.GetOr(0))
  }

  /** A complete request seen as a partial one with every field present. */
  function GetPostsRequestAsPartial(r: GetPostsRequest): PartialGetPostsRequest {
    PartialGetPostsRequest(
      r.postId, r.authorUserId, r.groupId, r.replyDepth, r.context, r.postIds, Some(r.listingType), Some(r.page))
  }

  /** `fromPartial` keeps a complete request unchanged and maps `{}` to the default request. */
  lemma GetPostsRequestFromPartialRoundTrip(r: GetPostsRequest)
    ensures GetPostsRequestFromPartial(GetPostsRequestAsPartial(r)) == r
    ensures GetPostsRequestFromPartial(PartialGetPostsRequest(None, None, None, None, None, None, None, None)) ==
      CreateBaseGetPostsRequest()
  {
  }
}
