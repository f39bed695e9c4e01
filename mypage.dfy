/**
 * The profile page (src/component/MyPage.js): the counts and post list it
 * fills from the backend, the my-posts / liked-posts switch, and the image
 * address each post card shows.
 */
module ProfilePage {
  import opened Wrappers
  import JsString

  const ServerRoot: string := "http://localhost:3100/"
  const DefaultImage: string := "default-image-url.jpg"
  const MyPostsView: string := "myPosts"

  /** A post card's data: `image_urls` may be missing, else a comma-separated list of paths. */
  datatype Post = Post(content: string, imageUrls: Option<string>)

  /** The follows endpoint's payload; only the lengths of the lists are used. */
  datatype Follows = Follows(followers: seq<string>, following: seq<string>)

  /** The two post listings the page can show. */
  datatype Listing = MyPosts | LikedPosts

  /**
   * `image_urls?.split(',')[0] || 'default-image-url.jpg'`: the first path of
   * the list, or the default when the list is missing or starts empty.
   */
  function ThumbnailPath(imageUrls: Option<string>): (path: string)
    ensures path != [] && ',' !in path
    ensures imageUrls.None? ==> path == DefaultImage
  {
    var first := if imageUrls.Some? then JsString.Split(imageUrls.value, ',')[0] else "";
    if first != "" then first else DefaultImage
  }

  /**
   * For a present list `s` the thumbnail is the text before the first comma
   * of `s` — a non-empty prefix of `s` ending at the end of `s` or at a
   * comma — or the default when that text is empty (`""`, `",b.jpg"`).
   */
  lemma ThumbnailIsFirstPath(s: string)
    ensures (s == [] || s[0] == ',') ==> ThumbnailPath(Some(s)) == DefaultImage
    ensures s != [] && s[0] != ',' ==>
      var p := ThumbnailPath(Some(s));
      0 < |p| <= |s| && p == s[..|p|] && (|p| == |s| || s[|p|] == ',')
  {
    JsString.SplitFirstPiece(s, ',');
  }

  /** Example: an empty first path falls back to the default. */
  lemma ThumbnailExamples()
    ensures ThumbnailPath(Some(",b.jpg")) == DefaultImage
    ensures ThumbnailPath(Some("")) == DefaultImage
  {
    ThumbnailIsFirstPath(",b.jpg");
    ThumbnailIsFirstPath("");
  }

  /** The card's image address: the server root followed by the thumbnail path, with no comma. */
  function ImageSrc(post: Post): (src: string)
    ensures |src| > |ServerRoot| && src[..|ServerRoot|] == ServerRoot
    ensures src[|ServerRoot|..] == ThumbnailPath(post.imageUrls)
    ensures ',' !in src
  {
    ServerRoot + ThumbnailPath(post.imageUrls)
  }

  /** `if (token)`: a stored token that is present and non-empty. */
  predicate HasToken(token: Option<string>) {
    token.Some? && token.value != ""
  }

  class ProfileView {
    var followerCount: nat
    var followingCount: nat
    var postCount: int
    var loading: bool
    var posts: seq<Post>
    var viewType: string

    constructor ()
      ensures followerCount == 0 && followingCount == 0 && postCount == 0
      ensures loading && posts == [] && viewType == MyPostsView
    {
      followerCount, followingCount, postCount := 0, 0, 0;
      loading, posts, viewType := true, [], MyPostsView;
    }

    /**
     * The mount effect. Without a token nothing happens and the spinner
     * stays. With one: the counts are set from a successful follows reply,
     * the post count from a successful count reply, the my-posts request is
     * started unless a call threw, and loading ends in every case. A thrown
     * follows call skips the count request, so `count` is then unused.
     */
    method LoadProfile(token: Option<string>, follows: Response<Follows>, count: Response<int>)
      returns (myPostsRequested: bool)
      modifies this`followerCount, this`followingCount, this`postCount, this`loading
      ensures !HasToken(token) ==>
        && !myPostsRequested && loading == old(loading)
        && followerCount == old(followerCount) && followingCount == old(followingCount)
        && postCount == old(postCount)
      ensures HasToken(token) ==> !loading
      ensures HasToken(token) && follows.Succeeded? ==>
        followerCount == |follows.data.followers| && followingCount == |follows.data.following|
      ensures !(HasToken(token) && follows.Succeeded?) ==>
        followerCount == old(followerCount) && followingCount == old(followingCount)
      ensures postCount ==
        (if HasToken(token) && !follows.Threw? && count.Succeeded? then count.data else old(postCount))
      ensures myPostsRequested <==> HasToken(token) && !follows.Threw? && !count.Threw?
    {
      myPostsRequested := false;
      if !HasToken(token) {
        return;
      }
      if follows.Threw? {
        loading := false;
        return;
      }
      if follows.Succeeded? {
        followerCount := |follows.data.followers|;
        followingCount := |follows.data.following|;
      }
      if count.Threw? {
        loading := false;
        return;
      }
      if count.Succeeded? {
        postCount := count.data;
      }
      myPostsRequested := true;
      loading := false;
    }

    /** `fetchMyPosts` / `fetchLikedPosts` settling: a successful reply replaces the posts. */
    method ReceivePosts(reply: Response<seq<Post>>)
      modifies this`posts
      ensures posts == (if reply.Succeeded? then reply.data else old(posts))
    {
      if reply.Succeeded? {
        posts := reply.data;
      }
    }

    /** `handleViewChange`: records the view and picks the listing to fetch. */
    method HandleViewChange(t: string) returns (listing: Listing)
      modifies this`viewType
      ensures viewType == t
      ensures listing == MyPosts <==> t == MyPostsView
      ensures listing == LikedPosts <==> t != MyPostsView
    {
      viewType := t;
      if t == MyPostsView {
        listing := MyPosts;
      } else {
        listing := LikedPosts;
      }
    }
  }
}
