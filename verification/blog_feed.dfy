/**
 * The blog feed screen's fetch and refresh controller. The screen keeps the
 * list of posts, a loading flag, an error message and a refreshing flag in
 * component state; `fetchWordPressPosts` and `onRefresh` update them before
 * and after one awaited request for the latest posts. The request is not
 * performed: `Fetch` and `OnRefresh` return the URL they would fetch, and
 * `Settle` receives how that fetch ended.
 */
module BlogFeed {
  import opened Network
  import opened HtmlText

  /** The fields of a WordPress REST API post that the screen uses. */
  datatype Post = Post(
    id: int,
    title: string,
    excerpt: string,
    link: string,
    date: string,
    author: int,
    featuredMedia: int,
    featuredImage: Option<string>,
    authorName: Option<string>)

  const PostsUrl: string := "https://kinsta.com/wp-json/wp/v2/posts?per_page=3&_embed"
  const LoadErrorMessage: string := "Error al cargar las noticias. Intenta de nuevo."

  /** The card of one post shows its title and its excerpt as plain text. */
  function PostText(post: Post): (shown: (string, string))
    ensures shown.0 == StripHtml(post.title) && NoTag(shown.0) && NoEntity(shown.0)
    ensures shown.1 == Excerpt(post.excerpt) && |shown.1| <= 153 && NoTag(shown.1)
  {
    (StripHtml(post.title), Excerpt(post.excerpt))
  }

  class BlogScreen {
    var posts: seq<Post>
    var loading: bool
    var error: Option<string>
    var refreshing: bool

    /** A pull-to-refresh indicator is only shown while a fetch is loading. */
    ghost predicate Valid()
      reads this
    {
      refreshing ==> loading
    }

    /** The state the screen is mounted with, before its first fetch. */
    constructor ()
      ensures Valid()
      ensures posts == [] && !loading && error == None && !refreshing
    {
      posts := [];
      loading := false;
      error := None;
      refreshing := false;
    }

    /** `loading && posts.length === 0`: the whole screen is replaced by the
        loading indicator. */
    predicate ShowsLoadingScreen()
      reads this
    {
      loading && |posts| == 0
    }

    /** The synchronous part of `fetchWordPressPosts` (on mount and from the
        retry button): start loading and clear the error, keeping the posts
        already shown. */
    method Fetch() returns (request: string)
      modifies this`loading, this`error
      ensures Valid()
      ensures request == PostsUrl
      ensures loading && error == None
      ensures posts == old(posts) && refreshing == old(refreshing)
      ensures ShowsLoadingScreen() <==> posts == []
    {
      loading := true;
      error := None;
      request := PostsUrl;
    }

    /** `onRefresh`: show the refreshing indicator, then fetch. */
    method OnRefresh() returns (request: string)
      requires Valid()
      modifies this`refreshing, this`loading, this`error
      ensures Valid()
      ensures request == PostsUrl
      ensures refreshing && loading && error == None
      ensures posts == old(posts)
    {
      refreshing := true;
      request := Fetch();
    }

    /** The part of `fetchWordPressPosts` after the fetch settles. A payload
        replaces the posts wholesale; any failure sets the one error message
        and keeps the posts; either way the `finally` block clears both
        indicators. Nothing checks that this is the answer to the latest
        fetch. */
    method Settle(outcome: Outcome<seq<Post>>)
      requires Valid()
      modifies this`posts, this`loading, this`error, this`refreshing
      ensures Valid() && !loading && !refreshing && !ShowsLoadingScreen()
      ensures outcome.Ok? ==> posts == outcome.payload && error == old(error)
      ensures outcome.Fail? ==> posts == old(posts) && error == Some(LoadErrorMessage)
    {
      match outcome {
        case Ok(data) =>
          posts := data;
        case Fail =>
          error := Some(LoadErrorMessage);
      }
      loading := false;
      refreshing := false;
    }
  }

  /** The screen is mounted (which fetches), the first fetch settles with
      `first`, the user pulls to refresh, and that fetch settles with
      `second`. Returns whether the loading screen covered the feed during
      each fetch, and what is shown at the end. */
  method MountThenRefresh(first: Outcome<seq<Post>>, second: Outcome<seq<Post>>)
    returns (coveredOnMount: bool, coveredOnRefresh: bool, shown: seq<Post>, message: Option<string>)
    ensures coveredOnMount
    ensures coveredOnRefresh <==> first.Fail? || first.payload == []
    ensures second.Ok? ==> shown == second.payload && message == None
    ensures second.Fail? ==> message == Some(LoadErrorMessage)
    ensures second.Fail? && first.Ok? ==> shown == first.payload
    ensures second.Fail? && first.Fail? ==> shown == []
  {
    var screen := new BlogScreen();
    var request := screen.Fetch();
    coveredOnMount := screen.ShowsLoadingScreen();
    screen.Settle(first);
    request := screen.OnRefresh();
    coveredOnRefresh := screen.ShowsLoadingScreen();
    screen.Settle(second);
    shown, message := screen.posts, screen.error;
  }
}
