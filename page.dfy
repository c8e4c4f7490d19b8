/**
 * The feed page controller (`Home`): the compose buffer and the feed, the
 * fetch run on mount, and `handlePost`. Network calls are parameters: the
 * fetch's outcome, and the store's answer to a create request.
 */
module Page {
  import opened Wrappers
  import opened Text
  import opened FrontendTypes

  /** The fixed author identity every create request carries. */
  const AuthorName: string := "Harshal Shinde"
  const AuthorUsername: string := "huhharshal"

  /** The JSON body of `POST /api/posts`. */
  datatype CreateRequest = CreateRequest(name: string, username: string, body: string)

  /** The store's answer to a create request: the created post, or a failure. */
  datatype CreateOutcome = Created(post: FeedPost) | CreateFailed

  /** The answer to `GET /api/posts`: the posts, or a failure with the message of an `Error`, if it was one. */
  datatype FetchOutcome = Fetched(posts: seq<FeedPost>) | FetchFailed(errorMessage: Option<string>)

  /** A toast shown to the user. */
  datatype Notice = ErrorToast(message: string) | SuccessToast(message: string)

  function FetchErrorMessage(errorMessage: Option<string>): string {
    "Error fetching posts: " + if errorMessage.Some? then errorMessage.value else "Unknown error"
  }

  class Home {
    var postText: string
    var posts: seq<FeedPost>

    /** Both state fields start empty. */
    constructor ()
      ensures postText == "" && posts == []
    {
      postText := "";
      posts := [];
    }

    /** The composer's `onChange` binding. */
    method SetPostText(text: string)
      modifies this
      ensures postText == text && posts == old(posts)
    {
      postText := text;
    }

    /** `fetchPosts`: a success replaces the feed, a failure leaves it and shows an error. */
    method FetchPosts(outcome: FetchOutcome) returns (notice: Option<Notice>)
      modifies this
      ensures postText == old(postText)
      ensures outcome.Fetched? ==> posts == outcome.posts && notice == None
      ensures outcome.FetchFailed? ==>
        posts == old(posts) && notice == Some(ErrorToast(FetchErrorMessage(outcome.errorMessage)))
    {
      match outcome
      case Fetched(fetched) =>
        posts := fetched;
        notice := None;
      case FetchFailed(errorMessage) =>
        notice := Some(ErrorToast(FetchErrorMessage(errorMessage)));
    }

    /**
     * `handlePost`: the buffer is cleared whatever happens; whitespace-only
     * text is refused without a request; otherwise one request carries the
     * trimmed text, and a created post is put at the front of the feed.
     */
    method HandlePost(server: CreateRequest -> CreateOutcome) returns (sent: Option<CreateRequest>, notice: Notice)
      modifies this
      ensures postText == ""
      ensures Strip(old(postText), JavaScript) == "" ==>
        sent == None && posts == old(posts) && notice == ErrorToast("Post cannot be empty")
      ensures Strip(old(postText), JavaScript) != "" ==>
        sent == Some(CreateRequest(AuthorName, AuthorUsername, Strip(old(postText), JavaScript)))
      ensures sent.Some? && server(sent.value).Created? ==>
        posts == [server(sent.value).post] + old(posts) && notice == SuccessToast("Post created successfully!")
      ensures sent.Some? && server(sent.value).CreateFailed? ==>
        posts == old(posts) && notice == ErrorToast("An error occurred while creating the post.")
    {
      var text := Strip(postText, JavaScript);
      postText := "";

      if text == "" {
        return None, ErrorToast("Post cannot be empty");
      }

      var request := CreateRequest(AuthorName, AuthorUsername, text);
      sent := Some(request);
      match server(request)
      case Created(newPost) =>
        posts := [newPost] + posts;
        notice := SuccessToast("Post created successfully!");
      case CreateFailed =>
        notice := ErrorToast("An error occurred while creating the post.");
    }
  }

  /** On mount the effect fetches once: a failed fetch leaves the feed empty. */
  method Mount(outcome: FetchOutcome) returns (home: Home, notice: Option<Notice>)
    ensures fresh(home) && home.postText == ""
    ensures outcome.Fetched? ==> home.posts == outcome.posts
    ensures outcome.FetchFailed? ==> home.posts == [] && notice.Some? && notice.value.ErrorToast?
  {
    home := new Home();
    notice := home.FetchPosts(outcome);
  }
}
