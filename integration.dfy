/**
 * The composer's create request as the backend sees it. The page trims the
 * buffer with JavaScript's whitespace set and the backend strips and checks
 * the body with Python's; the two sets differ in U+001C-U+001F and U+0085
 * (Python only) and U+FEFF (JavaScript only), so what is stored is the
 * Python strip of what was sent, and a body made only of Python-only
 * whitespace passes the page but is refused by the backend.
 */
module Integration {
  import opened JsonData
  import opened Text
  import opened Validators
  import opened PostModel
  import opened PostService
  import opened Routes
  import Page

  /** The JSON object `axios.post` sends for a create request. */
  function RequestJson(req: Page.CreateRequest): map<string, Json> {
    map["name" := JStr(req.name), "username" := JStr(req.username), "body" := JStr(req.body)]
  }

  /** The request `handlePost` sends for `buffer` once its trim is not empty. */
  function ComposerRequest(buffer: string): Page.CreateRequest {
    Page.CreateRequest(Page.AuthorName, Page.AuthorUsername, Strip(buffer, JavaScript))
  }

  /** The fixed author fields have content and are their own Python strip. */
  lemma AuthorFieldsClean()
    ensures !AllSpace(Page.AuthorName, Python) && Strip(Page.AuthorName, Python) == Page.AuthorName
    ensures !AllSpace(Page.AuthorUsername, Python) && Strip(Page.AuthorUsername, Python) == Page.AuthorUsername
  {
    assert !IsSpace(Page.AuthorName[0], Python);
    assert !IsSpace(Page.AuthorUsername[0], Python);
    assert TrimStart(Page.AuthorName, Python) == Page.AuthorName;
    assert TrimStart(Page.AuthorUsername, Python) == Page.AuthorUsername;
  }

  /** A trimmed text with content by Python's measure is created with the fixed author and its Python strip. */
  lemma ComposerRequestCreated(buffer: string, posts: seq<Post>, now: Timestamp)
    requires StoreInvariant(posts) && !AllSpace(Strip(buffer, JavaScript), Python)
    ensures var text := Strip(buffer, JavaScript);
      var o := CreateUserPostResult(Request(true, Parsed(RequestJson(ComposerRequest(buffer)))), posts, now);
      o.response.status == 201 && |o.posts| == |posts| + 1 && o.posts[..|posts|] == posts
      && o.posts[|posts|].name == Page.AuthorName
      && o.posts[|posts|].username == Page.AuthorUsername
      && o.posts[|posts|].body == Strip(text, Python)
  {
    var data := RequestJson(ComposerRequest(buffer));
    AuthorFieldsClean();
    ValidIff(data);
    ValidCreates(data, posts, now);
  }

  /** A trimmed text made only of Python whitespace is refused with 400, its only error being the empty body. */
  lemma ComposerRequestRefused(buffer: string, posts: seq<Post>, now: Timestamp)
    requires StoreInvariant(posts) && AllSpace(Strip(buffer, JavaScript), Python)
    ensures var data := RequestJson(ComposerRequest(buffer));
      var o := CreateUserPostResult(Request(true, Parsed(data)), posts, now);
      o.response.status == 400 && o.posts == posts
      && FieldErrors(data) == map["body" := "Body cannot be empty"]
  {
    var data := RequestJson(ComposerRequest(buffer));
    AuthorFieldsClean();
    assert data["name"] == JStr(Page.AuthorName) && data["username"] == JStr(Page.AuthorUsername);
    assert data["body"] == JStr(Strip(buffer, JavaScript));
    OnlyBodyBlank(data);
    InvalidRejected(data, posts, now);
  }

  /**
   * What the backend does with every request `handlePost` can send. When the
   * trimmed text has content by Python's measure, one post is created with
   * the fixed author and the Python strip of the text, which is the text
   * itself exactly when it has no Python whitespace at either end. Otherwise
   * the backend refuses it with 400, the only field error being
   * "Body cannot be empty", and stores nothing.
   */
  lemma ComposerRequestOutcome(buffer: string, posts: seq<Post>, now: Timestamp)
    requires StoreInvariant(posts) && Strip(buffer, JavaScript) != ""
    ensures var text := Strip(buffer, JavaScript);
      var data := RequestJson(ComposerRequest(buffer));
      var o := CreateUserPostResult(Request(true, Parsed(data)), posts, now);
      (!AllSpace(text, Python) ==>
         o.response.status == 201 && |o.posts| == |posts| + 1 && o.posts[..|posts|] == posts
         && o.posts[|posts|].name == Page.AuthorName
         && o.posts[|posts|].username == Page.AuthorUsername
         && o.posts[|posts|].body == Strip(text, Python)
         && (o.posts[|posts|].body == text <==> !IsSpace(text[0], Python) && !IsSpace(text[|text| - 1], Python)))
      && (AllSpace(text, Python) ==>
         o.response.status == 400 && o.posts == posts
         && FieldErrors(data) == map["body" := "Body cannot be empty"])
  {
    var text := Strip(buffer, JavaScript);
    if !AllSpace(text, Python) {
      ComposerRequestCreated(buffer, posts, now);
      StripFixedIff(text, Python);
    } else {
      ComposerRequestRefused(buffer, posts, now);
    }
  }

  /** A trailing U+001C survives the page's trim but not the backend's strip: "hi\u001C" is sent, "hi" is stored. */
  lemma SeparatorStrippedOnlyByBackend(posts: seq<Post>, now: Timestamp)
    requires StoreInvariant(posts)
    ensures ComposerRequest("hi\U{1C}").body == "hi\U{1C}"
    ensures var o := CreateUserPostResult(Request(true, Parsed(RequestJson(ComposerRequest("hi\U{1C}")))), posts, now);
      o.response.status == 201 && |o.posts| == |posts| + 1 && o.posts[|posts|].body == "hi"
  {
    var buffer := "hi\U{1C}";
    assert TrimStart(buffer, JavaScript) == buffer;
    assert TrimEnd(buffer, JavaScript) == buffer;
    assert TrimStart(buffer, Python) == buffer;
    assert buffer[..2] == "hi";
    assert TrimEnd(buffer, Python) == "hi";
    assert !AllSpace(buffer, Python) by { assert !IsSpace(buffer[0], Python); }
    ComposerRequestOutcome(buffer, posts, now);
  }

  /** A buffer holding only NEXT LINE (U+0085) passes the page's check, and the backend answers 400. */
  lemma NextLineRejectedByBackend(posts: seq<Post>, now: Timestamp)
    requires StoreInvariant(posts)
    ensures ComposerRequest("\U{85}").body == "\U{85}"
    ensures var o := CreateUserPostResult(Request(true, Parsed(RequestJson(ComposerRequest("\U{85}")))), posts, now);
      o.response.status == 400 && o.posts == posts
  {
    var buffer := "\U{85}";
    assert TrimStart(buffer, JavaScript) == buffer;
    assert TrimEnd(buffer, JavaScript) == buffer;
    assert AllSpace(buffer, Python);
    ComposerRequestOutcome(buffer, posts, now);
  }
}
