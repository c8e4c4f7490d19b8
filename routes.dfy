/**
 * The `/posts` routes: GET lists the store through `to_dict`; POST checks
 * the content type, validates, and either answers 400 or creates the post
 * and answers 201. An exception inside the POST handler answers 500.
 */
module Routes {
  import opened Wrappers
  import opened JsonData
  import opened Text
  import opened Validators
  import opened PostModel
  import opened PostService
  import opened Responses

  /** The JSON body as `request.get_json()` delivers it, or the message of the exception it raised. */
  datatype RequestBody = Parsed(data: map<string, Json>) | Unparsable(reason: string)

  /** A POST request: whether its content type is JSON, and its body. */
  datatype Request = Request(isJson: bool, body: RequestBody)

  /** What a request produces: the response and the store afterwards. */
  datatype Outcome = Outcome(response: Response, posts: seq<Post>)

  /** `[post.to_dict() for post in posts]`, as a JSON list. */
  function PostsJson(posts: seq<Post>): (j: Json)
    ensures j.JArray? && |j.items| == |posts|
    ensures forall i :: 0 <= i < |posts| ==> j.items[i] == JObject(ToDict(posts[i]))
  {
    JArray(seq(|posts|, i requires 0 <= i < |posts| => JObject(ToDict(posts[i]))))
  }

  /** What GET /posts answers for a store holding `posts`. */
  function GetPostsResponse(posts: seq<Post>): Response {
    SuccessResponse(PostsJson(posts), "Posts retrieved successfully")
  }

  /** The 400 message: the fixed text, then the missing fields joined by ", " when there are any. */
  function ValidationMessage(missing: seq<string>): string {
    "Validation failed" + if missing == [] then "" else ". Missing required fields: " + Join(missing, ", ")
  }

  /** What POST /posts answers, and the store it leaves, for a store holding `posts`. */
  function CreateUserPostResult(req: Request, posts: seq<Post>, now: Timestamp): Outcome
    requires StoreInvariant(posts)
  {
    if !req.isJson then
      Outcome(ErrorResponse("Content-Type must be application/json", 400), posts)
    else match req.body
      case Unparsable(reason) =>
        Outcome(ErrorResponse("Failed to create post: " + reason, 500), posts)
      case Parsed(data) =>
        if !IsValid(data) then
          var errors := FieldErrors(data);
          Outcome(ErrorResponse(ValidationMessage(MissingFields(data)), 400,
                                if errors != map[] then Some(errors) else None), posts)
        else
          ValidIff(data);
          var p := NewStoredPost(posts, data["name"].s, data["username"].s, data["body"].s, now);
          Outcome(SuccessResponse(JObject(ToDict(p)), "Post created successfully", 201), posts + [p])
  }

  /** `get_posts`. */
  method GetPosts(store: PostStore) returns (response: Response)
    ensures response == GetPostsResponse(store.posts)
  {
    var posts := store.GetAllPosts();
    response := SuccessResponse(PostsJson(posts), "Posts retrieved successfully");
  }

  /** `create_user_post`: early returns for the content type and for invalid data, then the create. */
  method CreateUserPost(store: PostStore, req: Request, now: Timestamp) returns (response: Response)
    requires store.Valid()
    modifies store
    ensures store.Valid()
    ensures Outcome(response, store.posts) == CreateUserPostResult(req, old(store.posts), now)
  {
    if !req.isJson {
      return ErrorResponse("Content-Type must be application/json", 400);
    }
    match req.body
    case Unparsable(reason) =>
      return ErrorResponse("Failed to create post: " + reason, 500);
    case Parsed(data) =>
      var isValid, missingFields, fieldErrors := ValidatePostData(data);
      if !isValid {
        var errorMsg := "Validation failed";
        if missingFields != [] {
          errorMsg := errorMsg + ". Missing required fields: " + Join(missingFields, ", ");
        }
        assert errorMsg == ValidationMessage(missingFields);
        return ErrorResponse(errorMsg, 400, if fieldErrors != map[] then Some(fieldErrors) else None);
      }
      ValidIff(data);
      var newPost := store.CreatePost(data["name"].s, data["username"].s, data["body"].s, now);
      return SuccessResponse(JObject(ToDict(newPost)), "Post created successfully", 201);
  }

  /** GET answers 200 with the stored posts, through `to_dict`, in store order. */
  lemma GetPostsLists(posts: seq<Post>)
    ensures var r := GetPostsResponse(posts);
      r.status == 200 && r.body.Keys == {"message", "data"}
      && r.body["message"] == JStr("Posts retrieved successfully")
      && r.body["data"].JArray? && |r.body["data"].items| == |posts|
      && forall i :: 0 <= i < |posts| ==> r.body["data"].items[i] == JObject(ToDict(posts[i]))
  {
  }

  /** A request whose content type is not JSON is refused with 400 and leaves the store alone. */
  lemma NonJsonRejected(req: Request, posts: seq<Post>, now: Timestamp)
    requires StoreInvariant(posts) && !req.isJson
    ensures var o := CreateUserPostResult(req, posts, now);
      o.posts == posts && o.response.status == 400
      && o.response.body == map["message" := JStr("Content-Type must be application/json")]
  {
  }

  /** A body `get_json` cannot deliver ends in the handler's exception branch: 500, store untouched. */
  lemma UnparsableFails(req: Request, posts: seq<Post>, now: Timestamp)
    requires StoreInvariant(posts) && req.isJson && req.body.Unparsable?
    ensures var o := CreateUserPostResult(req, posts, now);
      o.posts == posts && o.response.status == 500
      && o.response.body == map["message" := JStr("Failed to create post: " + req.body.reason)]
  {
  }

  /** The 400 message is the bare "Validation failed" exactly when no required field is absent or `None`. */
  lemma ValidationMessageBare(data: map<string, Json>)
    ensures ValidationMessage(MissingFields(data)) == "Validation failed" <==>
      !IsMissing(data, "name") && !IsMissing(data, "username") && !IsMissing(data, "body")
  {
    MissingFieldsInOrder(data);
    var missing := MissingFields(data);
    if missing == [] {
      assert "Validation failed" + "" == "Validation failed";
    } else {
      assert |ValidationMessage(missing)| > |"Validation failed"|;
    }
  }

  /** When exactly one required field is absent or `None`, the 400 message names that field alone. */
  lemma ValidationMessageOneMissing(data: map<string, Json>, field: string)
    requires field in RequiredFields
    requires forall other :: other in RequiredFields ==> (IsMissing(data, other) <==> other == field)
    ensures ValidationMessage(MissingFields(data)) == "Validation failed" + ". Missing required fields: " + field
  {
    MissingFieldsInOrder(data);
    assert RequiredFields[0] == "name" && RequiredFields[1] == "username" && RequiredFields[2] == "body";
    assert MissingFields(data) == [field] by {
      assert IsMissing(data, "name") <==> "name" == field;
      assert IsMissing(data, "username") <==> "username" == field;
      assert IsMissing(data, "body") <==> "body" == field;
    }
    assert Join([field], ", ") == field;
  }

  /**
   * Invalid data is refused with 400 and leaves the store alone; the body
   * carries the validation message, and `errors` exactly when some field
   * has an error.
   */
  lemma InvalidRejected(data: map<string, Json>, posts: seq<Post>, now: Timestamp)
    requires StoreInvariant(posts) && !IsValid(data)
    ensures var o := CreateUserPostResult(Request(true, Parsed(data)), posts, now);
      o.posts == posts && o.response.status == 400
      && "data" !in o.response.body
      && o.response.body["message"] == JStr(ValidationMessage(MissingFields(data)))
      && ("errors" in o.response.body <==> FieldErrors(data) != map[])
      && ("errors" in o.response.body ==> o.response.body["errors"] == ErrorsJson(FieldErrors(data)))
  {
    var errors := FieldErrors(data);
    var r := ErrorResponse(ValidationMessage(MissingFields(data)), 400, if errors != map[] then Some(errors) else None);
    assert CreateUserPostResult(Request(true, Parsed(data)), posts, now) == Outcome(r, posts);
  }

  /**
   * Valid data creates exactly one post, appended to the store, and answers
   * 201 with its `to_dict`; the post holds the stripped texts and an id
   * above every stored id.
   */
  lemma ValidCreates(data: map<string, Json>, posts: seq<Post>, now: Timestamp)
    requires StoreInvariant(posts) && IsValid(data)
    ensures HasContent(data, "name") && HasContent(data, "username") && HasContent(data, "body")
    ensures var o := CreateUserPostResult(Request(true, Parsed(data)), posts, now);
      |o.posts| == |posts| + 1 && o.posts[..|posts|] == posts
      && var p := o.posts[|posts|];
      p.name == Strip(data["name"].s, Python) && p.username == Strip(data["username"].s, Python)
      && p.body == Strip(data["body"].s, Python)
      && p.likes == Some(0) && p.comments == Some(0) && p.shares == Some(0)
      && p.id.Some? && (forall i :: 0 <= i < |posts| ==> posts[i].id.value < p.id.value)
      && StoreInvariant(o.posts)
      && o.response.status == 201
      && o.response.body == map["message" := JStr("Post created successfully"), "data" := JObject(ToDict(p))]
  {
    ValidIff(data);
    var p := NewStoredPost(posts, data["name"].s, data["username"].s, data["body"].s, now);
    NewStoredPostFields(posts, data["name"].s, data["username"].s, data["body"].s, now);
    CreatePreservesInvariant(posts, data["name"].s, data["username"].s, data["body"].s, now);
    assert (posts + [p])[..|posts|] == posts;
  }

  /** The three field names joined for the message. */
  lemma JoinAllRequired()
    ensures Join(RequiredFields, ", ") == "name, username, body"
  {
    assert RequiredFields[1..] == ["username", "body"];
    assert RequiredFields[1..][1..] == ["body"];
    assert Join(["username", "body"], ", ") == "username, body";
  }

  /** An empty object is refused naming all three fields, without an `errors` key. */
  lemma EmptyObjectRejected(posts: seq<Post>, now: Timestamp)
    requires StoreInvariant(posts)
    ensures var o := CreateUserPostResult(Request(true, Parsed(map[])), posts, now);
      o.posts == posts && o.response.status == 400
      && o.response.body == map["message" := JStr("Validation failed" + ". Missing required fields: " + "name, username, body")]
  {
    var data: map<string, Json> := map[];
    MissingFieldsInOrder(data);
    assert MissingFields(data) == RequiredFields;
    assert FieldErrors(data) == map[];
    JoinAllRequired();
    var message := ValidationMessage(RequiredFields);
    assert message == "Validation failed" + ". Missing required fields: " + "name, username, body";
    InvalidRejected(data, posts, now);
  }
}
