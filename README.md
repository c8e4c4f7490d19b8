# Social feed: post validation, post store, routes and client-side state

This project models the behaviour of a small social-feed application. Its
backend is a Flask service with an in-memory post store; its frontend is a
single Next.js page. The model covers:

- **The request validator** (`validate_post_data`). A JSON object must hold
  `name`, `username` and `body`. Absent or `None` fields are listed as
  missing, in that fixed order. A present field that is not a string, or
  whose stripped text is empty, gets one error message.
- **The post record** (`Post`, `to_dict`). The dataclass defaults are
  counters 0, no id and no creation time. The dictionary has exactly eight
  keys, and falsy counters are shown as 0.
- **The post store** (`_posts_storage`, `get_all_posts`, `create_post`). It
  is seeded with posts 1, 2 and 3. A read returns a copy. A create gives
  the post the largest id so far plus one, strips the three texts and
  appends the post at the end. The store's invariant is that every post has
  an id and ids increase along the list, so no two posts share an id.
- **The response envelopes and the `/posts` routes**. GET answers 200 with
  every post through `to_dict`. POST answers 400 for a non-JSON request or
  invalid data, 201 with the created post, and 500 when reading the JSON
  body raises.
- **The feed page controller** (`Home` in `page.tsx`). It holds the compose
  buffer and the feed, runs a fetch on mount and handles `handlePost`.
- **The like toggle** of a post card, seeded by `parseInt(post.likes) || 0`.
- **The follow set** of the suggestions widget, and its button label.

Each source file that changes state step by step is a Dafny class or
method, proved against a pure function:

- `PostService.PostStore` is the store.
- `Validators.ValidatePostData` keeps the source's loop and its keyed
  assignments.
- `Routes.CreateUserPost` keeps the early returns.
- `Page.Home`, `PostCard.CardState` and `Suggestions.FollowState` are the
  three React components' state.

What the source promises is proved as lemmas about those pure functions.

Modules: `Wrappers` (Option), `JsonData` (JSON values), `Text` (strip/trim
and join), `Validators`, `PostModel`, `PostService`, `Responses`, `Routes`,
`FrontendTypes`, `Page`, `PostCard`, `Suggestions`, and `Integration`.
`Integration` follows a request the page sends through the route. The
page trims with JavaScript's whitespace set and the backend strips with
Python's, so `Text` takes the runtime as a parameter. The stored body is
the Python strip of the sent text. A text made only of Python-only
whitespace passes the page and is refused by the backend.

Inputs from outside the model are parameters:

- the clock (`now` for `datetime.now()`);
- what `request.get_json()` yields;
- the outcome of the page's fetch;
- the store's answer to a create request, as a function from request to
  outcome.

## Model

| member | source | states |
|---|---|---|
| `Validators.ValidatePostData` | backend/utils/validators.py:13-42 | The loop's missing list equals `MissingFields`. The keyed assignments give exactly `FieldErrors`. The result is valid exactly when both are empty. |
| `Validators.FieldErrors` | backend/utils/validators.py:25-38 | Error keys are only among name, username and body. There is one message per key. |
| `Validators.MissingFieldsInOrder` | backend/utils/validators.py:13-22 | The missing list is name, username, body, in that order, each kept exactly when it is absent or `None`. |
| `Validators.MissingFieldsMembership` | backend/utils/validators.py:18-22 | A name is listed as missing iff it is a required field that is absent or `None`. |
| `Validators.MissingFieldsDistinct` | backend/utils/validators.py:18-22 | No field is listed twice. |
| `Validators.FieldErrorCases` | backend/utils/validators.py:25-38 | An absent field has no error. A non-string field gets "<Field> must be a string". A whitespace-only string gets "<Field> cannot be empty". A string with content has no error. |
| `Validators.NullFieldIsMissingAndNotString` | backend/utils/validators.py:18-36 | A field mapped to `None` is both listed as missing and reported as not a string. |
| `Validators.BlankStringIsNotMissing` | backend/utils/validators.py:18-38 | A whitespace-only string is reported as empty but is not listed as missing. |
| `Validators.ValidIff` | backend/utils/validators.py:17-42 | Valid exactly when all three fields are strings with non-whitespace content. This covers both directions, including the `(True, [], {})` case. |
| `Validators.OnlyBodyBlank` | backend/utils/validators.py:25-38 | If name and username have content and body is a whitespace-only string, the only error is "Body cannot be empty", and the data is invalid. |
| `Validators.OnlyRequiredFieldsMatter` | backend/utils/validators.py:13-38 | Two objects that agree on the three required fields get the same missing list and the same errors. |
| `PostModel.CounterValue` | backend/models/post.py:22-24 | A counter shows as 0 exactly when it is `None` or 0. Otherwise its value passes through unchanged. |
| `PostModel.ToDict` | backend/models/post.py:16-26 | The keys are exactly id, name, username, body, likes, comments, shares and created_at. id and the texts are copied. Counters go through `CounterValue`. A missing time becomes `None`. |
| `PostModel.DefaultPost` | backend/models/post.py:5-14 | A post built from its texts alone has counters 0, no id and no time. Its dictionary shows 0, 0, 0, `None`, `None`. |
| `PostService.MaxOr` | backend/services/post_service.py:66 | `max(xs, default=d)`: `d` for an empty list, otherwise an element of `xs` that is at least every element. |
| `PostService.NextIdFresh` | backend/services/post_service.py:66 | The new id is 1 on an empty store and exceeds every stored id. |
| `PostService.NewStoredPostFields` | backend/services/post_service.py:66-74 | The created post has the stripped name, username and body, counters 0, the fresh id and the clock time. |
| `PostService.AppendLargerId` | backend/services/post_service.py:76 | Appending a post whose id exceeds all stored ids keeps the store invariant. |
| `PostService.CreatePreservesInvariant` | backend/services/post_service.py:66-76 | One create keeps every id assigned and ids strictly increasing. `PostStore.Valid()` carries the invariant from one create to the next. |
| `PostService.InvariantIdsDistinct` | backend/services/post_service.py:66-76 | Under the invariant, no two stored posts share an id. |
| `PostService.SeedNextIdIsFour` | backend/services/post_service.py:5-36 | The seeded store has ids 1, 2, 3 and satisfies the invariant. The first create gets id 4. |
| `PostService.PostStore.constructor` | backend/services/post_service.py:5-36 | The store starts as the three seeded posts and is valid. |
| `PostService.PostStore.GetAllPosts` | backend/services/post_service.py:50 | Returns the stored posts, same content and order, and changes nothing. |
| `PostService.PostStore.CreatePost` | backend/services/post_service.py:52-77 | Appends exactly the created post at the end, returns that same post, and keeps the invariant. |
| `Responses.SuccessResponse` | backend/utils/response.py:4-20 | The body has exactly the keys message and data. The status is returned as given. |
| `Responses.ErrorResponse` | backend/utils/response.py:22-39 | The body always has message and never data. `errors` is present iff a non-empty dictionary is given. The status is returned as given. |
| `Responses.ResponseDefaults` | backend/utils/response.py:4-39 | Omitted arguments give status 200 and message "Success" with null data, or status 400 and "An error occurred" with the message key only. |
| `Routes.PostsJson` | backend/routes/posts.py:15 | The list has one `to_dict` per stored post, same length and order. |
| `Routes.GetPosts` | backend/routes/posts.py:11-20 | GET answers as `GetPostsResponse` of the current store. |
| `Routes.GetPostsLists` | backend/routes/posts.py:12-20 | GET answers 200 with message and data only. Data is the stored posts through `to_dict`, in store order. |
| `Routes.CreateUserPost` | backend/routes/posts.py:27-70 | POST gives the response and new store of `CreateUserPostResult` and keeps the store invariant. |
| `Routes.NonJsonRejected` | backend/routes/posts.py:31-35 | A non-JSON request gets 400 with only the message "Content-Type must be application/json". The store is unchanged. |
| `Routes.UnparsableFails` | backend/routes/posts.py:66-70 | An exception while reading the JSON body gets 500 with "Failed to create post: " and its text. The store is unchanged. |
| `Routes.ValidationMessageBare` | backend/routes/posts.py:43-45 | For the validator's missing list, the message is the bare "Validation failed" exactly when no required field is absent or `None`. |
| `Routes.ValidationMessageOneMissing` | backend/routes/posts.py:43-45 | When exactly one required field is absent or `None`, the message is "Validation failed. Missing required fields: " followed by that field alone. |
| `Routes.InvalidRejected` | backend/routes/posts.py:42-51 | Invalid data gets 400 with no data and the validation message. `errors` is present iff some field has an error. The store is unchanged. |
| `Routes.ValidCreates` | backend/routes/posts.py:53-64 | Valid data appends exactly one post with the stripped texts, zero counters and an id above all stored ids. The answer is 201 with its `to_dict`. |
| `Routes.EmptyObjectRejected` | backend/routes/posts.py:40-51 | `{}` gets 400 naming name, username, body, with no `errors` key. |
| `Integration.ComposerRequestOutcome` | frontend/app/page.tsx:33-46 | For every request the page sends, there are two cases. If the trimmed text has content by Python's measure, one post is stored with the fixed author and the Python strip of the text. That body equals the sent text iff the text has no Python whitespace at either end. Otherwise the answer is 400, nothing is stored, and the only field error is "Body cannot be empty". |
| `Integration.ComposerRequestCreated` | backend/services/post_service.py:66-76 | A page request with Python content is answered 201 and appends one post with the fixed author and the Python strip of the text. |
| `Integration.ComposerRequestRefused` | backend/utils/validators.py:35-38 | A page request whose text is all Python whitespace is answered 400 with only the body error, and stores nothing. |
| `Integration.SeparatorStrippedOnlyByBackend` | backend/services/post_service.py:70-72 | The buffer "hi" + U+001C is sent unchanged by the page and stored as "hi". |
| `Integration.NextLineRejectedByBackend` | backend/utils/validators.py:37-38 | The buffer U+0085 passes the page's empty check and is sent as is. The backend refuses it with 400 and stores nothing. |
| `Text.StripEnds` | backend/services/post_service.py:70-72 | A stripped text neither starts nor ends with whitespace of that runtime. |
| `Text.StripFixedIff` | backend/services/post_service.py:70-72 | A text is its own strip iff it is empty or neither starts nor ends with whitespace. |
| `Text.StripSegment` | backend/services/post_service.py:70-72 | A stripped text is the segment of the input right after its leading whitespace. |
| `Text.StripDropsOnlySpace` | backend/services/post_service.py:70-72 | Everything strip removes is whitespace. |
| `Text.StripEmptyIff` | backend/utils/validators.py:27-28 | A text's strip is empty exactly when the text is all whitespace. |
| `Text.StripIdempotent` | frontend/app/page.tsx:33 | Stripping twice with the same runtime's whitespace set is stripping once. |
| `Page.Home.constructor` | frontend/app/page.tsx:16-17 | The buffer and the feed start empty. |
| `Page.Home.SetPostText` | frontend/app/components/PostInput.tsx:16-18 | The composer's change handler sets the buffer and leaves the feed. |
| `Page.Home.FetchPosts` | frontend/app/page.tsx:19-27 | A successful fetch replaces the feed with the returned posts in order. A failure leaves the feed and shows "Error fetching posts: " and the message. |
| `Page.Mount` | frontend/app/page.tsx:19-30 | After mount, a failed fetch leaves the feed empty. A successful one shows exactly the returned posts. |
| `Page.Home.HandlePost` | frontend/app/page.tsx:32-53 | The buffer is always cleared. Whitespace-only text sends nothing, keeps the feed and reports an error. Otherwise one request carries the fixed name, the fixed username and the trimmed text. Success prepends the returned post. Failure keeps the feed. |
| `PostCard.ParseIntDecimal` | frontend/app/components/PostCard.tsx:13 | `parseInt` reads back the decimal text of any natural number. |
| `PostCard.ParseIntPlusDecimal` | frontend/app/components/PostCard.tsx:13 | ... and the same after a plus sign. |
| `PostCard.ParseIntMinusDecimal` | frontend/app/components/PostCard.tsx:13 | ... and negates it after a minus sign. |
| `PostCard.SeedFromDecimal` | frontend/app/components/PostCard.tsx:13 | A post whose likes text is the decimal n seeds the count with n, including 0. |
| `PostCard.SeedNonNumeric` | frontend/app/components/PostCard.tsx:13 | Likes text that is empty or does not start with whitespace, a sign or a digit seeds the count with 0. |
| `PostCard.LikeTwoBecomesThree` | frontend/app/components/PostCard.tsx:13-21 | Likes "2" shows 2. One click makes it liked with 3. |
| `PostCard.ToggleTwice` | frontend/app/components/PostCard.tsx:15-22 | Two toggles restore the exact state. |
| `PostCard.ToggleTimesParity` | frontend/app/components/PostCard.tsx:15-22 | From unliked with count n, after k toggles it is liked iff k is odd, and the count is n + k mod 2. |
| `PostCard.CardState.constructor` | frontend/app/components/PostCard.tsx:12-13 | A card starts unliked with the seeded count. |
| `PostCard.CardState.HandleLike` | frontend/app/components/PostCard.tsx:15-22 | Unliked becomes liked with count + 1, and liked becomes unliked with count - 1. The count stays the seed plus one while liked. The post is a constant of the card. |
| `Suggestions.ToggleMember` | frontend/app/components/SuggestionsForYou.tsx:22-30 | The toggled id's membership flips. Every other id keeps its membership. |
| `Suggestions.ToggleMemberTwice` | frontend/app/components/SuggestionsForYou.tsx:23-29 | Toggling the same id twice restores the set. |
| `Suggestions.FollowLabel` | frontend/app/components/SuggestionsForYou.tsx:61 | The label is "Following" iff the id is followed, and "Follow" otherwise. |
| `Suggestions.DummyUserIdsDistinct` | frontend/app/components/SuggestionsForYou.tsx:12-16 | The three listed users have distinct ids. |
| `Suggestions.FollowInTurnLabels` | frontend/app/components/SuggestionsForYou.tsx:21-61 | Start from nobody followed and follow the first k listed users. The first k users then show "Following" and the rest show "Follow". |
| `Suggestions.FollowState.constructor` | frontend/app/components/SuggestionsForYou.tsx:19 | The follow set starts empty. |
| `Suggestions.FollowState.HandleFollow` | frontend/app/components/SuggestionsForYou.tsx:21-31 | The set is replaced by the toggled copy. In Dafny a set is a value, so the previous one is never mutated. |

Behaviour of the code worth noting:

- `handlePost` clears the buffer first and only then checks the trimmed
  text, so a refused or failed post loses the typed text.
- A failed fetch leaves the feed as it was. On mount that is the empty
  feed.
- The backend sends counters as JSON integers. `parseInt` converts its
  argument to text first, so `FeedPost` keeps the text form.
- The page's `trim` and the backend's `strip` use different whitespace
  sets. A text can pass the page's empty check and still be refused by
  the backend, and the stored body can be shorter than the text sent
  (`Integration.SeparatorStrippedOnlyByBackend`,
  `Integration.NextLineRejectedByBackend`).

## Left out

- Transport: axios calls, Flask request parsing, `jsonify` serialisation, CORS, and the blueprint wiring in backend/app.py. They are plumbing around the modelled handlers.
- backend/utils/error_handler.py: a fixed table of handlers given to Flask, whose dispatch is not visible.
- Toasts: modelled only as the `Notice` values the page's methods return.
- Rendering: JSX markup, styling and icons. Header.tsx and TrendingTopics.tsx are static markup and constant data.
- PostInput.tsx: only its text binding is modelled. Its disabled check `postText.trim().length === 0` is UI gating, and `handlePost` re-checks it.
- frontend/app/types.ts is not part of this model. `FrontendTypes.FeedPost` assumes the fields the components read, with counters as text.
- Timestamps: `datetime.now()` is the parameter `now`. A `Timestamp` carries its `isoformat()` text and is not computed.
- The commented-out PostgreSQL code in backend/services/post_service.py is not executed.
- Overlapping in-flight creates: `Page.Home.HandlePost` settles its request within one call, so no other event interleaves.
- Flask's threaded request handling and any concurrent access to the store. backend/app.py:24 runs the development server, which serves requests on threads. Two concurrent POSTs can both read the same largest id at backend/services/post_service.py:66 before either appends at :76, and both posts then get the same id. `PostService.InvariantIdsDistinct` and `PostService.CreatePreservesInvariant` assume one request at a time.
- Whitespace: `Text.IsSpace` lists each runtime's whitespace code points. Strings are sequences of Unicode scalar values, so JavaScript's UTF-16 code units and lone surrogates are not modelled. No whitespace character is a surrogate.
- `PostCard.ParseIntDecimal`: `parseInt` is modelled for leading whitespace, a sign and decimal digits only. The `0x` hexadecimal prefix and loss of precision past 2^53 are not modelled.
- JSON numbers are integers (`JNum(int)`). For the validator every number is just "not a string", which is all it checks.
- Routes.CreateUserPost: a top-level JSON body that is not an object (array, string, number, null) is not modelled. For such bodies Python's `in` and indexing give list- and substring-dependent outcomes.
- Routes.CreateUserPost: the 500 branch is modelled only for an exception raised by `request.get_json()`. Nothing after validation can raise in the model.
- Routes.GetPosts: the 500 branch at backend/routes/posts.py:21-25 is not modelled. Reading the in-memory store and `to_dict` cannot raise.
- PostCard.CardState.constructor: the seed is taken once per card. Later changes to the post's props do not reseed it, as with React's `useState`.
