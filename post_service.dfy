/**
 * The in-memory post store: a list seeded with three posts, read by copy,
 * appended to by `create_post`, which gives each new post the largest id
 * so far plus one.
 */
module PostService {
  import opened Wrappers
  import opened Text
  import opened PostModel

  /** The seeded store. */
  const SeedPosts: seq<Post> := [
    Post("Elon Musk", "elonmusk",
      "Perhaps our purpose is to make the mind of a sentient sun",
      Some(961), Some(386), Some(123), Some(1), Some(Timestamp("2024-01-15T10:30:00"))),
    Post("John Bobby", "john_bobby",
      "Today I learned about RESTful API design principles. Clean code and proper error handling make all the difference.",
      Some(67), Some(12), Some(0), Some(2), Some(Timestamp("2024-01-17T09:15:00"))),
    Post("Sam Altman", "sama",
      "Just finished reading an amazing book on software architecture! Highly recommend it.",
      Some(944), Some(123), Some(70), Some(3), Some(Timestamp("2024-01-16T14:20:00")))
  ]

  predicate IdsAssigned(posts: seq<Post>) {
    forall i :: 0 <= i < |posts| ==> posts[i].id.Some?
  }

  /** `[p.id for p in posts]`. */
  function Ids(posts: seq<Post>): (ids: seq<int>)
    requires IdsAssigned(posts)
    ensures |ids| == |posts|
    ensures forall i :: 0 <= i < |posts| ==> ids[i] == posts[i].id.value
  {
    seq(|posts|, i requires 0 <= i < |posts| => posts[i].id.value)
  }

  /** The store's invariant: every post has an id, and ids increase along the list. */
  predicate StoreInvariant(posts: seq<Post>) {
    IdsAssigned(posts)
    && forall i, j :: 0 <= i < j < |posts| ==> posts[i].id.value < posts[j].id.value
  }

  /** `max(xs, default=d)`. */
  function MaxOr(xs: seq<int>, d: int): (m: int)
    ensures xs == [] ==> m == d
    ensures xs != [] ==> m in xs
    ensures forall x :: x in xs ==> x <= m
  {
    if xs == [] then d
    else if |xs| == 1 then xs[0]
    else
      var rest := MaxOr(xs[1..], d);
      assert forall x :: x in xs ==> x == xs[0] || x in xs[1..];
      if xs[0] >= rest then xs[0] else rest
  }

  /** The id `create_post` allocates: `max(ids, default=0) + 1`. */
  function NextId(posts: seq<Post>): int
    requires IdsAssigned(posts)
  {
    MaxOr(Ids(posts), 0) + 1
  }

  /** The post `create_post(name, username, body)` stores when the clock reads `now`. */
  function NewStoredPost(posts: seq<Post>, name: string, username: string, body: string, now: Timestamp): Post
    requires IdsAssigned(posts)
  {
    Post(Strip(name, Python), Strip(username, Python), Strip(body, Python), id := Some(NextId(posts)), createdAt := Some(now))
  }

  /** The new id is 1 on an empty store and otherwise exceeds every stored id. */
  lemma NextIdFresh(posts: seq<Post>)
    requires IdsAssigned(posts)
    ensures posts == [] ==> NextId(posts) == 1
    ensures forall i :: 0 <= i < |posts| ==> posts[i].id.value < NextId(posts)
  {
    var ids := Ids(posts);
    forall i | 0 <= i < |posts| ensures posts[i].id.value < NextId(posts) {
      assert ids[i] in ids;
    }
  }

  /** The stored post carries the stripped texts, zero counters, the fresh id and the clock time. */
  lemma NewStoredPostFields(posts: seq<Post>, name: string, username: string, body: string, now: Timestamp)
    requires IdsAssigned(posts)
    ensures var p := NewStoredPost(posts, name, username, body, now);
      p.name == Strip(name, Python) && p.username == Strip(username, Python) && p.body == Strip(body, Python)
      && p.likes == Some(0) && p.comments == Some(0) && p.shares == Some(0)
      && p.id == Some(NextId(posts)) && p.createdAt == Some(now)
      && forall i :: 0 <= i < |posts| ==> posts[i].id.value < p.id.value
  {
    NextIdFresh(posts);
  }

  /** Appending the created post keeps ids assigned and increasing, hence pairwise distinct. */
  lemma CreatePreservesInvariant(posts: seq<Post>, name: string, username: string, body: string, now: Timestamp)
    requires StoreInvariant(posts)
    ensures StoreInvariant(posts + [NewStoredPost(posts, name, username, body, now)])
  {
    var p := NewStoredPost(posts, name, username, body, now);
    NextIdFresh(posts);
    AppendLargerId(posts, p);
  }

  /** Appending a post whose id exceeds every stored id keeps the invariant. */
  lemma AppendLargerId(posts: seq<Post>, p: Post)
    requires StoreInvariant(posts)
    requires p.id.Some? && forall i :: 0 <= i < |posts| ==> posts[i].id.value < p.id.value
    ensures StoreInvariant(posts + [p])
  {
    var q := posts + [p];
    forall i | 0 <= i < |q| ensures q[i].id.Some? {
      if i < |posts| { assert q[i] == posts[i]; }
    }
    forall i, j | 0 <= i < j < |q| ensures q[i].id.value < q[j].id.value {
      assert q[i] == posts[i];
      if j < |posts| {
        assert q[j] == posts[j];
      }
    }
  }

  /** Under the invariant no two stored posts share an id. */
  lemma InvariantIdsDistinct(posts: seq<Post>)
    requires StoreInvariant(posts)
    ensures forall i, j :: 0 <= i < |posts| && 0 <= j < |posts| && i != j ==> posts[i].id != posts[j].id
  {
    forall i, j | 0 <= i < |posts| && 0 <= j < |posts| && i != j ensures posts[i].id != posts[j].id {
      if i < j { assert posts[i].id.value < posts[j].id.value; }
      else { assert posts[j].id.value < posts[i].id.value; }
    }
  }

  /** The seeded store holds ids 1, 2, 3, keeps the invariant, and its first new post gets id 4. */
  lemma SeedNextIdIsFour()
    ensures StoreInvariant(SeedPosts)
    ensures Ids(SeedPosts) == [1, 2, 3]
    ensures NextId(SeedPosts) == 4
  {
    var ids := Ids(SeedPosts);
    assert ids == [1, 2, 3];
    assert ids[1..] == [2, 3] && ids[1..][1..] == [3];
  }

  /** `_posts_storage` with the two functions that use it. */
  class PostStore {
    var posts: seq<Post>

    ghost predicate Valid()
      reads this
    {
      StoreInvariant(posts)
    }

    /** The module-level list as it stands at import time. */
    constructor ()
      ensures posts == SeedPosts && Valid()
    {
      posts := SeedPosts;
      SeedNextIdIsFour();
    }

    /** `get_all_posts`: a copy with the same posts in the same order; the store is untouched. */
    method GetAllPosts() returns (r: seq<Post>)
      ensures r == posts
    {
      r := posts;
    }

    /** `create_post`: a post with the next id and the stripped texts, appended at the end. */
    method CreatePost(name: string, username: string, body: string, now: Timestamp) returns (p: Post)
      requires Valid()
      modifies this
      ensures Valid()
      ensures p == NewStoredPost(old(posts), name, username, body, now)
      ensures posts == old(posts) + [p]
    {
      var newId := MaxOr(Ids(posts), 0) + 1;
      assert newId == NextId(posts);
      p := Post(Strip(name, Python), Strip(username, Python), Strip(body, Python), id := Some(newId), createdAt := Some(now));
      CreatePreservesInvariant(posts, name, username, body, now);
      posts := posts + [p];
    }
  }
}
