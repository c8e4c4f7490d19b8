/** The `Post` record of the backend and its dictionary projection `to_dict`. */
module PostModel {
  import opened Wrappers
  import opened JsonData

  /** A creation time, kept as the text `isoformat()` renders it. */
  datatype Timestamp = Timestamp(iso: string)

  /** The dataclass, with its defaults: counters 0, no id, no creation time. */
  datatype Post = Post(
    name: string,
    username: string,
    body: string,
    likes: Option<int> := Some(0),
    comments: Option<int> := Some(0),
    shares: Option<int> := Some(0),
    id: Option<int> := None,
    createdAt: Option<Timestamp> := None)

  /** The keys of `to_dict`. */
  const PostDictKeys: set<string> :=
    {"id", "name", "username", "body", "likes", "comments", "shares", "created_at"}

  /** `value if value else 0` for an optional integer counter. */
  function CounterValue(c: Option<int>): (n: int)
    ensures n == 0 <==> c == None || c == Some(0)
    ensures c.Some? && c.value != 0 ==> n == c.value
  {
    if c.Some? && c.value != 0 then c.value else 0
  }

  function OptionalInt(v: Option<int>): Json {
    if v.Some? then JNum(v.value) else JNull
  }

  /** `to_dict`: the eight keys, falsy counters shown as 0, a missing time as `None`. */
  function ToDict(p: Post): (d: map<string, Json>)
    ensures d.Keys == PostDictKeys
    ensures d["id"] == OptionalInt(p.id)
    ensures d["name"] == JStr(p.name) && d["username"] == JStr(p.username) && d["body"] == JStr(p.body)
    ensures d["likes"] == JNum(CounterValue(p.likes))
    ensures d["comments"] == JNum(CounterValue(p.comments))
    ensures d["shares"] == JNum(CounterValue(p.shares))
    ensures d["created_at"] == if p.createdAt.Some? then JStr(p.createdAt.value.iso) else JNull
  {
    map[
      "id" := OptionalInt(p.id),
      "name" := JStr(p.name),
      "username" := JStr(p.username),
      "body" := JStr(p.body),
      "likes" := JNum(CounterValue(p.likes)),
      "comments" := JNum(CounterValue(p.comments)),
      "shares" := JNum(CounterValue(p.shares)),
      "created_at" := if p.createdAt.Some? then JStr(p.createdAt.value.iso) else JNull
    ]
  }

  /** A post built from its three texts alone has zero counters, no id and no time. */
  lemma DefaultPost(name: string, username: string, body: string)
    ensures var p := Post(name, username, body);
      p.likes == Some(0) && p.comments == Some(0) && p.shares == Some(0)
      && p.id == None && p.createdAt == None
    ensures var d := ToDict(Post(name, username, body));
      d["likes"] == JNum(0) && d["comments"] == JNum(0) && d["shares"] == JNum(0)
      && d["id"] == JNull && d["created_at"] == JNull
  {
  }
}
