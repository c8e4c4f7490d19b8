/**
 * The "Suggestions For You" widget: a fixed list of users and the set of
 * ids the viewer follows, toggled by `handleFollow`; local state only.
 */
module Suggestions {

  datatype User = User(id: string, name: string, username: string)

  /** The suggested users the widget lists, in display order. */
  const DummyUsers: seq<User> := [
    User("1", "John", "johncena"),
    User("2", "Sarah", "sarahw"),
    User("3", "Mike Chen", "mikec")
  ]

  /** The updater: a copy of `prev` with `userId` removed if present and added otherwise. */
  function ToggleMember(prev: set<string>, userId: string): (next: set<string>)
    ensures userId in next <==> userId !in prev
    ensures forall other :: other != userId ==> (other in next <==> other in prev)
  {
    if userId in prev then prev - {userId} else prev + {userId}
  }

  /** Toggling the same id twice restores the set. */
  lemma ToggleMemberTwice(prev: set<string>, userId: string)
    ensures ToggleMember(ToggleMember(prev, userId), userId) == prev
  {
  }

  /** The button text: "Following" exactly for followed ids, "Follow" for the others. */
  function FollowLabel(following: set<string>, userId: string): (text: string)
    ensures text == "Following" <==> userId in following
    ensures text == "Follow" <==> userId !in following
  {
    if userId in following then "Following" else "Follow"
  }

  /** The listed users have distinct ids, the key each row is rendered and followed by. */
  lemma DummyUserIdsDistinct()
    ensures forall i, j :: 0 <= i < j < |DummyUsers| ==> DummyUsers[i].id != DummyUsers[j].id
  {
  }

  /** The follow set after clicking the first `k` listed users once each, starting from nobody followed. */
  function FollowFirst(k: nat): set<string>
    requires k <= |DummyUsers|
  {
    if k == 0 then {} else ToggleMember(FollowFirst(k - 1), DummyUsers[k - 1].id)
  }

  /**
   * Following the listed users one after another from nobody followed
   * shows "Following" on exactly the users followed so far, and "Follow" on
   * the rest.
   */
  lemma {:induction false} FollowInTurnLabels(k: nat)
    requires k <= |DummyUsers|
    ensures forall i :: 0 <= i < |DummyUsers| ==>
      FollowLabel(FollowFirst(k), DummyUsers[i].id) == if i < k then "Following" else "Follow"
  {
    if k > 0 {
      FollowInTurnLabels(k - 1);
      DummyUserIdsDistinct();
    }
  }

  class FollowState {
    var following: set<string>

    /** Nobody is followed at first. */
    constructor ()
      ensures following == {}
    {
      following := {};
    }

    /** `handleFollow`: the set is replaced by the toggled copy; the previous value is a value and stays as it was. */
    method HandleFollow(userId: string)
      modifies this
      ensures following == ToggleMember(old(following), userId)
    {
      var newSet := following;
      if userId in newSet {
        newSet := newSet - {userId};
      } else {
        newSet := newSet + {userId};
      }
      following := newSet;
    }
  }
}
