/** The in-memory participant directory (`UserManager`): a table from user id
    to presence record, kept in JavaScript `Map` insertion order, and a
    round-robin color counter over a fixed palette. */
module Users {
  import opened JsValues
  import opened Seqs
  import opened InsertionOrder

  /** A participant record; `joinedAt` is the clock reading at `addUser`. */
  datatype User = User(id: string, username: string, color: string, profilePic: Option<string>, joinedAt: nat)

  /** The `profilePic` field of an update: left `undefined` (keep the old
      value) or given, possibly as null. */
  datatype PicField = Absent | Given(pic: Option<string>)

  const PALETTE: seq<string> := [
    "#FF6B6B", "#4ECDC4", "#45B7D1", "#FFA07A", "#98D8C8",
    "#F7DC6F", "#BB8FCE", "#85C1E2", "#F8B88B", "#AED6F1"
  ]

  /** The color handed to the user added after `count` earlier additions. */
  function ColorFor(count: nat): (c: string)
    ensures c in PALETTE
  {
    PALETTE[count % |PALETTE|]
  }

  lemma PaletteDistinct()
    ensures NoDup(PALETTE)
  {
  }

  lemma ResiduesDiffer(i: nat, j: nat)
    requires i < j < i + 10
    ensures i % 10 != j % 10
  {
    var q, r := i / 10, i % 10;
    assert i == 10 * q + r;
    if r + (j - i) < 10 {
      assert j == 10 * q + (r + (j - i));
    } else {
      assert j == 10 * (q + 1) + (r + (j - i) - 10);
    }
  }

  /** Any ten consecutive additions receive ten different colors, and the
      eleventh reuses the first one's color. */
  lemma ColorsCycleEvenly(first: nat)
    ensures forall i, j :: first <= i < j < first + |PALETTE| ==> ColorFor(i) != ColorFor(j)
    ensures ColorFor(first + |PALETTE|) == ColorFor(first)
  {
    assert |PALETTE| == 10;
    forall i, j | first <= i < j < first + |PALETTE|
      ensures ColorFor(i) != ColorFor(j)
    {
      ResiduesDiffer(i, j);
      PaletteDistinct();
      assert ColorFor(i) == PALETTE[i % 10] && ColorFor(j) == PALETTE[j % 10];
    }
    assert (first + 10) % 10 == first % 10;
  }

  /** The record `updateUser` stores: the existing one with the name replaced
      only by a truthy name and the picture replaced only when given. */
  function Merge(existing: User, username: Option<string>, profilePic: PicField): (u: User)
    ensures u.id == existing.id && u.color == existing.color && u.joinedAt == existing.joinedAt
    ensures u.username == (if Truthy(username) then username.value else existing.username)
    ensures u.profilePic == (if profilePic.Given? then profilePic.pic else existing.profilePic)
  {
    existing.(username := Or(username, existing.username),
              profilePic := if profilePic.Absent? then existing.profilePic else profilePic.pic)
  }

  class UserManager {
    var users: map<string, User>
    var order: seq<string>
    var colorIndex: nat

    /** `order` lists the table's keys in insertion order, and every record
        is filed under its own id. */
    ghost predicate Valid()
      reads this
    {
      Tracks(order, users) && forall id :: id in users ==> users[id].id == id
    }

    constructor ()
      ensures Valid()
      ensures users == map[] && order == [] && colorIndex == 0
    {
      users := map[];
      order := [];
      colorIndex := 0;
    }

    /** `addUser`: stores a fresh record under `id`, overwriting any previous
        one in place; the color comes from the counter alone. */
    method AddUser(id: string, username: string, profilePic: Option<string>, now: nat) returns (u: User)
      requires Valid()
      modifies this
      ensures Valid()
      ensures u == User(id, username, ColorFor(old(colorIndex)), OrNull(profilePic), now)
      ensures colorIndex == old(colorIndex) + 1
      ensures users == old(users)[id := u]
      ensures order == WithKey(old(order), id)
      ensures |users| == if id in old(users) then old(|users|) else old(|users|) + 1
    {
      var color := PALETTE[colorIndex % |PALETTE|];
      colorIndex := colorIndex + 1;
      u := User(id, username, color, OrNull(profilePic), now);
      TracksWithKey(order, users, id, u);
      users := users[id := u];
      order := WithKey(order, id);
    }

    /** `removeUser`: deletes the record and tells whether there was one. */
    method RemoveUser(id: string) returns (existed: bool)
      requires Valid()
      modifies this
      ensures Valid()
      ensures existed == (id in old(users))
      ensures users == old(users) - {id}
      ensures order == WithoutKey(old(order), id)
      ensures colorIndex == old(colorIndex)
    {
      existed := id in users;
      TracksWithoutKey(order, users, id);
      users := users - {id};
      order := WithoutKey(order, id);
    }

    /** `getUser`: the record filed under `id`, if any. */
    function GetUser(id: string): (r: Option<User>)
      reads this
      requires Valid()
      ensures r.Some? <==> id in users
      ensures r.Some? ==> r.value == users[id] && r.value.id == id
    {
      if id in users then Some(users[id]) else None
    }

    /** `updateUser`: a partial update of a present record; an absent id
        changes nothing and yields null. */
    method UpdateUser(id: string, username: Option<string>, profilePic: PicField) returns (r: Option<User>)
      requires Valid()
      modifies this
      ensures Valid()
      ensures order == old(order) && colorIndex == old(colorIndex)
      ensures id !in old(users) ==> r.None? && users == old(users)
      ensures id in old(users) ==>
        && r == Some(Merge(old(users)[id], username, profilePic))
        && users == old(users)[id := r.value]
    {
      if id !in users {
        return None;
      }
      var next := Merge(users[id], username, profilePic);
      users := users[id := next];
      r := Some(next);
    }

    /** `getAllUsers`: every record once, in insertion order of the ids. */
    function GetAllUsers(): (r: seq<User>)
      reads this
      requires Valid()
      ensures |r| == |order|
      ensures forall i {:trigger r[i]} :: 0 <= i < |r| ==> r[i] == users[order[i]]
    {
      ValuesOf(order, users)
    }

    /** The listing holds a record for an id exactly when the table does, and
        never the same id twice. */
    lemma AllUsersListsEachOnce(id: string)
      requires Valid()
      ensures id in users <==> exists i :: 0 <= i < |GetAllUsers()| && GetAllUsers()[i].id == id
      ensures forall i, j :: 0 <= i < j < |GetAllUsers()| ==> GetAllUsers()[i].id != GetAllUsers()[j].id
    {
      var r := GetAllUsers();
      if id in users {
        TracksKeys(order, users);
        var i :| 0 <= i < |order| && order[i] == id;
        assert r[i].id == id;
      }
      forall i, j | 0 <= i < j < |r|
        ensures r[i].id != r[j].id
      {
        assert r[i].id == order[i] && r[j].id == order[j];
      }
    }

    /** `getUserCount`: the size of the table, which is also the length of
        the listing. */
    function GetUserCount(): (n: nat)
      reads this
      requires Valid()
      ensures n == |users| && n == |GetAllUsers()|
    {
      |users|
    }
  }
}
