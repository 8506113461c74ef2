/** The list of players waiting for a match: a queue of names, mirrored by
    the list on screen.  A name joins at the end; removing a name takes out
    its first occurrence and keeps everyone else in joining order. */
module Players {

  /** `LinkedList.remove(Object)` on names: the first occurrence of `x`
      goes, and nothing happens when there is none. */
  function RemoveFirst(s: seq<string>, x: string): seq<string>
  {
    if |s| == 0 then []
    else if s[0] == x then s[1..]
    else [s[0]] + RemoveFirst(s[1..], x)
  }

  /** The position of the first occurrence of `x`. */
  function FirstIndex(s: seq<string>, x: string): (i: nat)
    requires x in s
    ensures i < |s| && s[i] == x && x !in s[..i]
  {
    if s[0] == x then 0
    else
      assert x in s[1..] by {
        var k :| 0 <= k < |s| && s[k] == x;
        assert s[1..][k - 1] == x;
      }
      var j := FirstIndex(s[1..], x);
      assert s[..j + 1] == [s[0]] + s[1..][..j];
      j + 1
  }

  /** Removing cuts out exactly the first occurrence, and leaves a list
      without the name as it is. */
  lemma {:induction false} RemoveFirstAt(s: seq<string>, x: string)
    ensures x in s ==> RemoveFirst(s, x) == s[..FirstIndex(s, x)] + s[FirstIndex(s, x) + 1..]
    ensures x !in s ==> RemoveFirst(s, x) == s
  {
    if |s| > 0 {
      RemoveFirstAt(s[1..], x);
      if s[0] != x {
        if x in s {
          assert x in s[1..] by {
            var k :| 0 <= k < |s| && s[k] == x;
            assert s[1..][k - 1] == x;
          }
          var j := FirstIndex(s[1..], x);
          assert FirstIndex(s, x) == j + 1;
          assert s[..j + 1] == [s[0]] + s[1..][..j];
          assert s[j + 2..] == s[1..][j + 1..];
        } else {
          assert x !in s[1..];
          assert s == [s[0]] + s[1..];
        }
      }
    }
  }

  /** Removing takes one copy of the name out of the list and leaves the
      count of every other name as it was. */
  lemma {:induction false} RemoveFirstCount(s: seq<string>, x: string)
    ensures multiset(RemoveFirst(s, x)) == multiset(s) - multiset{x}
    ensures |RemoveFirst(s, x)| == if x in s then |s| - 1 else |s|
  {
    if |s| > 0 {
      var t := s[1..];
      assert s == [s[0]] + t;
      RemoveFirstCount(t, x);
      if s[0] == x {
        assert multiset(s) == multiset{x} + multiset(t);
      } else {
        assert x in s <==> x in t;
        var m := multiset(RemoveFirst(t, x));
        assert multiset(RemoveFirst(s, x)) == multiset{s[0]} + m;
        assert multiset(s) == multiset{s[0]} + multiset(t);
      }
    }
  }

  /** A name that joins and then leaves restores the list, provided it was
      not in it already. */
  lemma RemoveAfterAdd(s: seq<string>, x: string)
    requires x !in s
    ensures RemoveFirst(s + [x], x) == s
  {
    RemoveFirstAt(s + [x], x);
    assert FirstIndex(s + [x], x) == |s|;
    assert (s + [x])[..|s|] == s;
  }

  /** The placeholder names the list starts with. */
  function Placeholder(i: nat): (r: string)
    requires i < 10
    ensures |r| == 13 && r[..12] == "Dingletronic" && r[12] as int == '0' as int + i
  {
    "Dingletronic" + [('0' as int + i) as char]
  }

  /** The first n placeholder names, in order. */
  function Placeholders(n: nat): seq<string>
    requires n <= 10
  {
    seq(n, i requires 0 <= i < n => Placeholder(i))
  }

  /** The ten placeholders are ten different names. */
  lemma PlaceholdersDistinct(i: nat, j: nat)
    requires i < 10 && j < 10 && i != j
    ensures Placeholder(i) != Placeholder(j)
  {
    assert Placeholder(i)[12] != Placeholder(j)[12];
  }

  /** `PlayerList`: the queue of names and the list shown on screen. */
  class PlayerList {
    var users: seq<string>
    var shown: seq<string>

    /** The screen shows the queue. */
    predicate Valid()
      reads this
    {
      shown == users
    }

    /** The list starts with the ten placeholder names. */
    constructor ()
      ensures Valid() && users == Placeholders(10)
    {
      users, shown := [], [];
      new;
      for i := 0 to 10
        invariant Valid() && users == Placeholders(i)
      {
        AddUserToList(Placeholder(i));
        assert users == Placeholders(i + 1);
      }
    }

    /** `addUserToList`: the name joins at the end of the queue. */
    method AddUserToList(username: string)
      requires Valid()
      modifies this
      ensures Valid() && users == old(users) + [username]
    {
      users := users + [username];
      shown := shown + [username];
    }

    /** `removeUserFromList`: the first occurrence of the name leaves. */
    method RemoveUserFromList(username: string)
      requires Valid()
      modifies this
      ensures Valid() && users == RemoveFirst(old(users), username)
    {
      users := RemoveFirst(users, username);
      shown := RemoveFirst(shown, username);
    }
  }
}
