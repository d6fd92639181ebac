/** Shared vocabulary: optional values, duplicate-free listings of finite sets, and
    the row-id rule of the database. */
module Prelude {
  datatype Option<+T> = None | Some(value: T)

  ghost predicate NoDuplicates<T>(s: seq<T>) {
    forall i, j :: 0 <= i < j < |s| ==> s[i] != s[j]
  }

  /** `s` enumerates exactly the members of `members`, each once, in some order. */
  ghost predicate Lists<T>(s: seq<T>, members: set<T>) {
    NoDuplicates(s) && (forall x <- s :: x in members) && (forall x <- members :: x in s)
  }

  lemma {:induction false} ListsSize<T>(s: seq<T>, members: set<T>)
    requires Lists(s, members)
    ensures |s| == |members|
  {
    if s == [] {
      assert members == {};
    } else {
      var rest := members - {s[0]};
      forall x | x in rest ensures x in s[1..] {
        var k :| 0 <= k < |s| && s[k] == x;
        assert s[1..][k - 1] == x;
      }
      ListsSize(s[1..], rest);
    }
  }

  lemma ListsJoin<T>(a: seq<T>, here: set<T>, b: seq<T>, there: set<T>)
    requires Lists(a, here) && Lists(b, there) && here !! there
    ensures Lists(a + b, here + there)
  {
    forall i, j | 0 <= i < j < |a + b| ensures (a + b)[i] != (a + b)[j] {
      if i < |a| <= j {
        assert a[i] in here && b[j - |a|] in there;
      }
    }
  }

  lemma SubsetSize<T>(small: set<T>, big: set<T>)
    requires small <= big
    ensures |small| <= |big|
  {
    assert big == small + (big - small);
  }

  lemma {:induction false} LargestExists(keys: set<nat>)
    requires keys != {}
    ensures exists m :: m in keys && forall k :: k in keys ==> k <= m
  {
    var x :| x in keys;
    if keys == {x} {
    } else {
      LargestExists(keys - {x});
      var m :| m in keys - {x} && forall k :: k in keys - {x} ==> k <= m;
      assert forall k :: k in keys ==> k in keys - {x} || k == x;
      var best := if x > m then x else m;
      assert best in keys && forall k :: k in keys ==> k <= best;
    }
  }

  /** The id SQLite gives the next row of an INTEGER PRIMARY KEY table without AUTOINCREMENT:
      one past the largest in use, so ids are reused once the largest rows are gone. */
  ghost function NextId(keys: set<nat>): (id: nat)
    ensures id !in keys
  {
    if keys == {} then 1
    else
      LargestExists(keys);
      var m :| m in keys && forall k :: k in keys ==> k <= m;
      m + 1
  }

  /** Computes NextId by scanning the table. */
  method FreshId(keys: set<nat>) returns (id: nat)
    ensures id == NextId(keys)
  {
    id := 1;
    if keys == {} {
      return;
    }
    var todo := keys;
    var largest :| largest in keys;
    while todo != {}
      invariant todo <= keys && largest in keys
      invariant forall k :: k in keys && k !in todo ==> k <= largest
      decreases todo
    {
      var k :| k in todo;
      if k > largest {
        largest := k;
      }
      todo := todo - {k};
    }
    id := largest + 1;
  }
}
