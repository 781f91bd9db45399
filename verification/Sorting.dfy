/** Identifier sets listed in ascending order, as the engine lists map keys. */
module Sorting {
  import opened Basics

  ghost predicate Ascends(s: seq<Id>)
  {
    && (forall i :: 0 <= i < |s| ==> s[i] != NoId)
    && forall i, j :: 0 <= i < j < |s| ==> s[i].Id? && s[j].Id? && s[i].serial < s[j].serial
  }

  ghost predicate IsGreatest(m: Id, s: set<Id>)
  {
    m in s && m.Id? && forall x :: x in s ==> x.Id? && x.serial <= m.serial
  }

  lemma GreatestExists(s: set<Id>)
    requires s != {} && NoId !in s
    ensures exists m :: IsGreatest(m, s)
    decreases s
  {
    var x :| x in s;
    var rest := s - {x};
    if rest == {} {
      assert s == {x};
      assert IsGreatest(x, s);
    } else {
      GreatestExists(rest);
      var m :| IsGreatest(m, rest);
      assert s == rest + {x};
      assert IsGreatest(if x.serial > m.serial then x else m, s);
    }
  }

  /** The non-blank members of s in ascending order. */
  ghost function Ascending(s: set<Id>): seq<Id>
    decreases s
  {
    if NoId in s then Ascending(s - {NoId})
    else if s == {} then []
    else
      GreatestExists(s);
      var m :| IsGreatest(m, s);
      Ascending(s - {m}) + [m]
  }

  lemma {:induction false} AscendingListsAll(s: set<Id>)
    ensures Ascends(Ascending(s))
    ensures forall x :: x in Ascending(s) <==> x in s && x != NoId
    decreases s
  {
    if NoId in s {
      AscendingListsAll(s - {NoId});
    } else if s != {} {
      GreatestExists(s);
      var m :| IsGreatest(m, s) && Ascending(s) == Ascending(s - {m}) + [m];
      AscendingListsAll(s - {m});
      var init := Ascending(s - {m});
      forall i | 0 <= i < |init| ensures init[i].Id? && init[i].serial < m.serial {
        assert init[i] in init;
      }
    }
  }

  lemma SomeMember(s: seq<Id>)
    requires s != []
    ensures exists x :: x in s
  {
    assert s[0] in s;
  }

  /** An ascending list is determined by its members. */
  lemma {:induction false} AscendingUnique(s: seq<Id>, t: seq<Id>)
    requires Ascends(s) && Ascends(t)
    requires forall x :: x in s <==> x in t
    ensures s == t
    decreases |s|
  {
    if s != [] {
      assert s[0] in t;
      var x, y := s[|s| - 1], t[|t| - 1];
      assert x in t && y in s;
      assert x == y;
      var s', t' := s[..|s| - 1], t[..|t| - 1];
      forall z ensures z in s' <==> z in t' {
        assert z in s' ==> z in s;
        assert z in t' ==> z in t;
        assert s == s' + [x] && t == t' + [y];
      }
      AscendingUnique(s', t');
    } else if t != [] {
      SomeMember(t);
    }
  }

  method SortedSetKeys(input: set<Id>) returns (out: seq<Id>)
    ensures out == Ascending(input)
  {
    out := [];
    var left := input;
    while left != {}
      invariant left <= input
      invariant Ascends(out)
      invariant forall x :: x in out <==> x in input - left && x != NoId
      decreases left
    {
      var k :| k in left;
      left := left - {k};
      if k != NoId {
        out := Insert(out, k);
      }
    }
    AscendingListsAll(input);
    AscendingUnique(out, Ascending(input));
  }

  lemma InsertedAscends(s: seq<Id>, k: Id, i: nat)
    requires Ascends(s) && k != NoId && k !in s && i <= |s|
    requires forall j :: 0 <= j < i ==> s[j].serial < k.serial
    requires i < |s| ==> s[i].serial >= k.serial
    ensures Ascends(s[..i] + [k] + s[i..])
  {
    var t := s[..i] + [k] + s[i..];
    forall j | i <= j < |s| ensures k.serial < s[j].serial {
      assert s[i] in s && s[i] != k;
    }
    assert forall j :: 0 <= j < |t| ==> t[j] == if j < i then s[j] else if j == i then k else s[j - 1];
    forall a, b | 0 <= a < b < |t| ensures t[a].Id? && t[b].Id? && t[a].serial < t[b].serial {
    }
  }

  lemma InsertedMembers(s: seq<Id>, k: Id, i: nat)
    requires i <= |s|
    ensures forall x :: x in s[..i] + [k] + s[i..] <==> x in s || x == k
  {
    assert s == s[..i] + s[i..];
  }

  method Insert(s: seq<Id>, k: Id) returns (t: seq<Id>)
    requires Ascends(s) && k != NoId && k !in s
    ensures Ascends(t)
    ensures forall x :: x in t <==> x in s || x == k
  {
    var i := 0;
    while i < |s| && s[i].serial < k.serial
      invariant 0 <= i <= |s|
      invariant forall j :: 0 <= j < i ==> s[j].serial < k.serial
    {
      i := i + 1;
    }
    t := s[..i] + [k] + s[i..];
    InsertedAscends(s, k, i);
    InsertedMembers(s, k, i);
  }
}
