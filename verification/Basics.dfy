/** Values shared by every module: options, canonical identifiers, and order-preserving filters on sequences. */
module Basics {

  datatype Option<+T> = None | Some(value: T)

  /** An identifier after trimming and case folding. NoId is the blank one; the serial
      number stands for the order in which sorting lists identifiers. */
  datatype Id = NoId | Id(serial: nat)

  /** The elements of s outside doomed, in order. */
  function Without<T(==)>(s: seq<T>, doomed: set<T>): (r: seq<T>)
  {
    if s == [] then []
    else
      var init, last := s[..|s| - 1], s[|s| - 1];
      if last in doomed then Without(init, doomed) else Without(init, doomed) + [last]
  }

  lemma {:induction false} WithoutMembers<T(!new)>(s: seq<T>, doomed: set<T>)
    ensures forall x :: x in Without(s, doomed) <==> x in s && x !in doomed
  {
    if s != [] {
      WithoutMembers(s[..|s| - 1], doomed);
      assert s == s[..|s| - 1] + [s[|s| - 1]];
    }
  }

  lemma WithoutSnoc<T(!new)>(s: seq<T>, x: T, doomed: set<T>)
    ensures Without(s + [x], doomed) == Without(s, doomed) + if x in doomed then [] else [x]
  {
    assert (s + [x])[..|s|] == s;
  }

  lemma {:induction false} WithoutAppend<T(!new)>(s: seq<T>, t: seq<T>, doomed: set<T>)
    ensures Without(s + t, doomed) == Without(s, doomed) + Without(t, doomed)
  {
    if t == [] {
      assert s + t == s;
    } else {
      var init, last := t[..|t| - 1], t[|t| - 1];
      var tail := if last in doomed then [] else [last];
      calc {
        Without(s + t, doomed);
        { assert s + t == (s + init) + [last]; }
        Without((s + init) + [last], doomed);
        { WithoutSnoc(s + init, last, doomed); }
        Without(s + init, doomed) + tail;
        { WithoutAppend(s, init, doomed); }
        (Without(s, doomed) + Without(init, doomed)) + tail;
        Without(s, doomed) + (Without(init, doomed) + tail);
      }
    }
  }

  lemma {:induction false} WithoutNone<T(!new)>(s: seq<T>, doomed: set<T>)
    requires forall x :: x in s ==> x !in doomed
    ensures Without(s, doomed) == s
  {
    if s != [] {
      assert s == s[..|s| - 1] + [s[|s| - 1]];
      WithoutNone(s[..|s| - 1], doomed);
    }
  }

  /** The elements of s in chosen, in order. */
  function Only<T(==)>(s: seq<T>, chosen: set<T>): (r: seq<T>)
  {
    if s == [] then []
    else
      var init, last := s[..|s| - 1], s[|s| - 1];
      if last in chosen then Only(init, chosen) + [last] else Only(init, chosen)
  }

  lemma {:induction false} OnlyMembers<T(!new)>(s: seq<T>, chosen: set<T>)
    ensures forall x :: x in Only(s, chosen) <==> x in s && x in chosen
  {
    if s != [] {
      OnlyMembers(s[..|s| - 1], chosen);
      assert s == s[..|s| - 1] + [s[|s| - 1]];
    }
  }

  /** t is made of elements of s at ascending positions. */
  ghost predicate KeepsOrder<T(!new)>(s: seq<T>, t: seq<T>)
  {
    exists places :: IsPlacing(s, t, places)
  }

  predicate IsPlacing<T(==)>(s: seq<T>, t: seq<T>, places: seq<nat>)
  {
    && |places| == |t|
    && (forall i :: 0 <= i < |t| ==> places[i] < |s| && t[i] == s[places[i]])
    && (forall i, j :: 0 <= i < j < |t| ==> places[i] < places[j])
  }

  lemma PlacingSkips<T(!new)>(s: seq<T>, t: seq<T>, places: seq<nat>, n: nat)
    requires n <= |s| && IsPlacing(s[..n], t, places)
    ensures IsPlacing(s, t, places)
  {
  }

  lemma PlacingTakes<T(!new)>(s: seq<T>, t: seq<T>, places: seq<nat>, n: nat)
    requires n < |s| && IsPlacing(s[..n], t, places)
    ensures IsPlacing(s, t + [s[n]], places + [n])
  {
    assert forall i :: 0 <= i < |t| ==> places[i] < n && t[i] == s[places[i]];
  }

  lemma {:induction false} OnlyKeepsOrder<T(!new)>(s: seq<T>, chosen: set<T>) returns (places: seq<nat>)
    ensures IsPlacing(s, Only(s, chosen), places)
  {
    places := [];
    if s != [] {
      var n := |s| - 1;
      places := OnlyKeepsOrder(s[..n], chosen);
      if s[n] in chosen {
        PlacingTakes(s, Only(s[..n], chosen), places, n);
        places := places + [n];
      } else {
        PlacingSkips(s, Only(s[..n], chosen), places, n);
      }
    }
  }
}
