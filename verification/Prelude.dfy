/** Vocabulary shared by every component of the model. */
module Prelude {

  datatype Option<+T> = None | Some(value: T)

  ghost predicate Ascending(s: seq<nat>) {
    forall i, j :: 0 <= i < j < |s| ==> s[i] < s[j]
  }

  ghost predicate Distinct<T>(s: seq<T>) {
    forall i, j :: 0 <= i < j < |s| ==> s[i] != s[j]
  }

  function Elements<T>(s: seq<T>): set<T> {
    set x | x in s
  }

  /** The lower case of an ASCII letter; every other character as it is. */
  function Fold(c: char): char {
    if 'A' <= c <= 'Z' then (c as int + 32) as char else c
  }

  function Min(a: nat, b: nat): nat {
    if a <= b then a else b
  }

  lemma {:induction false} FindLeast(s: set<nat>) returns (m: nat)
    requires s != {}
    ensures m in s
    ensures forall x :: x in s ==> m <= x
    decreases |s|
  {
    m :| m in s;
    var rest := s - {m};
    if rest != {} {
      var n := FindLeast(rest);
      var first := m;
      m := if first <= n then first else n;
      forall x | x in s ensures m <= x {
        assert x == first || x in rest;
      }
    }
  }

  lemma HasLeast(s: set<nat>)
    requires s != {}
    ensures exists m :: m in s && forall x :: x in s ==> m <= x
  {
    var m := FindLeast(s);
  }

  function Least(s: set<nat>): (m: nat)
    requires s != {}
    ensures m in s && forall x :: x in s ==> m <= x
  {
    HasLeast(s);
    var m :| m in s && forall x :: x in s ==> m <= x;
    m
  }

  /** The members of a finite set in ascending order: Python's `sorted`. */
  function Sorted(s: set<nat>): (r: seq<nat>)
    ensures Ascending(r)
    ensures forall x :: x in r <==> x in s
    ensures |r| == |s|
  {
    if s == {} then
      []
    else
      var m := Least(s);
      var rest := Sorted(s - {m});
      assert forall i :: 0 <= i < |rest| ==> rest[i] in rest;
      [m] + rest
  }

  /** In an ascending sequence, membership in a prefix is a comparison with the prefix's last element. */
  lemma PrefixIsBound(s: seq<nat>, n: nat)
    requires Ascending(s) && n <= |s|
    ensures 0 < n ==> forall x :: x in s[..n] <==> x in s && x <= s[n - 1]
    ensures 0 < n ==> forall x :: x in s[n..] <==> x in s && s[n - 1] < x
  {
    if 0 < n {
      forall x | x in s
        ensures x in s[..n] <==> x <= s[n - 1]
        ensures x in s[n..] <==> s[n - 1] < x
      {
        var i :| 0 <= i < |s| && s[i] == x;
        if i < n {
          assert s[..n][i] == x;
        } else {
          assert s[n..][i - n] == x;
        }
      }
    }
  }
}
