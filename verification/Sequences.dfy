// Facts about sequences that the other modules share.

module Sequences {

  lemma Left<T>(s: seq<T>)
    ensures [] + s == s
  {
  }

  lemma Right<T>(s: seq<T>)
    ensures s + [] == s
  {
  }

  lemma Regroup<T>(a: seq<T>, b: seq<T>, c: seq<T>)
    ensures a + b + c == a + (b + c)
  {
  }

  lemma Regroup4<T>(a: seq<T>, b: seq<T>, c: seq<T>, d: seq<T>)
    ensures a + b + c + d == a + (b + c + d)
  {
  }

  lemma Middle<T>(a: seq<T>, b: seq<T>, c: seq<T>, d: seq<T>)
    ensures a + (b + c) + d == a + b + (c + d)
  {
  }

  lemma MoveOver<T>(done: seq<T>, x: seq<T>, rest: seq<T>, all: seq<T>)
    requires done + (x + rest) == all
    ensures (done + x) + rest == all
  {
  }

  lemma DropOfSum<T>(a: seq<T>, b: seq<T>, n: nat)
    requires n <= |a|
    ensures (a + b)[n..] == a[n..] + b
  {
  }

  lemma WholeSlice<T>(s: seq<T>, k: nat)
    requires k <= |s|
    ensures s[..k] + s[k..] == s && s[..|s|] == s && s[|s|..] == []
  {
  }

  lemma Ends<T>(a: seq<T>, b: seq<T>)
    requires a != [] && b != []
    ensures (a + b)[0] == a[0] && (a + b)[|a + b| - 1] == b[|b| - 1]
  {
  }

  lemma CutNothing<T>(s: seq<T>)
    ensures s[..0] + s[0..] + [] == s
  {
  }
}
