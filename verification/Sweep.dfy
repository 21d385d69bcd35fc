/** Sweeping a list backwards with swap-removal (src/listeners.rs:82-93, src/handler/mod.rs:579-611): each element is
  * taken out by moving the last one into its place, and what is to be kept of it is put back at the end. */
module Sweep {
  /** The list without element `n`, whose place the last element takes. */
  function SwapRemove<T>(s: seq<T>, n: nat): (r: seq<T>)
    requires n < |s|
    ensures |r| == |s| - 1
  {
    s[n := s[|s| - 1]][..|s| - 1]
  }

  lemma SwapRemoveKeeps<T>(s: seq<T>, n: nat)
    requires n < |s|
    ensures SwapRemove(s, n)[..n] == s[..n]
    ensures multiset(SwapRemove(s, n)[n..]) == multiset(s[n + 1..])
  {
    var last := |s| - 1;
    var t := SwapRemove(s, n);
    if n == last {
      assert t[n..] == [] && s[n + 1..] == [];
    } else {
      assert t[n..] == [s[last]] + s[n + 1..last];
      assert s[n + 1..] == s[n + 1..last] + [s[last]];
    }
  }

  /** One step of the sweep: elements before `n` stay where they are, and `back` joins those already visited. */
  lemma SweepStep<T>(s: seq<T>, n: nat, back: seq<T>)
    requires n < |s|
    ensures var t := SwapRemove(s, n) + back;
            && n <= |t| && t[..n] == s[..n]
            && multiset(t[n..]) == multiset(s[n + 1..]) + multiset(back)
            && (back == [] ==> t == SwapRemove(s, n))
  {
    var r := SwapRemove(s, n);
    SwapRemoveKeeps(s, n);
    assert (r + back)[n..] == r[n..] + back;
    assert (r + back)[..n] == r[..n];
  }

  /** The whole sweep, from element `n - 1` down: `back` says what an element leaves behind. */
  function SweepDown<T>(s: seq<T>, n: nat, back: T -> seq<T>): seq<T>
    requires n <= |s|
    decreases n
  {
    if n == 0 then s
    else SweepStep(s, n - 1, back(s[n - 1])); SweepDown(SwapRemove(s, n - 1) + back(s[n - 1]), n - 1, back)
  }

  /** What all elements leave behind, last one first. */
  function LeftBehind<T>(s: seq<T>, back: T -> seq<T>): seq<T> {
    if s == [] then [] else LeftBehind(s[1..], back) + back(s[0])
  }

  lemma {:induction false} LeftBehindLast<T>(s: seq<T>, x: T, back: T -> seq<T>)
    ensures multiset(LeftBehind(s + [x], back)) == multiset(LeftBehind(s, back)) + multiset(back(x))
  {
    if s == [] {
      assert LeftBehind([x], back) == [] + back(x);
      assert s + [x] == [x];
    } else {
      assert (s + [x])[1..] == s[1..] + [x];
      LeftBehindLast(s[1..], x, back);
    }
  }

  /** The sweep visits every element exactly once: it ends with what all of them leave behind, in some order. */
  lemma {:induction false} SweepVisitsEachOnce<T>(s: seq<T>, n: nat, back: T -> seq<T>)
    requires n <= |s|
    ensures multiset(SweepDown(s, n, back)) == multiset(LeftBehind(s[..n], back)) + multiset(s[n..])
    decreases n
  {
    if n == 0 {
      assert s[0..] == s;
    } else {
      hide SwapRemove, LeftBehind;
      var x, t := s[n - 1], SwapRemove(s, n - 1) + back(s[n - 1]);
      assert t[..n - 1] == s[..n - 1] && multiset(t[n - 1..]) == multiset(s[n..]) + multiset(back(x)) by {
        SweepStep(s, n - 1, back(x));
      }
      SweepVisitsEachOnce(t, n - 1, back);
      assert SweepDown(s, n, back) == SweepDown(t, n - 1, back);
      assert s[..n] == s[..n - 1] + [x];
      LeftBehindLast(s[..n - 1], x, back);
    }
  }
}
