/** The proxy index allocator (wgit.go, generateProxyIndexLocked).

    Random numbers are an arbitrary finite stream of draws. A loop that has not returned when the
    stream is used up yields `None`; returning on a prefix of a stream is returning on the stream. */
module Alloc {
  import opened Bytes

  /** What the table needs of a new key: not the reserved 0, and not taken. */
  predicate Free<P>(m: map<Index, P>, x: Index) {
    x != 0 && x !in m
  }

  /** The candidate the loop starts with. */
  function Start(origin: Index, debug: bool): Index {
    if debug then 0 else origin
  }

  function FirstNonzero(draws: seq<Index>): Option<Index> {
    if draws == [] then None
    else if draws[0] != 0 then Some(draws[0])
    else FirstNonzero(draws[1..])
  }

  function FirstFree<P>(m: map<Index, P>, draws: seq<Index>): Option<Index> {
    if draws == [] then None
    else if Free(m, draws[0]) then Some(draws[0])
    else FirstFree(m, draws[1..])
  }

  /** What the loop as written returns. */
  function Written<P>(m: map<Index, P>, origin: Index, debug: bool, draws: seq<Index>): Option<Index> {
    var start := Start(origin, debug);
    if start in m then None
    else if start != 0 then Some(start)
    else FirstNonzero(draws)
  }

  /** What a loop that looks the candidate up again on every turn returns. */
  function Retesting<P>(m: map<Index, P>, origin: Index, debug: bool, draws: seq<Index>): Option<Index> {
    var start := Start(origin, debug);
    if Free(m, start) then Some(start) else FirstFree(m, draws)
  }

  /** The loop as written: membership is read once, before the first turn. */
  method GenerateProxyIndex<P>(m: map<Index, P>, origin: Index, debug: bool, draws: seq<Index>)
    returns (r: Option<Index>)
    ensures r == Written(m, origin, debug, draws)
  {
    var proxy := 0;
    if !debug {
      proxy := origin;
    }
    var ok := proxy in m;
    var i := 0;
    while ok || proxy == 0
      invariant 0 <= i <= |draws|
      invariant ok == (Start(origin, debug) in m)
      invariant !ok && Start(origin, debug) != 0 ==> proxy == Start(origin, debug)
      invariant !ok && Start(origin, debug) == 0 ==>
        FirstNonzero(draws) == if proxy != 0 then Some(proxy) else FirstNonzero(draws[i..])
      decreases |draws| - i
    {
      if i == |draws| {
        return None;
      }
      proxy := draws[i];
      i := i + 1;
    }
    r := Some(proxy);
  }

  /** The same loop with the lookup moved into the condition. */
  method GenerateProxyIndexRetesting<P>(m: map<Index, P>, origin: Index, debug: bool, draws: seq<Index>)
    returns (r: Option<Index>)
    ensures r == Retesting(m, origin, debug, draws)
  {
    var proxy := Start(origin, debug);
    var i := 0;
    while proxy in m || proxy == 0
      invariant 0 <= i <= |draws|
      invariant i == 0 ==> proxy == Start(origin, debug)
      invariant i > 0 ==> !Free(m, Start(origin, debug))
      invariant i > 0 ==> FirstFree(m, draws) == if Free(m, proxy) then Some(proxy) else FirstFree(m, draws[i..])
      decreases |draws| - i
    {
      if i == |draws| {
        return None;
      }
      proxy := draws[i];
      i := i + 1;
    }
    r := Some(proxy);
  }

  lemma {:induction false} FirstFreeFound<P>(m: map<Index, P>, draws: seq<Index>)
    ensures FirstFree(m, draws).Some? <==> exists i :: 0 <= i < |draws| && Free(m, draws[i])
    ensures FirstFree(m, draws).Some? ==> Free(m, FirstFree(m, draws).value)
  {
    if draws != [] && !Free(m, draws[0]) {
      FirstFreeFound(m, draws[1..]);
      if i :| 0 <= i < |draws| && Free(m, draws[i]) {
        assert draws[1..][i - 1] == draws[i];
      }
    }
  }

  lemma {:induction false} FirstNonzeroFound(draws: seq<Index>)
    ensures FirstNonzero(draws).Some? ==> FirstNonzero(draws).value != 0
  {
    if draws != [] && draws[0] == 0 {
      FirstNonzeroFound(draws[1..]);
    }
  }

  /** `x` is the first draw that is not passed over. */
  ghost predicate FirstDrawn(draws: seq<Index>, x: Index, i: nat) {
    i < |draws| && draws[i] == x != 0 && forall j :: 0 <= j < i ==> draws[j] == 0
  }

  lemma {:induction false} FirstNonzeroExactly(draws: seq<Index>, x: Index)
    ensures FirstNonzero(draws) == Some(x) <==> exists i: nat :: FirstDrawn(draws, x, i)
  {
    if draws != [] {
      if draws[0] == 0 {
        FirstNonzeroExactly(draws[1..], x);
        if i: nat :| FirstDrawn(draws[1..], x, i) {
          assert FirstDrawn(draws, x, i + 1);
        }
        if i: nat :| FirstDrawn(draws, x, i) {
          assert FirstDrawn(draws[1..], x, i - 1);
        }
      } else if draws[0] == x {
        assert FirstDrawn(draws, x, 0);
      }
    }
  }

  /** What the written loop returns, outright: in normal mode the origin if it is free; from 0, which debug mode always
      starts from, the first nonzero draw, taken or not. */
  lemma WrittenExactly<P>(m: map<Index, P>, origin: Index, debug: bool, draws: seq<Index>, x: Index)
    ensures Written(m, origin, debug, draws) == Some(x) <==>
            if !debug && origin != 0 then x == origin && origin !in m
            else 0 !in m && exists i: nat :: FirstDrawn(draws, x, i)
  {
    FirstNonzeroExactly(draws, x);
  }

  /** An occupied candidate keeps the written loop turning for ever. */
  lemma OccupiedNeverReturns<P>(m: map<Index, P>, origin: Index, debug: bool)
    requires Start(origin, debug) in m
    ensures forall draws :: Written(m, origin, debug, draws) == None
  {
  }

  /** The written loop delivers a free index exactly when its first candidate is unoccupied and either
      nonzero or followed by a stream whose first nonzero number happens to be unoccupied. */
  lemma WrittenMeetsSpec<P>(m: map<Index, P>, origin: Index, debug: bool, draws: seq<Index>)
    ensures (Written(m, origin, debug, draws).Some? && Free(m, Written(m, origin, debug, draws).value)) <==>
            && Start(origin, debug) !in m
            && (Start(origin, debug) != 0 || (FirstNonzero(draws).Some? && FirstNonzero(draws).value !in m))
  {
    FirstNonzeroFound(draws);
  }

  /** Read off the origin and the map: nothing the written loop can ever return is taken exactly if the loop does not
      return, or its candidate is nonzero, or the map is empty. */
  lemma WrittenSafeExactly<P>(m: map<Index, P>, origin: Index, debug: bool)
    ensures (forall draws :: Written(m, origin, debug, draws).Some? ==>
             Free(m, Written(m, origin, debug, draws).value)) <==>
            Start(origin, debug) in m || Start(origin, debug) != 0 || m == map[]
  {
    if Start(origin, debug) !in m && Start(origin, debug) == 0 {
      if m == map[] {
        forall draws
          ensures Written(m, origin, debug, draws).Some? ==> Free(m, Written(m, origin, debug, draws).value)
        {
          FirstNonzeroFound(draws);
        }
      } else {
        var k :| k in m;
        assert FirstNonzero([k]) == Some(k);
        assert Written(m, origin, debug, [k]) == Some(k);
      }
    }
  }

  /** Whatever the draws, the re-testing loop only returns free indices, and returns as soon as one is offered. */
  lemma RetestingMeetsSpec<P>(m: map<Index, P>, origin: Index, debug: bool, draws: seq<Index>)
    ensures Retesting(m, origin, debug, draws).Some? ==> Free(m, Retesting(m, origin, debug, draws).value)
    ensures Retesting(m, origin, debug, draws).Some? <==>
            Free(m, Start(origin, debug)) || exists i :: 0 <= i < |draws| && Free(m, draws[i])
  {
    FirstFreeFound(m, draws);
  }

  /** Where the written loop delivers, both loops deliver the same index. */
  lemma RetestingExtendsWritten<P>(m: map<Index, P>, origin: Index, debug: bool, draws: seq<Index>)
    requires Written(m, origin, debug, draws).Some? && Free(m, Written(m, origin, debug, draws).value)
    requires 0 !in m
    ensures Retesting(m, origin, debug, draws) == Written(m, origin, debug, draws)
  {
    if Start(origin, debug) == 0 {
      FirstNonzeroIsFirstFree(m, draws);
    }
  }

  lemma {:induction false} FirstNonzeroIsFirstFree<P>(m: map<Index, P>, draws: seq<Index>)
    requires FirstNonzero(draws).Some? && FirstNonzero(draws).value !in m
    ensures FirstFree(m, draws) == FirstNonzero(draws)
  {
    if draws[0] == 0 {
      FirstNonzeroIsFirstFree(m, draws[1..]);
    }
  }

  lemma {:induction false} AllTaken<P>(m: map<Index, P>, n: nat)
    requires 1 <= n <= 0x1_0000_0000
    requires forall i :: 1 <= i < n ==> i in m
    ensures |m| >= n - 1
  {
    if n > 1 {
      var rest := m - {n - 1};
      AllTaken(rest, n - 1);
      assert m.Keys == rest.Keys + {n - 1};
      assert |m.Keys| == |rest.Keys| + 1;
    }
  }

  /** As long as the map is not full there is a free index. */
  lemma FreeExists<P>(m: map<Index, P>)
    requires |m| < 0x1_0000_0000 - 1
    ensures exists x: Index :: Free(m, x)
  {
    if forall x: Index :: !Free(m, x) {
      forall i | 1 <= i < 0x1_0000_0000
        ensures i in m
      {
        assert !Free(m, i);
      }
      AllTaken(m, 0x1_0000_0000);
    }
  }
}
