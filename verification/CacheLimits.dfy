/** Two interleavings that show the cache's promises cannot be stronger. */
module CacheLimits {
  import opened Options
  import opened CacheProtocol
  import opened CacheTheorems

  /** A run of three steps at a time keeps the unfolding shallow. */
  lemma Three(s: State, a: Step, b: Step, c: Step)
    requires Enabled(s, a) && Enabled(Apply(s, a), b) && Enabled(Apply(Apply(s, a), b), c)
    ensures ValidRun(s, [a, b, c]) && Run(s, [a, b, c]) == Apply(Apply(Apply(s, a), b), c)
  {
    var s1 := Apply(s, a);
    var s2 := Apply(s1, b);
    Single(s2, c);
    Prepend(s1, b, [c]);
    assert [b] + [c] == [b, c];
    Prepend(s, a, [b, c]);
    assert [a] + [b, c] == [a, b, c];
  }

  lemma Four(s: State, a: seq<Step>, b: seq<Step>, c: seq<Step>, d: seq<Step>, s1: State, s2: State, s3: State)
    requires ValidRun(s, a) && Run(s, a) == s1 && ValidRun(s1, b) && Run(s1, b) == s2
    requires ValidRun(s2, c) && Run(s2, c) == s3 && ValidRun(s3, d)
    ensures ValidRun(s, a + b + c + d) && Run(s, a + b + c + d) == Run(s3, d)
  {
    Concat(s, a, b);
    Concat(s, a + b, c);
    Concat(s, a + b + c, d);
  }

  // ----- A stale provider after an evict ------------------------------------------------

  /** A `get` takes its cell and starts building; the key is evicted; the build ends and is
      published; a later `get` is served from the warm map. */
  function StaleA(k: string): seq<Step> { [CallGet(k), Probe(0), TakeCell(0)] }
  function StaleB(k: string): seq<Step> { [Enter(0), CallEvict(k), EvictWarm(1)] }
  function StaleC(): seq<Step> { [EvictCell(1), BuildOk(0), Publish(0)] }
  function StaleD(k: string): seq<Step> { [Clear(0), CallGet(k), Probe(2)] }
  function StaleSteps(k: string): seq<Step> { StaleA(k) + StaleB(k) + StaleC() + StaleD(k) }

  function Taken(k: string): State {
    State(4, map[], map[k := 0], [Cell(k, 3, None, 0, None)], [Waiting(k, 0, 3)], map[], [])
  }
  function Evicting(k: string): State {
    State(7, map[], map[k := 0], [Cell(k, 3, Some(0), 4, None)], [Building(k, 0, 3), EvictingCell(k)], map[], [])
  }
  function Republished(k: string): State {
    var v := Built(k, 0, 4);
    State(10, map[k := Warm(v, 3)], map[], [Cell(k, 3, None, 4, Some(v))],
          [Clearing(k, v), Evicted(k)], map[k := 7], [v])
  }

  lemma StaleFirst(k: string)
    ensures ValidRun(Init, StaleA(k)) && Run(Init, StaleA(k)) == Taken(k)
  {
    Three(Init, CallGet(k), Probe(0), TakeCell(0));
  }

  lemma StaleSecond(k: string)
    ensures ValidRun(Taken(k), StaleB(k)) && Run(Taken(k), StaleB(k)) == Evicting(k)
  {
    Three(Taken(k), Enter(0), CallEvict(k), EvictWarm(1));
  }

  lemma StaleThird(k: string)
    ensures ValidRun(Evicting(k), StaleC()) && Run(Evicting(k), StaleC()) == Republished(k)
  {
    Three(Evicting(k), EvictCell(1), BuildOk(0), Publish(0));
    assert Run(Evicting(k), StaleC()).inFlight == map[];
    assert Run(Evicting(k), StaleC()).warm == Republished(k).warm;
  }

  lemma StaleFourth(k: string)
    ensures ValidRun(Republished(k), StaleD(k))
    ensures var s := Run(Republished(k), StaleD(k));
            k in s.evicted && |s.tasks| == 3 && Served(s.tasks[2]) && s.tasks[2].result.value.started < s.evicted[k]
  {
    Three(Republished(k), Clear(0), CallGet(k), Probe(2));
  }

  /** A `get` that starts after the evict completed is served a provider built before it. */
  lemma StaleAfterEvict(k: string)
    ensures ValidRun(Init, StaleSteps(k))
    ensures var s := Run(Init, StaleSteps(k));
            k in s.evicted && |s.tasks| == 3 && Served(s.tasks[2]) && s.tasks[2].result.value.started < s.evicted[k]
  {
    StaleFirst(k);
    StaleSecond(k);
    StaleThird(k);
    StaleFourth(k);
    Four(Init, StaleA(k), StaleB(k), StaleC(), StaleD(k), Taken(k), Evicting(k), Republished(k));
  }

  // ----- Two builds without an evict ----------------------------------------------------

  /** Both tasks probe cold; the second looks up its cell only after the first has published and cleared. */
  function TwiceA(k: string): seq<Step> { [CallGet(k), CallGet(k), Probe(0)] }
  function TwiceB(): seq<Step> { [Probe(1), TakeCell(0), Enter(0)] }
  function TwiceC(): seq<Step> { [BuildOk(0), Publish(0), Clear(0)] }
  function TwiceD(): seq<Step> { [TakeCell(1), Enter(1), BuildOk(1)] }
  function TwiceSteps(k: string): seq<Step> { TwiceA(k) + TwiceB() + TwiceC() + TwiceD() }

  function Probed(k: string): State { State(4, map[], map[], [], [NeedsCell(k), Probing(k)], map[], []) }
  function BothCold(k: string): State {
    State(7, map[], map[k := 0], [Cell(k, 5, Some(0), 6, None)], [Building(k, 0, 5), NeedsCell(k)], map[], [])
  }
  function FirstDone(k: string): State {
    var v := Built(k, 0, 6);
    State(10, map[k := Warm(v, 5)], map[], [Cell(k, 5, None, 6, Some(v))],
          [Returned(k, Some(v)), NeedsCell(k)], map[], [v])
  }

  lemma TwiceFirst(k: string)
    ensures ValidRun(Init, TwiceA(k)) && Run(Init, TwiceA(k)) == Probed(k)
  {
    Three(Init, CallGet(k), CallGet(k), Probe(0));
  }

  lemma TwiceSecond(k: string)
    ensures ValidRun(Probed(k), TwiceB()) && Run(Probed(k), TwiceB()) == BothCold(k)
  {
    Three(Probed(k), Probe(1), TakeCell(0), Enter(0));
  }

  lemma TwiceThird(k: string)
    ensures ValidRun(BothCold(k), TwiceC()) && Run(BothCold(k), TwiceC()) == FirstDone(k)
  {
    Three(BothCold(k), BuildOk(0), Publish(0), Clear(0));
    assert Run(BothCold(k), TwiceC()).inFlight == map[];
  }

  lemma TwiceFourth(k: string)
    ensures ValidRun(FirstDone(k), TwiceD())
    ensures var s := Run(FirstDone(k), TwiceD());
            |s.builds| == 2 && s.builds[0].key == k && s.builds[1].key == k && s.builds[0] != s.builds[1]
            && s.evicted == map[]
  {
    Three(FirstDone(k), TakeCell(1), Enter(1), BuildOk(1));
  }

  /** A publish between a probe and its cell lookup: the builder succeeds twice for one key, with no evict. */
  lemma BuiltTwiceWithoutEvict(k: string)
    ensures ValidRun(Init, TwiceSteps(k))
    ensures var s := Run(Init, TwiceSteps(k));
            |s.builds| == 2 && s.builds[0].key == k && s.builds[1].key == k && s.builds[0] != s.builds[1]
            && s.evicted == map[]
  {
    TwiceFirst(k);
    TwiceSecond(k);
    TwiceThird(k);
    TwiceFourth(k);
    Four(Init, TwiceA(k), TwiceB(), TwiceC(), TwiceD(), Probed(k), BothCold(k), FirstDone(k));
  }
}
