/** A call of a cached function that no other call disturbs runs to its end: what it may then do, step by step. */
module SoloCall {
  import opened Options
  import opened Pickle
  import opened FirstWrite

  /** Some steps lead from one state to the other. */
  ghost predicate Reaches(c: Config, s: State, s': State, n: nat)
    decreases n
  {
    if n == 0 then s' == s else exists mid, step :: NextBy(c, s, mid, step) && Reaches(c, mid, s', n - 1)
  }

  lemma {:induction false} Then(c: Config, s: State, mid: State, step: Step, s': State, n: nat)
    requires NextBy(c, s, mid, step) && Reaches(c, mid, s', n)
    ensures Reaches(c, s, s', n + 1)
  {}

  /** No call is under way and the latch is free. */
  ghost predicate AtRest(s: State) {
    s.owner == None && s.depth == 0 && forall t :: t in s.stacks ==> s.stacks[t] == []
  }

  /** The state with this stack for the one thread at work. */
  function With(s: State, t: nat, k: seq<Frame>): State {
    s.(stacks := s.stacks[t := k])
  }

  function Inside(s: State, t: nat, k: seq<Frame>): State {
    s.(stacks := s.stacks[t := k], owner := Some(t), depth := 1)
  }

  /** One thread's stack of one call, whatever the latch. */
  lemma {:induction false} OneFrame(s: State, t: nat, f: Frame, g: Frame)
    ensures Stack(With(s, t, [f]), t) == [f] && AtTop(With(s, t, [f]), t, f)
    ensures WithTop(With(s, t, [f]), t, g) == With(s, t, [g])
  {
    assert [f][..0] + [g] == [g];
    assert s.stacks[t := [f]][t := [g]] == s.stacks[t := [g]];
  }

  /** The call ends, and the latch is free. */
  lemma {:induction false} FrameEnds(s: State, t: nat, f: Frame)
    requires if f.Held() then s.owner == Some(t) && s.depth == 1 else s.owner == None && s.depth == 0
    ensures Popped(With(s, t, [f]), t) == With(s, t, []).(owner := None, depth := 0)
  {
    OneFrame(s, t, f, f);
    assert [f][..0] == [];
    assert s.stacks[t := [f]][t := []] == s.stacks[t := []];
  }

  lemma {:induction false} Calls(s: State, t: nat)
    requires AtRest(s)
    ensures Call(s, With(s, t, [Serve(First, false)]), t)
  {
    assert Stack(s, t) == [] && [] + [Serve(First, false)] == [Serve(First, false)];
  }

  /** What is under the key is served at once, and stays. */
  lemma {:induction false} ServesStored(c: Config, s: State, t: nat, v: PyObj)
    requires AtRest(s) && s.store.Some? && c.dec(s.store.value) == Some(v)
    ensures Reaches(c, s, With(s, t, []).(returned := s.returned + {v}), 2)
  {
    var f := Serve(First, false);
    var called, done := With(s, t, [f]), With(s, t, []).(returned := s.returned + {v});
    Calls(s, t);
    OneFrame(s, t, f, f);
    FrameEnds(s, t, f);
    hide Popped, Call, With, Stack, AtRest;
    assert Look(c, called, done, t, First);
    Then(c, called, done, LookStep(t, First), done, 0);
    Then(c, s, called, CallStep(t), done, 1);
  }

  /** What is under a fallback key is copied under the key and served. */
  lemma {:induction false} ServesFallback(c: Config, s: State, t: nat, v: PyObj)
    requires AtRest(s) && s.store.None? && c.fallback.Some? && c.dec(c.fallback.value) == Some(v)
    ensures Reaches(c, s, With(s, t, []).(store := c.fallback, returned := s.returned + {v}), 3)
  {
    var f, g := Serve(First, false), Serve(First, true);
    var called, found := With(s, t, [f]), With(s, t, [g]);
    var done := With(s, t, []).(store := c.fallback, returned := s.returned + {v});
    Calls(s, t);
    OneFrame(s, t, f, g);
    OneFrame(s, t, g, g);
    FrameEnds(s.(store := c.fallback), t, g);
    assert With(s, t, [g]).(store := c.fallback) == With(s.(store := c.fallback), t, [g]);
    OneFrame(s.(store := c.fallback), t, g, g);
    hide Popped, Call, WithTop, Stack, AtRest;
    assert Look(c, called, found, t, First);
    assert Migrate(c, found, done, t, First, true);
    Then(c, found, done, MigrateStep(t, First, true), done, 0);
    Then(c, called, found, LookStep(t, First), done, 1);
    Then(c, s, called, CallStep(t), done, 2);
  }

  /** With nothing to serve, a call comes to wait for the latch. */
  lemma {:induction false} ComesToWait(c: Config, s: State, t: nat)
    requires AtRest(s) && s.store.None? && c.fallback.None?
    ensures Call(s, With(s, t, [Serve(First, false)]), t)
    ensures Look(c, With(s, t, [Serve(First, false)]), With(s, t, [Wait]), t, First)
  {
    Calls(s, t);
    OneFrame(s, t, Serve(First, false), Wait);
    hide Popped, Call, WithTop, Stack, AtRest;
  }

  /** Inside it the body is started, and its value comes to be stored. */
  lemma {:induction false} ComesToStore(c: Config, s: State, t: nat, v: PyObj)
    requires AtRest(s) && s.store.None? && c.fallback.None?
    ensures var b := s.(bodies := s.bodies + 1);
            && Acquire(With(s, t, [Wait]), Inside(s, t, [Serve(Recheck, false)]), t)
            && Look(c, Inside(s, t, [Serve(Recheck, false)]), Inside(b, t, [Body]), t, Recheck)
            && BodyReturns(Inside(b, t, [Body]), Inside(b, t, [Serve(Settle(v), false)]), t, v)
            && Look(c, Inside(b, t, [Serve(Settle(v), false)]), Inside(b, t, [Store(v)]), t, Settle(v))
  {
    var held := s.(owner := Some(t), depth := 1);
    var b := held.(bodies := s.bodies + 1);
    OneFrame(s, t, Wait, Serve(Recheck, false));
    OneFrame(held, t, Serve(Recheck, false), Body);
    OneFrame(b, t, Body, Serve(Settle(v), false));
    OneFrame(b, t, Serve(Settle(v), false), Store(v));
    hide Popped, WithTop, Stack, AtRest;
  }

  lemma {:induction false} Stores(c: Config, s: State, t: nat, v: PyObj)
    requires s.owner == None && s.depth == 0
    ensures StoreDone(c, Inside(s, t, [Store(v)]),
                      With(s, t, []).(store := Some(c.enc(v)), stored := s.stored + [v], returned := s.returned + {v}),
                      t, v)
  {
    var held := s.(owner := Some(t), depth := 1, store := Some(c.enc(v)), stored := s.stored + [v]);
    OneFrame(held, t, Store(v), Store(v));
    OneFrame(s.(owner := Some(t), depth := 1), t, Store(v), Store(v));
    FrameEnds(held, t, Store(v));
    hide Popped, WithTop, Stack;
  }

  /** With nothing to serve, the body runs once under the latch; its value is stored and returned, and the latch is
      free again. */
  lemma {:induction false} ComputesAndStores(c: Config, s: State, t: nat, v: PyObj)
    requires AtRest(s) && s.store.None? && c.fallback.None?
    ensures Reaches(c, s, With(s, t, []).(store := Some(c.enc(v)), stored := s.stored + [v],
                                          returned := s.returned + {v}, bodies := s.bodies + 1), 7)
  {
    var b := s.(bodies := s.bodies + 1);
    ComesToWait(c, s, t);
    ComesToStore(c, s, t, v);
    Stores(c, b, t, v);
    var done := With(b, t, []).(store := Some(c.enc(v)), stored := s.stored + [v], returned := s.returned + {v});
    hide Call, Look, Acquire, BodyReturns, StoreDone, AtRest, Reaches;
    Ends(c, done);
    Then(c, Inside(b, t, [Store(v)]), done, StoreStep(t, v), done, 0);
    Then(c, Inside(b, t, [Serve(Settle(v), false)]), Inside(b, t, [Store(v)]), LookStep(t, Settle(v)), done, 1);
    Then(c, Inside(b, t, [Body]), Inside(b, t, [Serve(Settle(v), false)]), BodyStep(t, v), done, 2);
    Then(c, Inside(s, t, [Serve(Recheck, false)]), Inside(b, t, [Body]), LookStep(t, Recheck), done, 3);
    Then(c, With(s, t, [Wait]), Inside(s, t, [Serve(Recheck, false)]), AcquireStep(t), done, 4);
    Then(c, With(s, t, [Serve(First, false)]), With(s, t, [Wait]), LookStep(t, First), done, 5);
    Then(c, s, With(s, t, [Serve(First, false)]), CallStep(t), done, 6);
  }

  lemma {:induction false} Ends(c: Config, s: State)
    ensures Reaches(c, s, s, 0)
  {}
}
