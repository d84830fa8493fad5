/**
 The miss path of a cached function, for all interleavings of the threads that call one key.

 A call serves from the cache, else waits for the key's latch, checks again, runs the body, and
 settles: it reads once more and stores only when there is still nothing.  Reads, migrations of a
 fallback entry, latch operations, body runs and stores are separate steps.  Scope: a read-your-writes
 backend with no outside writer, and fallback entries that do not change.
 */
module FirstWrite {
  import opened Options
  import opened Pickle

  /** What is there before the first call (under the key, and under the first hitting fallback key), and
      the codec, whose decoding gives nothing on schema drift. */
  datatype Config = Config(start: Option<PyObj>, fallback: Option<PyObj>, enc: PyObj -> PyObj,
                           dec: PyObj -> Option<PyObj>)

  /** Which of a call's reads this is; the last one carries the computed value. */
  datatype Round = First | Recheck | Settle(v: PyObj)

  /** Where a call stands. */
  datatype Frame =
    | Serve(round: Round, migrating: bool)
    | Wait
    | Body
    | Store(v: PyObj)
  {
    /** Inside the latch. */
    predicate Held() {
      match this
      case Serve(round, _) => !round.First?
      case Wait => false
      case Body => true
      case Store(_) => true
    }
  }

  /** A thread's calls are a stack, since a body may call its own key again. */
  datatype State = State(
    store: Option<PyObj>,
    stacks: map<nat, seq<Frame>>,
    owner: Option<nat>,
    depth: nat,
    stored: seq<PyObj>,      // the computed values stored, in order
    returned: set<PyObj>,    // the values calls returned
    bodies: nat,             // how often the body was started
    raised: bool,            // some read, body, store or wait ended in an exception
    reentered: bool)         // some body called its own key

  function Stack(s: State, t: nat): seq<Frame> {
    if t in s.stacks then s.stacks[t] else []
  }


  predicate AtTop(s: State, t: nat, f: Frame) {
    Stack(s, t) != [] && Stack(s, t)[|Stack(s, t)| - 1] == f
  }

  function WithTop(s: State, t: nat, f: Frame): State
    requires Stack(s, t) != []
  {
    s.(stacks := s.stacks[t := Stack(s, t)[..|Stack(s, t)| - 1] + [f]])
  }

  /** The top call ends, giving the latch back if it was inside. */
  function Popped(s: State, t: nat): State
    requires Stack(s, t) != []
  {
    var n := |Stack(s, t)| - 1;
    var s1 := s.(stacks := s.stacks[t := Stack(s, t)[..n]]);
    if !Stack(s, t)[n].Held() || s.depth == 0 then s1
    else s1.(owner := if s.depth == 1 then None else s.owner, depth := s.depth - 1)
  }

  function Returned(s: State, t: nat, v: PyObj): State
    requires Stack(s, t) != []
  {
    var s1 := Popped(s, t);
    s1.(returned := s1.returned + {v})
  }

  /** A read that found nothing usable. */
  function Missed(s: State, t: nat, round: Round): State
    requires Stack(s, t) != []
  {
    match round
    case First => WithTop(s, t, Wait)
    case Recheck => WithTop(s, t, Body).(bodies := s.bodies + 1)
    case Settle(v) => WithTop(s, t, Store(v))
  }

  /** A read that found a stored value: served decoded, or a miss when it no longer rehydrates. */
  function Found(c: Config, s: State, t: nat, round: Round, raw: PyObj): State
    requires Stack(s, t) != []
  {
    match c.dec(raw)
    case None => Missed(s, t, round)
    case Some(v) => Returned(s, t, v)
  }

  // ------------------------------------------------------------------ steps

  ghost predicate Call(s: State, s': State, t: nat) {
    && (Stack(s, t) == [] || AtTop(s, t, Body))
    && s' == s.(stacks := s.stacks[t := Stack(s, t) + [Serve(First, false)]],
                reentered := s.reentered || Stack(s, t) != [])
  }

  /** `_lookup`: read the key, and on a miss the fallback keys. */
  ghost predicate Look(c: Config, s: State, s': State, t: nat, round: Round) {
    && AtTop(s, t, Serve(round, false))
    && s' == match s.store
             case Some(raw) => Found(c, s, t, round, raw)
             case None => if c.fallback.Some? then WithTop(s, t, Serve(round, true)) else Missed(s, t, round)
  }

  /** The fallback hit is copied forward, or that fails; it is served either way. */
  ghost predicate Migrate(c: Config, s: State, s': State, t: nat, round: Round, ok: bool) {
    && AtTop(s, t, Serve(round, true)) && c.fallback.Some?
    && s' == Found(c, if ok then s.(store := c.fallback) else s, t, round, c.fallback.value)
  }

  ghost predicate Acquire(s: State, s': State, t: nat) {
    && AtTop(s, t, Wait) && (s.owner.None? || s.owner == Some(t))
    && s' == WithTop(s, t, Serve(Recheck, false)).(owner := Some(t), depth := s.depth + 1)
  }

  ghost predicate BodyReturns(s: State, s': State, t: nat, v: PyObj) {
    AtTop(s, t, Body) && s' == WithTop(s, t, Serve(Settle(v), false))
  }

  ghost predicate StoreDone(c: Config, s: State, s': State, t: nat, v: PyObj) {
    && AtTop(s, t, Store(v))
    && s' == Returned(s.(store := Some(c.enc(v)), stored := s.stored + [v]), t, v)
  }

  /** The store lands and then raises all the same, its upkeep having failed. */
  ghost predicate StoreRaises(c: Config, s: State, s': State, t: nat, v: PyObj) {
    && AtTop(s, t, Store(v))
    && s' == Popped(s.(store := Some(c.enc(v)), stored := s.stored + [v]), t).(raised := true)
  }

  /** A call under way raises: a read, with or without a migration, a body, a store with nothing stored; or a wait
      is interrupted. */
  ghost predicate Raise(s: State, s': State, t: nat) {
    Stack(s, t) != [] && s' == Popped(s, t).(raised := true)
  }

  datatype Step =
    | CallStep(t: nat) | LookStep(t: nat, round: Round) | MigrateStep(t: nat, round: Round, ok: bool)
    | AcquireStep(t: nat) | BodyStep(t: nat, v: PyObj) | StoreStep(t: nat, v: PyObj)
    | StoreRaisesStep(t: nat, v: PyObj) | RaiseStep(t: nat)

  ghost predicate NextBy(c: Config, s: State, s': State, step: Step) {
    match step
    case CallStep(t) => Call(s, s', t)
    case LookStep(t, round) => Look(c, s, s', t, round)
    case MigrateStep(t, round, ok) => Migrate(c, s, s', t, round, ok)
    case AcquireStep(t) => Acquire(s, s', t)
    case BodyStep(t, v) => BodyReturns(s, s', t, v)
    case StoreStep(t, v) => StoreDone(c, s, s', t, v)
    case StoreRaisesStep(t, v) => StoreRaises(c, s, s', t, v)
    case RaiseStep(t) => Raise(s, s', t)
  }

  ghost predicate Init(c: Config, s: State) {
    s == State(c.start, map[], None, 0, [], {}, 0, false, false)
  }

  /** What is stored rehydrates under the current class definitions. */
  ghost predicate NoDrift(c: Config) {
    && (c.start.Some? ==> c.dec(c.start.value).Some?)
    && (c.fallback.Some? ==> c.dec(c.fallback.value).Some?)
    && forall v :: c.dec(c.enc(v)).Some?
  }

  // ------------------------------------------------------------------ the invariant

  /** Calls below the top are running their body. */
  ghost predicate Stacked(k: seq<Frame>) {
    forall i :: 0 <= i < |k| - 1 ==> k[i] == Body
  }

  /** How many of a stack's calls are inside the latch. */
  function HeldIn(k: seq<Frame>): nat {
    if k == [] then 0 else |k| - (if k[|k| - 1].Held() then 0 else 1)
  }

  /** The latch is held by the one thread that has calls inside it, as deep as it has. */
  ghost predicate LatchInv(s: State) {
    && (forall t: nat :: Stacked(Stack(s, t)))
    && (forall t: nat :: HeldIn(Stack(s, t)) == if s.owner == Some(t) then s.depth else 0)
    && (s.owner.None? <==> s.depth == 0)
  }

  /** The value every call returns, up to the codec round trip. */
  ghost predicate Agreed(c: Config, s: State, v: PyObj) {
    if c.start.Some? then c.dec(c.start.value) == Some(v)
    else if c.fallback.Some? then c.dec(c.fallback.value) == Some(v)
    else |s.stored| == 1 && (v == s.stored[0] || c.dec(c.enc(s.stored[0])) == Some(v))
  }

  ghost predicate StoreInv(c: Config, s: State) {
    && (if c.start.Some? then s.store == c.start && s.stored == []
        else if c.fallback.Some? then (s.store.None? || s.store == c.fallback) && s.stored == []
        else if s.store.None? then s.stored == []
        else |s.stored| == 1 && s.store == Some(c.enc(s.stored[0])))
    && (forall v :: v in s.returned ==> Agreed(c, s, v))
    && (forall t: nat, v :: AtTop(s, t, Store(v)) ==> s.store.None? && c.fallback.None?)
    && (forall t: nat, r :: AtTop(s, t, Serve(r, true)) ==> c.fallback.Some? && c.start.None?)
  }

  /** A call that has started its body and not yet ended. */
  predicate Computing(f: Frame) {
    f.Body? || f.Store? || (f.Serve? && f.round.Settle?)
  }

  /** While nothing raised or re-entered, a started body is still at work or has stored. */
  ghost predicate BodyInv(c: Config, s: State) {
    !s.raised && !s.reentered ==>
      && s.bodies <= 1
      && (forall t: nat :: |Stack(s, t)| <= 1)
      && (s.bodies == 1 ==> s.store.Some? || exists t: nat :: Stack(s, t) != [] && Computing(Stack(s, t)[0]))
  }

  /** No call computes when there was something to serve from the start. */
  ghost predicate QuietInv(c: Config, s: State) {
    && (c.start.Some? || c.fallback.Some? ==> s.bodies == 0)
    && (s.bodies == 0 ==> forall t: nat, i :: 0 <= i < |Stack(s, t)| ==> !Computing(Stack(s, t)[i]))
  }

  ghost predicate Inv(c: Config, s: State) {
    LatchInv(s) && StoreInv(c, s) && BodyInv(c, s) && QuietInv(c, s)
  }

  // ------------------------------------------------------------------ stack facts

  lemma {:induction false} TopStacks(s: State, t: nat, f: Frame)
    requires Stack(s, t) != []
    ensures var s' := WithTop(s, t, f);
            && Stack(s', t) == Stack(s, t)[..|Stack(s, t)| - 1] + [f]
            && AtTop(s', t, f) && |Stack(s', t)| == |Stack(s, t)|
            && forall u: nat :: u != t ==> Stack(s', u) == Stack(s, u)
  {}

  lemma {:induction false} PopStacks(s: State, t: nat)
    requires Stack(s, t) != []
    ensures var s' := Popped(s, t);
            && Stack(s', t) == Stack(s, t)[..|Stack(s, t)| - 1]
            && (forall u: nat :: u != t ==> Stack(s', u) == Stack(s, u))
            && s'.store == s.store && s'.stored == s.stored && s'.returned == s.returned && s'.bodies == s.bodies
            && s'.raised == s.raised && s'.reentered == s.reentered
  {}

  /** Changing the top of a stack between frames on the same side of the latch. */
  lemma {:induction false} TopKeepsLatch(s: State, t: nat, f: Frame)
    requires LatchInv(s) && Stack(s, t) != [] && f.Held() == Stack(s, t)[|Stack(s, t)| - 1].Held()
    ensures LatchInv(WithTop(s, t, f))
  {
    TopStacks(s, t, f);
    hide WithTop;
    var s' := WithTop(s, t, f);
    forall u: nat
      ensures Stacked(Stack(s', u)) && HeldIn(Stack(s', u)) == HeldIn(Stack(s, u))
    { assert Stacked(Stack(s, u)); }
    assert s'.owner == s.owner && s'.depth == s.depth by { TopFrame(s, t, f); }
  }

  lemma {:induction false} TopFrame(s: State, t: nat, f: Frame)
    requires Stack(s, t) != []
    ensures WithTop(s, t, f) == s.(stacks := WithTop(s, t, f).stacks)
  {}

  lemma {:induction false} PopKeepsLatch(s: State, t: nat)
    requires LatchInv(s) && Stack(s, t) != []
    ensures LatchInv(Popped(s, t))
  {
    PopStacks(s, t);
    var s' := Popped(s, t);
    var k := Stack(s, t);
    assert Stacked(k) && HeldIn(k) == (if s.owner == Some(t) then s.depth else 0);
    var k' := k[..|k| - 1];
    assert k' != [] ==> k'[|k'| - 1] == k[|k| - 2] == Body;
    assert HeldIn(k') == |k'|;
    forall u: nat
      ensures Stacked(Stack(s', u))
      ensures HeldIn(Stack(s', u)) == if s'.owner == Some(u) then s'.depth else 0
    {
      assert Stacked(Stack(s, u)) && HeldIn(Stack(s, u)) == (if s.owner == Some(u) then s.depth else 0);
    }
  }

  lemma {:induction false} PushKeepsLatch(s: State, s': State, t: nat)
    requires LatchInv(s) && Call(s, s', t)
    ensures LatchInv(s')
  {
    var k, k' := Stack(s, t), Stack(s', t);
    assert k' == k + [Serve(First, false)];
    forall u: nat
      ensures Stacked(Stack(s', u))
      ensures HeldIn(Stack(s', u)) == if s'.owner == Some(u) then s'.depth else 0
    {
      assert Stacked(Stack(s, u)) && HeldIn(Stack(s, u)) == (if s.owner == Some(u) then s.depth else 0);
    }
  }

  lemma {:induction false} AcquireKeepsLatch(s: State, s': State, t: nat)
    requires LatchInv(s) && Acquire(s, s', t)
    ensures LatchInv(s')
  {
    TopStacks(s, t, Serve(Recheck, false));
    var s1 := WithTop(s, t, Serve(Recheck, false));
    assert s'.stacks == s1.stacks;
    forall u: nat
      ensures Stacked(Stack(s', u))
      ensures HeldIn(Stack(s', u)) == if s'.owner == Some(u) then s'.depth else 0
    {
      assert Stack(s', u) == Stack(s1, u);
      assert Stacked(Stack(s, u)) && HeldIn(Stack(s, u)) == (if s.owner == Some(u) then s.depth else 0);
    }
  }

  // ------------------------------------------------------------------ what the moves keep

  lemma {:induction false} TopKeepsStore(c: Config, s: State, t: nat, f: Frame)
    requires StoreInv(c, s) && Stack(s, t) != []
    requires f.Store? ==> s.store.None? && c.fallback.None?
    requires f.Serve? && f.migrating ==> c.fallback.Some? && c.start.None?
    ensures StoreInv(c, WithTop(s, t, f))
  {
    TopStacks(s, t, f);
    TopFrame(s, t, f);
    hide WithTop;
    var s' := WithTop(s, t, f);
    forall u: nat, v | AtTop(s', u, Store(v))
      ensures s.store.None? && c.fallback.None?
    { if u != t { assert AtTop(s, u, Store(v)); } }
    forall u: nat, r | AtTop(s', u, Serve(r, true))
      ensures c.fallback.Some? && c.start.None?
    { if u != t { assert AtTop(s, u, Serve(r, true)); } }
    forall v | v in s'.returned
      ensures Agreed(c, s', v)
    { assert Agreed(c, s, v); }
  }

  lemma {:induction false} PopKeepsStore(c: Config, s: State, t: nat)
    requires StoreInv(c, s) && Stack(s, t) != [] && Stacked(Stack(s, t))
    ensures StoreInv(c, Popped(s, t))
  {
    PopStacks(s, t);
    hide Popped;
    var s' := Popped(s, t);
    var k := Stack(s, t);
    assert Stack(s', t) != [] ==> Stack(s', t)[|Stack(s', t)| - 1] == k[|k| - 2];
    forall u: nat, v | AtTop(s', u, Store(v))
      ensures s.store.None? && c.fallback.None?
    { assert u != t && AtTop(s, u, Store(v)); }
    forall u: nat, r | AtTop(s', u, Serve(r, true))
      ensures c.fallback.Some? && c.start.None?
    { assert u != t && AtTop(s, u, Serve(r, true)); }
    forall v | v in s'.returned
      ensures Agreed(c, s', v)
    { assert Agreed(c, s, v); }
  }

  lemma {:induction false} ReturnKeeps(c: Config, s: State, t: nat, v: PyObj)
    requires LatchInv(s) && StoreInv(c, s) && Stack(s, t) != [] && Agreed(c, s, v)
    ensures LatchInv(Returned(s, t, v)) && StoreInv(c, Returned(s, t, v))
  {
    PopKeepsLatch(s, t);
    PopKeepsStore(c, s, t);
    PopStacks(s, t);
    hide Popped;
    var s1, s' := Popped(s, t), Returned(s, t, v);
    assert s'.stacks == s1.stacks;
    forall u: nat
      ensures Stack(s', u) == Stack(s1, u)
    {}
    forall u: nat, x | AtTop(s', u, Store(x))
      ensures s'.store.None? && c.fallback.None?
    { assert AtTop(s1, u, Store(x)); }
    forall u: nat, r | AtTop(s', u, Serve(r, true))
      ensures c.fallback.Some? && c.start.None?
    { assert AtTop(s1, u, Serve(r, true)); }
    forall x | x in s'.returned
      ensures Agreed(c, s', x)
    { assert x == v || Agreed(c, s1, x); }
  }

  /** A call that ends without having started its body leaves the body count as it is; and once there
      is a stored value, any call may end. */
  lemma {:induction false} EndKeepsBody(c: Config, s: State, t: nat, s': State)
    requires BodyInv(c, s) && Stack(s, t) != []
    requires s'.store.Some? || !Computing(Stack(s, t)[|Stack(s, t)| - 1])
    requires s'.store.None? ==> s.store.None?
    requires Stack(s', t) == Stack(s, t)[..|Stack(s, t)| - 1] && forall u: nat :: u != t ==> Stack(s', u) == Stack(s, u)
    requires s'.bodies == s.bodies && s'.raised == s.raised && s'.reentered == s.reentered
    ensures BodyInv(c, s')
  {
    if !s.raised && !s.reentered {
      assert |Stack(s, t)| == 1;
      if s.bodies == 1 && s'.store.None? {
        var u: nat :| Stack(s, u) != [] && Computing(Stack(s, u)[0]);
        assert u != t && Stack(s', u) == Stack(s, u);
      }
      forall u: nat
        ensures |Stack(s', u)| <= 1
      { assert |Stack(s, u)| <= 1; }
    }
  }

  /** A call that moves on, staying before or past the start of its body. */
  lemma {:induction false} MoveKeepsBody(c: Config, s: State, t: nat, f: Frame, s': State)
    requires BodyInv(c, s) && Stack(s, t) != []
    requires Computing(f) == Computing(Stack(s, t)[|Stack(s, t)| - 1])
    requires s'.store.None? ==> s.store.None?
    requires s'.stacks == WithTop(s, t, f).stacks
    requires s'.bodies == s.bodies && s'.raised == s.raised && s'.reentered == s.reentered
    ensures BodyInv(c, s')
  {
    TopStacks(s, t, f);
    var s1 := WithTop(s, t, f);
    hide WithTop;
    assert forall u: nat :: Stack(s', u) == Stack(s1, u);
    if !s.raised && !s.reentered {
      assert |Stack(s, t)| == 1;
      if s.bodies == 1 && s'.store.None? {
        var u: nat :| Stack(s, u) != [] && Computing(Stack(s, u)[0]);
        assert Stack(s', u) != [] && Computing(Stack(s', u)[0]);
      }
      forall u: nat
        ensures |Stack(s', u)| <= 1
      { assert |Stack(s, u)| <= 1; }
    }
  }

  /** The first body starts: no other call can be past its own start with nothing stored. */
  lemma {:induction false} StartKeepsBody(c: Config, s: State, t: nat)
    requires LatchInv(s) && BodyInv(c, s) && AtTop(s, t, Serve(Recheck, false)) && s.store.None?
    ensures BodyInv(c, Missed(s, t, Recheck))
  {
    TopStacks(s, t, Body);
    TopFrame(s, t, Body);
    var s1, s' := WithTop(s, t, Body), Missed(s, t, Recheck);
    hide WithTop;
    assert forall u: nat :: Stack(s', u) == Stack(s1, u);
    if !s.raised && !s.reentered {
      assert |Stack(s, t)| == 1 && HeldIn(Stack(s, t)) == 1;
      forall u: nat | Stack(s, u) != []
        ensures !Computing(Stack(s, u)[0])
      {
        assert |Stack(s, u)| == 1;
        assert u != t ==> HeldIn(Stack(s, u)) == 0;
      }
      assert Stack(s', t) != [] && Computing(Stack(s', t)[0]);
      forall u: nat
        ensures |Stack(s', u)| <= 1
      { assert |Stack(s, u)| <= 1; }
    }
  }

  /** Calls that end, or that stay on their side of the start of the body, keep the quiet. */
  lemma {:induction false} PopKeepsQuiet(c: Config, s: State, t: nat, s': State)
    requires QuietInv(c, s) && Stack(s, t) != [] && s'.bodies == s.bodies
    requires Stack(s', t) == Stack(s, t)[..|Stack(s, t)| - 1] && forall u: nat :: u != t ==> Stack(s', u) == Stack(s, u)
    ensures QuietInv(c, s')
  {
    if s.bodies == 0 {
      forall u: nat, i | 0 <= i < |Stack(s', u)|
        ensures !Computing(Stack(s', u)[i])
      { assert Stack(s', u)[i] == Stack(s, u)[i]; }
    }
  }

  lemma {:induction false} MoveKeepsQuiet(c: Config, s: State, t: nat, f: Frame, s': State)
    requires QuietInv(c, s) && Stack(s, t) != [] && s'.bodies == s.bodies
    requires Computing(f) ==> Computing(Stack(s, t)[|Stack(s, t)| - 1])
    requires s'.stacks == WithTop(s, t, f).stacks
    ensures QuietInv(c, s')
  {
    TopStacks(s, t, f);
    var s1 := WithTop(s, t, f);
    hide WithTop;
    assert forall u: nat :: Stack(s', u) == Stack(s1, u);
    if s.bodies == 0 {
      forall u: nat, i | 0 <= i < |Stack(s', u)|
        ensures !Computing(Stack(s', u)[i])
      {
        if u != t || i < |Stack(s, t)| - 1 { assert Stack(s', u)[i] == Stack(s, u)[i]; }
      }
    }
  }

  // ------------------------------------------------------------------ every step keeps the invariant

  lemma {:induction false} CallKeepsStore(c: Config, s: State, s': State, t: nat)
    requires StoreInv(c, s) && Call(s, s', t)
    ensures StoreInv(c, s')
  {
    assert Stack(s', t) == Stack(s, t) + [Serve(First, false)];
    forall u: nat | u != t
      ensures Stack(s', u) == Stack(s, u)
    {}
    forall u: nat, v | AtTop(s', u, Store(v))
      ensures s'.store.None? && c.fallback.None?
    { assert AtTop(s, u, Store(v)); }
    forall u: nat, r | AtTop(s', u, Serve(r, true))
      ensures c.fallback.Some? && c.start.None?
    { assert AtTop(s, u, Serve(r, true)); }
    forall v | v in s'.returned
      ensures Agreed(c, s', v)
    { assert Agreed(c, s, v); }
  }

  lemma {:induction false} CallKeepsBodies(c: Config, s: State, s': State, t: nat)
    requires QuietInv(c, s) && BodyInv(c, s) && Call(s, s', t)
    ensures QuietInv(c, s') && BodyInv(c, s')
  {
    assert Stack(s', t) == Stack(s, t) + [Serve(First, false)];
    forall u: nat | u != t
      ensures Stack(s', u) == Stack(s, u)
    {}
    assert QuietInv(c, s') by {
      forall u: nat, i | s.bodies == 0 && 0 <= i < |Stack(s', u)|
        ensures !Computing(Stack(s', u)[i])
      { if u != t || i < |Stack(s, t)| { assert Stack(s', u)[i] == Stack(s, u)[i]; } }
    }
    if !s'.raised && !s'.reentered {
      if s.bodies == 1 && s.store.None? {
        var u: nat :| Stack(s, u) != [] && Computing(Stack(s, u)[0]);
        assert u != t && Stack(s', u) == Stack(s, u);
      }
      forall u: nat
        ensures |Stack(s', u)| <= 1
      { assert |Stack(s, u)| <= 1; }
    }
  }

  lemma {:induction false} CallKeeps(c: Config, s: State, s': State, t: nat)
    requires Inv(c, s) && Call(s, s', t)
    ensures Inv(c, s')
  {
    hide LatchInv, StoreInv, QuietInv, BodyInv, Call;
    PushKeepsLatch(s, s', t);
    CallKeepsStore(c, s, s', t);
    CallKeepsBodies(c, s, s', t);
  }

  /** A stored value is the agreed one. */
  lemma {:induction false} StoredIsAgreed(c: Config, s: State)
    requires NoDrift(c) && StoreInv(c, s) && s.store.Some?
    ensures c.dec(s.store.value).Some? && Agreed(c, s, c.dec(s.store.value).value)
  {}

  lemma {:induction false} ServeKeeps(c: Config, s: State, t: nat, round: Round, raw: PyObj)
    requires NoDrift(c) && Inv(c, s) && AtTop(s, t, Serve(round, false)) && s.store == Some(raw)
    ensures Inv(c, Found(c, s, t, round, raw))
  {
    StoredIsAgreed(c, s);
    var v := c.dec(raw).value;
    ReturnKeeps(c, s, t, v);
    PopStacks(s, t);
    hide Popped, LatchInv, StoreInv, BodyInv, QuietInv;
    ReturnStacks(s, t, v);
    EndKeepsBody(c, s, t, Returned(s, t, v));
    PopKeepsQuiet(c, s, t, Returned(s, t, v));
  }

  lemma {:induction false} ReturnStacks(s: State, t: nat, v: PyObj)
    requires Stack(s, t) != []
    ensures var s' := Returned(s, t, v);
            && Stack(s', t) == Stack(s, t)[..|Stack(s, t)| - 1]
            && (forall u: nat :: u != t ==> Stack(s', u) == Stack(s, u))
            && s'.store == s.store && s'.bodies == s.bodies && s'.raised == s.raised && s'.reentered == s.reentered
  {
    PopStacks(s, t);
  }

  lemma {:induction false} MissKeeps(c: Config, s: State, t: nat, round: Round)
    requires Inv(c, s) && AtTop(s, t, Serve(round, false)) && s.store.None? && c.fallback.None?
    ensures Inv(c, Missed(s, t, round))
  {
    var f := match round case First => Wait case Recheck => Body case Settle(v) => Store(v);
    TopKeepsLatch(s, t, f);
    TopKeepsStore(c, s, t, f);
    TopFrame(s, t, f);
    assert c.start.None?;
    hide WithTop, LatchInv, StoreInv, BodyInv;
    match round
    case First =>
      MoveKeepsBody(c, s, t, f, WithTop(s, t, f));
      MoveKeepsQuiet(c, s, t, f, WithTop(s, t, f));
    case Recheck =>
      StartKeepsBody(c, s, t);
      BodiesAside(c, WithTop(s, t, f), s.bodies + 1);
    case Settle(v) =>
      MoveKeepsBody(c, s, t, f, WithTop(s, t, f));
      MoveKeepsQuiet(c, s, t, f, WithTop(s, t, f));
  }

  lemma {:induction false} BodiesAside(c: Config, s: State, n: nat)
    ensures LatchInv(s) ==> LatchInv(s.(bodies := n))
    ensures StoreInv(c, s) ==> StoreInv(c, s.(bodies := n))
  {
    var s' := s.(bodies := n);
    assert forall u: nat :: Stack(s', u) == Stack(s, u);
    assert forall u: nat, f :: AtTop(s', u, f) == AtTop(s, u, f);
    assert forall v :: Agreed(c, s', v) == Agreed(c, s, v);
  }

  lemma {:induction false} LookKeeps(c: Config, s: State, s': State, t: nat, round: Round)
    requires NoDrift(c) && Inv(c, s) && Look(c, s, s', t, round)
    ensures Inv(c, s')
  {
    hide Found, Missed, BodyInv, QuietInv, LatchInv, NoDrift, WithTop;
    match s.store
    case Some(raw) => ServeKeeps(c, s, t, round, raw);
    case None =>
      if c.fallback.Some? {
        assert c.start.None?;
        hide StoreInv;
        TopKeepsLatch(s, t, Serve(round, true));
        TopKeepsStore(c, s, t, Serve(round, true));
        TopFrame(s, t, Serve(round, true));
        MoveKeepsBody(c, s, t, Serve(round, true), s');
        MoveKeepsQuiet(c, s, t, Serve(round, true), s');
      } else {
        MissKeeps(c, s, t, round);
      }
  }

  lemma {:induction false} MigrateKeeps(c: Config, s: State, s': State, t: nat, round: Round, ok: bool)
    requires NoDrift(c) && Inv(c, s) && Migrate(c, s, s', t, round, ok)
    ensures Inv(c, s')
  {
    var s1 := if ok then s.(store := c.fallback) else s;
    assert forall u: nat :: Stack(s1, u) == Stack(s, u);
    assert forall u: nat, f :: AtTop(s1, u, f) == AtTop(s, u, f);
    assert LatchInv(s1);
    assert c.start.None? && c.fallback.Some?;
    assert StoreInv(c, s1) by {
      forall v | v in s1.returned
        ensures Agreed(c, s1, v)
      { assert Agreed(c, s, v); }
    }
    var v := c.dec(c.fallback.value).value;
    ReturnKeeps(c, s1, t, v);
    ReturnStacks(s1, t, v);
    assert !Computing(Stack(s, t)[|Stack(s, t)| - 1]);
    hide LatchInv, StoreInv, BodyInv, QuietInv, Popped;
    EndKeepsBody(c, s, t, Returned(s1, t, v));
    PopKeepsQuiet(c, s, t, Returned(s1, t, v));
  }

  lemma {:induction false} AcquireKeeps(c: Config, s: State, s': State, t: nat)
    requires Inv(c, s) && Acquire(s, s', t)
    ensures Inv(c, s')
  {
    AcquireKeepsLatch(s, s', t);
    var s1 := WithTop(s, t, Serve(Recheck, false));
    TopKeepsStore(c, s, t, Serve(Recheck, false));
    TopFrame(s, t, Serve(Recheck, false));
    assert StoreInv(c, s') by {
      assert forall u: nat :: Stack(s', u) == Stack(s1, u);
      assert forall u: nat, f :: AtTop(s', u, f) == AtTop(s1, u, f);
      forall v | v in s'.returned
        ensures Agreed(c, s', v)
      { assert Agreed(c, s1, v); }
    }
    hide LatchInv, StoreInv, BodyInv, QuietInv;
    MoveKeepsBody(c, s, t, Serve(Recheck, false), s');
    MoveKeepsQuiet(c, s, t, Serve(Recheck, false), s');
  }

  lemma {:induction false} BodyReturnsKeeps(c: Config, s: State, s': State, t: nat, v: PyObj)
    requires Inv(c, s) && BodyReturns(s, s', t, v)
    ensures Inv(c, s')
  {
    hide LatchInv, StoreInv, BodyInv, QuietInv, WithTop;
    TopKeepsLatch(s, t, Serve(Settle(v), false));
    TopKeepsStore(c, s, t, Serve(Settle(v), false));
    TopFrame(s, t, Serve(Settle(v), false));
    MoveKeepsBody(c, s, t, Serve(Settle(v), false), s');
    MoveKeepsQuiet(c, s, t, Serve(Settle(v), false), s');
  }

  /** Before the one store nothing was stored and nothing returned. */
  lemma {:induction false} NothingYet(c: Config, s: State, t: nat, v: PyObj)
    requires StoreInv(c, s) && AtTop(s, t, Store(v))
    ensures s.store.None? && c.fallback.None? && c.start.None? && s.stored == [] && s.returned == {}
  {
    assert forall x :: x in s.returned ==> !Agreed(c, s, x);
  }

  /** The one store lands: nothing was stored before it, and nobody else is about to store. */
  lemma {:induction false} StoreLands(c: Config, s: State, s1: State, s2: State, t: nat, v: PyObj)
    requires Inv(c, s) && AtTop(s, t, Store(v))
    requires s1 == s.(store := Some(c.enc(v)), stored := s.stored + [v]) && s2 == Popped(s1, t)
    ensures c.fallback.None? && c.start.None?
    ensures s2.store == Some(c.enc(v)) && s2.stored == [v] && s2.returned == {}
    ensures forall u: nat, x :: !AtTop(s2, u, Store(x))
    ensures forall u: nat, r :: !AtTop(s2, u, Serve(r, true))
    ensures LatchInv(s2) && BodyInv(c, s2) && QuietInv(c, s2)
  {
    NothingYet(c, s, t, v);
    PopStacks(s1, t);
    assert LatchInv(s1) by { assert forall u: nat :: Stack(s1, u) == Stack(s, u); }
    PopKeepsLatch(s1, t);
    hide Popped;
    assert Stack(s1, t) == Stack(s, t);
    assert forall u: nat :: Stack(s2, u) == (if u == t then Stack(s1, t)[..|Stack(s1, t)| - 1] else Stack(s, u));
    forall u: nat, x
      ensures !AtTop(s2, u, Store(x))
    { NoOtherStore(s, s2, t, v, u, x); }
    forall u: nat, r
      ensures !AtTop(s2, u, Serve(r, true))
    {
      if u != t { assert AtTop(s2, u, Serve(r, true)) == AtTop(s, u, Serve(r, true)); }
      else { assert Stacked(Stack(s, t)); }
    }
    hide LatchInv, StoreInv, BodyInv, QuietInv;
    EndKeepsBody(c, s, t, s2);
    PopKeepsQuiet(c, s, t, s2);
  }

  /** Two states that differ only in what was returned or raised. */
  lemma {:induction false} SameStacks(c: Config, s: State, s': State)
    requires LatchInv(s) && BodyInv(c, s) && QuietInv(c, s)
    requires s' == s.(returned := s'.returned, raised := s'.raised) && (s.raised ==> s'.raised)
    ensures LatchInv(s') && BodyInv(c, s') && QuietInv(c, s')
    ensures forall u: nat, f :: AtTop(s', u, f) == AtTop(s, u, f)
  {
    assert forall u: nat :: Stack(s', u) == Stack(s, u);
  }

  lemma {:induction false} LandedStoreInv(c: Config, s: State, v: PyObj)
    requires c.fallback.None? && c.start.None?
    requires s.store == Some(c.enc(v)) && s.stored == [v] && s.returned <= {v}
    requires forall u: nat, x :: !AtTop(s, u, Store(x))
    requires forall u: nat, r :: !AtTop(s, u, Serve(r, true))
    ensures StoreInv(c, s)
  {
    hide AtTop;
  }

  lemma {:induction false} StoreDoneKeeps(c: Config, s: State, s': State, t: nat, v: PyObj)
    requires NoDrift(c) && Inv(c, s) && StoreDone(c, s, s', t, v)
    ensures Inv(c, s')
  {
    var s1 := s.(store := Some(c.enc(v)), stored := s.stored + [v]);
    var s2 := Popped(s1, t);
    StoreLands(c, s, s1, s2, t, v);
    hide Popped;
    SameStacks(c, s2, s');
    hide LatchInv, StoreInv, BodyInv, QuietInv, AtTop;
    LandedStoreInv(c, s', v);
  }

  lemma {:induction false} StoreRaisesKeeps(c: Config, s: State, s': State, t: nat, v: PyObj)
    requires Inv(c, s) && StoreRaises(c, s, s', t, v)
    ensures Inv(c, s')
  {
    var s1 := s.(store := Some(c.enc(v)), stored := s.stored + [v]);
    var s2 := Popped(s1, t);
    StoreLands(c, s, s1, s2, t, v);
    hide Popped;
    SameStacks(c, s2, s');
    hide LatchInv, StoreInv, BodyInv, QuietInv, AtTop;
    LandedStoreInv(c, s', v);
  }

  lemma {:induction false} NoOtherStore(s: State, s': State, t: nat, v: PyObj, u: nat, x: PyObj)
    requires LatchInv(s) && AtTop(s, t, Store(v))
    requires Stack(s', t) == Stack(s, t)[..|Stack(s, t)| - 1] && forall w: nat :: w != t ==> Stack(s', w) == Stack(s, w)
    ensures !AtTop(s', u, Store(x))
  {
    assert HeldIn(Stack(s, t)) > 0;
    assert u != t ==> HeldIn(Stack(s, u)) == 0;
    assert Stacked(Stack(s, t));
  }

  lemma {:induction false} RaiseKeeps(c: Config, s: State, s': State, t: nat)
    requires Inv(c, s) && Raise(s, s', t)
    ensures Inv(c, s')
  {
    PopKeepsLatch(s, t);
    PopKeepsStore(c, s, t);
    PopStacks(s, t);
    var s1 := Popped(s, t);
    PopKeepsQuiet(c, s, t, s1);
    hide Popped;
    assert forall u: nat :: Stack(s', u) == Stack(s1, u);
    assert forall u: nat, f :: AtTop(s', u, f) == AtTop(s1, u, f);
    assert forall v :: Agreed(c, s', v) == Agreed(c, s1, v);
  }

  lemma {:induction false} StepKeeps(c: Config, s: State, s': State, step: Step)
    requires NoDrift(c) && Inv(c, s) && NextBy(c, s, s', step)
    ensures Inv(c, s')
  {
    hide Inv, NoDrift, Call, Look, Migrate, Acquire, BodyReturns, StoreDone, StoreRaises, Raise;
    match step
    case CallStep(t) => CallKeeps(c, s, s', t);
    case LookStep(t, round) => LookKeeps(c, s, s', t, round);
    case MigrateStep(t, round, ok) => MigrateKeeps(c, s, s', t, round, ok);
    case AcquireStep(t) => AcquireKeeps(c, s, s', t);
    case BodyStep(t, v) => BodyReturnsKeeps(c, s, s', t, v);
    case StoreStep(t, v) => StoreDoneKeeps(c, s, s', t, v);
    case StoreRaisesStep(t, v) => StoreRaisesKeeps(c, s, s', t, v);
    case RaiseStep(t) => RaiseKeeps(c, s, s', t);
  }

  // ------------------------------------------------------------------ whole runs

  ghost predicate IsRun(c: Config, run: seq<State>, steps: seq<Step>) {
    && |run| == |steps| + 1 && Init(c, run[0])
    && forall i :: 0 <= i < |steps| ==> NextBy(c, run[i], run[i + 1], steps[i])
  }

  lemma {:induction false} RunKeeps(c: Config, run: seq<State>, steps: seq<Step>, i: nat)
    requires NoDrift(c) && IsRun(c, run, steps) && i < |run|
    ensures Inv(c, run[i])
    decreases i
  {
    hide NextBy, NoDrift;
    if i == 0 {
      assert forall t: nat :: Stack(run[0], t) == [];
    } else {
      RunKeeps(c, run, steps, i - 1);
      StepKeeps(c, run[i - 1], run[i], steps[i - 1]);
    }
  }

  /** First write wins, in every interleaving: at most one computed value is ever stored; all calls
      that return, return one and the same value up to the codec round trip, namely what was there
      before, or else the one value stored; and if nothing raised and no body called its own key, the
      body was started at most once, and never when there was something to serve. */
  lemma {:induction false} FirstWriteWins(c: Config, run: seq<State>, steps: seq<Step>, i: nat)
    requires NoDrift(c) && IsRun(c, run, steps) && i < |run|
    ensures var s := run[i];
            && |s.stored| <= 1
            && (c.start.Some? || c.fallback.Some? ==> s.stored == [])
            && (forall v :: v in s.returned ==>
                  if c.start.Some? then c.dec(c.start.value) == Some(v)
                  else if c.fallback.Some? then c.dec(c.fallback.value) == Some(v)
                  else s.stored != [] && (v == s.stored[0] || c.dec(c.enc(s.stored[0])) == Some(v)))
            && (!s.raised && !s.reentered ==> s.bodies <= 1)
            && (c.start.Some? || c.fallback.Some? ==> s.bodies == 0)
  {
    RunKeeps(c, run, steps, i);
  }
}
