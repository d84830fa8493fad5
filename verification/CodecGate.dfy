/** When the codec is on: exactly for the annotations that reach a class a value walk could rebuild. */
module CodecGate {
  import opened Options
  import opened Codec
  import opened CodecRoundTrip
  import opened CodecValues

  // ----- ambiguous unions

  /** A stored value of this shape would be claimed for member `a`. */
  predicate ClaimsShape(env: Classes, a: Ty, shape: Shape) {
    match a
    case ModelTy(_) => shape == DictShape
    case DataclassTy(cls) => env.rebuildable(cls) && shape == DictShape
    case ListTy(_) => shape == ListShape
    case TupleTy(_) => shape == TupleShape
    case VarTupleTy(_) => shape == TupleShape
    case DictTy(_, _) => shape == DictShape
    case ShapedTy(own) => shape == own
    case AnyTy => true
    case _ => false
  }

  /** No stored shape would be claimed for two members. */
  predicate Unambiguous(env: Classes, args: seq<Ty>) {
    forall i, j :: 0 <= i < j < |args| ==>
      !exists shape :: ClaimsShape(env, args[i], shape) && ClaimsShape(env, args[j], shape)
  }

  lemma {:induction false} ClaimsAre(env: Classes, a: Ty)
    ensures forall shape :: shape in Claims(env, a) <==> ClaimsShape(env, a, shape)
    ensures forall p, q :: 0 <= p < q < |Claims(env, a)| ==> Claims(env, a)[p] != Claims(env, a)[q]
  {
    var all := [ListShape, TupleShape, DictShape];
    assert all[0] in all && all[1] in all && all[2] in all;
    forall shape: Shape
      ensures shape in all
    { match shape case ListShape => case TupleShape => case DictShape => }
  }

  /** Where a claim comes from. */
  lemma {:induction false} ClaimOf(env: Classes, args: seq<Ty>, x: nat) returns (i: nat, p: nat)
    requires x < |AllClaims(env, args)|
    ensures i < |args| && p < |Claims(env, args[i])| && x == Start(env, args, i) + p
    ensures AllClaims(env, args)[x] == Claims(env, args[i])[p]
  {
    hide Claims;
    var n := |Claims(env, args[0])|;
    if x < n {
      i, p := 0, x;
    } else {
      i, p := ClaimOf(env, args[1..], x - n);
      i := i + 1;
    }
  }

  /** The check on a union finds exactly that. */
  lemma {:induction false} CheckIsExact(env: Classes, args: seq<Ty>)
    ensures UnionCodecMembers(env, args).Some? <==> Unambiguous(env, args)
  {
    hide AllClaims, Claims, Start, ClaimsShape;
    if Repeats(AllClaims(env, args)) {
      var x, y :| 0 <= x < y < |AllClaims(env, args)| && AllClaims(env, args)[x] == AllClaims(env, args)[y];
      var i, p := ClaimOf(env, args, x);
      var j, q := ClaimOf(env, args, y);
      ClaimsAre(env, args[i]);
      ClaimsAre(env, args[j]);
      if j < i { StartsApart(env, args, j, i); }
      assert i < j;
      assert ClaimsShape(env, args[i], Claims(env, args[i])[p]) && ClaimsShape(env, args[j], Claims(env, args[i])[p]);
    } else {
      forall i, j | 0 <= i < j < |args|
        ensures !exists shape :: ClaimsShape(env, args[i], shape) && ClaimsShape(env, args[j], shape)
      {
        ClaimsAre(env, args[i]);
        ClaimsAre(env, args[j]);
        forall shape | ClaimsShape(env, args[i], shape)
          ensures !ClaimsShape(env, args[j], shape)
        { OneClaimant(env, args, i, j, shape); }
      }
    }
  }

  // ----- paths through annotations

  /** A value walk goes from `a` to `b`: through a list, tuple, dict or unambiguous union. */
  predicate Leads(env: Classes, a: Ty, b: Ty) {
    match a
    case ListTy(elem) => b == elem
    case TupleTy(args) => b in args
    case VarTupleTy(elem) => b == elem
    case DictTy(key, val) => b == key || b == val
    case UnionTy(args) => b in args && Unambiguous(env, args)
    case _ => false
  }

  /** A model, or a dataclass whose constructor takes its fields back. */
  predicate IsClass(env: Classes, a: Ty) {
    a.ModelTy? || (a.DataclassTy? && env.rebuildable(a.cls))
  }

  /** A way from an annotation to a class, in at most `steps` steps. */
  ghost predicate IsPath(env: Classes, path: seq<Ty>, a: Ty, steps: int) {
    && path != [] && path[0] == a && IsClass(env, path[|path| - 1]) && |path| - 1 <= steps
    && forall i :: 0 <= i < |path| - 1 ==> Leads(env, path[i], path[i + 1])
  }

  ghost predicate Reaches(env: Classes, a: Ty, steps: int) {
    exists path :: IsPath(env, path, a, steps)
  }

  /** One step more in front. */
  lemma {:induction false} StepBefore(env: Classes, a: Ty, b: Ty, steps: int)
    requires Leads(env, a, b) && Reaches(env, b, steps)
    ensures Reaches(env, a, steps + 1)
  {
    var path :| IsPath(env, path, b, steps);
    var longer := [a] + path;
    assert longer[|longer| - 1] == path[|path| - 1];
    forall i | 0 <= i < |longer| - 1
      ensures Leads(env, longer[i], longer[i + 1])
    { if i > 0 { assert longer[i] == path[i - 1] && longer[i + 1] == path[i]; } }
    assert IsPath(env, longer, a, steps + 1);
  }

  /** The first step of a way that is not there yet. */
  lemma {:induction false} FirstStep(env: Classes, a: Ty, steps: int) returns (b: Ty)
    requires Reaches(env, a, steps) && !IsClass(env, a)
    ensures Leads(env, a, b) && Reaches(env, b, steps - 1)
  {
    var path :| IsPath(env, path, a, steps);
    b := path[1];
    var rest := path[1..];
    assert rest[|rest| - 1] == path[|path| - 1];
    forall i | 0 <= i < |rest| - 1
      ensures Leads(env, rest[i], rest[i + 1])
    { assert Leads(env, path[i + 1], path[i + 2]); }
    assert IsPath(env, rest, b, steps - 1);
  }

  lemma {:induction false} ClassReaches(env: Classes, a: Ty, steps: int)
    ensures IsClass(env, a) && steps >= 0 ==> Reaches(env, a, steps)
    ensures Reaches(env, a, steps) ==> steps >= 0
  {
    if IsClass(env, a) && steps >= 0 { assert IsPath(env, [a], a, steps); }
  }

  lemma {:induction false} ClassOrMember(env: Classes, args: seq<Ty>, b: Ty)
    requires Unambiguous(env, args) && b in args && !b.NoneTy?
    ensures UnionCodecMembers(env, args).Some? && b in UnionCodecMembers(env, args).value
  {
    hide AllClaims, Unambiguous;
    CheckIsExact(env, args);
  }

  /** A wanted annotation that is no class has a wanted part one step down, within the limit. */
  lemma {:induction false} WantedPart(env: Classes, a: Ty, depth: nat) returns (b: Ty)
    requires WantsCodec(env, a, depth) && !IsClass(env, a)
    ensures Leads(env, a, b) && b < a && WantsCodec(env, b, depth + 1)
  {
    hide Unambiguous, AllClaims;
    match a
    case UnionTy(args) =>
      CheckIsExact(env, args);
      var members := UnionCodecMembers(env, args).value;
      var k :| 0 <= k < |members| && WantsCodec(env, members[k], depth + 1);
      b := members[k];
    case ListTy(elem) => b := elem;
    case TupleTy(args) =>
      var k :| 0 <= k < |args| && WantsCodec(env, args[k], depth + 1);
      b := args[k];
    case VarTupleTy(elem) => b := elem;
    case DictTy(key, val) => b := if WantsCodec(env, key, depth + 1) then key else val;
  }

  lemma {:induction false} PartWants(env: Classes, a: Ty, b: Ty, depth: nat)
    requires Leads(env, a, b) && depth <= 8 && WantsCodec(env, b, depth + 1) && !b.NoneTy?
    ensures WantsCodec(env, a, depth)
  {
    hide Unambiguous, AllClaims;
    if a.UnionTy? {
      ClassOrMember(env, a.args, b);
      var members := UnionCodecMembers(env, a.args).value;
      var k :| 0 <= k < |members| && members[k] == b;
      assert WantsCodec(env, members[k], depth + 1);
    }
    if a.TupleTy? {
      var k :| 0 <= k < |a.args| && a.args[k] == b;
      assert WantsCodec(env, a.args[k], depth + 1);
    }
  }

  /** The gate is open exactly when a class is reached within what is left of the 8 levels. */
  lemma {:induction false} WantedReaches(env: Classes, a: Ty, depth: nat)
    ensures WantsCodec(env, a, depth) <==> Reaches(env, a, 8 - depth)
    decreases a
  {
    hide Reaches, Leads, WantsCodec;
    ClassReaches(env, a, 8 - depth);
    GateEnds(env, a, depth);
    if !IsClass(env, a) {
      if WantsCodec(env, a, depth) {
        var b := WantedPart(env, a, depth);
        WantedReaches(env, b, depth + 1);
        StepBefore(env, a, b, 8 - depth - 1);
      }
      if Reaches(env, a, 8 - depth) {
        var b := FirstStep(env, a, 8 - depth);
        PartIsSmaller(env, a, b);
        WantedReaches(env, b, depth + 1);
        NoneReachesNothing(env, b, 8 - depth - 1);
        PartWants(env, a, b, depth);
      }
    }
  }

  lemma {:induction false} GateEnds(env: Classes, a: Ty, depth: nat)
    ensures depth > 8 ==> !WantsCodec(env, a, depth)
    ensures depth <= 8 && IsClass(env, a) ==> WantsCodec(env, a, depth)
  {}

  lemma {:induction false} PartIsSmaller(env: Classes, a: Ty, b: Ty)
    requires Leads(env, a, b)
    ensures b < a
  {}

  lemma {:induction false} NoneReachesNothing(env: Classes, a: Ty, steps: int)
    requires Reaches(env, a, steps)
    ensures !a.NoneTy?
  {
    var path :| IsPath(env, path, a, steps);
    if |path| > 1 { assert Leads(env, path[0], path[1]); }
  }

  /** The codec of a function is on if and only if its annotation reaches a model or a dataclass that can be rebuilt
      within 8 levels of lists, tuples, dicts and unambiguous unions. */
  lemma {:induction false} CodecOnExactly(env: Classes, a: Ty)
    ensures WantsCodec(env, a, 0) <==> exists path :: IsPath(env, path, a, 8)
  {
    hide WantsCodec;
    WantedReaches(env, a, 0);
  }

  // ----- what is served

  /** What a hit hands back for a stored value. */
  function Served(env: Classes, w: Val, a: Ty): Option<Val> {
    if WantsCodec(env, a, 0) then Decode(env, w, a) else Some(w)
  }

  /** A stored value is handed back as it was, whatever it is and of whatever class its containers are, if the
      annotation reaches no class, and else exactly when every place that the walk rewrites can be put back. */
  lemma {:induction false} ServedBackExactly(env: Classes, v: Val, a: Ty)
    requires CodecRoundTrip.Lawful(env)
    ensures Reaches(env, a, 8) || Stored(env, v, a) == v
    ensures Served(env, Stored(env, v, a), a) == Some(v) <==> !Reaches(env, a, 8) || Returns(env, v, a)
  {
    hide WantsCodec, Reaches, Encode, Decode, Returns;
    WantedReaches(env, a, 0);
    RoundTripExactly(env, v, a);
  }

  /** A named tuple under `tuple[int, int]` is stored and handed back with its class. */
  lemma {:induction false} NamedTupleStays(env: Classes, x: nat, y: nat, cls: nat)
    ensures var v, a := TupleV([Atom(x), Atom(y)], cls), TupleTy([LeafTy, LeafTy]);
            Stored(env, v, a) == v && Served(env, Stored(env, v, a), a) == Some(v)
  {}
}
