/** Where the codec does not give a value back or leaves a class in the store, and that its hypotheses can be met. */
module CodecLimits {
  import opened Options
  import opened Codec
  import opened CodecRoundTrip
  import opened CodecValues

  /** A subclass instance comes back as the class named, or not at all; a named tuple or another container
      subclass comes back as the builtin one. */
  lemma {:induction false} SubclassesAreLost(env: Classes, v: Val, a: Ty)
    requires Lawful(env)
    requires || (InstanceOf(env, v, a) && Codable(env, a) && v.cls != a.cls)
             || (((a.ListTy? && v.ListV?) || (a.VarTupleTy? && v.TupleV?) || (a.DictTy? && v.DictV?)
                  || (a.TupleTy? && v.TupleV? && a.args != [] && |a.args| == |v.items|)) && v.cls != BUILTIN)
    ensures Decode(env, Encode(env, v, a), a) != Some(v)
  {
    RoundTripExactly(env, v, a);
  }

  /** `Model | Iterable[str]` is not ambiguous, though a dict is an `Iterable[str]`: such a dict conforms and
      is lost to the model. */
  lemma {:induction false} DictUnderIterableIsLost(env: Classes, model: nat, entries: seq<Entry>)
    requires Lawful(env)
    ensures var a, v := UnionTy([ModelTy(model), AbstractTy]), DictV(entries, BUILTIN);
      Conforms(env, v, a) && Decode(env, Encode(env, v, a), a) != Some(v)
  {
    var args := [ModelTy(model), AbstractTy];
    var a, v := UnionTy(args), DictV(entries, BUILTIN);
    assert Conforms(env, v, args[1]);
    assert AllClaims(env, args) == [DictShape] by {
      var rest := args[1..];
      assert rest == [AbstractTy] && rest[1..] == [];
      assert AllClaims(env, rest) == [];
    }
    var ms := Members(env, args);
    assert ModelTy(model) in ms;
    forall k | 0 <= k < |ms| ensures !Takes(env, v, ms[k]) {
      assert ms[k] in args;
    }
    assert Chosen(env, v, ms, 0) == |ms|;
    RoundTripExactly(env, v, a);
  }

  /** Of a rebuildable dataclass and a subclass that cannot be rebuilt, a union stores the subclass's
      instances as the base class. */
  lemma {:induction false} UnrebuildableSubclassIsLost(env: Classes, base: nat, v: Val)
    requires Lawful(env) && v.Obj? && v.cls != base && env.derived(v.cls, base)
    requires env.rebuildable(base) && !env.rebuildable(v.cls)
    ensures var a := UnionTy([DataclassTy(base), DataclassTy(v.cls)]);
      Conforms(env, v, a) && Decode(env, Encode(env, v, a), a) != Some(v)
  {
    var args := [DataclassTy(base), DataclassTy(v.cls)];
    var a := UnionTy(args);
    assert Conforms(env, v, args[1]);
    assert AllClaims(env, args) == [DictShape] by {
      var rest := args[1..];
      assert rest == [DataclassTy(v.cls)] && rest[1..] == [];
      assert AllClaims(env, rest) == [];
    }
    var ms := Members(env, args);
    assert ms == args by {
      assert args[1..] == [DataclassTy(v.cls)] && args[1..][1..] == [];
      assert DropNone(args[1..]) == args[1..];
    }
    assert Takes(env, v, ms[0]);
    assert Chosen(env, v, ms, 0) == 0;
    RoundTripExactly(env, v, a);
  }

  /** `a` inside `n` lists. */
  function Nest(n: nat, a: Ty): Ty {
    if n == 0 then a else ListTy(Nest(n - 1, a))
  }

  function Wrapped(n: nat, v: Val): Val {
    if n == 0 then v else ListV([Wrapped(n - 1, v)], BUILTIN)
  }

  lemma {:induction false} NestWants(env: Classes, n: nat, cls: nat, depth: nat)
    requires depth <= 9
    ensures WantsCodec(env, Nest(n, ModelTy(cls)), depth) <==> depth + n <= 8
  {
    if n > 0 && depth <= 8 { NestWants(env, n - 1, cls, depth + 1); }
  }

  lemma {:induction false} WrappedHolds(env: Classes, n: nat, v: Val)
    ensures NoInstances(Wrapped(n, v)) <==> NoInstances(v)
  {
    if n > 0 {
      WrappedHolds(env, n - 1, v);
      assert Wrapped(n, v).items[0] == Wrapped(n - 1, v);
    }
  }

  lemma {:induction false} WrappedConforms(env: Classes, n: nat, v: Val, a: Ty)
    requires Conforms(env, v, a)
    ensures Conforms(env, Wrapped(n, v), Nest(n, a))
  {
    if n > 0 { WrappedConforms(env, n - 1, v, a); }
  }

  lemma {:induction false} NestIsPlain(env: Classes, n: nat, cls: nat)
    ensures Plain(env, Nest(n, ModelTy(cls)), {}) && Depth(Nest(n, ModelTy(cls))) == n
  {
    if n > 0 { NestIsPlain(env, n - 1, cls); }
  }

  /** The depth limit is sharp: a model inside lists is stored without its class exactly when there are at
      most 8 of them. */
  lemma {:induction false} DepthLimit(env: Classes, n: nat, v: Val)
    requires DumpsPlainly(env) && v.Obj? && Conforms(env, v, ModelTy(v.cls))
    ensures NoInstances(Stored(env, Wrapped(n, v), Nest(n, ModelTy(v.cls)))) <==> n <= 8
  {
    NestWants(env, n, v.cls, 0);
    WrappedConforms(env, n, v, ModelTy(v.cls));
    NestIsPlain(env, n, v.cls);
    WrappedHolds(env, n, v);
    if n <= 8 { StoredNamesNoClass(env, Wrapped(n, v), Nest(n, ModelTy(v.cls)), {}); }
  }

  predicate NamesDiffer(fs: seq<Field>) {
    forall i, j :: 0 <= i < j < |fs| ==> fs[i].name != fs[j].name
  }

  const X_HINTS: map<string, Ty> := map["x" := ModelTy(0)]

  /** A model without fields, class 0, and a dataclass with a field of that model, class 1. */
  function SmallClasses(): Classes {
    Classes(
      (cls: nat) => true,
      (sub: nat, cls: nat) => false,
      (cls: nat) => if cls == 1 then Some(X_HINTS) else None,
      (w: Val) => DictV([], BUILTIN),
      (cls: nat, w: Val) => Some(Obj(cls, [])),
      (cls: nat, fs: seq<Field>) => if NamesDiffer(fs) then Some(Obj(cls, fs)) else None)
  }

  lemma {:induction false} SmallIsLawful()
    ensures Lawful(SmallClasses()) && DumpsPlainly(SmallClasses())
  {
    var env := SmallClasses();
    forall cls, fs: seq<Field> | env.construct(cls, fs).Some? ensures Sets(cls, fs, env.construct(cls, fs).value) {
      assert NamesDiffer(fs);
    }
  }

  lemma {:induction false} SmallHints(cls: nat, name: string)
    ensures Hint(SmallClasses(), cls, name) == if cls == 1 && name == "x" then Some(ModelTy(0)) else None
    ensures SmallClasses().hints(cls) == if cls == 1 then Some(X_HINTS) else None
    ensures SmallClasses().rebuildable(cls)
  {}

  function SmallValue(): Val { Obj(1, [Field("x", Obj(0, []))]) }

  lemma {:induction false} SmallConforms()
    ensures Conforms(SmallClasses(), SmallValue(), DataclassTy(1))
  {
    var env, v := SmallClasses(), SmallValue();
    assert Conforms(env, v.fields[0].val, ModelTy(0));
    SmallHints(1, "x");
    assert env.construct(1, v.fields) == Some(v);
  }

  lemma {:induction false} SmallIsPlain()
    ensures var env := SmallClasses();
      && Plain(env, DataclassTy(1), {1}) && PlainFields(env, {1})
      && Definite(env, DataclassTy(1), {1}) && DefiniteFields(env, {1})
  {
    var env := SmallClasses();
    forall cls: nat, name
      ensures env.rebuildable(cls)
      ensures Hint(env, cls, name) == if cls == 1 && name == "x" then Some(ModelTy(0)) else None
    { SmallHints(cls, name); }
    SmallHints(1, "x");
    hide SmallClasses, Hint;
  }

  /** There are classes that meet every hypothesis, with a model instance inside a dataclass instance. */
  lemma {:induction false} HypothesesCanHold() returns (env: Classes, v: Val)
    ensures Lawful(env) && DumpsPlainly(env)
    ensures Conforms(env, v, DataclassTy(1)) && Plain(env, DataclassTy(1), {1}) && PlainFields(env, {1})
    ensures Definite(env, DataclassTy(1), {1}) && DefiniteFields(env, {1})
    ensures v.Obj? && |v.fields| == 1 && v.fields[0].val.Obj?
  {
    env, v := SmallClasses(), SmallValue();
    SmallIsLawful();
    SmallConforms();
    SmallIsPlain();
    hide SmallClasses, Lawful, DumpsPlainly, Conforms, Plain, PlainFields, Definite, DefiniteFields;
  }
}
