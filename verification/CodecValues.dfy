/**
 What the codec promises for values that conform to their annotation: they come back, entries stored
 before there was a codec still read, and the stored form names no class.
 */
module CodecValues {
  import opened Options
  import opened Codec
  import opened CodecRoundTrip

  /** `v` is a value of annotation `a`, with the very classes named and with builtin containers. */
  ghost predicate Conforms(env: Classes, v: Val, a: Ty)
    decreases v, a
  {
    match a
    case NoneTy => v.NoneV?
    case ModelTy(cls) => v.Obj? && v.cls == cls && env.dump(v).DictV? && env.validate(cls, env.dump(v)) == Some(v)
    case DataclassTy(cls) =>
      if Codable(env, a) then
        && v.Obj? && v.cls == cls && env.construct(cls, v.fields) == Some(v)
        && (forall i :: 0 <= i < |v.fields| && env.hints(cls).Some? ==> Hint(env, cls, v.fields[i].name).Some?)
        && forall i :: 0 <= i < |v.fields| && Hint(env, cls, v.fields[i].name).Some? ==>
          Conforms(env, v.fields[i].val, WalkedAs(env, cls, v.fields[i].name))
      else InstanceOf(env, v, a)
    case UnionTy(args) => exists k :: 0 <= k < |args| && Conforms(env, v, args[k])
    case ListTy(elem) =>
      v.ListV? && v.cls == BUILTIN && forall i :: 0 <= i < |v.items| ==> Conforms(env, v.items[i], elem)
    case TupleTy(args) =>
      v.TupleV? && v.cls == BUILTIN && |v.items| == |args| && forall i :: 0 <= i < |args| ==>
        Conforms(env, v.items[i], args[i])
    case VarTupleTy(elem) =>
      v.TupleV? && v.cls == BUILTIN && forall i :: 0 <= i < |v.items| ==> Conforms(env, v.items[i], elem)
    case DictTy(key, val) =>
      v.DictV? && v.cls == BUILTIN && forall i :: 0 <= i < |v.entries| ==>
        Conforms(env, v.entries[i].key, key) && Conforms(env, v.entries[i].val, val)
    case ShapedTy(shape) => ShapeOf(v) == Some(shape)
    case AnyTy => true
    case LeafTy => v.Str? || v.Atom?
    case AbstractTy => true
  }

  /** A union member whose values are recognisable by their shape: no further union, no protocol or
      `Iterable`, and no dataclass that cannot be rebuilt. */
  predicate Recognisable(env: Classes, a: Ty) {
    !a.UnionTy? && !a.AbstractTy? && (a.DataclassTy? ==> env.rebuildable(a.cls))
  }

  /** Every union in `a` has recognisable members, and the dataclasses of `a` are among `classes`. */
  predicate Definite(env: Classes, a: Ty, classes: set<nat>) {
    match a
    case DataclassTy(cls) => env.rebuildable(cls) ==> cls in classes
    case UnionTy(args) => forall k :: 0 <= k < |args| ==> Recognisable(env, args[k]) && Definite(env, args[k], classes)
    case ListTy(elem) => Definite(env, elem, classes)
    case TupleTy(args) => forall k :: 0 <= k < |args| ==> Definite(env, args[k], classes)
    case VarTupleTy(elem) => Definite(env, elem, classes)
    case DictTy(_, val) => Definite(env, val, classes)
    case _ => true
  }

  /** The same of every field hint of `classes`, which may name one another. */
  ghost predicate DefiniteFields(env: Classes, classes: set<nat>) {
    forall cls, name :: cls in classes && Hint(env, cls, name).Some? ==>
      Definite(env, Hint(env, cls, name).value, classes)
  }

  // ----- round trip

  /** A member a value conforms to claims that value's stored shape. */
  lemma {:induction false} ConformingClaims(env: Classes, v: Val, a: Ty)
    requires Conforms(env, v, a) && Recognisable(env, a)
    ensures ShapeOf(v).Some? ==> ShapeOf(v).value in Claims(env, a)
    ensures v.Obj? ==> DictShape in Claims(env, a)
    ensures Codable(env, a) ==> v.Obj?
  {
  }

  /** A union walks a conforming value through the member it conforms to, or leaves it raw. */
  lemma {:induction false} ChosenConforms(env: Classes, v: Val, args: seq<Ty>, k: nat)
    requires k < |args| && Conforms(env, v, args[k]) && !v.NoneV?
    requires forall j :: 0 <= j < |args| ==> Recognisable(env, args[j])
    ensures var ms := Members(env, args); var c := Chosen(env, v, ms, 0); c < |ms| ==> ms[c] == args[k]
    ensures v.DictV? ==> forall j :: 0 <= j < |Members(env, args)| ==> !Codable(env, Members(env, args)[j])
  {
    hide WantsCodec, Conforms, Claims;
    var ms := Members(env, args);
    ConformingClaims(env, v, args[k]);
    assert !args[k].NoneTy? by { NoneConforms(env, v, args[k]); }
    if ms != [] {
      var i :| 0 <= i < |ms| && ms[i] == args[k];
      var c := Chosen(env, v, ms, 0);
      if c < |ms| && c != i {
        TakenIsClaimed(env, v, ms[c]);
        MembersApart(env, args, i, c, if v.Obj? then DictShape else ShapeOf(v).value);
        assert false;
      }
      if v.DictV? {
        forall j | 0 <= j < |ms| ensures !Codable(env, ms[j]) {
          if j != i { MembersApart(env, args, i, j, DictShape); CodableClaimsDict(env, ms[j]); }
        }
      }
    }
  }

  lemma {:induction false} NoneConforms(env: Classes, v: Val, a: Ty)
    requires Conforms(env, v, a) && !v.NoneV?
    ensures !a.NoneTy?
  {
  }

  lemma {:induction false} CodableClaimsDict(env: Classes, a: Ty)
    ensures Codable(env, a) ==> DictShape in Claims(env, a)
  {
  }

  lemma {:induction false} TakenIsClaimed(env: Classes, v: Val, a: Ty)
    requires Takes(env, v, a)
    ensures v.Obj? || ShapeOf(v).Some?
    ensures (if v.Obj? then DictShape else ShapeOf(v).value) in Claims(env, a)
  {
  }

  lemma {:induction false} ConformingReturns(env: Classes, v: Val, a: Ty, classes: set<nat>)
    requires Conforms(env, v, a) && Definite(env, a, classes) && DefiniteFields(env, classes)
    ensures Returns(env, v, a)
    decreases v, a
  {
    if !v.NoneV? {
      match a
      case DataclassTy(cls) =>
        if Codable(env, a) {
          forall i | 0 <= i < |v.fields| ensures Returns(env, v.fields[i].val, WalkedAs(env, cls, v.fields[i].name)) {
            var h := Hint(env, cls, v.fields[i].name);
            if h.Some? { ConformingReturns(env, v.fields[i].val, h.value, classes); }
          }
        }
      case UnionTy(args) =>
        var k :| 0 <= k < |args| && Conforms(env, v, args[k]);
        ChosenConforms(env, v, args, k);
        ConformingReturns(env, v, args[k], classes);
      case ListTy(elem) =>
        forall i | 0 <= i < |v.items| ensures Returns(env, v.items[i], elem) {
          ConformingReturns(env, v.items[i], elem, classes);
        }
      case TupleTy(args) =>
        forall i | 0 <= i < |args| ensures Returns(env, v.items[i], args[i]) {
          ConformingReturns(env, v.items[i], args[i], classes);
        }
      case VarTupleTy(elem) =>
        forall i | 0 <= i < |v.items| ensures Returns(env, v.items[i], elem) {
          ConformingReturns(env, v.items[i], elem, classes);
        }
      case DictTy(_, val) =>
        forall i | 0 <= i < |v.entries| ensures Returns(env, v.entries[i].val, val) {
          ConformingReturns(env, v.entries[i].val, val, classes);
        }
      case _ =>
    }
  }

  /** A conforming value comes back from the store as it was, without drift. */
  lemma {:induction false} ConformingRoundTrip(env: Classes, v: Val, a: Ty, classes: set<nat>)
    requires Lawful(env)
    requires Conforms(env, v, a) && Definite(env, a, classes) && DefiniteFields(env, classes)
    ensures Decode(env, Encode(env, v, a), a) == Some(v)
  {
    ConformingReturns(env, v, a, classes);
    RoundTripExactly(env, v, a);
  }

  // ----- entries from before the codec

  lemma {:induction false} FirstTakerReads(env: Classes, w: Val, a: Ty, j: nat)
    requires a.UnionTy? && !w.DictV?
    requires var ms := Members(env, a.args); var c := Chosen(env, w, ms, 0);
      j <= c < |ms| && Decode(env, w, ms[c]) == Some(w)
    ensures DecodeMember(env, w, a, j, false) == Some(w)
    decreases |Members(env, a.args)| - j
  {
    hide WantsCodec, RuntimeMatches, Takes, Chosen, Members, Decode;
    var ms := Members(env, a.args);
    if j < Chosen(env, w, ms, 0) { FirstTakerReads(env, w, a, j + 1); }
  }

  /** A conforming value stored as it stands, classes and all, reads back as itself. */
  lemma {:induction false} RawEntryReads(env: Classes, v: Val, a: Ty, classes: set<nat>)
    requires Conforms(env, v, a) && Definite(env, a, classes) && DefiniteFields(env, classes)
    ensures Decode(env, v, a) == Some(v)
    decreases v, a
  {
    if !v.NoneV? {
      match a
      case UnionTy(args) =>
        var k :| 0 <= k < |args| && Conforms(env, v, args[k]);
        ChosenConforms(env, v, args, k);
        RawEntryReads(env, v, args[k], classes);
        RawUnionReads(env, v, a);
      case ListTy(elem) =>
        forall i | 0 <= i < |v.items| ensures Decode(env, v.items[i], elem) == Some(v.items[i]) {
          RawEntryReads(env, v.items[i], elem, classes);
        }
        assert Decode(env, v, a).value.items == v.items;
      case TupleTy(args) =>
        forall i | 0 <= i < |args| ensures Decode(env, v.items[i], args[i]) == Some(v.items[i]) {
          RawEntryReads(env, v.items[i], args[i], classes);
        }
        if args != [] { assert Decode(env, v, a).value.items == v.items; }
      case VarTupleTy(elem) =>
        forall i | 0 <= i < |v.items| ensures Decode(env, v.items[i], elem) == Some(v.items[i]) {
          RawEntryReads(env, v.items[i], elem, classes);
        }
        assert Decode(env, v, a).value.items == v.items;
      case DictTy(_, val) =>
        forall i | 0 <= i < |v.entries| ensures Decode(env, v.entries[i].val, val) == Some(v.entries[i].val) {
          RawEntryReads(env, v.entries[i].val, val, classes);
        }
        assert Decode(env, v, a).value.entries == v.entries;
      case _ =>
    }
  }

  lemma {:induction false} RawUnionReads(env: Classes, v: Val, a: Ty)
    requires a.UnionTy? && !v.NoneV?
    requires v.DictV? ==> forall j :: 0 <= j < |Members(env, a.args)| ==> !Codable(env, Members(env, a.args)[j])
    requires var ms := Members(env, a.args); var c := Chosen(env, v, ms, 0); c < |ms| ==>
             Decode(env, v, ms[c]) == Some(v)
    ensures Decode(env, v, a) == Some(v)
  {
    hide WantsCodec, RuntimeMatches, Takes;
    var ms := Members(env, a.args);
    var c := Chosen(env, v, ms, 0);
    if c == |ms| { UntakenIsRaw(env, v, a, 0); }
    else if v.DictV? { ReadThroughClaimant(env, v, a, c); }
    else { FirstTakerReads(env, v, a, 0); }
  }

  // ----- the stored form names no class

  ghost predicate NoInstances(v: Val) {
    match v
    case ListV(items, _) => forall i :: 0 <= i < |items| ==> NoInstances(items[i])
    case TupleV(items, _) => forall i :: 0 <= i < |items| ==> NoInstances(items[i])
    case DictV(entries, _) => forall i :: 0 <= i < |entries| ==>
      NoInstances(entries[i].key) && NoInstances(entries[i].val)
    case Obj(_, _) => false
    case _ => true
  }

  /** How deep containers and unions nest. */
  function Depth(a: Ty): nat {
    match a
    case UnionTy(args) => 1 + MaxDepth(args)
    case ListTy(elem) => 1 + Depth(elem)
    case TupleTy(args) => 1 + MaxDepth(args)
    case VarTupleTy(elem) => 1 + Depth(elem)
    case DictTy(key, val) => 1 + (if Depth(key) > Depth(val) then Depth(key) else Depth(val))
    case _ => 0
  }

  function MaxDepth(args: seq<Ty>): (r: nat)
    ensures forall k :: 0 <= k < |args| ==> Depth(args[k]) <= r
  {
    if args == [] then 0
    else
      var rest := MaxDepth(args[1..]);
      assert forall k :: 1 <= k < |args| ==> args[k] == args[1..][k - 1];
      if Depth(args[0]) > rest then Depth(args[0]) else rest
  }

  /** Built from models, rebuildable dataclasses of `classes`, list, tuple, dict with plain keys, unambiguous
      unions, None and plain leaves. */
  predicate Plain(env: Classes, a: Ty, classes: set<nat>) {
    match a
    case NoneTy => true
    case ModelTy(_) => true
    case DataclassTy(cls) => env.rebuildable(cls) && cls in classes
    case UnionTy(args) =>
      && UnionCodecMembers(env, args).Some?
      && forall k :: 0 <= k < |args| ==> !args[k].UnionTy? && Plain(env, args[k], classes)
    case ListTy(elem) => Plain(env, elem, classes)
    case TupleTy(args) => forall k :: 0 <= k < |args| ==> Plain(env, args[k], classes)
    case VarTupleTy(elem) => Plain(env, elem, classes)
    case DictTy(key, val) => key.LeafTy? && Plain(env, val, classes)
    case LeafTy => true
    case _ => false
  }

  /** The hints of `classes` resolve, and are plain and at most 8 deep themselves. */
  ghost predicate PlainFields(env: Classes, classes: set<nat>) {
    && (forall cls :: cls in classes ==> env.hints(cls).Some?)
    && forall cls, name :: cls in classes && name in env.hints(cls).value ==>
      Plain(env, env.hints(cls).value[name], classes) && Depth(env.hints(cls).value[name]) <= 8
  }

  ghost predicate DumpsPlainly(env: Classes) {
    forall v: Val :: NoInstances(env.dump(v))
  }

  /** What a cached function's wrapper stores: an annotation that wants no codec is switched off. */
  function Stored(env: Classes, v: Val, a: Ty): Val {
    if WantsCodec(env, a, 0) then Encode(env, v, a) else v
  }

  /** An annotation within the depth limit that wants no codec has no value with an instance in it. */
  lemma {:induction false} UnwantedHoldsNone(env: Classes, v: Val, a: Ty, classes: set<nat>, depth: nat)
    requires Conforms(env, v, a) && Plain(env, a, classes)
    requires depth + Depth(a) <= 8 && !WantsCodec(env, a, depth)
    ensures NoInstances(v)
    decreases v, a, 1
  {
    match a
    case UnionTy(args) => UnwantedUnion(env, v, args, classes, depth);
    case ListTy(elem) =>
      forall i | 0 <= i < |v.items| ensures NoInstances(v.items[i]) {
        UnwantedHoldsNone(env, v.items[i], elem, classes, depth + 1);
      }
    case TupleTy(args) => UnwantedTuple(env, v, args, classes, depth);
    case VarTupleTy(elem) =>
      forall i | 0 <= i < |v.items| ensures NoInstances(v.items[i]) {
        UnwantedHoldsNone(env, v.items[i], elem, classes, depth + 1);
      }
    case DictTy(key, val) => UnwantedDict(env, v, key, val, classes, depth);
    case _ =>
  }

  lemma {:induction false} UnwantedUnion(env: Classes, v: Val, args: seq<Ty>, classes: set<nat>, depth: nat)
    requires Conforms(env, v, UnionTy(args)) && Plain(env, UnionTy(args), classes)
    requires depth + Depth(UnionTy(args)) <= 8 && !WantsCodec(env, UnionTy(args), depth)
    ensures NoInstances(v)
    decreases v, UnionTy(args), 0
  {
    hide AllClaims, DropNone;
    var k :| 0 <= k < |args| && Conforms(env, v, args[k]);
    if !args[k].NoneTy? {
      var ms := UnionCodecMembers(env, args).value;
      var i :| 0 <= i < |ms| && ms[i] == args[k];
      UnwantedHoldsNone(env, v, args[k], classes, depth + 1);
    }
  }

  lemma {:induction false} UnwantedTuple(env: Classes, v: Val, args: seq<Ty>, classes: set<nat>, depth: nat)
    requires Conforms(env, v, TupleTy(args)) && Plain(env, TupleTy(args), classes)
    requires depth + Depth(TupleTy(args)) <= 8 && !WantsCodec(env, TupleTy(args), depth)
    ensures NoInstances(v)
    decreases v, TupleTy(args), 0
  {
    forall i | 0 <= i < |args| ensures NoInstances(v.items[i]) {
      UnwantedHoldsNone(env, v.items[i], args[i], classes, depth + 1);
    }
  }

  lemma {:induction false} UnwantedDict(env: Classes, v: Val, key: Ty, val: Ty, classes: set<nat>, depth: nat)
    requires Conforms(env, v, DictTy(key, val)) && Plain(env, DictTy(key, val), classes)
    requires depth + Depth(DictTy(key, val)) <= 8 && !WantsCodec(env, DictTy(key, val), depth)
    ensures NoInstances(v)
    decreases v, DictTy(key, val), 0
  {
    forall i | 0 <= i < |v.entries| ensures NoInstances(v.entries[i].val) {
      UnwantedHoldsNone(env, v.entries[i].val, val, classes, depth + 1);
    }
  }

  lemma {:induction false} PlainIsRecognisable(env: Classes, args: seq<Ty>, classes: set<nat>)
    requires Plain(env, UnionTy(args), classes)
    ensures forall k :: 0 <= k < |args| ==> Recognisable(env, args[k])
  {
  }

  /** A member that a conforming value is not walked through wants no codec. */
  lemma {:induction false} UntakenIsUnwanted(env: Classes, v: Val, a: Ty, classes: set<nat>)
    requires Conforms(env, v, a) && Plain(env, a, classes) && !a.UnionTy? && !Takes(env, v, a)
    ensures !WantsCodec(env, a, 0)
  {
  }

  lemma {:induction false} EncodedUnion(env: Classes, v: Val, args: seq<Ty>, classes: set<nat>) returns (k: nat)
    requires Conforms(env, v, UnionTy(args)) && Plain(env, UnionTy(args), classes) && !v.NoneV?
    ensures k < |args| && Conforms(env, v, args[k])
    ensures Encode(env, v, UnionTy(args)) == Encode(env, v, args[k])
      || (Encode(env, v, UnionTy(args)) == v && !WantsCodec(env, args[k], 0))
  {
    hide WantsCodec, Takes, Conforms, RuntimeMatches;
    k := MemberOf(env, v, args);
    PlainIsRecognisable(env, args, classes);
    ChosenConforms(env, v, args, k);
    var ms := Members(env, args);
    var c := Chosen(env, v, ms, 0);
    if c == |ms| {
      NoneConforms(env, v, args[k]);
      var i :| 0 <= i < |ms| && ms[i] == args[k];
      UntakenIsUnwanted(env, v, args[k], classes);
    }
  }

  lemma {:induction false} MemberOf(env: Classes, v: Val, args: seq<Ty>) returns (k: nat)
    requires Conforms(env, v, UnionTy(args))
    ensures k < |args| && Conforms(env, v, args[k])
  {
    k :| 0 <= k < |args| && Conforms(env, v, args[k]);
  }

  /** Encoding a conforming value of a plain annotation leaves no model or dataclass instance in it. */
  lemma {:induction false} EncodedHoldsNoInstance(env: Classes, v: Val, a: Ty, classes: set<nat>)
    requires DumpsPlainly(env) && PlainFields(env, classes)
    requires Conforms(env, v, a) && Plain(env, a, classes) && Depth(a) <= 9
    ensures NoInstances(Encode(env, v, a))
    decreases v, a, 1
  {
    hide WantsCodec, Takes, RuntimeMatches, Chosen, Members;
    if !v.NoneV? {
      match a
      case DataclassTy(cls) => EncodedDataclass(env, v, cls, classes);
      case UnionTy(args) =>
        var k := EncodedUnion(env, v, args, classes);
        if Encode(env, v, a) == v && !WantsCodec(env, args[k], 0) {
          UnwantedHoldsNone(env, v, args[k], classes, 0);
        } else {
          EncodedHoldsNoInstance(env, v, args[k], classes);
        }
      case ListTy(elem) => EncodedItems(env, v, a, elem, classes);
      case TupleTy(args) => EncodedTuple(env, v, args, classes);
      case VarTupleTy(elem) => EncodedItems(env, v, a, elem, classes);
      case DictTy(key, val) => EncodedDict(env, v, key, val, classes);
      case _ =>
    }
  }

  lemma {:induction false} EncodedDataclass(env: Classes, v: Val, cls: nat, classes: set<nat>)
    requires DumpsPlainly(env) && PlainFields(env, classes)
    requires Conforms(env, v, DataclassTy(cls)) && Plain(env, DataclassTy(cls), classes)
    ensures NoInstances(Encode(env, v, DataclassTy(cls)))
    decreases v, DataclassTy(cls), 0
  {
    hide WantsCodec, Takes, RuntimeMatches, Chosen, Members;
    forall i | 0 <= i < |v.fields|
      ensures NoInstances(Encode(env, v.fields[i].val, WalkedAs(env, cls, v.fields[i].name)))
    {
      EncodedHoldsNoInstance(env, v.fields[i].val, Hint(env, cls, v.fields[i].name).value, classes);
    }
  }

  lemma {:induction false} EncodedItems(env: Classes, v: Val, a: Ty, elem: Ty, classes: set<nat>)
    requires DumpsPlainly(env) && PlainFields(env, classes) && (a == ListTy(elem) || a == VarTupleTy(elem))
    requires Conforms(env, v, a) && Plain(env, a, classes) && Depth(a) <= 9
    ensures NoInstances(Encode(env, v, a))
    decreases v, a, 0
  {
    hide WantsCodec, Takes, RuntimeMatches, Chosen, Members;
    forall i | 0 <= i < |v.items| ensures NoInstances(EncodeItems(env, v, elem)[i]) {
      EncodedHoldsNoInstance(env, v.items[i], elem, classes);
    }
  }

  lemma {:induction false} EncodedTuple(env: Classes, v: Val, args: seq<Ty>, classes: set<nat>)
    requires DumpsPlainly(env) && PlainFields(env, classes)
    requires Conforms(env, v, TupleTy(args)) && Plain(env, TupleTy(args), classes) && Depth(TupleTy(args)) <= 9
    ensures NoInstances(Encode(env, v, TupleTy(args)))
    decreases v, TupleTy(args), 0
  {
    hide WantsCodec, Takes, RuntimeMatches, Chosen, Members;
    forall i | 0 <= i < |args| ensures NoInstances(Encode(env, v.items[i], args[i])) {
      EncodedHoldsNoInstance(env, v.items[i], args[i], classes);
    }
  }

  lemma {:induction false} EncodedDict(env: Classes, v: Val, key: Ty, val: Ty, classes: set<nat>)
    requires DumpsPlainly(env) && PlainFields(env, classes)
    requires Conforms(env, v, DictTy(key, val)) && Plain(env, DictTy(key, val), classes) && Depth(DictTy(key, val)) <= 9
    ensures NoInstances(Encode(env, v, DictTy(key, val)))
    decreases v, DictTy(key, val), 0
  {
    hide WantsCodec, Takes, RuntimeMatches, Chosen, Members;
    forall i | 0 <= i < |v.entries| ensures NoInstances(Encode(env, v.entries[i].val, val)) {
      EncodedHoldsNoInstance(env, v.entries[i].val, val, classes);
    }
  }

  /** What is stored for a conforming value of a plain annotation nested at most 8 deep names no class. */
  lemma {:induction false} StoredNamesNoClass(env: Classes, v: Val, a: Ty, classes: set<nat>)
    requires DumpsPlainly(env) && PlainFields(env, classes)
    requires Conforms(env, v, a) && Plain(env, a, classes) && Depth(a) <= 8
    ensures NoInstances(Stored(env, v, a))
  {
    if WantsCodec(env, a, 0) { EncodedHoldsNoInstance(env, v, a, classes); }
    else { UnwantedHoldsNone(env, v, a, classes, 0); }
  }
}
