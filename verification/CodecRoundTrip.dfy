/** The codec gives a value back exactly when every place its walk rewrites can be put back. */
module CodecRoundTrip {
  import opened Options
  import opened Codec

  /** pydantic and the dataclass constructors build instances of the class asked for, a constructor sets the
      fields it is given, and a model dump is no instance. */
  ghost predicate Lawful(env: Classes) {
    && (forall cls, d: Val :: env.validate(cls, d).Some? ==>
          env.validate(cls, d).value.Obj? && env.validate(cls, d).value.cls == cls)
    && (forall cls, fs: seq<Field> :: env.construct(cls, fs).Some? ==> Sets(cls, fs, env.construct(cls, fs).value))
    && (forall v: Val :: !env.dump(v).Obj?)
  }

  predicate Sets(cls: nat, fs: seq<Field>, o: Val) {
    && o.Obj? && o.cls == cls
    && forall i, j :: 0 <= i < |fs| && 0 <= j < |o.fields| && fs[i].name == o.fields[j].name ==>
       fs[i].val == o.fields[j].val
  }

  /** Wherever the walk of `v` under `a` rewrites a value or would claim a stored one: a model or dataclass
      instance is of the very class named and its class rebuilds it, a container is no subclass, and a dict
      does not stand where a class is expected. */
  ghost predicate Returns(env: Classes, v: Val, a: Ty)
    decreases v, a
  {
    if v.NoneV? then true
    else match a
      case ModelTy(cls) =>
        if InstanceOf(env, v, a) then v.cls == cls && env.dump(v).DictV? && env.validate(cls, env.dump(v)) == Some(v)
        else !v.DictV?
      case DataclassTy(cls) =>
        if !Codable(env, a) then true
        else if InstanceOf(env, v, a) then
          && v.cls == cls
          && (forall i :: 0 <= i < |v.fields| ==> Returns(env, v.fields[i].val, WalkedAs(env, cls, v.fields[i].name)))
          && env.construct(cls, v.fields) == Some(v)
        else !v.DictV?
      case UnionTy(args) =>
        var members := Members(env, args);
        var k := Chosen(env, v, members, 0);
        if k < |members| then Returns(env, v, members[k])
        else !v.DictV? || forall j :: 0 <= j < |members| ==> !Codable(env, members[j])
      case ListTy(elem) =>
        v.ListV? ==> v.cls == BUILTIN && forall i :: 0 <= i < |v.items| ==> Returns(env, v.items[i], elem)
      case TupleTy(args) =>
        v.TupleV? && args != [] && |args| == |v.items| ==>
          v.cls == BUILTIN && forall i :: 0 <= i < |args| ==> Returns(env, v.items[i], args[i])
      case VarTupleTy(elem) =>
        v.TupleV? ==> v.cls == BUILTIN && forall i :: 0 <= i < |v.items| ==> Returns(env, v.items[i], elem)
      case DictTy(_, val) =>
        v.DictV? ==> v.cls == BUILTIN && forall i :: 0 <= i < |v.entries| ==> Returns(env, v.entries[i].val, val)
      case _ => true
  }

  /** Decoding undoes encoding. */
  ghost predicate Undone(env: Classes, v: Val, a: Ty) {
    Decode(env, Encode(env, v, a), a) == Some(v)
  }

  /** Only an instance or a dict reads back as an instance. */
  lemma {:induction false} InstancesComeFromDicts(env: Classes, w: Val, a: Ty)
    requires !w.Obj? && !w.DictV?
    ensures Decode(env, w, a).Some? ==> !Decode(env, w, a).value.Obj?
    decreases w, a, if a.UnionTy? then |Members(env, a.args)| + 1 else 0
  {
    if a.UnionTy? { MembersComeFromDicts(env, w, a, 0, false); }
  }

  lemma {:induction false} MembersComeFromDicts(env: Classes, w: Val, a: Ty, k: nat, drifted: bool)
    requires !w.Obj? && !w.DictV? && a.UnionTy? && k <= |Members(env, a.args)|
    ensures DecodeMember(env, w, a, k, drifted).Some? ==> !DecodeMember(env, w, a, k, drifted).value.Obj?
    decreases w, a, |Members(env, a.args)| - k
  {
    var members := Members(env, a.args);
    if k < |members| {
      if Takes(env, w, members[k]) { InstancesComeFromDicts(env, w, members[k]); }
      else { MembersComeFromDicts(env, w, a, k + 1, drifted); }
    }
  }

  // ----- one claimant for every stored shape

  /** Where the claims of `args[i]` start among all claims. */
  function Start(env: Classes, args: seq<Ty>, i: nat): (r: nat)
    requires i <= |args|
    ensures r <= |AllClaims(env, args)|
  {
    if i == 0 then 0 else |Claims(env, args[0])| + Start(env, args[1..], i - 1)
  }

  lemma {:induction false} ClaimAt(env: Classes, args: seq<Ty>, i: nat, p: nat)
    requires i < |args| && p < |Claims(env, args[i])|
    ensures Start(env, args, i) + p < |AllClaims(env, args)|
    ensures AllClaims(env, args)[Start(env, args, i) + p] == Claims(env, args[i])[p]
  {
    hide Claims;
    if i > 0 { ClaimAt(env, args[1..], i - 1, p); }
  }

  lemma {:induction false} StartsApart(env: Classes, args: seq<Ty>, i: nat, j: nat)
    requires i < j < |args|
    ensures Start(env, args, i) + |Claims(env, args[i])| <= Start(env, args, j)
  {
    if i > 0 { StartsApart(env, args[1..], i - 1, j - 1); }
  }

  lemma {:induction false} ClaimsDiffer(env: Classes, args: seq<Ty>, i: nat, j: nat, p: nat, q: nat)
    requires i < j < |args| && !Repeats(AllClaims(env, args))
    requires p < |Claims(env, args[i])| && q < |Claims(env, args[j])|
    ensures Claims(env, args[i])[p] != Claims(env, args[j])[q]
  {
    hide AllClaims, Claims, Start;
    ClaimAt(env, args, i, p);
    ClaimAt(env, args, j, q);
    StartsApart(env, args, i, j);
    var x: int, y: int := Start(env, args, i) + p, Start(env, args, j) + q;
    var all := AllClaims(env, args);
    assert 0 <= x < y < |all|;
    assert all[x] != all[y];
  }

  /** In an unambiguous union no two members claim one shape. */
  lemma {:induction false} OneClaimant(env: Classes, args: seq<Ty>, i: nat, j: nat, shape: Shape)
    requires i < |args| && j < |args| && i != j && !Repeats(AllClaims(env, args))
    requires shape in Claims(env, args[i])
    ensures shape !in Claims(env, args[j])
  {
    hide *;
    var p: nat :| p < |Claims(env, args[i])| && Claims(env, args[i])[p] == shape;
    forall q: nat | q < |Claims(env, args[j])| ensures Claims(env, args[j])[q] != shape {
      if i < j { ClaimsDiffer(env, args, i, j, p, q); } else { ClaimsDiffer(env, args, j, i, q, p); }
    }
  }

  lemma {:induction false} NoneClaimsNothing(env: Classes, args: seq<Ty>)
    ensures AllClaims(env, DropNone(args)) == AllClaims(env, args)
  {
    if args != [] {
      NoneClaimsNothing(env, args[1..]);
      if !args[0].NoneTy? {
        assert DropNone(args)[1..] == DropNone(args[1..]);
      } else {
        assert DropNone(args) == DropNone(args[1..]);
      }
    }
  }

  /** No two members the codec looks at claim one shape. */
  lemma {:induction false} MembersApart(env: Classes, args: seq<Ty>, i: nat, j: nat, shape: Shape)
    requires i < |Members(env, args)| && j < |Members(env, args)| && i != j
    requires shape in Claims(env, Members(env, args)[i])
    ensures shape !in Claims(env, Members(env, args)[j])
  {
    NoneClaimsNothing(env, args);
    OneClaimant(env, Members(env, args), i, j, shape);
  }

  // ----- unions

  /** The stored shape of a container. */
  function ShapeOf(w: Val): Option<Shape> {
    match w
    case ListV(_, _) => Some(ListShape)
    case TupleV(_, _) => Some(TupleShape)
    case DictV(_, _) => Some(DictShape)
    case _ => None
  }

  /** A stored dict is claimed by a class member, a stored container by the member that takes it. */
  lemma {:induction false} ClaimedBy(env: Classes, w: Val, a: Ty)
    requires ShapeOf(w).Some?
    ensures Takes(env, w, a) || (Codable(env, a) && w.DictV?) ==> ShapeOf(w).value in Claims(env, a)
  {
  }

  /** Before reaching the member that claims the stored shape, the loop passes every other member by. */
  lemma {:induction false} OthersPass(env: Classes, w: Val, a: Ty, k: nat, j: nat)
    requires a.UnionTy? && j <= k < |Members(env, a.args)|
    requires ShapeOf(w).Some? && ShapeOf(w).value in Claims(env, Members(env, a.args)[k])
    ensures DecodeMember(env, w, a, j, false) == DecodeMember(env, w, a, k, false)
    decreases k - j
  {
    if j < k {
      var members := Members(env, a.args);
      MembersApart(env, a.args, k, j, ShapeOf(w).value);
      ClaimedBy(env, w, members[j]);
      OthersPass(env, w, a, k, j + 1);
    }
  }

  /** After a class member refused a dict, no other member takes it. */
  lemma {:induction false} RefusedIsDrift(env: Classes, w: Val, a: Ty, k: nat, j: nat)
    requires a.UnionTy? && k < j <= |Members(env, a.args)|
    requires w.DictV? && DictShape in Claims(env, Members(env, a.args)[k])
    ensures DecodeMember(env, w, a, j, true) == None
    decreases |Members(env, a.args)| - j
  {
    if j < |Members(env, a.args)| {
      MembersApart(env, a.args, k, j, DictShape);
      ClaimedBy(env, w, Members(env, a.args)[j]);
      RefusedIsDrift(env, w, a, k, j + 1);
    }
  }

  /** A stored container reads back through the one member that claims its shape. */
  lemma {:induction false} ReadThroughClaimant(env: Classes, w: Val, a: Ty, k: nat)
    requires a.UnionTy? && k < |Members(env, a.args)|
    requires var m := Members(env, a.args)[k]; (Codable(env, m) && w.DictV?) || (!Codable(env, m) && Takes(env, w, m))
    ensures Decode(env, w, a) == Decode(env, w, Members(env, a.args)[k])
  {
    var m := Members(env, a.args)[k];
    ClaimedBy(env, w, m);
    OthersPass(env, w, a, k, 0);
    if Codable(env, m) && Decode(env, w, m) == None { RefusedIsDrift(env, w, a, k, k + 1); }
  }

  /** With no taker, a value that is no dict under a class member reads back as itself... */
  lemma {:induction false} UntakenIsRaw(env: Classes, w: Val, a: Ty, j: nat)
    requires a.UnionTy? && j <= |Members(env, a.args)|
    requires forall k :: 0 <= k < |Members(env, a.args)| ==> !Takes(env, w, Members(env, a.args)[k])
    requires w.DictV? ==> forall k :: 0 <= k < |Members(env, a.args)| ==> !Codable(env, Members(env, a.args)[k])
    ensures DecodeMember(env, w, a, j, false) == Some(w)
    decreases |Members(env, a.args)| - j
  {
    if j < |Members(env, a.args)| { UntakenIsRaw(env, w, a, j + 1); }
  }

  lemma {:induction false} ClassGivesInstance(env: Classes, w: Val, a: Ty)
    requires Lawful(env) && w.DictV? && Codable(env, a)
    ensures Decode(env, w, a).Some? ==> Decode(env, w, a).value.Obj?
  {
  }

  /** ... and a dict under a class member does not. */
  lemma {:induction false} UntakenDictIsLost(env: Classes, w: Val, a: Ty, j: nat, drifted: bool)
    requires Lawful(env) && a.UnionTy? && j <= |Members(env, a.args)| && w.DictV?
    requires forall k :: 0 <= k < |Members(env, a.args)| ==> !Takes(env, w, Members(env, a.args)[k])
    requires drifted || exists k :: j <= k < |Members(env, a.args)| && Codable(env, Members(env, a.args)[k])
    ensures DecodeMember(env, w, a, j, drifted) != Some(w)
    decreases |Members(env, a.args)| - j
  {
    var members := Members(env, a.args);
    if j < |members| {
      if Codable(env, members[j]) {
        ClassGivesInstance(env, w, members[j]);
        if Decode(env, w, members[j]) == None { UntakenDictIsLost(env, w, a, j + 1, true); }
      } else {
        UntakenDictIsLost(env, w, a, j + 1, drifted);
      }
    }
  }

  // ----- the round trip

  /** A container member keeps the shape it takes. */
  lemma {:induction false} TakesAgain(env: Classes, v: Val, a: Ty)
    requires Takes(env, v, a) && !Codable(env, a)
    ensures Takes(env, Encode(env, v, a), a)
  {
  }

  lemma {:induction false} UnionReturns(env: Classes, v: Val, a: Ty)
    requires Lawful(env) && a.UnionTy? && !v.NoneV?
    requires var ms := Members(env, a.args); var k := Chosen(env, v, ms, 0);
      k < |ms| ==> (Undone(env, v, ms[k]) <==> Returns(env, v, ms[k]))
    ensures Undone(env, v, a) <==> Returns(env, v, a)
  {
    hide WantsCodec;
    var members := Members(env, a.args);
    var k := Chosen(env, v, members, 0);
    if k < |members| {
      var m := members[k];
      var w := Encode(env, v, m);
      assert Encode(env, v, a) == w;
      if !Codable(env, m) {
        TakesAgain(env, v, m);
        ReadThroughClaimant(env, w, a, k);
      } else if w.DictV? {
        ReadThroughClaimant(env, w, a, k);
      } else {
        assert v.Obj? && !w.Obj?;
        InstancesComeFromDicts(env, w, a);
        InstancesComeFromDicts(env, w, m);
      }
    } else {
      assert Encode(env, v, a) == v;
      if v.DictV? && exists j :: 0 <= j < |members| && Codable(env, members[j]) {
        UntakenDictIsLost(env, v, a, 0, false);
      } else {
        UntakenIsRaw(env, v, a, 0);
      }
    }
  }

  /** What decoding makes of the `i`-th stored field. */
  function FieldBack(env: Classes, v: Val, cls: nat, i: nat): Option<Val>
    requires v.Obj? && i < |v.fields|
  {
    var h := WalkedAs(env, cls, v.fields[i].name);
    Decode(env, Encode(env, v.fields[i].val, h), h)
  }

  /** A stored dataclass is constructed from the fields that come back. */
  lemma {:induction false} BuiltFromFields(env: Classes, v: Val, a: Ty)
    requires a.DataclassTy? && Codable(env, a) && InstanceOf(env, v, a)
    ensures (forall i :: 0 <= i < |v.fields| ==> FieldBack(env, v, a.cls, i).Some?) ==>
      var back := seq(|v.fields|, i requires 0 <= i < |v.fields| && FieldBack(env, v, a.cls, i).Some? =>
        Field(v.fields[i].name, FieldBack(env, v, a.cls, i).value));
      Decode(env, Encode(env, v, a), a) == env.construct(a.cls, back)
    ensures !(forall i :: 0 <= i < |v.fields| ==> FieldBack(env, v, a.cls, i).Some?) ==>
            Decode(env, Encode(env, v, a), a) == None
  {
    var w := Encode(env, v, a);
    var n := |v.fields|;
    assert w.DictV? && |w.entries| == n;
    forall i | 0 <= i < n
      ensures FieldBack(env, v, a.cls, i) == Decode(env, w.entries[i].val, KeyHint(env, a.cls, w.entries[i].key))
    {
      assert w.entries[i] == Entry(Str(v.fields[i].name),
                                   Encode(env, v.fields[i].val, WalkedAs(env, a.cls, v.fields[i].name)));
    }
    if forall i :: 0 <= i < n ==> FieldBack(env, v, a.cls, i).Some? {
      var back := seq(n, i requires 0 <= i < n && FieldBack(env, v, a.cls, i).Some? =>
        Field(v.fields[i].name, FieldBack(env, v, a.cls, i).value));
      var entries := seq(n, i requires 0 <= i < n =>
        Entry(w.entries[i].key, Decode(env, w.entries[i].val, KeyHint(env, a.cls, w.entries[i].key)).value));
      assert Decode(env, w, a) == Rebuild(env, a.cls, entries);
      assert seq(n, i requires 0 <= i < n => Field(entries[i].key.text, entries[i].val)) == back;
    }
  }

  lemma {:induction false} DataclassReturns(env: Classes, v: Val, a: Ty)
    requires Lawful(env) && a.DataclassTy? && Codable(env, a) && InstanceOf(env, v, a)
    requires forall i :: 0 <= i < |v.fields| ==>
      (FieldBack(env, v, a.cls, i) == Some(v.fields[i].val)
       <==> Returns(env, v.fields[i].val, WalkedAs(env, a.cls, v.fields[i].name)))
    ensures Undone(env, v, a) <==> Returns(env, v, a)
  {
    hide Encode, Decode, WalkedAs, FieldBack;
    BuiltFromFields(env, v, a);
    var n := |v.fields|;
    if forall i :: 0 <= i < n ==> FieldBack(env, v, a.cls, i).Some? {
      var back := seq(n, i requires 0 <= i < n && FieldBack(env, v, a.cls, i).Some? =>
        Field(v.fields[i].name, FieldBack(env, v, a.cls, i).value));
      if Undone(env, v, a) {
        assert Sets(a.cls, back, v);
        forall i | 0 <= i < n ensures back[i] == v.fields[i] { assert back[i].name == v.fields[i].name; }
        assert back == v.fields;
      }
      if Returns(env, v, a) { assert back == v.fields; }
    }
  }

  lemma {:induction false} ListReturns(env: Classes, v: Val, elem: Ty)
    requires v.ListV?
    requires forall i :: 0 <= i < |v.items| ==> (Undone(env, v.items[i], elem) <==> Returns(env, v.items[i], elem))
    ensures Undone(env, v, ListTy(elem)) <==> Returns(env, v, ListTy(elem))
  {
    var w := Encode(env, v, ListTy(elem));
    assert w.items == EncodeItems(env, v, elem);
    assert forall i :: 0 <= i < |v.items| ==> w.items[i] == Encode(env, v.items[i], elem);
    if Undone(env, v, ListTy(elem)) {
      var r := Decode(env, w, ListTy(elem)).value;
      forall i | 0 <= i < |v.items| ensures Undone(env, v.items[i], elem) {
        assert r.items[i] == v.items[i];
      }
    }
    if Returns(env, v, ListTy(elem)) {
      assert Decode(env, w, ListTy(elem)).value.items == v.items;
    }
  }

  lemma {:induction false} VarTupleReturns(env: Classes, v: Val, elem: Ty)
    requires v.TupleV?
    requires forall i :: 0 <= i < |v.items| ==> (Undone(env, v.items[i], elem) <==> Returns(env, v.items[i], elem))
    ensures Undone(env, v, VarTupleTy(elem)) <==> Returns(env, v, VarTupleTy(elem))
  {
    var w := Encode(env, v, VarTupleTy(elem));
    assert w.items == EncodeItems(env, v, elem);
    assert forall i :: 0 <= i < |v.items| ==> w.items[i] == Encode(env, v.items[i], elem);
    if Undone(env, v, VarTupleTy(elem)) {
      var r := Decode(env, w, VarTupleTy(elem)).value;
      forall i | 0 <= i < |v.items| ensures Undone(env, v.items[i], elem) {
        assert r.items[i] == v.items[i];
      }
    }
    if Returns(env, v, VarTupleTy(elem)) {
      assert Decode(env, w, VarTupleTy(elem)).value.items == v.items;
    }
  }

  lemma {:induction false} TupleReturns(env: Classes, v: Val, args: seq<Ty>)
    requires v.TupleV? && args != [] && |args| == |v.items|
    requires forall i :: 0 <= i < |args| ==> (Undone(env, v.items[i], args[i]) <==> Returns(env, v.items[i], args[i]))
    ensures Undone(env, v, TupleTy(args)) <==> Returns(env, v, TupleTy(args))
  {
    var w := Encode(env, v, TupleTy(args));
    assert forall i :: 0 <= i < |args| ==> w.items[i] == Encode(env, v.items[i], args[i]);
    if Undone(env, v, TupleTy(args)) {
      var r := Decode(env, w, TupleTy(args)).value;
      forall i | 0 <= i < |args| ensures Undone(env, v.items[i], args[i]) {
        assert r.items[i] == v.items[i];
      }
    }
    if Returns(env, v, TupleTy(args)) {
      assert Decode(env, w, TupleTy(args)).value.items == v.items;
    }
  }

  lemma {:induction false} DictReturns(env: Classes, v: Val, key: Ty, val: Ty)
    requires v.DictV?
    requires forall i :: 0 <= i < |v.entries| ==>
             (Undone(env, v.entries[i].val, val) <==> Returns(env, v.entries[i].val, val))
    ensures Undone(env, v, DictTy(key, val)) <==> Returns(env, v, DictTy(key, val))
  {
    var w := Encode(env, v, DictTy(key, val));
    assert forall i :: 0 <= i < |v.entries| ==>
           w.entries[i] == Entry(v.entries[i].key, Encode(env, v.entries[i].val, val));
    if Undone(env, v, DictTy(key, val)) {
      var r := Decode(env, w, DictTy(key, val)).value;
      forall i | 0 <= i < |v.entries| ensures Undone(env, v.entries[i].val, val) {
        assert r.entries[i] == v.entries[i];
      }
    }
    if Returns(env, v, DictTy(key, val)) {
      assert Decode(env, w, DictTy(key, val)).value.entries == v.entries;
    }
  }

  /** Does the walk of `v` under `a` go on inside `v`, or through a member of `a`? */
  predicate Enters(env: Classes, v: Val, a: Ty) {
    match a
    case DataclassTy(_) => Codable(env, a) && InstanceOf(env, v, a)
    case UnionTy(_) => !v.NoneV?
    case ListTy(_) => v.ListV?
    case TupleTy(args) => v.TupleV? && args != [] && |args| == |v.items|
    case VarTupleTy(_) => v.TupleV?
    case DictTy(_, _) => v.DictV?
    case _ => false
  }

  lemma {:induction false} OutsideReturns(env: Classes, v: Val, a: Ty)
    requires Lawful(env) && !Enters(env, v, a)
    ensures Undone(env, v, a) <==> Returns(env, v, a)
  {
    if a.ModelTy? && InstanceOf(env, v, a) {
      var w := env.dump(v);
      assert Encode(env, v, a) == w && !w.Obj?;
      if w.DictV? { assert Decode(env, w, a) == env.validate(a.cls, w); }
    } else if !v.NoneV? {
      assert Encode(env, v, a) == v;
      if Codable(env, a) && v.DictV? { ClassGivesInstance(env, v, a); }
    }
  }

  /** Decoding gives an encoded value back if and only if every place the walk rewrites can be put back. */
  lemma {:induction false} RoundTripExactly(env: Classes, v: Val, a: Ty)
    requires Lawful(env)
    ensures Decode(env, Encode(env, v, a), a) == Some(v) <==> Returns(env, v, a)
    decreases v, a
  {
    hide Encode, Decode, Returns, WantsCodec, RuntimeMatches, Takes, Chosen, Members, Lawful, WalkedAs;
    assert Undone(env, v, a) <==> Decode(env, Encode(env, v, a), a) == Some(v);
    if !Enters(env, v, a) {
      OutsideReturns(env, v, a);
    } else {
      match a
      case DataclassTy(cls) =>
        forall i | 0 <= i < |v.fields|
          ensures FieldBack(env, v, cls, i) == Some(v.fields[i].val)
                  <==> Returns(env, v.fields[i].val, WalkedAs(env, cls, v.fields[i].name))
        {
          RoundTripExactly(env, v.fields[i].val, WalkedAs(env, cls, v.fields[i].name));
        }
        DataclassReturns(env, v, a);
      case UnionTy(args) =>
        var k := Chosen(env, v, Members(env, args), 0);
        if k < |Members(env, args)| { RoundTripExactly(env, v, Members(env, args)[k]); }
        UnionReturns(env, v, a);
      case ListTy(elem) =>
        forall i | 0 <= i < |v.items| ensures Undone(env, v.items[i], elem) <==> Returns(env, v.items[i], elem) {
          RoundTripExactly(env, v.items[i], elem);
        }
        ListReturns(env, v, elem);
      case TupleTy(args) =>
        forall i | 0 <= i < |args| ensures Undone(env, v.items[i], args[i]) <==> Returns(env, v.items[i], args[i]) {
          RoundTripExactly(env, v.items[i], args[i]);
        }
        TupleReturns(env, v, args);
      case VarTupleTy(elem) =>
        forall i | 0 <= i < |v.items| ensures Undone(env, v.items[i], elem) <==> Returns(env, v.items[i], elem) {
          RoundTripExactly(env, v.items[i], elem);
        }
        VarTupleReturns(env, v, elem);
      case DictTy(key, val) =>
        forall i | 0 <= i < |v.entries|
          ensures Undone(env, v.entries[i].val, val) <==> Returns(env, v.entries[i].val, val)
        {
          RoundTripExactly(env, v.entries[i].val, val);
        }
        DictReturns(env, v, key, val);
    }
  }
}
