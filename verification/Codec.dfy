/**
 The annotation-directed codec: what a cached function stores for a return value, and what it hands
 back on a hit.

 Models and rebuildable dataclasses reached through the return annotation are stored as plain dicts, so
 that the stored bytes carry no class references.  What pydantic and the dataclass constructors do is a
 parameter; a decoder that raises on schema drift is one that returns `None`.
 */
module Codec {
  import opened Options

  /** The class of a container is `BUILTIN`, or the number of a subclass (a named tuple, say). */
  const BUILTIN: nat := 0

  /** Run-time values. */
  datatype Val =
    | NoneV
    | Str(text: string)
    | Atom(id: nat)
    | ListV(items: seq<Val>, cls: nat)
    | TupleV(items: seq<Val>, cls: nat)
    | DictV(entries: seq<Entry>, cls: nat)
    | Obj(cls: nat, fields: seq<Field>)    // an instance of a model or a dataclass

  datatype Entry = Entry(key: Val, val: Val)

  datatype Field = Field(name: string, val: Val)

  datatype Shape = ListShape | TupleShape | DictShape

  /** Resolved annotations. */
  datatype Ty =
    | NoneTy
    | ModelTy(cls: nat)
    | DataclassTy(cls: nat)
    | UnionTy(args: seq<Ty>)
    | ListTy(elem: Ty)
    | TupleTy(args: seq<Ty>)
    | VarTupleTy(elem: Ty)
    | DictTy(key: Ty, val: Ty)
    | ShapedTy(shape: Shape)   // a bare container, a subclass of one, a TypedDict, a Mapping
    | AnyTy
    | LeafTy                   // str, int, Literal and other atoms
    | AbstractTy               // Iterable, protocols, type variables: no stored shape of their own

  /** What the defining code says of its classes. */
  datatype Classes = Classes(
    rebuildable: nat -> bool,
    derived: (nat, nat) -> bool,
    hints: nat -> Option<map<string, Ty>>,
    dump: Val -> Val,
    validate: (nat, Val) -> Option<Val>,
    construct: (nat, seq<Field>) -> Option<Val>)

  predicate Codable(env: Classes, a: Ty) {
    a.ModelTy? || (a.DataclassTy? && env.rebuildable(a.cls))
  }

  predicate InstanceOf(env: Classes, v: Val, a: Ty) {
    v.Obj? && (a.ModelTy? || a.DataclassTy?) && (v.cls == a.cls || env.derived(v.cls, a.cls))
  }

  /** The resolved hint of a dataclass field, if there is one. */
  function Hint(env: Classes, cls: nat, name: string): Option<Ty> {
    match env.hints(cls)
    case Some(hints) => if name in hints then Some(hints[name]) else None
    case None => None
  }

  /** The annotation a field is walked with; without a hint it passes through. */
  function WalkedAs(env: Classes, cls: nat, name: string): Ty {
    match Hint(env, cls, name)
    case Some(a) => a
    case None => NoneTy
  }

  function MemberShapes(a: Ty): seq<Shape> {
    match a
    case ListTy(_) => [ListShape]
    case TupleTy(_) => [TupleShape]
    case VarTupleTy(_) => [TupleShape]
    case DictTy(_, _) => [DictShape]
    case ShapedTy(shape) => [shape]
    case _ => []
  }

  /** The stored shapes by which a union would claim a value for member `a`. */
  function Claims(env: Classes, a: Ty): seq<Shape> {
    if Codable(env, a) then [DictShape]
    else if a.AnyTy? then [ListShape, TupleShape, DictShape]
    else MemberShapes(a)
  }

  function AllClaims(env: Classes, args: seq<Ty>): seq<Shape> {
    if args == [] then [] else Claims(env, args[0]) + AllClaims(env, args[1..])
  }

  predicate Repeats(shapes: seq<Shape>) {
    exists i, j :: 0 <= i < j < |shapes| && shapes[i] == shapes[j]
  }

  function DropNone(args: seq<Ty>): (r: seq<Ty>)
    ensures forall k :: 0 <= k < |r| ==> r[k] in args
    ensures forall a :: a in args && !a.NoneTy? ==> a in r
  {
    if args == [] then []
    else (if args[0].NoneTy? then [] else [args[0]]) + DropNone(args[1..])
  }

  /** The members the codec looks at; `None` when two could claim one stored value. */
  function UnionCodecMembers(env: Classes, args: seq<Ty>): Option<seq<Ty>> {
    if Repeats(AllClaims(env, args)) then None else Some(DropNone(args))
  }

  predicate WantsCodec(env: Classes, a: Ty, depth: nat)
    decreases a
  {
    if depth > 8 then false
    else if Codable(env, a) then true
    else match a
      case UnionTy(args) =>
        var members := UnionCodecMembers(env, args);
        members.Some? && exists k :: 0 <= k < |members.value| && WantsCodec(env, members.value[k], depth + 1)
      case ListTy(elem) => WantsCodec(env, elem, depth + 1)
      case TupleTy(args) => exists k :: 0 <= k < |args| && WantsCodec(env, args[k], depth + 1)
      case VarTupleTy(elem) => WantsCodec(env, elem, depth + 1)
      case DictTy(key, val) => WantsCodec(env, key, depth + 1) || WantsCodec(env, val, depth + 1)
      case _ => false
  }

  predicate RuntimeMatches(env: Classes, v: Val, a: Ty) {
    if Codable(env, a) then InstanceOf(env, v, a)
    else match a
      case ListTy(_) => v.ListV?
      case TupleTy(_) => v.TupleV?
      case VarTupleTy(_) => v.TupleV?
      case DictTy(_, _) => v.DictV?
      case _ => false
  }

  /** Does a union walk value `v` through member `a`? */
  predicate Takes(env: Classes, v: Val, a: Ty) {
    WantsCodec(env, a, 0) && RuntimeMatches(env, v, a)
  }

  /** The first of `members[k..]` that takes `v`; `|members|` when none does. */
  function Chosen(env: Classes, v: Val, members: seq<Ty>, k: nat): (r: nat)
    requires k <= |members|
    ensures k <= r <= |members|
    ensures r < |members| ==> Takes(env, v, members[r])
    ensures forall j :: k <= j < r ==> !Takes(env, v, members[j])
    decreases |members| - k
  {
    if k == |members| || Takes(env, v, members[k]) then k else Chosen(env, v, members, k + 1)
  }

  function Members(env: Classes, args: seq<Ty>): (r: seq<Ty>)
    ensures forall k :: 0 <= k < |r| ==> r[k] in args
  {
    match UnionCodecMembers(env, args)
    case Some(members) => members
    case None => []
  }

  /** What is stored for `v`. */
  function Encode(env: Classes, v: Val, a: Ty): Val
    decreases v, a
  {
    if v.NoneV? then v
    else match a
      case ModelTy(_) => if InstanceOf(env, v, a) then env.dump(v) else v
      case DataclassTy(cls) =>
        if Codable(env, a) && InstanceOf(env, v, a) then
          var fields := v.fields;
          DictV(seq(|fields|, i requires 0 <= i < |fields| =>
            Entry(Str(fields[i].name), Encode(env, fields[i].val, WalkedAs(env, cls, fields[i].name)))), BUILTIN)
        else v
      case UnionTy(args) =>
        var members := Members(env, args);
        var k := Chosen(env, v, members, 0);
        if k < |members| then Encode(env, v, members[k]) else v
      case ListTy(elem) =>
        if v.ListV? then ListV(EncodeItems(env, v, elem), BUILTIN) else v
      case TupleTy(args) =>
        if v.TupleV? && args != [] && |args| == |v.items| then
          TupleV(seq(|args|, i requires 0 <= i < |args| => Encode(env, v.items[i], args[i])), BUILTIN)
        else v
      case VarTupleTy(elem) =>
        if v.TupleV? then TupleV(EncodeItems(env, v, elem), BUILTIN) else v
      case DictTy(_, val) =>
        if v.DictV? then
          DictV(seq(|v.entries|, i requires 0 <= i < |v.entries| =>
            Entry(v.entries[i].key, Encode(env, v.entries[i].val, val))), BUILTIN)
        else v
      case _ => v
  }

  function EncodeItems(env: Classes, v: Val, elem: Ty): (r: seq<Val>)
    requires v.ListV? || v.TupleV?
    ensures |r| == |v.items|
    decreases v, elem
  {
    seq(|v.items|, i requires 0 <= i < |v.items| => Encode(env, v.items[i], elem))
  }

  /** A dataclass built back from stored fields; a key that is no string cannot name a parameter. */
  function Rebuild(env: Classes, cls: nat, entries: seq<Entry>): Option<Val> {
    if forall i :: 0 <= i < |entries| ==> entries[i].key.Str? then
      env.construct(cls, seq(|entries|, i requires 0 <= i < |entries| => Field(entries[i].key.text, entries[i].val)))
    else None
  }

  function KeyHint(env: Classes, cls: nat, key: Val): Ty {
    if key.Str? then WalkedAs(env, cls, key.text) else NoneTy
  }

  /** What a stored value reads back as; `None` is schema drift. */
  function Decode(env: Classes, w: Val, a: Ty): Option<Val>
    decreases w, a, if a.UnionTy? then |Members(env, a.args)| + 1 else 0
  {
    if w.NoneV? then Some(w)
    else match a
      case ModelTy(cls) => if w.DictV? then env.validate(cls, w) else Some(w)
      case DataclassTy(cls) =>
        if Codable(env, a) && w.DictV? then
          if forall i :: 0 <= i < |w.entries| ==>
            Decode(env, w.entries[i].val, KeyHint(env, cls, w.entries[i].key)).Some? then
            Rebuild(env, cls, seq(|w.entries|, i requires 0 <= i < |w.entries| =>
              Entry(w.entries[i].key, Decode(env, w.entries[i].val, KeyHint(env, cls, w.entries[i].key)).value)))
          else None
        else Some(w)
      case UnionTy(_) => DecodeMember(env, w, a, 0, false)
      case ListTy(elem) =>
        if !w.ListV? then Some(w)
        else if forall i :: 0 <= i < |w.items| ==> Decode(env, w.items[i], elem).Some? then
          Some(ListV(seq(|w.items|, i requires 0 <= i < |w.items| => Decode(env, w.items[i], elem).value), BUILTIN))
        else None
      case TupleTy(args) =>
        if !w.TupleV? || args == [] || |args| != |w.items| then Some(w)
        else if forall i :: 0 <= i < |args| ==> Decode(env, w.items[i], args[i]).Some? then
          Some(TupleV(seq(|args|, i requires 0 <= i < |args| => Decode(env, w.items[i], args[i]).value), BUILTIN))
        else None
      case VarTupleTy(elem) =>
        if !w.TupleV? then Some(w)
        else if forall i :: 0 <= i < |w.items| ==> Decode(env, w.items[i], elem).Some? then
          Some(TupleV(seq(|w.items|, i requires 0 <= i < |w.items| => Decode(env, w.items[i], elem).value), BUILTIN))
        else None
      case DictTy(_, val) =>
        if !w.DictV? then Some(w)
        else if forall i :: 0 <= i < |w.entries| ==> Decode(env, w.entries[i].val, val).Some? then
          Some(DictV(seq(|w.entries|, i requires 0 <= i < |w.entries| =>
            Entry(w.entries[i].key, Decode(env, w.entries[i].val, val).value)), BUILTIN))
        else None
      case _ => Some(w)
  }

  /** The loop over a union's members from the `k`-th on; `drifted` when an earlier class member refused. */
  function DecodeMember(env: Classes, w: Val, a: Ty, k: nat, drifted: bool): Option<Val>
    requires a.UnionTy? && k <= |Members(env, a.args)|
    decreases w, a, |Members(env, a.args)| - k
  {
    var members := Members(env, a.args);
    if k == |members| then (if drifted then None else Some(w))
    else if Codable(env, members[k]) && w.DictV? then
      var r := Decode(env, w, members[k]);
      if r.Some? then r else DecodeMember(env, w, a, k + 1, true)
    else if Takes(env, w, members[k]) then Decode(env, w, members[k])
    else DecodeMember(env, w, a, k + 1, drifted)
  }
}
