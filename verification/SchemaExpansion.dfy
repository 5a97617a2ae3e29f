/**
 Expanding a message name of a descriptor set into its full schema tree, with the stack of
 names being expanded guarding against cycles.
 Source: crates/rpc/build.rs.
 */
module SchemaExpansion {
  import opened Wrappers

  type Name = string

  datatype FieldType = Primitive(tag: nat) | MessageRef(fqn: Name) | EnumRef(fqn: Name)
  datatype Field = Field(number: int, ty: FieldType, repeated: bool)
  datatype Message = Message(shortName: Name, fields: seq<Field>)
  datatype Enumeration = Enumeration(shortName: Name, variants: seq<int>)
  datatype Index = Index(messages: map<Name, Message>, enums: map<Name, Enumeration>)

  datatype MessageSchema = MessageSchema(name: Name, fields: seq<FieldSchema>)
  datatype FieldSchema = FieldSchema(number: int, ty: TypeSchema)
  datatype TypeSchema =
    | PrimitiveType(tag: nat)
    | MessageType(schema: MessageSchema)
    | EnumType(name: Name, variants: seq<int>)
    | RepeatedType(inner: TypeSchema)

  datatype Panic = MissingMessage(fqn: Name) | MissingEnum(fqn: Name) | Cyclic(fqn: Name)

  // ---------- Expansion ----------

  function NameSet(visiting: seq<Name>): set<Name> {
    set n | n in visiting
  }

  // The messages not yet on the stack: the measure of the recursion.
  function Remaining(ix: Index, visiting: seq<Name>): nat {
    |ix.messages.Keys - NameSet(visiting)|
  }

  lemma {:induction false} PushShrinks(ix: Index, visiting: seq<Name>, fqn: Name)
    requires fqn in ix.messages && fqn !in visiting
    ensures Remaining(ix, visiting + [fqn]) < Remaining(ix, visiting)
  {
    var before, after := ix.messages.Keys - NameSet(visiting), ix.messages.Keys - NameSet(visiting + [fqn]);
    assert after == before - {fqn};
  }

  function Labelled(f: Field, base: TypeSchema): TypeSchema {
    if f.repeated then RepeatedType(base) else base
  }

  function Expand(ix: Index, fqn: Name, visiting: seq<Name>): Result<MessageSchema, Panic>
    requires fqn in ix.messages
    decreases Remaining(ix, visiting), 0, 0
  {
    if fqn in visiting then Err(Cyclic(fqn))
    else
      PushShrinks(ix, visiting, fqn);
      match ExpandFields(ix, ix.messages[fqn].fields, visiting + [fqn])
      case Err(e) => Err(e)
      case Ok(fields) => Ok(MessageSchema(ix.messages[fqn].shortName, fields))
  }

  function ExpandType(ix: Index, ty: FieldType, visiting: seq<Name>): Result<TypeSchema, Panic>
    decreases Remaining(ix, visiting), 1, 0
  {
    match ty
    case Primitive(tag) => Ok(PrimitiveType(tag))
    case MessageRef(fqn) =>
      if fqn !in ix.messages then Err(MissingMessage(fqn))
      else
        (match Expand(ix, fqn, visiting)
         case Err(e) => Err(e)
         case Ok(schema) => Ok(MessageType(schema)))
    case EnumRef(fqn) =>
      if fqn !in ix.enums then Err(MissingEnum(fqn))
      else Ok(EnumType(ix.enums[fqn].shortName, ix.enums[fqn].variants))
  }

  function ExpandFields(ix: Index, fields: seq<Field>, visiting: seq<Name>): Result<seq<FieldSchema>, Panic>
    decreases Remaining(ix, visiting), 2, |fields|
  {
    if fields == [] then Ok([])
    else
      match ExpandFields(ix, fields[..|fields| - 1], visiting)
      case Err(e) => Err(e)
      case Ok(front) =>
        var f := fields[|fields| - 1];
        match ExpandType(ix, f.ty, visiting)
        case Err(e) => Err(e)
        case Ok(base) => Ok(front + [FieldSchema(f.number, Labelled(f, base))])
  }

  // The entry point: the root must resolve, and starts from an empty stack.
  function MessageSchemaOf(ix: Index, root: Name): Result<MessageSchema, Panic> {
    if root !in ix.messages then Err(MissingMessage(root)) else Expand(ix, root, [])
  }

  // ---------- The reference graph ----------

  ghost predicate Refers(ix: Index, a: Name, b: Name) {
    a in ix.messages && exists k :: 0 <= k < |ix.messages[a].fields| && ix.messages[a].fields[k].ty == MessageRef(b)
  }

  predicate Named(ix: Index, ty: FieldType) {
    match ty
    case Primitive(_) => true
    case MessageRef(fqn) => fqn in ix.messages
    case EnumRef(fqn) => fqn in ix.enums
  }

  ghost predicate Resolves(ix: Index, a: Name) {
    a in ix.messages && forall k :: 0 <= k < |ix.messages[a].fields| ==> Named(ix, ix.messages[a].fields[k].ty)
  }

  // A walk along message references; every stop is a message of the set.
  ghost predicate IsPath(ix: Index, p: seq<Name>) {
    && p != []
    && (forall i :: 0 <= i < |p| ==> p[i] in ix.messages)
    && forall i :: 0 < i < |p| ==> Refers(ix, p[i - 1], p[i])
  }

  ghost predicate Distinct(p: seq<Name>) {
    forall i, j :: 0 <= i < j < |p| ==> p[i] != p[j]
  }

  // A walk from the stack's top that closes no cycle and ends where every name resolves.
  ghost predicate SafePath(ix: Index, visiting: seq<Name>, p: seq<Name>)
    requires p != []
  {
    (forall i :: 0 <= i < |p| ==> p[i] !in visiting) && Distinct(p) && Resolves(ix, p[|p| - 1])
  }

  lemma {:induction false} FieldsFail(ix: Index, fields: seq<Field>, visiting: seq<Name>)
    ensures ExpandFields(ix, fields, visiting).Ok? <==>
              forall k :: 0 <= k < |fields| ==> ExpandType(ix, fields[k].ty, visiting).Ok?
    decreases |fields|
  {
    if fields != [] {
      FieldsFail(ix, fields[..|fields| - 1], visiting);
    }
  }

  // If the expansion succeeds, every walk from its message is safe.
  lemma {:induction false} SuccessIsSafe(ix: Index, fqn: Name, visiting: seq<Name>, p: seq<Name>)
    requires fqn in ix.messages && Expand(ix, fqn, visiting).Ok? && IsPath(ix, p) && p[0] == fqn
    ensures SafePath(ix, visiting, p)
    decreases |p|
  {
    var fields, stack := ix.messages[fqn].fields, visiting + [fqn];
    FieldsFail(ix, fields, stack);
    if |p| == 1 {
      assert Resolves(ix, fqn);
    } else {
      assert Refers(ix, p[0], p[1]);
      var k :| 0 <= k < |fields| && fields[k].ty == MessageRef(p[1]);
      assert ExpandType(ix, fields[k].ty, stack).Ok?;
      var q := p[1..];
      assert forall i :: 0 < i < |q| ==> q[i - 1] == p[i] && q[i] == p[i + 1];
      SuccessIsSafe(ix, p[1], stack, q);
      SafeCons(ix, visiting, fqn, q);
      assert p == [fqn] + q;
    }
  }

  lemma {:induction false} SafeCons(ix: Index, visiting: seq<Name>, fqn: Name, q: seq<Name>)
    requires q != []
    ensures SafePath(ix, visiting, [fqn] + q) <==> fqn !in visiting && SafePath(ix, visiting + [fqn], q)
  {
    var p := [fqn] + q;
    assert p[|p| - 1] == q[|q| - 1];
    assert forall i :: 0 <= i < |q| ==> q[i] == p[i + 1];
    assert fqn in visiting + [fqn] && forall n :: n in visiting ==> n in visiting + [fqn];
    if SafePath(ix, visiting, p) {
      assert p[0] == fqn;
      forall i | 0 <= i < |q| ensures q[i] !in visiting + [fqn] {
        assert p[0] != p[i + 1];
      }
      forall i, j | 0 <= i < j < |q| ensures q[i] != q[j] {
        assert p[i + 1] != p[j + 1];
      }
    }
    if fqn !in visiting && SafePath(ix, visiting + [fqn], q) {
      forall i, j | 0 <= i < j < |p| ensures p[i] != p[j] {
        assert i == 0 ==> q[j - 1] !in visiting + [fqn];
      }
      forall i | 0 <= i < |p| ensures p[i] !in visiting {
        assert i > 0 ==> q[i - 1] !in visiting + [fqn];
      }
    }
  }

  // If it fails, some walk from its message is unsafe: it re-enters the stack or itself, or
  // ends at a message with an unresolved name.
  lemma {:induction false} FailureIsUnsafe(ix: Index, fqn: Name, visiting: seq<Name>) returns (p: seq<Name>)
    requires fqn in ix.messages && Expand(ix, fqn, visiting).Err?
    ensures IsPath(ix, p) && p[0] == fqn && !SafePath(ix, visiting, p)
    decreases Remaining(ix, visiting)
  {
    p := [fqn];
    if fqn !in visiting {
      var fields, stack := ix.messages[fqn].fields, visiting + [fqn];
      FieldsFail(ix, fields, stack);
      var k :| 0 <= k < |fields| && ExpandType(ix, fields[k].ty, stack).Err?;
      if Named(ix, fields[k].ty) {
        var next := fields[k].ty.fqn;
        PushShrinks(ix, visiting, fqn);
        var q := FailureIsUnsafe(ix, next, stack);
        p := [fqn] + q;
        assert Refers(ix, fqn, next);
        forall i | 0 < i < |p| ensures Refers(ix, p[i - 1], p[i]) {
          assert i > 1 ==> Refers(ix, q[i - 2], q[i - 1]);
        }
        SafeCons(ix, visiting, fqn, q);
      } else {
        assert !Resolves(ix, fqn);
      }
    }
  }

  // What a walk shows of a failure: it ends at a message already on the stack or on the walk,
  // or at a message with a field that names what is not there.
  ghost predicate Explains(ix: Index, visiting: seq<Name>, p: seq<Name>, e: Panic)
    requires IsPath(ix, p)
  {
    var last := p[|p| - 1];
    match e
    case Cyclic(fqn) => fqn == last && (fqn in visiting || fqn in p[..|p| - 1])
    case MissingMessage(fqn) => fqn !in ix.messages && Mentions(ix, last, MessageRef(fqn))
    case MissingEnum(fqn) => fqn !in ix.enums && Mentions(ix, last, EnumRef(fqn))
  }

  ghost predicate Mentions(ix: Index, name: Name, ty: FieldType) {
    name in ix.messages && exists k :: 0 <= k < |ix.messages[name].fields| && ix.messages[name].fields[k].ty == ty
  }

  lemma {:induction false} FirstFailing(ix: Index, fields: seq<Field>, visiting: seq<Name>) returns (k: nat)
    requires ExpandFields(ix, fields, visiting).Err?
    ensures k < |fields| && ExpandType(ix, fields[k].ty, visiting).Err?
    ensures ExpandFields(ix, fields, visiting).error == ExpandType(ix, fields[k].ty, visiting).error
    decreases |fields|
  {
    if ExpandFields(ix, fields[..|fields| - 1], visiting).Err? {
      k := FirstFailing(ix, fields[..|fields| - 1], visiting);
    } else {
      k := |fields| - 1;
    }
  }

  lemma {:induction false} PathCons(ix: Index, fqn: Name, q: seq<Name>)
    requires IsPath(ix, q) && fqn in ix.messages && Refers(ix, fqn, q[0])
    ensures IsPath(ix, [fqn] + q)
  {
    var p := [fqn] + q;
    forall i | 0 < i < |p| ensures Refers(ix, p[i - 1], p[i]) {
      assert i > 1 ==> Refers(ix, q[i - 2], q[i - 1]);
    }
  }

  lemma {:induction false} ExplainsCons(ix: Index, visiting: seq<Name>, fqn: Name, q: seq<Name>, e: Panic)
    requires IsPath(ix, q) && IsPath(ix, [fqn] + q) && Explains(ix, visiting + [fqn], q, e)
    ensures Explains(ix, visiting, [fqn] + q, e)
  {
    var p := [fqn] + q;
    assert p[..|p| - 1] == [fqn] + q[..|q| - 1];
  }

  // Every failure names its true cause.
  lemma {:induction false} FailureExplained(ix: Index, fqn: Name, visiting: seq<Name>) returns (p: seq<Name>)
    requires fqn in ix.messages && Expand(ix, fqn, visiting).Err?
    ensures IsPath(ix, p) && p[0] == fqn && Explains(ix, visiting, p, Expand(ix, fqn, visiting).error)
    decreases Remaining(ix, visiting)
  {
    p := [fqn];
    if fqn !in visiting {
      var fields, stack := ix.messages[fqn].fields, visiting + [fqn];
      var k := FirstFailing(ix, fields, stack);
      if Named(ix, fields[k].ty) {
        var next := fields[k].ty.fqn;
        PushShrinks(ix, visiting, fqn);
        var q := FailureExplained(ix, next, stack);
        assert Refers(ix, fqn, next);
        PathCons(ix, fqn, q);
        ExplainsCons(ix, visiting, fqn, q, Expand(ix, fqn, visiting).error);
        p := [fqn] + q;
      }
    }
  }

  // Expansion succeeds exactly when the root resolves, every name reachable from it
  // resolves, and no walk from it meets a message twice.
  lemma {:induction false} ExpansionExact(ix: Index, root: Name)
    ensures MessageSchemaOf(ix, root).Ok? <==>
              && root in ix.messages
              && forall p :: IsPath(ix, p) && p[0] == root ==> Distinct(p) && Resolves(ix, p[|p| - 1])
  {
    if MessageSchemaOf(ix, root).Ok? {
      forall p | IsPath(ix, p) && p[0] == root ensures Distinct(p) && Resolves(ix, p[|p| - 1]) {
        SuccessIsSafe(ix, root, [], p);
      }
    } else if root in ix.messages {
      var p := FailureIsUnsafe(ix, root, []);
      assert IsPath(ix, p) && p[0] == root;
    }
  }

  // ---------- The schema it yields ----------

  // The tree m is the complete unfolding of the message: its name, and its fields in order,
  // each with its number, its label and the unfolding of what it refers to.
  ghost predicate Unfolds(ix: Index, m: MessageSchema, fqn: Name)
    decreases m, 0
  {
    && fqn in ix.messages && m.name == ix.messages[fqn].shortName
    && |m.fields| == |ix.messages[fqn].fields|
    && forall i :: 0 <= i < |m.fields| ==> UnfoldsField(ix, m.fields[i], ix.messages[fqn].fields[i])
  }

  ghost predicate UnfoldsField(ix: Index, t: FieldSchema, f: Field)
    decreases t, 1
  {
    && t.number == f.number
    && if f.repeated then t.ty.RepeatedType? && UnfoldsType(ix, t.ty.inner, f.ty) else UnfoldsType(ix, t.ty, f.ty)
  }

  ghost predicate UnfoldsType(ix: Index, t: TypeSchema, ty: FieldType)
    decreases t, 0
  {
    match ty
    case Primitive(tag) => t == PrimitiveType(tag)
    case MessageRef(fqn) => t.MessageType? && Unfolds(ix, t.schema, fqn)
    case EnumRef(fqn) => fqn in ix.enums && t == EnumType(ix.enums[fqn].shortName, ix.enums[fqn].variants)
  }

  lemma {:induction false} FieldsShape(ix: Index, fields: seq<Field>, visiting: seq<Name>, k: nat)
    requires ExpandFields(ix, fields, visiting).Ok? && k < |fields|
    ensures |ExpandFields(ix, fields, visiting).value| == |fields|
    ensures ExpandType(ix, fields[k].ty, visiting).Ok?
    ensures ExpandFields(ix, fields, visiting).value[k] ==
              FieldSchema(fields[k].number, Labelled(fields[k], ExpandType(ix, fields[k].ty, visiting).value))
    decreases |fields|
  {
    var n := |fields| - 1;
    if n > 0 {
      FieldsShape(ix, fields[..n], visiting, if k < n then k else 0);
    }
  }

  lemma {:induction false} ExpandUnfolds(ix: Index, fqn: Name, visiting: seq<Name>)
    requires fqn in ix.messages && Expand(ix, fqn, visiting).Ok?
    ensures Unfolds(ix, Expand(ix, fqn, visiting).value, fqn)
    decreases Remaining(ix, visiting)
  {
    var fields, stack, m := ix.messages[fqn].fields, visiting + [fqn], Expand(ix, fqn, visiting).value;
    PushShrinks(ix, visiting, fqn);
    if fields != [] {
      FieldsShape(ix, fields, stack, 0);
    }
    forall i | 0 <= i < |fields| ensures UnfoldsField(ix, m.fields[i], fields[i]) {
      FieldsShape(ix, fields, stack, i);
      if fields[i].ty.MessageRef? {
        ExpandUnfolds(ix, fields[i].ty.fqn, stack);
      }
    }
  }

  function BaseType(t: TypeSchema): TypeSchema {
    if t.RepeatedType? then t.inner else t
  }

  // Reading an unfolded field: a message reference has the unfolding of its message under
  // the label, and any other type is settled by the index alone.
  lemma {:induction false} FieldRef(ix: Index, t: FieldSchema, f: Field)
    requires UnfoldsField(ix, t, f) && f.ty.MessageRef?
    ensures BaseType(t.ty).MessageType? && Unfolds(ix, BaseType(t.ty).schema, f.ty.fqn)
    ensures t == FieldSchema(f.number, Labelled(f, BaseType(t.ty)))
  {
    assert UnfoldsType(ix, BaseType(t.ty), f.ty);
  }

  lemma {:induction false} FieldPlain(ix: Index, t: FieldSchema, f: Field, visiting: seq<Name>)
    requires UnfoldsField(ix, t, f) && !f.ty.MessageRef?
    ensures ExpandType(ix, f.ty, visiting).Ok?
    ensures t == FieldSchema(f.number, Labelled(f, ExpandType(ix, f.ty, visiting).value))
  {
    assert UnfoldsType(ix, if f.repeated then t.ty.inner else t.ty, f.ty);
  }

  // A message has at most one unfolding.
  lemma {:induction false} UnfoldingUnique(ix: Index, a: MessageSchema, b: MessageSchema, fqn: Name)
    requires Unfolds(ix, a, fqn) && Unfolds(ix, b, fqn)
    ensures a == b
    decreases a
  {
    var fields := ix.messages[fqn].fields;
    forall i | 0 <= i < |fields| ensures a.fields[i] == b.fields[i] {
      assert UnfoldsField(ix, a.fields[i], fields[i]) && UnfoldsField(ix, b.fields[i], fields[i]);
      if fields[i].ty.MessageRef? {
        FieldRef(ix, a.fields[i], fields[i]);
        FieldRef(ix, b.fields[i], fields[i]);
        UnfoldingUnique(ix, BaseType(a.fields[i].ty).schema, BaseType(b.fields[i].ty).schema, fields[i].ty.fqn);
      } else {
        FieldPlain(ix, a.fields[i], fields[i], []);
        FieldPlain(ix, b.fields[i], fields[i], []);
      }
    }
    assert a.fields == b.fields;
  }

  // The depth of a tree, which makes a tree strictly deeper than the trees in it.
  function Depth(m: MessageSchema): nat
    decreases m, |m.fields| + 1
  {
    1 + DepthBelow(m, |m.fields|)
  }

  function DepthBelow(m: MessageSchema, n: nat): nat
    requires n <= |m.fields|
    decreases m, n
  {
    if n == 0 then 0
    else
      var rest, last := DepthBelow(m, n - 1), DepthOfType(m.fields[n - 1].ty);
      if rest < last then last else rest
  }

  function DepthOfType(t: TypeSchema): nat
    decreases t, 0
  {
    match t
    case MessageType(m) => Depth(m)
    case RepeatedType(inner) => DepthOfType(inner)
    case _ => 0
  }

  lemma {:induction false} FieldDepth(m: MessageSchema, n: nat, i: nat)
    requires i < n <= |m.fields|
    ensures DepthOfType(m.fields[i].ty) <= DepthBelow(m, n)
  {
    if i < n - 1 {
      FieldDepth(m, n - 1, i);
    }
  }

  // Each name on the stack has an unfolding deeper than m.
  ghost predicate Above(ix: Index, trees: map<Name, MessageSchema>, visiting: seq<Name>, m: MessageSchema) {
    forall n :: n in visiting ==> n in trees && Unfolds(ix, trees[n], n) && Depth(trees[n]) > Depth(m)
  }

  // A message that has an unfolding is expanded: it cannot be on the stack, whose names
  // have deeper unfoldings of their own.
  lemma {:induction false} UnfoldingExpands(
    ix: Index, m: MessageSchema, fqn: Name, visiting: seq<Name>, trees: map<Name, MessageSchema>)
    requires Unfolds(ix, m, fqn) && Above(ix, trees, visiting, m)
    ensures Expand(ix, fqn, visiting).Ok?
    decreases m
  {
    var fields, stack := ix.messages[fqn].fields, visiting + [fqn];
    if fqn in visiting {
      UnfoldingUnique(ix, m, trees[fqn], fqn);
    } else {
      FieldsFail(ix, fields, stack);
      forall k | 0 <= k < |fields| ensures ExpandType(ix, fields[k].ty, stack).Ok? {
        assert UnfoldsField(ix, m.fields[k], fields[k]);
        if fields[k].ty.MessageRef? {
          FieldRef(ix, m.fields[k], fields[k]);
          var child := BaseType(m.fields[k].ty).schema;
          FieldDepth(m, |m.fields|, k);
          assert Depth(child) < Depth(m);
          assert Above(ix, trees[fqn := m], stack, child);
          UnfoldingExpands(ix, child, fields[k].ty.fqn, stack, trees[fqn := m]);
        } else {
          FieldPlain(ix, m.fields[k], fields[k], stack);
        }
      }
    }
  }

  // The expansion returns a tree exactly when that tree is the finite unfolding of the
  // root. So it fails only where there is no finite unfolding at all.
  lemma {:induction false} ExpansionIsUnfolding(ix: Index, root: Name, m: MessageSchema)
    ensures MessageSchemaOf(ix, root) == Ok(m) <==> Unfolds(ix, m, root)
  {
    if root in ix.messages && Expand(ix, root, []).Ok? {
      ExpandUnfolds(ix, root, []);
    }
    if Unfolds(ix, m, root) {
      UnfoldingExpands(ix, m, root, [], map[]);
      ExpandUnfolds(ix, root, []);
      UnfoldingUnique(ix, m, Expand(ix, root, []).value, root);
    }
  }

  // ---------- The expansion in place ----------

  class SchemaIndex {
    const ix: Index
    var visiting: seq<Name>

    constructor (ix: Index)
      ensures this.ix == ix && visiting == []
    {
      this.ix, visiting := ix, [];
    }

    // A panic abandons the stack; a normal return restores it.
    method MessageSchemaInner(fqn: Name) returns (r: Result<MessageSchema, Panic>)
      requires fqn in ix.messages
      modifies this
      ensures r == Expand(ix, fqn, old(visiting))
      ensures r.Ok? ==> visiting == old(visiting)
      decreases Remaining(ix, visiting), 0
    {
      if fqn in visiting {
        return Err(Cyclic(fqn));
      }
      PushShrinks(ix, visiting, fqn);
      visiting := visiting + [fqn];
      var msg := ix.messages[fqn];
      var fields: seq<FieldSchema> := [];
      for i := 0 to |msg.fields|
        invariant visiting == old(visiting) + [fqn]
        invariant ExpandFields(ix, msg.fields[..i], visiting) == Ok(fields)
      {
        var f := msg.fields[i];
        assert msg.fields[..i + 1][..i] == msg.fields[..i];
        var base := FieldBase(f.ty);
        if base.Err? {
          FieldsStop(ix, msg.fields, i, old(visiting) + [fqn]);
          return Err(base.error);
        }
        fields := fields + [FieldSchema(f.number, Labelled(f, base.value))];
      }
      assert msg.fields[..|msg.fields|] == msg.fields;
      visiting := visiting[..|visiting| - 1];
      return Ok(MessageSchema(msg.shortName, fields));
    }

    method FieldBase(ty: FieldType) returns (r: Result<TypeSchema, Panic>)
      modifies this
      ensures r == ExpandType(ix, ty, old(visiting))
      ensures r.Ok? ==> visiting == old(visiting)
      decreases Remaining(ix, visiting), 1
    {
      match ty
      case Primitive(tag) =>
        return Ok(PrimitiveType(tag));
      case MessageRef(fqn) =>
        if fqn !in ix.messages {
          return Err(MissingMessage(fqn));
        }
        var inner := MessageSchemaInner(fqn);
        return match inner case Err(e) => Err(e) case Ok(m) => Ok(MessageType(m));
      case EnumRef(fqn) =>
        if fqn !in ix.enums {
          return Err(MissingEnum(fqn));
        }
        return Ok(EnumType(ix.enums[fqn].shortName, ix.enums[fqn].variants));
    }
  }

  // The first field that fails decides the failure.
  lemma {:induction false} FieldsStop(ix: Index, fields: seq<Field>, i: nat, visiting: seq<Name>)
    requires i < |fields| && ExpandFields(ix, fields[..i], visiting).Ok? && ExpandType(ix, fields[i].ty, visiting).Err?
    ensures ExpandFields(ix, fields, visiting) == Err(ExpandType(ix, fields[i].ty, visiting).error)
    decreases |fields|
  {
    if i < |fields| - 1 {
      assert fields[..|fields| - 1][..i] == fields[..i];
      FieldsStop(ix, fields[..|fields| - 1], i, visiting);
    }
  }
}
