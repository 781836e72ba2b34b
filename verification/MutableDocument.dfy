/** The same path edits made in place, on nested mutable containers as mutation/engine.py has them. */
module MutableDocument {
  import opened Prelude
  import opened Mutation

  datatype Kind = ObjNode | ArrNode | LeafNode

  /** What is done at the end of a path; `Set` and `Append` put a node there. */
  datatype How = Set(allowNew: bool) | Append | Delete

  function AsFinal(how: How, value: Json): Final {
    match how
    case Set(allowNew) => SetTo(value, allowNew)
    case Append => AppendTo(value)
    case Delete => Remove
  }

  /** A dictionary, a list or a leaf. `Value` is the document below it, and `Repr` what it may be made of;
      no part of a document is shared. */
  class Node {
    const kind: Kind
    var fields: map<string, Node>
    var items: seq<Node>
    ghost var Value: Json
    ghost var Repr: set<object>

    ghost predicate Valid()
      reads this, Repr
      decreases Repr, 1
    {
      && this in Repr
      && match kind
         case ObjNode => Value.Obj? && Value.fields.Keys == fields.Keys && FieldsValid()
         case ArrNode => Value.Arr? && |Value.items| == |items| && ItemsValid()
         case LeafNode => Value.Text? || Value.Scalar?
    }

    ghost predicate FieldsValid()
      requires this in Repr && Value.Obj? && Value.fields.Keys == fields.Keys
      reads this, Repr
      decreases Repr, 0
    {
      && (forall k | k in fields ::
            fields[k] in Repr && Owns(fields[k]) && fields[k].Valid() && fields[k].Value == Value.fields[k])
      && (forall j, k | j in fields && k in fields && j != k :: fields[j].Repr !! fields[k].Repr)
    }

    ghost predicate ItemsValid()
      requires this in Repr && Value.Arr? && |Value.items| == |items|
      reads this, Repr
      decreases Repr, 0
    {
      && (forall i | 0 <= i < |items| ::
          items[i] in Repr && Owns(items[i]) && items[i].Valid() && items[i].Value == Value.items[i])
      && (forall i, j | 0 <= i < j < |items| :: items[i].Repr !! items[j].Repr)
    }

    ghost predicate Owns(child: Node)
      reads this, child
    {
      child.Repr <= Repr && this !in child.Repr
    }

    constructor Leaf(value: Json)
      requires value.Text? || value.Scalar?
      ensures Valid() && Value == value && fresh(Repr)
    {
      kind, fields, items := LeafNode, map[], [];
      Value, Repr := value, {this};
    }

    constructor Dictionary()
      ensures Valid() && kind.ObjNode? && Value == Obj(map[]) && Repr == {this}
    {
      kind, fields, items := ObjNode, map[], [];
      Value, Repr := Obj(map[]), {this};
    }

    constructor List()
      ensures Valid() && kind.ArrNode? && Value == Arr([]) && Repr == {this}
    {
      kind, fields, items := ArrNode, map[], [];
      Value, Repr := Arr([]), {this};
    }

    method SetField(key: string, v: Node)
      requires Valid() && kind.ObjNode? && v.Valid() && v.Repr !! Repr
      modifies this
      ensures Valid() && Value == Obj(old(Value.fields)[key := v.Value]) && Repr == old(Repr) + v.Repr
    {
      assert forall k | k in fields ::
             fields[k] in Repr && Owns(fields[k]) && fields[k].Valid() && fields[k].Repr !! v.Repr;
      fields := fields[key := v];
      Value := Obj(Value.fields[key := v.Value]);
      Repr := Repr + v.Repr;
      FieldsHold(key);
    }

    method DropField(key: string)
      requires Valid() && kind.ObjNode? && key in fields
      modifies this
      ensures Valid() && Value == Obj(old(Value.fields) - {key}) && Repr == old(Repr)
    {
      fields := fields - {key};
      Value := Obj(Value.fields - {key});
    }

    method SetItem(i: nat, v: Node)
      requires Valid() && kind.ArrNode? && i < |items| && v.Valid() && v.Repr !! Repr
      modifies this
      ensures Valid() && Value == Arr(old(Value.items)[i := v.Value]) && Repr == old(Repr) + v.Repr
    {
      items := items[i := v];
      Value := Arr(Value.items[i := v.Value]);
      Repr := Repr + v.Repr;
    }

    method DropItem(i: nat)
      requires Valid() && kind.ArrNode? && i < |items|
      modifies this
      ensures Valid() && Value == Arr(old(Value.items)[..i] + old(Value.items)[i + 1..]) && Repr == old(Repr)
    {
      items := items[..i] + items[i + 1..];
      Value := Arr(Value.items[..i] + Value.items[i + 1..]);
    }

    method Push(v: Node)
      requires Valid() && kind.ArrNode? && v.Valid() && v.Repr !! Repr
      modifies this
      ensures Valid() && Value == Arr(old(Value.items) + [v.Value]) && Repr == old(Repr) + v.Repr
    {
      items := items + [v];
      Value := Arr(Value.items + [v.Value]);
      Repr := Repr + v.Repr;
    }

    /** What an edit by `how` and `v` leaves, given the outcome on values. */
    twostate predicate Became(r: Result<Json, MutationError>, ok: bool, v: Node?)
      reads this, Repr, v
    {
      && Valid() && (ok <==> r.Ok?)
      && Value == (if ok then r.value else old(Value))
      && Repr <= old(Repr) + (if v == null then {} else v.Repr)
    }

    /** The last part of the path: the change of the container itself. */
    method Finish(key: string, how: How, v: Node?) returns (ok: bool)
      requires Valid() && Fits(how, v) && (v != null ==> v.Repr !! Repr)
      modifies Repr
      ensures Became(old(Edited(Value, [key], AsFinal(how, Payload(v)))), ok, v)
    {
      hide Position;
      assert [key][1..] == [];
      match kind {
      case LeafNode => return false;
      case ObjNode =>
        match how {
          case Set(allowNew) =>
            if key !in fields && !allowNew {
              return false;
            }
            SetField(key, v);
          case Append =>
            assert key in fields ==> fields[key].Valid();
            if key !in fields || !fields[key].kind.ArrNode? {
              return false;
            }
            AppendToField(key, v);
          case Delete =>
            if key !in fields {
              return false;
            }
            DropField(key);
        }
      case ArrNode =>
        var p := Position(|items|, key);
        if p.None? {
          return false;
        }
        match how {
          case Set(_) => SetItem(p.value, v);
          case Append =>
            assert items[p.value].Valid();
            if !items[p.value].kind.ArrNode? {
              return false;
            }
            AppendToItem(p.value, v);
          case Delete => DropItem(p.value);
        }
      }
      return true;
    }

    /** A change below one child leaves its siblings alone. */
    twostate lemma SiblingFields(key: string)
      requires old(Valid()) && kind.ObjNode? && unchanged(this) && key in fields
      requires Kept(old(Repr) - old(fields[key].Repr))
      ensures forall k | k in fields && k != key ::
                && fields[k] in Repr && Owns(fields[k]) && fields[k].Valid() && fields[k].Value == Value.fields[k]
                && fields[k].Repr == old(fields[k].Repr) && fields[k].Repr !! old(fields[key].Repr)
    {
      forall k | k in fields && k != key
        ensures fields[k] in Repr && Owns(fields[k]) && fields[k].Valid() && fields[k].Value == Value.fields[k]
        ensures fields[k].Repr == old(fields[k].Repr) && fields[k].Repr !! old(fields[key].Repr)
      {
        assert old(fields[k] in Repr && Owns(fields[k]) && fields[k].Valid() && fields[k].Repr !! fields[key].Repr);
        assert old(fields[k] in fields[k].Repr);
        assert forall o | o in old(fields[k].Repr) :: o in old(Repr) - old(fields[key].Repr);
      }
    }

    twostate lemma SiblingItems(i: nat)
      requires old(Valid()) && kind.ArrNode? && unchanged(this) && i < |items|
      requires Kept(old(Repr) - old(items[i].Repr))
      ensures forall j | 0 <= j < |items| && j != i ::
                && items[j] in Repr && Owns(items[j]) && items[j].Valid() && items[j].Value == Value.items[j]
                && items[j].Repr == old(items[j].Repr) && items[j].Repr !! old(items[i].Repr)
    {
      forall j | 0 <= j < |items| && j != i
        ensures items[j] in Repr && Owns(items[j]) && items[j].Valid() && items[j].Value == Value.items[j]
        ensures items[j].Repr == old(items[j].Repr) && items[j].Repr !! old(items[i].Repr)
      {
        assert old(items[j] in Repr && Owns(items[j]) && items[j].Valid() && items[j].Repr !! items[i].Repr);
        assert old(items[j] in items[j].Repr);
        assert forall o | o in old(items[j].Repr) :: o in old(Repr) - old(items[i].Repr);
      }
    }

    /** What has changed below a child is taken over. */
    ghost method TakeField(key: string, added: set<object>, was: set<object>)
      requires this in Repr && kind.ObjNode? && key in fields && Value.Obj? && Value.fields.Keys == fields.Keys
      requires fields[key].Valid() && fields[key].Repr <= was + added && this !in fields[key].Repr && added !! Repr
               && was <= Repr
      requires forall k | k in fields && k != key ::
                 && fields[k] in Repr && Owns(fields[k]) && fields[k].Valid() && fields[k].Value == Value.fields[k]
                 && fields[k].Repr !! was
      requires forall j, k | j in fields && k in fields && j != key && k != key && j != k ::
               fields[j].Repr !! fields[k].Repr
      modifies this
      ensures Valid() && Value == Obj(old(Value.fields)[key := fields[key].Value])
              && Repr == old(Repr) + fields[key].Repr
      ensures fields == old(fields)
    {
      forall k | k in fields && k != key
        ensures fields[k].Repr !! fields[key].Repr
      {
      }
      Value := Obj(Value.fields[key := fields[key].Value]);
      Repr := Repr + fields[key].Repr;
      FieldsHold(key);
    }

    /** A node whose fields are well-formed apart from each other and from one of them is well-formed. */
    lemma FieldsHold(key: string)
      requires this in Repr && kind.ObjNode? && key in fields && Value.Obj? && Value.fields.Keys == fields.Keys
      requires fields[key] in Repr && Owns(fields[key]) && fields[key].Valid() && fields[key].Value == Value.fields[key]
      requires forall k | k in fields && k != key ::
                 && fields[k] in Repr && Owns(fields[k]) && fields[k].Valid() && fields[k].Value == Value.fields[k]
                 && fields[k].Repr !! fields[key].Repr
      requires forall j, k | j in fields && k in fields && j != key && k != key && j != k ::
               fields[j].Repr !! fields[k].Repr
      ensures Valid()
    {
    }

    ghost method TakeItem(i: nat, added: set<object>, was: set<object>)
      requires this in Repr && kind.ArrNode? && i < |items| && Value.Arr? && |Value.items| == |items|
      requires items[i].Valid() && items[i].Repr <= was + added && this !in items[i].Repr && added !! Repr
               && was <= Repr
      requires forall j | 0 <= j < |items| && j != i ::
                 && items[j] in Repr && Owns(items[j]) && items[j].Valid() && items[j].Value == Value.items[j]
                 && items[j].Repr !! was
      requires forall j, k | 0 <= j < k < |items| && j != i && k != i :: items[j].Repr !! items[k].Repr
      modifies this
      ensures Valid() && Value == Arr(old(Value.items)[i := items[i].Value]) && Repr == old(Repr) + items[i].Repr
      ensures items == old(items)
    {
      Value := Arr(Value.items[i := items[i].Value]);
      Repr := Repr + items[i].Repr;
    }

    method AppendToField(key: string, v: Node)
      requires Valid() && kind.ObjNode? && key in fields && fields[key].kind.ArrNode? && v.Valid() && v.Repr !! Repr
      modifies Repr
      ensures Valid() && Repr == old(Repr) + v.Repr
      ensures old(Value.fields[key].Arr?) && Value == old(Obj(Value.fields[key :=
              Arr(Value.fields[key].items + [v.Value])]))
    {
      var child := fields[key];
      ghost var was := child.Repr;
      child.Push(v);
      SiblingFields(key);
      TakeField(key, v.Repr, was);
    }

    method AppendToItem(i: nat, v: Node)
      requires Valid() && kind.ArrNode? && i < |items| && items[i].kind.ArrNode? && v.Valid() && v.Repr !! Repr
      modifies Repr
      ensures Valid() && Repr == old(Repr) + v.Repr
      ensures old(Value.items[i].Arr?) && Value == old(Arr(Value.items[i := Arr(Value.items[i].items + [v.Value])]))
    {
      var child := items[i];
      ghost var was := child.Repr;
      child.Push(v);
      SiblingItems(i);
      TakeItem(i, v.Repr, was);
    }

    /** An edit in place: the walk to the container, and the change of that container. */
    method Edit(parts: seq<string>, how: How, v: Node?) returns (ok: bool)
      requires Valid() && parts != [] && Fits(how, v) && (v != null ==> v.Repr !! Repr)
      modifies Repr
      ensures Became(old(Edited(Value, parts, AsFinal(how, Payload(v)))), ok, v)
      decreases |parts|, 1
    {
      if |parts| == 1 {
        assert parts == [parts[0]];
        ok := Finish(parts[0], how, v);
        return;
      }
      match kind
      case LeafNode => return false;
      case ObjNode =>
        if parts[0] !in fields {
          return false;
        }
        ok := EditField(parts[0], parts[1..], how, v);
      case ArrNode =>
        var p := Position(|items|, parts[0]);
        if p.None? {
          return false;
        }
        ok := EditItem(p.value, parts[1..], how, v);
    }

    method EditField(key: string, rest: seq<string>, how: How, v: Node?) returns (ok: bool)
      requires Valid() && kind.ObjNode? && key in fields && rest != [] && Fits(how, v) && (v != null ==> v.Repr !! Repr)
      modifies Repr
      ensures Valid() && Repr <= old(Repr) + (if v == null then {} else v.Repr)
      ensures match old(Edited(Value.fields[key], rest, AsFinal(how, Payload(v))))
              case Ok(c) => ok && Value == Obj(old(Value.fields)[key := c])
              case Err(_) => !ok && Value == old(Value)
      decreases |rest|, 2
    {
      var child := fields[key];
      ghost var was := child.Repr;
      ok := child.Edit(rest, how, v);
      SiblingFields(key);
      TakeField(key, if v == null then {} else v.Repr, was);
      assert !ok ==> Value.fields == old(Value.fields);
    }

    method EditItem(i: nat, rest: seq<string>, how: How, v: Node?) returns (ok: bool)
      requires Valid() && kind.ArrNode? && i < |items| && rest != [] && Fits(how, v) && (v != null ==> v.Repr !! Repr)
      modifies Repr
      ensures Valid() && Repr <= old(Repr) + (if v == null then {} else v.Repr)
      ensures match old(Edited(Value.items[i], rest, AsFinal(how, Payload(v))))
              case Ok(c) => ok && Value == Arr(old(Value.items)[i := c])
              case Err(_) => !ok && Value == old(Value)
      decreases |rest|, 2
    {
      var child := items[i];
      ghost var was := child.Repr;
      ok := child.Edit(rest, how, v);
      SiblingItems(i);
      TakeItem(i, if v == null then {} else v.Repr, was);
      assert !ok ==> Value.items == old(Value.items);
    }
  }

  twostate predicate Kept(objects: set<object>)
    reads objects
  {
    unchanged(objects)
  }

  ghost predicate Fits(how: How, v: Node?)
    reads v, if v == null then {} else v.Repr
  {
    if how.Delete? then v == null else v != null && v.Valid()
  }

  ghost function Payload(v: Node?): Json
    reads v
  {
    if v == null then Text("") else v.Value
  }

  // ----- A list of operations

  function HowOf(e: Final): How {
    match e
    case SetTo(_, allowNew) => Set(allowNew)
    case AppendTo(_) => Append
    case Remove => Delete
  }

  /** The kind of an edit and the value it carries make up the edit again; an edit that removes carries none. */
  lemma KindAndValue(e: Final)
    ensures match e
            case SetTo(value, allowNew) => HowOf(e) == Set(allowNew) && AsFinal(HowOf(e), value) == e
            case AppendTo(value) => HowOf(e) == Append && AsFinal(HowOf(e), value) == e
            case Remove => HowOf(e) == Delete && forall value :: AsFinal(HowOf(e), value) == e
  {
  }

  /** What the values that operations carry may be made of. */
  ghost function Parts(nodes: seq<Node?>): set<object>
    reads set n: Node | n in nodes
  {
    set n: Node, o | n in nodes && o in n.Repr :: o
  }

  /** The node is the value of the operation. */
  ghost predicate Carries(o: Operation, v: Node?)
    reads v, if v == null then {} else v.Repr
  {
    && (v != null ==> v.Valid())
    && (ChangeOf(o).Ok? ==>
          && Fits(HowOf(ChangeOf(o).value.e), v)
          && AsFinal(HowOf(ChangeOf(o).value.e), Payload(v)) == ChangeOf(o).value.e)
  }

  /** The node is apart from the objects. */
  ghost predicate Apart(v: Node?, objects: set<object>)
    reads v
  {
    v != null ==> v.Repr !! objects
  }

  /** The values of the operations from `i` on are there, apart from the document and from each other. */
  ghost predicate Waiting(root: Node, ops: seq<Operation>, nodes: seq<Node?>, i: nat)
    reads root, Parts(nodes), set n: Node | n in nodes
  {
    && |ops| == |nodes|
    && (forall k | i <= k < |ops| :: Carries(ops[k], nodes[k]) && Apart(nodes[k], root.Repr))
    && (forall j, k | i <= j < k < |nodes| && nodes[j] != null :: Apart(nodes[k], nodes[j].Repr))
  }

  lemma AsMany(root: Node, ops: seq<Operation>, nodes: seq<Node?>)
    requires Waiting(root, ops, nodes, 0)
    ensures |ops| == |nodes|
  {
  }

  /** One operation. */
  method ApplyOne(root: Node, ops: seq<Operation>, nodes: seq<Node?>, i: nat) returns (ok: bool)
    requires root.Valid() && i < |ops| && Waiting(root, ops, nodes, i)
    modifies root.Repr
    ensures root.Valid() && Waiting(root, ops, nodes, i + 1)
    ensures root.Repr <= old(root.Repr) + (if nodes[i] == null then {} else old(nodes[i].Repr))
    ensures forall k | i < k < |nodes| && nodes[k] != null :: nodes[k].Repr == old(nodes[k].Repr)
    ensures match Applied(old(root.Value), ops[i])
            case Ok(d) => ok && root.Value == d
            case Err(_) => !ok && root.Value == old(root.Value)
  {
    hide ChangeOf, Edited;
    var c := ChangeOf(ops[i]);
    if c.Err? {
      return false;
    }
    assert forall k | i < k < |ops| && nodes[k] != null ::
           nodes[k].Valid() && nodes[k] in nodes[k].Repr && nodes[k].Repr !! root.Repr;
    ok := root.Edit(c.value.parts, HowOf(c.value.e), nodes[i]);
    assert forall k | i < k < |ops| && nodes[k] != null ::
           nodes[k].Repr == old(nodes[k].Repr) && nodes[k].Value == old(nodes[k].Value);
    assert forall k | i < k < |ops| && nodes[k] != null :: nodes[k].Valid();
  }

  /** `apply_operations` as it works: each operation edits the document in place, the values of the
      operations become parts of it, and later operations may change them there. The document left is
      that of the operations on values. */
  method ApplyInPlace(root: Node, ops: seq<Operation>, nodes: seq<Node?>) returns (ok: bool)
    requires root.Valid() && Waiting(root, ops, nodes, 0)
    modifies root.Repr + Parts(nodes)
    ensures ok <==> Run(old(root.Value), ops).Ok?
    ensures ok ==> root.Valid() && root.Value == Run(old(root.Value), ops).value
  {
    hide Applied, Waiting;
    ghost var d := root.Value;
    assert |ops| == |nodes| by {
      AsMany(root, ops, nodes);
    }
    for i := 0 to |ops|
      invariant root.Valid() && Run(d, ops[..i]) == Ok(root.Value)
      invariant root.Repr <= old(root.Repr + Parts(nodes))
      invariant Waiting(root, ops, nodes, i) && |ops| == |nodes|
      invariant forall k | i <= k < |nodes| && nodes[k] != null :: nodes[k].Repr == old(nodes[k].Repr)
    {
      assert ops[..i + 1][..i] == ops[..i];
      assert nodes[i] in nodes;
      ok := ApplyOne(root, ops, nodes, i);
      if !ok {
        RunStops(d, ops, i + 1);
        return;
      }
    }
    assert ops[..|ops|] == ops;
    return true;
  }
}
