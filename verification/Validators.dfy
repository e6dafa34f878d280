/** Validators of admission requests, and the validator that asks several in turn. */
module Validators {
  import opened Kinds
  import opened Results

  datatype Resource = Resource(group: string, version: string, resource: string)

  /** The metadata of an object, as far as its name goes; not all objects have some. */
  datatype Metadata = NoMetadata | Names(name: string, generateName: string)

  datatype Object = Object(kind: Kind, metadata: Metadata, content: string)

  /** A Go slice of strings, nil or not. */
  type Strings = Option<seq<string>>

  datatype User = User(name: string, uid: string, groups: seq<string>, extra: Option<map<string, Strings>>)

  datatype Attributes = Attributes(
    object': Option<Object>, oldObject: Option<Object>, kind: Kind, namespace: string, name: string,
    resource: Resource, subresource: string, operation: string, user: User)

  datatype Status = Status(code: int, reason: string, message: string)

  /** An error, with the status of the StatusError in its chain, if there is one. */
  datatype Failure = Failure(message: string, status: Option<Status>)

  datatype Validator =
    | Single(handles: string -> bool, validate: Attributes -> Option<Failure>)
    | Multi(validators: seq<Validator>)
  {
    /** `Handles`: some validator does. */
    method Handles(operation: string) returns (r: bool)
      ensures r == Handling(this, operation)
      decreases this
    {
      if Single? {
        return handles(operation);
      }
      for i := 0 to |validators|
        invariant AnyHandling(validators, operation) == AnyHandling(validators[i..], operation)
      {
        var handling := validators[i].Handles(operation);
        if handling {
          return true;
        }
        assert validators[i..][1..] == validators[i + 1..];
      }
      return false;
    }

    /** `Validate`: the first error of a validator that handles the operation. */
    method Validate(a: Attributes) returns (error: Option<Failure>)
      ensures error == Rejection(this, a)
      decreases this
    {
      if Single? {
        return validate(a);
      }
      for i := 0 to |validators|
        invariant FirstRejection(validators, a) == FirstRejection(validators[i..], a)
      {
        assert validators[i..][1..] == validators[i + 1..];
        var handling := validators[i].Handles(a.operation);
        if !handling {
          continue;
        }
        error := validators[i].Validate(a);
        if error.Some? {
          return;
        }
      }
      return None;
    }
  }

  predicate Handling(v: Validator, operation: string) {
    match v
    case Single(handles, _) => handles(operation)
    case Multi(vs) => AnyHandling(vs, operation)
  }

  predicate AnyHandling(vs: seq<Validator>, operation: string) {
    vs != [] && (Handling(vs[0], operation) || AnyHandling(vs[1..], operation))
  }

  /** `None` accepts. */
  function Rejection(v: Validator, a: Attributes): Option<Failure> {
    match v
    case Single(_, validate) => validate(a)
    case Multi(vs) => FirstRejection(vs, a)
  }

  function FirstRejection(vs: seq<Validator>, a: Attributes): Option<Failure> {
    if vs == [] then None
    else if Handling(vs[0], a.operation) && Rejection(vs[0], a).Some? then Rejection(vs[0], a)
    else FirstRejection(vs[1..], a)
  }

  // ---- What several validators decide ----

  predicate Rejects(v: Validator, a: Attributes) {
    Handling(v, a.operation) && Rejection(v, a).Some?
  }

  lemma {:induction false} HandlingExactly(vs: seq<Validator>, operation: string)
    ensures AnyHandling(vs, operation) <==> exists i :: 0 <= i < |vs| && Handling(vs[i], operation)
  {
    if vs != [] {
      HandlingExactly(vs[1..], operation);
      if i :| 0 < i < |vs| && Handling(vs[i], operation) {
        assert Handling(vs[1..][i - 1], operation);
      }
    }
  }

  /** The request is accepted exactly if no handling validator rejects it, and else
      gets the error of the first one that does. */
  lemma {:induction false} DecidesExactly(vs: seq<Validator>, a: Attributes)
    ensures FirstRejection(vs, a).None? <==> forall i :: 0 <= i < |vs| ==> !Rejects(vs[i], a)
    ensures forall i :: 0 <= i < |vs| && Rejects(vs[i], a) && (forall j :: 0 <= j < i ==> !Rejects(vs[j], a)) ==>
      FirstRejection(vs, a) == Rejection(vs[i], a)
  {
    if vs != [] {
      DecidesExactly(vs[1..], a);
      forall i | 0 < i < |vs| ensures Rejects(vs[i], a) <==> Rejects(vs[1..][i - 1], a) {}
    }
  }

  /** Neither the decision nor whether the operation is handled depends on the order
      of the validators, or on how often one is listed. */
  lemma OrderDoesNotMatter(vs: seq<Validator>, ws: seq<Validator>, a: Attributes, operation: string)
    requires forall v :: v in vs <==> v in ws
    ensures FirstRejection(vs, a).None? <==> FirstRejection(ws, a).None?
    ensures AnyHandling(vs, operation) <==> AnyHandling(ws, operation)
  {
    SameDecision(vs, ws, a, operation);
    SameDecision(ws, vs, a, operation);
  }

  lemma SameDecision(vs: seq<Validator>, ws: seq<Validator>, a: Attributes, operation: string)
    requires forall v :: v in ws ==> v in vs
    ensures FirstRejection(vs, a).None? ==> FirstRejection(ws, a).None?
    ensures AnyHandling(ws, operation) ==> AnyHandling(vs, operation)
  {
    DecidesExactly(vs, a);
    DecidesExactly(ws, a);
    HandlingExactly(vs, operation);
    HandlingExactly(ws, operation);
    forall i | 0 <= i < |ws| ensures exists j :: 0 <= j < |vs| && vs[j] == ws[i] {
      assert ws[i] in vs;
    }
  }

  // ---- Nesting ----

  /** The validators that are not themselves several, in the order they are asked. */
  function Leaves(v: Validator): (leaves: seq<Validator>)
    ensures forall i :: 0 <= i < |leaves| ==> leaves[i].Single?
  {
    match v
    case Single(_, _) => [v]
    case Multi(vs) => AllLeaves(vs)
  }

  function AllLeaves(vs: seq<Validator>): (leaves: seq<Validator>)
    ensures forall i :: 0 <= i < |leaves| ==> leaves[i].Single?
  {
    if vs == [] then [] else Leaves(vs[0]) + AllLeaves(vs[1..])
  }

  lemma {:induction false} Appended(xs: seq<Validator>, ys: seq<Validator>, a: Attributes, operation: string)
    ensures AnyHandling(xs + ys, operation) == (AnyHandling(xs, operation) || AnyHandling(ys, operation))
    ensures FirstRejection(xs + ys, a) ==
      if FirstRejection(xs, a).Some? then FirstRejection(xs, a) else FirstRejection(ys, a)
  {
    if xs == [] {
      assert xs + ys == ys;
    } else {
      assert (xs + ys)[1..] == xs[1..] + ys;
      Appended(xs[1..], ys, a, operation);
    }
  }

  lemma {:induction false} SilentUnlessHandling(vs: seq<Validator>, a: Attributes)
    requires !AnyHandling(vs, a.operation)
    ensures FirstRejection(vs, a).None?
  {
    if vs != [] {
      SilentUnlessHandling(vs[1..], a);
    }
  }

  lemma {:induction false} LeavesOfOne(v: Validator, a: Attributes, operation: string)
    ensures AnyHandling(Leaves(v), operation) == Handling(v, operation)
    ensures FirstRejection(Leaves(v), a) == if Rejects(v, a) then Rejection(v, a) else None
    decreases v
  {
    if v.Multi? {
      LeavesDecide(v.validators, a, operation);
      if !AnyHandling(v.validators, a.operation) {
        SilentUnlessHandling(v.validators, a);
      }
    } else {
      assert Leaves(v)[1..] == [];
    }
  }

  /** However validators are nested, they do what the single ones in them do when
      asked one after the other. */
  lemma {:induction false} LeavesDecide(vs: seq<Validator>, a: Attributes, operation: string)
    ensures AnyHandling(AllLeaves(vs), operation) == AnyHandling(vs, operation)
    ensures FirstRejection(AllLeaves(vs), a) == FirstRejection(vs, a)
    decreases vs
  {
    if vs != [] {
      LeavesOfOne(vs[0], a, operation);
      LeavesDecide(vs[1..], a, operation);
      Appended(Leaves(vs[0]), AllLeaves(vs[1..]), a, operation);
    }
  }

  /** Several validators among others may as well stand there themselves. */
  lemma NestingFlattens(
    before: seq<Validator>, xs: seq<Validator>, after: seq<Validator>, a: Attributes, operation: string)
    ensures Handling(Multi(before + [Multi(xs)] + after), operation) == Handling(Multi(before + xs + after), operation)
    ensures Rejection(Multi(before + [Multi(xs)] + after), a) == Rejection(Multi(before + xs + after), a)
  {
    OneNested(xs, a, operation);
    Appended(before, [Multi(xs)], a, operation);
    Appended(before + [Multi(xs)], after, a, operation);
    Appended(before, xs, a, operation);
    Appended(before + xs, after, a, operation);
  }

  lemma OneNested(xs: seq<Validator>, a: Attributes, operation: string)
    ensures AnyHandling([Multi(xs)], operation) == AnyHandling(xs, operation)
    ensures FirstRejection([Multi(xs)], a) == FirstRejection(xs, a)
  {
    if !AnyHandling(xs, a.operation) {
      SilentUnlessHandling(xs, a);
    }
    assert [Multi(xs)][1..] == [];
  }
}
