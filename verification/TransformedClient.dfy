/** The client that offers native objects and keeps CRD objects: it converts what
    it sends and what it receives. */
module TransformedClient {
  import opened Results

  // ---- An API server's store of objects of one kind ----

  datatype Op<+O> =
    | Create(name: string, object': O)
    | Update(name: string, object': O)
    | Delete(name: string)
    | Get(name: string)
    | List

  datatype Reply<+O> = One(item: O) | Many(items: seq<O>) | Deleted | Failure(message: string)

  datatype Entry<+O> = Entry(name: string, item: O)

  function Position<O>(store: seq<Entry<O>>, name: string): (n: nat)
    ensures n <= |store| && (n < |store| ==> store[n].name == name)
  {
    if store == [] || store[0].name == name then 0 else 1 + Position(store[1..], name)
  }

  function Items<O>(store: seq<Entry<O>>): seq<O> {
    seq(|store|, i requires 0 <= i < |store| => store[i].item)
  }

  /** What the server does; it may refuse an operation for reasons of its own. */
  function Serve<O>(store: seq<Entry<O>>, op: Op<O>, refusal: Option<string>): (seq<Entry<O>>, Reply<O>) {
    if refusal.Some? then (store, Failure(refusal.value))
    else
      match op
      case Create(name, x) =>
        if Position(store, name) < |store| then (store, Failure("already exists"))
        else (store + [Entry(name, x)], One(x))
      case Update(name, x) =>
        var n := Position(store, name);
        if n < |store| then (store[n := Entry(name, x)], One(x)) else (store, Failure("not found"))
      case Delete(name) =>
        var n := Position(store, name);
        if n < |store| then (store[..n] + store[n + 1..], Deleted) else (store, Failure("not found"))
      case Get(name) =>
        var n := Position(store, name);
        if n < |store| then (store, One(store[n].item)) else (store, Failure("not found"))
      case List => (store, Many(Items(store)))
  }

  // ---- The transformed client ----

  /** `T` is the native type, `R` the type that replaces it. */
  datatype Conversions<!T, !R> = Conversions(to: R -> Result<T>, from: T -> Result<R>)

  /** The first error, or all results in order. */
  function ConvertAll<T, R>(to: R -> Result<T>, items: seq<R>): Result<seq<T>> {
    if items == [] then Ok([])
    else
      match to(items[0])
      case Error(m) => Error(m)
      case Ok(x) =>
        match ConvertAll(to, items[1..])
        case Error(m) => Error(m)
        case Ok(xs) => Ok([x] + xs)
  }

  function Back<T, R>(c: Conversions<T, R>, reply: Reply<R>): Reply<T> {
    match reply
    case One(r) => (match c.to(r) case Ok(x) => One(x) case Error(m) => Failure(m))
    case Many(rs) => (match ConvertAll(c.to, rs) case Ok(xs) => Many(xs) case Error(m) => Failure(m))
    case Deleted => Deleted
    case Failure(m) => Failure(m)
  }

  function Forth<T, R>(c: Conversions<T, R>, op: Op<T>): Result<Op<R>> {
    match op
    case Create(name, x) => (match c.from(x) case Ok(r) => Ok(Create(name, r)) case Error(m) => Error(m))
    case Update(name, x) => (match c.from(x) case Ok(r) => Ok(Update(name, r)) case Error(m) => Error(m))
    case Delete(name) => Ok(Delete(name))
    case Get(name) => Ok(Get(name))
    case List => Ok(List)
  }

  /** Convert the object, call the replacement client, convert its answer. */
  function Transformed<T, R>(c: Conversions<T, R>, store: seq<Entry<R>>, op: Op<T>, refusal: Option<string>)
    : (seq<Entry<R>>, Reply<T>)
  {
    match Forth(c, op)
    case Error(m) => (store, Failure(m))
    case Ok(sent) =>
      var (after, reply) := Serve(store, sent, refusal);
      (after, Back(c, reply))
  }

  /** The variable of Go's `range` loop, one for all rounds. */
  class Variable<V> {
    var value: V

    constructor (value: V)
      ensures this.value == value
    {
      this.value := value;
    }
  }

  /** What a conversion of the loop variable returns: a pointer to memory of its own,
      or one into the variable, through which one sees whatever that holds by then. */
  datatype Pointer<!R, +T> = Own(target: T) | Into(view: R -> T)

  /** What the pointer shows while the loop variable holds `r`. */
  function Shown<T, R>(p: Pointer<R, T>, r: R): T {
    match p
    case Own(x) => x
    case Into(view) => view(r)
  }

  /** The conversion of an object on its own. */
  function Alone<T, R>(to: R -> Result<Pointer<R, T>>): R -> Result<T> {
    (r: R) => match to(r) case Ok(p) => Ok(Shown(p, r)) case Error(m) => Error(m)
  }

  /** The loop of `List`: every round converts through the same variable, and copies
      what the resulting pointer shows into its place before the variable changes. So
      each object comes out as converted alone, also if the pointers are all into the
      variable. */
  method ConvertItems<T(0), R>(to: R -> Result<Pointer<R, T>>, items: seq<R>) returns (r: Result<seq<T>>)
    ensures r == ConvertAll(Alone(to), items)
  {
    if items == [] {
      return Ok([]);
    }
    var newItems := new T[|items|];
    var v := new Variable(items[0]);
    ghost var alone := Alone(to);
    PrefixedNothing(ConvertAll(alone, items));
    assert items[0..] == items;
    for i := 0 to |items|
      invariant fresh(newItems) && fresh(v)
      invariant ConvertAll(alone, items) == Prefixed(newItems[..i], ConvertAll(alone, items[i..]))
    {
      v.value := items[i];
      var converted := to(v.value);
      PrefixedStep(alone, items[i..], newItems[..i]);
      if converted.Error? {
        return Error(converted.message);
      }
      newItems[i] := Shown(converted.value, v.value);
      assert newItems[..i + 1] == newItems[..i] + [newItems[i]];
      assert items[i..][1..] == items[i + 1..];
    }
    assert newItems[..|items|] == newItems[..] && newItems[..] + [] == newItems[..];
    return Ok(newItems[..]);
  }

  function Prefixed<T>(before: seq<T>, rest: Result<seq<T>>): Result<seq<T>> {
    match rest
    case Ok(xs) => Ok(before + xs)
    case Error(m) => Error(m)
  }

  lemma PrefixedNothing<T>(rest: Result<seq<T>>)
    ensures Prefixed([], rest) == rest
  {
    if rest.Ok? {
      assert [] + rest.value == rest.value;
    }
  }

  lemma PrefixedStep<T, R>(to: R -> Result<T>, items: seq<R>, before: seq<T>)
    requires items != []
    ensures Prefixed(before, ConvertAll(to, items)) ==
      match to(items[0])
      case Error(m) => Error(m)
      case Ok(x) => Prefixed(before + [x], ConvertAll(to, items[1..]))
  {
    if to(items[0]).Ok? && ConvertAll(to, items[1..]).Ok? {
      var x, xs := to(items[0]).value, ConvertAll(to, items[1..]).value;
      assert before + ([x] + xs) == (before + [x]) + xs;
    }
  }

  /** A listing succeeds exactly if every object converts; it keeps length and
      order, and else fails with the error of the first object that does not. */
  lemma {:induction false} ConvertAllExactly<T, R>(to: R -> Result<T>, items: seq<R>)
    ensures ConvertAll(to, items).Ok? <==> forall r | r in items :: to(r).Ok?
    ensures ConvertAll(to, items).Ok? ==>
      |ConvertAll(to, items).value| == |items|
      && forall i :: 0 <= i < |items| ==> to(items[i]) == Ok(ConvertAll(to, items).value[i])
    ensures forall i :: 0 <= i < |items| && to(items[i]).Error? && (forall j :: 0 <= j < i ==> to(items[j]).Ok?) ==>
      ConvertAll(to, items) == Error(to(items[i]).message)
  {
    if items != [] {
      ConvertAllExactly(to, items[1..]);
    }
  }

  // ---- Simulation ----

  /** Objects that the server may hold convert, and sent objects are among them. */
  ghost predicate Sound<T(!new), R(!new)>(c: Conversions<T, R>, held: R -> bool) {
    && (forall r :: held(r) ==> c.to(r).Ok?)
    && (forall x :: c.from(x).Ok? ==> held(c.from(x).value))
  }

  ghost predicate Holds<R>(store: seq<Entry<R>>, held: R -> bool) {
    forall i :: 0 <= i < |store| ==> held(store[i].item)
  }

  /** What one sees of the CRD store through the conversions. */
  ghost function Image<T(!new), R(!new)>(c: Conversions<T, R>, held: R -> bool, store: seq<Entry<R>>)
    : (image: seq<Entry<T>>)
    requires Sound(c, held) && Holds(store, held)
    ensures |image| == |store|
  {
    seq(|store|, i requires 0 <= i < |store| => Entry(store[i].name, c.to(store[i].item).value))
  }

  /** The operation with its object as it will be read back. */
  ghost function ImageOp<T(!new), R(!new)>(c: Conversions<T, R>, held: R -> bool, op: Op<T>): Op<T>
    requires Sound(c, held) && Forth(c, op).Ok?
  {
    match op
    case Create(name, x) => Create(name, c.to(c.from(x).value).value)
    case Update(name, x) => Update(name, c.to(c.from(x).value).value)
    case _ => op
  }

  lemma {:induction false} ImagePosition<T(!new), R(!new)>(
    c: Conversions<T, R>, held: R -> bool, store: seq<Entry<R>>, name: string)
    requires Sound(c, held) && Holds(store, held)
    ensures Position(Image(c, held, store), name) == Position(store, name)
  {
    if store != [] {
      assert Image(c, held, store)[1..] == Image(c, held, store[1..]);
      ImagePosition(c, held, store[1..], name);
    }
  }

  lemma ImageItems<T(!new), R(!new)>(c: Conversions<T, R>, held: R -> bool, store: seq<Entry<R>>)
    requires Sound(c, held) && Holds(store, held)
    ensures ConvertAll(c.to, Items(store)) == Ok(Items(Image(c, held, store)))
  {
    ConvertAllExactly(c.to, Items(store));
    assert Items(Image(c, held, store)) == ConvertAll(c.to, Items(store)).value;
  }

  /** The server does the same to a store and to its image, whatever it refuses. */
  lemma ServeSimulates<T(!new), R(!new)>(
    c: Conversions<T, R>, held: R -> bool, store: seq<Entry<R>>, op: Op<T>, refusal: Option<string>)
    requires Sound(c, held) && Holds(store, held) && Forth(c, op).Ok?
    ensures Holds(Serve(store, Forth(c, op).value, refusal).0, held)
    ensures Image(c, held, Serve(store, Forth(c, op).value, refusal).0)
      == Serve(Image(c, held, store), ImageOp(c, held, op), refusal).0
  {
    if refusal.None? && !op.List? {
      ImagePosition(c, held, store, op.name);
    }
  }

  /** One operation of the transformed client does to what one sees of its store what
      the operation does with its object as it will be read back, with the same answer.
      An object that does not convert changes nothing and is answered with its error. */
  lemma OperationSimulates<T(!new), R(!new)>(
    c: Conversions<T, R>, held: R -> bool, store: seq<Entry<R>>, op: Op<T>, refusal: Option<string>)
    requires Sound(c, held) && Holds(store, held)
    ensures var (after, reply) := Transformed(c, store, op, refusal);
      && Holds(after, held)
      && (Forth(c, op).Error? ==> after == store && reply == Failure(Forth(c, op).message))
      && (Forth(c, op).Ok? ==>
            && Image(c, held, after) == Serve(Image(c, held, store), ImageOp(c, held, op), refusal).0
            && reply == Serve(Image(c, held, store), ImageOp(c, held, op), refusal).1)
  {
    if Forth(c, op).Ok? {
      ServeSimulates(c, held, store, op, refusal);
      if op.List? {
        ImageItems(c, held, store);
      } else {
        ImagePosition(c, held, store, op.name);
      }
    }
  }

  // ---- Whole sessions ----

  datatype Call<+O> = Call(op: Op<O>, refusal: Option<string>)

  /** The answers of the transformed client to a sequence of calls. */
  function Session<T, R>(c: Conversions<T, R>, store: seq<Entry<R>>, calls: seq<Call<T>>): seq<Reply<T>>
    decreases |calls|
  {
    if calls == [] then []
    else
      var (after, reply) := Transformed(c, store, calls[0].op, calls[0].refusal);
      [reply] + Session(c, after, calls[1..])
  }

  /** What the store holds after them. */
  function StoreAfter<T, R>(c: Conversions<T, R>, store: seq<Entry<R>>, calls: seq<Call<T>>): seq<Entry<R>>
    decreases |calls|
  {
    if calls == [] then store
    else StoreAfter(c, Transformed(c, store, calls[0].op, calls[0].refusal).0, calls[1..])
  }

  /** The answers of a store that keeps and shows each object as it is read back, and
      answers an object that does not convert with the error of its conversion. For a
      plain native store see `MirroredStore`. */
  ghost function ReadBackSession<T(!new), R(!new)>(
    c: Conversions<T, R>, held: R -> bool, store: seq<Entry<T>>, calls: seq<Call<T>>): seq<Reply<T>>
    requires Sound(c, held)
    decreases |calls|
  {
    if calls == [] then []
    else
      match Forth(c, calls[0].op)
      case Error(m) => [Failure(m)] + ReadBackSession(c, held, store, calls[1..])
      case Ok(_) =>
        var (after, reply) := Serve(store, ImageOp(c, held, calls[0].op), calls[0].refusal);
        [reply] + ReadBackSession(c, held, after, calls[1..])
  }

  /** No sequence of calls can tell the transformed client from such a store. */
  lemma {:induction false} SessionSimulates<T(!new), R(!new)>(
    c: Conversions<T, R>, held: R -> bool, store: seq<Entry<R>>, calls: seq<Call<T>>)
    requires Sound(c, held) && Holds(store, held)
    ensures Session(c, store, calls) == ReadBackSession(c, held, Image(c, held, store), calls)
    decreases |calls|
  {
    if calls != [] {
      OperationSimulates(c, held, store, calls[0].op, calls[0].refusal);
      SessionSimulates(c, held, Transformed(c, store, calls[0].op, calls[0].refusal).0, calls[1..]);
    }
  }

  /** Whose error is returned: the conversion's of the object, before the server is asked;
      the server's; or the conversion's of the server's answer. */
  lemma ErrorsArePassedOn<T, R>(c: Conversions<T, R>, store: seq<Entry<R>>, op: Op<T>, refusal: Option<string>)
    ensures var (after, reply) := Transformed(c, store, op, refusal);
      if (op.Create? || op.Update?) && c.from(op.object').Error? then
        after == store && reply == Failure(c.from(op.object').message)
      else if refusal.Some? then after == store && reply == Failure(refusal.value)
      else
        var answer := Serve(store, Forth(c, op).value, None).1;
        && (answer.Failure? ==> reply == Failure(answer.message))
        && (answer.One? && c.to(answer.item).Error? ==> reply == Failure(c.to(answer.item).message))
  {}

  /** Where objects may fail to convert back, a write can fail and yet be stored:
      exactly when the server accepted it and its answer does not convert. */
  lemma FailedWriteIsStoredExactly<T, R>(
    c: Conversions<T, R>, store: seq<Entry<R>>, name: string, x: T, refusal: Option<string>)
    ensures var (after, reply) := Transformed(c, store, Create(name, x), refusal);
      reply.Failure? && after != store <==>
        && c.from(x).Ok? && refusal.None? && Position(store, name) == |store|
        && c.to(c.from(x).value).Error?
  {}
}
