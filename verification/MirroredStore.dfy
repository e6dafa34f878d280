/** The transformed client against a plain native store, one that keeps and answers
    objects as they were written: the same names, refusals and lists, and every object
    as it looks after the way to the CRD type and back. */
module MirroredStore {
  import opened Results
  import opened TransformedClient

  /** Every written object converts to the CRD type. */
  predicate Converts<T, R>(c: Conversions<T, R>, op: Op<T>) {
    Forth(c, op).Ok?
  }

  ghost predicate AllConvert<T(!new), R(!new)>(c: Conversions<T, R>, calls: seq<Call<T>>) {
    forall n :: 0 <= n < |calls| ==> Converts(c, calls[n].op)
  }

  /** The CRD store holds the conversions of what the plain store holds. */
  predicate Mirrors<T, R(==)>(c: Conversions<T, R>, plain: seq<Entry<T>>, store: seq<Entry<R>>) {
    |plain| == |store| && forall i :: 0 <= i < |plain| ==> MirrorsEntry(c, plain[i], store[i])
  }

  predicate MirrorsEntry<T, R(==)>(c: Conversions<T, R>, plain: Entry<T>, kept: Entry<R>) {
    plain.name == kept.name && c.from(plain.item) == Ok(kept.item)
  }

  /** An object as it is read back after it was written. */
  function ThereAndBackOf<T, R>(c: Conversions<T, R>, x: T): T {
    match c.from(x)
    case Error(_) => x
    case Ok(r) => match c.to(r) case Error(_) => x case Ok(y) => y
  }

  function AllThereAndBack<T, R>(c: Conversions<T, R>, items: seq<T>): seq<T> {
    seq(|items|, i requires 0 <= i < |items| => ThereAndBackOf(c, items[i]))
  }

  /** An answer with every object in it after the way there and back. */
  function Mirrored<T, R>(c: Conversions<T, R>, reply: Reply<T>): Reply<T> {
    match reply
    case One(x) => One(ThereAndBackOf(c, x))
    case Many(xs) => Many(AllThereAndBack(c, xs))
    case _ => reply
  }

  lemma {:induction false} SamePosition<T, R>(
    c: Conversions<T, R>, plain: seq<Entry<T>>, store: seq<Entry<R>>, name: string)
    requires Mirrors(c, plain, store)
    ensures Position(plain, name) == Position(store, name)
  {
    if plain != [] {
      assert MirrorsEntry(c, plain[0], store[0]);
      forall i | 0 <= i < |plain[1..]| ensures MirrorsEntry(c, plain[1..][i], store[1..][i]) {
        assert MirrorsEntry(c, plain[i + 1], store[i + 1]);
      }
      SamePosition(c, plain[1..], store[1..], name);
    }
  }

  lemma MirrorsHold<T(!new), R(!new)>(
    c: Conversions<T, R>, held: R -> bool, plain: seq<Entry<T>>, store: seq<Entry<R>>)
    requires Sound(c, held) && Mirrors(c, plain, store)
    ensures Holds(store, held)
  {
    forall i | 0 <= i < |store| ensures held(store[i].item) {
      assert MirrorsEntry(c, plain[i], store[i]);
    }
  }

  /** The server does the same to both stores. */
  lemma ServeMirrors<T, R>(
    c: Conversions<T, R>, plain: seq<Entry<T>>, store: seq<Entry<R>>, op: Op<T>, refusal: Option<string>)
    requires Mirrors(c, plain, store) && Converts(c, op)
    ensures Mirrors(c, Serve(plain, op, refusal).0, Serve(store, Forth(c, op).value, refusal).0)
  {
    if refusal.None? && !op.List? {
      SamePosition(c, plain, store, op.name);
    }
  }

  lemma ListMirrors<T(!new), R(!new)>(
    c: Conversions<T, R>, held: R -> bool, plain: seq<Entry<T>>, store: seq<Entry<R>>)
    requires Sound(c, held) && Mirrors(c, plain, store)
    ensures ConvertAll(c.to, Items(store)) == Ok(AllThereAndBack(c, Items(plain)))
  {
    MirrorsHold(c, held, plain, store);
    ConvertAllExactly(c.to, Items(store));
    forall i | 0 <= i < |store| ensures c.to(store[i].item) == Ok(ThereAndBackOf(c, plain[i].item)) {
      assert MirrorsEntry(c, plain[i], store[i]);
    }
    assert AllThereAndBack(c, Items(plain)) == ConvertAll(c.to, Items(store)).value;
  }

  /** One operation: the answer is the plain store's, every object in it after the way
      there and back, and the stores still mirror each other. */
  lemma OperationMirrors<T(!new), R(!new)>(
    c: Conversions<T, R>, held: R -> bool, plain: seq<Entry<T>>, store: seq<Entry<R>>,
    op: Op<T>, refusal: Option<string>)
    requires Sound(c, held) && Mirrors(c, plain, store) && Converts(c, op)
    ensures Mirrors(c, Serve(plain, op, refusal).0, Transformed(c, store, op, refusal).0)
    ensures Transformed(c, store, op, refusal).1 == Mirrored(c, Serve(plain, op, refusal).1)
  {
    ServeMirrors(c, plain, store, op, refusal);
    if refusal.None? {
      match op
      case List => ListMirrors(c, held, plain, store);
      case Get(name) =>
        SamePosition(c, plain, store, name);
        var n := Position(plain, name);
        assert n < |plain| ==> MirrorsEntry(c, plain[n], store[n]);
      case _ => SamePosition(c, plain, store, op.name);
    }
  }

  /** The answers of the plain store to a sequence of calls. */
  function PlainSession<T>(plain: seq<Entry<T>>, calls: seq<Call<T>>): seq<Reply<T>>
    decreases |calls|
  {
    if calls == [] then []
    else
      var (after, reply) := Serve(plain, calls[0].op, calls[0].refusal);
      [reply] + PlainSession(after, calls[1..])
  }

  function AllMirrored<T, R>(c: Conversions<T, R>, replies: seq<Reply<T>>): seq<Reply<T>> {
    if replies == [] then [] else [Mirrored(c, replies[0])] + AllMirrored(c, replies[1..])
  }

  /** Whole sessions: the answers of the plain store, every object in them after the way
      there and back. */
  lemma {:induction false} SessionMirrors<T(!new), R(!new)>(
    c: Conversions<T, R>, held: R -> bool, plain: seq<Entry<T>>, store: seq<Entry<R>>, calls: seq<Call<T>>)
    requires Sound(c, held) && Mirrors(c, plain, store) && AllConvert(c, calls)
    ensures Session(c, store, calls) == AllMirrored(c, PlainSession(plain, calls))
    decreases |calls|
  {
    if calls != [] {
      var op, refusal := calls[0].op, calls[0].refusal;
      OperationMirrors(c, held, plain, store, op, refusal);
      SessionMirrors(c, held, Serve(plain, op, refusal).0, Transformed(c, store, op, refusal).0, calls[1..]);
      var first, rest := Serve(plain, op, refusal).1, PlainSession(Serve(plain, op, refusal).0, calls[1..]);
      assert ([first] + rest)[1..] == rest;
    }
  }

  // ---- When the two cannot be told apart ----

  /** The objects that an answer shows. */
  function ShownBy<T>(reply: Reply<T>): seq<T> {
    match reply
    case One(x) => [x]
    case Many(xs) => xs
    case _ => []
  }

  /** Every object that the answers show is the same after the way there and back. */
  predicate ShowsOnlyStable<T(==), R>(c: Conversions<T, R>, replies: seq<Reply<T>>) {
    replies == [] || (StableReply(c, replies[0]) && ShowsOnlyStable(c, replies[1..]))
  }

  predicate StableReply<T(==), R>(c: Conversions<T, R>, reply: Reply<T>) {
    forall i :: 0 <= i < |ShownBy(reply)| ==> ThereAndBackOf(c, ShownBy(reply)[i]) == ShownBy(reply)[i]
  }

  lemma StableExactly<T, R>(c: Conversions<T, R>, reply: Reply<T>)
    ensures Mirrored(c, reply) == reply <==> StableReply(c, reply)
  {
    match reply
    case One(x) => assert ShownBy(reply)[0] == x;
    case Many(xs) =>
      if StableReply(c, reply) {
        forall i | 0 <= i < |xs| ensures AllThereAndBack(c, xs)[i] == xs[i] {
          assert ShownBy(reply)[i] == xs[i];
        }
      } else {
        var i :| 0 <= i < |xs| && ThereAndBackOf(c, xs[i]) != xs[i];
        assert AllThereAndBack(c, xs)[i] != xs[i];
      }
    case _ =>
  }

  lemma {:induction false} AllStableExactly<T, R>(c: Conversions<T, R>, replies: seq<Reply<T>>)
    ensures AllMirrored(c, replies) == replies <==> ShowsOnlyStable(c, replies)
  {
    if replies != [] {
      StableExactly(c, replies[0]);
      AllStableExactly(c, replies[1..]);
      assert replies == [replies[0]] + replies[1..];
      assert AllMirrored(c, replies)[1..] == AllMirrored(c, replies[1..]);
    }
  }

  /** A session gives the plain store's answers exactly if all objects that the plain
      store shows in it are the same after the way there and back. */
  lemma SameAnswersExactly<T(!new), R(!new)>(
    c: Conversions<T, R>, held: R -> bool, plain: seq<Entry<T>>, store: seq<Entry<R>>, calls: seq<Call<T>>)
    requires Sound(c, held) && Mirrors(c, plain, store) && AllConvert(c, calls)
    ensures Session(c, store, calls) == PlainSession(plain, calls) <==> ShowsOnlyStable(c, PlainSession(plain, calls))
  {
    SessionMirrors(c, held, plain, store, calls);
    AllStableExactly(c, PlainSession(plain, calls));
  }

  // ---- Sessions that write certain objects only ----

  predicate WritesOnly<T>(op: Op<T>, allowed: T -> bool) {
    op.Create? || op.Update? ==> allowed(op.object')
  }

  predicate AllWriteOnly<T>(calls: seq<Call<T>>, allowed: T -> bool) {
    forall n :: 0 <= n < |calls| ==> WritesOnly(calls[n].op, allowed)
  }

  predicate KeepsOnly<T>(plain: seq<Entry<T>>, allowed: T -> bool) {
    forall i :: 0 <= i < |plain| ==> allowed(plain[i].item)
  }

  lemma ServeKeepsOnly<T>(plain: seq<Entry<T>>, op: Op<T>, refusal: Option<string>, allowed: T -> bool)
    requires KeepsOnly(plain, allowed) && WritesOnly(op, allowed)
    ensures KeepsOnly(Serve(plain, op, refusal).0, allowed)
    ensures var shown := ShownBy(Serve(plain, op, refusal).1);
      forall i :: 0 <= i < |shown| ==> allowed(shown[i])
  {}

  lemma {:induction false} OnlyStableShown<T, R>(
    c: Conversions<T, R>, plain: seq<Entry<T>>, calls: seq<Call<T>>, allowed: T -> bool)
    requires KeepsOnly(plain, allowed)
    requires forall n :: 0 <= n < |calls| ==> WritesOnly(calls[n].op, allowed)
    requires forall x :: allowed(x) ==> ThereAndBackOf(c, x) == x
    ensures ShowsOnlyStable(c, PlainSession(plain, calls))
    decreases |calls|
  {
    if calls != [] {
      ServeKeepsOnly(plain, calls[0].op, calls[0].refusal, allowed);
      var after := Serve(plain, calls[0].op, calls[0].refusal).0;
      OnlyStableShown(c, after, calls[1..], allowed);
      var replies := PlainSession(plain, calls);
      assert replies[1..] == PlainSession(after, calls[1..]);
    }
  }

  /** All sessions that start with nothing and write only certain objects, which all
      convert, give the plain store's answers exactly if those objects are the same
      after the way there and back. */
  lemma IndistinguishableExactly<T(!new), R(!new)>(c: Conversions<T, R>, held: R -> bool, allowed: T -> bool)
    requires Sound(c, held) && forall x :: allowed(x) ==> c.from(x).Ok?
    ensures (forall calls: seq<Call<T>> :: AllWriteOnly(calls, allowed) ==>
               Session(c, [], calls) == PlainSession([], calls))
      <==> (forall x :: allowed(x) ==> ThereAndBackOf(c, x) == x)
  {
    if forall x :: allowed(x) ==> ThereAndBackOf(c, x) == x {
      forall calls: seq<Call<T>> | AllWriteOnly(calls, allowed)
        ensures Session(c, [], calls) == PlainSession([], calls)
      {
        forall n | 0 <= n < |calls| ensures Converts(c, calls[n].op) {
          assert WritesOnly(calls[n].op, allowed);
        }
        OnlyStableShown(c, [], calls, allowed);
        SameAnswersExactly(c, held, [], [], calls);
      }
    }
    if x :| allowed(x) && ThereAndBackOf(c, x) != x {
      var calls := CreateShows(c, held, x);
      assert AllWriteOnly(calls, allowed);
    }
  }

  /** Creating an object already shows whether it is. */
  lemma CreateShows<T(!new), R(!new)>(c: Conversions<T, R>, held: R -> bool, x: T) returns (calls: seq<Call<T>>)
    requires Sound(c, held) && c.from(x).Ok?
    ensures calls == [Call(Create("p", x), None)]
    ensures PlainSession([], calls) == [One(x)]
    ensures Session(c, [], calls) == PlainSession([], calls) <==> ThereAndBackOf(c, x) == x
  {
    calls := [Call(Create("p", x), None)];
    assert calls[1..] == [];
    var replies := PlainSession([], calls);
    var nothing: seq<Entry<T>> := [];
    assert nothing + [Entry("p", x)] == [Entry("p", x)];
    assert Serve(nothing, Create("p", x), None) == ([Entry("p", x)], One(x));
    assert replies == [One(x)] + PlainSession([Entry("p", x)], calls[1..]);
    SameAnswersExactly(c, held, [], [], calls);
    assert replies[1..] == [];
    assert ShownBy(One(x)) == [x];
  }
}
