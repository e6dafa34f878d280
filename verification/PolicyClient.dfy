/** The transformed clients for policies and bindings: the client of
    `TransformedClient` with the conversions of `Conversion`. */
module PolicyClient {
  import opened Conversion
  import opened GoJson
  import opened MirroredStore
  import opened Results
  import opened TransformedClient

  /** `To` from the CRD type, `From` the native type. */
  function ConversionsOf(k: Sides): Conversions<Value, Value> {
    Conversions((v: Value) => Convert(k.crd, k.native, v, NATIVE_VERSION),
                (v: Value) => Convert(k.native, k.crd, v, CRD_VERSION))
  }

  function Typed(t: GoType): Value -> bool {
    v => HasType(v, t)
  }

  lemma ConvertedHasType(a: GoType, b: GoType, v: Value, version: string)
    requires IsObject(b) && |version| > 0 && Convert(a, b, v, version).Ok?
    ensures HasType(Convert(a, b, v, version).value, b)
  {
    UnmarshalHasType(b, Marshal(a, v));
    VersionOnly(b, Unmarshal(b, Marshal(a, v)).value, version);
  }

  lemma ConversionsAreSound(k: Sides)
    requires k.Valid()
    ensures Sound(ConversionsOf(k), Typed(k.crd))
  {
    forall r | HasType(r, k.crd) ensures ConversionsOf(k).to(r).Ok? {
      ConvertNormalizes(k.crd, k.native, r, NATIVE_VERSION);
    }
    forall x | ConversionsOf(k).from(x).Ok? ensures HasType(ConversionsOf(k).from(x).value, k.crd) {
      ConvertedHasType(k.native, k.crd, x, CRD_VERSION);
    }
  }

  /** What the client sends of a native object: its normal form, with the CRD version
      exactly if it had one; and that is what the conversion of a pointer gives. */
  lemma SentObject(k: Sides, v: Value)
    requires k.Valid() && HasType(v, k.native)
    ensures ConversionsOf(k).from(v).Ok?
    ensures var r, n := ConversionsOf(k).from(v).value, Normalize(k.native, v);
      && HasType(r, k.crd)
      && ApiVersion(r) == (if ApiVersion(v) == "" then "" else "admissionregistration.x-k8s.io/v1alpha1")
      && r == (if ApiVersion(v) == "" then n else SetApiVersion(n, "admissionregistration.x-k8s.io/v1alpha1"))
      && ToCrd(k, Some(v)) == Ok(Some(r))
  {
    ConvertNormalizes(k.native, k.crd, v, CRD_VERSION);
    if ApiVersion(v) != "" {
      VersionOnly(k.crd, Normalize(k.native, v), CRD_VERSION);
    }
  }

  /** What the client shows of a CRD object. */
  lemma ShownObject(k: Sides, r: Value)
    requires k.Valid() && HasType(r, k.crd)
    ensures ConversionsOf(k).to(r).Ok?
    ensures var x, n := ConversionsOf(k).to(r).value, Normalize(k.crd, r);
      && HasType(x, k.native)
      && ApiVersion(x) == (if ApiVersion(r) == "" then "" else "apiregistration.k8s.io/v1alpha1")
      && x == (if ApiVersion(r) == "" then n else SetApiVersion(n, "apiregistration.k8s.io/v1alpha1"))
      && ToNative(k, Some(r)) == Ok(Some(x))
  {
    ConvertNormalizes(k.crd, k.native, r, NATIVE_VERSION);
    if ApiVersion(r) != "" {
      VersionOnly(k.native, Normalize(k.crd, r), NATIVE_VERSION);
    }
  }

  predicate HasCrdVersion(r: Value) {
    ApiVersion(r) == "" || ApiVersion(r) == "admissionregistration.x-k8s.io/v1alpha1"
  }

  predicate AllHaveCrdVersion(store: seq<TransformedClient.Entry<Value>>) {
    forall i :: 0 <= i < |store| ==> HasCrdVersion(store[i].item)
  }

  lemma ConvertedHasVersion(a: GoType, b: GoType, v: Value, version: string)
    requires Convert(a, b, v, version).Ok?
    ensures ApiVersion(Convert(a, b, v, version).value) in {"", version}
  {}

  /** Over whole sessions, whatever is written: every object in the CRD store has no
      version or the CRD version. */
  lemma {:induction false} StoredVersions(
    k: Sides, store: seq<TransformedClient.Entry<Value>>, calls: seq<Call<Value>>)
    requires AllHaveCrdVersion(store)
    ensures AllHaveCrdVersion(StoreAfter(ConversionsOf(k), store, calls))
    decreases |calls|
  {
    if calls != [] {
      var op := calls[0].op;
      if op.Create? || op.Update? {
        if Forth(ConversionsOf(k), op).Ok? {
          ConvertedHasVersion(k.native, k.crd, op.object', CRD_VERSION);
        }
      }
      StoredVersions(k, Transformed(ConversionsOf(k), store, op, calls[0].refusal).0, calls[1..]);
    }
  }

  /** What the native store keeps of an object that is written: its normal form,
      with the version that reading back gives it. */
  lemma KeptObject(k: Sides, v: Value)
    requires k.Valid() && HasType(v, k.native)
    ensures var c, n := ConversionsOf(k), Normalize(k.native, v);
      && c.from(v).Ok?
      && c.to(c.from(v).value) == Ok(if |ApiVersion(v)| > 0 then SetApiVersion(n, NATIVE_VERSION) else n)
  {
    ThereAndBack(k.native, k.crd, v, CRD_VERSION, NATIVE_VERSION);
  }

  /** With these conversions an operation that fails has changed nothing, in whatever
      sound state the store is: the one failure behind the server, of converting its
      answer, never happens. */
  lemma FailuresChangeNothing(
    k: Sides, store: seq<TransformedClient.Entry<Value>>, op: Op<Value>, refusal: Option<string>)
    requires k.Valid() && Holds(store, Typed(k.crd))
    ensures var (after, reply) := Transformed(ConversionsOf(k), store, op, refusal);
      && (reply.Failure? ==> after == store)
      && (reply.Failure? <==>
            (Forth(ConversionsOf(k), op).Error? || refusal.Some?
             || Serve(store, Forth(ConversionsOf(k), op).value, None).1.Failure?))
  {
    var c := ConversionsOf(k);
    ConversionsAreSound(k);
    OperationSimulates(c, Typed(k.crd), store, op, refusal);
    if Forth(c, op).Ok? {
      AnswersConvert(k, store, op);
    }
  }

  /** Whatever the server answers to an operation can be converted. */
  lemma AnswersConvert(k: Sides, store: seq<TransformedClient.Entry<Value>>, op: Op<Value>)
    requires k.Valid() && Holds(store, Typed(k.crd)) && Forth(ConversionsOf(k), op).Ok?
    ensures var reply := Serve(store, Forth(ConversionsOf(k), op).value, None).1;
      Back(ConversionsOf(k), reply).Failure? <==> reply.Failure?
  {
    var c := ConversionsOf(k);
    ConversionsAreSound(k);
    if op.List? {
      ImageItems(c, Typed(k.crd), store);
    }
  }

  /** A session on the CRD store, whatever it holds and whatever is written, answers as
      a store that keeps each object as `KeptObject` says and shows it so; and writing
      an object of the type is never refused for its conversion. */
  lemma PolicySessions(k: Sides, store: seq<TransformedClient.Entry<Value>>, calls: seq<Call<Value>>)
    requires k.Valid() && Holds(store, Typed(k.crd))
    ensures Sound(ConversionsOf(k), Typed(k.crd))
    ensures Session(ConversionsOf(k), store, calls)
      == ReadBackSession(ConversionsOf(k), Typed(k.crd), Image(ConversionsOf(k), Typed(k.crd), store), calls)
    ensures forall v :: HasType(v, k.native) ==> ConversionsOf(k).from(v).Ok?
  {
    ConversionsAreSound(k);
    SessionSimulates(ConversionsOf(k), Typed(k.crd), store, calls);
    forall v | HasType(v, k.native) ensures ConversionsOf(k).from(v).Ok? {
      KeptObject(k, v);
    }
  }

  // ---- Against a plain native store ----

  lemma TypedWritesConvert(k: Sides, calls: seq<Call<Value>>)
    requires k.Valid() && AllWriteOnly(calls, Typed(k.native))
    ensures AllConvert(ConversionsOf(k), calls)
  {
    forall n | 0 <= n < |calls| ensures Converts(ConversionsOf(k), calls[n].op) {
      assert WritesOnly(calls[n].op, Typed(k.native));
      if calls[n].op.Create? || calls[n].op.Update? {
        KeptObject(k, calls[n].op.object');
      }
    }
  }

  /** A session that writes native objects answers as a plain native store would, but
      with every object as `KeptObject` says. */
  lemma SessionsMirror(
    k: Sides, plain: seq<TransformedClient.Entry<Value>>, store: seq<TransformedClient.Entry<Value>>,
    calls: seq<Call<Value>>)
    requires k.Valid() && AllWriteOnly(calls, Typed(k.native)) && Mirrors(ConversionsOf(k), plain, store)
    ensures Session(ConversionsOf(k), store, calls) == AllMirrored(ConversionsOf(k), PlainSession(plain, calls))
  {
    ConversionsAreSound(k);
    TypedWritesConvert(k, calls);
    SessionMirrors(ConversionsOf(k), Typed(k.crd), plain, store, calls);
  }

  /** A native object that the way there and back leaves as it is. */
  predicate Survives(k: Sides, v: Value) {
    (ApiVersion(v) == "" || ApiVersion(v) == NATIVE_VERSION) && Lossless(v, k.native)
  }

  lemma SurvivesExactly(k: Sides, v: Value)
    requires k.Valid() && HasType(v, k.native)
    ensures ThereAndBackOf(ConversionsOf(k), v) == v <==> Survives(k, v)
  {
    IdentityExactly(k.native, k.crd, v, CRD_VERSION, NATIVE_VERSION);
    UnchangedExactly(k.native, v);
    KeptObject(k, v);
  }

  /** Sessions that write objects of a certain sort cannot tell the CRD store from a
      plain native one exactly if each such object has no version or the misspelt one,
      and loses nothing in JSON. */
  lemma PoliciesIndistinguishableExactly(k: Sides, sort: Value -> bool)
    requires k.Valid() && forall v :: sort(v) ==> HasType(v, k.native)
    ensures (forall calls: seq<Call<Value>> :: AllWriteOnly(calls, sort) ==>
               Session(ConversionsOf(k), [], calls) == PlainSession([], calls))
      <==> (forall v :: sort(v) ==> Survives(k, v))
  {
    ConversionsAreSound(k);
    forall v | sort(v)
      ensures ConversionsOf(k).from(v).Ok? && (ThereAndBackOf(ConversionsOf(k), v) == v <==> Survives(k, v))
    {
      KeptObject(k, v);
      SurvivesExactly(k, v);
    }
    IndistinguishableExactly(ConversionsOf(k), Typed(k.crd), sort);
  }

  const RIGHT_VERSION := "admissionregistration.k8s.io/v1alpha1"

  /** An object of the right native version is among those that give it away: the plain
      store answers its creation with the object, the client with another version. */
  lemma RightVersionIsNotKept(k: Sides, v: Value) returns (calls: seq<Call<Value>>)
    requires k.Valid() && HasType(v, k.native) && ApiVersion(v) == RIGHT_VERSION
    ensures PlainSession([], calls) == [One(v)] && Session(ConversionsOf(k), [], calls) != [One(v)]
  {
    ConversionsAreSound(k);
    KeptObject(k, v);
    calls := CreateShows(ConversionsOf(k), Typed(k.crd), v);
    SurvivesExactly(k, v);
    assert |RIGHT_VERSION| != |NATIVE_VERSION|;
  }

  // ---- Names ----

  /** Every object is stored under its own name. */
  predicate FiledRight(store: seq<TransformedClient.Entry<Value>>, j: nat) {
    forall i :: 0 <= i < |store| ==> store[i].name == NameOf(store[i].item, j)
  }

  predicate NamesItself(op: Op<Value>, j: nat) {
    op.Create? || op.Update? ==> op.name == NameOf(op.object', j)
  }

  /** The operation that is sent names its converted object rightly, and the CRD store
      stays filed by the objects' own names. */
  lemma NamesAreKept(
    k: Sides, store: seq<TransformedClient.Entry<Value>>, op: Op<Value>, refusal: Option<string>,
    meta: GoType, j: nat)
    requires k.Valid() && IsNamed(k.native, meta, j) && FiledRight(store, j) && NamesItself(op, j)
    requires WritesOnly(op, Typed(k.native))
    ensures Forth(ConversionsOf(k), op).Ok? && NamesItself(Forth(ConversionsOf(k), op).value, j)
    ensures FiledRight(Transformed(ConversionsOf(k), store, op, refusal).0, j)
  {
    if op.Create? || op.Update? {
      ConvertKeepsName(k.native, k.crd, op.object', CRD_VERSION, meta, j);
    }
  }
}
