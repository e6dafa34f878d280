/** Go values of struct types, their JSON by `encoding/json`, and the normal form
    that a value has after the way to JSON and back. */
module GoJson {
  import opened Results

  datatype Json =
    | JNull
    | JBool(b: bool)
    | JNumber(n: int)
    | JString(s: string)
    | JArray(items: seq<Json>)
    | JObject(members: seq<Member>)

  datatype Member = Member(name: string, value: Json)

  /** `TTime` is metav1.Time, whose zero value is JSON null; `TRaw` is
      metav1.FieldsV1, which holds JSON. Embedded structs are flattened. */
  datatype GoType =
    | TBool
    | TInt
    | TString
    | TTime
    | TRaw
    | TPtr(elem: GoType)
    | TSlice(elem: GoType)
    | TMap(elem: GoType)
    | TStruct(fields: seq<Field>)

  datatype Field = Field(name: string, omitEmpty: bool, fieldType: GoType)

  /** A map is given by its entries in the order of their keys, which is the order
      in which they are marshalled. */
  datatype Value =
    | VBool(b: bool)
    | VInt(n: int)
    | VString(s: string)
    | VTime(text: string)
    | VRaw(json: Json)
    | VNil
    | VPtr(target: Value)
    | VSlice(items: seq<Value>)
    | VMap(entries: seq<Entry>)
    | VStruct(values: seq<Value>)

  datatype Entry = Entry(key: string, value: Value)

  predicate HasType(v: Value, t: GoType)
    decreases v
  {
    match (t, v)
    case (TBool, VBool(_)) => true
    case (TInt, VInt(_)) => true
    case (TString, VString(_)) => true
    case (TTime, VTime(_)) => true
    case (TRaw, VRaw(_)) => true
    case (TPtr(_), VNil) => true
    case (TPtr(e), VPtr(x)) => HasType(x, e)
    case (TSlice(_), VNil) => true
    case (TSlice(e), VSlice(items)) => forall x | x in items :: HasType(x, e)
    case (TMap(_), VNil) => true
    case (TMap(e), VMap(entries)) => forall x | x in entries :: HasType(x.value, e)
    case (TStruct(fs), VStruct(vs)) => HaveTypes(vs, fs)
    case _ => false
  }

  predicate HaveTypes(vs: seq<Value>, fs: seq<Field>)
    decreases vs
  {
    if vs == [] || fs == [] then vs == [] && fs == []
    else HasType(vs[0], fs[0].fieldType) && HaveTypes(vs[1..], fs[1..])
  }

  predicate Unnamed(fs: seq<Field>, name: string) {
    fs == [] || (fs[0].name != name && Unnamed(fs[1..], name))
  }

  predicate WellFormed(t: GoType) {
    match t
    case TPtr(e) => WellFormed(e)
    case TSlice(e) => WellFormed(e)
    case TMap(e) => WellFormed(e)
    case TStruct(fs) => WellFormedFields(fs)
    case _ => true
  }

  /** The names of the fields differ. */
  predicate WellFormedFields(fs: seq<Field>) {
    fs == [] || (Unnamed(fs[1..], fs[0].name) && WellFormed(fs[0].fieldType) && WellFormedFields(fs[1..]))
  }

  lemma {:induction false} UnnamedByIndex(fs: seq<Field>, name: string)
    requires forall i :: 0 <= i < |fs| ==> fs[i].name != name
    ensures Unnamed(fs, name)
  {
    if fs != [] {
      UnnamedByIndex(fs[1..], name);
    }
  }

  lemma {:induction false} WellFormedByIndex(fs: seq<Field>)
    requires forall i, j :: 0 <= i < j < |fs| ==> fs[i].name != fs[j].name
    requires forall i :: 0 <= i < |fs| ==> WellFormed(fs[i].fieldType)
    ensures WellFormed(TStruct(fs))
  {
    if fs != [] {
      UnnamedByIndex(fs[1..], fs[0].name);
      WellFormedByIndex(fs[1..]);
    }
  }

  /** What `omitempty` leaves out; a struct is never empty. */
  predicate IsEmpty(v: Value) {
    v in {VBool(false), VInt(0), VString(""), VNil, VSlice([]), VMap([])}
  }

  function Zero(t: GoType): Value {
    match t
    case TBool => VBool(false)
    case TInt => VInt(0)
    case TString => VString("")
    case TTime => VTime("")
    case TRaw => VRaw(JNull)
    case TStruct(fs) => VStruct(Zeros(fs))
    case _ => VNil
  }

  function Zeros(fs: seq<Field>): seq<Value> {
    if fs == [] then [] else [Zero(fs[0].fieldType)] + Zeros(fs[1..])
  }

  // ---- Marshalling ----

  function Marshal(t: GoType, v: Value): Json
    decreases t, v
  {
    match (t, v)
    case (TBool, VBool(b)) => JBool(b)
    case (TInt, VInt(n)) => JNumber(n)
    case (TString, VString(s)) => JString(s)
    case (TTime, VTime(s)) => if s == "" then JNull else JString(s)
    case (TRaw, VRaw(j)) => j
    case (TPtr(e), VPtr(x)) => Marshal(e, x)
    case (TSlice(e), VSlice(items)) => JArray(MarshalItems(e, items))
    case (TMap(e), VMap(entries)) => JObject(MarshalEntries(e, entries))
    case (TStruct(fs), VStruct(vs)) => JObject(MarshalFields(fs, vs))
    case _ => JNull
  }

  function MarshalItems(e: GoType, items: seq<Value>): seq<Json>
    decreases e, items
  {
    if items == [] then [] else [Marshal(e, items[0])] + MarshalItems(e, items[1..])
  }

  function MarshalEntries(e: GoType, entries: seq<Entry>): seq<Member>
    decreases e, entries
  {
    if entries == [] then []
    else [Member(entries[0].key, Marshal(e, entries[0].value))] + MarshalEntries(e, entries[1..])
  }

  predicate Omitted(f: Field, v: Value) {
    f.omitEmpty && IsEmpty(v)
  }

  /** The member that a field becomes, or none. */
  function Own(f: Field, v: Value): seq<Member>
    decreases f, v
  {
    if Omitted(f, v) then [] else [Member(f.name, Marshal(f.fieldType, v))]
  }

  function MarshalFields(fs: seq<Field>, vs: seq<Value>): seq<Member>
    decreases fs, vs
  {
    if fs == [] || vs == [] then [] else Own(fs[0], vs[0]) + MarshalFields(fs[1..], vs[1..])
  }

  // ---- Unmarshalling into a zero value ----

  /** The member with this name that comes last. */
  function Find(members: seq<Member>, name: string): Option<Json> {
    if members == [] then None
    else
      var n := |members| - 1;
      if members[n].name == name then Some(members[n].value) else Find(members[..n], name)
  }

  function Unmarshal(t: GoType, j: Json): Result<Value>
    decreases t, j
  {
    if j.JNull? then Ok(Zero(t))
    else
      match (t, j)
      case (TBool, JBool(b)) => Ok(VBool(b))
      case (TInt, JNumber(n)) => Ok(VInt(n))
      case (TString, JString(s)) => Ok(VString(s))
      case (TTime, JString(s)) => Ok(VTime(s))
      case (TRaw, _) => Ok(VRaw(j))
      case (TPtr(e), _) => (
        match Unmarshal(e, j)
        case Ok(x) => Ok(VPtr(x))
        case Error(m) => Error(m))
      case (TSlice(e), JArray(items)) => (
        match UnmarshalItems(e, items)
        case Ok(xs) => Ok(VSlice(xs))
        case Error(m) => Error(m))
      case (TMap(e), JObject(members)) => (
        match UnmarshalEntries(e, members)
        case Ok(xs) => Ok(VMap(xs))
        case Error(m) => Error(m))
      case (TStruct(fs), JObject(members)) => (
        match UnmarshalFields(fs, members)
        case Ok(xs) => Ok(VStruct(xs))
        case Error(m) => Error(m))
      case _ => Error("cannot unmarshal")
  }

  function UnmarshalItems(e: GoType, items: seq<Json>): Result<seq<Value>>
    decreases e, items
  {
    if items == [] then Ok([])
    else
      match (Unmarshal(e, items[0]), UnmarshalItems(e, items[1..]))
      case (Ok(x), Ok(xs)) => Ok([x] + xs)
      case (Ok(_), Error(m)) => Error(m)
      case (Error(m), _) => Error(m)
  }

  function UnmarshalEntries(e: GoType, members: seq<Member>): Result<seq<Entry>>
    decreases e, members
  {
    if members == [] then Ok([])
    else
      match (Unmarshal(e, members[0].value), UnmarshalEntries(e, members[1..]))
      case (Ok(x), Ok(xs)) => Ok([Entry(members[0].name, x)] + xs)
      case (Ok(_), Error(m)) => Error(m)
      case (Error(m), _) => Error(m)
  }

  function UnmarshalFields(fs: seq<Field>, members: seq<Member>): Result<seq<Value>>
    decreases fs, 0
  {
    if fs == [] then Ok([])
    else
      var first := match Find(members, fs[0].name)
        case None => Ok(Zero(fs[0].fieldType))
        case Some(j) => Unmarshal(fs[0].fieldType, j);
      match (first, UnmarshalFields(fs[1..], members))
      case (Ok(x), Ok(xs)) => Ok([x] + xs)
      case (Ok(_), Error(m)) => Error(m)
      case (Error(m), _) => Error(m)
  }

  // ---- The normal form ----

  /** Empty fields that `omitempty` drops become zero values, and a pointer to
      something that is null in JSON becomes a nil pointer. */
  function Normalize(t: GoType, v: Value): Value
    decreases t, v
  {
    match (t, v)
    case (TPtr(e), VPtr(x)) => if Marshal(e, x).JNull? then VNil else VPtr(Normalize(e, x))
    case (TSlice(e), VSlice(items)) => VSlice(NormalizeItems(e, items))
    case (TMap(e), VMap(entries)) => VMap(NormalizeEntries(e, entries))
    case (TStruct(fs), VStruct(vs)) => VStruct(NormalizeFields(fs, vs))
    case _ => v
  }

  function NormalizeItems(e: GoType, items: seq<Value>): (r: seq<Value>)
    ensures |r| == |items|
    decreases e, items
  {
    if items == [] then [] else [Normalize(e, items[0])] + NormalizeItems(e, items[1..])
  }

  function NormalizeEntries(e: GoType, entries: seq<Entry>): (r: seq<Entry>)
    ensures |r| == |entries|
    decreases e, entries
  {
    if entries == [] then []
    else [Entry(entries[0].key, Normalize(e, entries[0].value))] + NormalizeEntries(e, entries[1..])
  }

  function NormalizeField(f: Field, v: Value): Value
    decreases f, v
  {
    if Omitted(f, v) then Zero(f.fieldType) else Normalize(f.fieldType, v)
  }

  function NormalizeFields(fs: seq<Field>, vs: seq<Value>): (r: seq<Value>)
    ensures |fs| == |vs| ==> |r| == |vs|
    decreases fs, vs
  {
    if fs == [] || vs == [] then []
    else [NormalizeField(fs[0], vs[0])] + NormalizeFields(fs[1..], vs[1..])
  }

  // ---- The way to JSON and back gives the normal form ----

  lemma {:induction false} RoundTrip(t: GoType, v: Value)
    requires HasType(v, t) && WellFormed(t)
    ensures Unmarshal(t, Marshal(t, v)) == Ok(Normalize(t, v))
    decreases t, v, 1
  {
    match v
    case VPtr(x) => RoundTripPointer(t.elem, x);
    case VSlice(items) => RoundTripItems(t.elem, items);
    case VMap(entries) => RoundTripEntries(t.elem, entries);
    case VStruct(vs) => RoundTripStruct(t.fields, vs);
    case _ => RoundTripLeaf(t, v);
  }

  lemma RoundTripLeaf(t: GoType, v: Value)
    requires HasType(v, t) && !v.VPtr? && !v.VSlice? && !v.VMap? && !v.VStruct?
    ensures Unmarshal(t, Marshal(t, v)) == Ok(Normalize(t, v))
  {}

  lemma {:induction false} RoundTripPointer(e: GoType, x: Value)
    requires HasType(x, e) && WellFormed(e)
    ensures Unmarshal(TPtr(e), Marshal(TPtr(e), VPtr(x))) == Ok(Normalize(TPtr(e), VPtr(x)))
    decreases e, x, 2
  {
    RoundTrip(e, x);
  }

  lemma {:induction false} RoundTripStruct(fs: seq<Field>, vs: seq<Value>)
    requires HaveTypes(vs, fs) && WellFormedFields(fs)
    ensures UnmarshalFields(fs, MarshalFields(fs, vs)) == Ok(NormalizeFields(fs, vs))
    decreases fs, vs, 2
  {
    ClearOfNothing(fs);
    RoundTripFields(fs, vs, []);
    NothingBefore(MarshalFields(fs, vs));
  }

  lemma NothingBefore(members: seq<Member>)
    ensures [] + members == members
  {}

  lemma {:induction false} RoundTripItems(e: GoType, items: seq<Value>)
    requires WellFormed(e) && forall x | x in items :: HasType(x, e)
    ensures UnmarshalItems(e, MarshalItems(e, items)) == Ok(NormalizeItems(e, items))
    decreases e, items
  {
    if items != [] {
      RoundTrip(e, items[0]);
      RoundTripItems(e, items[1..]);
    }
  }

  lemma {:induction false} RoundTripEntries(e: GoType, entries: seq<Entry>)
    requires WellFormed(e) && forall x | x in entries :: HasType(x.value, e)
    ensures UnmarshalEntries(e, MarshalEntries(e, entries)) == Ok(NormalizeEntries(e, entries))
    decreases e, entries
  {
    if entries != [] {
      RoundTrip(e, entries[0].value);
      RoundTripEntries(e, entries[1..]);
    }
  }

  predicate Free(members: seq<Member>, name: string) {
    forall m | m in members :: m.name != name
  }

  lemma {:induction false} FindIn(before: seq<Member>, after: seq<Member>, name: string)
    requires Free(after, name)
    ensures Find(before + after, name) == Find(before, name)
    decreases |after|
  {
    if after == [] {
      assert before + after == before;
    } else {
      var n := |after| - 1;
      assert (before + after)[..|before + after| - 1] == before + after[..n];
      FindIn(before, after[..n], name);
    }
  }

  lemma {:induction false} FindNone(members: seq<Member>, name: string)
    requires Free(members, name)
    ensures Find(members, name) == None
  {
    FindIn([], members, name);
    assert [] + members == members;
  }

  lemma {:induction false} MarshalledNames(fs: seq<Field>, vs: seq<Value>, name: string)
    requires Unnamed(fs, name)
    ensures Free(MarshalFields(fs, vs), name)
  {
    if fs != [] && vs != [] {
      MarshalledNames(fs[1..], vs[1..], name);
    }
  }

  /** None of the members has the name of one of the fields. */
  predicate Clear(members: seq<Member>, fs: seq<Field>) {
    fs == [] || (Free(members, fs[0].name) && Clear(members, fs[1..]))
  }

  lemma {:induction false} ClearWithOwn(before: seq<Member>, f: Field, v: Value, fs: seq<Field>)
    requires Clear(before, fs) && Unnamed(fs, f.name)
    ensures Clear(before + Own(f, v), fs)
  {
    if fs != [] {
      ClearWithOwn(before, f, v, fs[1..]);
    }
  }

  lemma FindOwn(f: Field, v: Value, before: seq<Member>, after: seq<Member>)
    requires Free(before, f.name) && Free(after, f.name)
    ensures Find(before + Own(f, v) + after, f.name) ==
      if Omitted(f, v) then None else Some(Marshal(f.fieldType, v))
  {
    FindIn(before + Own(f, v), after, f.name);
    if Omitted(f, v) {
      FindNone(before + Own(f, v), f.name);
    }
  }

  /** `before` holds the members of the fields that come earlier. */
  lemma {:induction false} RoundTripFields(fs: seq<Field>, vs: seq<Value>, before: seq<Member>)
    requires WellFormedFields(fs) && HaveTypes(vs, fs) && Clear(before, fs)
    ensures UnmarshalFields(fs, before + MarshalFields(fs, vs)) == Ok(NormalizeFields(fs, vs))
    decreases fs, vs, 1
  {
    if fs != [] {
      var f, v, rest := fs[0], vs[0], MarshalFields(fs[1..], vs[1..]);
      MarshalledNames(fs[1..], vs[1..], f.name);
      FindOwn(f, v, before, rest);
      RoundTrip(f.fieldType, v);
      ClearWithOwn(before, f, v, fs[1..]);
      RoundTripFields(fs[1..], vs[1..], before + Own(f, v));
      Regroup(before, Own(f, v), rest);
    }
  }

  lemma Regroup(a: seq<Member>, b: seq<Member>, c: seq<Member>)
    ensures a + b + c == a + (b + c)
  {}

  lemma ClearOfNothing(fs: seq<Field>)
    ensures Clear([], fs)
  {}

  // ---- What a struct is in JSON ----

  lemma {:induction false} UnnamedAt(fs: seq<Field>, name: string, i: nat)
    requires Unnamed(fs, name) && i < |fs|
    ensures fs[i].name != name
  {
    if i > 0 {
      UnnamedAt(fs[1..], name, i - 1);
    }
  }

  /** The member with a field's name holds its value, and is missing exactly if the
      field says `omitempty` and is false, zero, empty or nil. */
  lemma {:induction false} MembersExactly(fs: seq<Field>, vs: seq<Value>, i: nat)
    requires WellFormedFields(fs) && HaveTypes(vs, fs) && i < |fs|
    ensures i < |vs|
    ensures Find(MarshalFields(fs, vs), fs[i].name) ==
      if fs[i].omitEmpty && (vs[i] == VBool(false) || vs[i] == VInt(0) || vs[i] == VString("") || vs[i] == VNil
                             || vs[i] == VSlice([]) || vs[i] == VMap([]))
      then None
      else Some(Marshal(fs[i].fieldType, vs[i]))
    decreases fs
  {
    var f, v, rest := fs[0], vs[0], MarshalFields(fs[1..], vs[1..]);
    MarshalledNames(fs[1..], vs[1..], f.name);
    if i == 0 {
      FindOwn(f, v, [], rest);
      assert [] + Own(f, v) + rest == MarshalFields(fs, vs);
    } else {
      MembersExactly(fs[1..], vs[1..], i - 1);
      UnnamedAt(fs[1..], f.name, i - 1);
      FindBehind(Own(f, v), rest, fs[i].name);
    }
  }

  lemma {:induction false} FindBehind(before: seq<Member>, after: seq<Member>, name: string)
    requires Free(before, name)
    ensures Find(before + after, name) == Find(after, name)
    decreases |after|
  {
    if after == [] {
      FindNone(before, name);
      assert before + after == before;
    } else {
      var n := |after| - 1;
      assert (before + after)[..|before + after| - 1] == before + after[..n];
      FindBehind(before, after[..n], name);
    }
  }

  // ---- Normalising twice is normalising once ----

  lemma {:induction false} ZeroHasType(t: GoType)
    ensures HasType(Zero(t), t)
    decreases t, 0
  {
    if t.TStruct? {
      ZerosHaveType(t.fields);
    }
  }

  lemma {:induction false} ZerosHaveType(fs: seq<Field>)
    ensures HaveTypes(Zeros(fs), fs)
    decreases fs, 0
  {
    if fs != [] {
      ZeroHasType(fs[0].fieldType);
      ZerosHaveType(fs[1..]);
    }
  }

  /** An empty value is the zero value, up to nil and empty lists and maps. */
  lemma EmptyMeansZero(t: GoType, v: Value)
    requires HasType(v, t) && IsEmpty(v)
    ensures IsEmpty(Zero(t)) && Normalize(t, Zero(t)) == Zero(t)
    ensures v == Zero(t) || v == VSlice([]) || v == VMap([])
  {}

  /** Normalising neither makes nor removes a null. */
  lemma {:induction false} NormalizeKeepsNull(t: GoType, v: Value)
    requires HasType(v, t)
    ensures Marshal(t, Normalize(t, v)).JNull? <==> Marshal(t, v).JNull?
    decreases t
  {
    match (t, v)
    case (TPtr(e), VPtr(x)) => NormalizeKeepsNull(e, x);
    case _ =>
  }

  /** Normalising makes a value empty only as a nil pointer. */
  lemma NormalizeToEmpty(t: GoType, v: Value)
    requires HasType(v, t) && !IsEmpty(v) && IsEmpty(Normalize(t, v))
    ensures Normalize(t, v) == Zero(t)
  {}

  lemma {:induction false} NormalizeTwice(t: GoType, v: Value)
    requires HasType(v, t)
    ensures HasType(Normalize(t, v), t)
    ensures Normalize(t, Normalize(t, v)) == Normalize(t, v)
    decreases t, v, 0
  {
    match (t, v)
    case (TPtr(e), VPtr(x)) =>
      NormalizeTwice(e, x);
      NormalizeKeepsNull(e, x);
    case (TSlice(e), VSlice(items)) => NormalizeItemsTwice(e, items);
    case (TMap(e), VMap(entries)) => NormalizeEntriesTwice(e, entries);
    case (TStruct(fs), VStruct(vs)) => NormalizeFieldsTwice(fs, vs);
    case _ =>
  }

  lemma {:induction false} NormalizeItemsTwice(e: GoType, items: seq<Value>)
    requires forall x | x in items :: HasType(x, e)
    ensures var r := NormalizeItems(e, items);
      NormalizeItems(e, r) == r && forall x | x in r :: HasType(x, e)
    decreases e, items
  {
    if items != [] {
      NormalizeTwice(e, items[0]);
      NormalizeItemsTwice(e, items[1..]);
    }
  }

  lemma {:induction false} NormalizeEntriesTwice(e: GoType, entries: seq<Entry>)
    requires forall x | x in entries :: HasType(x.value, e)
    ensures var r := NormalizeEntries(e, entries);
      NormalizeEntries(e, r) == r && forall x | x in r :: HasType(x.value, e)
    decreases e, entries
  {
    if entries != [] {
      NormalizeTwice(e, entries[0].value);
      NormalizeEntriesTwice(e, entries[1..]);
    }
  }

  lemma {:induction false} NormalizeFieldTwice(f: Field, v: Value)
    requires HasType(v, f.fieldType)
    ensures HasType(NormalizeField(f, v), f.fieldType)
    ensures NormalizeField(f, NormalizeField(f, v)) == NormalizeField(f, v)
    decreases f.fieldType, v, 1
  {
    NormalizeTwice(f.fieldType, v);
    ZeroHasType(f.fieldType);
    if Omitted(f, v) {
      EmptyMeansZero(f.fieldType, v);
    } else if Omitted(f, Normalize(f.fieldType, v)) {
      NormalizeToEmpty(f.fieldType, v);
    }
  }

  lemma {:induction false} NormalizeFieldsTwice(fs: seq<Field>, vs: seq<Value>)
    requires HaveTypes(vs, fs)
    ensures var r := NormalizeFields(fs, vs); NormalizeFields(fs, r) == r && HaveTypes(r, fs)
    decreases fs, vs
  {
    if fs != [] {
      NormalizeFieldTwice(fs[0], vs[0]);
      NormalizeFieldsTwice(fs[1..], vs[1..]);
    }
  }

  // ---- Which values come back unchanged ----

  /** Nil, a zero time, raw null, or a pointer to such. */
  predicate NullInJson(v: Value) {
    v.VNil? || v == VTime("") || v == VRaw(JNull) || (v.VPtr? && NullInJson(v.target))
  }

  /** No pointer points to something that is null in JSON, and no field that
      `omitempty` may drop holds an empty list or map instead of nil. */
  predicate Lossless(v: Value, t: GoType)
    decreases v
  {
    match (t, v)
    case (TPtr(e), VPtr(x)) => !NullInJson(x) && Lossless(x, e)
    case (TSlice(e), VSlice(items)) => forall i :: 0 <= i < |items| ==> Lossless(items[i], e)
    case (TMap(e), VMap(entries)) => forall i :: 0 <= i < |entries| ==> Lossless(entries[i].value, e)
    case (TStruct(fs), VStruct(vs)) => LosslessFields(vs, fs)
    case _ => true
  }

  predicate LosslessFields(vs: seq<Value>, fs: seq<Field>)
    decreases vs
  {
    vs == [] || fs == [] ||
    ((fs[0].omitEmpty ==> vs[0] != VSlice([]) && vs[0] != VMap([]))
     && Lossless(vs[0], fs[0].fieldType) && LosslessFields(vs[1..], fs[1..]))
  }

  lemma {:induction false} NullExactly(t: GoType, v: Value)
    requires HasType(v, t)
    ensures Marshal(t, v).JNull? <==> NullInJson(v)
    decreases t
  {
    match (t, v)
    case (TPtr(e), VPtr(x)) => NullExactly(e, x);
    case _ =>
  }

  /** A value is its own normal form exactly if it is lossless. */
  lemma {:induction false} UnchangedExactly(t: GoType, v: Value)
    requires HasType(v, t)
    ensures Normalize(t, v) == v <==> Lossless(v, t)
    decreases t, v, 0
  {
    match (t, v)
    case (TPtr(e), VPtr(x)) =>
      NullExactly(e, x);
      UnchangedExactly(e, x);
    case (TSlice(e), VSlice(items)) => UnchangedItems(e, items);
    case (TMap(e), VMap(entries)) => UnchangedEntries(e, entries);
    case (TStruct(fs), VStruct(vs)) => UnchangedFields(fs, vs);
    case _ =>
  }

  lemma {:induction false} UnchangedItems(e: GoType, items: seq<Value>)
    requires forall x | x in items :: HasType(x, e)
    ensures NormalizeItems(e, items) == items <==> forall i :: 0 <= i < |items| ==> Lossless(items[i], e)
    decreases e, items
  {
    if items != [] {
      UnchangedExactly(e, items[0]);
      UnchangedItems(e, items[1..]);
      FirstAndRest(NormalizeItems(e, items), items);
    }
  }

  lemma FirstAndRest<T>(a: seq<T>, b: seq<T>)
    requires |a| > 0 && |b| > 0
    ensures a == b <==> a[0] == b[0] && a[1..] == b[1..]
  {
    assert a == [a[0]] + a[1..] && b == [b[0]] + b[1..];
  }

  lemma {:induction false} UnchangedEntries(e: GoType, entries: seq<Entry>)
    requires forall x | x in entries :: HasType(x.value, e)
    ensures NormalizeEntries(e, entries) == entries <==>
      forall i :: 0 <= i < |entries| ==> Lossless(entries[i].value, e)
    decreases e, entries
  {
    if entries != [] {
      UnchangedExactly(e, entries[0].value);
      UnchangedEntries(e, entries[1..]);
      FirstAndRest(NormalizeEntries(e, entries), entries);
    }
  }

  lemma {:induction false} UnchangedField(f: Field, v: Value)
    requires HasType(v, f.fieldType)
    ensures NormalizeField(f, v) == v <==>
      (f.omitEmpty ==> v != VSlice([]) && v != VMap([])) && Lossless(v, f.fieldType)
    decreases f.fieldType, v, 1
  {
    UnchangedExactly(f.fieldType, v);
    if Omitted(f, v) {
      EmptyMeansZero(f.fieldType, v);
    }
  }

  lemma {:induction false} UnchangedFields(fs: seq<Field>, vs: seq<Value>)
    requires HaveTypes(vs, fs)
    ensures NormalizeFields(fs, vs) == vs <==> LosslessFields(vs, fs)
    decreases fs, vs
  {
    if fs != [] {
      UnchangedField(fs[0], vs[0]);
      UnchangedFields(fs[1..], vs[1..]);
      FirstAndRest(NormalizeFields(fs, vs), vs);
    }
  }

  // ---- Whatever the JSON, a decoded value has the type decoded into ----

  lemma {:induction false} UnmarshalHasType(t: GoType, j: Json)
    requires Unmarshal(t, j).Ok?
    ensures HasType(Unmarshal(t, j).value, t)
    decreases t, j
  {
    if j.JNull? {
      ZeroHasType(t);
    } else {
      match (t, j)
      case (TPtr(e), _) => UnmarshalHasType(e, j);
      case (TSlice(e), JArray(items)) => UnmarshalItemsHaveType(e, items);
      case (TMap(e), JObject(members)) => UnmarshalEntriesHaveType(e, members);
      case (TStruct(fs), JObject(members)) => UnmarshalFieldsHaveTypes(fs, members);
      case _ =>
    }
  }

  lemma {:induction false} UnmarshalItemsHaveType(e: GoType, items: seq<Json>)
    requires UnmarshalItems(e, items).Ok?
    ensures forall x | x in UnmarshalItems(e, items).value :: HasType(x, e)
    decreases e, items
  {
    if items != [] {
      UnmarshalHasType(e, items[0]);
      UnmarshalItemsHaveType(e, items[1..]);
    }
  }

  lemma {:induction false} UnmarshalEntriesHaveType(e: GoType, members: seq<Member>)
    requires UnmarshalEntries(e, members).Ok?
    ensures forall x | x in UnmarshalEntries(e, members).value :: HasType(x.value, e)
    decreases e, members
  {
    if members != [] {
      UnmarshalHasType(e, members[0].value);
      UnmarshalEntriesHaveType(e, members[1..]);
    }
  }

  lemma {:induction false} UnmarshalFieldsHaveTypes(fs: seq<Field>, members: seq<Member>)
    requires UnmarshalFields(fs, members).Ok?
    ensures HaveTypes(UnmarshalFields(fs, members).value, fs)
    decreases fs, 0
  {
    if fs != [] {
      ZeroHasType(fs[0].fieldType);
      match Find(members, fs[0].name) {
        case None =>
        case Some(j) => UnmarshalHasType(fs[0].fieldType, j);
      }
      UnmarshalFieldsHaveTypes(fs[1..], members);
    }
  }
}
