/** Go types that differ only in where their fields say `omitempty`, and not on lists
    or maps: JSON carries values between them as within either of them. */
module AlikeTypes {
  import opened Results
  import opened GoJson

  predicate Alike(a: GoType, b: GoType) {
    match (a, b)
    case (TPtr(x), TPtr(y)) => Alike(x, y)
    case (TSlice(x), TSlice(y)) => Alike(x, y)
    case (TMap(x), TMap(y)) => Alike(x, y)
    case (TStruct(fs), TStruct(gs)) => AlikeFields(fs, gs)
    case _ => a == b
  }

  predicate AlikeFields(fs: seq<Field>, gs: seq<Field>) {
    if fs == [] || gs == [] then fs == [] && gs == []
    else AlikeField(fs[0], gs[0]) && AlikeFields(fs[1..], gs[1..])
  }

  predicate AlikeField(f: Field, g: Field) {
    && f.name == g.name && Alike(f.fieldType, g.fieldType)
    && (f.fieldType.TSlice? || f.fieldType.TMap? ==> f.omitEmpty == g.omitEmpty)
  }

  lemma {:induction false} AlikeByIndex(fs: seq<Field>, gs: seq<Field>)
    requires |fs| == |gs| && forall i :: 0 <= i < |fs| ==> AlikeField(fs[i], gs[i])
    ensures Alike(TStruct(fs), TStruct(gs))
  {
    if fs != [] {
      AlikeByIndex(fs[1..], gs[1..]);
    }
  }

  lemma {:induction false} AlikeItself(t: GoType)
    ensures Alike(t, t)
    decreases t, 0
  {
    match t
    case TPtr(x) => AlikeItself(x);
    case TSlice(x) => AlikeItself(x);
    case TMap(x) => AlikeItself(x);
    case TStruct(fs) => AlikeThemselves(fs);
    case _ =>
  }

  lemma {:induction false} AlikeThemselves(fs: seq<Field>)
    ensures AlikeFields(fs, fs)
    decreases fs, 0
  {
    if fs != [] {
      AlikeItself(fs[0].fieldType);
      AlikeThemselves(fs[1..]);
    }
  }

  lemma {:induction false} AlikeBothWays(a: GoType, b: GoType)
    requires Alike(a, b)
    ensures Alike(b, a)
    decreases a, 0
  {
    match a
    case TPtr(x) => AlikeBothWays(x, b.elem);
    case TSlice(x) => AlikeBothWays(x, b.elem);
    case TMap(x) => AlikeBothWays(x, b.elem);
    case TStruct(fs) => AlikeFieldsBothWays(fs, b.fields);
    case _ =>
  }

  lemma {:induction false} AlikeFieldsBothWays(fs: seq<Field>, gs: seq<Field>)
    requires AlikeFields(fs, gs)
    ensures AlikeFields(gs, fs)
    decreases fs, 0
  {
    if fs != [] {
      AlikeBothWays(fs[0].fieldType, gs[0].fieldType);
      AlikeFieldsBothWays(fs[1..], gs[1..]);
    }
  }

  // ---- The same values ----

  lemma {:induction false} SameZero(a: GoType, b: GoType)
    requires Alike(a, b)
    ensures Zero(a) == Zero(b)
    decreases a, 0
  {
    if a.TStruct? {
      SameZeros(a.fields, b.fields);
    }
  }

  lemma {:induction false} SameZeros(fs: seq<Field>, gs: seq<Field>)
    requires AlikeFields(fs, gs)
    ensures Zeros(fs) == Zeros(gs)
    decreases fs, 0
  {
    if fs != [] {
      SameZero(fs[0].fieldType, gs[0].fieldType);
      SameZeros(fs[1..], gs[1..]);
    }
  }

  lemma {:induction false} SameValues(a: GoType, b: GoType, v: Value)
    requires Alike(a, b) && HasType(v, a)
    ensures HasType(v, b)
    decreases v, 0
  {
    match v
    case VPtr(x) => SameValues(a.elem, b.elem, x);
    case VSlice(items) =>
      forall x | x in items ensures HasType(x, b.elem) {
        SameValues(a.elem, b.elem, x);
      }
    case VMap(entries) =>
      forall x | x in entries ensures HasType(x.value, b.elem) {
        SameValues(a.elem, b.elem, x.value);
      }
    case VStruct(vs) => SameValuesOfFields(a.fields, b.fields, vs);
    case _ =>
  }

  lemma {:induction false} SameValuesOfFields(fs: seq<Field>, gs: seq<Field>, vs: seq<Value>)
    requires AlikeFields(fs, gs) && HaveTypes(vs, fs)
    ensures HaveTypes(vs, gs)
    decreases vs, 0
  {
    if vs != [] {
      SameValues(fs[0].fieldType, gs[0].fieldType, vs[0]);
      SameValuesOfFields(fs[1..], gs[1..], vs[1..]);
    }
  }

  // ---- The same reading of JSON ----

  lemma {:induction false} SameReading(a: GoType, b: GoType, j: Json)
    requires Alike(a, b)
    ensures Unmarshal(a, j) == Unmarshal(b, j)
    decreases a, j
  {
    SameZero(a, b);
    if !j.JNull? {
      match (a, j)
      case (TPtr(x), _) => SameReading(x, b.elem, j);
      case (TSlice(x), JArray(items)) => SameReadingOfItems(x, b.elem, items);
      case (TMap(x), JObject(members)) => SameReadingOfEntries(x, b.elem, members);
      case (TStruct(fs), JObject(members)) => SameReadingOfFields(fs, b.fields, members);
      case _ =>
    }
  }

  lemma {:induction false} SameReadingOfItems(a: GoType, b: GoType, items: seq<Json>)
    requires Alike(a, b)
    ensures UnmarshalItems(a, items) == UnmarshalItems(b, items)
    decreases a, items
  {
    if items != [] {
      SameReading(a, b, items[0]);
      SameReadingOfItems(a, b, items[1..]);
    }
  }

  lemma {:induction false} SameReadingOfEntries(a: GoType, b: GoType, members: seq<Member>)
    requires Alike(a, b)
    ensures UnmarshalEntries(a, members) == UnmarshalEntries(b, members)
    decreases a, members
  {
    if members != [] {
      SameReading(a, b, members[0].value);
      SameReadingOfEntries(a, b, members[1..]);
    }
  }

  lemma {:induction false} SameReadingOfFields(fs: seq<Field>, gs: seq<Field>, members: seq<Member>)
    requires AlikeFields(fs, gs)
    ensures UnmarshalFields(fs, members) == UnmarshalFields(gs, members)
    decreases fs, 0
  {
    if fs != [] {
      SameZero(fs[0].fieldType, gs[0].fieldType);
      match Find(members, fs[0].name) {
        case None =>
        case Some(j) => SameReading(fs[0].fieldType, gs[0].fieldType, j);
      }
      SameReadingOfFields(fs[1..], gs[1..], members);
    }
  }

  // ---- The same normal form ----

  lemma {:induction false} SameNormalForm(a: GoType, b: GoType, v: Value)
    requires Alike(a, b) && HasType(v, a)
    ensures Normalize(a, v) == Normalize(b, v)
    decreases a, v, 0
  {
    match v
    case VPtr(x) =>
      SameValues(a.elem, b.elem, x);
      NullExactly(a.elem, x);
      NullExactly(b.elem, x);
      SameNormalForm(a.elem, b.elem, x);
    case VSlice(items) => SameNormalItems(a.elem, b.elem, items);
    case VMap(entries) => SameNormalEntries(a.elem, b.elem, entries);
    case VStruct(vs) => SameNormalFields(a.fields, b.fields, vs);
    case _ =>
  }

  lemma {:induction false} SameNormalItems(a: GoType, b: GoType, items: seq<Value>)
    requires Alike(a, b) && forall x | x in items :: HasType(x, a)
    ensures NormalizeItems(a, items) == NormalizeItems(b, items)
    decreases a, items
  {
    if items != [] {
      SameNormalForm(a, b, items[0]);
      SameNormalItems(a, b, items[1..]);
    }
  }

  lemma {:induction false} SameNormalEntries(a: GoType, b: GoType, entries: seq<Entry>)
    requires Alike(a, b) && forall x | x in entries :: HasType(x.value, a)
    ensures NormalizeEntries(a, entries) == NormalizeEntries(b, entries)
    decreases a, entries
  {
    if entries != [] {
      SameNormalForm(a, b, entries[0].value);
      SameNormalEntries(a, b, entries[1..]);
    }
  }

  lemma {:induction false} SameNormalField(f: Field, g: Field, v: Value)
    requires AlikeField(f, g) && HasType(v, f.fieldType)
    ensures NormalizeField(f, v) == NormalizeField(g, v)
    decreases f.fieldType, v, 1
  {
    SameZero(f.fieldType, g.fieldType);
    SameNormalForm(f.fieldType, g.fieldType, v);
    if IsEmpty(v) {
      EmptyMeansZero(f.fieldType, v);
    }
  }

  lemma {:induction false} SameNormalFields(fs: seq<Field>, gs: seq<Field>, vs: seq<Value>)
    requires AlikeFields(fs, gs) && HaveTypes(vs, fs)
    ensures NormalizeFields(fs, vs) == NormalizeFields(gs, vs)
    decreases fs, vs
  {
    if vs != [] {
      SameNormalField(fs[0], gs[0], vs[0]);
      SameNormalFields(fs[1..], gs[1..], vs[1..]);
    }
  }

  /** Writing with the tags of one type and reading with those of the other gives the
      normal form, which is the same for both. */
  lemma RoundTripAcross(a: GoType, b: GoType, v: Value)
    requires Alike(a, b) && WellFormed(a) && HasType(v, a)
    ensures Unmarshal(b, Marshal(a, v)) == Ok(Normalize(a, v)) && Normalize(a, v) == Normalize(b, v)
  {
    RoundTrip(a, v);
    SameReading(a, b, Marshal(a, v));
    SameNormalForm(a, b, v);
  }
}
