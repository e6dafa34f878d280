/** The conversions between the native and the CRD types of policies and bindings:
    to JSON, back from JSON, and a new API version. Both sides have the same fields;
    the native types say `omitempty` at four fields where the CRD types do not. */
module Conversion {
  import opened AlikeTypes
  import opened GoJson
  import opened Results

  // ---- The two kinds of objects ----

  function Req(name: string, t: GoType): Field { Field(name, false, t) }

  function Opt(name: string, t: GoType): Field { Field(name, true, t) }

  const STRINGS := TSlice(TString)

  function SelectorType(): GoType {
    TStruct([
      Opt("matchLabels", TMap(TString)),
      Opt("matchExpressions", TSlice(TStruct([
        Req("key", TString), Req("operator", TString), Opt("values", STRINGS)])))])
  }

  /** NamedRuleWithOperations, its embedded structs flattened. */
  function RuleType(): GoType {
    TStruct([
      Opt("resourceNames", STRINGS), Opt("operations", STRINGS), Opt("apiGroups", STRINGS),
      Opt("apiVersions", STRINGS), Opt("resources", STRINGS), Opt("scope", TPtr(TString))])
  }

  function MatchResourcesOf(selector: GoType, rule: GoType): GoType {
    TStruct([
      Opt("namespaceSelector", TPtr(selector)), Opt("objectSelector", TPtr(selector)),
      Opt("resourceRules", TSlice(rule)), Opt("excludeResourceRules", TSlice(rule)),
      Opt("matchPolicy", TPtr(TString))])
  }

  function MatchResourcesType(): GoType {
    MatchResourcesOf(SelectorType(), RuleType())
  }

  function ValidationType(): GoType {
    TStruct([
      Req("expression", TString), Opt("message", TString), Opt("reason", TPtr(TString)),
      Opt("messageExpression", TString)])
  }

  function Pair(first: string, second: string): GoType {
    TStruct([Req(first, TString), Req(second, TString)])
  }

  function ParamKindType(native: bool): GoType {
    TStruct([Field("apiVersion", native, TString), Field("kind", native, TString)])
  }

  function PolicySpecOf(native: bool, matchResources: GoType, validation: GoType, paramKind: GoType,
                        auditAnnotation: GoType, matchCondition: GoType): GoType {
    TStruct([
      Opt("paramKind", TPtr(paramKind)),
      Field("matchConstraints", native, TPtr(matchResources)),
      Opt("validations", TSlice(validation)),
      Opt("failurePolicy", TPtr(TString)),
      Opt("auditAnnotations", TSlice(auditAnnotation)),
      Opt("matchConditions", TSlice(matchCondition))])
  }

  function ConditionType(): GoType {
    TStruct([
      Req("type", TString), Req("status", TString), Opt("observedGeneration", TInt),
      Req("lastTransitionTime", TTime), Req("reason", TString), Req("message", TString)])
  }

  function TypeCheckingType(): GoType {
    TStruct([Opt("expressionWarnings", TSlice(Pair("fieldRef", "warning")))])
  }

  function PolicyStatusOf(typeChecking: GoType, condition: GoType): GoType {
    TStruct([
      Opt("observedGeneration", TInt), Opt("typeChecking", TPtr(typeChecking)),
      Opt("conditions", TSlice(condition))])
  }

  function PolicyStatusType(): GoType {
    PolicyStatusOf(TypeCheckingType(), ConditionType())
  }

  function ParamRefType(): GoType {
    TStruct([Opt("name", TString), Opt("namespace", TString)])
  }

  function BindingSpecOf(native: bool, matchResources: GoType, paramRef: GoType): GoType {
    TStruct([
      Field("policyName", native, TString), Opt("paramRef", TPtr(paramRef)),
      Opt("matchResources", TPtr(matchResources)), Opt("validationActions", STRINGS)])
  }

  /** An API object with the given parts behind its type. */
  function ObjectType(meta: GoType, spec: GoType, status: Option<GoType>): GoType {
    var fields := [Opt("kind", TString), Opt("apiVersion", TString), Opt("metadata", meta), Opt("spec", spec)];
    TStruct(if status.Some? then fields + [Opt("status", status.value)] else fields)
  }

  /** `meta` describes metav1.ObjectMeta. */
  function PolicyType(native: bool, meta: GoType): GoType {
    ObjectType(meta, PolicySpecType(native), Some(PolicyStatusType()))
  }

  function PolicySpecType(native: bool): GoType {
    PolicySpecOf(native, MatchResourcesType(), ValidationType(), ParamKindType(native),
                 Pair("key", "valueExpression"), Pair("name", "expression"))
  }

  function BindingSpecType(native: bool): GoType {
    BindingSpecOf(native, MatchResourcesType(), ParamRefType())
  }

  function BindingType(native: bool, meta: GoType): GoType {
    ObjectType(meta, BindingSpecType(native), None)
  }

  lemma PairIsWellFormed(first: string, second: string)
    requires first != second
    ensures WellFormed(Pair(first, second))
  {
    WellFormedByIndex(Pair(first, second).fields);
  }

  lemma SelectorIsWellFormed()
    ensures WellFormed(SelectorType())
  {
    var fs := SelectorType().fields;
    WellFormedByIndex(fs[1].fieldType.elem.fields);
    WellFormedByIndex(fs);
  }

  lemma RuleIsWellFormed()
    ensures WellFormed(RuleType())
  {
    WellFormedByIndex(RuleType().fields);
  }

  lemma MatchResourcesOfIsWellFormed(selector: GoType, rule: GoType)
    requires WellFormed(selector) && WellFormed(rule)
    ensures WellFormed(MatchResourcesOf(selector, rule))
  {
    WellFormedByIndex(MatchResourcesOf(selector, rule).fields);
  }

  lemma MatchResourcesIsWellFormed()
    ensures WellFormed(MatchResourcesType())
  {
    SelectorIsWellFormed();
    RuleIsWellFormed();
    MatchResourcesOfIsWellFormed(SelectorType(), RuleType());
  }

  lemma ValidationIsWellFormed()
    ensures WellFormed(ValidationType())
  {
    WellFormedByIndex(ValidationType().fields);
  }

  lemma ConditionIsWellFormed()
    ensures WellFormed(ConditionType())
  {
    WellFormedByIndex(ConditionType().fields);
  }

  lemma ParamKindIsWellFormed(native: bool)
    ensures WellFormed(ParamKindType(native))
  {
    WellFormedByIndex(ParamKindType(native).fields);
  }

  lemma SpecOfIsWellFormed(native: bool, a: GoType, b: GoType, c: GoType, d: GoType, e: GoType)
    requires WellFormed(a) && WellFormed(b) && WellFormed(c) && WellFormed(d) && WellFormed(e)
    ensures WellFormed(PolicySpecOf(native, a, b, c, d, e))
  {
    WellFormedByIndex(PolicySpecOf(native, a, b, c, d, e).fields);
  }

  lemma PolicySpecIsWellFormed(native: bool)
    ensures WellFormed(PolicySpecType(native))
  {
    ParamKindIsWellFormed(native);
    PairIsWellFormed("key", "valueExpression");
    PairIsWellFormed("name", "expression");
    MatchResourcesIsWellFormed();
    ValidationIsWellFormed();
    SpecOfIsWellFormed(native, MatchResourcesType(), ValidationType(), ParamKindType(native),
                       Pair("key", "valueExpression"), Pair("name", "expression"));
  }

  lemma PolicyStatusOfIsWellFormed(typeChecking: GoType, condition: GoType)
    requires WellFormed(typeChecking) && WellFormed(condition)
    ensures WellFormed(PolicyStatusOf(typeChecking, condition))
  {
    WellFormedByIndex(PolicyStatusOf(typeChecking, condition).fields);
  }

  lemma PolicyStatusIsWellFormed()
    ensures WellFormed(PolicyStatusType())
  {
    PairIsWellFormed("fieldRef", "warning");
    WellFormedByIndex(TypeCheckingType().fields);
    ConditionIsWellFormed();
    PolicyStatusOfIsWellFormed(TypeCheckingType(), ConditionType());
  }

  lemma BindingSpecIsWellFormed(native: bool, matchResources: GoType, paramRef: GoType)
    requires WellFormed(matchResources) && WellFormed(paramRef)
    ensures WellFormed(BindingSpecOf(native, matchResources, paramRef))
  {
    WellFormedByIndex(BindingSpecOf(native, matchResources, paramRef).fields);
  }

  lemma ParamRefIsWellFormed()
    ensures WellFormed(ParamRefType())
  {
    WellFormedByIndex(ParamRefType().fields);
  }

  lemma ObjectIsWellFormed(meta: GoType, spec: GoType, status: Option<GoType>)
    requires WellFormed(meta) && WellFormed(spec) && (status.Some? ==> WellFormed(status.value))
    ensures WellFormed(ObjectType(meta, spec, status))
  {
    WellFormedByIndex(ObjectType(meta, spec, status).fields);
  }

  /** The field names of each struct in a policy or a binding differ. */
  lemma PoliciesAreWellFormed(native: bool, meta: GoType)
    requires WellFormed(meta)
    ensures WellFormed(PolicyType(native, meta)) && WellFormed(BindingType(native, meta))
  {
    MatchResourcesIsWellFormed();
    PolicyStatusIsWellFormed();
    ParamRefIsWellFormed();
    PolicySpecIsWellFormed(native);
    BindingSpecIsWellFormed(native, MatchResourcesType(), ParamRefType());
    ObjectIsWellFormed(meta, PolicySpecType(native), Some(PolicyStatusType()));
    ObjectIsWellFormed(meta, BindingSpecType(native), None);
  }

  // ---- The native types are like the CRD types ----

  lemma ParamKindsAreAlike()
    ensures Alike(ParamKindType(true), ParamKindType(false))
  {
    AlikeByIndex(ParamKindType(true).fields, ParamKindType(false).fields);
  }

  lemma SpecsOfAreAlike(a: GoType, b: GoType, c: GoType, c': GoType, d: GoType, e: GoType)
    requires Alike(a, a) && Alike(b, b) && Alike(c, c') && Alike(d, d) && Alike(e, e)
    ensures Alike(PolicySpecOf(true, a, b, c, d, e), PolicySpecOf(false, a, b, c', d, e))
  {
    AlikeByIndex(PolicySpecOf(true, a, b, c, d, e).fields, PolicySpecOf(false, a, b, c', d, e).fields);
  }

  lemma PolicySpecsAreAlike()
    ensures Alike(PolicySpecType(true), PolicySpecType(false))
  {
    AlikeItself(MatchResourcesType());
    AlikeItself(ValidationType());
    ParamKindsAreAlike();
    AlikeItself(Pair("key", "valueExpression"));
    AlikeItself(Pair("name", "expression"));
    SpecsOfAreAlike(MatchResourcesType(), ValidationType(), ParamKindType(true), ParamKindType(false),
                    Pair("key", "valueExpression"), Pair("name", "expression"));
  }

  lemma BindingSpecsOfAreAlike(a: GoType, b: GoType)
    requires Alike(a, a) && Alike(b, b)
    ensures Alike(BindingSpecOf(true, a, b), BindingSpecOf(false, a, b))
  {
    AlikeByIndex(BindingSpecOf(true, a, b).fields, BindingSpecOf(false, a, b).fields);
  }

  lemma ObjectsAreAlike(meta: GoType, a: GoType, b: GoType, status: Option<GoType>)
    requires Alike(meta, meta) && Alike(a, b) && (status.Some? ==> Alike(status.value, status.value))
    ensures Alike(ObjectType(meta, a, status), ObjectType(meta, b, status))
  {
    AlikeByIndex(ObjectType(meta, a, status).fields, ObjectType(meta, b, status).fields);
  }

  /** The two sides differ in `omitempty` on strings and pointers only. */
  lemma PoliciesAreAlike(meta: GoType)
    ensures Alike(PolicyType(true, meta), PolicyType(false, meta))
    ensures Alike(BindingType(true, meta), BindingType(false, meta))
  {
    AlikeItself(meta);
    AlikeItself(PolicyStatusType());
    PolicySpecsAreAlike();
    ObjectsAreAlike(meta, PolicySpecType(true), PolicySpecType(false), Some(PolicyStatusType()));
    AlikeItself(MatchResourcesType());
    AlikeItself(ParamRefType());
    BindingSpecsOfAreAlike(MatchResourcesType(), ParamRefType());
    ObjectsAreAlike(meta, BindingSpecType(true), BindingSpecType(false), None);
  }

  // ---- The conversions ----

  const CRD_VERSION := "admissionregistration.x-k8s.io/v1alpha1"

  // The code writes "apiregistration" here, not "admissionregistration".
  const NATIVE_VERSION := "apiregistration.k8s.io/v1alpha1"

  /** An object type, with its kind and API version in front. */
  predicate IsObject(t: GoType) {
    && WellFormed(t) && t.TStruct? && |t.fields| >= 2
    && t.fields[0] == Opt("kind", TString) && t.fields[1] == Opt("apiVersion", TString)
  }

  function ApiVersion(v: Value): string {
    if v.VStruct? && |v.values| >= 2 && v.values[1].VString? then v.values[1].s else ""
  }

  function SetApiVersion(v: Value, version: string): Value {
    if v.VStruct? && |v.values| >= 2 then VStruct(v.values[1 := VString(version)]) else v
  }

  /** Marshal one type, unmarshal the other, and overwrite an API version that is
      there. */
  function Convert(source: GoType, target: GoType, v: Value, version: string): Result<Value> {
    match Unmarshal(target, Marshal(source, v))
    case Error(m) => Error(m)
    case Ok(r) => Ok(if |ApiVersion(r)| > 0 then SetApiVersion(r, version) else r)
  }

  /** A native and a CRD type of the same objects. */
  datatype Sides = Sides(native: GoType, crd: GoType) {
    predicate Valid() {
      IsObject(native) && IsObject(crd) && Alike(native, crd) && Alike(crd, native)
    }
  }

  function ConvertPointer(source: GoType, target: GoType, v: Option<Value>, version: string): Result<Option<Value>> {
    match v
    case None => Ok(None)
    case Some(x) => (match Convert(source, target, x, version) case Ok(r) => Ok(Some(r)) case Error(m) => Error(m))
  }

  function ToNative(k: Sides, v: Option<Value>): Result<Option<Value>> {
    ConvertPointer(k.crd, k.native, v, NATIVE_VERSION)
  }

  function ToCrd(k: Sides, v: Option<Value>): Result<Option<Value>> {
    ConvertPointer(k.native, k.crd, v, CRD_VERSION)
  }

  function PolicySides(meta: GoType): Sides {
    Sides(PolicyType(true, meta), PolicyType(false, meta))
  }

  function BindingSides(meta: GoType): Sides {
    Sides(BindingType(true, meta), BindingType(false, meta))
  }

  lemma SidesAreValid(meta: GoType, a: GoType, b: GoType, status: Option<GoType>)
    requires var k := Sides(ObjectType(meta, a, status), ObjectType(meta, b, status));
      WellFormed(k.native) && WellFormed(k.crd) && Alike(k.native, k.crd)
    ensures Sides(ObjectType(meta, a, status), ObjectType(meta, b, status)).Valid()
  {
    AlikeBothWays(ObjectType(meta, a, status), ObjectType(meta, b, status));
  }

  lemma PolicySidesAreValid(meta: GoType)
    requires WellFormed(meta)
    ensures PolicySides(meta).Valid() && BindingSides(meta).Valid()
  {
    PoliciesAreWellFormed(true, meta);
    PoliciesAreWellFormed(false, meta);
    PoliciesAreAlike(meta);
    SidesAreValid(meta, PolicySpecType(true), PolicySpecType(false), Some(PolicyStatusType()));
    SidesAreValid(meta, BindingSpecType(true), BindingSpecType(false), None);
  }

  /** A conversion succeeds, with an object of the other type, in normal form but for
      its version. */
  lemma ConvertNormalizes(a: GoType, b: GoType, v: Value, version: string)
    requires IsObject(a) && IsObject(b) && Alike(a, b) && HasType(v, a)
    ensures ApiVersion(Normalize(a, v)) == ApiVersion(v)
    ensures Normalize(b, v) == Normalize(a, v) && HasType(Normalize(a, v), b)
    ensures Convert(a, b, v, version) ==
      Ok(if |ApiVersion(v)| > 0 then SetApiVersion(Normalize(a, v), version) else Normalize(a, v))
  {
    RoundTripAcross(a, b, v);
    SameValues(a, b, v);
    NormalizeTwice(b, v);
    VersionIsKept(a.fields, v.values, CRD_VERSION);
  }

  /** Fields are normalised one by one. */
  lemma {:induction false} NormalizeOneField(fs: seq<Field>, vs: seq<Value>, i: nat, w: Value)
    requires i < |fs| && HaveTypes(vs, fs) && HasType(w, fs[i].fieldType)
    ensures |vs| == |fs| == |NormalizeFields(fs, vs)|
    ensures HasType(vs[i], fs[i].fieldType) && HaveTypes(vs[i := w], fs)
    ensures NormalizeFields(fs, vs)[i] == NormalizeField(fs[i], vs[i])
    ensures NormalizeFields(fs, vs[i := w]) == NormalizeFields(fs, vs)[i := NormalizeField(fs[i], w)]
  {
    SameLength(vs, fs);
    var tail := NormalizeFields(fs[1..], vs[1..]);
    if i == 0 {
      assert vs[0 := w][1..] == vs[1..];
    } else {
      NormalizeOneField(fs[1..], vs[1..], i - 1, w);
      assert vs[i := w][1..] == vs[1..][i - 1 := w];
      UpdateTail(NormalizeField(fs[0], vs[0]), tail, i, NormalizeField(fs[i], w));
    }
  }

  lemma UpdateTail(x: Value, tail: seq<Value>, i: nat, w: Value)
    requires 0 < i <= |tail|
    ensures ([x] + tail)[i := w] == [x] + tail[i - 1 := w]
  {}

  lemma {:induction false} SameLength(vs: seq<Value>, fs: seq<Field>)
    requires HaveTypes(vs, fs)
    ensures |vs| == |fs|
  {
    if fs != [] {
      SameLength(vs[1..], fs[1..]);
    }
  }

  lemma VersionIsKept(fs: seq<Field>, vs: seq<Value>, version: string)
    requires |fs| >= 2 && fs[1] == Opt("apiVersion", TString) && HaveTypes(vs, fs) && |version| > 0
    ensures |vs| >= 2 && vs[1].VString? && |NormalizeFields(fs, vs)| >= 2
    ensures NormalizeFields(fs, vs)[1] == vs[1]
    ensures HaveTypes(vs[1 := VString(version)], fs)
    ensures NormalizeFields(fs, vs[1 := VString(version)]) == NormalizeFields(fs, vs)[1 := VString(version)]
  {
    NormalizeOneField(fs, vs, 1, VString(version));
    StringsStay(fs[1], vs[1]);
    StringsStay(fs[1], VString(version));
  }

  lemma StringsStay(f: Field, v: Value)
    requires f.fieldType.TString? && HasType(v, TString)
    ensures NormalizeField(f, v) == v && v.VString?
  {}

  /** A new version keeps the type, and commutes with normalising. */
  lemma VersionOnly(t: GoType, v: Value, version: string)
    requires IsObject(t) && HasType(v, t) && |version| > 0
    ensures HasType(SetApiVersion(v, version), t)
    ensures Normalize(t, SetApiVersion(v, version)) == SetApiVersion(Normalize(t, v), version)
    ensures ApiVersion(SetApiVersion(v, version)) == version
  {
    VersionIsKept(t.fields, v.values, version);
  }

  lemma LastVersionCounts(v: Value, a: string, b: string)
    ensures SetApiVersion(SetApiVersion(v, a), b) == SetApiVersion(v, b)
  {
    if v.VStruct? && |v.values| >= 2 {
      assert v.values[1 := VString(a)][1 := VString(b)] == v.values[1 := VString(b)];
    }
  }

  lemma OwnVersionStays(v: Value)
    requires |ApiVersion(v)| > 0
    ensures SetApiVersion(v, ApiVersion(v)) == v
  {}

  /** What comes back from a conversion there and back. */
  lemma ThereAndBack(a: GoType, b: GoType, v: Value, there: string, back: string)
    requires IsObject(a) && IsObject(b) && Alike(a, b) && Alike(b, a) && HasType(v, a) && |there| > 0 && |back| > 0
    ensures Convert(a, b, v, there).Ok? && HasType(Convert(a, b, v, there).value, b)
    ensures Convert(b, a, Convert(a, b, v, there).value, back) ==
      Ok(if |ApiVersion(v)| > 0 then SetApiVersion(Normalize(a, v), back) else Normalize(a, v))
  {
    var n := Normalize(a, v);
    ConvertNormalizes(a, b, v, there);
    SameValues(a, b, v);
    NormalizeTwice(b, v);
    if |ApiVersion(v)| > 0 {
      VersionOnly(b, n, there);
      ConvertNormalizes(b, a, SetApiVersion(n, there), back);
      LastVersionCounts(n, there, back);
    } else {
      ConvertNormalizes(b, a, n, back);
    }
  }

  /** Converting there and back gives the normal form, exactly if the object has no
      API version or the one that the way back writes. */
  lemma ThereAndBackExactly(a: GoType, b: GoType, v: Value, there: string, back: string)
    requires IsObject(a) && IsObject(b) && Alike(a, b) && Alike(b, a) && HasType(v, a) && |there| > 0 && |back| > 0
    ensures Convert(a, b, v, there).Ok? && HasType(Convert(a, b, v, there).value, b)
    ensures Convert(b, a, Convert(a, b, v, there).value, back) == Ok(Normalize(a, v))
      <==> ApiVersion(v) == "" || ApiVersion(v) == back
  {
    var n := Normalize(a, v);
    ThereAndBack(a, b, v, there, back);
    ConvertNormalizes(a, b, v, there);
    if |ApiVersion(v)| > 0 {
      OwnVersionStays(n);
      NormalizeTwice(a, v);
      VersionOnly(a, n, back);
    }
  }

  /** From the CRD type and back for the CRD version, from the native type and back
      for the misspelt version only. */
  lemma PolicyRoundTrips(k: Sides, v: Value)
    requires k.Valid()
    ensures HasType(v, k.crd) ==>
      && ToNative(k, Some(v)).Ok?
      && (ToCrd(k, ToNative(k, Some(v)).value) == Ok(Some(Normalize(k.crd, v)))
          <==> ApiVersion(v) == "" || ApiVersion(v) == CRD_VERSION)
    ensures HasType(v, k.native) ==>
      && ToCrd(k, Some(v)).Ok?
      && (ToNative(k, ToCrd(k, Some(v)).value) == Ok(Some(Normalize(k.native, v)))
          <==> ApiVersion(v) == "" || ApiVersion(v) == NATIVE_VERSION)
  {
    if HasType(v, k.crd) {
      ThereAndBackExactly(k.crd, k.native, v, NATIVE_VERSION, CRD_VERSION);
    }
    if HasType(v, k.native) {
      ThereAndBackExactly(k.native, k.crd, v, CRD_VERSION, NATIVE_VERSION);
    }
  }

  predicate PointsTo(v: Option<Value>, t: GoType) {
    v.Some? ==> HasType(v.value, t)
  }

  /** A pointer to a CRD object comes back exactly as it was if and only if it is nil,
      or the object has no version or the CRD version and nothing in it is lost in
      JSON. In between it is nil exactly if it was nil. */
  lemma PolicyComesBackExactly(k: Sides, v: Option<Value>)
    requires k.Valid() && PointsTo(v, k.crd)
    ensures ToNative(k, v).Ok? && PointsTo(ToNative(k, v).value, k.native)
    ensures ToNative(k, v).value.None? <==> v.None?
    ensures ToCrd(k, ToNative(k, v).value) == Ok(v) <==>
      v.None? || ((ApiVersion(v.value) == "" || ApiVersion(v.value) == CRD_VERSION) && Lossless(v.value, k.crd))
  {
    if v.Some? {
      UnchangedExactly(k.crd, v.value);
      IdentityExactly(k.crd, k.native, v.value, NATIVE_VERSION, CRD_VERSION);
    }
  }

  lemma IdentityExactly(a: GoType, b: GoType, v: Value, there: string, back: string)
    requires IsObject(a) && IsObject(b) && Alike(a, b) && Alike(b, a) && HasType(v, a) && |there| > 0 && |back| > 0
    ensures Convert(a, b, v, there).Ok? && HasType(Convert(a, b, v, there).value, b)
    ensures Convert(b, a, Convert(a, b, v, there).value, back) == Ok(v)
      <==> (ApiVersion(v) == "" || ApiVersion(v) == back) && Normalize(a, v) == v
  {
    ThereAndBack(a, b, v, there, back);
    ConvertNormalizes(a, b, v, there);
    if |ApiVersion(v)| > 0 {
      NormalizeTwice(a, v);
      VersionOnly(a, Normalize(a, v), back);
      OwnVersionStays(Normalize(a, v));
    }
  }

  // ---- Names ----

  /** The type has its metadata as third field, and that has the name as field `j`. */
  predicate IsNamed(t: GoType, meta: GoType, j: nat) {
    && IsObject(t) && |t.fields| > 2 && t.fields[2] == Opt("metadata", meta)
    && meta.TStruct? && j < |meta.fields| && meta.fields[j] == Opt("name", TString)
  }

  lemma PoliciesAreNamed(meta: GoType, j: nat)
    requires WellFormed(meta) && meta.TStruct? && j < |meta.fields| && meta.fields[j] == Opt("name", TString)
    ensures IsNamed(PolicyType(true, meta), meta, j) && IsNamed(PolicyType(false, meta), meta, j)
    ensures IsNamed(BindingType(true, meta), meta, j) && IsNamed(BindingType(false, meta), meta, j)
  {
    PolicySidesAreValid(meta);
  }

  function StringAt(v: Value, j: nat): string {
    if v.VStruct? && j < |v.values| && v.values[j].VString? then v.values[j].s else ""
  }

  /** metadata.name */
  function NameOf(v: Value, j: nat): string {
    if v.VStruct? && |v.values| > 2 then StringAt(v.values[2], j) else ""
  }

  lemma NormalizeKeepsString(t: GoType, v: Value, j: nat)
    requires t.TStruct? && HasType(v, t) && j < |t.fields| && t.fields[j].fieldType.TString?
    ensures StringAt(Normalize(t, v), j) == StringAt(v, j)
  {
    SameLength(v.values, t.fields);
    NormalizeOneField(t.fields, v.values, j, VString(""));
    StringsStay(t.fields[j], v.values[j]);
  }

  /** A conversion keeps the name under which the object is stored. */
  lemma ConvertKeepsName(a: GoType, b: GoType, v: Value, version: string, meta: GoType, j: nat)
    requires IsNamed(a, meta, j) && IsObject(b) && Alike(a, b) && HasType(v, a)
    ensures Convert(a, b, v, version).Ok? && NameOf(Convert(a, b, v, version).value, j) == NameOf(v, j)
  {
    ConvertNormalizes(a, b, v, version);
    SameLength(v.values, a.fields);
    ZeroHasType(meta);
    NormalizeOneField(a.fields, v.values, 2, Zero(meta));
    NormalizeKeepsString(meta, v.values[2], j);
  }

  // ---- Which members the JSON of an object has ----

  /** The JSON of the struct has a member of this name. */
  predicate IsWritten(t: GoType, v: Value, name: string)
    requires t.TStruct? && HasType(v, t)
  {
    Find(MarshalFields(t.fields, v.values), name).Some?
  }

  lemma FieldIsWritten(t: GoType, v: Value, i: nat, name: string, omitEmpty: bool)
    requires WellFormed(t) && t.TStruct? && HasType(v, t)
    requires i < |t.fields| && t.fields[i].name == name && t.fields[i].omitEmpty == omitEmpty
    ensures i < |v.values| && (IsWritten(t, v, name) <==> !omitEmpty || !IsEmpty(v.values[i]))
  {
    MembersExactly(t.fields, v.values, i);
  }

  lemma ObjectFields(meta: GoType, spec: GoType, status: GoType)
    ensures var fs := ObjectType(meta, spec, Some(status)).fields;
      && |fs| == 5
      && fs[0] == Opt("kind", TString) && fs[1] == Opt("apiVersion", TString)
      && fs[2] == Opt("metadata", meta) && fs[3] == Opt("spec", spec) && fs[4] == Opt("status", status)
  {}

  /** An object's kind and apiVersion are left out if empty; its spec and status are
      structs and always written, as is metadata. */
  lemma ObjectIsWritten(meta: GoType, spec: GoType, status: GoType, v: Value)
    requires WellFormed(meta) && WellFormed(spec) && WellFormed(status)
    requires HasType(v, ObjectType(meta, spec, Some(status)))
    ensures var t := ObjectType(meta, spec, Some(status));
      && |v.values| == 5
      && (IsWritten(t, v, "kind") <==> !IsEmpty(v.values[0]))
      && (IsWritten(t, v, "apiVersion") <==> !IsEmpty(v.values[1]))
      && (IsWritten(t, v, "metadata") <==> !IsEmpty(v.values[2]))
      && (IsWritten(t, v, "spec") <==> !IsEmpty(v.values[3]))
      && (IsWritten(t, v, "status") <==> !IsEmpty(v.values[4]))
  {
    var t := ObjectType(meta, spec, Some(status));
    ObjectIsWellFormed(meta, spec, Some(status));
    ObjectFields(meta, spec, status);
    SameLength(v.values, t.fields);
    FieldIsWritten(t, v, 0, "kind", true);
    FieldIsWritten(t, v, 1, "apiVersion", true);
    FieldIsWritten(t, v, 2, "metadata", true);
    FieldIsWritten(t, v, 3, "spec", true);
    FieldIsWritten(t, v, 4, "status", true);
  }

  /** Of what may be empty in a policy's spec, only matchConstraints is written by the
      CRD types, as null; the native types leave it out too. */
  lemma PolicySpecIsWritten(native: bool, a: GoType, b: GoType, c: GoType, d: GoType, e: GoType, v: Value)
    requires WellFormed(a) && WellFormed(b) && WellFormed(c) && WellFormed(d) && WellFormed(e)
    requires HasType(v, PolicySpecOf(native, a, b, c, d, e))
    ensures var t := PolicySpecOf(native, a, b, c, d, e);
      && |v.values| == 6
      && (IsWritten(t, v, "paramKind") <==> !IsEmpty(v.values[0]))
      && (IsWritten(t, v, "matchConstraints") <==> !native || !IsEmpty(v.values[1]))
      && (IsWritten(t, v, "validations") <==> !IsEmpty(v.values[2]))
      && (IsWritten(t, v, "failurePolicy") <==> !IsEmpty(v.values[3]))
      && (IsWritten(t, v, "auditAnnotations") <==> !IsEmpty(v.values[4]))
      && (IsWritten(t, v, "matchConditions") <==> !IsEmpty(v.values[5]))
  {
    var t := PolicySpecOf(native, a, b, c, d, e);
    SpecOfIsWellFormed(native, a, b, c, d, e);
    SameLength(v.values, t.fields);
    FieldIsWritten(t, v, 0, "paramKind", true);
    FieldIsWritten(t, v, 1, "matchConstraints", native);
    FieldIsWritten(t, v, 2, "validations", true);
    FieldIsWritten(t, v, 3, "failurePolicy", true);
    FieldIsWritten(t, v, 4, "auditAnnotations", true);
    FieldIsWritten(t, v, 5, "matchConditions", true);
  }

  /** The same for policyName in a binding's spec, as an empty text. */
  lemma BindingSpecIsWritten(native: bool, matchResources: GoType, paramRef: GoType, v: Value)
    requires WellFormed(matchResources) && WellFormed(paramRef)
    requires HasType(v, BindingSpecOf(native, matchResources, paramRef))
    ensures var t := BindingSpecOf(native, matchResources, paramRef);
      && |v.values| == 4
      && (IsWritten(t, v, "policyName") <==> !native || !IsEmpty(v.values[0]))
      && (IsWritten(t, v, "paramRef") <==> !IsEmpty(v.values[1]))
      && (IsWritten(t, v, "matchResources") <==> !IsEmpty(v.values[2]))
      && (IsWritten(t, v, "validationActions") <==> !IsEmpty(v.values[3]))
  {
    var t := BindingSpecOf(native, matchResources, paramRef);
    BindingSpecIsWellFormed(native, matchResources, paramRef);
    SameLength(v.values, t.fields);
    FieldIsWritten(t, v, 0, "policyName", native);
    FieldIsWritten(t, v, 1, "paramRef", true);
    FieldIsWritten(t, v, 2, "matchResources", true);
    FieldIsWritten(t, v, 3, "validationActions", true);
  }
}
