/** The plans of the generated deep copies of policies and bindings, as the fix-ups
    that each type's function makes. A field that the function does not touch has the
    plan `Shallow`. */
module GeneratedCopies {
  import opened Conversion
  import opened DeepCopy
  import opened GoJson
  import opened Results

  /** How values of a type lie in memory. metav1.FieldsV1 wraps a byte slice. */
  function ShapeOf(t: GoType): Shape {
    match t
    case TPtr(e) => Pointer(ShapeOf(e))
    case TSlice(e) => Many(ShapeOf(e))
    case TMap(e) => Many(ShapeOf(e))
    case TStruct(fs) => ShapeOfFields(fs)
    case TRaw => Many(Basic)
    case _ => Basic
  }

  function ShapeOfFields(fs: seq<Field>): Shape {
    if fs == [] then NoFields else Fields(ShapeOf(fs[0].fieldType), ShapeOfFields(fs[1..]))
  }

  function PlanOf(ps: seq<Plan>): Plan {
    if ps == [] then Shallow else Parts(ps[0], PlanOf(ps[1..]))
  }

  predicate Copies(p: Plan, t: GoType) {
    Covers(p, ShapeOf(t))
  }

  lemma {:induction false} CopiesByIndex(ps: seq<Plan>, fs: seq<Field>)
    requires |ps| == |fs| && forall i :: 0 <= i < |fs| ==> Copies(ps[i], fs[i].fieldType)
    ensures Copies(PlanOf(ps), TStruct(fs))
  {
    if fs != [] {
      CopiesByIndex(ps[1..], fs[1..]);
    }
  }

  lemma {:induction false} FlatByIndex(fs: seq<Field>)
    requires forall i :: 0 <= i < |fs| ==> Flat(ShapeOf(fs[i].fieldType))
    ensures Copies(Shallow, TStruct(fs))
  {
    if fs != [] {
      FlatByIndex(fs[1..]);
    }
  }

  /** Somewhere in a value of the type, not counting what is behind it, is a pointer, a
      slice or a map. */
  predicate HoldsReferences(t: GoType) {
    match t
    case TPtr(_) => true
    case TSlice(_) => true
    case TMap(_) => true
    case TRaw => true
    case TStruct(fs) => exists f | f in fs :: HoldsReferences(f.fieldType)
    case _ => false
  }

  lemma {:induction false} FlatExactly(t: GoType)
    ensures Flat(ShapeOf(t)) <==> !HoldsReferences(t)
    decreases t, 0
  {
    if t.TStruct? {
      FlatFieldsExactly(t.fields);
    }
  }

  lemma {:induction false} FlatFieldsExactly(fs: seq<Field>)
    ensures Flat(ShapeOfFields(fs)) <==> forall f | f in fs :: !HoldsReferences(f.fieldType)
    decreases fs, 0
  {
    if fs != [] {
      FlatExactly(fs[0].fieldType);
      FlatFieldsExactly(fs[1..]);
      assert forall f :: f in fs <==> f == fs[0] || f in fs[1..];
    }
  }

  /** A new slice filled by `copy`, or a new pointer target filled by assignment. */
  const FLAT_COPY := Renewed(Shallow)

  function RulePlan(): Plan {
    PlanOf([FLAT_COPY, FLAT_COPY, FLAT_COPY, FLAT_COPY, FLAT_COPY, FLAT_COPY])
  }

  function RequirementPlan(): Plan {
    PlanOf([Shallow, Shallow, FLAT_COPY])
  }

  function SelectorPlan(): Plan {
    PlanOf([FLAT_COPY, Renewed(RequirementPlan())])
  }

  function MatchResourcesPlan(): Plan {
    PlanOf([Renewed(SelectorPlan()), Renewed(SelectorPlan()), Renewed(RulePlan()), Renewed(RulePlan()), FLAT_COPY])
  }

  function ValidationPlan(): Plan {
    PlanOf([Shallow, Shallow, FLAT_COPY, Shallow])
  }

  function PolicySpecPlan(): Plan {
    PlanOf([FLAT_COPY, Renewed(MatchResourcesPlan()), Renewed(ValidationPlan()), FLAT_COPY, FLAT_COPY, FLAT_COPY])
  }

  function TypeCheckingPlan(): Plan {
    PlanOf([FLAT_COPY])
  }

  /** A condition copies its struct, and a time its value. */
  function PolicyStatusPlan(): Plan {
    PlanOf([Shallow, Renewed(TypeCheckingPlan()), Renewed(Shallow)])
  }

  function BindingSpecPlan(): Plan {
    PlanOf([Shallow, FLAT_COPY, Renewed(MatchResourcesPlan()), FLAT_COPY])
  }

  function PolicyPlan(meta: Plan): Plan {
    PlanOf([Shallow, Shallow, meta, PolicySpecPlan(), PolicyStatusPlan()])
  }

  function BindingPlan(meta: Plan): Plan {
    PlanOf([Shallow, Shallow, meta, BindingSpecPlan()])
  }

  /** A list object: kind, API version, list metadata, items. */
  function ListType(meta: GoType, item: GoType): GoType {
    TStruct([Opt("kind", TString), Opt("apiVersion", TString), Opt("metadata", meta), Opt("items", TSlice(item))])
  }

  function ListPlan(meta: Plan, item: Plan): Plan {
    PlanOf([Shallow, Shallow, meta, Renewed(item)])
  }

  lemma RulePlanCopies()
    ensures Copies(RulePlan(), RuleType())
  {
    CopiesByIndex([FLAT_COPY, FLAT_COPY, FLAT_COPY, FLAT_COPY, FLAT_COPY, FLAT_COPY], RuleType().fields);
  }

  lemma RequirementPlanCopies()
    ensures Copies(RequirementPlan(), SelectorType().fields[1].fieldType.elem)
  {
    CopiesByIndex([Shallow, Shallow, FLAT_COPY], SelectorType().fields[1].fieldType.elem.fields);
  }

  lemma SelectorPlanCopies()
    ensures Copies(SelectorPlan(), SelectorType())
  {
    RequirementPlanCopies();
    CopiesByIndex([FLAT_COPY, Renewed(RequirementPlan())], SelectorType().fields);
  }

  lemma MatchResourcesPlanCopies()
    ensures Copies(MatchResourcesPlan(), MatchResourcesType())
  {
    SelectorPlanCopies();
    RulePlanCopies();
    MatchResourcesOfCopies(SelectorPlan(), SelectorType(), RulePlan(), RuleType());
  }

  lemma MatchResourcesOfCopies(selector: Plan, selectorType: GoType, rule: Plan, ruleType: GoType)
    requires Copies(selector, selectorType) && Copies(rule, ruleType)
    ensures Copies(PlanOf([Renewed(selector), Renewed(selector), Renewed(rule), Renewed(rule), FLAT_COPY]),
                   MatchResourcesOf(selectorType, ruleType))
  {
    CopiesByIndex([Renewed(selector), Renewed(selector), Renewed(rule), Renewed(rule), FLAT_COPY],
                  MatchResourcesOf(selectorType, ruleType).fields);
  }

  lemma PairIsFlat(first: string, second: string)
    ensures Copies(Shallow, Pair(first, second))
  {
    FlatByIndex(Pair(first, second).fields);
  }

  lemma ValidationPlanCopies()
    ensures Copies(ValidationPlan(), ValidationType())
  {
    CopiesByIndex([Shallow, Shallow, FLAT_COPY, Shallow], ValidationType().fields);
  }

  /** A policy spec, whatever the types of its parts. */
  lemma PolicySpecOfCopies(
    match': Plan, validation: Plan, native: bool, a: GoType, b: GoType, c: GoType, d: GoType, e: GoType)
    requires Copies(match', a) && Copies(validation, b)
    requires Copies(Shallow, c) && Copies(Shallow, d) && Copies(Shallow, e)
    ensures Copies(PlanOf([FLAT_COPY, Renewed(match'), Renewed(validation), FLAT_COPY, FLAT_COPY, FLAT_COPY]),
                   PolicySpecOf(native, a, b, c, d, e))
  {
    CopiesByIndex([FLAT_COPY, Renewed(match'), Renewed(validation), FLAT_COPY, FLAT_COPY, FLAT_COPY],
                  PolicySpecOf(native, a, b, c, d, e).fields);
  }

  lemma ParamKindIsFlat(native: bool)
    ensures Copies(Shallow, ParamKindType(native))
  {
    FlatByIndex(ParamKindType(native).fields);
  }

  lemma PolicySpecPlanCopies()
    ensures Copies(PolicySpecPlan(), PolicySpecType(false))
  {
    MatchResourcesPlanCopies();
    ValidationPlanCopies();
    ParamKindIsFlat(false);
    PairIsFlat("key", "valueExpression");
    PairIsFlat("name", "expression");
    PolicySpecOfCopies(MatchResourcesPlan(), ValidationPlan(), false, MatchResourcesType(), ValidationType(),
                       ParamKindType(false), Pair("key", "valueExpression"), Pair("name", "expression"));
  }

  lemma TypeCheckingPlanCopies()
    ensures Copies(TypeCheckingPlan(), TypeCheckingType())
  {
    PairIsFlat("fieldRef", "warning");
    CopiesByIndex([FLAT_COPY], TypeCheckingType().fields);
  }

  lemma ConditionIsFlat()
    ensures Copies(Shallow, ConditionType())
  {
    FlatByIndex(ConditionType().fields);
  }

  lemma PolicyStatusPlanCopies()
    ensures Copies(PolicyStatusPlan(), PolicyStatusType())
  {
    TypeCheckingPlanCopies();
    ConditionIsFlat();
    PolicyStatusOfCopies(TypeCheckingPlan(), TypeCheckingType(), Shallow, ConditionType());
  }

  lemma PolicyStatusOfCopies(checking: Plan, checkingType: GoType, condition: Plan, conditionType: GoType)
    requires Copies(checking, checkingType) && Copies(condition, conditionType)
    ensures Copies(PlanOf([Shallow, Renewed(checking), Renewed(condition)]),
                   PolicyStatusOf(checkingType, conditionType))
  {
    CopiesByIndex([Shallow, Renewed(checking), Renewed(condition)],
                  PolicyStatusOf(checkingType, conditionType).fields);
  }

  lemma ParamRefIsFlat()
    ensures Copies(Shallow, ParamRefType())
  {
    FlatByIndex(ParamRefType().fields);
  }

  lemma BindingSpecPlanCopies()
    ensures Copies(BindingSpecPlan(), BindingSpecType(false))
  {
    MatchResourcesPlanCopies();
    ParamRefIsFlat();
    BindingSpecOfCopies(MatchResourcesPlan(), MatchResourcesType(), ParamRefType(), false);
  }

  lemma BindingSpecOfCopies(match': Plan, matchType: GoType, paramRef: GoType, native: bool)
    requires Copies(match', matchType) && Copies(Shallow, paramRef)
    ensures Copies(PlanOf([Shallow, FLAT_COPY, Renewed(match'), FLAT_COPY]),
                   BindingSpecOf(native, matchType, paramRef))
  {
    CopiesByIndex([Shallow, FLAT_COPY, Renewed(match'), FLAT_COPY], BindingSpecOf(native, matchType, paramRef).fields);
  }

  lemma ObjectCopies(meta: Plan, metaType: GoType, spec: Plan, specType: GoType, status: Plan, statusType: GoType)
    requires Copies(meta, metaType) && Copies(spec, specType) && Copies(status, statusType)
    ensures Copies(PlanOf([Shallow, Shallow, meta, spec, status]), ObjectType(metaType, specType, Some(statusType)))
    ensures Copies(PlanOf([Shallow, Shallow, meta, spec]), ObjectType(metaType, specType, None))
  {
    CopiesByIndex([Shallow, Shallow, meta, spec, status], ObjectType(metaType, specType, Some(statusType)).fields);
    CopiesByIndex([Shallow, Shallow, meta, spec], ObjectType(metaType, specType, None).fields);
  }

  /** The deep copy of a policy leaves nothing shared, if that of the object's
      metadata leaves nothing shared. */
  lemma PolicyPlanCopies(meta: Plan, metaType: GoType)
    requires Copies(meta, metaType)
    ensures Copies(PolicyPlan(meta), PolicyType(false, metaType))
  {
    PolicySpecPlanCopies();
    PolicyStatusPlanCopies();
    ObjectCopies(meta, metaType, PolicySpecPlan(), PolicySpecType(false), PolicyStatusPlan(), PolicyStatusType());
  }

  lemma BindingPlanCopies(meta: Plan, metaType: GoType)
    requires Copies(meta, metaType)
    ensures Copies(BindingPlan(meta), BindingType(false, metaType))
  {
    BindingSpecPlanCopies();
    ObjectCopies(meta, metaType, BindingSpecPlan(), BindingSpecType(false), Shallow, TString);
  }

  lemma ListPlanCopies(meta: Plan, metaType: GoType, item: Plan, itemType: GoType)
    requires Copies(meta, metaType) && Copies(item, itemType)
    ensures Copies(ListPlan(meta, item), ListType(metaType, itemType))
  {
    CopiesByIndex([Shallow, Shallow, meta, Renewed(item)], ListType(metaType, itemType).fields);
  }

  // ---- The generated functions ----

  /** The copy has the value of the original, and keeps it whatever is written later
      to the memory of before; the original keeps its value whatever is written to
      the memory that came with the copy. */
  ghost predicate IndependentCopy(m: Memory, w: Memory, t: GoType, s: Slot, out: Slot) {
    var shape := Pointer(ShapeOf(t));
    && (out.Nil? <==> s.Nil?) && Read(w, shape, out) == Read(m, shape, s)
    && (forall v :: SameFrom(w, v, |m|) ==> Read(v, shape, out) == Read(m, shape, s))
    && (forall v :: m <= v ==> Read(v, shape, s) == Read(m, shape, s))
  }

  method CopyObject(heap: Heap, p: Plan, ghost t: GoType, s: Slot) returns (out: Slot)
    requires Copies(p, t) && Placed(heap.cells, Pointer(ShapeOf(t)), s, 0)
    modifies heap
    ensures old(heap.cells) <= heap.cells
    ensures IndependentCopy(old(heap.cells), heap.cells, t, s, out)
  {
    ghost var m, shape := heap.cells, ShapeOf(t);
    out := heap.DeepCopy(p, shape, s);
    forall v: Memory
      ensures SameFrom(heap.cells, v, |m|) ==> Read(v, Pointer(shape), out) == Read(m, Pointer(shape), s)
      ensures m <= v ==> Read(v, Pointer(shape), s) == Read(m, Pointer(shape), s)
    {
      CopyIsIndependent(m, heap.cells, v, Pointer(shape), s, out);
    }
  }

  /** `DeepCopy` of a policy, of a binding, and of a list of policies. */
  method CopyPolicy(heap: Heap, meta: Plan, ghost metaType: GoType, s: Slot) returns (out: Slot)
    requires Copies(meta, metaType) && Placed(heap.cells, Pointer(ShapeOf(PolicyType(false, metaType))), s, 0)
    modifies heap
    ensures old(heap.cells) <= heap.cells
    ensures IndependentCopy(old(heap.cells), heap.cells, PolicyType(false, metaType), s, out)
  {
    PolicyPlanCopies(meta, metaType);
    out := CopyObject(heap, PolicyPlan(meta), PolicyType(false, metaType), s);
  }

  method CopyBinding(heap: Heap, meta: Plan, ghost metaType: GoType, s: Slot) returns (out: Slot)
    requires Copies(meta, metaType) && Placed(heap.cells, Pointer(ShapeOf(BindingType(false, metaType))), s, 0)
    modifies heap
    ensures old(heap.cells) <= heap.cells
    ensures IndependentCopy(old(heap.cells), heap.cells, BindingType(false, metaType), s, out)
  {
    BindingPlanCopies(meta, metaType);
    out := CopyObject(heap, BindingPlan(meta), BindingType(false, metaType), s);
  }

  method CopyPolicyList(
    heap: Heap, listMeta: Plan, ghost listMetaType: GoType, meta: Plan, ghost metaType: GoType, s: Slot)
    returns (out: Slot)
    requires Copies(listMeta, listMetaType) && Copies(meta, metaType)
    requires Placed(heap.cells, Pointer(ShapeOf(ListType(listMetaType, PolicyType(false, metaType)))), s, 0)
    modifies heap
    ensures old(heap.cells) <= heap.cells
    ensures IndependentCopy(old(heap.cells), heap.cells, ListType(listMetaType, PolicyType(false, metaType)), s, out)
  {
    PolicyPlanCopies(meta, metaType);
    ListPlanCopies(listMeta, listMetaType, PolicyPlan(meta), PolicyType(false, metaType));
    ghost var t := ListType(listMetaType, PolicyType(false, metaType));
    out := CopyObject(heap, ListPlan(listMeta, PolicyPlan(meta)), t, s);
  }
}
