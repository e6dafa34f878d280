/** The generated deep copies. Each starts as a shallow copy of a struct and then
    gives every field that shares memory a new pointer target, slice or map. Which
    fix-ups a type gets is its plan; the copying methods follow a plan on an
    explicit memory. */
module DeepCopy {

  // ---- Memory ----

  /** What of a Go type matters to a copy. A struct is the chain of its fields. */
  datatype Shape = Basic | Pointer(elem: Shape) | Many(elem: Shape) | Fields(first: Shape, rest: Shape) | NoFields

  /** What a variable holds. Structs lie in place; pointers, slices and maps hold an
      address, and differ from `Nil` also when there is nothing in their cell. */
  datatype Slot = Datum(text: string) | Nil | At(addr: nat) | Inline(first: Slot, rest: Slot) | NoSlots

  /** The target of a pointer is one slot. `keys` are those of a map. */
  datatype Cell = Cell(keys: seq<string>, slots: seq<Slot>)

  /** Addresses are positions. */
  type Memory = seq<Cell>

  /** The variable has this shape, and the memory it reaches is there, none of it
      below address `n`. */
  predicate Placed(m: Memory, t: Shape, s: Slot, n: nat)
    decreases t, s
  {
    match t
    case Basic => s.Datum?
    case Pointer(e) =>
      s.Nil? || (s.At? && n <= s.addr < |m| && |m[s.addr].slots| == 1 && AllPlaced(m, e, m[s.addr].slots, n))
    case Many(e) => s.Nil? || (s.At? && n <= s.addr < |m| && AllPlaced(m, e, m[s.addr].slots, n))
    case Fields(f, r) => s.Inline? && Placed(m, f, s.first, n) && Placed(m, r, s.rest, n)
    case NoFields => s.NoSlots?
  }

  predicate AllPlaced(m: Memory, e: Shape, ss: seq<Slot>, n: nat)
    decreases e, ss
  {
    ss == [] || (AllPlaced(m, e, ss[..|ss| - 1], n) && Placed(m, e, ss[|ss| - 1], n))
  }

  /** The value of a variable, with everything it points to. */
  datatype Tree =
    | Word(text: string)
    | Absent
    | Behind(keys: seq<string>, items: seq<Tree>)
    | Both(first: Tree, rest: Tree)
    | End

  function Read(m: Memory, t: Shape, s: Slot): Tree
    decreases t, s
  {
    match s
    case Datum(text) => Word(text)
    case Nil => Absent
    case At(a) =>
      if a < |m| && (t.Pointer? || t.Many?) then Behind(m[a].keys, ReadAll(m, t.elem, m[a].slots)) else Absent
    case Inline(f, r) => if t.Fields? then Both(Read(m, t.first, f), Read(m, t.rest, r)) else End
    case NoSlots => End
  }

  function ReadAll(m: Memory, e: Shape, ss: seq<Slot>): seq<Tree>
    decreases e, ss
  {
    if ss == [] then [] else ReadAll(m, e, ss[..|ss| - 1]) + [Read(m, e, ss[|ss| - 1])]
  }

  /** `w` has the cells of `m` from `n` on, and perhaps more after them. */
  predicate SameFrom(m: Memory, w: Memory, n: nat) {
    |m| <= |w| && forall a :: n <= a < |m| ==> w[a] == m[a]
  }

  /** A variable notices neither new cells nor writes to cells that it cannot reach. */
  lemma {:induction false} ElsewhereKeeps(m: Memory, w: Memory, t: Shape, s: Slot, n: nat)
    requires Placed(m, t, s, n) && SameFrom(m, w, n)
    ensures Placed(w, t, s, n) && Read(w, t, s) == Read(m, t, s)
    decreases t, s
  {
    match s
    case At(a) => ElsewhereKeepsAll(m, w, t.elem, m[a].slots, n);
    case Inline(f, r) =>
      ElsewhereKeeps(m, w, t.first, f, n);
      ElsewhereKeeps(m, w, t.rest, r, n);
    case _ =>
  }

  lemma {:induction false} ElsewhereKeepsAll(m: Memory, w: Memory, e: Shape, ss: seq<Slot>, n: nat)
    requires AllPlaced(m, e, ss, n) && SameFrom(m, w, n)
    ensures AllPlaced(w, e, ss, n) && ReadAll(w, e, ss) == ReadAll(m, e, ss)
    decreases e, ss
  {
    if ss != [] {
      ElsewhereKeepsAll(m, w, e, ss[..|ss| - 1], n);
      ElsewhereKeeps(m, w, e, ss[|ss| - 1], n);
    }
  }

  lemma {:induction false} PlacedFurtherDown(m: Memory, t: Shape, s: Slot, k: nat, n: nat)
    requires Placed(m, t, s, k) && n <= k
    ensures Placed(m, t, s, n)
    decreases t, s
  {
    match s
    case At(a) => AllPlacedFurtherDown(m, t.elem, m[a].slots, k, n);
    case Inline(f, r) =>
      PlacedFurtherDown(m, t.first, f, k, n);
      PlacedFurtherDown(m, t.rest, r, k, n);
    case _ =>
  }

  lemma {:induction false} AllPlacedFurtherDown(m: Memory, e: Shape, ss: seq<Slot>, k: nat, n: nat)
    requires AllPlaced(m, e, ss, k) && n <= k
    ensures AllPlaced(m, e, ss, n)
    decreases e, ss
  {
    if ss != [] {
      AllPlacedFurtherDown(m, e, ss[..|ss| - 1], k, n);
      PlacedFurtherDown(m, e, ss[|ss| - 1], k, n);
    }
  }

  lemma {:induction false} ElementPlaced(m: Memory, e: Shape, ss: seq<Slot>, n: nat, i: nat)
    requires AllPlaced(m, e, ss, n) && i < |ss|
    ensures Placed(m, e, ss[i], n)
    ensures ReadAll(m, e, ss[..i + 1]) == ReadAll(m, e, ss[..i]) + [Read(m, e, ss[i])]
  {
    if i < |ss| - 1 {
      ElementPlaced(m, e, ss[..|ss| - 1], n, i);
      assert ss[..|ss| - 1][..i + 1] == ss[..i + 1] && ss[..|ss| - 1][..i] == ss[..i];
    } else {
      assert ss[..i + 1] == ss;
    }
  }

  // ---- Plans ----

  /** `Shallow` keeps what the assignment of the struct gave; `Renewed` makes a new
      target, slice or map and copies what is in it; `Parts` goes through the fields. */
  datatype Plan = Shallow | Renewed(elems: Plan) | Parts(first: Plan, rest: Plan)

  /** Variables of this shape reach no memory. */
  predicate Flat(t: Shape) {
    t.Basic? || t.NoFields? || (t.Fields? && Flat(t.first) && Flat(t.rest))
  }

  /** The plan is one for this shape, and leaves nothing shared. */
  predicate Covers(p: Plan, t: Shape)
    decreases p
  {
    match p
    case Shallow => Flat(t)
    case Renewed(q) => (t.Pointer? || t.Many?) && Covers(q, t.elem)
    case Parts(f, r) => t.Fields? && Covers(f, t.first) && Covers(r, t.rest)
  }

  lemma {:induction false} FlatReachesNothing(m: Memory, t: Shape, s: Slot, k: nat, n: nat)
    requires Placed(m, t, s, k) && Flat(t)
    ensures Placed(m, t, s, n)
    decreases t, s
  {
    if t.Fields? {
      FlatReachesNothing(m, t.first, s.first, k, n);
      FlatReachesNothing(m, t.rest, s.rest, k, n);
    }
  }

  // ---- Copying ----

  /** In the memory `w`, grown from `m`, `out` reads as `s` did and reaches only what
      is new. */
  predicate IsDeepCopy(m: Memory, w: Memory, t: Shape, s: Slot, out: Slot) {
    m <= w && Placed(m, t, s, 0) && Placed(w, t, out, |m|) && Read(w, t, out) == Read(m, t, s)
  }

  /** The first `i` slots of the cell at `|m|` are copies of those given. */
  predicate CopiedUpTo(m: Memory, w: Memory, e: Shape, source: Cell, i: nat) {
    && m < w && i <= |source.slots|
    && w[|m|].keys == source.keys && |w[|m|].slots| == |source.slots|
    && AllPlaced(w, e, w[|m|].slots[..i], |m| + 1)
    && ReadAll(w, e, w[|m|].slots[..i]) == ReadAll(m, e, source.slots[..i])
  }

  function Written(w: Memory, b: nat, i: nat, x: Slot): Memory
    requires b < |w| && i < |w[b].slots|
  {
    w[b := w[b].(slots := w[b].slots[i := x])]
  }

  /** Writing the copy of one more slot. The writes to the new cell go unnoticed by
      the copies in it, since those reach only cells after it. */
  lemma OneMoreCopied(m: Memory, w: Memory, v: Memory, e: Shape, source: Cell, i: nat, x: Slot)
    requires CopiedUpTo(m, w, e, source, i) && AllPlaced(m, e, source.slots, 0) && i < |source.slots|
    requires IsDeepCopy(w, v, e, source.slots[i], x)
    ensures CopiedUpTo(m, Written(v, |m|, i, x), e, source, i + 1)
  {
    var b := |m|;
    var u := Written(v, b, i, x);
    var done := w[b].slots[..i];
    ElementPlaced(m, e, source.slots, 0, i);
    ElsewhereKeeps(m, w, e, source.slots[i], 0);
    PlacedFurtherDown(v, e, x, |w|, b + 1);
    ElsewhereKeeps(v, u, e, x, b + 1);
    ElsewhereKeepsAll(w, u, e, done, b + 1);
    assert u[b].slots[..i + 1] == done + [x];
    assert (done + [x])[..i] == done;
  }

  class Heap {
    var cells: Memory

    constructor (cells: Memory)
      ensures this.cells == cells
    {
      this.cells := cells;
    }

    /** `DeepCopyInto`; the result is what the variable that `out` points to holds at
        the end. */
    method DeepCopyInto(p: Plan, ghost t: Shape, s: Slot) returns (out: Slot)
      requires Placed(cells, t, s, 0) && Covers(p, t)
      modifies this
      ensures IsDeepCopy(old(cells), cells, t, s, out)
      decreases p, 0
    {
      out := s;
      match p
      case Shallow =>
        FlatReachesNothing(cells, t, s, 0, |cells|);
      case Renewed(q) =>
        if !s.Nil? {
          out := Renew(q, t, s.addr);
        }
      case Parts(f, r) =>
        ghost var m := cells;
        var x := DeepCopyInto(f, t.first, s.first);
        out := out.(first := x);
        ghost var w := cells;
        ElsewhereKeeps(m, w, t.rest, s.rest, 0);
        var y := DeepCopyInto(r, t.rest, s.rest);
        out := out.(rest := y);
        ElsewhereKeeps(w, cells, t.first, x, |m|);
        PlacedFurtherDown(cells, t.rest, y, |w|, |m|);
    }

    /** `new` or `make`, and a copy of each slot into its place. */
    method Renew(q: Plan, ghost t: Shape, a: nat) returns (out: Slot)
      requires (t.Pointer? || t.Many?) && Placed(cells, t, At(a), 0) && Covers(q, t.elem)
      modifies this
      ensures IsDeepCopy(old(cells), cells, t, At(a), out)
      decreases q, 1
    {
      var source := cells[a];
      var b := |cells|;
      ghost var m := cells;
      cells := cells + [Cell(source.keys, seq(|source.slots|, _ => Nil))];
      for i := 0 to |source.slots|
        invariant CopiedUpTo(m, cells, t.elem, source, i)
      {
        ghost var w := cells;
        ElementPlaced(m, t.elem, source.slots, 0, i);
        ElsewhereKeeps(m, w, t.elem, source.slots[i], 0);
        var x := DeepCopyInto(q, t.elem, source.slots[i]);
        OneMoreCopied(m, w, cells, t.elem, source, i, x);
        cells := Written(cells, b, i, x);
      }
      Filled(m, cells, t, a);
      out := At(b);
    }

    /** `DeepCopy`, of a pointer that may be nil. */
    method DeepCopy(p: Plan, ghost e: Shape, s: Slot) returns (out: Slot)
      requires Placed(cells, Pointer(e), s, 0) && Covers(p, e)
      modifies this
      ensures IsDeepCopy(old(cells), cells, Pointer(e), s, out)
      ensures out.Nil? <==> s.Nil?
    {
      if s.Nil? {
        return Nil;
      }
      out := Renew(p, Pointer(e), s.addr);
    }
  }

  lemma Filled(m: Memory, w: Memory, t: Shape, a: nat)
    requires (t.Pointer? || t.Many?) && Placed(m, t, At(a), 0)
    requires CopiedUpTo(m, w, t.elem, m[a], |m[a].slots|)
    ensures IsDeepCopy(m, w, t, At(a), At(|m|))
  {
    var slots := w[|m|].slots;
    assert slots[..|m[a].slots|] == slots && m[a].slots[..|m[a].slots|] == m[a].slots;
    AllPlacedFurtherDown(w, t.elem, slots, |m| + 1, |m|);
  }

  // ---- What a deep copy is good for ----

  /** Any later writes to the memory of before the copy leave the copy alone, and any
      writes to the memory that came with the copy leave the original alone. */
  lemma CopyIsIndependent(m: Memory, w: Memory, v: Memory, t: Shape, s: Slot, out: Slot)
    requires IsDeepCopy(m, w, t, s, out)
    ensures SameFrom(w, v, |m|) ==> Read(v, t, out) == Read(m, t, s)
    ensures m <= v ==> Read(v, t, s) == Read(m, t, s)
  {
    if SameFrom(w, v, |m|) {
      ElsewhereKeeps(w, v, t, out, |m|);
    }
    if m <= v {
      ElsewhereKeeps(m, v, t, s, 0);
    }
  }

  /** Nil slices, maps and pointers are copied as nil, and empty ones as empty. */
  lemma NilAndEmptyStayApart(m: Memory, w: Memory, t: Shape, s: Slot, out: Slot)
    requires IsDeepCopy(m, w, t, s, out) && (t.Pointer? || t.Many?)
    ensures out.Nil? <==> s.Nil?
    ensures s.At? ==> |w[out.addr].slots| == |m[s.addr].slots| && out.addr != s.addr
  {
    if s.At? {
      assert |ReadAll(w, t.elem, w[out.addr].slots)| == |w[out.addr].slots| by {
        ReadAllLength(w, t.elem, w[out.addr].slots);
      }
      ReadAllLength(m, t.elem, m[s.addr].slots);
    }
  }

  lemma {:induction false} ReadAllLength(m: Memory, e: Shape, ss: seq<Slot>)
    ensures |ReadAll(m, e, ss)| == |ss|
  {
    if ss != [] {
      ReadAllLength(m, e, ss[..|ss| - 1]);
    }
  }

  /** Go's zero value, which is there in any memory. */
  function Zero(t: Shape): Slot {
    match t
    case Basic => Datum("")
    case Fields(f, r) => Inline(Zero(f), Zero(r))
    case NoFields => NoSlots
    case _ => Nil
  }

  lemma {:induction false} ZeroIsPlaced(m: Memory, t: Shape, n: nat)
    ensures Placed(m, t, Zero(t), n)
  {
    if t.Fields? {
      ZeroIsPlaced(m, t.first, n);
      ZeroIsPlaced(m, t.rest, n);
    }
  }

  /** The assignment alone is a deep copy of every variable exactly if the shape is
      flat: a shape with a pointer, slice or map in it has a variable whose shallow
      copy shares memory with it. */
  lemma ShallowSufficesExactly(t: Shape)
    ensures Flat(t) <==> forall m, s :: Placed(m, t, s, 0) ==> IsDeepCopy(m, m, t, s, s)
  {
    if Flat(t) {
      forall m: Memory, s | Placed(m, t, s, 0) ensures IsDeepCopy(m, m, t, s, s) {
        FlatReachesNothing(m, t, s, 0, |m|);
      }
    } else {
      var m, s := Shared(t);
      assert Placed(m, t, s, 0) && !IsDeepCopy(m, m, t, s, s);
    }
  }

  lemma {:induction false} Shared(t: Shape) returns (m: Memory, s: Slot)
    requires !Flat(t)
    ensures Placed(m, t, s, 0) && !Placed(m, t, s, |m|)
  {
    if t.Pointer? || t.Many? {
      m, s := [Cell([], [Zero(t.elem)])], At(0);
      ZeroIsPlaced(m, t.elem, 0);
      assert m[0].slots[..0] == [];
    } else if !Flat(t.first) {
      m, s := Shared(t.first);
      s := Inline(s, Zero(t.rest));
      ZeroIsPlaced(m, t.rest, 0);
    } else {
      m, s := Shared(t.rest);
      s := Inline(Zero(t.first), s);
      ZeroIsPlaced(m, t.first, 0);
    }
  }

  // ---- What reading the same means ----

  /** Same texts, same nils, same lengths and keys, and the same again behind every
      pointer, slice and map. */
  predicate Same(m: Memory, w: Memory, t: Shape, s: Slot, out: Slot)
    decreases t, s
  {
    match t
    case Basic => s.Datum? && out.Datum? && s.text == out.text
    case Fields(f, r) =>
      && s.Inline? && out.Inline?
      && Same(m, w, f, s.first, out.first) && Same(m, w, r, s.rest, out.rest)
    case NoFields => true
    case _ =>
      || (s.Nil? && out.Nil?)
      || (s.At? && out.At? && s.addr < |m| && out.addr < |w| && m[s.addr].keys == w[out.addr].keys
          && AllSame(m, w, t.elem, m[s.addr].slots, w[out.addr].slots))
  }

  predicate AllSame(m: Memory, w: Memory, e: Shape, ss: seq<Slot>, outs: seq<Slot>)
    decreases e, ss
  {
    |ss| == |outs| && forall i :: 0 <= i < |ss| ==> Same(m, w, e, ss[i], outs[i])
  }

  lemma {:induction false} SameExactly(m: Memory, w: Memory, t: Shape, s: Slot, out: Slot)
    requires Placed(m, t, s, 0) && Placed(w, t, out, 0)
    ensures Read(m, t, s) == Read(w, t, out) <==> Same(m, w, t, s, out)
    decreases t, s
  {
    match t
    case Basic =>
    case NoFields =>
    case Fields(f, r) =>
      SameExactly(m, w, f, s.first, out.first);
      SameExactly(m, w, r, s.rest, out.rest);
    case _ =>
      if s.At? && out.At? {
        AllSameExactly(m, w, t.elem, m[s.addr].slots, w[out.addr].slots);
      }
  }

  lemma {:induction false} AllSameExactly(m: Memory, w: Memory, e: Shape, ss: seq<Slot>, outs: seq<Slot>)
    requires AllPlaced(m, e, ss, 0) && AllPlaced(w, e, outs, 0)
    ensures ReadAll(m, e, ss) == ReadAll(w, e, outs) <==> AllSame(m, w, e, ss, outs)
    decreases e, ss
  {
    ReadAllLength(m, e, ss);
    ReadAllLength(w, e, outs);
    if ss != [] && |ss| == |outs| {
      var n := |ss| - 1;
      AllSameExactly(m, w, e, ss[..n], outs[..n]);
      SameExactly(m, w, e, ss[n], outs[n]);
      LastApart(ReadAll(m, e, ss[..n]), Read(m, e, ss[n]), ReadAll(w, e, outs[..n]), Read(w, e, outs[n]));
      ReadAllLength(m, e, ss[..n]);
      ReadAllLength(w, e, outs[..n]);
      AllSameApart(m, w, e, ss, outs);
    }
  }

  lemma AllSameApart(m: Memory, w: Memory, e: Shape, ss: seq<Slot>, outs: seq<Slot>)
    requires ss != [] && |ss| == |outs|
    ensures var n := |ss| - 1;
      AllSame(m, w, e, ss, outs) <==> AllSame(m, w, e, ss[..n], outs[..n]) && Same(m, w, e, ss[n], outs[n])
  {
    var n := |ss| - 1;
    forall i | 0 <= i < n ensures ss[..n][i] == ss[i] && outs[..n][i] == outs[i] {}
  }

  lemma LastApart(a: seq<Tree>, x: Tree, b: seq<Tree>, y: Tree)
    ensures |a| == |b| ==> (a + [x] == b + [y] <==> a == b && x == y)
  {
    if |a| == |b| && a + [x] == b + [y] {
      assert (a + [x])[..|a|] == a && (b + [y])[..|b|] == b;
      assert (a + [x])[|a|] == x && (b + [y])[|b|] == y;
    }
  }

  /** A deep copy is the same throughout. */
  lemma CopyIsSame(m: Memory, w: Memory, t: Shape, s: Slot, out: Slot)
    requires IsDeepCopy(m, w, t, s, out)
    ensures Same(m, w, t, s, out)
  {
    PlacedFurtherDown(w, t, out, |m|, 0);
    SameExactly(m, w, t, s, out);
  }
}
