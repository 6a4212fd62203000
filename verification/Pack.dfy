/** Rule packs, after compliance/pack.py: the checks made when a pack loads and the dependency order
    of its derived boxes. YAML loading is left out: a pack arrives as dictionaries in file order. */
module Pack {
  import opened Wrappers
  import opened Formula
  import opened Sets
  import opened Graphs
  import opened Sequences

  datatype FormulaText = Missing | Unparseable | Parsed(node: Node)

  datatype BoxDef = BoxDef(id: string, title: string, derived: bool, formula: FormulaText, wholePounds: bool)

  /** The boxes dictionary: its keys in insertion order, and its entries. */
  datatype BoxTable = BoxTable(keys: seq<string>, defs: map<string, BoxDef>) {
    ghost predicate Valid() {
      && Distinct(keys)
      && (forall b :: b in keys <==> b in defs)
      && (forall b | b in defs :: defs[b].id == b)
    }

    predicate Derived(b: string) {
      b in defs && defs[b].derived
    }

    ghost function DerivedBoxes(): set<string> {
      set b | b in defs && defs[b].derived
    }

    /** The derived boxes the formula of b refers to. */
    ghost function Deps(b: string): set<string> {
      if Derived(b) && defs[b].formula.Parsed? then Refs(defs[b].formula.node) * DerivedBoxes() else {}
    }
  }

  datatype PackError =
    | NoFormula(box: string)
    | BadFormula(box: string)
    | UnknownRef(box: string, ref: string)
    | Cyclic(box: string)
    | UnknownMapping(code: string, box: string)

  // ---------------------------------------------------------------- what the loader promises

  ghost predicate FormulaAccepted(boxes: BoxTable, b: string)
    requires b in boxes.defs
  {
    var f := boxes.defs[b].formula;
    f.Parsed? && Check(f.node) && Refs(f.node) <= boxes.defs.Keys
  }

  ghost predicate FormulasAccepted(boxes: BoxTable) {
    forall b | boxes.Derived(b) :: FormulaAccepted(boxes, b)
  }

  /** The dependencies the formulas report, as a graph over the derived boxes. */
  ghost function ReferenceGraph(boxes: BoxTable): Graph {
    (b: string) => boxes.Deps(b)
  }

  ghost predicate Acyclic(boxes: BoxTable) {
    NoCycle(ReferenceGraph(boxes))
  }

  /** The box depends on itself, through some chain of references. */
  ghost predicate OnCycle(boxes: BoxTable, b: string) {
    exists p :: Cycle(ReferenceGraph(boxes), p) && p[0] == b
  }

  /** The error names a box whose formula is at fault in the way it says. */
  ghost predicate Explains(boxes: BoxTable, e: PackError) {
    match e
    case NoFormula(b) => boxes.Derived(b) && boxes.defs[b].formula.Missing?
    case BadFormula(b) =>
      && boxes.Derived(b) && !boxes.defs[b].formula.Missing?
      && (boxes.defs[b].formula.Parsed? ==> !Check(boxes.defs[b].formula.node))
    case UnknownRef(b, ref) =>
      && boxes.Derived(b) && boxes.defs[b].formula.Parsed? && Check(boxes.defs[b].formula.node)
      && ref in Refs(boxes.defs[b].formula.node) && ref !in boxes.defs
    case Cyclic(b) => FormulasAccepted(boxes) && OnCycle(boxes, b)
    case UnknownMapping(_, b) => b !in boxes.defs
  }

  /** Every element comes after all the derived boxes its formula refers to. */
  ghost predicate DepsFirst(boxes: BoxTable, order: seq<string>) {
    Ordered(ReferenceGraph(boxes), order)
  }

  /** The order lists every derived box exactly once, after every derived box it depends on. */
  ghost predicate Topological(boxes: BoxTable, order: seq<string>) {
    && Distinct(order)
    && (forall b :: b in order <==> boxes.Derived(b))
    && DepsFirst(boxes, order)
  }

  /** A topological order exists only for acyclic packs. */
  lemma TopologicalIsAcyclic(boxes: BoxTable, order: seq<string>)
    requires Topological(boxes, order)
    ensures Acyclic(boxes)
  {
    OrderedHasNoCycle(ReferenceGraph(boxes), order);
  }

  // ---------------------------------------------------------------- the depth-first sort

  /** What the visits in progress maintain; stack is the chain of these visits, outermost first. */
  ghost predicate SortState(boxes: BoxTable, order: seq<string>, done: set<string>, visiting: set<string>, stack: seq<string>) {
    && Distinct(order)
    && (forall b :: b in order <==> b in done)
    && done <= boxes.DerivedBoxes()
    && DepsFirst(boxes, order)
    && Walk(ReferenceGraph(boxes), stack)
    && (forall b :: b in stack <==> b in visiting)
    && visiting <= boxes.DerivedBoxes()
    && done !! visiting
  }

  lemma Enter(boxes: BoxTable, order: seq<string>, done: set<string>, visiting: set<string>, stack: seq<string>, b: string)
    requires SortState(boxes, order, done, visiting, stack)
    requires boxes.Derived(b) && b !in done && b !in visiting
    requires stack != [] ==> b in boxes.Deps(stack[|stack| - 1])
    ensures SortState(boxes, order, done, visiting + {b}, stack + [b])
    ensures visiting < visiting + {b} <= boxes.DerivedBoxes()
  {
  }

  lemma Leave(boxes: BoxTable, order: seq<string>, done: set<string>, visiting: set<string>, stack: seq<string>, b: string)
    requires SortState(boxes, order, done, visiting + {b}, stack + [b])
    requires b !in visiting && forall x :: x in stack <==> x in visiting
    requires boxes.Deps(b) <= done
    ensures SortState(boxes, order + [b], done + {b}, visiting, stack)
  {
    assert b in stack + [b];
    Place(ReferenceGraph(boxes), order, b);
    forall i | 0 <= i < |stack| - 1
      ensures stack[i + 1] in ReferenceGraph(boxes)(stack[i])
    {
      assert (stack + [b])[i + 1] in ReferenceGraph(boxes)((stack + [b])[i]);
    }
  }

  lemma SortStateStack(boxes: BoxTable, order: seq<string>, done: set<string>, visiting: set<string>, stack: seq<string>)
    requires SortState(boxes, order, done, visiting, stack)
    ensures Walk(ReferenceGraph(boxes), stack) && forall x :: x in stack <==> x in visiting
  {
  }

  /** The state shared by the nested visits. */
  class DerivationSorter {
    const boxes: BoxTable
    var order: seq<string>
    var done: set<string>
    var visiting: set<string>

    constructor (boxes: BoxTable)
      ensures this.boxes == boxes && order == [] && done == {} && visiting == {}
    {
      this.boxes := boxes;
      order, done, visiting := [], {}, {};
    }

    ghost predicate Valid(stack: seq<string>)
      reads this
    {
      SortState(boxes, order, done, visiting, stack)
    }

    /** Visits a derived box: either it and everything it depends on are placed, or there is a cycle. */
    method Visit(b: string, ghost stack: seq<string>) returns (error: Option<PackError>)
      requires FormulasAccepted(boxes) && Valid(stack)
      requires boxes.Derived(b) && (stack != [] ==> b in boxes.Deps(stack[|stack| - 1]))
      modifies this
      ensures error.None? ==>
                Valid(stack) && visiting == old(visiting) && old(order) <= order && old(done) + {b} <= done
      ensures error.Some? ==> error.value.Cyclic? && OnCycle(boxes, error.value.box)
      decreases boxes.DerivedBoxes() - visiting, 1
    {
      hide SortState, OnCycle, Walk;
      if b in done {
        return None;
      }
      SortStateStack(boxes, order, done, visiting, stack);
      if b in visiting {
        CycleOnStack(boxes, stack, b);
        return Some(Cyclic(b));
      }
      Enter(boxes, order, done, visiting, stack, b);
      visiting := visiting + {b};
      assert FormulaAccepted(boxes, b);
      error := VisitRefs(Refs(boxes.defs[b].formula.node), b, stack);
      if error.Some? {
        return error;
      }
      visiting := visiting - {b};
      assert visiting == old(visiting);
      Leave(boxes, order, done, visiting, stack, b);
      done := done + {b};
      order := order + [b];
    }

    /** The loop of one visit over the names its formula refers to. */
    method VisitRefs(refs: set<string>, b: string, ghost stack: seq<string>) returns (error: Option<PackError>)
      requires FormulasAccepted(boxes) && Valid(stack + [b])
      requires refs * boxes.DerivedBoxes() == boxes.Deps(b)
      modifies this
      ensures error.None? ==>
                Valid(stack + [b]) && visiting == old(visiting) && old(order) <= order
                && old(done) + boxes.Deps(b) <= done
      ensures error.Some? ==> error.value.Cyclic? && OnCycle(boxes, error.value.box)
      decreases boxes.DerivedBoxes() - visiting, 2
    {
      hide SortState, OnCycle, FormulasAccepted;
      var todo := refs;
      while todo != {}
        invariant todo <= refs
        invariant Valid(stack + [b]) && visiting == old(visiting) && old(order) <= order && old(done) <= done
        invariant (refs - todo) * boxes.DerivedBoxes() <= done
        decreases todo
      {
        var ref := AnyOf(todo);
        if boxes.Derived(ref) {
          assert ref in refs * boxes.DerivedBoxes();
          error := Visit(ref, stack + [b]);
          if error.Some? {
            return error;
          }
        }
        todo := todo - {ref};
      }
      error := None;
    }
  }

  lemma CycleOnStack(boxes: BoxTable, stack: seq<string>, b: string)
    requires Walk(ReferenceGraph(boxes), stack) && b in stack && b in boxes.Deps(stack[|stack| - 1])
    ensures OnCycle(boxes, b)
  {
    var k :| 0 <= k < |stack| && stack[k] == b;
    var p := stack[k..] + [b];
    assert Cycle(ReferenceGraph(boxes), p);
  }

  /** Checks every derived box's formula and orders the derived boxes by dependency. It succeeds
      exactly when all formulas are accepted and the dependencies have no cycle. */
  method ValidateDerivations(boxes: BoxTable) returns (r: Result<seq<string>, PackError>)
    requires boxes.Valid()
    ensures r.Ok? <==> FormulasAccepted(boxes) && Acyclic(boxes)
    ensures r.Ok? ==> Topological(boxes, r.value)
    ensures r.Err? ==> !r.error.UnknownMapping? && Explains(boxes, r.error)
  {
    for i := 0 to |boxes.keys|
      invariant forall j | 0 <= j < i && boxes.Derived(boxes.keys[j]) :: FormulaAccepted(boxes, boxes.keys[j])
    {
      var b := boxes.keys[i];
      var box := boxes.defs[b];
      if box.derived {
        if box.formula.Missing? {
          assert !FormulaAccepted(boxes, b);
          return Err(NoFormula(b));
        }
        if box.formula.Unparseable? || !Check(box.formula.node) {
          assert !FormulaAccepted(boxes, b);
          return Err(BadFormula(b));
        }
        var refs := Refs(box.formula.node);
        var todo := refs;
        while todo != {}
          invariant todo <= refs && refs - todo <= boxes.defs.Keys
          decreases todo
        {
          var ref := AnyOf(todo);
          if ref !in boxes.defs {
            assert !FormulaAccepted(boxes, b);
            return Err(UnknownRef(b, ref));
          }
          todo := todo - {ref};
        }
      }
    }
    assert FormulasAccepted(boxes);

    var sorter := new DerivationSorter(boxes);
    for i := 0 to |boxes.keys|
      invariant sorter.boxes == boxes && sorter.Valid([]) && fresh(sorter)
      invariant forall j | 0 <= j < i && boxes.Derived(boxes.keys[j]) :: boxes.keys[j] in sorter.done
    {
      var b := boxes.keys[i];
      if boxes.Derived(b) {
        var e := sorter.Visit(b, []);
        if e.Some? {
          return Err(e.value);
        }
      }
    }
    TopologicalIsAcyclic(boxes, sorter.order);
    return Ok(sorter.order);
  }

  // ---------------------------------------------------------------- loading

  /** A code's treatment; the mappings are dictionaries from contribution kind to box, as pairs. */
  datatype CodeRule = CodeRule(code: string, title: string, rate: real, citationRef: string,
                               ar: seq<(string, string)>, ap: seq<(string, string)>)

  datatype RulePack = RulePack(reference: string, boxDp: int, codes: map<string, CodeRule>,
                               boxes: BoxTable, derivationOrder: seq<string>)

  ghost predicate MappingKnown(mapping: seq<(string, string)>, boxes: BoxTable) {
    forall m | m in mapping :: m.1 in boxes.defs
  }

  ghost predicate MappingsKnown(codes: map<string, CodeRule>, boxes: BoxTable) {
    forall c | c in codes :: MappingKnown(codes[c].ar, boxes) && MappingKnown(codes[c].ap, boxes)
  }

  /** What a loaded pack guarantees to the engine. */
  ghost predicate Loaded(pack: RulePack) {
    && pack.boxes.Valid()
    && MappingsKnown(pack.codes, pack.boxes)
    && FormulasAccepted(pack.boxes)
    && Topological(pack.boxes, pack.derivationOrder)
  }

  method CheckMapping(code: string, mapping: seq<(string, string)>, boxes: BoxTable) returns (error: Option<PackError>)
    ensures error.None? <==> MappingKnown(mapping, boxes)
    ensures error.Some? ==>
              && error.value.UnknownMapping? && error.value.code == code && error.value.box !in boxes.defs
              && exists m :: m in mapping && m.1 == error.value.box
  {
    for i := 0 to |mapping|
      invariant forall j | 0 <= j < i :: mapping[j].1 in boxes.defs
    {
      if mapping[i].1 !in boxes.defs {
        assert mapping[i] in mapping;
        return Some(UnknownMapping(code, mapping[i].1));
      }
    }
    return None;
  }

  /** Builds a pack, or refuses it: it loads exactly when every mapping names a known box, every derived
      formula is accepted, and the derivations have no cycle. */
  method ParsePack(reference: string, boxDp: int, codeKeys: seq<string>, codes: map<string, CodeRule>, boxes: BoxTable)
    returns (r: Result<RulePack, PackError>)
    requires boxes.Valid() && forall c :: c in codeKeys <==> c in codes
    ensures r.Ok? <==> MappingsKnown(codes, boxes) && FormulasAccepted(boxes) && Acyclic(boxes)
    ensures r.Err? ==> Explains(boxes, r.error) && (r.error.UnknownMapping? <==> !MappingsKnown(codes, boxes))
    ensures r.Ok? ==> Loaded(r.value) && r.value.boxes == boxes && r.value.codes == codes && r.value.boxDp == boxDp
                       && r.value.reference == reference
  {
    hide Acyclic, FormulasAccepted, Topological, MappingKnown;
    for i := 0 to |codeKeys|
      invariant forall j | 0 <= j < i ::
                  MappingKnown(codes[codeKeys[j]].ar, boxes) && MappingKnown(codes[codeKeys[j]].ap, boxes)
    {
      var rule := codes[codeKeys[i]];
      var e := CheckMapping(rule.code, rule.ar, boxes);
      if e.Some? {
        return Err(e.value);
      }
      e := CheckMapping(rule.code, rule.ap, boxes);
      if e.Some? {
        return Err(e.value);
      }
    }
    var derivations := ValidateDerivations(boxes);
    if derivations.Err? {
      return Err(derivations.error);
    }
    return Ok(RulePack(reference, boxDp, codes, boxes, derivations.value));
  }
}
