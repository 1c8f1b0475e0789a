/**
 * Discovery of the variables an output depends on: a breadth-first search
 * from the output objects over inputs and control inputs, recording the name
 * of every processed operation whose type mentions a variable.
 */
module Discovery {
  import opened Wrappers
  import opened OpGraph
  import opened Strings

  /** The `output_op` argument: one object, or a list or tuple of objects. */
  datatype OutputOps = Single(op: Obj) | Sequence(ops: seq<Obj>)

  /** The search's starting list: a single object is wrapped, a list or tuple is used as given. */
  function Roots(output: OutputOps): (r: seq<Obj>)
    ensures output.Single? ==> |r| == 1 && r[0] == output.op
    ensures output.Sequence? ==> r == output.ops
  {
    match output
    case Single(op) => [op]
    case Sequence(ops) => ops
  }

  /** An op type is treated as a variable when it contains "VarHandle" or "Variable". */
  predicate IsVariableOpType(opType: string)
  {
    Contains(opType, "VarHandle") || Contains(opType, "Variable")
  }

  /**
   * The test is by substring, so besides the variable ops themselves the
   * resource-variable read and assign ops are recorded too.
   */
  lemma VariableOpsAreRecorded()
    ensures IsVariableOpType("VariableV2")
    ensures IsVariableOpType("VarHandleOp")
    ensures IsVariableOpType("ReadVariableOp")
    ensures IsVariableOpType("AssignVariableOp")
  {
    assert OccursAt("VariableV2", "Variable", 0);
    assert OccursAt("VarHandleOp", "VarHandle", 0);
    assert OccursAt("ReadVariableOp", "Variable", 4);
    assert OccursAt("AssignVariableOp", "Variable", 6);
  }

  /** An op type mentioning neither word is not recorded, even when it starts with "Var". */
  lemma InitializedCheckIsNotRecorded()
    ensures !IsVariableOpType("VarIsInitializedOp")
  {
    InitializedCheckLacksVariable();
    InitializedCheckLacksVarHandle();
  }

  lemma InitializedCheckLacksVariable()
    ensures !Contains("VarIsInitializedOp", "Variable")
  {
    MissingCharRulesOut("VarIsInitializedOp", "Variable", 'b');
  }

  lemma InitializedCheckLacksVarHandle()
    ensures !Contains("VarIsInitializedOp", "VarHandle")
  {
    MissingCharRulesOut("VarIsInitializedOp", "VarHandle", 'H');
  }

  lemma ConstIsNotRecorded()
    ensures !IsVariableOpType("Const")
  {
  }

  /** What processing one dequeued object appends to the name list. */
  function NameIfVariable(g: Graph, x: Obj): seq<string>
  {
    if !IsOperation(g, x) then []
    else if IsVariableOpType(g.nodes[Resolve(g, x)].opType) then [g.nodes[Resolve(g, x)].name]
    else []
  }

  /** The name list after processing the objects of `processed` in order. */
  function RecordedNames(g: Graph, processed: seq<Obj>): seq<string>
  {
    if |processed| == 0 then []
    else RecordedNames(g, processed[..|processed| - 1]) + NameIfVariable(g, processed[|processed| - 1])
  }

  /** The names of the variable operations that a set of objects resolves to. */
  function VariableNames(g: Graph, S: set<Obj>): set<string>
  {
    set x | x in S && IsOperation(g, x) && IsVariableOpType(g.nodes[Resolve(g, x)].opType)
      :: g.nodes[Resolve(g, x)].name
  }

  /** As a set, the name list holds exactly the variable names of the processed objects. */
  lemma {:induction false} RecordedNamesAreVariableNames(g: Graph, processed: seq<Obj>)
    ensures Elems(RecordedNames(g, processed)) == VariableNames(g, Elems(processed))
  {
    if |processed| > 0 {
      var front := processed[..|processed| - 1];
      var x := processed[|processed| - 1];
      RecordedNamesAreVariableNames(g, front);
      assert processed == front + [x];
      assert Elems(processed) == Elems(front) + {x};
      assert Elems(NameIfVariable(g, x)) == VariableNames(g, {x});
      assert Elems(RecordedNames(g, processed)) == Elems(RecordedNames(g, front)) + Elems(NameIfVariable(g, x));
      assert VariableNames(g, Elems(front) + {x}) == VariableNames(g, Elems(front)) + VariableNames(g, {x});
    }
  }

  /** No object occurs twice in `s`. */
  predicate Distinct(s: seq<Obj>)
  {
    forall i, j :: 0 <= i < j < |s| ==> s[i] != s[j]
  }

  /**
   * Enqueue each of `items` not explored yet, marking it explored at once.
   * Returns the explored set and the objects appended to the queue.
   */
  method EnqueueNew(explored: set<Obj>, items: seq<Obj>) returns (explored': set<Obj>, added: seq<Obj>)
    ensures forall x :: x in explored' <==> x in explored || x in items
    ensures forall x :: x in added <==> x in items && x !in explored
    ensures Distinct(added)
  {
    explored' := explored;
    added := [];
    var i := 0;
    while i < |items|
      invariant 0 <= i <= |items|
      invariant forall x :: x in explored' <==> x in explored || x in items[..i]
      invariant forall x :: x in added <==> x in items[..i] && x !in explored
      invariant Distinct(added)
    {
      var item := items[i];
      assert items[..i + 1] == items[..i] + [item];
      if item !in explored' {
        added := added + [item];
        explored' := explored' + {item};
      }
      i := i + 1;
    }
    assert items[..i] == items;
  }

  /**
   * Processing one dequeued object that is not `None`: enqueue its new inputs,
   * then its new control inputs.
   */
  method Expand(g: Graph, explored: set<Obj>, x: Obj) returns (explored': set<Obj>, added: seq<Obj>)
    requires IsOperation(g, x)
    ensures forall y :: y in explored' <==> y in explored || y in Successors(g, x)
    ensures forall y :: y in added <==> y in Successors(g, x) && y !in explored
    ensures Distinct(added)
  {
    var node := g.nodes[Resolve(g, x)];
    var fromInputs, fromControls;
    explored', fromInputs := EnqueueNew(explored, node.inputs);
    explored', fromControls := EnqueueNew(explored', node.controlInputs);
    added := fromInputs + fromControls;
    DistinctConcat(fromInputs, fromControls);
  }

  lemma DistinctConcat(a: seq<Obj>, b: seq<Obj>)
    requires Distinct(a) && Distinct(b) && forall y :: y in a ==> y !in b
    ensures Distinct(a + b)
  {
    forall i, j | 0 <= i < j < |a + b| ensures (a + b)[i] != (a + b)[j] {
      if i < |a| && j >= |a| {
        assert (a + b)[i] in a;
        assert (a + b)[j] in b;
      }
    }
  }

  /** Appending to a sequence leaves a prefix of it unchanged and extends the rest. */
  lemma AppendKeepsPrefix(o: seq<Obj>, a: seq<Obj>, k: nat)
    requires k <= |o|
    ensures (o + a)[..k] == o[..k]
    ensures (o + a)[k..] == o[k..] + a
  {
  }

  lemma TakeOneMore(o: seq<Obj>, k: nat)
    requires k < |o|
    ensures o[..k + 1] == o[..k] + [o[k]]
  {
  }

  /** One more processed object. */
  lemma RecordedNamesSnoc(g: Graph, processed: seq<Obj>, x: Obj)
    ensures RecordedNames(g, processed + [x]) == RecordedNames(g, processed) + NameIfVariable(g, x)
  {
  }

  lemma NonEmptyHasMember(s: seq<Obj>)
    requires |s| > 0
    ensures exists y :: y in s
  {
    assert s[0] in s;
  }

  /** If nothing new was explored, nothing was enqueued. */
  lemma NothingNewNothingAdded(added: seq<Obj>, before: set<Obj>, after: set<Obj>)
    requires forall y :: y in added ==> y !in before && y in after
    requires after == before
    ensures |added| == 0
  {
    if |added| > 0 {
      NonEmptyHasMember(added);
      assert false;
    }
  }

  /** Removing more of a finite set leaves fewer behind. */
  lemma RemainderShrinks(U: set<Obj>, A: set<Obj>, B: set<Obj>)
    requires A <= B <= U && A != B
    ensures |U - B| < |U - A|
  {
    var x :| x in B && x !in A;
    var D := (U - A) - (U - B);
    assert x in D;
    assert (U - B) + D == U - A;
    assert (U - B) * D == {};
    assert |D| >= 1;
  }

  /** Appending objects that are new and distinct keeps every enqueued object distinct past the outputs. */
  lemma AppendFresh(roots: seq<Obj>, order: seq<Obj>, added: seq<Obj>)
    requires |roots| <= |order| && order[..|roots|] == roots
    requires forall i, j :: |roots| <= i < j < |order| ==> order[i] != order[j]
    requires forall j :: |roots| <= j < |order| ==> order[j] !in roots
    requires Distinct(added) && forall y :: y in added ==> y !in order
    ensures (order + added)[..|roots|] == roots
    ensures forall i, j :: |roots| <= i < j < |order + added| ==> (order + added)[i] != (order + added)[j]
    ensures forall j :: |roots| <= j < |order + added| ==> (order + added)[j] !in roots
  {
    var o := order + added;
    assert o[..|roots|] == order[..|roots|];
    forall j | |roots| <= j < |o| ensures o[j] !in roots {
      if j >= |order| {
        assert o[j] in added;
        assert forall r :: r in roots ==> r in order;
      }
    }
    forall i, j | |roots| <= i < j < |o| ensures o[i] != o[j] {
      if j >= |order| && i < |order| {
        assert o[j] in added;
        assert o[i] in order;
      }
    }
  }

  /** The state of the search: explored set, queue, every object enqueued so far, recorded names. */
  datatype Search = Search(explored: set<Obj>, queue: seq<Obj>, order: seq<Obj>, recorded: seq<string>)

  /**
   * The order part of the loop invariant, when the first `k` enqueued objects
   * have been processed: the queue is the unprocessed rest of `order`, which
   * starts with the outputs and enqueues nothing past them twice.
   */
  predicate OrderShape(roots: seq<Obj>, st: Search, k: nat)
  {
    && k <= |st.order| && st.queue == st.order[k..]
    && |roots| <= |st.order| && st.order[..|roots|] == roots
    && (forall i, j :: |roots| <= i < j < |st.order| ==> st.order[i] != st.order[j])
    && (forall j :: |roots| <= j < |st.order| ==> st.order[j] !in roots)
  }

  /** The explored set is what was enqueued, and stays inside the reachable objects. */
  ghost predicate ExploredShape(g: Graph, roots: seq<Obj>, st: Search)
  {
    && (forall y :: y in st.explored <==> y in st.order)
    && st.explored <= Universe(g, roots)
    && st.explored <= ReachableSet(g, roots)
  }

  /** Each processed object's successors are explored, and the names of the processed objects are recorded. */
  predicate Progress(g: Graph, st: Search, k: nat)
    requires k <= |st.order|
  {
    && (forall i :: 0 <= i < k ==> SuccessorsIn(g, st.order[i], st.explored))
    && (forall i :: 0 <= i < k ==> Expandable(g, st.order[i]))
    && st.recorded == RecordedNames(g, st.order[..k])
  }

  /** What holds between iterations. */
  ghost predicate SearchInv(g: Graph, roots: seq<Obj>, st: Search, k: nat)
  {
    OrderShape(roots, st, k) && ExploredShape(g, roots, st) && Progress(g, st, k)
  }

  /** Dequeuing `None` only advances the queue. */
  lemma SkipNull(g: Graph, roots: seq<Obj>, st: Search, k: nat)
    requires SearchInv(g, roots, st, k) && |st.queue| > 0 && st.queue[0] == Null
    ensures SearchInv(g, roots, st.(queue := st.queue[1..]), k + 1)
  {
    var x := st.queue[0];
    assert x == st.order[k];
    TakeOneMore(st.order, k);
    RecordedNamesSnoc(g, st.order[..k], x);
  }

  /** What `Expand` promises about its results. */
  ghost predicate Expanded(g: Graph, x: Obj, before: set<Obj>, after: set<Obj>, added: seq<Obj>)
  {
    && (forall y :: y in after <==> y in before || y in Successors(g, x))
    && (forall y :: y in added <==> y in Successors(g, x) && y !in before)
    && Distinct(added)
  }

  /** The state after expanding the head of the queue. */
  function AfterExpand(g: Graph, st: Search, explored: set<Obj>, added: seq<Obj>): Search
    requires |st.queue| > 0
  {
    Search(explored, st.queue[1..] + added, st.order + added, st.recorded + NameIfVariable(g, st.queue[0]))
  }

  lemma ExpandKeepsOrderShape(g: Graph, roots: seq<Obj>, st: Search, k: nat, explored: set<Obj>, added: seq<Obj>)
    requires OrderShape(roots, st, k) && (forall y :: y in st.explored <==> y in st.order) && |st.queue| > 0
    requires Expanded(g, st.queue[0], st.explored, explored, added)
    ensures OrderShape(roots, AfterExpand(g, st, explored, added), k + 1)
  {
    AppendFresh(roots, st.order, added);
    AppendKeepsPrefix(st.order, added, k + 1);
  }

  lemma ExpandKeepsExploredShape(g: Graph, roots: seq<Obj>, st: Search, k: nat, explored: set<Obj>, added: seq<Obj>)
    requires ClosedFrom(g, roots, ReachableSet(g, roots))
    requires OrderShape(roots, st, k) && ExploredShape(g, roots, st) && |st.queue| > 0
    requires Expanded(g, st.queue[0], st.explored, explored, added)
    ensures ExploredShape(g, roots, AfterExpand(g, st, explored, added))
  {
    var x := st.queue[0];
    assert x in st.order;
    SuccessorsInUniverse(g, roots, x);
    assert SuccessorsIn(g, x, ReachableSet(g, roots));
  }

  lemma ExpandKeepsProgress(g: Graph, st: Search, k: nat, explored: set<Obj>, added: seq<Obj>)
    requires k < |st.order| && st.queue == st.order[k..] && Progress(g, st, k) && Expandable(g, st.queue[0])
    requires Expanded(g, st.queue[0], st.explored, explored, added)
    ensures Progress(g, AfterExpand(g, st, explored, added), k + 1)
  {
    var x := st.queue[0];
    assert x == st.order[k];
    TakeOneMore(st.order, k);
    RecordedNamesSnoc(g, st.order[..k], x);
    AppendKeepsPrefix(st.order, added, k + 1);
  }

  /** Processing the head of the queue. */
  method ProcessNext(g: Graph, ghost roots: seq<Obj>, st: Search, ghost k: nat) returns (st': Search, ghost k': nat)
    requires ClosedFrom(g, roots, ReachableSet(g, roots))
    requires SearchInv(g, roots, st, k) && |st.queue| > 0 && Expandable(g, st.queue[0])
    ensures SearchInv(g, roots, st', k') && k' == k + 1
    ensures st.explored <= st'.explored
    ensures |Universe(g, roots) - st'.explored| < |Universe(g, roots) - st.explored|
            || (st'.explored == st.explored && |st'.queue| < |st.queue|)
  {
    var x := st.queue[0];
    k' := k + 1;
    if x == Null {
      SkipNull(g, roots, st, k);
      st' := st.(queue := st.queue[1..]);
    } else {
      var node := g.nodes[Resolve(g, x)];
      var explored, added := Expand(g, st.explored, x);
      var recorded := st.recorded;
      if IsVariableOpType(node.opType) {
        recorded := recorded + [node.name];
      }
      st' := Search(explored, st.queue[1..] + added, st.order + added, recorded);
      assert st' == AfterExpand(g, st, explored, added);
      ExpandKeepsOrderShape(g, roots, st, k, explored, added);
      ExpandKeepsExploredShape(g, roots, st, k, explored, added);
      ExpandKeepsProgress(g, st, k, explored, added);
      if explored != st.explored {
        RemainderShrinks(Universe(g, roots), st.explored, explored);
      } else {
        NothingNewNothingAdded(added, st.explored, explored);
      }
    }
  }

  /** Before the first iteration: the outputs are explored and queued, in their given order. */
  lemma InitialSearchInv(g: Graph, roots: seq<Obj>)
    ensures SearchInv(g, roots, Search(Elems(roots), roots, roots, []), 0)
  {
    RootsInUniverse(g, roots);
    ReachableSetIsClosed(g, roots);
  }

  /** After the last iteration: the explored set is closed, hence exactly the reachable set. */
  lemma FinishedSearch(g: Graph, roots: seq<Obj>, st: Search, k: nat)
    requires SearchInv(g, roots, st, k) && |st.queue| == 0
    ensures st.explored == ReachableSet(g, roots)
    ensures st.recorded == RecordedNames(g, st.order)
    ensures Elems(st.recorded) == VariableNames(g, st.explored)
    ensures forall x :: x in ReachableSet(g, roots) ==> Expandable(g, x)
  {
    assert k == |st.order|;
    assert st.order[..k] == st.order;
    forall x | x in st.explored ensures SuccessorsIn(g, x, st.explored) && Expandable(g, x) {
      var i :| 0 <= i < |st.order| && st.order[i] == x;
    }
    assert ClosedFrom(g, roots, st.explored);
    ReachableSetIsLeast(g, roots, st.explored);
    assert st.explored == Elems(st.order);
    RecordedNamesAreVariableNames(g, st.order);
  }

  /** The head of the queue has been explored, so it is reachable. */
  lemma QueueHeadReachable(g: Graph, roots: seq<Obj>, st: Search, k: nat)
    requires SearchInv(g, roots, st, k) && |st.queue| > 0
    ensures st.queue[0] in ReachableSet(g, roots)
  {
  }

  /** The search's outcome: what it explored, in what order, and the names it recorded. */
  datatype Discovered = Discovered(explored: set<Obj>, order: seq<Obj>, recorded: seq<string>)

  /** An object met by the search that has neither `.op` nor `.inputs`: `TFVariables.__init__` raises `AttributeError` on it. */
  datatype AttributeError = AttributeError(obj: Obj)

  /** Some object reachable from the outputs is not `None` and is not a graph operation. */
  ghost predicate MeetsForeignObject(g: Graph, roots: seq<Obj>)
  {
    exists x :: x in ReachableSet(g, roots) && !Expandable(g, x)
  }

  /**
   * The breadth-first search of the constructor. On success it returns the
   * explored set, every object in the order it was enqueued (which is the
   * order the queue processes them), and the recorded names.
   */
  method Discover(g: Graph, output: OutputOps) returns (r: Result<Discovered, AttributeError>)
    ensures r.Failure? <==> MeetsForeignObject(g, Roots(output))
    ensures r.Failure? ==> r.error.obj in ReachableSet(g, Roots(output)) && !Expandable(g, r.error.obj)
    ensures r.Success? ==>
      var d := r.value;
      && d.explored == ReachableSet(g, Roots(output))
      && (forall x :: x in d.explored <==> x in d.order)
      && |Roots(output)| <= |d.order| && d.order[..|Roots(output)|] == Roots(output)
      && (forall i, j :: |Roots(output)| <= i < j < |d.order| ==> d.order[i] != d.order[j])
      && (forall j :: |Roots(output)| <= j < |d.order| ==> d.order[j] !in Roots(output))
      && d.recorded == RecordedNames(g, d.order)
      && Elems(d.recorded) == VariableNames(g, d.explored)
  {
    var roots := Roots(output);
    ghost var U := Universe(g, roots);
    ReachableSetIsClosed(g, roots);
    InitialSearchInv(g, roots);

    var st := Search(Elems(roots), roots, roots, []);
    ghost var k := 0;
    while |st.queue| != 0
      invariant SearchInv(g, roots, st, k)
      decreases |U - st.explored|, |st.queue|
    {
      var x := st.queue[0];
      if x != Null && !IsOperation(g, x) {
        QueueHeadReachable(g, roots, st, k);
        return Failure(AttributeError(x));
      }
      st, k := ProcessNext(g, roots, st, k);
    }
    FinishedSearch(g, roots, st, k);
    r := Success(Discovered(st.explored, st.order, st.recorded));
  }

  /** When every input and control input is a graph operation or `None`, the search never fails. */
  lemma ClosedGraphMeetsNoForeignObject(g: Graph, roots: seq<Obj>)
    requires Closed(g, roots)
    ensures !MeetsForeignObject(g, roots)
  {
  }
}
