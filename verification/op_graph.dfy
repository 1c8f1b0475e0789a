/**
 * An abstract computation graph, as far as variable discovery looks at it.
 *
 * Objects are tensors or operations, or `Null` for Python's `None`. A tensor
 * resolves to the operation producing it (`tf_object.op`); an operation
 * resolves to itself. Each operation carries its `inputs`, its
 * `control_inputs`, and from its node definition the op type and the name.
 */
module OpGraph {

  datatype Obj = Null | Ref(id: nat)

  datatype Node = Node(inputs: seq<Obj>, controlInputs: seq<Obj>, opType: string, name: string)

  /** `opOf` maps each tensor to its producing operation; `nodes` describes every operation. */
  datatype Graph = Graph(opOf: map<Obj, Obj>, nodes: map<Obj, Node>)

  /** `x.op` if `x` has one, otherwise `x` itself. */
  function Resolve(g: Graph, x: Obj): Obj
  {
    if x in g.opOf then g.opOf[x] else x
  }

  /**
   * `x` resolves to a described operation. `None` is never one: a tensor whose
   * `.op` is `None`, like `None` itself, has no `inputs`.
   */
  predicate IsOperation(g: Graph, x: Obj)
  {
    x != Null && Resolve(g, x) != Null && Resolve(g, x) in g.nodes
  }

  /** The object is `None` or resolves to a described operation. */
  predicate Expandable(g: Graph, x: Obj)
  {
    x == Null || IsOperation(g, x)
  }

  /** An operation's inputs followed by its control inputs. */
  function Edges(g: Graph, op: Obj): seq<Obj>
    requires op in g.nodes
  {
    g.nodes[op].inputs + g.nodes[op].controlInputs
  }

  /** What processing `x` enqueues candidates from: inputs, then control inputs; nothing for `None`. */
  function Successors(g: Graph, x: Obj): seq<Obj>
  {
    if !IsOperation(g, x) then [] else Edges(g, Resolve(g, x))
  }

  function Elems<T>(s: seq<T>): set<T>
  {
    set x | x in s
  }

  /**
   * Every object the search can meet is a real graph object: the outputs and
   * every input and control input of every operation resolve to an operation.
   */
  predicate Closed(g: Graph, roots: seq<Obj>)
  {
    && (forall r :: r in roots ==> Expandable(g, r))
    && (forall y, c :: y in g.nodes && c in Edges(g, y) ==> Expandable(g, c))
  }

  /** All objects that can ever be enqueued: the outputs and every input and control input. */
  function Universe(g: Graph, roots: seq<Obj>): set<Obj>
  {
    Elems(roots) + set y, c | y in g.nodes && c in Edges(g, y) :: c
  }

  /** Everything processing `x` would enqueue is already in `S`. */
  predicate SuccessorsIn(g: Graph, x: Obj, S: set<Obj>)
  {
    forall c :: c in Successors(g, x) ==> c in S
  }

  /** `S` contains the outputs and everything enqueued from its members. */
  ghost predicate ClosedFrom(g: Graph, roots: seq<Obj>, S: set<Obj>)
  {
    && (forall r :: r in roots ==> r in S)
    && (forall x {:trigger SuccessorsIn(g, x, S)} :: x in S ==> SuccessorsIn(g, x, S))
  }

  /** A walk along inputs and control inputs. */
  ghost predicate IsPath(g: Graph, p: seq<Obj>)
  {
    |p| >= 1 && forall i :: 0 <= i < |p| - 1 ==> p[i + 1] in Successors(g, p[i])
  }

  /** `x` is reachable from the outputs through inputs and control inputs. */
  ghost predicate Reachable(g: Graph, roots: seq<Obj>, x: Obj)
  {
    exists p :: IsPath(g, p) && p[0] in roots && p[|p| - 1] == x
  }

  lemma RootReachable(g: Graph, roots: seq<Obj>, r: Obj)
    requires r in roots
    ensures Reachable(g, roots, r)
  {
    assert IsPath(g, [r]);
  }

  /** Extending a walk by one edge. */
  lemma ReachableStep(g: Graph, roots: seq<Obj>, x: Obj, c: Obj)
    requires Reachable(g, roots, x) && c in Successors(g, x)
    ensures Reachable(g, roots, c)
  {
    var p :| IsPath(g, p) && p[0] in roots && p[|p| - 1] == x;
    var q := p + [c];
    assert IsPath(g, q);
    assert q[0] in roots && q[|q| - 1] == c;
  }

  /** Every walk from the outputs stays inside any set closed under the search. */
  lemma {:induction false} PathStaysInClosedSet(g: Graph, roots: seq<Obj>, S: set<Obj>, p: seq<Obj>)
    requires ClosedFrom(g, roots, S) && IsPath(g, p) && p[0] in roots
    ensures p[|p| - 1] in S
  {
    if |p| > 1 {
      var q := p[..|p| - 1];
      assert IsPath(g, q);
      PathStaysInClosedSet(g, roots, S, q);
      assert p[|p| - 1] in Successors(g, q[|q| - 1]);
      assert SuccessorsIn(g, q[|q| - 1], S);
    }
  }

  /** What an operation enqueues lies in the universe. */
  lemma SuccessorsInUniverse(g: Graph, roots: seq<Obj>, x: Obj)
    ensures SuccessorsIn(g, x, Universe(g, roots))
  {
  }

  /** The outputs lie in the universe. */
  lemma RootsInUniverse(g: Graph, roots: seq<Obj>)
    ensures forall r :: r in roots ==> r in Universe(g, roots)
  {
  }

  /** Everything reachable lies in the universe. */
  lemma ReachableInUniverse(g: Graph, roots: seq<Obj>, x: Obj)
    requires Reachable(g, roots, x)
    ensures x in Universe(g, roots)
  {
    var p :| IsPath(g, p) && p[0] in roots && p[|p| - 1] == x;
    if |p| > 1 {
      var y := p[|p| - 2];
      assert x in Successors(g, y);
      var op := Resolve(g, y);
      assert x in Edges(g, op);
    }
  }

  /** The reachable objects, as a finite set. */
  ghost function ReachableSet(g: Graph, roots: seq<Obj>): set<Obj>
  {
    set x | x in Universe(g, roots) && Reachable(g, roots, x)
  }

  /** The reachable set holds exactly the reachable objects. */
  lemma ReachableSetMembers(g: Graph, roots: seq<Obj>)
    ensures forall x :: x in ReachableSet(g, roots) <==> Reachable(g, roots, x)
  {
    forall x | Reachable(g, roots, x) ensures x in ReachableSet(g, roots) {
      ReachableInUniverse(g, roots, x);
    }
  }

  /** The reachable set contains the outputs and is closed under the search. */
  lemma ReachableSetIsClosed(g: Graph, roots: seq<Obj>)
    ensures ClosedFrom(g, roots, ReachableSet(g, roots))
  {
    var R := ReachableSet(g, roots);
    ReachableSetMembers(g, roots);
    forall r | r in roots ensures r in R {
      RootReachable(g, roots, r);
    }
    forall x | x in R ensures SuccessorsIn(g, x, R) {
      forall c | c in Successors(g, x) ensures c in R {
        ReachableStep(g, roots, x, c);
      }
    }
  }

  /** The reachable set lies inside every set closed under the search. */
  lemma ReachableSetIsLeast(g: Graph, roots: seq<Obj>, S: set<Obj>)
    requires ClosedFrom(g, roots, S)
    ensures ReachableSet(g, roots) <= S
  {
    ReachableSetMembers(g, roots);
    forall x | x in ReachableSet(g, roots) ensures x in S {
      var p :| IsPath(g, p) && p[0] in roots && p[|p| - 1] == x;
      PathStaysInClosedSet(g, roots, S, p);
    }
  }
}
