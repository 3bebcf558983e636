/**
 * pl.zb3.freej2me.MainClassFinder: find the most specialised non-abstract
 * class extending MIDlet by a breadth-first walk down the subclass graph.
 * The classes ASM reports from the jar are given as input; reading the jar
 * is not modelled.
 */
module MainClassFinder {
  import opened Wrappers
  import JavaString

  const TargetMainClass: string := "javax/microedition/midlet/MIDlet"

  datatype ClassInfo = ClassInfo(name: string, superName: Option<string>, isAbstract: bool)

  /** What HierarchyBuildingVisitor has seen of one class file when visitEnd runs. */
  datatype VisitedClass = VisitedClass(name: Option<string>, superName: Option<string>, isAbstract: bool)

  datatype ClassDepth = ClassDepth(className: string, depth: nat)

  /**
   * parseAllClasses: each class file whose name and super name are both
   * known is recorded under its name, a later file replacing an earlier one.
   */
  function ClassMap(visited: seq<VisitedClass>): (r: map<string, ClassInfo>)
    ensures forall n :: n in r ==> r[n].name == n && r[n].superName.Some?
  {
    if visited == [] then map[]
    else
      var c := visited[|visited| - 1];
      var before := ClassMap(visited[..|visited| - 1]);
      if c.name.Some? && c.superName.Some? then before[c.name.value := ClassInfo(c.name.value, c.superName, c.isAbstract)]
      else before
  }

  /** A class file without a super name (java/lang/Object) is never recorded. */
  lemma {:induction false} NoSuperNeverRecorded(visited: seq<VisitedClass>, n: string)
    requires forall i :: 0 <= i < |visited| && visited[i].name == Some(n) ==> visited[i].superName.None?
    ensures n !in ClassMap(visited)
  {
    if visited != [] {
      NoSuperNeverRecorded(visited[..|visited| - 1], n);
    }
  }

  /** `order` lists each recorded class once: the iteration order of the HashMap's values. */
  predicate IsOrderOf(order: seq<string>, classes: map<string, ClassInfo>)
  {
    && (forall i :: 0 <= i < |order| ==> order[i] in classes)
    && (forall n :: n in classes ==> n in order)
    && (forall i, j :: 0 <= i < j < |order| ==> order[i] != order[j])
  }

  /** The subclasses of `parent` among `order`, in that order. */
  function ChildrenIn(classes: map<string, ClassInfo>, order: seq<string>, parent: string): (r: seq<string>)
    requires forall i :: 0 <= i < |order| ==> order[i] in classes
    ensures forall c :: c in r <==> c in order && classes[c].superName == Some(parent)
  {
    if order == [] then []
    else
      var n := order[|order| - 1];
      ChildrenIn(classes, order[..|order| - 1], parent) + (if classes[n].superName == Some(parent) then [n] else [])
  }

  lemma ChildrenInStep(classes: map<string, ClassInfo>, order: seq<string>, i: nat, parent: string)
    requires i < |order| && forall j :: 0 <= j < |order| ==> order[j] in classes
    ensures ChildrenIn(classes, order[..i + 1], parent)
            == ChildrenIn(classes, order[..i], parent) + (if classes[order[i]].superName == Some(parent) then [order[i]] else [])
  {
    assert order[..i + 1][..i] == order[..i];
  }

  /** childrenMap.getOrDefault(parent, emptyList()). */
  function Kids(children: map<string, seq<string>>, parent: string): seq<string>
  {
    if parent in children then children[parent] else []
  }

  /** Every child named in the children map is a recorded class. */
  predicate ChildrenKnown(children: map<string, seq<string>>, classes: map<string, ClassInfo>)
  {
    forall p :: p in children ==> forall i :: 0 <= i < |children[p]| ==> children[p][i] in classes
  }

  /** `n` is reached from `start` by `d` steps from a class to one of its subclasses. */
  ghost predicate ReachableAt(children: map<string, seq<string>>, start: string, n: string, d: nat)
    decreases d
  {
    if d == 0 then n == start
    else exists p :: ReachableAt(children, start, p, d - 1) && n in Kids(children, p)
  }

  /** The names of a list of pairs, in order. */
  function NamesOf(s: seq<ClassDepth>): (r: seq<string>)
    ensures |r| == |s| && forall i :: 0 <= i < |s| ==> r[i] == s[i].className
  {
    if s == [] then [] else NamesOf(s[..|s| - 1]) + [s[|s| - 1].className]
  }

  /** No class name occurs twice. */
  predicate DistinctNames(s: seq<ClassDepth>)
  {
    forall i, j :: 0 <= i < j < |s| ==> s[i].className != s[j].className
  }

  /** The non-abstract entries of `done`, in order: the candidates list. */
  function NonAbstract(classes: map<string, ClassInfo>, done: seq<ClassDepth>): (r: seq<ClassDepth>)
    requires forall i :: 0 <= i < |done| ==> done[i].className in classes
    ensures forall x :: x in r <==> x in done && !classes[x.className].isAbstract
  {
    if done == [] then []
    else
      var x := done[|done| - 1];
      NonAbstract(classes, done[..|done| - 1]) + (if classes[x.className].isAbstract then [] else [x])
  }

  /** Index of the first pair of greatest depth. */
  function FirstDeepest(cs: seq<ClassDepth>): (i: nat)
    requires cs != []
    ensures i < |cs|
    ensures forall j :: 0 <= j < |cs| ==> cs[j].depth <= cs[i].depth
    ensures forall j :: 0 <= j < i ==> cs[j].depth < cs[i].depth
  {
    if |cs| == 1 then 0
    else
      var i := FirstDeepest(cs[..|cs| - 1]);
      if cs[|cs| - 1].depth > cs[i].depth then |cs| - 1 else i
  }

  /** Depths never decrease along the list. */
  predicate DepthOrdered(s: seq<ClassDepth>)
  {
    forall i, j :: 0 <= i < j < |s| ==> s[i].depth <= s[j].depth
  }

  class Finder {
    var classInfoMap: map<string, ClassInfo>
    var childrenMap: map<string, seq<string>>

    constructor ()
      ensures classInfoMap == map[] && childrenMap == map[]
    {
      classInfoMap := map[];
      childrenMap := map[];
    }

    /**
     * findMainClass: null for an unreadable jar; otherwise the first
     * candidate of greatest depth, with '/' replaced by '.'.
     */
    method FindMainClass(jar: Option<seq<VisitedClass>>, order: seq<string>) returns (r: Option<string>, candidates: seq<ClassDepth>)
      modifies this
      requires jar.Some? ==> IsOrderOf(order, ClassMap(jar.value))
      ensures jar.None? ==> r.None?
      ensures jar.Some? ==>
                classInfoMap == ClassMap(jar.value)[TargetMainClass := ClassInfo(TargetMainClass, None, false)]
      ensures jar.Some? ==> forall p :: Kids(childrenMap, p) == ChildrenIn(ClassMap(jar.value), order, p)
      ensures jar.Some? ==> forall n, d :: ReachableAt(childrenMap, TargetMainClass, n, d) ==>
                n in classInfoMap && (!classInfoMap[n].isAbstract ==> n in NamesOf(candidates))
      ensures jar.Some? ==>
                forall i :: 0 <= i < |BfsVisits(childrenMap, TargetMainClass)| ==>
                  BfsVisits(childrenMap, TargetMainClass)[i].className in classInfoMap
      ensures jar.Some? ==> candidates == NonAbstract(classInfoMap, BfsVisits(childrenMap, TargetMainClass))
      ensures jar.Some? ==>
                && candidates != [] && candidates[0] == ClassDepth(TargetMainClass, 0)
                && r == Some(JavaString.ReplaceChar(candidates[FirstDeepest(candidates)].className, '/', '.'))
                && DistinctNames(candidates)
                && DepthOrdered(candidates)
                && (forall i :: 0 <= i < |candidates| ==>
                      && candidates[i].className in classInfoMap
                      && !classInfoMap[candidates[i].className].isAbstract
                      && ReachableAt(childrenMap, TargetMainClass, candidates[i].className, candidates[i].depth))
      ensures jar.Some? && ChildrenIn(ClassMap(jar.value), order, TargetMainClass) == [] ==>
                forall i :: 0 <= i < |candidates| ==> candidates[i] == ClassDepth(TargetMainClass, 0)
    {
      candidates := [];
      if jar.None? {
        return None, candidates;
      }
      classInfoMap := ClassMap(jar.value);
      ghost var classes := classInfoMap;
      BuildChildren(order);
      assert forall p :: Kids(childrenMap, p) == ChildrenIn(ClassMap(jar.value), order, p);
      assert Kids(childrenMap, TargetMainClass) == ChildrenIn(classes, order, TargetMainClass);
      candidates := TraverseAndFindCandidates(TargetMainClass);
      if candidates == [] {
        // The source returns null here, but the walk records the start class
        // as concrete (ClassInfo(start, None, false)) and visits it first, so
        // its candidates are never empty and this branch cannot be taken.
        assert false;
        return None, candidates;
      }
      var ret := SelectDeepest(candidates);
      if ret.Some? {
        ret := Some(JavaString.ReplaceChar(ret.value, '/', '.'));
      }
      r := ret;
      if Kids(childrenMap, TargetMainClass) == [] {
        OnlyRootCandidates(childrenMap, TargetMainClass, candidates);
      }
    }

    /** The children lists, built by walking the classes in `order`. */
    method BuildChildren(order: seq<string>)
      modifies this`childrenMap
      requires IsOrderOf(order, classInfoMap)
      requires forall n :: n in classInfoMap ==> classInfoMap[n].name == n && classInfoMap[n].superName.Some?
      ensures forall p :: Kids(childrenMap, p) == ChildrenIn(classInfoMap, order, p)
      ensures ChildrenKnown(childrenMap, classInfoMap)
    {
      childrenMap := map[];
      var i := 0;
      while i < |order|
        invariant 0 <= i <= |order|
        invariant forall p :: Kids(childrenMap, p) == ChildrenIn(classInfoMap, order[..i], p)
      {
        var info := classInfoMap[order[i]];
        var parent := info.superName.value;
        ghost var before := childrenMap;
        childrenMap := childrenMap[parent := Kids(childrenMap, parent) + [info.name]];
        forall p
          ensures Kids(childrenMap, p) == ChildrenIn(classInfoMap, order[..i + 1], p)
        {
          ChildrenInStep(classInfoMap, order, i, p);
          assert Kids(childrenMap, p) == Kids(before, p) + (if p == parent then [info.name] else []);
        }
        i := i + 1;
      }
      assert order[..i] == order;
      forall p, j | p in childrenMap && 0 <= j < |childrenMap[p]|
        ensures childrenMap[p][j] in classInfoMap
      {
        assert Kids(childrenMap, p) == childrenMap[p];
        assert childrenMap[p][j] in ChildrenIn(classInfoMap, order, p);
      }
    }

    /**
     * traverseAndFindCandidates: record `start` as a concrete root, then
     * walk breadth-first; each class is queued once, and the non-abstract
     * ones are the candidates, in the order they leave the queue.
     */
    method TraverseAndFindCandidates(start: string) returns (candidates: seq<ClassDepth>)
      modifies this`classInfoMap
      requires ChildrenKnown(childrenMap, classInfoMap)
      ensures classInfoMap == old(classInfoMap)[start := ClassInfo(start, None, false)]
      ensures candidates != [] && candidates[0] == ClassDepth(start, 0)
      ensures DistinctNames(candidates)
      ensures DepthOrdered(candidates)
      ensures forall i :: 0 <= i < |candidates| ==>
                && candidates[i].className in classInfoMap
                && !classInfoMap[candidates[i].className].isAbstract
                && ReachableAt(childrenMap, start, candidates[i].className, candidates[i].depth)
      ensures forall n, d :: ReachableAt(childrenMap, start, n, d) ==>
                n in classInfoMap && (!classInfoMap[n].isAbstract ==> n in NamesOf(candidates))
      ensures forall i :: 0 <= i < |BfsVisits(childrenMap, start)| ==> BfsVisits(childrenMap, start)[i].className in classInfoMap
      ensures candidates == NonAbstract(classInfoMap, BfsVisits(childrenMap, start))
    {
      var classes := classInfoMap[start := ClassInfo(start, None, false)];
      classInfoMap := classes;
      var queue := [ClassDepth(start, 0)];
      var visited := {start};
      ghost var discovered := queue;
      ghost var head := 0;
      candidates := [];
      WalkStart(childrenMap, classes, start);
      while queue != []
        invariant classInfoMap == classes
        invariant Walking(childrenMap, classes, start, discovered, head, visited, queue, candidates)
        invariant BfsOrder(childrenMap, discovered, head, visited) == BfsVisits(childrenMap, start)
        decreases |classes.Keys - visited|, |queue|
      {
        ghost var oldVisited := visited;
        queue, visited, candidates, discovered := VisitHead(childrenMap, classes, start, queue, visited, candidates, discovered, head);
        if visited != oldVisited {
          SmallerRemainder(classes.Keys, oldVisited, visited);
        }
        head := head + 1;
      }
      WalkDone(childrenMap, classes, start, discovered, head, visited, candidates);
      WalkIsBfs(childrenMap, classes, start, discovered, head, visited, candidates);
    }
  }

  /**
   * One iteration of the walk: take the head of the queue, keep it as a
   * candidate when it is concrete, and queue its unvisited children one
   * level deeper.
   */
  method VisitHead(children: map<string, seq<string>>, classes: map<string, ClassInfo>, start: string,
                   queue: seq<ClassDepth>, visited: set<string>, candidates: seq<ClassDepth>,
                   ghost discovered: seq<ClassDepth>, ghost head: nat)
    returns (queue': seq<ClassDepth>, visited': set<string>, candidates': seq<ClassDepth>,
             ghost discovered': seq<ClassDepth>)
    requires Walking(children, classes, start, discovered, head, visited, queue, candidates) && queue != []
    ensures Walking(children, classes, start, discovered', head + 1, visited', queue', candidates')
    ensures visited <= visited' <= classes.Keys
    ensures visited' == visited ==> |queue'| < |queue|
    ensures BfsOrder(children, discovered', head + 1, visited') == BfsOrder(children, discovered, head, visited)
  {
    var current := queue[0];
    assert current == discovered[head];
    candidates' := candidates;
    if !classes[current.className].isAbstract {
      candidates' := candidates + [current];
    }
    var kids := Kids(children, current.className);
    queue', visited', discovered' := EnqueueChildren(kids, current.depth + 1, queue[1..], visited, discovered, head + 1);
    BfsStep(children, current, discovered, head, visited);
    VisitStep(children, classes, start, discovered, head, visited, queue, candidates,
              discovered', visited', queue', candidates');
  }

  /** VisitHead's proof: the new state satisfies the loop's invariant again. */
  lemma VisitStep(children: map<string, seq<string>>, classes: map<string, ClassInfo>, start: string,
                  discovered: seq<ClassDepth>, head: nat, visited: set<string>,
                  queue: seq<ClassDepth>, candidates: seq<ClassDepth>,
                  discovered': seq<ClassDepth>, visited': set<string>,
                  queue': seq<ClassDepth>, candidates': seq<ClassDepth>)
    requires Walking(children, classes, start, discovered, head, visited, queue, candidates) && queue != []
    requires queue[0].className in classes
    requires Enqueued(Kids(children, queue[0].className), queue[0].depth + 1, discovered, visited, discovered', visited')
    requires queue' == discovered'[head + 1..]
    requires candidates' == candidates + (if classes[queue[0].className].isAbstract then [] else [queue[0]])
    ensures Walking(children, classes, start, discovered', head + 1, visited', queue', candidates')
  {
    assert queue[0] == discovered[head];
    WalkStep(children, classes, start, discovered, head, visited, queue[0], discovered', visited');
    CandidatesStep(classes, discovered, head, discovered', candidates, candidates');
  }

  /** The head, when concrete, is the next candidate. */
  lemma CandidatesStep(classes: map<string, ClassInfo>, discovered: seq<ClassDepth>, head: nat,
                       discovered': seq<ClassDepth>, candidates: seq<ClassDepth>, candidates': seq<ClassDepth>)
    requires head < |discovered| && forall i :: 0 <= i < |discovered| ==> discovered[i].className in classes
    requires |discovered| <= |discovered'| && discovered'[..|discovered|] == discovered
    requires candidates == NonAbstract(classes, discovered[..head])
    requires candidates' == candidates + (if classes[discovered[head].className].isAbstract then [] else [discovered[head]])
    ensures forall i :: 0 <= i <= head ==> discovered'[i].className in classes
    ensures candidates' == NonAbstract(classes, discovered'[..head + 1])
  {
    assert discovered'[..head + 1] == discovered'[..|discovered|][..head + 1] == discovered[..head + 1];
    NonAbstractStep(classes, discovered, head);
  }

  /** The walk starts with the root alone in the queue, visited, and no candidate. */
  lemma WalkStart(children: map<string, seq<string>>, classes: map<string, ClassInfo>, start: string)
    requires ChildrenKnown(children, classes) && start in classes
    ensures Walking(children, classes, start, [ClassDepth(start, 0)], 0, {start}, [ClassDepth(start, 0)], [])
  {
    assert NamesOf([ClassDepth(start, 0)]) == [start];
  }

  /** The loop's invariant: the walk's state, the queue, and the candidates kept so far. */
  ghost predicate Walking(children: map<string, seq<string>>, classes: map<string, ClassInfo>, start: string,
                          discovered: seq<ClassDepth>, head: nat, visited: set<string>,
                          queue: seq<ClassDepth>, candidates: seq<ClassDepth>)
  {
    && Walk(children, classes, start, discovered, head, visited)
    && queue == discovered[head..]
    && candidates == NonAbstract(classes, discovered[..head])
  }

  /** The walk's state between two iterations; the queue is `discovered[head..]`. */
  ghost predicate Walk(children: map<string, seq<string>>, classes: map<string, ClassInfo>, start: string,
                       discovered: seq<ClassDepth>, head: nat, visited: set<string>)
  {
    && ChildrenKnown(children, classes)
    && head <= |discovered|
    && discovered != [] && discovered[0] == ClassDepth(start, 0)
    && (forall n :: n in visited <==> n in NamesOf(discovered))
    && visited <= classes.Keys
    && DistinctNames(discovered)
    && DepthOrdered(discovered)
    && (head < |discovered| ==> discovered[|discovered| - 1].depth <= discovered[head].depth + 1)
    && (forall i :: 0 <= i < |discovered| ==> discovered[i].className in classes)
    && (forall i :: 0 <= i < |discovered| ==> ReachableAt(children, start, discovered[i].className, discovered[i].depth))
    && (forall i :: 0 <= i < head ==> forall c :: c in Kids(children, discovered[i].className) ==> c in visited)
  }

  lemma NonAbstractStep(classes: map<string, ClassInfo>, discovered: seq<ClassDepth>, head: nat)
    requires head < |discovered| && forall i :: 0 <= i < |discovered| ==> discovered[i].className in classes
    ensures NonAbstract(classes, discovered[..head + 1])
            == NonAbstract(classes, discovered[..head])
               + (if classes[discovered[head].className].isAbstract then [] else [discovered[head]])
  {
    assert discovered[..head + 1][..head] == discovered[..head];
  }

  /** Taking the head of the queue and queueing its unvisited children keeps the walk's invariant. */
  lemma WalkStep(children: map<string, seq<string>>, classes: map<string, ClassInfo>, start: string,
                 discovered: seq<ClassDepth>, head: nat, visited: set<string>,
                 current: ClassDepth, discovered': seq<ClassDepth>, visited': set<string>)
    requires Walk(children, classes, start, discovered, head, visited) && head < |discovered|
    requires current == discovered[head]
    requires Enqueued(Kids(children, current.className), current.depth + 1, discovered, visited, discovered', visited')
    ensures Walk(children, classes, start, discovered', head + 1, visited')
  {
    WalkOrder(discovered, head, discovered');
    StepReach(children, classes, start, discovered, current, discovered');
    forall i | 0 <= i < head + 1
      ensures forall c :: c in Kids(children, discovered'[i].className) ==> c in visited'
    {
      assert discovered'[i] == discovered[i];
    }
    forall n | n in visited'
      ensures n in classes
    {
      if n !in visited {
        KidKnown(children, classes, current.className, n);
      }
    }
  }

  /** Pairs queued below a reachable class name known, reachable classes one level deeper. */
  lemma StepReach(children: map<string, seq<string>>, classes: map<string, ClassInfo>, start: string,
                  discovered: seq<ClassDepth>, current: ClassDepth, discovered': seq<ClassDepth>)
    requires ChildrenKnown(children, classes)
    requires forall i :: 0 <= i < |discovered| ==> discovered[i].className in classes
    requires forall i :: 0 <= i < |discovered| ==>
               ReachableAt(children, start, discovered[i].className, discovered[i].depth)
    requires ReachableAt(children, start, current.className, current.depth)
    requires |discovered| <= |discovered'| && discovered'[..|discovered|] == discovered
    requires forall j :: |discovered| <= j < |discovered'| ==>
               discovered'[j].depth == current.depth + 1 && discovered'[j].className in Kids(children, current.className)
    ensures forall j :: 0 <= j < |discovered'| ==> discovered'[j].className in classes
    ensures forall j :: 0 <= j < |discovered'| ==>
              ReachableAt(children, start, discovered'[j].className, discovered'[j].depth)
  {
    forall j | 0 <= j < |discovered'|
      ensures discovered'[j].className in classes
      ensures ReachableAt(children, start, discovered'[j].className, discovered'[j].depth)
    {
      if j < |discovered| {
        assert discovered'[j] == discovered[j];
      } else {
        ReachKid(children, start, current.className, current.depth, discovered'[j].className);
        KidKnown(children, classes, current.className, discovered'[j].className);
      }
    }
  }

  /** A subclass of a class reached in `d` steps is reached in `d + 1`. */
  lemma ReachKid(children: map<string, seq<string>>, start: string, p: string, d: nat, c: string)
    requires ReachableAt(children, start, p, d) && c in Kids(children, p)
    ensures ReachableAt(children, start, c, d + 1)
  {
  }

  lemma KidKnown(children: map<string, seq<string>>, classes: map<string, ClassInfo>, parent: string, c: string)
    requires ChildrenKnown(children, classes) && c in Kids(children, parent)
    ensures c in classes
  {
    var i :| 0 <= i < |children[parent]| && children[parent][i] == c;
  }

  /** New pairs one level deeper than the head keep the list depth-ordered and the queue within one level. */
  lemma WalkOrder(discovered: seq<ClassDepth>, head: nat, discovered': seq<ClassDepth>)
    requires head < |discovered| && DepthOrdered(discovered)
    requires discovered[|discovered| - 1].depth <= discovered[head].depth + 1
    requires |discovered| <= |discovered'| && discovered'[..|discovered|] == discovered
    requires forall j :: |discovered| <= j < |discovered'| ==> discovered'[j].depth == discovered[head].depth + 1
    ensures DepthOrdered(discovered')
    ensures head + 1 < |discovered'| ==> discovered'[|discovered'| - 1].depth <= discovered'[head + 1].depth + 1
  {
    forall i, j | 0 <= i < j < |discovered'|
      ensures discovered'[i].depth <= discovered'[j].depth
    {
      if j < |discovered| {
        assert discovered'[i] == discovered[i] && discovered'[j] == discovered[j];
      } else if i < |discovered| {
        assert discovered'[i] == discovered[i];
        assert discovered[i].depth <= discovered[|discovered| - 1].depth;
      }
    }
    if head + 1 < |discovered'| {
      assert discovered'[head] == discovered[head];
      assert discovered'[head].depth <= discovered'[head + 1].depth;
    }
  }

  /**
   * When the queue is empty, the candidates are the non-abstract classes
   * reachable from `start`, each once, root first, by depth.
   */
  lemma WalkDone(children: map<string, seq<string>>, classes: map<string, ClassInfo>, start: string,
                 discovered: seq<ClassDepth>, head: nat, visited: set<string>, candidates: seq<ClassDepth>)
    requires Walking(children, classes, start, discovered, head, visited, [], candidates)
    requires start in classes && classes[start] == ClassInfo(start, None, false)
    ensures candidates != [] && candidates[0] == ClassDepth(start, 0)
    ensures DistinctNames(candidates)
    ensures DepthOrdered(candidates)
    ensures forall i :: 0 <= i < |candidates| ==>
              && candidates[i].className in classes
              && !classes[candidates[i].className].isAbstract
              && ReachableAt(children, start, candidates[i].className, candidates[i].depth)
    ensures forall n, d :: ReachableAt(children, start, n, d) ==>
              n in classes && (!classes[n].isAbstract ==> n in NamesOf(candidates))
  {
    assert head == |discovered| && discovered[..head] == discovered;
    NonAbstractDistinct(classes, discovered);
    NonAbstractOrdered(classes, discovered);
    NonAbstractFirst(classes, discovered);
    forall i | 0 <= i < |candidates|
      ensures candidates[i].className in classes && !classes[candidates[i].className].isAbstract
      ensures ReachableAt(children, start, candidates[i].className, candidates[i].depth)
    {
      assert candidates[i] in discovered;
    }
    forall n, d | ReachableAt(children, start, n, d)
      ensures n in classes && (!classes[n].isAbstract ==> n in NamesOf(candidates))
    {
      ClosedReach(children, start, discovered, visited, n, d);
      var i :| 0 <= i < |discovered| && discovered[i].className == n;
      if !classes[n].isAbstract {
        assert discovered[i] in candidates;
        var j :| 0 <= j < |candidates| && candidates[j] == discovered[i];
        assert NamesOf(candidates)[j] == n;
      }
    }
  }

  /**
   * The for loop over a class's children as a function: each child not yet
   * visited is marked and appended at `depth`, in the children's order.
   */
  function EnqueueAll(kids: seq<string>, depth: nat, discovered: seq<ClassDepth>, visited: set<string>)
    : (r: (seq<ClassDepth>, set<string>))
    ensures |discovered| <= |r.0| && r.0[..|discovered|] == discovered
    ensures visited <= r.1 && forall n :: n in r.1 ==> n in visited || n in kids
    ensures r.1 == visited ==> r.0 == discovered
  {
    if kids == [] then (discovered, visited)
    else
      var before := EnqueueAll(kids[..|kids| - 1], depth, discovered, visited);
      var c := kids[|kids| - 1];
      if c in before.1 then before
      else (before.0 + [ClassDepth(c, depth)], before.1 + {c})
  }

  /** Every class named as somebody's child. */
  function KidNames(children: map<string, seq<string>>): set<string>
  {
    set p, c | p in children && c in children[p] :: c
  }

  /**
   * The breadth-first walk as a function of the children lists: the list
   * of every pair ever queued once the queue, `discovered[head..]`, has run
   * dry. The order within a level is the order of the parents' children lists.
   */
  ghost function BfsOrder(children: map<string, seq<string>>, discovered: seq<ClassDepth>, head: nat,
                          visited: set<string>): seq<ClassDepth>
    decreases |KidNames(children) - visited|, |discovered| - head
  {
    if head >= |discovered| then discovered
    else
      var next := EnqueueAll(Kids(children, discovered[head].className), discovered[head].depth + 1, discovered, visited);
      FewerLeft(children, discovered[head].className, visited, next.1);
      BfsOrder(children, next.0, head + 1, next.1)
  }

  /** The walk from `start` alone: every pair it queues, in the order they leave the queue. */
  ghost function BfsVisits(children: map<string, seq<string>>, start: string): seq<ClassDepth>
  {
    BfsOrder(children, [ClassDepth(start, 0)], 0, {start})
  }

  /** Marking children as visited leaves fewer unvisited children. */
  lemma FewerLeft(children: map<string, seq<string>>, parent: string, a: set<string>, b: set<string>)
    requires a <= b && forall n :: n in b ==> n in a || n in Kids(children, parent)
    ensures b != a ==> |KidNames(children) - b| < |KidNames(children) - a|
  {
    if b != a {
      var x :| x in b && x !in a;
      assert x in Kids(children, parent);
      assert x in KidNames(children);
      SubsetNoLarger(KidNames(children) - b, (KidNames(children) - a) - {x});
    }
  }

  /** The walk only ever appends: what was queued stays, in place. */
  lemma {:induction false} BfsKeepsPrefix(children: map<string, seq<string>>, discovered: seq<ClassDepth>, head: nat,
                                          visited: set<string>)
    ensures |discovered| <= |BfsOrder(children, discovered, head, visited)|
    ensures BfsOrder(children, discovered, head, visited)[..|discovered|] == discovered
    decreases |KidNames(children) - visited|, |discovered| - head
  {
    if head < |discovered| {
      var next := EnqueueAll(Kids(children, discovered[head].className), discovered[head].depth + 1, discovered, visited);
      FewerLeft(children, discovered[head].className, visited, next.1);
      BfsKeepsPrefix(children, next.0, head + 1, next.1);
      var r := BfsOrder(children, discovered, head, visited);
      assert r == BfsOrder(children, next.0, head + 1, next.1);
      assert r[..|discovered|] == r[..|next.0|][..|discovered|];
    }
  }

  /** Children that are all new are queued as they are, in their order. */
  lemma {:induction false} EnqueueAllFresh(kids: seq<string>, depth: nat, discovered: seq<ClassDepth>, visited: set<string>)
    requires FreshKids(kids, visited)
    ensures EnqueueAll(kids, depth, discovered, visited).0 == discovered + AtDepth(kids, depth)
  {
    if kids != [] {
      var k := |kids| - 1;
      var prefix := kids[..k];
      EnqueueAllFresh(prefix, depth, discovered, visited);
      var before := EnqueueAll(prefix, depth, discovered, visited);
      EnqueueAllStep(kids, k, depth, discovered, visited, before.0, before.1);
      assert kids[..k + 1] == kids;
      AtDepthSnoc(kids, depth);
      assert (discovered + AtDepth(prefix, depth)) + [ClassDepth(kids[k], depth)]
             == discovered + (AtDepth(prefix, depth) + [ClassDepth(kids[k], depth)]);
    }
  }

  /** Each child differs from the ones before it and was not visited. */
  predicate FreshKids(kids: seq<string>, visited: set<string>)
  {
    kids == [] ||
    (var k := |kids| - 1; kids[k] !in kids[..k] && kids[k] !in visited && FreshKids(kids[..k], visited))
  }

  /** Distinct children none of which was visited are fresh. */
  lemma {:induction false} DistinctKidsFresh(kids: seq<string>, visited: set<string>)
    requires forall i, j :: 0 <= i < j < |kids| ==> kids[i] != kids[j]
    requires forall i :: 0 <= i < |kids| ==> kids[i] !in visited
    ensures FreshKids(kids, visited)
  {
    if kids != [] {
      var k := |kids| - 1;
      var prefix := kids[..k];
      assert forall i :: 0 <= i < k ==> prefix[i] == kids[i];
      DistinctKidsFresh(prefix, visited);
    }
  }

  lemma AtDepthSnoc(kids: seq<string>, depth: nat)
    requires kids != []
    ensures AtDepth(kids, depth) == AtDepth(kids[..|kids| - 1], depth) + [ClassDepth(kids[|kids| - 1], depth)]
  {
  }

  /** The classes of `kids`, each at `depth`. */
  function AtDepth(kids: seq<string>, depth: nat): (r: seq<ClassDepth>)
    ensures |r| == |kids| && forall i :: 0 <= i < |kids| ==> r[i] == ClassDepth(kids[i], depth)
  {
    seq(|kids|, i requires 0 <= i < |kids| => ClassDepth(kids[i], depth))
  }

  /**
   * The walk lists the root, then the root's subclasses at depth 1 in the
   * order of its children list, before anything deeper.
   */
  lemma RootThenChildren(children: map<string, seq<string>>, start: string)
    requires forall i, j :: 0 <= i < j < |Kids(children, start)| ==> Kids(children, start)[i] != Kids(children, start)[j]
    requires start !in Kids(children, start)
    ensures |BfsVisits(children, start)| > |Kids(children, start)|
    ensures BfsVisits(children, start)[..|Kids(children, start)| + 1]
            == [ClassDepth(start, 0)] + AtDepth(Kids(children, start), 1)
  {
    var kids := Kids(children, start);
    var next := EnqueueAll(kids, 1, [ClassDepth(start, 0)], {start});
    BfsFirstStep(children, start);
    DistinctKidsFresh(kids, {start});
    EnqueueAllFresh(kids, 1, [ClassDepth(start, 0)], {start});
    BfsKeepsPrefix(children, next.0, 1, next.1);
  }

  /** The walk's first step queues the root's children at depth 1. */
  lemma BfsFirstStep(children: map<string, seq<string>>, start: string)
    ensures var next := EnqueueAll(Kids(children, start), 1, [ClassDepth(start, 0)], {start});
            BfsVisits(children, start) == BfsOrder(children, next.0, 1, next.1)
  {
    var root := ClassDepth(start, 0);
    BfsStep(children, root, [root], 0, {start});
    assert root.depth + 1 == 1;
  }

  /** One step of the walk: the head's children are queued and the head is passed. */
  lemma BfsStep(children: map<string, seq<string>>, current: ClassDepth, discovered: seq<ClassDepth>, head: nat,
                visited: set<string>)
    requires head < |discovered| && discovered[head] == current
    ensures BfsOrder(children, discovered, head, visited)
            == BfsOrder(children, EnqueueAll(Kids(children, current.className), current.depth + 1, discovered, visited).0,
                        head + 1,
                        EnqueueAll(Kids(children, current.className), current.depth + 1, discovered, visited).1)
  {
  }

  /** When the queue is empty, the pairs queued are the breadth-first order and the candidates its concrete classes. */
  lemma WalkIsBfs(children: map<string, seq<string>>, classes: map<string, ClassInfo>, start: string,
                  discovered: seq<ClassDepth>, head: nat, visited: set<string>, candidates: seq<ClassDepth>)
    requires Walking(children, classes, start, discovered, head, visited, [], candidates)
    requires BfsOrder(children, discovered, head, visited) == BfsVisits(children, start)
    ensures forall i :: 0 <= i < |BfsVisits(children, start)| ==> BfsVisits(children, start)[i].className in classes
    ensures candidates == NonAbstract(classes, BfsVisits(children, start))
  {
    assert head == |discovered| && discovered[..head] == discovered;
  }

  /** A subset is no larger. */
  lemma {:induction false} SubsetNoLarger(a: set<string>, b: set<string>)
    requires a <= b
    ensures |a| <= |b|
    decreases |a|
  {
    if a != {} {
      var x :| x in a;
      SubsetNoLarger(a - {x}, b - {x});
    }
  }

  /** When the removed set grows, what remains of a finite universe shrinks. */
  lemma SmallerRemainder(universe: set<string>, a: set<string>, b: set<string>)
    requires a <= b <= universe && a != b
    ensures |universe - b| < |universe - a|
  {
    var x :| x in b && x !in a;
    SubsetNoLarger(universe - b, (universe - a) - {x});
  }

  /**
   * A list closed under the children of its members, starting at `start`,
   * holds every class reachable from `start`.
   */
  lemma {:induction false} ClosedReach(children: map<string, seq<string>>, start: string, discovered: seq<ClassDepth>,
                                       visited: set<string>, n: string, d: nat)
    requires discovered != [] && discovered[0].className == start
    requires forall m :: m in visited <==> m in NamesOf(discovered)
    requires forall i :: 0 <= i < |discovered| ==> forall c :: c in Kids(children, discovered[i].className) ==> c in visited
    requires ReachableAt(children, start, n, d)
    ensures exists i :: 0 <= i < |discovered| && discovered[i].className == n
    decreases d
  {
    if d == 0 {
      assert discovered[0].className == n;
    } else {
      var p :| ReachableAt(children, start, p, d - 1) && n in Kids(children, p);
      ClosedReach(children, start, discovered, visited, p, d - 1);
      var i :| 0 <= i < |discovered| && discovered[i].className == p;
      assert n in visited;
      assert n in NamesOf(discovered);
      var k :| 0 <= k < |discovered| && NamesOf(discovered)[k] == n;
      assert discovered[k].className == n;
    }
  }

  /** The candidates keep the distinct names of the list they are taken from. */
  lemma {:induction false} NonAbstractDistinct(classes: map<string, ClassInfo>, done: seq<ClassDepth>)
    requires forall i :: 0 <= i < |done| ==> done[i].className in classes
    requires DistinctNames(done)
    ensures DistinctNames(NonAbstract(classes, done))
  {
    if done != [] {
      var prefix := done[..|done| - 1];
      var x := done[|done| - 1];
      NonAbstractDistinct(classes, prefix);
      var before := NonAbstract(classes, prefix);
      var r := NonAbstract(classes, done);
      assert r == before + (if classes[x.className].isAbstract then [] else [x]);
      forall i, j | 0 <= i < j < |r|
        ensures r[i].className != r[j].className
      {
        if j == |before| {
          assert r[i] in prefix;
          var k :| 0 <= k < |prefix| && prefix[k] == r[i];
          assert done[k] == r[i];
        } else {
          assert r[i] == before[i] && r[j] == before[j];
        }
      }
    }
  }

  /** The candidates keep the depth order of the list they are taken from. */
  lemma {:induction false} NonAbstractOrdered(classes: map<string, ClassInfo>, done: seq<ClassDepth>)
    requires forall i :: 0 <= i < |done| ==> done[i].className in classes
    requires DepthOrdered(done)
    ensures DepthOrdered(NonAbstract(classes, done))
  {
    if done != [] {
      var prefix := done[..|done| - 1];
      var x := done[|done| - 1];
      NonAbstractOrdered(classes, prefix);
      var before := NonAbstract(classes, prefix);
      var r := NonAbstract(classes, done);
      assert r == before + (if classes[x.className].isAbstract then [] else [x]);
      forall i, j | 0 <= i < j < |r|
        ensures r[i].depth <= r[j].depth
      {
        if j == |before| {
          assert r[i] in prefix;
          var k :| 0 <= k < |prefix| && prefix[k] == r[i];
          assert done[k] == r[i];
        } else {
          assert r[i] == before[i] && r[j] == before[j];
        }
      }
    }
  }

  /** A concrete first entry is the first candidate. */
  lemma {:induction false} NonAbstractFirst(classes: map<string, ClassInfo>, done: seq<ClassDepth>)
    requires forall i :: 0 <= i < |done| ==> done[i].className in classes
    requires done != [] && !classes[done[0].className].isAbstract
    ensures NonAbstract(classes, done) != [] && NonAbstract(classes, done)[0] == done[0]
  {
    var prefix := done[..|done| - 1];
    if prefix != [] {
      assert prefix[0] == done[0];
      NonAbstractFirst(classes, prefix);
    }
  }

  /**
   * The for loop over a class's children: each child not yet visited is
   * marked visited and queued at the given depth, in the children's order.
   * `discovered` is the list of every pair ever queued; the queue is its
   * suffix from `head`.
   */
  method EnqueueChildren(kids: seq<string>, depth: nat, queue: seq<ClassDepth>, visited: set<string>,
                         ghost discovered: seq<ClassDepth>, ghost head: nat)
    returns (queue': seq<ClassDepth>, visited': set<string>, ghost discovered': seq<ClassDepth>)
    requires head <= |discovered| && queue == discovered[head..]
    requires forall n :: n in visited <==> n in NamesOf(discovered)
    requires DistinctNames(discovered)
    ensures |discovered| <= |discovered'| && queue' == discovered'[head..]
    ensures Enqueued(kids, depth, discovered, visited, discovered', visited')
    ensures discovered' == EnqueueAll(kids, depth, discovered, visited).0
    ensures visited' == EnqueueAll(kids, depth, discovered, visited).1
  {
    queue', visited', discovered' := queue, visited, discovered;
    assert kids[..0] == [];
    var k := 0;
    while k < |kids|
      invariant 0 <= k <= |kids|
      invariant discovered' == EnqueueAll(kids[..k], depth, discovered, visited).0
      invariant visited' == EnqueueAll(kids[..k], depth, discovered, visited).1
      invariant |discovered| <= |discovered'| && queue' == discovered'[head..]
    {
      EnqueueAllStep(kids, k, depth, discovered, visited, discovered', visited');
      var child := kids[k];
      if child !in visited' {
        visited' := visited' + {child};
        var pair := ClassDepth(child, depth);
        queue' := queue' + [pair];
        assert (discovered' + [pair])[head..] == queue';
        discovered' := discovered' + [pair];
      }
      k := k + 1;
    }
    assert kids[..k] == kids;
    EnqueuedByAll(kids, depth, discovered, visited);
  }

  /** What the function queues is what the loop's invariant `Enqueued` describes. */
  lemma {:induction false} EnqueuedByAll(kids: seq<string>, depth: nat, discovered: seq<ClassDepth>, visited: set<string>)
    requires forall n :: n in visited <==> n in NamesOf(discovered)
    requires DistinctNames(discovered)
    ensures Enqueued(kids, depth, discovered, visited,
                     EnqueueAll(kids, depth, discovered, visited).0, EnqueueAll(kids, depth, discovered, visited).1)
  {
    if kids == [] {
      assert discovered[..|discovered|] == discovered;
    } else {
      var k := |kids| - 1;
      EnqueuedByAll(kids[..k], depth, discovered, visited);
      var before := EnqueueAll(kids[..k], depth, discovered, visited);
      EnqueueAllStep(kids, k, depth, discovered, visited, before.0, before.1);
      assert kids[..k + 1] == kids;
      if kids[k] in before.1 {
        EnqueueSeen(kids, k, depth, discovered, visited, before.0, before.1);
      } else {
        EnqueueNew(kids, k, depth, discovered, visited, before.0, before.1);
      }
    }
  }

  /** One more child: it is queued unless it was visited before. */
  lemma EnqueueAllStep(kids: seq<string>, k: nat, depth: nat, discovered: seq<ClassDepth>, visited: set<string>,
                       d: seq<ClassDepth>, v: set<string>)
    requires k < |kids|
    requires d == EnqueueAll(kids[..k], depth, discovered, visited).0
    requires v == EnqueueAll(kids[..k], depth, discovered, visited).1
    ensures kids[k] in v ==> EnqueueAll(kids[..k + 1], depth, discovered, visited).0 == d
    ensures kids[k] in v ==> EnqueueAll(kids[..k + 1], depth, discovered, visited).1 == v
    ensures kids[k] !in v ==> EnqueueAll(kids[..k + 1], depth, discovered, visited).0 == d + [ClassDepth(kids[k], depth)]
    ensures kids[k] !in v ==> EnqueueAll(kids[..k + 1], depth, discovered, visited).1 == v + {kids[k]}
  {
    assert kids[..k + 1][..k] == kids[..k];
  }

  /** A child already visited is skipped. */
  lemma EnqueueSeen(kids: seq<string>, k: nat, depth: nat, discovered: seq<ClassDepth>, visited: set<string>,
                    discovered': seq<ClassDepth>, visited': set<string>)
    requires k < |kids| && kids[k] in visited'
    requires Enqueued(kids[..k], depth, discovered, visited, discovered', visited')
    ensures Enqueued(kids[..k + 1], depth, discovered, visited, discovered', visited')
  {
    assert kids[..k + 1] == kids[..k] + [kids[k]];
  }

  /** A child not yet visited is marked and queued one level deeper. */
  lemma EnqueueNew(kids: seq<string>, k: nat, depth: nat, discovered: seq<ClassDepth>, visited: set<string>,
                   discovered': seq<ClassDepth>, visited': set<string>)
    requires k < |kids| && kids[k] !in visited'
    requires Enqueued(kids[..k], depth, discovered, visited, discovered', visited')
    ensures Enqueued(kids[..k + 1], depth, discovered, visited,
                     discovered' + [ClassDepth(kids[k], depth)], visited' + {kids[k]})
  {
    var pair := ClassDepth(kids[k], depth);
    assert kids[..k + 1] == kids[..k] + [kids[k]];
    AppendFresh(discovered', pair);
    var d := discovered' + [pair];
    assert d[..|discovered|] == discovered' [..|discovered|];
  }

  /**
   * What queueing `kids` at `depth` did: it appended, one level deeper,
   * exactly the kids not visited before, each once, and marked them visited.
   */
  ghost predicate Enqueued(kids: seq<string>, depth: nat, discovered: seq<ClassDepth>, visited: set<string>,
                           discovered': seq<ClassDepth>, visited': set<string>)
  {
    && |discovered| <= |discovered'| && discovered'[..|discovered|] == discovered
    && (forall j :: |discovered| <= j < |discovered'| ==>
          discovered'[j].depth == depth && discovered'[j].className in kids)
    && (forall n :: n in visited' <==> n in NamesOf(discovered'))
    && DistinctNames(discovered')
    && (forall c :: c in kids ==> c in visited')
    && visited <= visited' && (forall n :: n in visited' ==> n in visited || n in kids)
    && (visited' == visited ==> discovered' == discovered)
  }

  /** Appending a pair whose class is not yet listed keeps the names distinct. */
  lemma AppendFresh(discovered: seq<ClassDepth>, pair: ClassDepth)
    requires DistinctNames(discovered) && pair.className !in NamesOf(discovered)
    ensures DistinctNames(discovered + [pair])
    ensures NamesOf(discovered + [pair]) == NamesOf(discovered) + [pair.className]
  {
    var r := discovered + [pair];
    forall i | 0 <= i < |discovered|
      ensures r[i].className != pair.className
    {
      assert NamesOf(discovered)[i] == r[i].className;
    }
  }

  /**
   * The candidate list's use in findMainClass: the first pair of greatest
   * depth, found with a strict '>' from a starting maximum of -1.
   */
  method SelectDeepest(candidates: seq<ClassDepth>) returns (ret: Option<string>)
    ensures candidates == [] ==> ret.None?
    ensures candidates != [] ==> ret == Some(candidates[FirstDeepest(candidates)].className)
  {
    var maxDepth: int := -1;
    ret := None;
    var i := 0;
    while i < |candidates|
      invariant 0 <= i <= |candidates|
      invariant i == 0 ==> maxDepth == -1 && ret.None?
      invariant i > 0 ==> && maxDepth == candidates[FirstDeepest(candidates[..i])].depth
                          && ret == Some(candidates[FirstDeepest(candidates[..i])].className)
    {
      assert candidates[..i + 1][..i] == candidates[..i];
      if candidates[i].depth > maxDepth {
        maxDepth := candidates[i].depth;
        ret := Some(candidates[i].className);
      }
      i := i + 1;
    }
    assert candidates[..i] == candidates;
  }

  /** Without subclasses of the root, every reachable candidate is the root itself. */
  lemma OnlyRootCandidates(children: map<string, seq<string>>, start: string, candidates: seq<ClassDepth>)
    requires Kids(children, start) == []
    requires forall i :: 0 <= i < |candidates| ==>
               ReachableAt(children, start, candidates[i].className, candidates[i].depth)
    ensures forall i :: 0 <= i < |candidates| ==> candidates[i] == ClassDepth(start, 0)
  {
    forall i | 0 <= i < |candidates|
      ensures candidates[i] == ClassDepth(start, 0)
    {
      OnlyRoot(children, start, candidates[i].className, candidates[i].depth);
    }
  }

  /** Without subclasses of the root, only the root is reachable. */
  lemma {:induction false} OnlyRoot(children: map<string, seq<string>>, start: string, n: string, d: nat)
    requires Kids(children, start) == []
    requires ReachableAt(children, start, n, d)
    ensures n == start && d == 0
    decreases d
  {
    if d > 0 {
      var p :| ReachableAt(children, start, p, d - 1) && n in Kids(children, p);
      OnlyRoot(children, start, p, d - 1);
    }
  }
}
