/** The two discoverers of a process tree, breadth first (cmd/agent/target.go) and by ancestry
    (cmd/karaxys-capture/target.go), and the refresh of the kernel's target map. */
module ProcessTree {

  /** pid to parent pid, as read from /proc; 0 is never a key there. */
  type Parents = map<nat, nat>

  const MAX_HOPS: nat := 1024

  /** k parent steps lead from pid to root. */
  predicate Reaches(parent: Parents, pid: nat, root: nat, k: nat)
    decreases k
  {
    if k == 0 then pid == root else pid in parent && Reaches(parent, parent[pid], root, k - 1)
  }

  ghost predicate Descends(parent: Parents, pid: nat, root: nat) {
    exists k: nat :: Reaches(parent, pid, root, k)
  }

  /** The root and all its descendants. */
  ghost function Tree(parent: Parents, root: nat): set<nat> {
    {root} + set pid | pid in parent && Descends(parent, pid, root)
  }

  function Children(parent: Parents, pid: nat): set<nat> {
    set c | c in parent && parent[c] == pid
  }

  predicate Increasing(pids: seq<nat>) {
    forall i, j :: 0 <= i < j < |pids| ==> pids[i] < pids[j]
  }

  // ---- Sorting ----------------------------------------------------------------------------

  method Least(pids: set<nat>) returns (m: nat)
    requires pids != {}
    ensures m in pids && forall p :: p in pids ==> m <= p
  {
    m :| m in pids;
    var rest := pids - {m};
    while rest != {}
      invariant rest <= pids && m in pids
      invariant forall p :: p in pids && p !in rest ==> m <= p
      decreases |rest|
    {
      var p :| p in rest;
      rest := rest - {p};
      if p < m {
        m := p;
      }
    }
  }

  /** sortedPIDs: increasing, so without duplicates, and exactly the set. */
  method SortedPids(pids: set<nat>) returns (out: seq<nat>)
    ensures Increasing(out) && forall p :: p in out <==> p in pids
  {
    out := [];
    var rest := pids;
    while rest != {}
      invariant rest <= pids && Increasing(out)
      invariant forall p :: p in out <==> p in pids && p !in rest
      invariant forall p, q :: p in out && q in rest ==> p < q
      decreases |rest|
    {
      var m := Least(rest);
      forall i | 0 <= i < |out| ensures out[i] < m {
        assert out[i] in out && m in rest;
      }
      rest := rest - {m};
      out := out + [m];
    }
  }

  // ---- Breadth first ------------------------------------------------------------------------

  /** Everything seen descends from the root; everything seen and not queued has its children seen. */
  ghost predicate Searching(parent: Parents, root: nat, seen: set<nat>, queue: seq<nat>) {
    && root in seen && seen <= Tree(parent, root)
    && (forall i :: 0 <= i < |queue| ==> queue[i] in seen)
    && (forall p :: p in seen && p !in queue ==> Children(parent, p) <= seen)
  }

  lemma {:induction false} ChildDescends(parent: Parents, root: nat, pid: nat, child: nat)
    requires pid in Tree(parent, root) && child in Children(parent, pid)
    ensures child in Tree(parent, root)
  {
    if pid == root {
      assert Reaches(parent, pid, root, 0);
    }
    var k: nat :| Reaches(parent, pid, root, k);
    assert Reaches(parent, child, root, k + 1);
  }

  lemma {:induction false} ClosedHoldsDescendants(parent: Parents, root: nat, seen: set<nat>, pid: nat, k: nat)
    requires root in seen && (forall p :: p in seen ==> Children(parent, p) <= seen)
    requires Reaches(parent, pid, root, k)
    ensures pid in seen
    decreases k
  {
    if k > 0 {
      ClosedHoldsDescendants(parent, root, seen, parent[pid], k - 1);
      assert pid in Children(parent, parent[pid]);
    }
  }

  lemma {:induction false} SearchIsComplete(parent: Parents, root: nat, seen: set<nat>)
    requires Searching(parent, root, seen, [])
    ensures seen == Tree(parent, root)
  {
    forall pid | pid in Tree(parent, root) ensures pid in seen {
      if pid != root {
        var k: nat :| Reaches(parent, pid, root, k);
        ClosedHoldsDescendants(parent, root, seen, pid, k);
      }
    }
  }

  /** The inner loop: children not seen yet are seen and queued. */
  method SeeChildren(parent: Parents, pid: nat, seen: set<nat>, queue: seq<nat>)
    returns (now: set<nat>, later: seq<nat>, ghost added: set<nat>)
    ensures now == seen + Children(parent, pid)
    ensures added !! seen && added <= Children(parent, pid) && now == seen + added
    ensures |later| == |queue| + |added|
    ensures forall p :: p in later <==> p in queue || p in added
  {
    now, later, added := seen, queue, {};
    var todo := Children(parent, pid);
    while todo != {}
      invariant todo <= Children(parent, pid) && (forall c :: c in Children(parent, pid) && c !in todo ==> c in now)
      invariant added !! seen && added <= Children(parent, pid) && now == seen + added
      invariant |later| == |queue| + |added|
      invariant forall p :: p in later <==> p in queue || p in added
      decreases |todo|
    {
      var child :| child in todo;
      todo := todo - {child};
      if child !in now {
        now, later, added := now + {child}, later + [child], added + {child};
      }
    }
  }

  lemma {:induction false} SplitCount(all: set<nat>, seen: set<nat>, added: set<nat>)
    requires added !! seen && added <= all
    ensures |all - seen| == |all - (seen + added)| + |added|
  {
    assert all - seen == (all - (seen + added)) + added;
  }

  lemma {:induction false} SearchGoesOn(parent: Parents, root: nat, seen: set<nat>, queue: seq<nat>, added: set<nat>, later: seq<nat>)
    requires Searching(parent, root, seen, queue) && |queue| > 0
    requires added <= Children(parent, queue[0]) <= seen + added
    requires forall p :: p in later <==> p in queue[1..] || p in added
    ensures Searching(parent, root, seen + added, later)
  {
    var pid := queue[0];
    forall c | c in added ensures c in Tree(parent, root) {
      ChildDescends(parent, root, pid, c);
    }
    forall i | 0 <= i < |later| ensures later[i] in seen + added {
      assert later[i] in later;
    }
    assert queue == [pid] + queue[1..];
  }

  /** The agent's discoverPIDTree: exactly the root and its descendants, sorted, each once, for any
      parent map, cycles included. */
  method DiscoverBreadthFirst(parent: Parents, root: nat) returns (pids: seq<nat>)
    ensures Increasing(pids) && forall p :: p in pids <==> p in Tree(parent, root)
  {
    hide Searching, Tree;
    var seen, queue := {root}, [root];
    ghost var all := parent.Keys + {root};
    SearchStarts(parent, root);
    while |queue| > 0
      invariant Searching(parent, root, seen, queue) && seen <= all
      decreases |all - seen| + |queue|
    {
      var now, later, added := SeeChildren(parent, queue[0], seen, queue[1..]);
      SearchGoesOn(parent, root, seen, queue, added, later);
      SplitCount(all, seen, added);
      seen, queue := now, later;
    }
    assert queue == [];
    SearchIsComplete(parent, root, seen);
    pids := SortedPids(seen);
  }

  lemma {:induction false} SearchStarts(parent: Parents, root: nat)
    ensures Searching(parent, root, {root}, [root])
  {
  }

  // ---- By ancestry ----------------------------------------------------------------------------

  /** One process: walk up until a target is met, for at most hops checks. */
  predicate Walk(parent: Parents, targets: set<nat>, cur: nat, hops: nat)
    decreases hops
  {
    if hops == 0 then false
    else if cur in targets then true
    else if cur !in parent || parent[cur] == cur || parent[cur] == 0 then false
    else Walk(parent, targets, parent[cur], hops - 1)
  }

  /** All processes, in some order; a process found is a target for those after it. */
  function WalkAll(parent: Parents, seeds: set<nat>, order: seq<nat>): set<nat> {
    if |order| == 0 then seeds
    else
      var before, pid := WalkAll(parent, seeds, order[..|order| - 1]), order[|order| - 1];
      if Walk(parent, before, pid, MAX_HOPS) then before + {pid} else before
  }

  /** The capture binary's discoverPIDTree up to its liveness filter; order is that of the map. */
  method DiscoverByAncestry(parent: Parents, seeds: set<nat>, order: seq<nat>) returns (targets: set<nat>)
    ensures targets == WalkAll(parent, seeds - {0}, order)
  {
    targets := seeds - {0};
    for i := 0 to |order|
      invariant targets == WalkAll(parent, seeds - {0}, order[..i])
    {
      var pid, cur, hops := order[i], order[i], 0;
      assert order[..i + 1][..i] == order[..i];
      var found := false;
      while hops < MAX_HOPS
        invariant hops <= MAX_HOPS && !found
        invariant Walk(parent, targets, pid, MAX_HOPS) == Walk(parent, targets, cur, MAX_HOPS - hops)
        decreases MAX_HOPS - hops
      {
        if cur in targets {
          found := true;
          break;
        }
        if cur !in parent || parent[cur] == cur || parent[cur] == 0 {
          break;
        }
        cur, hops := parent[cur], hops + 1;
      }
      if found {
        targets := targets + {pid};
      }
    }
    assert order[..|order|] == order;
  }

  lemma {:induction false} WalkIsSound(parent: Parents, targets: set<nat>, cur: nat, hops: nat) returns (t: nat, k: nat)
    requires Walk(parent, targets, cur, hops)
    ensures t in targets && k < hops && Reaches(parent, cur, t, k)
    decreases hops
  {
    if cur in targets {
      t, k := cur, 0;
    } else {
      t, k := WalkIsSound(parent, targets, parent[cur], hops - 1);
      k := k + 1;
    }
  }

  lemma {:induction false} SelfLoop(parent: Parents, cur: nat, t: nat, k: nat)
    requires cur in parent && parent[cur] == cur && Reaches(parent, cur, t, k)
    ensures cur == t
    decreases k
  {
    if k > 0 {
      SelfLoop(parent, cur, t, k - 1);
    }
  }

  lemma {:induction false} WalkIsComplete(parent: Parents, targets: set<nat>, cur: nat, hops: nat, t: nat, k: nat)
    requires 0 !in parent && t in targets && t != 0 && k < hops && Reaches(parent, cur, t, k)
    ensures Walk(parent, targets, cur, hops)
    decreases k
  {
    if cur !in targets {
      if parent[cur] == cur {
        SelfLoop(parent, cur, t, k);
      } else if parent[cur] != 0 {
        WalkIsComplete(parent, targets, parent[cur], hops - 1, t, k - 1);
      }
    }
  }

  lemma {:induction false} ReachesFurther(parent: Parents, pid: nat, mid: nat, j: nat, root: nat, k: nat)
    requires Reaches(parent, pid, mid, j) && Reaches(parent, mid, root, k)
    ensures Reaches(parent, pid, root, j + k)
    decreases j
  {
    if j > 0 {
      ReachesFurther(parent, parent[pid], mid, j - 1, root, k);
    }
  }

  /** pid is a seed or descends from one. */
  ghost predicate FromSeed(parent: Parents, seeds: set<nat>, pid: nat) {
    exists s, k: nat :: s in seeds && Reaches(parent, pid, s, k)
  }

  /** Soundness for any parent map and any order: only seeds and descendants of seeds are found. */
  lemma {:induction false} AncestryIsSound(parent: Parents, seeds: set<nat>, order: seq<nat>, pid: nat)
    requires pid in WalkAll(parent, seeds, order)
    ensures FromSeed(parent, seeds, pid)
    decreases |order|
  {
    if |order| == 0 {
      assert Reaches(parent, pid, pid, 0);
    } else {
      var before := WalkAll(parent, seeds, order[..|order| - 1]);
      if pid in before {
        AncestryIsSound(parent, seeds, order[..|order| - 1], pid);
      } else {
        var t, j := WalkIsSound(parent, before, pid, MAX_HOPS);
        AncestryIsSound(parent, seeds, order[..|order| - 1], t);
        var s, k: nat :| s in seeds && Reaches(parent, t, s, k);
        ReachesFurther(parent, pid, t, j, s, k);
      }
    }
  }

  lemma {:induction false} TargetsGrow(parent: Parents, seeds: set<nat>, order: seq<nat>, n: nat)
    requires n <= |order|
    ensures WalkAll(parent, seeds, order[..n]) <= WalkAll(parent, seeds, order)
    decreases |order|
  {
    if n < |order| {
      TargetsGrow(parent, seeds, order[..|order| - 1], n);
      assert order[..|order| - 1][..n] == order[..n];
    } else {
      assert order[..n] == order;
    }
  }

  /** A seed lies within reach of the walk. */
  ghost predicate NearSeed(parent: Parents, seeds: set<nat>, pid: nat) {
    exists s, k: nat :: s in seeds && k <= 1023 && Reaches(parent, pid, s, k)
  }

  /** Completeness: a process with a seed at most 1023 hops up is found, in any order. */
  lemma {:induction false} AncestryIsComplete(parent: Parents, seeds: set<nat>, order: seq<nat>, pid: nat)
    requires 0 !in parent && 0 !in seeds && pid in order && NearSeed(parent, seeds, pid)
    ensures pid in WalkAll(parent, seeds, order)
  {
    var s, k: nat :| s in seeds && k < MAX_HOPS && Reaches(parent, pid, s, k);
    var i: nat :| i < |order| && order[i] == pid;
    assert order[..i + 1][..i] == order[..i] && order[..i][..0] == [];
    TargetsGrow(parent, seeds, order[..i], 0);
    WalkIsComplete(parent, WalkAll(parent, seeds, order[..i]), pid, MAX_HOPS, s, k);
    TargetsGrow(parent, seeds, order, i + 1);
  }

  // ---- Where the two agree -----------------------------------------------------------------------

  /** order lists the processes, each once. */
  ghost predicate IsOrder(parent: Parents, order: seq<nat>) {
    && (forall p :: p in order <==> p in parent)
    && (forall i, j :: 0 <= i < j < |order| ==> order[i] != order[j])
  }

  ghost predicate AllNear(parent: Parents, root: nat) {
    forall pid :: pid in parent && Descends(parent, pid, root) ==> NearSeed(parent, {root}, pid)
  }

  lemma {:induction false} NearTreesAgree(parent: Parents, root: nat, order: seq<nat>)
    requires 0 !in parent && root != 0 && IsOrder(parent, order) && AllNear(parent, root)
    ensures WalkAll(parent, {root}, order) == Tree(parent, root)
  {
    var found := WalkAll(parent, {root}, order);
    forall pid | pid in found ensures pid in Tree(parent, root) {
      AncestryIsSound(parent, {root}, order, pid);
      var s, k: nat :| s in {root} && Reaches(parent, pid, s, k);
      assert k == 0 ==> pid == root;
    }
    forall pid | pid in Tree(parent, root) ensures pid in found {
      if pid == root {
        TargetsGrow(parent, {root}, order, 0);
        assert order[..0] == [];
      } else {
        AncestryIsComplete(parent, {root}, order, pid);
      }
    }
  }

  /** A process visited first is judged by the seeds alone, and never again. */
  lemma {:induction false} VisitedFirst(parent: Parents, seeds: set<nat>, order: seq<nat>)
    requires |order| > 0 && (forall i :: 0 < i < |order| ==> order[i] != order[0])
    requires order[0] !in seeds && !Walk(parent, seeds, order[0], MAX_HOPS)
    ensures order[0] !in WalkAll(parent, seeds, order)
    decreases |order|
  {
    if |order| > 1 {
      VisitedFirst(parent, seeds, order[..|order| - 1]);
    } else {
      assert order[..0] == [];
    }
  }

  /** An order that visits pid first. */
  lemma {:induction false} OrderFrom(parent: Parents, pid: nat) returns (order: seq<nat>)
    requires pid in parent
    ensures IsOrder(parent, order) && |order| > 0 && order[0] == pid
  {
    order := [pid];
    var rest := parent.Keys - {pid};
    while rest != {}
      invariant rest <= parent.Keys && |order| > 0 && order[0] == pid
      invariant forall p :: p in order <==> p in parent && p !in rest
      invariant forall i, j :: 0 <= i < j < |order| ==> order[i] != order[j]
      decreases |rest|
    {
      var p :| p in rest;
      rest := rest - {p};
      order := order + [p];
    }
  }

  /** The walk gives the tree whatever the order of the map exactly when every process of the tree
      has the root at most 1023 hops up; the depth is something a caller can look at. */
  lemma {:induction false} DiscoverersAgreeIffNear(parent: Parents, root: nat)
    requires 0 !in parent && root != 0
    ensures AllNear(parent, root) <==> forall order :: IsOrder(parent, order) ==> WalkAll(parent, {root}, order) == Tree(parent, root)
  {
    if AllNear(parent, root) {
      forall order | IsOrder(parent, order) ensures WalkAll(parent, {root}, order) == Tree(parent, root) {
        NearTreesAgree(parent, root, order);
      }
    } else {
      var pid :| pid in parent && Descends(parent, pid, root) && !NearSeed(parent, {root}, pid);
      var order := OrderFrom(parent, pid);
      if Walk(parent, {root}, pid, MAX_HOPS) {
        var t, k := WalkIsSound(parent, {root}, pid, MAX_HOPS);
        assert NearSeed(parent, {root}, pid);
      }
      assert Reaches(parent, root, root, 0);
      VisitedFirst(parent, {root}, order);
      assert pid in Tree(parent, root);
    }
  }

  // ---- Refreshing the kernel's map ------------------------------------------------------------------

  class TargetManager {
    var active: set<nat>
    var kernel: set<nat>

    /** The manager knows of no pid that the kernel's map does not hold. */
    ghost predicate Valid()
      reads this
    {
      active <= kernel
    }

    constructor ()
      ensures Valid() && active == {} && kernel == {}
    {
      active, kernel := {}, {};
    }

    /** The puts: in some order, up to the first that fails. */
    method AddNew(next: set<nat>, failing: set<nat>) returns (ok: bool)
      modifies this`kernel
      ensures ok <==> forall p :: p in next && p !in active ==> p !in failing
      ensures ok ==> forall p :: p in kernel <==> p in old(kernel) || (p in next && p !in active)
      ensures !ok ==> forall p :: (p in old(kernel) ==> p in kernel) && (p in kernel ==> p in old(kernel) || p in next)
    {
      var todo := next;
      while todo != {}
        invariant todo <= next
        invariant forall p :: p in next && p !in todo && p !in active ==> p !in failing
        invariant forall p :: p in kernel <==> p in old(kernel) || (p in next && p !in todo && p !in active)
        decreases |todo|
      {
        var pid :| pid in todo;
        if pid !in active {
          if pid in failing {
            return false;
          }
          kernel := kernel + {pid};
        }
        todo := todo - {pid};
      }
      return true;
    }

    /** The deletes: every active pid that is not wanted any more; a failing delete is ignored. */
    method DropOld(next: set<nat>, stuck: set<nat>)
      modifies this`kernel
      ensures forall p :: p in kernel <==> p in old(kernel) && (p in active ==> p in next || p in stuck)
    {
      var todo := active;
      while todo != {}
        invariant todo <= active
        invariant forall p :: p in kernel <==> p in old(kernel) && (p in active && p !in todo ==> p in next || p in stuck)
        decreases |todo|
      {
        var pid :| pid in todo;
        todo := todo - {pid};
        if pid !in next && pid !in stuck {
          kernel := kernel - {pid};
        }
      }
    }

    /** refresh: failing says which puts fail, stuck which deletes. A failed put leaves what was put
        before it in the kernel and unknown to the manager; a failed delete goes unnoticed. A successful
        refresh makes the kernel's map the target set exactly when every pid the manager did not know
        of is wanted now and every delete it asked for went through. */
    method Refresh(pids: set<nat>, failing: set<nat>, stuck: set<nat>) returns (ok: bool)
      requires Valid()
      modifies this
      ensures Valid()
      ensures !ok ==> active == old(active) && old(kernel) <= kernel <= old(kernel) + pids
      ensures ok <==> forall p :: p in pids && p !in old(active) ==> p !in failing
      ensures ok ==> active == pids && kernel == pids + (old(kernel) - (old(active) - stuck))
      ensures ok ==> (kernel == pids <==> old(kernel) - old(active) <= pids && old(active) * stuck <= pids)
    {
      ok := AddNew(pids, failing);
      if ok {
        DropOld(pids, stuck);
        active := pids;
      }
    }
  }
}
