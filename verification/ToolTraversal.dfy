/** Collecting the tools of a component graph that may be cyclic, with one shared visited set. */
module ToolTraversal {

  datatype Tool = Tool(id: string, payload: string)

  /**
   * A component's own tools, the components it refers to in the order they are visited (agents before
   * flows; steps before context providers), and the tools of its template.
   */
  datatype Component = Component(tools: seq<Tool>, children: seq<string>, template: seq<Tool>)

  /** Components by id: distinct components have distinct ids. */
  type Components = map<string, Component>

  predicate Closed(g: Components) {
    forall c, d | c in g && d in g[c].children :: d in g
  }

  /** The visited set every call of one traversal shares. */
  class Visited {
    var ids: set<string>

    constructor ()
      ensures ids == {}
    {
      ids := {};
    }
  }

  // ---- Reachability ----

  ghost predicate Walk(g: Components, p: seq<string>) {
    && p != []
    && (forall i | 0 <= i < |p| :: p[i] in g)
    && forall i | 0 <= i < |p| - 1 :: Refers(g, p[i], p[i + 1])
  }

  ghost predicate Refers(g: Components, c: string, d: string) {
    c in g && d in g[c].children
  }

  ghost predicate Reaches(g: Components, c: string, d: string) {
    exists p :: Walk(g, p) && p[0] == c && p[|p| - 1] == d
  }

  ghost function ReachedFrom(g: Components, c: string): set<string> {
    set d | d in g && Reaches(g, c, d)
  }

  lemma {:induction false} ReachesSelf(g: Components, c: string)
    requires c in g
    ensures Reaches(g, c, c)
  {
    assert Walk(g, [c]);
  }

  lemma {:induction false} ReachesStep(g: Components, c: string, d: string, e: string)
    requires Refers(g, c, d) && Reaches(g, d, e)
    ensures Reaches(g, c, e)
  {
    var p :| Walk(g, p) && p[0] == d && p[|p| - 1] == e;
    var q := [c] + p;
    forall i | 0 <= i < |q| - 1 ensures Refers(g, q[i], q[i + 1]) {
      assert i > 0 ==> Refers(g, p[i - 1], p[i - 1 + 1]);
    }
    assert Walk(g, q);
  }

  /** A set that contains a component and is closed under references contains all it reaches. */
  lemma {:induction false} ClosedContainsWalk(g: Components, s: set<string>, p: seq<string>)
    requires Walk(g, p) && p[0] in s
    requires forall c, d | c in s && Refers(g, c, d) :: d in s
    ensures p[|p| - 1] in s
    decreases |p|
  {
    if |p| > 1 {
      var q := p[1..];
      var k := 0;
      assert Refers(g, p[k], p[k + 1]);
      forall i | 0 <= i < |q| - 1 ensures Refers(g, q[i], q[i + 1]) {
        var j := i + 1;
        assert Refers(g, p[j], p[j + 1]);
      }
      ClosedContainsWalk(g, s, q);
    }
  }

  // ---- Tools ----

  ghost predicate HasTool(c: Component, t: Tool) {
    t in c.tools || t in c.template
  }

  ghost predicate ToolOf(g: Components, s: set<string>, t: Tool) {
    exists c | c in s && c in g :: HasTool(g[c], t)
  }

  /** The dictionary holds, under their ids, tools of these components, and an entry for each of them. */
  ghost predicate Collects(g: Components, s: set<string>, r: map<string, Tool>) {
    && (forall k | k in r :: r[k].id == k && ToolOf(g, s, r[k]))
    && forall t | ToolOf(g, s, t) :: t.id in r
  }

  lemma {:induction false} CollectsUnion(g: Components, s: set<string>, r: map<string, Tool>, s': set<string>,
    r': map<string, Tool>)
    requires Collects(g, s, r) && Collects(g, s', r')
    ensures Collects(g, s + s', r + r')
  {
    forall t | ToolOf(g, s + s', t) ensures ToolOf(g, s, t) || ToolOf(g, s', t) {
    }
    forall t | ToolOf(g, s, t) || ToolOf(g, s', t) ensures ToolOf(g, s + s', t) {
    }
  }

  /** `{tool.id: tool for tool in tools}` on top of a dictionary */
  method AddTools(into: map<string, Tool>, tools: seq<Tool>) returns (r: map<string, Tool>)
    ensures r.Keys == into.Keys + (set t | t in tools :: t.id)
    ensures forall k | k in r :: (k in into && r[k] == into[k]) || (r[k] in tools && r[k].id == k)
  {
    r := into;
    for i := 0 to |tools|
      invariant r.Keys == into.Keys + (set t | t in tools[..i] :: t.id)
      invariant forall k | k in r :: (k in into && r[k] == into[k]) || (r[k] in tools[..i] && r[k].id == k)
    {
      assert tools[..i + 1] == tools[..i] + [tools[i]];
      r := r[tools[i].id := tools[i]];
    }
    assert tools[..|tools|] == tools;
  }

  // ---- The traversal ----

  /** What one call adds to the visited set: reachable components, closed under references. */
  ghost predicate Explores(g: Components, id: string, before: set<string>, after: set<string>) {
    && before <= after
    && id in after
    && (forall c | c in after - before :: c in g && Reaches(g, id, c))
    && forall c, d | c in after - before && Refers(g, c, d) :: d in after
  }

  /** What the loop over the children has added besides the component itself. */
  ghost predicate ExploresChildren(g: Components, id: string, n: nat, before: set<string>, after: set<string>)
    requires id in g && n <= |g[id].children|
  {
    && before + {id} <= after
    && (forall c | c in g[id].children[..n] :: c in after)
    && (forall c | c in after - before :: c in g && Reaches(g, id, c))
    && forall c, d | c in after - before - {id} && Refers(g, c, d) :: d in after
  }

  lemma {:induction false} ExploresNext(g: Components, id: string, n: nat, before: set<string>, mid: set<string>,
    after: set<string>)
    requires id in g && n < |g[id].children|
    requires ExploresChildren(g, id, n, before, mid) && Explores(g, g[id].children[n], mid, after)
    ensures ExploresChildren(g, id, n + 1, before, after)
  {
    var cs := g[id].children;
    forall c | c in after - before ensures c in g && Reaches(g, id, c) {
      if c in after - mid {
        ReachesStep(g, id, cs[n], c);
      }
    }
    assert cs[..n + 1] == cs[..n] + [cs[n]];
  }

  lemma {:induction false} ExploresAll(g: Components, id: string, before: set<string>, after: set<string>)
    requires id in g && ExploresChildren(g, id, |g[id].children|, before, after)
    ensures Explores(g, id, before, after)
  {
    assert g[id].children[..|g[id].children|] == g[id].children;
  }

  /**
   * `_referenced_tools_dict`: nothing for a component already visited; otherwise its own tools, then
   * those of the components it refers to, then those of its template. The result is partial: it leaves
   * out what other calls sharing the visited set have found or will find.
   */
  method ReferencedToolsDict(g: Components, id: string, visited: Visited) returns (r: map<string, Tool>)
    requires Closed(g) && id in g
    modifies visited
    ensures id in old(visited.ids) ==> visited.ids == old(visited.ids) && r == map[]
    ensures Explores(g, id, old(visited.ids), visited.ids)
    ensures Collects(g, visited.ids - old(visited.ids), r)
    decreases g.Keys - visited.ids, 0
  {
    if id in visited.ids {
      return map[];
    }
    ghost var before := visited.ids;
    visited.ids := visited.ids + {id};
    r := ReferencedToolsInner(g, id, visited, before);
    ExploresAll(g, id, before, visited.ids);
  }

  /** `_referenced_tools_dict_inner` with `recursive` set */
  method ReferencedToolsInner(g: Components, id: string, visited: Visited, ghost before: set<string>)
    returns (r: map<string, Tool>)
    requires Closed(g) && id in g && id !in before && visited.ids == before + {id}
    modifies visited
    ensures ExploresChildren(g, id, |g[id].children|, before, visited.ids)
    ensures Collects(g, visited.ids - before, r)
    decreases g.Keys - visited.ids, 1
  {
    var c := g[id];
    r := AddTools(map[], c.tools);
    ghost var own := r;
    ghost var others: map<string, Tool> := map[];
    CollectsNothing(g, visited.ids, before + {id});
    StartsExploring(g, id, before);
    for i := 0 to |c.children|
      invariant ExploresChildren(g, id, i, before, visited.ids)
      invariant r == own + others && Collects(g, visited.ids - (before + {id}), others)
    {
      ghost var mid := visited.ids;
      assert Refers(g, id, c.children[i]);
      var sub := ReferencedToolsDict(g, c.children[i], visited);
      CollectsNext(g, id, i, before, mid, visited.ids, others, sub);
      UpdatesAssociate(own, others, sub);
      r, others := r + sub, others + sub;
    }
    r := AddTools(r, c.template);
    assert visited.ids - before - {id} == visited.ids - (before + {id});
    CollectsOwn(g, id, visited.ids - before, own, others, r);
  }

  lemma {:induction false} UpdatesAssociate(a: map<string, Tool>, b: map<string, Tool>, c: map<string, Tool>)
    ensures (a + b) + c == a + (b + c)
  {
  }

  lemma {:induction false} CollectsNothing(g: Components, s: set<string>, s': set<string>)
    requires s == s'
    ensures Collects(g, s - s', map[])
  {
  }

  lemma {:induction false} StartsExploring(g: Components, id: string, before: set<string>)
    requires id in g
    ensures ExploresChildren(g, id, 0, before, before + {id})
  {
    ReachesSelf(g, id);
  }

  /** One more child: what its call visits and collects is disjoint from what the others did. */
  lemma {:induction false} CollectsNext(
    g: Components, id: string, i: nat, before: set<string>, mid: set<string>, after: set<string>,
    others: map<string, Tool>, sub: map<string, Tool>)
    requires id in g && i < |g[id].children|
    requires ExploresChildren(g, id, i, before, mid) && Explores(g, g[id].children[i], mid, after)
    requires Collects(g, mid - (before + {id}), others) && Collects(g, after - mid, sub)
    ensures ExploresChildren(g, id, i + 1, before, after)
    ensures Collects(g, after - (before + {id}), others + sub)
  {
    ExploresNext(g, id, i, before, mid, after);
    CollectsUnion(g, mid - (before + {id}), others, after - mid, sub);
    assert (mid - (before + {id})) + (after - mid) == after - (before + {id});
  }

  lemma {:induction false} CollectsOwn(
    g: Components, id: string, s: set<string>, own: map<string, Tool>, others: map<string, Tool>, r: map<string, Tool>)
    requires id in g && id in s && Collects(g, s - {id}, others)
    requires own.Keys == (set t | t in g[id].tools :: t.id)
    requires forall k | k in own :: own[k] in g[id].tools && own[k].id == k
    requires r.Keys == (own + others).Keys + (set t | t in g[id].template :: t.id)
    requires forall k | k in r ::
               (k in own + others && r[k] == (own + others)[k]) || (r[k] in g[id].template && r[k].id == k)
    ensures Collects(g, s, r)
  {
    forall k | k in r ensures r[k].id == k && ToolOf(g, s, r[k]) {
      if k in others && r[k] == others[k] {
        assert ToolOf(g, s - {id}, others[k]);
      } else {
        assert HasTool(g[id], r[k]);
      }
    }
    forall t | ToolOf(g, s, t) ensures t.id in r {
      var c :| c in s && c in g && HasTool(g[c], t);
      assert c != id ==> ToolOf(g, s - {id}, t);
    }
  }

  /** `_referenced_tools` */
  method ReferencedTools(g: Components, root: string, recursive: bool) returns (r: map<string, Tool>)
    requires Closed(g) && root in g
    ensures recursive ==> Collects(g, ReachedFrom(g, root), r)
    ensures !recursive ==> r.Keys == (set t | t in g[root].tools :: t.id)
    ensures !recursive ==> forall k | k in r :: r[k] in g[root].tools && r[k].id == k
  {
    var visited := new Visited();
    if recursive {
      r := ReferencedToolsDict(g, root, visited);
      FreshTraversalIsComplete(g, root, visited.ids);
      assert visited.ids - {} == visited.ids;
    } else {
      visited.ids := visited.ids + {root};
      r := AddTools(map[], g[root].tools);
    }
  }

  /** From an empty visited set the calls together explore exactly what the root reaches. */
  lemma {:induction false} FreshTraversalIsComplete(g: Components, root: string, after: set<string>)
    requires Closed(g) && root in g && Explores(g, root, {}, after)
    ensures after == ReachedFrom(g, root)
  {
    assert after - {} == after;
    forall c | c in ReachedFrom(g, root) ensures c in after {
      var p :| Walk(g, p) && p[0] == root && p[|p| - 1] == c;
      ClosedContainsWalk(g, after, p);
    }
  }

  /** When no two tools share an id, the values of the dictionary are the tools of the components. */
  lemma {:induction false} UniqueIdsGiveAllTools(g: Components, s: set<string>, r: map<string, Tool>, t: Tool)
    requires Collects(g, s, r)
    requires forall t1, t2 | ToolOf(g, s, t1) && ToolOf(g, s, t2) && t1.id == t2.id :: t1 == t2
    ensures t in r.Values <==> ToolOf(g, s, t)
  {
    if ToolOf(g, s, t) {
      assert r[t.id] == t;
    }
  }
}
