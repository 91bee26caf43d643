/** The component schemas a set of endpoints needs: a worklist over references. */
module SchemaClosure {
  import opened Wrappers

  /** A parsed JSON node: strings apart, other scalars only matter by their truth value. */
  datatype Node = Object(entries: seq<Member>) | Array(items: seq<Node>) | Text(s: string) | Scalar(truthy: bool)

  datatype Member = Member(key: string, node: Node)

  predicate Truthy(n: Node) {
    match n
    case Object(es) => es != []
    case Array(items) => items != []
    case Text(s) => s != ""
    case Scalar(b) => b
  }

  const PREFIX := "#/components/schemas/"

  /** `ref.split("/")[-1]` */
  function LastSegment(s: string): string {
    if s == "" || s[|s| - 1] == '/' then "" else LastSegment(s[..|s| - 1]) + [s[|s| - 1]]
  }

  /** The schema a reference names, if it is a reference to a component schema. */
  function RefNames(ref: string): set<string> {
    if PREFIX <= ref then {LastSegment(ref)} else {}
  }

  lemma {:induction false} LastSegmentIs(head: string, name: string)
    requires '/' !in name && (head == "" || head[|head| - 1] == '/')
    ensures LastSegment(head + name) == name
    decreases |name|
  {
    if name == "" {
      assert head + name == head;
    } else {
      var n := |name| - 1;
      assert (head + name)[..|head| + n] == head + name[..n];
      LastSegmentIs(head, name[..n]);
    }
  }

  /** A reference below the component schemas leads to the name behind its last slash, any other to nothing. */
  lemma {:induction false} RefNamesMeans(path: string, name: string)
    requires '/' !in name && (path == "" || path[|path| - 1] == '/')
    ensures RefNames("#/components/schemas/" + path + name) == {name}
    ensures forall ref | !("#/components/schemas/" <= ref) :: RefNames(ref) == {}
  {
    LastSegmentIs("#/components/schemas/" + path, name);
  }

  predicate HasRef(es: seq<Member>) {
    exists i | 0 <= i < |es| :: es[i].key == "$ref"
  }

  /** `node.get("$ref")` of a node that has one */
  function RefOf(es: seq<Member>): Node
    requires HasRef(es)
  {
    if es[0].key == "$ref" then es[0].node
    else
      assert HasRef(es[1..]) by {
        var i :| 0 <= i < |es| && es[i].key == "$ref";
        assert es[1..][i - 1] == es[i];
      }
      RefOf(es[1..])
  }

  predicate FollowsRef(n: Node) {
    n.Object? && HasRef(n.entries) && Truthy(RefOf(n.entries))
  }

  /** The names the walk finds: a node with a reference hides everything else it holds. */
  function Refs(n: Node): set<string>
    decreases n
  {
    if FollowsRef(n) then (if RefOf(n.entries).Text? then RefNames(RefOf(n.entries).s) else {})
    else if n.Object? then MemberRefs(n.entries)
    else if n.Array? then ItemRefs(n.items)
    else {}
  }

  function MemberRefs(es: seq<Member>): set<string>
    decreases es
  {
    if es == [] then {} else MemberRefs(es[..|es| - 1]) + Refs(es[|es| - 1].node)
  }

  function ItemRefs(ns: seq<Node>): set<string>
    decreases ns
  {
    if ns == [] then {} else ItemRefs(ns[..|ns| - 1]) + Refs(ns[|ns| - 1])
  }

  /** Some reference the walk meets is not a string: `startswith` does not exist on it. */
  predicate WalkRaises(n: Node)
    decreases n
  {
    if FollowsRef(n) then !RefOf(n.entries).Text?
    else
      || (n.Object? && exists i | 0 <= i < |n.entries| :: WalkRaises(n.entries[i].node))
      || (n.Array? && exists i | 0 <= i < |n.items| :: WalkRaises(n.items[i]))
  }

  // ---- The closure as a reference definition ----

  /** What a name leads to: nothing when no component, or no object, has it. */
  function RefsOfName(components: map<string, Node>, name: string): set<string> {
    if name in components && components[name].Object? then Refs(components[name]) else {}
  }

  /** Walking the component of this name raises. */
  predicate RaisesAt(components: map<string, Node>, name: string) {
    name in components && components[name].Object? && WalkRaises(components[name])
  }

  ghost predicate ClosedUnder(components: map<string, Node>, s: set<string>) {
    forall n | n in s :: RefsOfName(components, n) <= s
  }

  /** The least set that contains the seeds and is closed under references. */
  ghost predicate LeastClosed(components: map<string, Node>, seeds: set<string>, s: set<string>) {
    && seeds <= s && ClosedUnder(components, s)
    && forall t: set<string> | seeds <= t && ClosedUnder(components, t) :: s <= t
  }

  /** A chain of references from a seed. */
  ghost predicate RefChain(components: map<string, Node>, seeds: set<string>, p: seq<string>) {
    p != [] && p[0] in seeds && forall i | 0 <= i < |p| - 1 :: Leads(components, p[i], p[i + 1])
  }

  ghost predicate Leads(components: map<string, Node>, a: string, b: string) {
    b in RefsOfName(components, a)
  }

  ghost predicate Chained(components: map<string, Node>, seeds: set<string>, n: string) {
    exists p :: RefChain(components, seeds, p) && p[|p| - 1] == n
  }

  lemma {:induction false} ChainStaysInside(
    components: map<string, Node>, seeds: set<string>, s: set<string>, p: seq<string>)
    requires seeds <= s && ClosedUnder(components, s) && RefChain(components, seeds, p)
    ensures p[|p| - 1] in s
    decreases |p|
  {
    if |p| > 1 {
      var q := p[..|p| - 1];
      var k := |p| - 2;
      assert Leads(components, p[k], p[k + 1]);
      forall i | 0 <= i < |q| - 1 ensures Leads(components, q[i], q[i + 1]) {
        assert Leads(components, p[i], p[i + 1]);
      }
      ChainStaysInside(components, seeds, s, q);
    }
  }

  lemma {:induction false} ChainExtends(components: map<string, Node>, seeds: set<string>, a: string, b: string)
    requires Chained(components, seeds, a) && Leads(components, a, b)
    ensures Chained(components, seeds, b)
  {
    var p :| RefChain(components, seeds, p) && p[|p| - 1] == a;
    var q := p + [b];
    forall i | 0 <= i < |q| - 1 ensures Leads(components, q[i], q[i + 1]) {
      assert i < |p| - 1 ==> Leads(components, p[i], p[i + 1]);
    }
    assert RefChain(components, seeds, q) && q[|q| - 1] == b;
  }

  /** The least closed set holds exactly the names some chain of references leads to. */
  lemma {:induction false} LeastClosedIsChained(components: map<string, Node>, seeds: set<string>, s: set<string>,
    n: string)
    requires LeastClosed(components, seeds, s)
    ensures n in s <==> Chained(components, seeds, n)
  {
    if Chained(components, seeds, n) {
      var p :| RefChain(components, seeds, p) && p[|p| - 1] == n;
      ChainStaysInside(components, seeds, s, p);
    }
    var t := set m | m in s && Chained(components, seeds, m);
    forall m | m in seeds ensures m in t {
      assert RefChain(components, seeds, [m]);
    }
    forall m | m in t ensures RefsOfName(components, m) <= t {
      forall k | k in RefsOfName(components, m) ensures k in t {
        assert Leads(components, m, k);
        ChainExtends(components, seeds, m, k);
      }
    }
    assert ClosedUnder(components, t) && s <= t;
  }

  // ---- The collector ----

  /** The schemas of one operation's media types, requests before responses. */
  datatype Operation = Operation(schemas: seq<Node>)

  /** What an operation's schemas refer to at their top. */
  function TopRefs(n: Node): set<string> {
    if FollowsRef(n) && RefOf(n.entries).Text? then RefNames(RefOf(n.entries).s) else {}
  }

  function OperationRefs(ns: seq<Node>): set<string> {
    if ns == [] then {} else OperationRefs(ns[..|ns| - 1]) + TopRefs(ns[|ns| - 1])
  }

  /** A reference at the top of some schema of the operation is not a string. */
  predicate OperationRaises(ns: seq<Node>) {
    exists i | 0 <= i < |ns| :: FollowsRef(ns[i]) && !RefOf(ns[i].entries).Text?
  }

  ghost predicate NoDuplicates(q: seq<string>) {
    forall i, j | 0 <= i < j < |q| :: q[i] != q[j]
  }

  /** The queue has been extended by the names that were not needed before, each once. */
  ghost predicate Extends(known: set<string>, needed: set<string>, added: seq<string>) {
    known <= needed && NoDuplicates(added) && forall n :: n in added <==> n in needed && n !in known
  }

  lemma {:induction false} ExtendsFurther(a: set<string>, b: set<string>, c: set<string>, q: seq<string>,
    r: seq<string>)
    requires Extends(a, b, q) && Extends(b, c, r)
    ensures Extends(a, c, q + r)
  {
    forall i, j | 0 <= i < j < |q + r| ensures (q + r)[i] != (q + r)[j] {
      if i < |q| <= j {
        assert q[i] in q && r[j - |q|] in r;
      }
    }
  }

  class SchemaCollector {
    const components: map<string, Node>
    const paths: map<string, map<string, Operation>>
    var needed: set<string>
    var queue: seq<string>
    /** Every name ever put on the queue, in order. */
    ghost var enqueued: seq<string>

    constructor (components: map<string, Node>, paths: map<string, map<string, Operation>>)
      ensures this.components == components && this.paths == paths
      ensures Valid() && needed == {} && queue == []
    {
      this.components := components;
      this.paths := paths;
      needed, queue, enqueued := {}, [], [];
    }

    /** Each needed name was enqueued exactly once, and the queue is what has not been taken off yet. */
    ghost predicate Queued()
      reads this
    {
      && NoDuplicates(enqueued)
      && (forall n :: n in enqueued <==> n in needed)
      && |queue| <= |enqueued| && queue == enqueued[|enqueued| - |queue|..]
    }

    /** The references of everything that has left the queue have been added, and none of them raised. */
    ghost predicate Valid()
      reads this
    {
      && Queued()
      && forall n | n in needed && n !in queue :: RefsOfName(components, n) <= needed && !RaisesAt(components, n)
    }

    /** `add_ref` */
    method AddRef(ref: string) returns (ghost added: seq<string>)
      requires Queued()
      modifies this
      ensures Queued() && needed == old(needed) + RefNames(ref)
      ensures Extends(old(needed), needed, added) && queue == old(queue) + added
    {
      added := [];
      if PREFIX <= ref {
        var name := LastSegment(ref);
        if name !in needed {
          needed := needed + {name};
          queue := queue + [name];
          enqueued := enqueued + [name];
          added := [name];
        }
      }
    }

    /** The operation an endpoint names, if the specification has it. */
    function OperationAt(verb: string, path: string): Option<Operation> {
      if path in paths && verb in paths[path] then Some(paths[path][verb]) else None
    }

    /** `add_endpoint`; a reference that is not a string raises. */
    method AddEndpoint(verb: string, path: string) returns (raised: bool)
      requires Valid()
      modifies this
      ensures Valid() && old(needed) <= needed
      ensures OperationAt(verb, path).None? ==> !raised && needed == old(needed)
      ensures OperationAt(verb, path).Some? && !raised ==>
                needed == old(needed) + OperationRefs(OperationAt(verb, path).value.schemas)
      ensures raised <==> OperationAt(verb, path).Some? && OperationRaises(OperationAt(verb, path).value.schemas)
    {
      var op := OperationAt(verb, path);
      raised := false;
      if op.Some? {
        ghost var added;
        raised, added := AddOperation(op.value.schemas);
        assert forall n | n in needed && n !in queue :: n in old(needed) && n !in old(queue) && n !in added;
      }
    }

    method AddOperation(ns: seq<Node>) returns (raised: bool, ghost added: seq<string>)
      requires Queued()
      modifies this
      ensures Queued() && Extends(old(needed), needed, added) && queue == old(queue) + added
      ensures !raised ==> needed == old(needed) + OperationRefs(ns)
      ensures raised <==> OperationRaises(ns)
    {
      added := [];
      for i := 0 to |ns|
        invariant Queued() && Extends(old(needed), needed, added) && queue == old(queue) + added
        invariant needed == old(needed) + OperationRefs(ns[..i]) && !OperationRaises(ns[..i])
      {
        assert ns[..i + 1][..i] == ns[..i];
        if FollowsRef(ns[i]) {
          if !RefOf(ns[i].entries).Text? {
            return true, added;
          }
          ghost var mid := needed;
          ghost var more := AddRef(RefOf(ns[i].entries).s);
          ExtendsFurther(old(needed), mid, needed, added, more);
          added := added + more;
        }
      }
      assert ns[..|ns|] == ns;
      return false, added;
    }

    /** `node.get("$ref")` of a dictionary, if it is true. */
    method GetRef(node: Node) returns (ref: Option<Node>)
      ensures ref == if FollowsRef(node) then Some(RefOf(node.entries)) else None
    {
      if !node.Object? {
        return None;
      }
      var es := node.entries;
      for i := 0 to |es|
        invariant HasRef(es) <==> HasRef(es[i..])
        invariant HasRef(es) ==> RefOf(es) == RefOf(es[i..])
      {
        assert es[i..][0] == es[i] && es[i..][1..] == es[i + 1..];
        assert forall j | i < j < |es| :: es[j] == es[i + 1..][j - i - 1];
        if es[i].key == "$ref" {
          var n := es[i].node;
          var isFalse := n == Text("") || n == Object([]) || n == Array([]) || n == Scalar(false);
          return if isFalse then None else Some(n);
        }
      }
      return None;
    }

    /** `_walk`: adds every reference below the node, or raises at one that is not a string. */
    method Walk(node: Node) returns (raised: bool, ghost added: seq<string>)
      requires Queued()
      modifies this
      ensures Queued() && Extends(old(needed), needed, added) && queue == old(queue) + added
      ensures raised <==> WalkRaises(node)
      ensures !raised ==> needed == old(needed) + Refs(node)
      decreases node
    {
      added := [];
      raised := false;
      var ref := GetRef(node);
      if ref.Some? {
        if ref.value.Text? {
          added := AddRef(ref.value.s);
        } else {
          raised := true;
        }
      } else if node.Object? {
        raised, added := WalkMembers(node.entries);
      } else if node.Array? {
        raised, added := WalkItems(node.items);
      }
    }

    method WalkMembers(es: seq<Member>) returns (raised: bool, ghost added: seq<string>)
      requires Queued()
      modifies this
      ensures Queued() && Extends(old(needed), needed, added) && queue == old(queue) + added
      ensures raised <==> exists i | 0 <= i < |es| :: WalkRaises(es[i].node)
      ensures !raised ==> needed == old(needed) + MemberRefs(es)
      decreases es
    {
      added := [];
      for i := 0 to |es|
        invariant Queued() && Extends(old(needed), needed, added) && queue == old(queue) + added
        invariant needed == old(needed) + MemberRefs(es[..i])
        invariant forall j | 0 <= j < i :: !WalkRaises(es[j].node)
      {
        assert es[..i + 1][..i] == es[..i];
        ghost var mid := needed;
        ghost var more;
        raised, more := Walk(es[i].node);
        ExtendsFurther(old(needed), mid, needed, added, more);
        added := added + more;
        if raised {
          return;
        }
      }
      assert es[..|es|] == es;
      raised := false;
    }

    method WalkItems(ns: seq<Node>) returns (raised: bool, ghost added: seq<string>)
      requires Queued()
      modifies this
      ensures Queued() && Extends(old(needed), needed, added) && queue == old(queue) + added
      ensures raised <==> exists i | 0 <= i < |ns| :: WalkRaises(ns[i])
      ensures !raised ==> needed == old(needed) + ItemRefs(ns)
      decreases ns
    {
      added := [];
      for i := 0 to |ns|
        invariant Queued() && Extends(old(needed), needed, added) && queue == old(queue) + added
        invariant needed == old(needed) + ItemRefs(ns[..i])
        invariant forall j | 0 <= j < i :: !WalkRaises(ns[j])
      {
        assert ns[..i + 1][..i] == ns[..i];
        ghost var mid := needed;
        ghost var more;
        raised, more := Walk(ns[i]);
        ExtendsFurther(old(needed), mid, needed, added, more);
        added := added + more;
        if raised {
          return;
        }
      }
      assert ns[..|ns|] == ns;
      raised := false;
    }

    /**
     * `collect`: stops on every specification. It raises exactly when a chain of references leads to a component
     * that cannot be walked, and returns the least closed set of names otherwise.
     */
    method Collect() returns (raised: bool, r: set<string>)
      requires Valid()
      modifies this
      ensures !raised ==> Valid() && queue == [] && r == needed && LeastClosed(components, old(needed), needed)
      ensures raised <==> SomeRaises(components, old(needed))
    {
      var processed: set<string> := {};
      ghost var seeds, universe := needed, needed + AllRefs(components);
      SeedsAreChained(components, seeds);
      while queue != []
        invariant Valid() && seeds <= needed <= universe
        invariant AllChained(components, seeds, needed) && Handled(components, processed, needed)
        decreases universe - processed, |queue|
      {
        raised, processed := CollectNext(processed, seeds);
        if raised {
          return true, needed;
        }
      }
      AllHandled();
      ChainedIsLeast(components, seeds, needed);
      return false, needed;
    }

    lemma {:induction false} AllHandled()
      requires Valid() && queue == []
      ensures Handled(components, needed, needed)
    {
    }

    /** One iteration: the name at the head of the queue is walked unless it was before. */
    method CollectNext(processed: set<string>, ghost seeds: set<string>) returns (raised: bool, handled: set<string>)
      requires Valid() && queue != [] && Handled(components, processed, needed) && AllChained(components, seeds, needed)
      modifies this
      ensures raised ==> SomeRaises(components, seeds)
      ensures !raised ==> Valid() && AllChained(components, seeds, needed) && Handled(components, handled, needed)
      ensures !raised ==> old(needed) <= needed <= old(needed) + AllRefs(components)
      ensures !raised ==> || (handled == processed && |queue| < |old(queue)|)
                          || exists n :: n in old(needed) && n !in processed && handled == processed + {n}
    {
      var name := queue[0];
      ghost var before := needed;
      if name in processed {
        DropNext(name);
        return false, processed;
      }
      raised := ProcessNext(name);
      handled := processed + {name};
      if raised {
        assert Chained(components, seeds, name);
        return;
      }
      ChainedRefs(components, seeds, before, name);
      RefsAreKnown(components, name);
    }

    method DropNext(name: string)
      requires Valid() && queue != [] && queue[0] == name
      requires RefsOfName(components, name) <= needed && !RaisesAt(components, name)
      modifies this`queue
      ensures Valid() && queue == old(queue)[1..]
    {
      queue := queue[1..];
    }

    /** One name taken off the queue and its component walked, if it has one. */
    method ProcessNext(name: string) returns (raised: bool)
      requires Valid() && queue != [] && queue[0] == name
      modifies this
      ensures raised <==> RaisesAt(components, name)
      ensures name in old(needed)
      ensures !raised ==> Valid() && needed == old(needed) + RefsOfName(components, name)
    {
      assert name in enqueued;
      queue := queue[1..];
      raised := false;
      if name in components && components[name].Object? {
        ghost var added;
        raised, added := Walk(components[name]);
      }
    }
  }

  /** A chain of references leads to a component that cannot be walked. */
  ghost predicate SomeRaises(components: map<string, Node>, seeds: set<string>) {
    exists n :: Chained(components, seeds, n) && RaisesAt(components, n)
  }

  ghost predicate Handled(components: map<string, Node>, processed: set<string>, needed: set<string>) {
    forall n | n in processed :: RefsOfName(components, n) <= needed && !RaisesAt(components, n)
  }

  ghost predicate AllChained(components: map<string, Node>, seeds: set<string>, s: set<string>) {
    forall n | n in s :: Chained(components, seeds, n)
  }

  lemma {:induction false} SeedsAreChained(components: map<string, Node>, seeds: set<string>)
    ensures AllChained(components, seeds, seeds)
  {
    forall n | n in seeds ensures Chained(components, seeds, n) {
      assert RefChain(components, seeds, [n]);
    }
  }

  lemma {:induction false} ChainedRefs(components: map<string, Node>, seeds: set<string>, s: set<string>, name: string)
    requires AllChained(components, seeds, s) && name in s
    ensures AllChained(components, seeds, s + RefsOfName(components, name))
  {
    forall n | n in RefsOfName(components, name) ensures Chained(components, seeds, n) {
      assert Leads(components, name, n);
      ChainExtends(components, seeds, name, n);
    }
  }

  /** A closed set of chained names that contains the seeds is the least one. */
  lemma {:induction false} ChainedIsLeast(components: map<string, Node>, seeds: set<string>, s: set<string>)
    requires seeds <= s && AllChained(components, seeds, s) && Handled(components, s, s)
    ensures LeastClosed(components, seeds, s) && !SomeRaises(components, seeds)
  {
    forall t: set<string> | seeds <= t && ClosedUnder(components, t) ensures s <= t {
      forall n | n in s ensures n in t {
        var p :| RefChain(components, seeds, p) && p[|p| - 1] == n;
        ChainStaysInside(components, seeds, t, p);
      }
    }
    forall n ensures Chained(components, seeds, n) <==> n in s {
      LeastClosedIsChained(components, seeds, s, n);
    }
  }

  function AllRefs(components: map<string, Node>): set<string> {
    set c, n | c in components && n in Refs(components[c]) :: n
  }

  lemma {:induction false} RefsAreKnown(components: map<string, Node>, name: string)
    ensures RefsOfName(components, name) <= AllRefs(components)
  {
  }
}
