/** Thought trees: nodes, chains, parsing, scoring and sorting (src/orchestra/reasoning/tot.py). */
module ThoughtTree {
  import opened Wrappers

  const FINAL_PREFIX := "FINAL ANSWER:"
  const IMPOSSIBLE_THRESHOLD: real := 0.2

  /** A node of the tree; nodes refer to each other by their place in the list of all nodes. */
  datatype ThoughtNode = ThoughtNode(
    thought: string, value: real, depth: nat, parent: Option<nat>, children: seq<nat>, isTerminal: bool)

  /**
   The language model: what the n-th generation and the n-th evaluation return; None is an exception.
   Nothing is assumed about it, so it may depend on anything the prompts contain.
   */
  datatype Oracle = Oracle(generate: nat -> Option<seq<string>>, evaluate: nat -> Option<real>)

  datatype Settings = Settings(breadth: nat, beam: nat, maxDepth: nat)

  predicate FinalAt(thought: string, i: nat) {
    i + |FINAL_PREFIX| <= |thought| && thought[i..i + |FINAL_PREFIX|] == FINAL_PREFIX
  }

  predicate IsFinal(thought: string) {
    exists i :: 0 <= i <= |thought| && FinalAt(thought, i)
  }

  // ---- Shape ----

  /** One root, and every other node one level below an earlier node. */
  ghost predicate Rooted(nodes: seq<ThoughtNode>) {
    && nodes != [] && nodes[0].depth == 0 && nodes[0].parent.None?
    && forall i :: 0 < i < |nodes| ==>
         nodes[i].parent.Some? && nodes[i].parent.value < i && nodes[i].depth == nodes[nodes[i].parent.value].depth + 1
  }

  predicate IsChild(nodes: seq<ThoughtNode>, c: nat, i: nat) {
    c < |nodes| && nodes[c].parent == Some(i)
  }

  /** Every node lists exactly the nodes whose parent it is. */
  ghost predicate Linked(nodes: seq<ThoughtNode>) {
    forall i: nat, c: nat :: i < |nodes| ==> (c in nodes[i].children <==> IsChild(nodes, c, i))
  }

  ghost predicate IsTree(nodes: seq<ThoughtNode>) {
    Rooted(nodes) && Linked(nodes)
  }

  /** The thoughts from the root to a node. */
  function Chain(nodes: seq<ThoughtNode>, i: nat): seq<string>
    requires i < |nodes|
  {
    match nodes[i].parent
    case None => [nodes[i].thought]
    case Some(p) => if p < i then Chain(nodes, p) + [nodes[i].thought] else [nodes[i].thought]
  }

  /** A chain starts at the root, ends at the node and has one thought per level. */
  lemma {:induction false} ChainLength(nodes: seq<ThoughtNode>, i: nat)
    requires IsTree(nodes) && i < |nodes|
    ensures var c := Chain(nodes, i);
            |c| == nodes[i].depth + 1 && c[0] == nodes[0].thought && c[|c| - 1] == nodes[i].thought
    decreases i
  {
    if i > 0 {
      ChainLength(nodes, nodes[i].parent.value);
    }
  }

  // ---- Parsing ----

  /** The non-empty thoughts, first occurrences only. */
  function Deduplicated(raw: seq<string>): seq<string> {
    if raw == [] then [] else
    var unique, t := Deduplicated(raw[..|raw| - 1]), raw[|raw| - 1];
    if t == "" || t in unique then unique else unique + [t]
  }

  function Take<T>(s: seq<T>, k: nat): seq<T> {
    if |s| <= k then s else s[..k]
  }

  function ParseThoughts(raw: seq<string>, k: nat): seq<string> {
    Take(Deduplicated(raw), k)
  }

  /** One of the first n lines is t. */
  predicate OccursBefore(raw: seq<string>, t: string, n: nat)
    requires n <= |raw|
  {
    exists p :: 0 <= p < n && raw[p] == t
  }

  /** In the order of first occurrence: no line is late unless earlier came before it. */
  predicate AppearsFirst(raw: seq<string>, earlier: string, late: string) {
    forall q :: 0 <= q < |raw| && raw[q] == late ==> OccursBefore(raw, earlier, q)
  }

  /**
   At most k thoughts, none empty, no two the same, each of them one of the lines given, in the order in which
   they first occur; a line that is missing was empty or beyond the first k.
   */
  lemma ParsedThoughts(raw: seq<string>, k: nat)
    ensures var ts := ParseThoughts(raw, k);
            && |ts| <= k
            && (forall i :: 0 <= i < |ts| ==> ts[i] != "" && ts[i] in raw)
            && (forall i, j :: 0 <= i < j < |ts| ==> ts[i] != ts[j] && AppearsFirst(raw, ts[i], ts[j]))
            && (|ts| < k ==> forall i :: 0 <= i < |raw| && raw[i] != "" ==> raw[i] in ts)
  {
    UniqueThoughts(raw);
    FirstOccurrences(raw);
    assert ParseThoughts(raw, k) <= Deduplicated(raw);
  }

  lemma {:induction false} FirstOccurrences(raw: seq<string>)
    ensures var ts := Deduplicated(raw);
            forall i, j :: 0 <= i < j < |ts| ==> AppearsFirst(raw, ts[i], ts[j])
    decreases |raw|
  {
    if raw != [] {
      var init, ts := raw[..|raw| - 1], Deduplicated(raw);
      FirstOccurrences(init);
      UniqueThoughts(init);
      forall i, j | 0 <= i < j < |ts| ensures AppearsFirst(raw, ts[i], ts[j]) {
        assert ts[i] == Deduplicated(init)[i] && ts[i] in init;
        var p :| 0 <= p < |init| && init[p] == ts[i];
        assert OccursBefore(raw, ts[i], |init|) by {
          assert raw[p] == ts[i];
        }
        forall q | 0 <= q < |init| && raw[q] == ts[j] ensures OccursBefore(raw, ts[i], q) {
          assert init[q] == ts[j] && AppearsFirst(init, ts[i], ts[j]);
          var r :| 0 <= r < q && init[r] == ts[i];
          assert raw[r] == ts[i];
        }
      }
    }
  }

  lemma {:induction false} UniqueThoughts(raw: seq<string>)
    ensures var ts := Deduplicated(raw);
            && (forall i :: 0 <= i < |ts| ==> ts[i] != "" && ts[i] in raw)
            && (forall i :: 0 <= i < |raw| && raw[i] != "" ==> raw[i] in ts)
            && (forall i, j :: 0 <= i < j < |ts| ==> ts[i] != ts[j])
    decreases |raw|
  {
    if raw != [] {
      var init, t := raw[..|raw| - 1], raw[|raw| - 1];
      UniqueThoughts(init);
      var unique, ts := Deduplicated(init), Deduplicated(raw);
      forall i | 0 <= i < |ts| ensures ts[i] != "" && ts[i] in raw {
        if i < |unique| {
          assert ts[i] == unique[i] && unique[i] in init;
        }
      }
      forall i | 0 <= i < |raw| && raw[i] != "" ensures raw[i] in ts {
        if i < |init| {
          assert init[i] in unique;
        }
      }
    }
  }

  // ---- Growing and scoring ----

  /** Children of node i, one per thought, not yet evaluated. */
  function WithChildren(nodes: seq<ThoughtNode>, i: nat, thoughts: seq<string>): seq<ThoughtNode>
    requires i < |nodes|
    ensures |WithChildren(nodes, i, thoughts)| == |nodes| + |thoughts|
  {
    if thoughts == [] then nodes else
    var grown := WithChildren(nodes, i, thoughts[..|thoughts| - 1]);
    var child := ThoughtNode(thoughts[|thoughts| - 1], 0.5, nodes[i].depth + 1, Some(i), [], false);
    grown[i := grown[i].(children := grown[i].children + [|grown|])] + [child]
  }

  /** The ids from a up to b. */
  function Ids(a: nat, b: nat): seq<nat>
    requires a <= b
  {
    seq(b - a, k requires 0 <= k < b - a => a + k)
  }

  /** One node evaluated: a final answer is worth 1 without asking; a failed evaluation counts as maybe. */
  function Scored1(nodes: seq<ThoughtNode>, i: nat, oracle: Oracle, evals: nat): (seq<ThoughtNode>, nat)
    requires i < |nodes|
  {
    if IsFinal(nodes[i].thought) then (nodes[i := nodes[i].(isTerminal := true, value := 1.0)], evals)
    else
      var v := match oracle.evaluate(evals) case None => 0.5 case Some(v) => v;
      (nodes[i := nodes[i].(value := v)], evals + 1)
  }

  /** The nodes from a up to b evaluated in order. */
  function Scored(nodes: seq<ThoughtNode>, a: nat, b: nat, oracle: Oracle, evals: nat): (r: (seq<ThoughtNode>, nat))
    requires a <= b <= |nodes|
    ensures |r.0| == |nodes|
    decreases b
  {
    if a == b then (nodes, evals) else
    var (scored, n) := Scored(nodes, a, b - 1, oracle, evals);
    Scored1(scored, b - 1, oracle, n)
  }

  ghost predicate InRange(nodes: seq<ThoughtNode>, ids: seq<nat>) {
    forall k :: 0 <= k < |ids| ==> ids[k] < |nodes|
  }

  /** The better of the best so far and the terminal nodes among ids, the earliest of equals. */
  function BestTerminal(nodes: seq<ThoughtNode>, best: Option<nat>, ids: seq<nat>): Option<nat>
    requires InRange(nodes, ids) && (best.Some? ==> best.value < |nodes|)
    ensures BestTerminal(nodes, best, ids).Some? ==> BestTerminal(nodes, best, ids).value < |nodes|
  {
    if ids == [] then best else
    var b, i := BestTerminal(nodes, best, ids[..|ids| - 1]), ids[|ids| - 1];
    if nodes[i].isTerminal && (b.None? || nodes[i].value > nodes[b.value].value) then Some(i) else b
  }

  function Select(nodes: seq<ThoughtNode>, ids: seq<nat>, terminal: bool): (r: seq<nat>)
    requires InRange(nodes, ids)
    ensures |r| <= |ids| && forall i :: i in r ==> i in ids
  {
    if ids == [] then [] else
    var i := ids[|ids| - 1];
    Select(nodes, ids[..|ids| - 1], terminal) +
    if nodes[i].isTerminal == terminal && (terminal || nodes[i].value > IMPOSSIBLE_THRESHOLD) then [i] else []
  }

  // ---- Sorting ----

  /** The stable library sort: after all elements of at most its key. */
  function Insert(x: nat, s: seq<nat>, key: nat -> real): seq<nat> {
    if s == [] || key(s[|s| - 1]) <= key(x) then s + [x] else Insert(x, s[..|s| - 1], key) + [s[|s| - 1]]
  }

  function SortBy(s: seq<nat>, key: nat -> real): seq<nat> {
    if s == [] then [] else Insert(s[|s| - 1], SortBy(s[..|s| - 1], key), key)
  }

  ghost predicate Ascending(s: seq<nat>, key: nat -> real) {
    forall i, j :: 0 <= i < j < |s| ==> key(s[i]) <= key(s[j])
  }

  lemma {:induction false} InsertPermutes(x: nat, s: seq<nat>, key: nat -> real)
    ensures multiset(Insert(x, s, key)) == multiset(s) + multiset{x}
    decreases |s|
  {
    if s != [] && key(s[|s| - 1]) > key(x) {
      InsertPermutes(x, s[..|s| - 1], key);
      assert s == s[..|s| - 1] + [s[|s| - 1]];
    }
  }

  lemma {:induction false} InsertSorts(x: nat, s: seq<nat>, key: nat -> real)
    requires Ascending(s, key)
    ensures Ascending(Insert(x, s, key), key)
    decreases |s|
  {
    if s != [] && key(s[|s| - 1]) > key(x) {
      var init, last := s[..|s| - 1], s[|s| - 1];
      InsertSorts(x, init, key);
      InsertPermutes(x, init, key);
      var inserted := Insert(x, init, key);
      forall i | 0 <= i < |inserted| ensures key(inserted[i]) <= key(last) {
        assert inserted[i] in multiset(inserted);
        assert inserted[i] == x || inserted[i] in init;
      }
    }
  }

  lemma {:induction false} SortSorts(s: seq<nat>, key: nat -> real)
    ensures Ascending(SortBy(s, key), key) && multiset(SortBy(s, key)) == multiset(s)
    ensures |SortBy(s, key)| == |s| && forall x :: x in SortBy(s, key) <==> x in s
    decreases |s|
  {
    if s != [] {
      SortSorts(s[..|s| - 1], key);
      InsertSorts(s[|s| - 1], SortBy(s[..|s| - 1], key), key);
      InsertPermutes(s[|s| - 1], SortBy(s[..|s| - 1], key), key);
      assert s == s[..|s| - 1] + [s[|s| - 1]];
    }
    assert |multiset(SortBy(s, key))| == |multiset(s)|;
    forall x ensures x in SortBy(s, key) <==> x in s {
      assert x in SortBy(s, key) <==> x in multiset(SortBy(s, key));
      assert x in s <==> x in multiset(s);
    }
  }

  /** The elements of one key, in order. */
  function OfKey(s: seq<nat>, key: nat -> real, v: real): seq<nat> {
    if s == [] then [] else
    OfKey(s[..|s| - 1], key, v) + if key(s[|s| - 1]) == v then [s[|s| - 1]] else []
  }

  lemma {:induction false} InsertIsStable(x: nat, s: seq<nat>, key: nat -> real, v: real)
    ensures OfKey(Insert(x, s, key), key, v) == OfKey(s + [x], key, v)
    decreases |s|
  {
    if s != [] && key(s[|s| - 1]) > key(x) {
      var init, last := s[..|s| - 1], s[|s| - 1];
      InsertIsStable(x, init, key, v);
    }
  }

  /** Sorting keeps elements of equal key in their order. */
  lemma {:induction false} SortIsStable(s: seq<nat>, key: nat -> real, v: real)
    ensures OfKey(SortBy(s, key), key, v) == OfKey(s, key, v)
    decreases |s|
  {
    if s != [] {
      var init, last := s[..|s| - 1], s[|s| - 1];
      SortIsStable(init, key, v);
      InsertIsStable(last, SortBy(init, key), key, v);
    }
  }

  function ValueOf(nodes: seq<ThoughtNode>): nat -> real {
    (i: nat) => if i < |nodes| then nodes[i].value else 0.0
  }

  function MinusValueOf(nodes: seq<ThoughtNode>): nat -> real {
    (i: nat) => if i < |nodes| then -nodes[i].value else 0.0
  }
}
