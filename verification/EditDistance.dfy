/** Levenshtein distance and suggestions (src/orchestra/discovery/validation.py). */
module EditDistance {
  import opened Wrappers

  function Min(a: nat, b: nat): nat {
    if a <= b then a else b
  }

  /** The cost of aligning two characters. */
  function Cost(x: char, y: char): nat {
    if x == y then 0 else 1
  }

  function Init(s: string): string
    requires s != ""
  {
    s[..|s| - 1]
  }

  function Last(s: string): char
    requires s != ""
  {
    s[|s| - 1]
  }

  /** One cell of the table, from the cells to its left, above it and diagonally before it. */
  function Cell(left: nat, up: nat, diagonal: nat, cost: nat): nat {
    Min(Min(left + 1, up + 1), diagonal + cost)
  }

  /** The recurrence the table is filled by. */
  function Distance(a: string, b: string): nat
    decreases |a| + |b|
  {
    if a == "" then |b|
    else if b == "" then |a|
    else
      var a', b' := a[..|a| - 1], b[..|b| - 1];
      Cell(Distance(a, b'), Distance(a', b), Distance(a', b'), Cost(a[|a| - 1], b[|b| - 1]))
  }

  // ---- The two-row table ----

  lemma {:induction false} DistanceSymmetric(a: string, b: string)
    ensures Distance(a, b) == Distance(b, a)
    decreases |a| + |b|
  {
    if a != "" && b != "" {
      DistanceSymmetric(a, Init(b));
      DistanceSymmetric(Init(a), b);
      DistanceSymmetric(Init(a), Init(b));
    }
  }

  /** Row i of the table, up to column j. */
  ghost predicate IsRow(row: seq<nat>, a: string, b: string) {
    |row| <= |b| + 1 && forall j :: 0 <= j < |row| ==> row[j] == Distance(a, b[..j])
  }

  lemma NextCell(a: string, b: string, i: nat, j: nat)
    requires i < |a| && j < |b|
    ensures Distance(a[..i + 1], b[..j + 1]) ==
            Cell(Distance(a[..i + 1], b[..j]), Distance(a[..i], b[..j + 1]), Distance(a[..i], b[..j]), Cost(a[i], b[j]))
  {
    assert a[..i + 1][..i] == a[..i] && b[..j + 1][..j] == b[..j];
  }

  lemma RowGrows(a: string, b: string, i: nat, j: nat, prev: seq<nat>, curr: seq<nat>)
    requires i < |a| && j < |b|
    requires |prev| == |b| + 1 && IsRow(prev, a[..i], b)
    requires |curr| == j + 1 && IsRow(curr, a[..i + 1], b)
    ensures IsRow(curr + [Cell(curr[j], prev[j + 1], prev[j], Cost(a[i], b[j]))], a[..i + 1], b)
  {
    NextCell(a, b, i, j);
  }

  /** _edit_distance: the shorter string across, two rows at a time. */
  method ComputeDistance(a: string, b: string) returns (d: nat)
    ensures d == Distance(a, b)
    decreases if |a| < |b| then 1 else 0
  {
    if |a| < |b| {
      DistanceSymmetric(a, b);
      d := ComputeDistance(b, a);
      return;
    }
    if |b| == 0 {
      return |a|;
    }
    var prev: seq<nat> := seq(|b| + 1, j => j);
    assert IsRow(prev, a[..0], b);
    for i := 0 to |a|
      invariant |prev| == |b| + 1 && IsRow(prev, a[..i], b)
    {
      prev := NextRow(a, b, i, prev);
    }
    assert a[..|a|] == a && b[..|b|] == b;
    return prev[|b|];
  }

  /** The inner loop: row i + 1 from row i. */
  method NextRow(a: string, b: string, i: nat, prev: seq<nat>) returns (curr: seq<nat>)
    requires i < |a| && |prev| == |b| + 1 && IsRow(prev, a[..i], b)
    ensures |curr| == |b| + 1 && IsRow(curr, a[..i + 1], b)
  {
    curr := [i + 1];
    for j := 0 to |b|
      invariant |curr| == j + 1 && IsRow(curr, a[..i + 1], b)
    {
      RowGrows(a, b, i, j, prev, curr);
      curr := curr + [Cell(curr[j], prev[j + 1], prev[j], Cost(a[i], b[j]))];
    }
  }

  // ---- Insert, delete, substitute ----

  function InsertAt(s: string, p: nat, c: char): string
    requires p <= |s|
  {
    s[..p] + [c] + s[p..]
  }

  function ReplaceAt(s: string, p: nat, c: char): string
    requires p < |s|
  {
    s[p := c]
  }

  /** t is s with one character inserted. */
  ghost predicate Inserts(s: string, t: string) {
    exists p: nat, c: char :: p <= |s| && t == InsertAt(s, p, c)
  }

  /** t is s with one character replaced. */
  ghost predicate Substitutes(s: string, t: string) {
    exists p: nat, c: char :: p < |s| && t == ReplaceAt(s, p, c)
  }

  /** One insertion, deletion or substitution, anywhere in the string. */
  ghost predicate OneEdit(s: string, t: string) {
    Inserts(s, t) || Inserts(t, s) || Substitutes(s, t)
  }

  /** An edit script: the strings it goes through, each one edit from the one before. */
  ghost predicate Script(path: seq<string>, s: string, t: string) {
    && |path| >= 1 && path[0] == s && path[|path| - 1] == t
    && forall i :: 0 <= i < |path| - 1 ==> OneEdit(path[i], path[i + 1])
  }

  // ---- The distance is the length of some script ----

  ghost predicate Reaches(s: string, t: string, n: nat) {
    exists path :: Script(path, s, t) && |path| == n + 1
  }

  lemma ReachesSelf(s: string)
    ensures Reaches(s, s, 0)
  {
    assert Script([s], s, s);
  }

  lemma ReachesMore(s: string, t: string, u: string, n: nat)
    requires Reaches(s, t, n) && OneEdit(t, u)
    ensures Reaches(s, u, n + 1)
  {
    var path :| Script(path, s, t) && |path| == n + 1;
    assert Script(path + [u], s, u);
  }

  /** Editing under a fixed last character. */
  lemma EditUnder(s: string, t: string, c: char)
    requires OneEdit(s, t)
    ensures OneEdit(s + [c], t + [c])
  {
    if Inserts(s, t) {
      InsertUnder(s, t, c);
    } else if Inserts(t, s) {
      InsertUnder(t, s, c);
    } else {
      var p: nat, x: char :| p < |s| && t == ReplaceAt(s, p, x);
      assert t + [c] == ReplaceAt(s + [c], p, x);
    }
  }

  lemma InsertUnder(s: string, t: string, c: char)
    requires Inserts(s, t)
    ensures Inserts(s + [c], t + [c])
  {
    var p: nat, x: char :| p <= |s| && t == InsertAt(s, p, x);
    assert t + [c] == InsertAt(s + [c], p, x);
  }

  lemma {:induction false} ReachesUnder(s: string, t: string, n: nat, c: char)
    requires Reaches(s, t, n)
    ensures Reaches(s + [c], t + [c], n)
  {
    var path :| Script(path, s, t) && |path| == n + 1;
    var lifted := seq(|path|, i requires 0 <= i < |path| => path[i] + [c]);
    forall i | 0 <= i < |lifted| - 1 ensures OneEdit(lifted[i], lifted[i + 1]) {
      EditUnder(path[i], path[i + 1], c);
    }
    assert Script(lifted, s + [c], t + [c]);
  }

  lemma AppendIsInsert(s: string, c: char)
    ensures Inserts(s, s + [c])
  {
    assert s + [c] == InsertAt(s, |s|, c);
  }

  lemma {:induction false} DistanceReached(a: string, b: string)
    ensures Reaches(a, b, Distance(a, b))
    decreases |a| + |b|
  {
    if a == "" {
      if b == "" {
        ReachesSelf(a);
      } else {
        DistanceReached(a, Init(b));
        InsertLast(a, b, |b| - 1);
      }
    } else if b == "" {
      DistanceReached(Init(a), b);
      DeleteLast(a, b, |a| - 1);
    } else if Distance(a, b) == Distance(a, Init(b)) + 1 {
      DistanceReached(a, Init(b));
      InsertLast(a, b, Distance(a, Init(b)));
    } else if Distance(a, b) == Distance(Init(a), b) + 1 {
      DistanceReached(Init(a), b);
      DeleteLast(a, b, Distance(Init(a), b));
    } else {
      DistanceReached(Init(a), Init(b));
      AlignLast(a, b, Distance(Init(a), Init(b)));
    }
  }

  lemma InsertLast(a: string, b: string, n: nat)
    requires b != "" && Reaches(a, Init(b), n)
    ensures Reaches(a, b, n + 1)
  {
    assert b == Init(b) + [Last(b)];
    AppendIsInsert(Init(b), Last(b));
    ReachesMore(a, Init(b), b, n);
  }

  lemma DeleteLast(a: string, b: string, n: nat)
    requires a != "" && Reaches(Init(a), b, n)
    ensures Reaches(a, b, n + 1)
  {
    assert a == Init(a) + [Last(a)];
    AppendIsInsert(Init(a), Last(a));
    var path :| Script(path, Init(a), b) && |path| == n + 1;
    assert Script([a] + path, a, b);
  }

  lemma AlignLast(a: string, b: string, n: nat)
    requires a != "" && b != "" && Reaches(Init(a), Init(b), n)
    ensures Reaches(a, b, n + Cost(Last(a), Last(b)))
  {
    assert a == Init(a) + [Last(a)] && b == Init(b) + [Last(b)];
    ReachesUnder(Init(a), Init(b), n, Last(a));
    if Last(a) != Last(b) {
      var t := Init(b) + [Last(a)];
      assert b == ReplaceAt(t, |Init(b)|, Last(b));
      ReachesMore(a, t, b, n);
    }
  }

  // ---- No script is shorter ----

  lemma {:induction false} StepsByOne(a: string, b: string)
    requires a != ""
    ensures Distance(a, b) <= Distance(Init(a), b) + 1
    ensures Distance(b, a) <= Distance(b, Init(a)) + 1
  {
    DistanceSymmetric(a, b);
    DistanceSymmetric(Init(a), b);
  }

  lemma {:induction false} TriangleInequality(a: string, b: string, c: string)
    ensures Distance(a, c) <= Distance(a, b) + Distance(b, c)
    decreases |a| + |b| + |c|
  {
    if a != "" && Distance(a, b) == Distance(Init(a), b) + 1 {
      TriangleInequality(Init(a), b, c);
      StepsByOne(a, c);
    } else if c != "" && Distance(b, c) == Distance(b, Init(c)) + 1 {
      TriangleInequality(a, b, Init(c));
      StepsByOne(c, a);
    } else if b != "" {
      TriangleStep(a, b, c);
    } else {
      assert a == "" && c == "";
    }
  }

  /** The last character of b is inserted, or aligned with that of a, and deleted, or aligned with that of c. */
  lemma {:induction false} TriangleStep(a: string, b: string, c: string)
    requires b != ""
    requires a != "" ==> Distance(a, b) != Distance(Init(a), b) + 1
    requires c != "" ==> Distance(b, c) != Distance(b, Init(c)) + 1
    ensures Distance(a, c) <= Distance(a, b) + Distance(b, c)
    decreases |a| + |b| + |c|, 0
  {
    var inserted := a == "" || Distance(a, b) == Distance(a, Init(b)) + 1;
    var deleted := c == "" || Distance(b, c) == Distance(Init(b), c) + 1;
    if inserted && deleted {
      TriangleInequality(a, Init(b), c);
    } else if inserted {
      TriangleInequality(a, Init(b), Init(c));
      StepsByOne(c, a);
    } else if deleted {
      TriangleInequality(Init(a), Init(b), c);
      StepsByOne(a, c);
    } else {
      TriangleInequality(Init(a), Init(b), Init(c));
    }
  }

  lemma {:induction false} SelfDistance(a: string)
    ensures Distance(a, a) == 0
    decreases |a|
  {
    if a != "" {
      SelfDistance(Init(a));
    }
  }

  lemma {:induction false} ZeroOnlyOnEqual(a: string, b: string)
    ensures Distance(a, b) == 0 <==> a == b
    decreases |a|
  {
    if a != "" && b != "" {
      ZeroOnlyOnEqual(Init(a), Init(b));
      assert a == Init(a) + [Last(a)] && b == Init(b) + [Last(b)];
    }
  }

  lemma {:induction false} SameSuffix(s: string, t: string, u: string)
    ensures Distance(s + u, t + u) <= Distance(s, t)
    decreases |u|
  {
    if u == "" {
      assert s + u == s && t + u == t;
    } else {
      var s', t' := s + Init(u), t + Init(u);
      assert s + u == s' + [Last(u)] && t + u == t' + [Last(u)];
      SameSuffix(s, t, Init(u));
    }
  }

  lemma {:induction false} InsertCostsOne(s: string, t: string)
    requires Inserts(s, t)
    ensures Distance(s, t) <= 1 && Distance(t, s) <= 1
  {
    var p: nat, c: char :| p <= |s| && t == InsertAt(s, p, c);
    var front, back := s[..p], s[p..];
    assert s == front + back && Init(front + [c]) == front;
    SelfDistance(front);
    SameSuffix(front, front + [c], back);
    DistanceSymmetric(s, t);
  }

  lemma SubstituteCostsOne(s: string, t: string)
    requires Substitutes(s, t)
    ensures Distance(s, t) <= 1
  {
    var p: nat, c: char :| p < |s| && t == ReplaceAt(s, p, c);
    var front, back := s[..p], s[p + 1..];
    assert s == front + [s[p]] + back && t == front + [c] + back;
    assert Init(front + [c]) == front && Init(front + [s[p]]) == front;
    SelfDistance(front);
    SameSuffix(front + [s[p]], front + [c], back);
  }

  lemma OneEditCostsOne(s: string, t: string)
    requires OneEdit(s, t)
    ensures Distance(s, t) <= 1
  {
    if Inserts(s, t) {
      InsertCostsOne(s, t);
    } else if Inserts(t, s) {
      InsertCostsOne(t, s);
    } else {
      SubstituteCostsOne(s, t);
    }
  }

  lemma {:induction false} ScriptCovers(path: seq<string>, s: string, t: string)
    requires Script(path, s, t)
    ensures Distance(s, t) <= |path| - 1
    decreases |path|
  {
    SelfDistance(s);
    if |path| > 1 {
      ScriptCovers(path[1..], path[1], t);
      OneEditCostsOne(path[0], path[1]);
      TriangleInequality(s, path[1], t);
    }
  }

  /** The distance is the least number of single-character edits that turn one string into the other. */
  lemma DistanceIsFewestEdits(a: string, b: string, n: nat)
    ensures Reaches(a, b, Distance(a, b))
    ensures Reaches(a, b, n) ==> Distance(a, b) <= n
  {
    DistanceReached(a, b);
    if Reaches(a, b, n) {
      var path :| Script(path, a, b) && |path| == n + 1;
      ScriptCovers(path, a, b);
    }
  }

  // ---- Suggestions ----

  /** min over the candidates: the first of least distance. */
  function Nearest(name: string, candidates: seq<string>): string
    requires candidates != []
  {
    if |candidates| == 1 then candidates[0] else
    var best, last := Nearest(name, candidates[..|candidates| - 1]), candidates[|candidates| - 1];
    if Distance(name, last) < Distance(name, best) then last else best
  }

  function DidYouMean(name: string, candidates: seq<string>, maxDistance: int): Option<string> {
    if candidates == [] then None else
    var best := Nearest(name, candidates);
    if Distance(name, best) <= maxDistance then Some(best) else None
  }

  /** The first candidate at least distance comes at place i. */
  ghost predicate FirstNearest(name: string, candidates: seq<string>, i: nat)
    requires i < |candidates|
  {
    && (forall j :: 0 <= j < i ==> Distance(name, candidates[i]) < Distance(name, candidates[j]))
    && (forall j :: i <= j < |candidates| ==> Distance(name, candidates[i]) <= Distance(name, candidates[j]))
  }

  lemma {:induction false} NearestIsFirst(name: string, candidates: seq<string>) returns (i: nat)
    requires candidates != []
    ensures i < |candidates| && Nearest(name, candidates) == candidates[i] && FirstNearest(name, candidates, i)
    decreases |candidates|
  {
    if |candidates| == 1 {
      i := 0;
    } else {
      var init, n := candidates[..|candidates| - 1], |candidates| - 1;
      i := NearestIsFirst(name, init);
      assert forall j :: 0 <= j < n ==> init[j] == candidates[j];
      if Distance(name, candidates[n]) < Distance(name, candidates[i]) {
        i := n;
      }
    }
  }

  /** A suggestion is the first nearest candidate; there is none exactly when all are farther than the limit. */
  lemma SuggestsNearest(name: string, candidates: seq<string>, maxDistance: int)
    ensures var r := DidYouMean(name, candidates, maxDistance);
            && (r.None? <==> forall c :: c in candidates ==> Distance(name, c) > maxDistance)
            && (r.Some? ==>
                  exists i :: 0 <= i < |candidates| && candidates[i] == r.value && FirstNearest(name, candidates, i))
  {
    if candidates != [] {
      var i := NearestIsFirst(name, candidates);
      assert candidates[i] in candidates;
      forall c | c in candidates ensures Distance(name, candidates[i]) <= Distance(name, c) {
        var j :| 0 <= j < |candidates| && candidates[j] == c;
      }
    }
  }
}
