/** The did-you-mean hint: Levenshtein distance in two rows, and the nearest candidate. */
module EditDistance {

  // ---- Edit scripts, the meaning of a distance ----

  datatype Edit = Keep | Replace(to: char) | Insert(added: char) | Delete

  function Front(s: string): string
    requires s != []
  {
    s[..|s| - 1]
  }

  function Last(s: string): char
    requires s != []
  {
    s[|s| - 1]
  }

  /** `script` edits `a` into `b`, the last edit working on their ends. */
  predicate Turns(script: seq<Edit>, a: string, b: string)
  {
    if script == [] then a == [] && b == []
    else
      var before := script[..|script| - 1];
      match script[|script| - 1]
      case Keep => a != [] && b != [] && Last(a) == Last(b) && Turns(before, Front(a), Front(b))
      case Replace(c) => a != [] && b != [] && Last(b) == c && Turns(before, Front(a), Front(b))
      case Insert(c) => b != [] && Last(b) == c && Turns(before, a, Front(b))
      case Delete => a != [] && Turns(before, Front(a), b)
  }

  /** Every edit but `Keep` costs one. */
  function Cost(script: seq<Edit>): nat
  {
    if script == [] then 0
    else Cost(script[..|script| - 1]) + if script[|script| - 1].Keep? then 0 else 1
  }

  // ---- The recursive distance ----

  function Min(x: nat, y: nat): nat
  {
    if y < x then y else x
  }

  function Dist(a: string, b: string): nat
    decreases |a| + |b|
  {
    if a == [] then |b|
    else if b == [] then |a|
    else
      Min(Min(Dist(a, Front(b)) + 1, Dist(Front(a), b) + 1),
          Dist(Front(a), Front(b)) + if Last(a) == Last(b) then 0 else 1)
  }

  lemma {:induction false} LeastCost(script: seq<Edit>, a: string, b: string)
    requires Turns(script, a, b)
    ensures Dist(a, b) <= Cost(script)
  {
    if script != [] {
      var before := script[..|script| - 1];
      match script[|script| - 1]
      case Keep => LeastCost(before, Front(a), Front(b));
      case Replace(_) => LeastCost(before, Front(a), Front(b));
      case Insert(_) => LeastCost(before, a, Front(b));
      case Delete => LeastCost(before, Front(a), b);
    }
  }

  lemma Extend(before: seq<Edit>, e: Edit)
    ensures (before + [e])[..|before|] == before && (before + [e])[|before|] == e
    ensures Cost(before + [e]) == Cost(before) + if e.Keep? then 0 else 1
  {
    assert (before + [e])[..|before|] == before;
  }

  lemma {:induction false} Attained(a: string, b: string) returns (script: seq<Edit>)
    ensures Turns(script, a, b) && Cost(script) == Dist(a, b)
    decreases |a| + |b|
  {
    if a == [] && b == [] {
      return [];
    }
    if b != [] && (a == [] || Dist(a, b) == Dist(a, Front(b)) + 1) {
      var before := Attained(a, Front(b));
      Extend(before, Insert(Last(b)));
      return before + [Insert(Last(b))];
    }
    if a != [] && (b == [] || Dist(a, b) == Dist(Front(a), b) + 1) {
      var before := Attained(Front(a), b);
      Extend(before, Delete);
      return before + [Delete];
    }
    var before := Attained(Front(a), Front(b));
    var e := if Last(a) == Last(b) then Keep else Replace(Last(b));
    Extend(before, e);
    return before + [e];
  }

  /** The distance is the least cost over all scripts. */
  lemma {:induction false} DistIsLeastCost(a: string, b: string)
    ensures forall script :: Turns(script, a, b) ==> Dist(a, b) <= Cost(script)
    ensures exists script :: Turns(script, a, b) && Cost(script) == Dist(a, b)
  {
    forall script | Turns(script, a, b) ensures Dist(a, b) <= Cost(script) {
      LeastCost(script, a, b);
    }
    var best := Attained(a, b);
  }

  // ---- A metric ----

  lemma {:induction false} Symmetric(a: string, b: string)
    ensures Dist(a, b) == Dist(b, a)
    decreases |a| + |b|
  {
    if a != [] && b != [] {
      Symmetric(a, Front(b));
      Symmetric(Front(a), b);
      Symmetric(Front(a), Front(b));
    }
  }

  lemma {:induction false} ZeroIffEqual(a: string, b: string)
    ensures Dist(a, b) == 0 <==> a == b
    decreases |a|
  {
    if a != [] && b != [] {
      ZeroIffEqual(Front(a), Front(b));
      assert a == Front(a) + [Last(a)] && b == Front(b) + [Last(b)];
    }
  }

  /** One more character on either side is one more edit at most. */
  lemma {:induction false} OneStep(a: string, b: string)
    ensures b != [] ==> Dist(a, b) <= Dist(a, Front(b)) + 1
    ensures a != [] ==> Dist(a, b) <= Dist(Front(a), b) + 1
    ensures a != [] && b != [] ==> Dist(a, b) <= Dist(Front(a), Front(b)) + if Last(a) == Last(b) then 0 else 1
  {
  }

  /** Two scripts in a row: their last edits either cancel, merge, or one of them stands alone. */
  lemma {:induction false} TwoScripts(first: seq<Edit>, second: seq<Edit>, a: string, b: string, c: string)
    requires Turns(first, a, b) && Turns(second, b, c)
    ensures Dist(a, c) <= Cost(first) + Cost(second)
    decreases |first| + |second|
  {
    OneStep(a, c);
    if second != [] && second[|second| - 1].Insert? {
      TwoScripts(first, second[..|second| - 1], a, b, Front(c));
    } else if first != [] && first[|first| - 1].Delete? {
      TwoScripts(first[..|first| - 1], second, Front(a), b, c);
    } else if first != [] {
      var f, s := first[..|first| - 1], second[..|second| - 1];
      if first[|first| - 1].Insert? && second[|second| - 1].Delete? {
        TwoScripts(f, s, a, Front(b), c);
      } else if first[|first| - 1].Insert? {
        TwoScripts(f, s, a, Front(b), Front(c));
      } else if second[|second| - 1].Delete? {
        TwoScripts(f, s, Front(a), Front(b), c);
      } else {
        TwoScripts(f, s, Front(a), Front(b), Front(c));
      }
    }
  }

  lemma {:induction false} Triangle(a: string, b: string, c: string)
    ensures Dist(a, c) <= Dist(a, b) + Dist(b, c)
  {
    var first := Attained(a, b);
    var second := Attained(b, c);
    TwoScripts(first, second, a, b, c);
  }

  // ---- The two rows ----

  /** The distances of `a` to every prefix of `b`. */
  ghost function Row(a: string, b: string): (row: seq<nat>)
    ensures |row| == |b| + 1
  {
    seq(|b| + 1, j requires 0 <= j < |b| + 1 => Dist(a, b[..j]))
  }

  /** `row` is one character below `above`. */
  ghost predicate Below(c: char, b: string, above: seq<nat>, row: seq<nat>)
    requires |above| == |row| == |b| + 1
  {
    && row[0] == above[0] + 1
    && forall j :: 0 <= j < |b| ==>
      row[j + 1] == Min(Min(row[j] + 1, above[j + 1] + 1), above[j] + if c == b[j] then 0 else 1)
  }

  lemma {:induction false} Cell(a: string, b: string)
    requires a != [] && b != []
    ensures Dist(a, b) ==
      Min(Min(Dist(a, Front(b)) + 1, Dist(Front(a), b) + 1), Dist(Front(a), Front(b)) + if Last(a) == Last(b) then 0 else 1)
  {
  }

  lemma Prefixes(s: string, i: nat)
    requires i < |s|
    ensures Front(s[..i + 1]) == s[..i] && Last(s[..i + 1]) == s[i]
  {
  }

  lemma RowsFollow(a: string, b: string, i: nat)
    requires i < |a|
    ensures Below(a[i], b, Row(a[..i], b), Row(a[..i + 1], b))
  {
    var above, row := Row(a[..i], b), Row(a[..i + 1], b);
    Prefixes(a, i);
    forall j | 0 <= j < |b|
      ensures row[j + 1] == Min(Min(row[j] + 1, above[j + 1] + 1), above[j] + if a[i] == b[j] then 0 else 1)
    {
      Prefixes(b, j);
      Cell(a[..i + 1], b[..j + 1]);
    }
  }

  lemma RowEnds(a: string, b: string)
    ensures Row(a, b)[|b|] == Dist(a, b)
    ensures forall j :: 0 <= j <= |b| ==> Row([], b)[j] == j
  {
    assert b[..|b|] == b;
  }

  method NextRow(a: string, b: string, i: nat, prev: array<nat>, curr: array<nat>, ghost row: seq<nat>)
    requires 0 < i <= |a| && prev != curr && prev.Length == curr.Length == |row| == |b| + 1
    requires row[0] == i && Below(a[i - 1], b, prev[..], row)
    modifies curr
    ensures curr[..] == row
  {
    curr[0] := i;
    for j := 1 to |b| + 1
      invariant forall k :: 0 <= k < j ==> curr[k] == row[k]
    {
      var cost := 1;
      if a[i - 1] == b[j - 1] {
        cost := 0;
      }
      curr[j] := Min(Min(curr[j - 1] + 1, prev[j] + 1), prev[j - 1] + cost);
      assert row[j - 1 + 1] == row[j];
    }
  }

  method EditDistance(a: string, b: string) returns (d: nat)
    ensures d == Dist(a, b)
  {
    var prev := new nat[|b| + 1];
    var curr := new nat[|b| + 1];
    for j := 0 to |b| + 1
      invariant forall k :: 0 <= k < j ==> prev[k] == k
    {
      prev[j] := j;
    }
    RowEnds([], b);
    assert a[..0] == [] && prev[..] == Row([], b);
    for i := 1 to |a| + 1
      invariant prev != curr && fresh(prev) && fresh(curr) && curr.Length == |b| + 1
      invariant prev[..] == Row(a[..i - 1], b)
    {
      RowsFollow(a, b, i - 1);
      NextRow(a, b, i, prev, curr, Row(a[..i], b));
      prev, curr := curr, prev;
    }
    assert a[..|a|] == a;
    RowEnds(a, b);
    assert prev[..][|b|] == Dist(a, b);
    return prev[|b|];
  }

  // ---- The nearest candidate ----

  /** Candidate `i` is the first of those at the least distance. */
  ghost predicate FirstClosest(input: string, lowered: seq<string>, i: nat)
    requires i < |lowered|
  {
    && (forall j :: 0 <= j < |lowered| ==> Dist(input, lowered[i]) <= Dist(input, lowered[j]))
    && (forall j :: 0 <= j < i ==> Dist(input, lowered[i]) < Dist(input, lowered[j]))
  }

  function Budget(size: nat): nat
  {
    if size / 3 < 1 then 1 else size / 3
  }

  /** `lower` folds case and `size` counts bytes; both are the standard library's. */
  method Nearest(input: string, candidates: seq<string>, lower: string -> string, size: string -> nat)
    returns (best: string)
    ensures
      var folded := lower(input);
      var lowered := seq(|candidates|, i requires 0 <= i < |candidates| => lower(candidates[i]));
      || (best == "" && forall i :: 0 <= i < |lowered| ==> Dist(folded, lowered[i]) > Budget(size(folded)))
      || (exists i :: 0 <= i < |lowered| && FirstClosest(folded, lowered, i)
           && best == candidates[i] && Dist(folded, lowered[i]) <= Budget(size(folded)))
  {
    var folded := lower(input);
    ghost var lowered := seq(|candidates|, i requires 0 <= i < |candidates| => lower(candidates[i]));
    var budget := size(folded) / 3;
    if budget < 1 {
      budget := 1;
    }
    best := "";
    var bestDist := budget + 1;
    ghost var at := -1;
    for i := 0 to |candidates|
      invariant -1 <= at < i && bestDist <= budget + 1
      invariant forall j :: 0 <= j < i ==> bestDist <= Dist(folded, lowered[j])
      invariant at < 0 ==> best == "" && bestDist == budget + 1
      invariant at >= 0 ==> best == candidates[at] && bestDist == Dist(folded, lowered[at]) <= budget
      invariant at >= 0 ==> forall j :: 0 <= j < at ==> bestDist < Dist(folded, lowered[j])
    {
      var d := EditDistance(folded, lower(candidates[i]));
      if d < bestDist {
        best, bestDist := candidates[i], d;
        at := i;
      }
    }
    assert at >= 0 ==> FirstClosest(folded, lowered, at);
  }
}
