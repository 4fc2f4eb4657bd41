/**
 Edit distance (plan.ts of the item catalog, editDistance).

 `Edits` is an alignment of two words, one edit for each column; the distance is proved to be
 the least number of changes of any alignment, and the one-row loop to compute it.
 */
module EditDistance {

  function Min(x: nat, y: nat): nat {
    if x < y then x else y
  }

  function Init(a: string): string
    requires a != ""
  {
    a[..|a| - 1]
  }

  function Last(a: string): char
    requires a != ""
  {
    a[|a| - 1]
  }

  // The recurrence of the distance, over the ends of the words.
  function Distance(a: string, b: string): nat
    decreases |a| + |b|
  {
    if a == "" then |b|
    else if b == "" then |a|
    else
      Min(Min(Distance(Init(a), b) + 1, Distance(a, Init(b)) + 1),
          Distance(Init(a), Init(b)) + if Last(a) == Last(b) then 0 else 1)
  }

  // ---------------------------------------------------------------- alignments

  datatype Edit = Keep | Change | Delete | Insert

  // The edits, first to last, turn a into b.
  predicate Turns(edits: seq<Edit>, a: string, b: string)
    decreases |edits|
  {
    if edits == [] then a == "" && b == ""
    else
      var before := edits[..|edits| - 1];
      match edits[|edits| - 1]
      case Keep => a != "" && b != "" && Last(a) == Last(b) && Turns(before, Init(a), Init(b))
      case Change => a != "" && b != "" && Turns(before, Init(a), Init(b))
      case Delete => a != "" && Turns(before, Init(a), b)
      case Insert => b != "" && Turns(before, a, Init(b))
  }

  function CostOf(e: Edit): nat {
    if e == Keep then 0 else 1
  }

  function Cost(edits: seq<Edit>): nat
    decreases |edits|
  {
    if edits == [] then 0 else Cost(edits[..|edits| - 1]) + CostOf(edits[|edits| - 1])
  }

  lemma Appended(edits: seq<Edit>, e: Edit)
    ensures Cost(edits + [e]) == Cost(edits) + CostOf(e)
    ensures (edits + [e])[..|edits + [e]| - 1] == edits && (edits + [e])[|edits + [e]| - 1] == e
  {
    assert (edits + [e])[..|edits|] == edits;
  }

  // No edit helps by more than it costs.
  lemma OneEdit(a: string, b: string)
    ensures a != "" ==> Distance(a, b) <= Distance(Init(a), b) + 1
    ensures b != "" ==> Distance(a, b) <= Distance(a, Init(b)) + 1
    ensures a != "" && b != "" ==>
      Distance(a, b) <= Distance(Init(a), Init(b)) + if Last(a) == Last(b) then 0 else 1
  {
  }

  lemma {:induction false} DistanceIsLeast(edits: seq<Edit>, a: string, b: string)
    requires Turns(edits, a, b)
    ensures Distance(a, b) <= Cost(edits)
    decreases |edits|
  {
    if edits != [] {
      var before := edits[..|edits| - 1];
      OneEdit(a, b);
      match edits[|edits| - 1]
      case Keep => DistanceIsLeast(before, Init(a), Init(b));
      case Change => DistanceIsLeast(before, Init(a), Init(b));
      case Delete => DistanceIsLeast(before, Init(a), b);
      case Insert => DistanceIsLeast(before, a, Init(b));
    }
  }

  lemma {:induction false} DistanceIsReached(a: string, b: string) returns (edits: seq<Edit>)
    ensures Turns(edits, a, b) && Cost(edits) == Distance(a, b)
    decreases |a| + |b|
  {
    if a == "" && b == "" {
      edits := [];
    } else if a != "" && Distance(a, b) == Distance(Init(a), b) + 1 {
      edits := DistanceIsReached(Init(a), b);
      Appended(edits, Delete);
      edits := edits + [Delete];
    } else if b != "" && Distance(a, b) == Distance(a, Init(b)) + 1 {
      edits := DistanceIsReached(a, Init(b));
      Appended(edits, Insert);
      edits := edits + [Insert];
    } else {
      edits := DistanceIsReached(Init(a), Init(b));
      var e := if Last(a) == Last(b) then Keep else Change;
      Appended(edits, e);
      edits := edits + [e];
    }
  }

  // ---------------------------------------------------------------- a metric

  lemma {:induction false} Symmetric(a: string, b: string)
    ensures Distance(a, b) == Distance(b, a)
    decreases |a| + |b|
  {
    if a != "" && b != "" {
      Symmetric(Init(a), b);
      Symmetric(a, Init(b));
      Symmetric(Init(a), Init(b));
    }
  }

  lemma {:induction false} ZeroMeansEqual(a: string, b: string)
    ensures Distance(a, b) == 0 <==> a == b
    decreases |a| + |b|
  {
    if a != "" && b != "" {
      ZeroMeansEqual(Init(a), Init(b));
      assert a == Init(a) + [Last(a)] && b == Init(b) + [Last(b)];
      assert a == b ==> Init(a) == Init(b) && Last(a) == Last(b);
    }
  }

  lemma {:induction false} LengthBounds(a: string, b: string)
    ensures |a| - |b| <= Distance(a, b) && |b| - |a| <= Distance(a, b)
    ensures Distance(a, b) <= |a| || Distance(a, b) <= |b|
    decreases |a| + |b|
  {
    if a != "" && b != "" {
      LengthBounds(Init(a), b);
      LengthBounds(a, Init(b));
      LengthBounds(Init(a), Init(b));
    }
  }

  // One alignment after another, as one alignment.
  lemma {:induction false} Compose(first: seq<Edit>, second: seq<Edit>, a: string, b: string, c: string)
    returns (edits: seq<Edit>)
    requires Turns(first, a, b) && Turns(second, b, c)
    ensures Turns(edits, a, c) && Cost(edits) <= Cost(first) + Cost(second)
    decreases |first| + |second|
  {
    if first != [] && first[|first| - 1] == Delete {
      edits := Compose(first[..|first| - 1], second, Init(a), b, c);
      Appended(edits, Delete);
      edits := edits + [Delete];
    } else if second != [] && second[|second| - 1] == Insert {
      edits := Compose(first, second[..|second| - 1], a, b, Init(c));
      Appended(edits, Insert);
      edits := edits + [Insert];
    } else if first != [] && second != [] {
      edits := ComposeBoth(first, second, a, b, c);
    } else {
      edits := [];
    }
  }

  // Both alignments end in the same character of b.
  lemma {:induction false} ComposeBoth(first: seq<Edit>, second: seq<Edit>, a: string, b: string, c: string)
    returns (edits: seq<Edit>)
    requires Turns(first, a, b) && Turns(second, b, c)
    requires first != [] && second != [] && first[|first| - 1] != Delete && second[|second| - 1] != Insert
    ensures Turns(edits, a, c) && Cost(edits) <= Cost(first) + Cost(second)
    decreases |first| + |second|, 0
  {
    var e, f := first[|first| - 1], second[|second| - 1];
    edits := Compose(first[..|first| - 1], second[..|second| - 1],
                     if e == Insert then a else Init(a), Init(b), if f == Delete then c else Init(c));
    if e == Insert {
      if f != Delete {
        Appended(edits, Insert);
        edits := edits + [Insert];
      }
    } else {
      var g := if f == Delete then Delete else if e == Keep && f == Keep then Keep else Change;
      Appended(edits, g);
      edits := edits + [g];
    }
  }

  lemma {:induction false} Triangle(a: string, b: string, c: string)
    ensures Distance(a, c) <= Distance(a, b) + Distance(b, c)
  {
    var first := DistanceIsReached(a, b);
    var second := DistanceIsReached(b, c);
    var both := Compose(first, second, a, b, c);
    DistanceIsLeast(both, a, c);
  }

  // ---------------------------------------------------------------- the one-row loop

  // Row i holds the distances from the first i characters of a to every prefix of b.
  function Cell(a: string, b: string, i: nat, j: nat): nat
    requires i <= |a| && j <= |b|
  {
    Distance(a[..i], b[..j])
  }

  lemma CellStep(a: string, b: string, i: nat, j: nat)
    requires 1 <= i <= |a| && 1 <= j <= |b|
    ensures Cell(a, b, i, j) ==
            Min(Min(Cell(a, b, i - 1, j) + 1, Cell(a, b, i, j - 1) + 1),
                Cell(a, b, i - 1, j - 1) + if a[i - 1] == b[j - 1] then 0 else 1)
  {
    assert Init(a[..i]) == a[..i - 1] && Init(b[..j]) == b[..j - 1];
  }

  method EditDistance(a: string, b: string) returns (distance: nat)
    ensures distance == Distance(a, b)
    ensures distance == 0 <==> a == b
  {
    var row := new nat[|b| + 1](index => index);
    for i := 1 to |a| + 1
      invariant forall k :: 0 <= k <= |b| ==> row[k] == Cell(a, b, i - 1, k)
    {
      var previous := row[0];
      row[0] := i;
      for j := 1 to |b| + 1
        invariant previous == Cell(a, b, i - 1, j - 1)
        invariant forall k :: 0 <= k < j ==> row[k] == Cell(a, b, i, k)
        invariant forall k :: j <= k <= |b| ==> row[k] == Cell(a, b, i - 1, k)
      {
        var saved := row[j];
        CellStep(a, b, i, j);
        row[j] := Min(Min(row[j] + 1, row[j - 1] + 1), previous + if a[i - 1] == b[j - 1] then 0 else 1);
        previous := saved;
      }
    }
    distance := row[|b|];
    assert a[..|a|] == a && b[..|b|] == b;
    ZeroMeansEqual(a, b);
  }
}
