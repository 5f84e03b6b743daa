/** The first free name among a base and its numbered variants. */
module UniqueNames {
  import opened Text

  function Candidate(base: string, i: nat): string {
    if i == 0 then base else base + "_" + Decimal(i)
  }

  lemma CandidatesDiffer(base: string, i: nat, j: nat)
    requires i != j
    ensures Candidate(base, i) != Candidate(base, j)
  {
    var n := |base| + 1;
    if i > 0 && j > 0 && Candidate(base, i) == Candidate(base, j) {
      assert Candidate(base, i)[n..] == Decimal(i) && Candidate(base, j)[n..] == Decimal(j);
      DecimalIsInjective(i, j);
    }
  }

  ghost function FirstCandidates(base: string, n: nat): (s: set<string>)
    ensures forall i :: 0 <= i < n ==> Candidate(base, i) in s
  {
    set i | 0 <= i < n :: Candidate(base, i)
  }

  lemma {:induction false} FirstCandidatesCount(base: string, n: nat)
    ensures |FirstCandidates(base, n)| == n
  {
    if n > 0 {
      FirstCandidatesCount(base, n - 1);
      assert FirstCandidates(base, n) == FirstCandidates(base, n - 1) + {Candidate(base, n - 1)};
      forall i | 0 <= i < n - 1 ensures Candidate(base, i) != Candidate(base, n - 1) {
        CandidatesDiffer(base, i, n - 1);
      }
    } else {
      assert FirstCandidates(base, n) == {};
    }
  }

  ghost predicate AllTaken(base: string, existing: set<string>, n: nat) {
    forall i :: 0 <= i < n ==> Candidate(base, i) in existing
  }

  /** Pigeonhole: no more candidates are taken than there are names. */
  lemma TakenIsBounded(base: string, existing: set<string>, n: nat)
    requires AllTaken(base, existing, n)
    ensures n <= |existing|
  {
    FirstCandidatesCount(base, n);
    Subset(FirstCandidates(base, n), existing);
  }

  lemma {:induction false} Subset(a: set<string>, b: set<string>)
    requires a <= b
    ensures |a| <= |b|
  {
    assert b == a + (b - a);
  }

  /** The smallest free candidate, starting the search at `from`. */
  function FirstFree(base: string, existing: set<string>, from: nat): (r: string)
    requires AllTaken(base, existing, from)
    ensures r !in existing
    decreases |existing| + 1 - from
  {
    TakenIsBounded(base, existing, from);
    if Candidate(base, from) !in existing then Candidate(base, from)
    else
      TakenIsBounded(base, existing, from + 1);
      FirstFree(base, existing, from + 1)
  }

  lemma {:induction false} FirstFreeLaw(base: string, existing: set<string>, from: nat) returns (index: nat)
    requires AllTaken(base, existing, from)
    ensures FirstFree(base, existing, from) == Candidate(base, index)
    ensures AllTaken(base, existing, index) && from <= index <= |existing|
    decreases |existing| + 1 - from
  {
    TakenIsBounded(base, existing, from);
    if Candidate(base, from) !in existing {
      index := from;
    } else {
      TakenIsBounded(base, existing, from + 1);
      index := FirstFreeLaw(base, existing, from + 1);
    }
  }

  /**
   The counting loop. It returns the first candidate that is free, after at most one try more than
   there are names.
   */
  method NextUniqueName(base: string, existing: set<string>) returns (name: string, tries: nat)
    ensures name == FirstFree(base, existing, 0)
    ensures name !in existing && tries >= 1 && name == Candidate(base, tries - 1)
    ensures forall i :: 0 <= i < tries - 1 ==> Candidate(base, i) in existing
    ensures tries <= |existing| + 1
    ensures tries == 1 ==> name == base
    ensures tries > 1 ==> name == base + "_" + Decimal(tries - 1)
  {
    if base !in existing {
      return base, 1;
    }
    var index := 1;
    while true
      invariant index >= 1 && AllTaken(base, existing, index)
      invariant FirstFree(base, existing, index) == FirstFree(base, existing, 0)
      decreases |existing| + 1 - index
    {
      TakenIsBounded(base, existing, index);
      var candidate := base + "_" + Decimal(index);
      if candidate !in existing {
        return candidate, index + 1;
      }
      index := index + 1;
      TakenIsBounded(base, existing, index);
    }
  }
}
