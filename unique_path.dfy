/** Collision-free destination paths: candidates `folder/stem`,
    `folder/stem_1`, `folder/stem_2`, ... are tried in order until one has no
    sidecar (`<candidate>.json`) on disk. */
module UniquePath {
  import opened Digits
  import opened PosixPath

  /** The sidecar path of a candidate. */
  function Sidecar(candidate: Path): Path {
    candidate + ".json"
  }

  /** The candidate for counter `k`: the plain stem for 0, `stem_k` after. */
  function Candidate(folder: Path, stem: string, k: nat): (r: Path)
    ensures Join(folder, stem) <= r
  {
    Join(folder, stem) + (if k > 0 then "_" + NatText(k) else "")
  }

  /** Counters below `k` all name taken sidecars. */
  ghost predicate TakenBelow(existing: set<Path>, folder: Path, stem: string, k: nat) {
    forall j: nat :: j < k ==> Sidecar(Candidate(folder, stem, j)) in existing
  }

  /** Different counters give different sidecar paths. */
  lemma SidecarInjective(folder: Path, stem: string, i: nat, j: nat)
    requires Sidecar(Candidate(folder, stem, i)) == Sidecar(Candidate(folder, stem, j))
    ensures i == j
  {
    var base := Join(folder, stem);
    var ci, cj := Candidate(folder, stem, i), Candidate(folder, stem, j);
    assert ci == Sidecar(ci)[..|Sidecar(ci)| - 5];
    assert cj == Sidecar(cj)[..|Sidecar(cj)| - 5];
    assert ci == cj;
    if i > 0 && j > 0 {
      var si, sj := "_" + NatText(i), "_" + NatText(j);
      assert ci == base + si && cj == base + sj;
      assert si == ci[|base|..] && sj == cj[|base|..];
      assert NatText(i) == si[1..] && NatText(j) == sj[1..];
      NatTextInjective(i, j);
    }
  }

  /** The taken counters below `k` name `k` distinct paths of `existing`, so
      there can be no more of them than `existing` has elements. */
  lemma {:induction false} TakenBound(existing: set<Path>, folder: Path, stem: string, k: nat)
    requires TakenBelow(existing, folder, stem, k)
    ensures k <= |existing|
  {
    var taken := TakenSet(folder, stem, k);
    TakenSetSize(folder, stem, k);
    assert taken <= existing;
    assert existing == taken + (existing - taken);
  }

  function TakenSet(folder: Path, stem: string, k: nat): set<Path> {
    set j: nat | j < k :: Sidecar(Candidate(folder, stem, j))
  }

  lemma {:induction false} TakenSetSize(folder: Path, stem: string, k: nat)
    ensures |TakenSet(folder, stem, k)| == k
  {
    if k > 0 {
      TakenSetSize(folder, stem, k - 1);
      var last := Sidecar(Candidate(folder, stem, k - 1));
      assert TakenSet(folder, stem, k) == TakenSet(folder, stem, k - 1) + {last};
      if last in TakenSet(folder, stem, k - 1) {
        var j: nat :| j < k - 1 && Sidecar(Candidate(folder, stem, j)) == last;
        SidecarInjective(folder, stem, j, k - 1);
      }
    }
  }

  /** The first counter from `k` on whose sidecar is free. It exists because
      `existing` is finite and the counters name distinct paths. */
  function FirstFreeFrom(existing: set<Path>, folder: Path, stem: string, k: nat): (r: nat)
    requires TakenBelow(existing, folder, stem, k)
    ensures k <= r && Sidecar(Candidate(folder, stem, r)) !in existing
    ensures TakenBelow(existing, folder, stem, r)
    decreases |existing| - k
  {
    if Sidecar(Candidate(folder, stem, k)) !in existing then k
    else
      TakenBound(existing, folder, stem, k + 1);
      FirstFreeFrom(existing, folder, stem, k + 1)
  }

  /** The counter `__generate_unique_dest_file_path` settles on. */
  function FirstFree(existing: set<Path>, folder: Path, stem: string): (r: nat)
  {
    FirstFreeFrom(existing, folder, stem, 0)
  }

  /** The allocated candidate's sidecar is free, every smaller counter's is
      taken, and so the counter is the smallest free one and no larger than
      the number of existing paths. */
  lemma FirstFreeIsLeast(existing: set<Path>, folder: Path, stem: string)
    ensures var k := FirstFree(existing, folder, stem);
      && Sidecar(Candidate(folder, stem, k)) !in existing
      && (forall j: nat :: j < k ==> Sidecar(Candidate(folder, stem, j)) in existing)
      && k <= |existing|
  {
    var k := FirstFree(existing, folder, stem);
    TakenBound(existing, folder, stem, k);
  }

  /** The allocated counter is the only one whose sidecar is free while
      every smaller counter's is taken. */
  lemma FirstFreeUnique(existing: set<Path>, folder: Path, stem: string, c: nat)
    requires TakenBelow(existing, folder, stem, c)
    requires Sidecar(Candidate(folder, stem, c)) !in existing
    ensures FirstFree(existing, folder, stem) == c
  {
  }

  /** Once the allocated sidecar exists, any later allocation with the same
      folder and stem, whatever else was created meanwhile, settles on a
      larger counter and so on a different path. */
  lemma LaterAllocationAdvances(existing: set<Path>, existing': set<Path>, folder: Path, stem: string)
    requires existing + {Sidecar(Candidate(folder, stem, FirstFree(existing, folder, stem)))} <= existing'
    ensures FirstFree(existing', folder, stem) > FirstFree(existing, folder, stem)
    ensures Candidate(folder, stem, FirstFree(existing', folder, stem)) != Candidate(folder, stem, FirstFree(existing, folder, stem))
  {
  }
}
