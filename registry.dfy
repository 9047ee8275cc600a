/**
 * The webview registry of the shim (`discovered_webviews[16]` and
 * `webview_count`) as a sequence: bounded, free of duplicates, append-only.
 */
module Registry {
  import opened Host

  const MAX_WEBVIEWS: nat := 16

  predicate NoDup(s: seq<int>)
  {
    forall i, j | 0 <= i < j < |s| :: s[i] != s[j]
  }

  /** One offer to the registry: a handle is appended only while there is room
      and it is not already present; otherwise nothing changes. */
  function Insert(reg: seq<int>, v: Ptr): (r: seq<int>)
    ensures reg <= r && |r| <= |reg| + 1
    ensures |r| == |reg| + 1 <==> |reg| < MAX_WEBVIEWS && v !in reg
    ensures |r| == |reg| + 1 ==> r[|reg|] == v
    ensures |reg| <= MAX_WEBVIEWS ==> |r| <= MAX_WEBVIEWS
  {
    if |reg| < MAX_WEBVIEWS && v !in reg then reg + [v] else reg
  }

  /** An offer never introduces a duplicate, and the offered handle is tracked
      afterwards unless the registry was already full. */
  lemma InsertKeepsNoDup(reg: seq<int>, v: Ptr)
    ensures NoDup(reg) ==> NoDup(Insert(reg, v))
    ensures v in Insert(reg, v) <==> v in reg || |reg| < MAX_WEBVIEWS
  {
  }

  /** Offers in sequence. */
  function InsertAll(reg: seq<int>, vs: seq<Ptr>): (r: seq<int>)
    ensures reg <= r
    ensures |reg| <= MAX_WEBVIEWS ==> |r| <= MAX_WEBVIEWS
  {
    if vs == [] then reg
    else Insert(InsertAll(reg, vs[..|vs| - 1]), vs[|vs| - 1])
  }

  /** After a sequence of offers the registry still has no duplicates, tracks
      every offered handle unless it filled up, and holds nothing else. */
  lemma {:induction false} InsertAllContents(reg: seq<int>, vs: seq<Ptr>)
    ensures NoDup(reg) ==> NoDup(InsertAll(reg, vs))
    ensures forall v | v in vs :: v in InsertAll(reg, vs) || |InsertAll(reg, vs)| >= MAX_WEBVIEWS
    ensures forall x | x in InsertAll(reg, vs) :: x in reg || x in vs
    decreases |vs|
  {
    if vs != [] {
      var n := |vs| - 1;
      var front := vs[..n];
      var r0 := InsertAll(reg, front);
      InsertAllContents(reg, front);
      InsertKeepsNoDup(r0, vs[n]);
      var r := Insert(r0, vs[n]);
      forall v | v in vs ensures v in r || |r| >= MAX_WEBVIEWS {
        if v != vs[n] {
          var k :| 0 <= k < |vs| && vs[k] == v;
          assert front[k] == v;
        }
      }
      forall x | x in r ensures x in reg || x in vs {
        if x in front {
          var k :| 0 <= k < |front| && front[k] == x;
          assert vs[k] == x;
        }
      }
    }
  }

  /** A full registry ignores every offer. */
  lemma {:induction false} InsertAllWhenFull(reg: seq<int>, vs: seq<Ptr>)
    requires |reg| >= MAX_WEBVIEWS
    ensures InsertAll(reg, vs) == reg
    decreases |vs|
  {
    if vs != [] {
      InsertAllWhenFull(reg, vs[..|vs| - 1]);
    }
  }

  /** Offering a sequence in two parts is offering it in one go. */
  lemma {:induction false} InsertAllAppend(reg: seq<int>, a: seq<Ptr>, b: seq<Ptr>)
    ensures InsertAll(reg, a + b) == InsertAll(InsertAll(reg, a), b)
    decreases |b|
  {
    if b == [] {
      assert a + b == a;
    } else {
      var n := |b| - 1;
      assert (a + b)[..|a + b| - 1] == a + b[..n] && (a + b)[|a + b| - 1] == b[n];
      InsertAllAppend(reg, a, b[..n]);
    }
  }

  /** From an empty registry, a pass grows the registry iff it offers anything. */
  lemma InsertAllGrowsFromEmpty(vs: seq<Ptr>)
    ensures |InsertAll([], vs)| > 0 <==> vs != []
  {
  }
}
