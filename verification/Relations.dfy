/** Relations between paths, and why following them always ends. */
module Relations {
  import opened Bytes

  type Path = seq<Byte>

  /** Every relation leads to a path of smaller rank. */
  ghost predicate Ranked(links: map<Path, Path>, rank: Path -> nat) {
    forall p :: p in links ==> rank(links[p]) < rank(p)
  }

  /** No path comes back to itself. */
  ghost predicate Acyclic(links: map<Path, Path>) {
    exists rank :: Ranked(links, rank)
  }

  lemma {:induction false} EmptyIsAcyclic()
    ensures Acyclic(map[])
  {
    assert Ranked(map[], p => 0);
  }

  /** Dropping relations closes no cycle. */
  lemma {:induction false} FewerAcyclic(links: map<Path, Path>, fewer: map<Path, Path>)
    requires Acyclic(links) && fewer.Items <= links.Items
    ensures Acyclic(fewer)
  {
    var rank :| Ranked(links, rank);
    forall p | p in fewer ensures rank(fewer[p]) < rank(p) {
      assert (p, fewer[p]) in fewer.Items;
    }
    assert Ranked(fewer, rank);
  }

  /** A rename closes no cycle, since the target's own relation is dropped first. */
  lemma {:induction false} IntoSink(links: map<Path, Path>, from: Path, to: Path)
    requires Acyclic(links) && from != to && to !in links
    ensures Acyclic(links[from := to])
  {
    var rank :| Ranked(links, rank);
    var raised := (p: Path) => if p == to then 0 else rank(p) + 1;
    assert Ranked(links[from := to], raised);
  }

  /** Nor does an unlink, since every relation to the path is dropped first. */
  lemma {:induction false} FromSource(links: map<Path, Path>, from: Path, to: Path)
    requires Acyclic(links) && from != to && from !in links && forall p :: p in links ==> links[p] != from
    ensures Acyclic(links[from := to])
  {
    var rank :| Ranked(links, rank);
    var raised := (p: Path) => if p == from then rank(to) + 1 else rank(p);
    assert Ranked(links[from := to], raised);
  }
}
