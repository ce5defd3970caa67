/** The two seeds of the relation store meet its invariant. */
module RelationSeeds {
  import opened Relations

  function AcmeTriples(): seq<Triple> {
    [Triple("user:raj", "editor", "folder:finance"), Triple("user:raj", "viewer", "folder:ops"),
     Triple("user:mira", "viewer", "folder:finance"), Triple("folder:finance", "parent", "document:budget-2026"),
     Triple("user:ext-audit", "admin", "tenant:acme-air"), Triple("user:dana", "editor", "folder:finance"),
     Triple("user:raj", "owner", "folder:finance"), Triple("user:mira", "editor", "folder:ops"),
     Triple("folder:ops", "parent", "document:runbook-q3"), Triple("user:dana", "viewer", "document:budget-2026"),
     Triple("user:lee", "viewer", "folder:finance"), Triple("user:sam", "owner", "folder:ops")]
  }

  function GenericTriples(slug: string): seq<Triple> {
    [Triple("user:raj", "admin", "project:" + slug + "-core"),
     Triple("user:mira", "editor", "project:" + slug + "-core"),
     Triple("user:dana", "viewer", "project:" + slug + "-core"),
     Triple("user:lee", "commenter", "project:" + slug + "-docs")]
  }

  /** A number that tells the seeded triples apart. */
  function Mark(t: Triple): int {
    if |t.user| < 6 then 0
    else 1_000_000 * |t.user| + 1_000 * (t.user[5] as int) + 100 * |t.relation| + |t.obj|
  }

  ghost predicate Marked(triples: seq<Triple>, marks: seq<int>) {
    |triples| == |marks| && forall i | 0 <= i < |marks| :: Mark(triples[i]) == marks[i]
  }

  lemma MarkedAreUnique(items: seq<Tuple>, triples: seq<Triple>, marks: seq<int>)
    requires Marked(triples, marks) && |items| == |triples|
    requires forall i | 0 <= i < |items| :: items[i].triple == triples[i]
    requires forall i, j | 0 <= i < j < |marks| :: marks[i] != marks[j]
    ensures UniqueTriples(items)
  {
    hide Mark;
    forall i, j | 0 <= i < j < |items| ensures items[i].triple != items[j].triple {
      assert Mark(triples[i]) == marks[i] && Mark(triples[j]) == marks[j];
    }
  }

  function AcmeMarks(): seq<int> {
    [8114614, 8114610, 9109614, 14114620, 14101515, 9100614, 8114514, 9109610, 10114619, 9100620, 8108614, 8115510]
  }

  lemma AcmeIsMarked()
    ensures Marked(AcmeTriples(), AcmeMarks())
    ensures forall i, j | 0 <= i < j < |AcmeMarks()| :: AcmeMarks()[i] != AcmeMarks()[j]
  {
  }

  lemma AcmeSeedMeetsInv(items: seq<Tuple>, total: int)
    requires |items| == 12 && forall i | 0 <= i < 12 :: items[i].id == IdOf(i + 1)
    requires forall i | 0 <= i < 12 :: items[i].triple == AcmeTriples()[i]
    ensures Inv(State(items, total, 13))
  {
    AcmeIsMarked();
    hide IdOf, Inv, Marked, UniqueTriples;
    MarkedAreUnique(items, AcmeTriples(), AcmeMarks());
    NumberedSeed(items, total);
  }

  lemma GenericSeedMeetsInv(slug: string, items: seq<Tuple>, total: int)
    requires |items| == 4 && forall i | 0 <= i < 4 :: items[i].triple == GenericTriples(slug)[i]
    requires items[0].id == "g-0001" && items[1].id == "g-0002" && items[2].id == "g-0003" && items[3].id == "g-0004"
    ensures Inv(State(items, total, 5))
  {
    forall i, j | 0 <= i < j < 4 ensures items[i].triple != items[j].triple {
      var t := GenericTriples(slug);
      assert t[0].user[5] == 'r' && t[1].user[5] == 'm' && t[2].user[5] == 'd' && t[3].user[5] == 'l';
    }
    forall i | 0 <= i < 4 ensures items[i].id[5] == '1' + i as char && items[i].id[0] == 'g' {
    }
    PrefixedSeed(items, total, 5);
  }
}
