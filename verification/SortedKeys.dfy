/** The ascending order in which a BTreeMap yields its keys. */
module SortedKeys {
  import opened Partitions

  /** Strictly ascending. */
  ghost predicate Ascending(s: seq<Pair>) {
    forall i, j :: 0 <= i < j < |s| ==> Less(s[i], s[j])
  }

  method Smallest(s: set<Pair>) returns (least: Pair)
    requires s != {}
    ensures least in s && forall other :: other in s ==> AtMost(least, other)
  {
    least :| least in s;
    var rest := s - {least};
    while rest != {}
      invariant least in s && rest <= s
      invariant forall other :: other in s && other !in rest ==> AtMost(least, other)
      decreases rest
    {
      var other :| other in rest;
      rest := rest - {other};
      if Less(other, least) {
        least := other;
      }
    }
  }

  /** The members of a set in ascending order, each once. */
  method Sorted(s: set<Pair>) returns (r: seq<Pair>)
    ensures Ascending(r) && forall key :: key in s <==> key in r
  {
    r := [];
    var rest := s;
    while rest != {}
      invariant rest <= s
      invariant Ascending(r)
      invariant forall key :: key in s <==> key in r || key in rest
      invariant forall i, key :: 0 <= i < |r| && key in rest ==> Less(r[i], key)
      decreases rest
    {
      var least := Smallest(rest);
      r := r + [least];
      rest := rest - {least};
    }
  }
}
