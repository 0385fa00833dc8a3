/** Ordered lists without repetition. */
module Lists {
  /** Append each candidate not seen before. */
  function AddMissing(list: seq<string>, more: seq<string>): (r: seq<string>)
    ensures list <= r
    ensures forall x :: x in r <==> x in list || x in more
    decreases |more|
  {
    if |more| == 0 then list
    else
      assert forall x :: x in more <==> x == more[0] || x in more[1..];
      AddMissing(if more[0] in list then list else list + [more[0]], more[1..])
  }

  /** `list(dict.fromkeys(items))`: the first occurrence of each item, in order. */
  function Distinct(items: seq<string>): seq<string> {
    AddMissing([], items)
  }

  ghost predicate NoRepeats(items: seq<string>) {
    forall i, j :: 0 <= i < j < |items| ==> items[i] != items[j]
  }

  lemma {:induction false} AddMissingNoRepeats(list: seq<string>, more: seq<string>)
    requires NoRepeats(list)
    ensures NoRepeats(AddMissing(list, more))
    decreases |more|
  {
    if |more| > 0 { AddMissingNoRepeats(if more[0] in list then list else list + [more[0]], more[1..]); }
  }

  lemma {:induction false} AddMissingAppend(list: seq<string>, a: seq<string>, b: seq<string>)
    ensures AddMissing(list, a + b) == AddMissing(AddMissing(list, a), b)
    decreases |a|
  {
    if |a| == 0 {
      assert a + b == b;
    } else {
      assert (a + b)[1..] == a[1..] + b;
      AddMissingAppend(if a[0] in list then list else list + [a[0]], a[1..], b);
    }
  }

  lemma {:induction false} AddMissingFresh(list: seq<string>, more: seq<string>)
    requires NoRepeats(list + more)
    ensures AddMissing(list, more) == list + more
    decreases |more|
  {
    if |more| == 0 {
      assert list + more == list;
    } else {
      forall i | 0 <= i < |list| ensures list[i] != more[0] {
        assert (list + more)[i] == list[i] && (list + more)[|list|] == more[0];
      }
      assert (list + [more[0]]) + more[1..] == list + more;
      AddMissingFresh(list + [more[0]], more[1..]);
    }
  }

  lemma DistinctNoRepeats(items: seq<string>)
    ensures NoRepeats(Distinct(items))
  {
    AddMissingNoRepeats([], items);
  }

  /** Removing repetition before appending changes nothing. */
  lemma DistinctPrefix(a: seq<string>, b: seq<string>)
    ensures Distinct(Distinct(a) + b) == Distinct(a + b)
  {
    DistinctNoRepeats(a);
    assert [] + Distinct(a) == Distinct(a);
    AddMissingFresh([], Distinct(a));
    AddMissingAppend([], Distinct(a), b);
    AddMissingAppend([], a, b);
  }
}
