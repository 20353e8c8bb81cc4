/** Counting the inventory's winners by file and by rule. */
module RowTally {
  import opened Inventory
  import opened Lists
  import opened Sorting

  function Matching(winners: map<string, Candidate>, f: Candidate -> bool): set<string> {
    set id | id in winners && f(winners[id])
  }

  function Rows(winners: map<string, Candidate>, f: Candidate -> bool): nat {
    |Matching(winners, f)|
  }

  function ByKey(key: Candidate -> string, k: string): Candidate -> bool {
    (c: Candidate) => key(c) == k
  }

  datatype KeyCount = KeyCount(key: string, rows: nat)

  function SumRows(items: seq<KeyCount>): nat {
    if items == [] then 0 else SumRows(items[..|items| - 1]) + items[|items| - 1].rows
  }

  ghost predicate HasKey(items: seq<KeyCount>, k: string) {
    exists i :: 0 <= i < |items| && items[i].key == k
  }

  // A list of counts per key: no key twice, the keys are those of the winners, each with its number of rows.
  ghost predicate Tally(items: seq<KeyCount>, winners: map<string, Candidate>, key: Candidate -> string) {
    && (forall i, j :: 0 <= i < j < |items| ==> items[i].key != items[j].key)
    && (forall i :: 0 <= i < |items| ==> items[i].rows == Rows(winners, ByKey(key, items[i].key)) && items[i].rows > 0)
    && (forall id :: id in winners ==> HasKey(items, key(winners[id])))
  }

  // The counting loop over the winners: a dictionary of counts.
  method CountRows(winners: map<string, Candidate>, key: Candidate -> string) returns (counts: map<string, nat>)
    ensures forall k :: (if k in counts then counts[k] else 0) == Rows(winners, ByKey(key, k))
    ensures forall k :: k in counts ==> counts[k] > 0
  {
    counts := map[];
    var rest := winners.Keys;
    ghost var done: map<string, Candidate> := map[];
    NoRows(key);
    hide Rows, ByKey;
    while rest != {}
      invariant rest <= winners.Keys && done.Keys == winners.Keys - rest
      invariant forall id :: id in done ==> done[id] == winners[id]
      invariant forall k :: (if k in counts then counts[k] else 0) == Rows(done, ByKey(key, k))
      invariant forall k :: k in counts ==> counts[k] > 0
    {
      var id :| id in rest;
      var k := key(winners[id]);
      OneMoreRow(done, id, winners[id], key);
      counts := counts[k := (if k in counts then counts[k] else 0) + 1];
      rest := rest - {id};
      done := done[id := winners[id]];
    }
    assert done == winners;
  }

  lemma NoRows(key: Candidate -> string)
    ensures forall k :: Rows(map[], ByKey(key, k)) == 0
  {
    forall k
      ensures Rows(map[], ByKey(key, k)) == 0
    {
      assert Matching(map[], ByKey(key, k)) == {};
    }
  }

  lemma OneMoreRow(done: map<string, Candidate>, id: string, c: Candidate, key: Candidate -> string)
    requires id !in done
    ensures forall k :: Rows(done[id := c], ByKey(key, k)) ==
                        Rows(done, ByKey(key, k)) + if key(c) == k then 1 else 0
  {
    forall k
      ensures Rows(done[id := c], ByKey(key, k)) == Rows(done, ByKey(key, k)) + if key(c) == k then 1 else 0
    {
      OneMoreMatch(done, id, c, ByKey(key, k));
    }
  }

  lemma OneMoreMatch(done: map<string, Candidate>, id: string, c: Candidate, f: Candidate -> bool)
    requires id !in done
    ensures Rows(done[id := c], f) == Rows(done, f) + if f(c) then 1 else 0
  {
    assert Matching(done[id := c], f) == if f(c) then Matching(done, f) + {id} else Matching(done, f);
  }

  // The keys ascend.
  ghost predicate InOrder(items: seq<KeyCount>) {
    forall i, j :: 0 <= i < j < |items| ==> StrLe(items[i].key, items[j].key)
  }

  // The dictionary written out as a list, in order of its keys.
  method Listed(counts: map<string, nat>) returns (items: seq<KeyCount>)
    ensures InOrder(items)
    ensures forall i, j :: 0 <= i < j < |items| ==> items[i].key != items[j].key
    ensures forall i :: 0 <= i < |items| ==> items[i].key in counts && items[i].rows == counts[items[i].key]
    ensures forall k :: k in counts ==> HasKey(items, k)
  {
    hide StrLe;
    var keys := SortedSet(counts.Keys);
    forall i | 0 <= i < |keys|
      ensures keys[i] in counts
    {
      assert keys[i] in Members(keys);
    }
    items := seq(|keys|, i requires 0 <= i < |keys| && keys[i] in counts => KeyCount(keys[i], counts[keys[i]]));
    forall i, j | 0 <= i < j < |items|
      ensures StrLe(items[i].key, items[j].key)
    {
      assert Ascending()(keys[i], keys[j]);
    }
    forall k | k in counts
      ensures HasKey(items, k)
    {
      assert k in Members(keys);
      var i :| 0 <= i < |keys| && keys[i] == k;
      assert items[i].key == k;
    }
  }

  lemma HasKeyGrows(items: seq<KeyCount>, x: KeyCount)
    ensures forall k :: HasKey(items + [x], k) <==> HasKey(items, k) || k == x.key
  {
    forall k
      ensures HasKey(items + [x], k) <==> HasKey(items, k) || k == x.key
    {
      assert (items + [x])[|items|] == x;
      if HasKey(items, k) {
        var i :| 0 <= i < |items| && items[i].key == k;
        assert (items + [x])[i].key == k;
      }
    }
  }

  method TallyRows(winners: map<string, Candidate>, key: Candidate -> string) returns (items: seq<KeyCount>)
    ensures Tally(items, winners, key) && InOrder(items)
  {
    var counts := CountRows(winners, key);
    items := Listed(counts);
    forall id | id in winners
      ensures HasKey(items, key(winners[id]))
    {
      RowsHasMember(winners, id, key);
      assert key(winners[id]) in counts;
    }
  }

  lemma RowsHasMember(winners: map<string, Candidate>, id: string, key: Candidate -> string)
    requires id in winners
    ensures Rows(winners, ByKey(key, key(winners[id]))) > 0
  {
    assert id in Matching(winners, ByKey(key, key(winners[id])));
  }

  // The winners without those of one key.
  ghost function Without(winners: map<string, Candidate>, key: Candidate -> string, k: string): map<string, Candidate> {
    map id | id in winners && key(winners[id]) != k :: winners[id]
  }

  lemma WithoutOne(winners: map<string, Candidate>, key: Candidate -> string, k: string)
    ensures |winners| == |Without(winners, key, k)| + Rows(winners, ByKey(key, k))
    ensures forall h :: h != k ==> Rows(Without(winners, key, k), ByKey(key, h)) == Rows(winners, ByKey(key, h))
  {
    var others, mine := Without(winners, key, k), Matching(winners, ByKey(key, k));
    assert winners.Keys == others.Keys + mine;
    assert |winners.Keys| == |others.Keys| + |mine|;
    forall h | h != k
      ensures Rows(others, ByKey(key, h)) == Rows(winners, ByKey(key, h))
    {
      assert Matching(others, ByKey(key, h)) == Matching(winners, ByKey(key, h));
    }
  }

  lemma TallyKeysWithout(items: seq<KeyCount>, winners: map<string, Candidate>, key: Candidate -> string, id: string)
    requires Tally(items, winners, key) && items != [] && id in Without(winners, key, items[|items| - 1].key)
    ensures HasKey(items[..|items| - 1], key(winners[id]))
  {
    var t, x := items[..|items| - 1], items[|items| - 1];
    assert items == t + [x];
    HasKeyGrows(t, x);
  }

  lemma TallyWithout(items: seq<KeyCount>, winners: map<string, Candidate>, key: Candidate -> string)
    requires Tally(items, winners, key) && items != []
    ensures Tally(items[..|items| - 1], Without(winners, key, items[|items| - 1].key), key)
  {
    hide Rows, HasKey, ByKey;
    var t, x := items[..|items| - 1], items[|items| - 1];
    var others := Without(winners, key, x.key);
    WithoutOne(winners, key, x.key);
    forall id | id in others
      ensures HasKey(t, key(others[id]))
    {
      TallyKeysWithout(items, winners, key, id);
    }
    forall i | 0 <= i < |t|
      ensures t[i].rows == Rows(others, ByKey(key, t[i].key))
    {
      assert t[i] == items[i] && items[i].key != x.key;
    }
  }

  lemma EmptyTally(winners: map<string, Candidate>, key: Candidate -> string)
    requires Tally([], winners, key)
    ensures winners == map[]
  {
    hide Rows, HasKey;
    if winners.Keys != {} {
      var id :| id in winners.Keys;
      KeyOfSome([], key(winners[id]));
    }
  }

  lemma KeyOfSome(items: seq<KeyCount>, k: string)
    requires HasKey(items, k)
    ensures items != []
  {
  }

  // Conservation: the per-key counts add up to the number of winners.
  lemma {:induction false} TallyAddsUp(items: seq<KeyCount>, winners: map<string, Candidate>, key: Candidate -> string)
    requires Tally(items, winners, key)
    ensures SumRows(items) == |winners|
    decreases |items|
  {
    hide Rows;
    if items == [] {
      EmptyTally(winners, key);
    } else {
      var k := items[|items| - 1].key;
      TallyWithout(items, winners, key);
      TallyAddsUp(items[..|items| - 1], Without(winners, key, k), key);
      WithoutOne(winners, key, k);
    }
  }
}
