/** The tables a compaction writes. */
module Outputs {
  import opened InternalKeys
  import opened Version
  import opened DropRules
  import opened CompactionLoop

  /** The survivors are, in order, exactly the entries the drop rules keep. */
  lemma {:induction false} SurvivorsMeaning(es: seq<Entry>, n: nat, smallest: nat, base: iset<UserKey>)
    requires n <= |es|
    ensures forall e :: e in Survivors(es, n, smallest, base) <==> e in es[..n] && Keeps(Elements(es), e, smallest, base)
  {
    if n > 0 {
      SurvivorsMeaning(es, n - 1, smallest, base);
      assert es[..n] == es[..n - 1] + [es[n - 1]];
    }
  }

  lemma {:induction false} SurvivorsSorted(es: seq<Entry>, n: nat, smallest: nat, base: iset<UserKey>)
    requires n <= |es| && Sorted(es)
    ensures Sorted(Survivors(es, n, smallest, base))
  {
    if n > 0 {
      SurvivorsSorted(es, n - 1, smallest, base);
      SurvivorsMeaning(es, n - 1, smallest, base);
      forall e | e in Survivors(es, n - 1, smallest, base)
        ensures Before(e.k, es[n - 1].k)
      {
        var i :| 0 <= i < n - 1 && es[i] == e;
      }
    }
  }

  lemma SurvivorsAreKept(es: seq<Entry>, smallest: nat, base: iset<UserKey>)
    requires Sorted(es)
    ensures Elements(Survivors(es, |es|, smallest, base)) == Kept(Elements(es), smallest, base)
    ensures Sorted(Survivors(es, |es|, smallest, base))
  {
    assert es[..|es|] == es;
    SurvivorsMeaning(es, |es|, smallest, base);
    SurvivorsSorted(es, |es|, smallest, base);
  }

  /** The metadata recorded for the finished table of the entries `es`. */
  ghost predicate IsTableOf(f: File, es: seq<Entry>) {
    && es != []
    && f.entries == es
    && f.smallest == es[0].k
    && f.largest == es[|es| - 1].k
  }

  /** `outs` are the tables written for `outputs`. */
  ghost predicate AreTables(outs: seq<File>, outputs: seq<seq<Entry>>) {
    && |outs| == |outputs|
    && (forall i | 0 <= i < |outs| :: IsTableOf(outs[i], outputs[i]))
  }

  lemma {:induction false} FlattenElements(outputs: seq<seq<Entry>>)
    ensures forall e :: e in Flatten(outputs) <==> exists i :: 0 <= i < |outputs| && e in outputs[i]
  {
    if outputs != [] {
      var init := outputs[..|outputs| - 1];
      FlattenElements(init);
      forall e | e in Flatten(outputs)
        ensures exists i :: 0 <= i < |outputs| && e in outputs[i]
      {
        if e in Flatten(init) {
          var i :| 0 <= i < |init| && e in init[i];
          assert e in outputs[i];
        }
      }
      forall e, i | 0 <= i < |outputs| && e in outputs[i]
        ensures e in Flatten(outputs)
      {
        if i < |init| {
          assert e in init[i];
        }
      }
    }
  }

  /** Cutting a sorted sequence gives sorted pieces, each before the next. */
  lemma {:induction false} CutSorted(outputs: seq<seq<Entry>>)
    requires Sorted(Flatten(outputs))
    ensures forall i | 0 <= i < |outputs| :: Sorted(outputs[i])
    ensures forall i, j, x, y | 0 <= i < j < |outputs| && x in outputs[i] && y in outputs[j] :: Before(x.k, y.k)
  {
    if outputs != [] {
      var init, last := outputs[..|outputs| - 1], outputs[|outputs| - 1];
      var all := Flatten(outputs);
      SortedConcat(Flatten(init), last);
      CutSorted(init);
      FlattenElements(init);
      forall i, j, x, y | 0 <= i < j < |outputs| && x in outputs[i] && y in outputs[j]
        ensures Before(x.k, y.k)
      {
        assert x in init[i];
        if j < |init| {
          assert y in init[j];
        }
      }
      forall i | 0 <= i < |outputs|
        ensures Sorted(outputs[i])
      {
        if i < |init| {
          assert Sorted(init[i]);
        }
      }
    }
  }

  lemma SortedConcat(a: seq<Entry>, b: seq<Entry>)
    requires Sorted(a + b)
    ensures Sorted(a) && Sorted(b)
    ensures forall x, y | x in a && y in b :: Before(x.k, y.k)
  {
    var s := a + b;
    forall i, j | 0 <= i < j < |a|
      ensures Before(a[i].k, a[j].k)
    {
      assert s[i] == a[i] && s[j] == a[j];
    }
    forall i, j | 0 <= i < j < |b|
      ensures Before(b[i].k, b[j].k)
    {
      assert s[|a| + i] == b[i] && s[|a| + j] == b[j];
    }
    forall x, y | x in a && y in b
      ensures Before(x.k, y.k)
    {
      var i :| 0 <= i < |a| && a[i] == x;
      var j :| 0 <= j < |b| && b[j] == y;
      assert s[i] == x && s[|a| + j] == y;
    }
  }

  /** The tables hold exactly what the loop emitted, sorted and disjoint. */
  lemma TablesMeaning(outs: seq<File>, outputs: seq<seq<Entry>>)
    requires AreTables(outs, outputs) && Sorted(Flatten(outputs))
    ensures GoodFiles(outs) && Disjoint(outs)
    ensures FileEntries(outs) == Elements(Flatten(outputs))
  {
    TablesGood(outs, outputs);
    TablesEntries(outs, outputs);
  }

  lemma TablesGood(outs: seq<File>, outputs: seq<seq<Entry>>)
    requires AreTables(outs, outputs) && Sorted(Flatten(outputs))
    ensures GoodFiles(outs) && Disjoint(outs)
  {
    CutSorted(outputs);
    forall i, j | 0 <= i < j < |outs|
      ensures Before(outs[i].largest, outs[j].smallest)
    {
      var x, y := outputs[i][|outputs[i]| - 1], outputs[j][0];
      assert x in outputs[i] && y in outputs[j];
    }
  }

  lemma TablesEntries(outs: seq<File>, outputs: seq<seq<Entry>>)
    requires AreTables(outs, outputs)
    ensures FileEntries(outs) == Elements(Flatten(outputs))
  {
    FlattenElements(outputs);
    forall e | e in FileEntries(outs)
      ensures e in Flatten(outputs)
    {
      var f :| f in outs && e in f.entries;
      var i :| 0 <= i < |outs| && outs[i] == f;
      assert e in outputs[i];
    }
    forall e | e in Flatten(outputs)
      ensures e in FileEntries(outs)
    {
      var i :| 0 <= i < |outputs| && e in outputs[i];
      assert outs[i] in outs && e in outs[i].entries;
    }
  }
}
